/** The pool of BIRD control connections, one whole method at a time.

    The channel of idle entries is a sequence; the entries borrowed so far are a ghost set. */
module BirdPool {
  import opened BirdDial
  import opened ControlReply

  const STALE_AFTER := 300 * SECOND

  class PooledConnection {
    var conn: BirdConn?
    var lastUsed: int
    var inUse: bool

    constructor (conn: BirdConn, lastUsed: int, inUse: bool)
      ensures this.conn == conn && this.lastUsed == lastUsed && this.inUse == inUse
    {
      this.conn, this.lastUsed, this.inUse := conn, lastUsed, inUse;
    }
  }

  ghost predicate NoDup<T>(s: seq<T>) {
    forall i, j :: 0 <= i < j < |s| ==> s[i] != s[j]
  }

  /** A sequence without repetition is no longer than what its elements come from. */
  lemma {:induction false} Covered<T>(s: seq<T>, channel: seq<T>, lent: set<T>)
    requires NoDup(s) && forall e :: e in s ==> e in channel || e in lent
    ensures |s| <= |channel| + |lent|
  {
    if channel != [] {
      var e := channel[0];
      if i :| 0 <= i < |s| && s[i] == e {
        var rest := s[..i] + s[i + 1..];
        forall f | f in rest
          ensures f in channel[1..] || f in lent
        {
          assert f in s && f != e;
        }
        Covered(rest, channel[1..], lent);
      } else {
        Covered(s, channel[1..], lent);
      }
    } else {
      DistinctElements(s, lent);
    }
  }

  lemma {:induction false} DistinctElements<T>(s: seq<T>, all: set<T>)
    requires NoDup(s) && forall e :: e in s ==> e in all
    ensures |s| <= |all|
  {
    if s != [] {
      var n := |s| - 1;
      forall e | e in s[..n]
        ensures e in all - {s[n]}
      {
      }
      DistinctElements(s[..n], all - {s[n]});
    }
  }

  lemma {:induction false} LentFits<T>(lent: set<T>, s: seq<T>)
    requires forall e :: e in lent ==> e in s
    ensures |lent| <= |s|
  {
    if s == [] {
      assert lent == {};
    } else {
      LentFits(lent - {s[0]}, s[1..]);
    }
  }

  // ---------------------------------------------------------------------------------------
  // Which entries a maintenance pass keeps.
  // ---------------------------------------------------------------------------------------

  /** What the pass looks at in an entry. */
  datatype Spare = Spare(inUse: bool, stale: bool)

  function Count(flags: seq<bool>): nat {
    if flags == [] then 0
    else Count(flags[..|flags| - 1]) + if flags[|flags| - 1] then 1 else 0
  }

  /** The elements whose flag is set, in order. */
  function Filter<T>(s: seq<T>, flags: seq<bool>): (r: seq<T>)
    requires |flags| == |s|
    ensures |r| == Count(flags)
  {
    if s == [] then []
    else
      var n := |s| - 1;
      Filter(s[..n], flags[..n]) + if flags[n] then [s[n]] else []
  }

  /** For each entry, whether the pass keeps it. */
  function Survives(spares: seq<Spare>, base: nat): (flags: seq<bool>)
    ensures |flags| == |spares|
  {
    if spares == [] then []
    else
      var n := |spares| - 1;
      var flags := Survives(spares[..n], base);
      flags + [spares[n].inUse || Count(flags) < base || !spares[n].stale]
  }

  lemma {:induction false} SurvivesPrefix(spares: seq<Spare>, base: nat, i: nat)
    requires i <= |spares|
    ensures Survives(spares, base)[..i] == Survives(spares[..i], base)
  {
    if i < |spares| {
      var n := |spares| - 1;
      SurvivesPrefix(spares[..n], base, i);
      assert spares[..n][..i] == spares[..i];
    } else {
      assert spares[..i] == spares;
    }
  }

  /** An entry is dropped exactly when it is idle, stale and preceded by enough that are kept; so
      the pass keeps what is in use, and at least the base size. */
  lemma {:induction false} SurvivesIff(spares: seq<Spare>, base: nat, i: nat)
    requires i < |spares|
    ensures var flags := Survives(spares, base);
            !flags[i] <==> !spares[i].inUse && spares[i].stale && Count(flags[..i]) >= base
  {
    var n := |spares| - 1;
    SurvivesPrefix(spares, base, n);
    if i < n {
      SurvivesIff(spares[..n], base, i);
      assert Survives(spares, base)[..i] == Survives(spares[..n], base)[..i];
    }
  }

  lemma {:induction false} EnoughSurvive(spares: seq<Spare>, base: nat)
    ensures Count(Survives(spares, base)) >= if |spares| < base then |spares| else base
  {
    if spares != [] {
      var n := |spares| - 1;
      EnoughSurvive(spares[..n], base);
      SurvivesPrefix(spares, base, n);
    }
  }

  /** The survivor that was at position i is now at the number of survivors before it. */
  lemma {:induction false} FilterAt<T>(s: seq<T>, flags: seq<bool>, i: nat)
    requires |flags| == |s| && i < |s| && flags[i]
    ensures Count(flags[..i]) < Count(flags) && Filter(s, flags)[Count(flags[..i])] == s[i]
  {
    var n := |s| - 1;
    if i < n {
      FilterAt(s[..n], flags[..n], i);
      assert flags[..n][..i] == flags[..i];
    }
  }

  /** The kept entries are the flagged ones, each once. */
  lemma {:induction false} FilterElements<T>(s: seq<T>, flags: seq<bool>)
    requires |flags| == |s| && NoDup(s)
    ensures NoDup(Filter(s, flags)) && |Filter(s, flags)| <= |s|
    ensures forall e :: e in Filter(s, flags) ==> e in s
    ensures forall i :: 0 <= i < |s| ==> (s[i] in Filter(s, flags) <==> flags[i])
  {
    if s != [] {
      var n := |s| - 1;
      FilterElements(s[..n], flags[..n]);
      assert s[n] !in s[..n];
    }
  }

  /** As the first entries, up to the base size, are all kept, those dropped are the idle and stale ones
      after them. */
  lemma {:induction false} DroppedIff(spares: seq<Spare>, base: nat, i: nat)
    requires i < |spares|
    ensures !Survives(spares, base)[i] <==> i >= base && !spares[i].inUse && spares[i].stale
  {
    SurvivesIff(spares, base, i);
    SurvivesPrefix(spares, base, i);
    EnoughSurvive(spares[..i], base);
    CountBound(Survives(spares[..i], base));
  }

  lemma {:induction false} CountBound(flags: seq<bool>)
    ensures Count(flags) <= |flags|
  {
    if flags != [] {
      CountBound(flags[..|flags| - 1]);
    }
  }

  /** Past the base size, only entries in use or lately used survive. */
  lemma {:induction false} LateSurvivors(spares: seq<Spare>, base: nat, k: nat)
    requires base <= k < Count(Survives(spares, base))
    ensures var kept := Filter(spares, Survives(spares, base))[k]; kept.inUse || !kept.stale
  {
    var n := |spares| - 1;
    SurvivesPrefix(spares, base, n);
    if k < Count(Survives(spares[..n], base)) {
      LateSurvivors(spares[..n], base, k);
    } else {
      SurvivesIff(spares, base, n);
    }
  }

  ghost function Conns(s: seq<PooledConnection>): set<BirdConn>
    reads s
  {
    set e | e in s && e.conn != null :: e.conn
  }

  ghost function Itself(pc: PooledConnection?): set<PooledConnection> {
    if pc == null then {} else {pc}
  }

  class BirdPool {
    const poolSize: nat
    const poolSizeMax: nat
    const dialer: Dialer
    var pool: seq<PooledConnection>
    var available: seq<PooledConnection>
    var shutdown: bool
    /** Whether the channel is closed: a receive from it then always succeeds. */
    var closed: bool
    ghost var lent: set<PooledConnection>

    /** For a pool with these members: every member is either idle in the channel or lent, and
        usable; an idle entry that is no member has been reaped; idle and lent entries together fit
        the channel. */
    ghost predicate ActiveFor(members: seq<PooledConnection>)
      reads this`available, this`lent, members, available, Conns(members)
    {
      && |available| + |lent| <= poolSizeMax
      && NoDup(available)
      && (forall e :: e in available ==> e !in lent && (e !in members ==> e.conn == null))
      && (forall e :: e in lent ==> e in members)
      && (forall e :: e in members ==>
            && (e in available || e in lent)
            && (e.inUse <==> e in lent)
            && e.conn != null && e.conn.open && e.conn.restricted)
      && (forall e, f :: e in members && f in members && e != f ==> e.conn != f.conn)
    }

    ghost predicate Active()
      reads this, pool, available, Conns(pool)
    {
      ActiveFor(pool)
    }

    ghost predicate Valid()
      reads this, dialer, pool, available, Conns(pool)
    {
      && dialer.Valid() && !closed
      && poolSize <= poolSizeMax
      && |pool| <= poolSizeMax && NoDup(pool)
      && (if shutdown then available == [] else Active())
    }

    constructor (poolSize: nat, poolSizeMax: nat, dialer: Dialer)
      requires dialer.Valid()
      ensures Valid() && !shutdown && pool == [] && available == [] && lent == {}
      ensures this.dialer == dialer && this.poolSize == poolSize
      ensures this.poolSizeMax == if poolSizeMax < poolSize then poolSize * 4 else poolSizeMax
    {
      this.poolSize := poolSize;
      this.poolSizeMax := if poolSizeMax < poolSize then poolSize * 4 else poolSizeMax;
      this.dialer := dialer;
      pool, available, shutdown, closed, lent := [], [], false, false, {};
    }

    /** A pool entry for a connection just dialled, put in the pool. */
    method AddEntry(bc: BirdConn, lend: bool) returns (pc: PooledConnection)
      requires Valid() && !shutdown
      requires |pool| < poolSizeMax && |available| + |lent| < poolSizeMax
      requires bc.open && bc.restricted && forall e :: e in pool ==> e.conn != bc
      modifies this`pool, this`available, this`lent
      ensures Valid() && fresh(pc) && pool == old(pool) + [pc]
      ensures available == if lend then old(available) else old(available) + [pc]
      ensures lent == if lend then old(lent) + {pc} else old(lent)
      ensures pc.conn == bc && pc.inUse == lend && pc.lastUsed == dialer.now
    {
      pc := new PooledConnection(bc, dialer.now, lend);
      pool := pool + [pc];
      if lend {
        lent := lent + {pc};
      } else {
        available := available + [pc];
      }
    }

    /** A reaped entry at the head of the channel means the pool is not full. */
    lemma StaleHeadLeavesRoom()
      requires Valid() && !shutdown && available != [] && available[0].conn == null
      ensures |pool| < poolSizeMax
    {
      assert forall e :: e in pool ==> e in available[1..] || e in lent;
      Covered(pool, available[1..], lent);
    }

    lemma LentWithinPool()
      requires Valid() && !shutdown
      ensures |lent| <= |pool| <= |available| + |lent|
    {
      LentFits(lent, pool);
      Covered(pool, available, lent);
    }

    /** The head of the channel: lent if it is usable, and dropped if it has been reaped. */
    method TakeIdle() returns (pc: PooledConnection?)
      requires Valid() && !shutdown && available != []
      modifies this`available, this`lent, (set e | e in available)`inUse, (set e | e in available)`lastUsed
      ensures Valid() && available == old(available)[1..]
      ensures pc == if old(available[0].conn) == null then null else old(available)[0]
      ensures lent == if pc == null then old(lent) else old(lent) + {pc}
      ensures pc != null ==> pc !in old(lent) && Usable(pc) && pc in old(available) && pc.conn == old(available[0].conn)
      ensures pc != null ==> pc.lastUsed == dialer.now
      ensures pc == null ==> |pool| < poolSizeMax && |available| + |lent| < poolSizeMax
    {
      if available[0].conn == null {
        StaleHeadLeavesRoom();
        available := available[1..];
        return null;
      }
      pc := available[0];
      available := available[1..];
      pc.inUse := true;
      pc.lastUsed := dialer.now;
      lent := lent + {pc};
    }

    ghost predicate Usable(pc: PooledConnection)
      reads this, pc, if pc.conn == null then {} else {pc.conn}
    {
      pc in pool && pc.inUse && pc.conn != null && pc.conn.open && pc.conn.restricted
    }

    /** A new connection, lent at once. */
    method LendNew(outcomes: nat -> DialOutcome) returns (pc: PooledConnection?)
      requires Valid() && |pool| < poolSizeMax && (!shutdown ==> |available| + |lent| < poolSizeMax)
      modifies this`pool, this`available, this`lent, dialer
      ensures Valid() && available == old(available)
      ensures pc != null ==> fresh(pc) && Usable(pc) && fresh(pc.conn) && pool == old(pool) + [pc] && lent == old(lent) + {pc}
      ensures pc != null ==> pc.lastUsed == dialer.now
      ensures pc == null ==> pool == old(pool) && lent == old(lent)
      ensures pc != null <==> Connects(outcomes, 0, dialer.Allowed())
    {
      hide Connects;
      var bc := dialer.CreateConnection(outcomes);
      if bc == null {
        return null;
      }
      if shutdown {
        pc := new PooledConnection(bc, dialer.now, true);
        pool, lent := pool + [pc], lent + {pc};
      } else {
        pc := AddEntry(bc, true);
      }
    }

    /** The entry returned was not lent; it is usable. A caller gets none only if no connection could be
        made, or the pool is full and every member is lent; then it waits. */
    method GetConnection(outcomes: nat -> DialOutcome) returns (pc: PooledConnection?)
      requires Valid()
      modifies this`pool, this`available, this`lent, dialer, (set e | e in available)`inUse, (set e | e in available)`lastUsed
      ensures Valid()
      ensures pc != null ==> pc !in old(lent) && lent == old(lent) + {pc} && Usable(pc)
      ensures pc == null ==> lent == old(lent) && pool == old(pool)
      ensures pc != null ==> pc.lastUsed == dialer.now
      ensures old(available) != [] && old(available[0].conn) != null ==>
                pc == old(available)[0] && pc.conn == old(available[0].conn) && pool == old(pool)
      ensures pc != null && (old(available) == [] || old(available[0].conn) == null) ==>
                fresh(pc) && fresh(pc.conn) && pool == old(pool) + [pc]
      ensures available == if old(available) == [] then [] else old(available)[1..]
      ensures !shutdown && pc == null && |pool| == poolSizeMax ==> old(available) == [] && |lent| == poolSizeMax
      ensures pc != null <==> (old(available) != [] && old(available[0].conn) != null)
                              || (|old(pool)| < poolSizeMax && Connects(outcomes, 0, dialer.Allowed()))
    {
      if available != [] {
        pc := TakeIdle();
        if pc != null {
          return;
        }
      } else if !shutdown {
        LentWithinPool();
      }
      hide Valid, Active, Connects;
      if |pool| < poolSizeMax {
        pc := LendNew(outcomes);
        return;
      }
      // The pool is full, so the channel is empty and every member is lent: see WaitForConnection.
      return null;
    }

    /** The wait at a full pool, for the first entry, if any, that another borrower gives back in time. It
        goes from one to the other; without one, or after a shutdown, the caller leaves empty-handed. */
    method WaitForConnection(returned: PooledConnection?) returns (pc: PooledConnection?)
      requires Valid() && available == [] && (returned != null ==> returned in lent)
      modifies this`available, this`lent, Itself(returned)`inUse, Itself(returned)`lastUsed,
               Conns(if returned == null then [] else [returned])`open
      ensures Valid() && available == []
      ensures pc == if shutdown then null else returned
      ensures lent == if shutdown && returned != null then old(lent) - {returned} else old(lent)
      ensures pc != null ==> Usable(pc) && pc.conn == old(pc.conn) && pc.lastUsed == dialer.now
    {
      assert returned != null && !shutdown ==> returned in pool;
      hide Valid, Active;
      if returned != null {
        ReleaseConnection(returned);
        if !shutdown {
          assert available == [returned];
          ReturnedIsConnected(returned);
          pc := TakeIdle();
          return;
        }
      }
      return null;
    }

    lemma ReturnedIsConnected(pc: PooledConnection)
      requires Valid() && !shutdown && available == [pc] && pc in pool
      ensures pc.conn != null
    {
    }

    /** A borrowed entry goes back to the channel, which always has room for it. */
    method ReleaseConnection(pc: PooledConnection?)
      requires Valid() && (pc != null ==> pc in lent)
      modifies this`available, this`lent, Itself(pc)`inUse, Itself(pc)`lastUsed, Conns(if pc == null then [] else [pc])`open
      ensures Valid()
      ensures pc != null ==> lent == old(lent) - {pc}
      ensures pc != null && !shutdown ==>
                && available == old(available) + [pc] && !pc.inUse && pc.lastUsed == dialer.now
                && pc.conn == old(pc.conn) && pc.conn != null && pc.conn.open
      ensures pc != null && shutdown ==> available == old(available) && (old(pc.conn) != null ==> !old(pc.conn).open)
      ensures pc == null ==> lent == old(lent) && available == old(available)
    {
      if pc == null {
        return;
      }
      if shutdown {
        if pc.conn != null {
          pc.conn.Close();
        }
        lent := lent - {pc};
        return;
      }
      assert |available| < poolSizeMax;
      pc.inUse := false;
      pc.lastUsed := dialer.now;
      lent := lent - {pc};
      if |available| < poolSizeMax {
        available := available + [pc];
      }
    }

    /** A reconnected entry gets the new connection; the old one is closed. */
    method SwapConnection(pc: PooledConnection, bc: BirdConn)
      requires Valid() && Usable(pc) && pc in lent
      requires bc.open && bc.restricted && bc !in Conns(pool)
      modifies pc`conn, pc.conn`open
      ensures Valid() && Usable(pc) && pc.conn == bc
      ensures !old(pc.conn).open
    {
      var previous := pc.conn;
      pc.conn := bc;
      previous.Close();
    }

    method Reconnect(pc: PooledConnection, outcomes: nat -> DialOutcome) returns (ok: bool)
      requires Valid() && Usable(pc) && pc in lent
      modifies dialer, pc`conn, pc.conn`open
      ensures Valid() && Usable(pc)
      ensures if ok then fresh(pc.conn) && !old(pc.conn).open else pc.conn == old(pc.conn)
      ensures ok <==> Connects(outcomes, 0, dialer.Allowed())
    {
      hide Connects;
      var bc := dialer.CreateConnection(outcomes);
      if bc == null {
        return false;
      }
      SwapConnection(pc, bc);
      return true;
    }

    /** Borrow, run the operation, reconnect and run it once more if it failed, give back. Whether the
        first and the second run succeed is an input; the results tell on which connection each was made. */
    method WithConnection(outcomes: nat -> DialOutcome, reconnect: nat -> DialOutcome, first: bool, second: bool)
        returns (ok: bool, ghost runs: seq<BirdConn>)
      requires Valid()
      modifies this`pool, this`available, this`lent, dialer, (set e | e in available), Conns(available)`open
      ensures Valid() && lent == old(lent)
      ensures |old(pool)| <= |pool| <= |old(pool)| + 1 && pool[..|old(pool)|] == old(pool)
      ensures |pool| > |old(pool)| ==> fresh(pool[|old(pool)|]) && fresh(pool[|old(pool)|].conn)
      ensures forall e :: e in available ==> e in old(available) || (e in pool && e !in old(pool))
      ensures forall e :: e in old(available) ==> e.conn == old(e.conn) || fresh(e.conn)
      ensures ok <==> (|runs| >= 1 && first) || (|runs| == 2 && second)
      ensures |runs| >= 1 <==> (old(available) != [] && old(available[0].conn) != null)
                               || (|old(pool)| < poolSizeMax && Connects(outcomes, 0, dialer.Allowed()))
      ensures |runs| == 2 <==> |runs| >= 1 && !first && Connects(reconnect, 0, dialer.Allowed())
      ensures |runs| <= 2 && (|runs| == 2 ==> fresh(runs[1]) && !runs[0].open)
      ensures |runs| >= 1 ==> if old(available) != [] && old(available[0].conn) != null
                              then runs[0] == old(available[0].conn) && pool == old(pool)
                              else fresh(runs[0]) && |pool| == |old(pool)| + 1
      ensures |runs| == 0 ==> pool == old(pool) && available == if old(available) == [] then [] else old(available)[1..]
      ensures |runs| >= 1 ==> GivenBack(runs[|runs| - 1])
    {
      hide Valid, Active, Connects;
      var pc := GetConnection(outcomes);
      if pc == null {
        return false, [];
      }
      // GetConnection never returns an entry without a connection, so none is dialled for that here.
      ok, runs := first, [pc.conn];
      if !first {
        var reconnected := Reconnect(pc, reconnect);
        if reconnected {
          ok, runs := second, runs + [pc.conn];
        }
      }
      ReleaseConnection(pc);
    }

    /** The entry used is at the end of the channel again, with this connection; after a shutdown the
        connection is closed instead. */
    twostate predicate GivenBack(new conn: BirdConn)
      reads this, pool, available, dialer, conn
    {
      if shutdown then available == [] && !conn.open
      else
        var rest := if old(available) == [] then [] else old(available)[1..];
        && |available| == |rest| + 1 && available[..|rest|] == rest
        && var back := available[|rest|];
           && (if old(available) != [] && old(available[0].conn) != null then back == old(available)[0]
               else |pool| > |old(pool)| && back == pool[|old(pool)|])
           && back.conn == conn && conn.open && !back.inUse && back.lastUsed == dialer.now
    }

    // -------------------------------------------------------------------------------------
    // Maintenance.
    // -------------------------------------------------------------------------------------

    /** What a pass starting now sees of the pool. */
    ghost predicate Sees(spares: seq<Spare>, conns: seq<BirdConn>)
      reads this, dialer, pool
    {
      && |spares| == |conns| == |pool|
      && forall j :: 0 <= j < |pool| ==>
           && pool[j].conn == conns[j]
           && spares[j].inUse == pool[j].inUse
           && spares[j].stale == (dialer.now - pool[j].lastUsed > STALE_AFTER)
    }

    /** Up to the position, unflagged entries are closed and disconnected; all others are as they were. */
    ghost predicate Swept(s: seq<PooledConnection>, conns: seq<BirdConn>, flags: seq<bool>, upTo: nat)
      requires |conns| == |s| == |flags|
      reads s, conns
    {
      forall j :: 0 <= j < |s| ==>
        if j < upTo && !flags[j] then s[j].conn == null && !conns[j].open
        else s[j].conn == conns[j] && conns[j].open
    }

    /** An entry dropped by the loop. */
    method Reap(i: nat, pc: PooledConnection, ghost conns: seq<BirdConn>, ghost flags: seq<bool>)
      requires |conns| == |pool| == |flags| && i < |pool| && NoDup(pool) && NoDup(conns)
      requires pc == pool[i] && !flags[i] && Swept(pool, conns, flags, i)
      modifies pc`conn, conns[i..i + 1]`open
      ensures Swept(pool, conns, flags, i + 1)
    {
      pc.conn.Close();
      pc.conn := null;
    }

    /** The loop of a tick. */
    method Sweep(ghost spares: seq<Spare>, ghost conns: seq<BirdConn>) returns (newPool: seq<PooledConnection>)
      requires Sees(spares, conns) && NoDup(pool) && NoDup(conns)
      requires forall j :: 0 <= j < |conns| ==> conns[j].open
      modifies (set e | e in pool)`conn, conns`open
      ensures newPool == Filter(pool, Survives(spares, poolSize))
      ensures Swept(pool, conns, Survives(spares, poolSize), |pool|)
    {
      var now := dialer.now;
      ghost var flags := Survives(spares, poolSize);
      newPool := [];
      SweepStart(spares, conns);
      hide NoDup, Survives, Swept, Filter, Count, Sees, Timed;
      for i := 0 to |pool|
        invariant newPool == Filter(pool[..i], flags[..i])
        invariant Swept(pool, conns, flags, i)
      {
        newPool := SweepEntry(i, pool[i], newPool, now, spares, conns);
      }
      assert pool[..|pool|] == pool && flags[..|pool|] == flags;
    }

    /** The pool as the pass saw it, as far as its entries' flags and times go. */
    ghost predicate Timed(spares: seq<Spare>, now: int)
      reads this, (set e | e in pool)`inUse, (set e | e in pool)`lastUsed
    {
      |spares| == |pool|
      && forall j :: 0 <= j < |pool| ==>
           spares[j].inUse == pool[j].inUse && spares[j].stale == (now - pool[j].lastUsed > STALE_AFTER)
    }

    /** One round of the loop. */
    method SweepEntry(i: nat, pc: PooledConnection, kept: seq<PooledConnection>, now: int, ghost spares: seq<Spare>, ghost conns: seq<BirdConn>)
        returns (newPool: seq<PooledConnection>)
      requires Timed(spares, now) && |conns| == |pool| && i < |pool| && pc == pool[i] && NoDup(pool) && NoDup(conns)
      requires var flags := Survives(spares, poolSize);
               kept == Filter(pool[..i], flags[..i]) && Swept(pool, conns, flags, i)
      modifies pc`conn, conns[i..i + 1]`open
      ensures var flags := Survives(spares, poolSize);
              newPool == Filter(pool[..i + 1], flags[..i + 1]) && Swept(pool, conns, flags, i + 1)
    {
      ghost var flags := Survives(spares, poolSize);
      SurvivesIff(spares, poolSize, i);
      FilterStep(pool, flags, i);
      hide NoDup, Survives, Swept, Filter, Count;
      if pc.inUse || |kept| < poolSize || now - pc.lastUsed <= STALE_AFTER {
        newPool := kept + [pc];
        KeptStep(pool, conns, flags, i);
      } else {
        newPool := kept;
        Reap(i, pc, conns, flags);
      }
    }

    lemma {:induction false} SweepStart(spares: seq<Spare>, conns: seq<BirdConn>)
      requires Sees(spares, conns) && forall j :: 0 <= j < |conns| ==> conns[j].open
      ensures Filter(pool[..0], Survives(spares, poolSize)[..0]) == []
      ensures Swept(pool, conns, Survives(spares, poolSize), 0)
      ensures |conns| == |pool| && Timed(spares, dialer.now)
    {
    }

    lemma KeptStep(s: seq<PooledConnection>, conns: seq<BirdConn>, flags: seq<bool>, i: nat)
      requires |conns| == |s| == |flags| && i < |s| && flags[i] && Swept(s, conns, flags, i)
      ensures Swept(s, conns, flags, i + 1)
    {
    }

    /** What a pass leaves as it is. */
    ghost predicate Placed()
      reads this, pool, available
    {
      && |available| + |lent| <= poolSizeMax
      && NoDup(available)
      && (forall e :: e in available ==> e !in lent && (e !in pool ==> e.conn == null))
      && (forall e :: e in lent ==> e in pool)
      && (forall e :: e in pool ==> (e in available || e in lent) && (e.inUse <==> e in lent))
    }

    /** The entries kept make an active pool. */
    lemma SweptActive(newPool: seq<PooledConnection>, conns: seq<BirdConn>, flags: seq<bool>)
      requires |conns| == |pool| == |flags| && Swept(pool, conns, flags, |pool|) && Placed()
      requires forall e :: e in newPool ==> e in pool
      requires forall j :: 0 <= j < |pool| ==> (pool[j] in newPool <==> flags[j]) && (!flags[j] ==> !pool[j].inUse)
      requires NoDup(conns) && forall j :: 0 <= j < |conns| ==> conns[j].restricted
      ensures ActiveFor(newPool)
    {
      forall e | e in pool
        ensures e in newPool ==> e.conn != null && e.conn.open && e.conn.restricted
        ensures e !in newPool ==> e.conn == null && !e.inUse
      {
        var j :| 0 <= j < |pool| && pool[j] == e;
      }
      forall e, f | e in newPool && f in newPool && e != f
        ensures e.conn != f.conn
      {
        var j :| 0 <= j < |pool| && pool[j] == e;
        var k :| 0 <= k < |pool| && pool[k] == f;
        assert conns[j] != conns[k];
      }
    }

    lemma {:induction false} FlagsKeepLent(spares: seq<Spare>, conns: seq<BirdConn>)
      requires Sees(spares, conns)
      ensures forall j :: 0 <= j < |pool| && !Survives(spares, poolSize)[j] ==> !pool[j].inUse
    {
      forall j | 0 <= j < |pool| && !Survives(spares, poolSize)[j]
        ensures !pool[j].inUse
      {
        SurvivesIff(spares, poolSize, j);
      }
    }

    lemma ActiveParts(spares: seq<Spare>, conns: seq<BirdConn>)
      requires Valid() && !shutdown && Sees(spares, conns)
      ensures Placed() && NoDup(pool) && |conns| == |pool| == |spares|
      ensures NoDup(conns) && forall j :: 0 <= j < |conns| ==> conns[j].open && conns[j].restricted
    {
    }

    /** One tick of the maintenance loop, given what it sees of the pool. */
    method MaintenancePass(ghost spares: seq<Spare>, ghost conns: seq<BirdConn>)
      requires Valid() && !shutdown && Sees(spares, conns)
      modifies this`pool, (set e | e in pool)`conn, conns`open
      ensures Valid()
      ensures |old(pool)| <= poolSize ==> pool == old(pool)
      ensures |old(pool)| <= poolSize ==> forall e :: e in pool ==> e.conn == old(e.conn)
      ensures |old(pool)| > poolSize ==>
                var flags := Survives(spares, poolSize);
                pool == Filter(old(pool), flags) && Swept(old(pool), conns, flags, |old(pool)|)
      ensures Dropped(old(pool), pool)
    {
      PassDrops(spares, conns);
      hide Dropped, Survives, Filter, Swept, Sees, Valid;
      if |pool| <= poolSize {
        return;
      }
      SweepPool(spares, conns);
    }

    method SweepPool(ghost spares: seq<Spare>, ghost conns: seq<BirdConn>)
      requires Valid() && !shutdown && Sees(spares, conns)
      modifies this`pool, (set e | e in pool)`conn, conns`open
      ensures Valid()
      ensures var flags := Survives(spares, poolSize);
              pool == Filter(old(pool), flags) && Swept(old(pool), conns, flags, |old(pool)|)
    {
      hide Valid, Survives, Filter, Swept, Sees, ActiveFor, NoDup, Placed;
      ghost var flags := Survives(spares, poolSize);
      ActiveParts(spares, conns);
      KeptParts(spares, conns);
      var newPool := SweepPlaced(spares, conns);
      SweptActive(newPool, conns, flags);
      Install(newPool);
    }

    lemma {:induction false} KeptParts(spares: seq<Spare>, conns: seq<BirdConn>)
      requires Valid() && !shutdown && Sees(spares, conns)
      ensures dialer.Valid() && !closed && poolSize <= poolSizeMax
      ensures var (flags, kept) := (Survives(spares, poolSize), Filter(pool, Survives(spares, poolSize)));
              && NoDup(kept) && |kept| <= poolSizeMax && (forall e :: e in kept ==> e in pool)
              && forall j :: 0 <= j < |pool| ==> (pool[j] in kept <==> flags[j]) && (!flags[j] ==> !pool[j].inUse)
    {
      FilterElements(pool, Survives(spares, poolSize));
      FlagsKeepLent(spares, conns);
      hide Survives, Filter, Active;
    }

    /** Gone are exactly those past the base size that are idle and unused for over five minutes. */
    ghost predicate Dropped(before: seq<PooledConnection>, after: seq<PooledConnection>)
      reads dialer, (set e | e in before)`inUse, (set e | e in before)`lastUsed
    {
      forall i :: 0 <= i < |before| ==>
        (before[i] !in after <==> i >= poolSize && !before[i].inUse && dialer.now - before[i].lastUsed > 300_000_000_000)
    }

    lemma {:induction false} PassDrops(spares: seq<Spare>, conns: seq<BirdConn>)
      requires Valid() && Sees(spares, conns)
      ensures Dropped(pool, if |pool| <= poolSize then pool else Filter(pool, Survives(spares, poolSize)))
    {
      FilterElements(pool, Survives(spares, poolSize));
      forall i | 0 <= i < |pool|
        ensures !Survives(spares, poolSize)[i] <==> i >= poolSize && !pool[i].inUse && dialer.now - pool[i].lastUsed > 300_000_000_000
      {
        DroppedIff(spares, poolSize, i);
      }
    }

    method Install(newPool: seq<PooledConnection>)
      requires dialer.Valid() && !shutdown && !closed && poolSize <= poolSizeMax
      requires |newPool| <= poolSizeMax && NoDup(newPool) && ActiveFor(newPool)
      modifies this`pool
      ensures Valid() && pool == newPool
    {
      pool := newPool;
    }

    method SweepPlaced(ghost spares: seq<Spare>, ghost conns: seq<BirdConn>) returns (newPool: seq<PooledConnection>)
      requires Sees(spares, conns) && NoDup(pool) && NoDup(conns) && Placed()
      requires forall j :: 0 <= j < |conns| ==> conns[j].open
      modifies (set e | e in pool)`conn, conns`open
      ensures newPool == Filter(pool, Survives(spares, poolSize))
      ensures Swept(pool, conns, Survives(spares, poolSize), |pool|)
      ensures Placed()
    {
      hide Survives, Filter, Swept, Sees, NoDup;
      newPool := Sweep(spares, conns);
    }

    // -------------------------------------------------------------------------------------
    // Opening and closing.
    // -------------------------------------------------------------------------------------

    /** NewBirdPool's loop, with the drain loop of a close watched for so many rounds. When a dial fails
        the pool is closed. If it was the very first, the drain is still going on after any number of
        rounds; otherwise it ends within poolSize of them. */
    method Open(outcomes: nat -> nat -> DialOutcome, rounds: nat) returns (result: Opening)
      requires Valid() && !shutdown && pool == [] && available == [] && lent == {}
      modifies this`pool, this`available, this`lent, this`shutdown, this`closed, dialer
      ensures result != Stuck ==> Valid()
      ensures result == Ready <==> forall i: nat :: i < poolSize ==> Connects(outcomes(i), 0, dialer.Allowed())
      ensures poolSize > 0 && !Connects(outcomes(0), 0, dialer.Allowed()) ==> result == Stuck
      ensures rounds >= poolSize ==> (result == Stuck <==> poolSize > 0 && !Connects(outcomes(0), 0, dialer.Allowed()))
      ensures result == Ready ==> !shutdown && |pool| == poolSize && available == pool && lent == {}
      ensures result == Ready ==> forall e :: e in pool ==> fresh(e) && e.conn != null && fresh(e.conn)
      ensures result == Failed ==> shutdown && pool == []
    {
      hide Connects, CloseStops, Active;
      for i := 0 to poolSize
        invariant Valid() && !shutdown && |pool| == i && available == pool && lent == {}
        invariant forall e :: e in pool ==> fresh(e) && fresh(e.conn)
        invariant forall k: nat :: k < i ==> Connects(outcomes(k), 0, dialer.Allowed())
      {
        var pc := OpenEntry(outcomes(i));
        if pc == null {
          var ended := GiveUp(rounds);
          return if ended then Failed else Stuck;
        }
      }
      return Ready;
    }

    method OpenEntry(outcomes: nat -> DialOutcome) returns (pc: PooledConnection?)
      requires Valid() && !shutdown && |pool| < poolSize && available == pool && lent == {}
      modifies this`pool, this`available, this`lent, dialer
      ensures Valid() && available == pool && lent == {}
      ensures pc != null <==> Connects(outcomes, 0, dialer.Allowed())
      ensures if pc == null then pool == old(pool) else pool == old(pool) + [pc] && fresh(pc) && fresh(pc.conn)
    {
      hide Connects;
      assert poolSize <= poolSizeMax;
      var bc := dialer.CreateConnection(outcomes);
      if bc == null {
        return null;
      }
      pc := AddEntry(bc, false);
    }

    method GiveUp(rounds: nat) returns (ended: bool)
      requires Valid() && !shutdown && available == pool
      modifies this`pool, this`available, this`shutdown, this`closed, (set e | e in pool)`conn, Conns(pool)`open
      ensures ended <==> |old(pool)| > 0 && rounds >= |old(pool)|
      ensures ended ==> Valid() && shutdown && pool == []
    {
      ghost var _, conns := See();
      hide CloseStops;
      CloseStopsWhen(|pool|, rounds);
      ended := Close(rounds, conns);
    }

    /** So many rounds of the drain loop: it closes what the idle entries hold, and ends when nothing can
        be received. */
    method Drain(rounds: nat) returns (ended: bool)
      requires forall e :: e in available ==> e.conn == null || e in pool
      modifies this`available, Conns(pool)`open
      ensures ended <==> DrainStops(Channel(|old(available)|, closed), rounds)
      ensures ended ==> available == []
    {
      for round := 0 to rounds
        invariant forall e :: e in available ==> e.conn == null || e in pool
        invariant DrainStops(Channel(|old(available)|, closed), rounds) <==> DrainStops(Channel(|available|, closed), rounds - round)
      {
        if available != [] {
          var pc := available[0];
          available := available[1..];
          if pc.conn != null {
            pc.conn.Close();
          }
        } else if !closed {
          return true;
        }
      }
      return false;
    }

    /** The last loop: closes and disconnects every member. */
    method Disconnect(ghost conns: seq<BirdConn>)
      requires |conns| == |pool| && NoDup(pool) && NoDup(conns)
      requires forall j :: 0 <= j < |pool| ==> pool[j].conn == conns[j]
      modifies (set e | e in pool)`conn, conns`open
      ensures forall j :: 0 <= j < |pool| ==> pool[j].conn == null && !conns[j].open
    {
      for i := 0 to |pool|
        invariant forall j :: 0 <= j < i ==> pool[j].conn == null && !conns[j].open
        invariant forall j :: i <= j < |pool| ==> pool[j].conn == conns[j]
      {
        var pc := pool[i];
        if pc.conn != null {
          assert pc.conn == conns[i];
          pc.conn.Close();
          pc.conn := null;
        }
      }
    }

    /** Closing, with the drain loop watched for so many rounds. If it ends, it has closed every connection
        that was in the pool and emptied it; closing again changes nothing. Until then the lock is held. */
    method Close(rounds: nat, ghost conns: seq<BirdConn>) returns (ended: bool)
      requires Valid()
      requires !shutdown ==> |conns| == |pool| && forall j :: 0 <= j < |pool| ==> pool[j].conn == conns[j]
      modifies this`pool, this`available, this`shutdown, this`closed, (set e | e in pool)`conn, conns`open
      ensures ended <==> old(shutdown) || CloseStops(|old(available)|, rounds)
      ensures shutdown && (ended ==> Valid()) && (closed <==> !old(shutdown) && old(available) == [])
      ensures old(shutdown) ==>
                && pool == old(pool) && available == old(available)
                && (forall e :: e in pool ==> e.conn == old(e.conn))
                && (forall c :: c in conns ==> c.open == old(c.open))
      ensures ended && !old(shutdown) ==>
                && pool == [] && available == []
                && forall j :: 0 <= j < |old(pool)| ==> old(pool)[j].conn == null && !conns[j].open
    {
      if shutdown {
        return true;
      }
      assert NoDup(conns);
      shutdown := true;
      if available != [] {
        available := available[1..];
      } else {
        closed := true;
      }
      ended := Drain(rounds);
      if !ended {
        return false;
      }
      CloseStopsWhen(|old(available)|, rounds);
      Disconnect(conns);
      pool := [];
    }

    ghost method See() returns (spares: seq<Spare>, conns: seq<BirdConn>)
      requires Valid() && !shutdown
      ensures Sees(spares, conns) && forall j :: 0 <= j < |conns| ==> conns[j] in Conns(pool)
    {
      spares, conns := [], [];
      for i := 0 to |pool|
        invariant |spares| == |conns| == i
        invariant forall j :: 0 <= j < i ==>
          && pool[j].conn == conns[j]
          && spares[j] == Spare(pool[j].inUse, dialer.now - pool[j].lastUsed > STALE_AFTER)
      {
        spares := spares + [Spare(pool[i].inUse, dialer.now - pool[i].lastUsed > STALE_AFTER)];
        conns := conns + [pool[i].conn];
      }
    }
  }

  datatype Opening = Ready | Failed | Stuck

  // ---------------------------------------------------------------------------------------
  // When closing ends.
  // ---------------------------------------------------------------------------------------

  /** The channel of idle entries as Close sees it: a receive from a closed empty channel succeeds. */
  datatype Channel = Channel(length: nat, closed: bool)

  /** Close first tries to receive one entry, and closes the channel if there is none. */
  function FirstReceive(length: nat): Channel {
    if length > 0 then Channel(length - 1, false) else Channel(0, true)
  }

  /** Whether the drain loop, which stops when nothing can be received, stops within k rounds. */
  predicate DrainStops(c: Channel, k: nat)
    decreases k
  {
    k > 0
    && (if c.length > 0 then DrainStops(c.(length := c.length - 1), k - 1)
        else if c.closed then DrainStops(c, k - 1)
        else true)
  }

  lemma {:induction false} DrainStopsWhen(c: Channel, k: nat)
    ensures DrainStops(c, k) <==> !c.closed && k > c.length
    decreases k
  {
    if k > 0 {
      if c.length > 0 {
        DrainStopsWhen(c.(length := c.length - 1), k - 1);
      } else if c.closed {
        DrainStopsWhen(c, k - 1);
      }
    }
  }

  predicate CloseStops(length: nat, rounds: nat) {
    DrainStops(FirstReceive(length), rounds)
  }

  lemma CloseStopsWhen(length: nat, rounds: nat)
    ensures CloseStops(length, rounds) <==> length > 0 && rounds >= length
  {
    DrainStopsWhen(FirstReceive(length), rounds);
  }

  /** Close ends exactly when an entry is idle, and then after as many rounds as entries. */
  lemma CloseEndsIff(length: nat)
    ensures (exists k: nat :: CloseStops(length, k)) <==> length > 0
    ensures length > 0 ==> CloseStops(length, length)
  {
    forall k: nat
      ensures CloseStops(length, k) <==> length > 0 && k >= length
    {
      CloseStopsWhen(length, k);
    }
    var n: nat := length;
    assert CloseStops(length, n) <==> length > 0;
  }

  /** The step of the loop that builds the kept entries. */
  lemma FilterStep<T>(s: seq<T>, flags: seq<bool>, i: nat)
    requires |flags| == |s| && i < |s|
    ensures Filter(s[..i + 1], flags[..i + 1]) == Filter(s[..i], flags[..i]) + if flags[i] then [s[i]] else []
    ensures Count(flags[..i]) == |Filter(s[..i], flags[..i])|
  {
    assert s[..i + 1][..i] == s[..i] && flags[..i + 1][..i] == flags[..i];
  }

  // ---------------------------------------------------------------------------------------
  // Any sequence of calls.
  // ---------------------------------------------------------------------------------------

  datatype Op =
    | Elapse(duration: nat)
    | Borrow(outcomes: nat -> DialOutcome)
    | Wait(which: nat)
    | GiveBack(which: nat)
    | Use(outcomes: nat -> DialOutcome, reconnect: nat -> DialOutcome, first: bool, second: bool)
    | Tick
    | Shut

  /** What the borrowers hold between them: no entry twice, and just the lent ones. */
  ghost predicate Holds(held: seq<PooledConnection>, lent: set<PooledConnection>) {
    NoDup(held) && (forall e :: e in held ==> e in lent) && (forall e :: e in lent ==> e in held)
  }

  lemma HoldsNothing()
    ensures Holds([], {})
  {
  }

  lemma HoldsMore(held: seq<PooledConnection>, lent: set<PooledConnection>, pc: PooledConnection)
    requires Holds(held, lent) && pc !in lent
    ensures Holds(held + [pc], lent + {pc})
  {
  }

  lemma HoldsLess(held: seq<PooledConnection>, lent: set<PooledConnection>, k: nat)
    requires Holds(held, lent) && k < |held|
    ensures held[k] in lent && Holds(held[..k] + held[k + 1..], lent - {held[k]})
  {
    var rest := held[..k] + held[k + 1..];
    forall e
      ensures e in rest <==> e in lent && e != held[k]
    {
      if e in held && e != held[k] {
        var j :| 0 <= j < |held| && held[j] == e;
        assert rest[if j < k then j else j - 1] == e;
      }
    }
  }

  /** Every object an operation may change. */
  ghost function Footprint(p: BirdPool): set<object>
    reads p, p.pool, p.available, p.lent
  {
    {p, p.dialer} + (set e | e in p.pool) + (set e | e in p.available) + p.lent
    + Conns(p.pool) + Conns(p.available) + (set e | e in p.lent && e.conn != null :: e.conn)
  }

  /** One operation; one that cannot be called (nothing to give back, a wait when the pool is not full, a
      tick after shutdown, a shutdown that would not end) is skipped. */
  method Perform(p: BirdPool, held: seq<PooledConnection>, op: Op) returns (holding: seq<PooledConnection>)
    requires p.Valid() && Holds(held, p.lent)
    modifies Footprint(p)
    ensures p.Valid() && Holds(holding, p.lent)
    ensures forall o :: o in Footprint(p) ==> o in old(Footprint(p)) || fresh(o)
  {
    hide NoDup, Holds, Footprint;
    holding := held;
    match op
    case Elapse(duration) =>
      DoElapse(p, duration);
    case Borrow(outcomes) =>
      holding := DoBorrow(p, held, outcomes);
    case Wait(k) =>
      if k < |held| && !p.shutdown && p.available == [] && |p.pool| == p.poolSizeMax {
        DoWait(p, held, k);
      }
    case GiveBack(k) =>
      if k < |held| {
        holding := DoGiveBack(p, held, k);
      }
    case Use(outcomes, reconnect, first, second) =>
      DoUse(p, outcomes, reconnect, first, second);
    case Tick =>
      if !p.shutdown {
        DoTick(p);
      }
    case Shut =>
      if !p.shutdown && p.available != [] {
        DoShut(p);
      }
  }

  method DoElapse(p: BirdPool, duration: nat)
    requires p.Valid()
    modifies Footprint(p)
    ensures p.Valid() && p.lent == old(p.lent)
    ensures forall o :: o in Footprint(p) ==> o in old(Footprint(p)) || fresh(o)
  {
    p.dialer.Sleep(duration);
  }

  /** What one borrower gives back another gets: between them they hold the same. */
  method DoWait(p: BirdPool, held: seq<PooledConnection>, k: nat)
    requires p.Valid() && Holds(held, p.lent) && k < |held| && !p.shutdown && p.available == []
    modifies Footprint(p)
    ensures p.Valid() && p.lent == old(p.lent)
    ensures forall o :: o in Footprint(p) ==> o in old(Footprint(p)) || fresh(o)
  {
    HoldsLess(held, p.lent, k);
    hide NoDup, Holds;
    hide p.Valid;
    var _ := p.WaitForConnection(held[k]);
    FootprintKept(p);
  }

  method DoBorrow(p: BirdPool, held: seq<PooledConnection>, outcomes: nat -> DialOutcome) returns (holding: seq<PooledConnection>)
    requires p.Valid() && Holds(held, p.lent)
    modifies Footprint(p)
    ensures p.Valid() && Holds(holding, p.lent)
    ensures forall o :: o in Footprint(p) ==> o in old(Footprint(p)) || fresh(o)
  {
    hide NoDup, Holds;
    hide p.Valid;
    var pc := p.GetConnection(outcomes);
    if pc != null {
      HoldsMore(held, old(p.lent), pc);
      FootprintKept(p);
      return held + [pc];
    }
    FootprintKept(p);
    return held;
  }

  method DoGiveBack(p: BirdPool, held: seq<PooledConnection>, k: nat) returns (holding: seq<PooledConnection>)
    requires p.Valid() && Holds(held, p.lent) && k < |held|
    modifies Footprint(p)
    ensures p.Valid() && Holds(holding, p.lent)
    ensures forall o :: o in Footprint(p) ==> o in old(Footprint(p)) || fresh(o)
  {
    HoldsLess(held, p.lent, k);
    hide NoDup, Holds;
    hide p.Valid;
    p.ReleaseConnection(held[k]);
    FootprintKept(p);
    return held[..k] + held[k + 1..];
  }

  /** No entry or connection comes from elsewhere. */
  twostate lemma FootprintKept(p: BirdPool)
    requires forall e :: e in p.pool || e in p.available || e in p.lent ==> fresh(e) || Known(p, e)
    requires forall e :: Known(p, e) ==> e.conn == null || e.conn == old(e.conn) || fresh(e.conn)
    requires forall e :: (e in p.pool || e in p.available || e in p.lent) && fresh(e) ==> e.conn == null || fresh(e.conn)
    ensures forall o :: o in Footprint(p) ==> o in old(Footprint(p)) || fresh(o)
  {
  }

  twostate predicate Known(p: BirdPool, new e: PooledConnection) {
    e in old(p.pool) || e in old(p.available) || e in old(p.lent)
  }

  method DoUse(p: BirdPool, outcomes: nat -> DialOutcome, reconnect: nat -> DialOutcome, first: bool, second: bool)
    requires p.Valid()
    modifies Footprint(p)
    ensures p.Valid() && p.lent == old(p.lent)
    ensures forall o :: o in Footprint(p) ==> o in old(Footprint(p)) || fresh(o)
  {
    hide p.Valid, p.GivenBack, Connects;
    var _, _ := p.WithConnection(outcomes, reconnect, first, second);
    FootprintKept(p);
  }

  /** A pass adds nothing, and an entry keeps its connection or loses it. */
  lemma {:induction false} TickKeeps(p: BirdPool, before: seq<PooledConnection>, conns: seq<BirdConn>, flags: seq<bool>)
    requires |flags| == |conns| == |before| && NoDup(before)
    requires p.pool == Filter(before, flags) && p.Swept(before, conns, flags, |before|)
    ensures forall e :: e in p.pool ==> e in before
    ensures forall j :: 0 <= j < |before| ==> before[j].conn == null || before[j].conn == conns[j]
  {
    FilterElements(before, flags);
  }

  method Tidy(p: BirdPool)
    requires p.Valid() && !p.shutdown
    modifies p`pool, (set e | e in p.pool)`conn, Conns(p.pool)`open
    ensures p.Valid()
    ensures forall e :: e in p.pool ==> e in old(p.pool)
    ensures forall e :: e in old(p.pool) ==> e.conn == null || e.conn == old(e.conn)
  {
    ghost var spares, conns := p.See();
    ghost var before := p.pool;
    assert |spares| == |conns| == |before| && NoDup(before);
    assert forall j :: 0 <= j < |before| ==> before[j].conn == conns[j];
    hide p.Valid, Filter, Survives, NoDup, p.Swept;
    p.MaintenancePass(spares, conns);
    if |before| > p.poolSize {
      TickKeeps(p, before, conns, Survives(spares, p.poolSize));
    }
  }

  method DoTick(p: BirdPool)
    requires p.Valid() && !p.shutdown
    modifies Footprint(p)
    ensures p.Valid() && p.lent == old(p.lent)
    ensures forall o :: o in Footprint(p) ==> o in old(Footprint(p)) || fresh(o)
  {
    hide p.Valid;
    Tidy(p);
    FootprintKept(p);
  }

  method DoShut(p: BirdPool)
    requires p.Valid() && !p.shutdown && p.available != []
    modifies Footprint(p)
    ensures p.Valid() && p.lent == old(p.lent)
    ensures forall o :: o in Footprint(p) ==> o in old(Footprint(p)) || fresh(o)
  {
    ghost var _, conns := p.See();
    CloseStopsWhen(|p.available|, |p.available|);
    var _ := p.Close(|p.available|, conns);
  }

  method PerformAll(p: BirdPool, ops: seq<Op>) returns (held: seq<PooledConnection>)
    requires p.Valid() && p.lent == {}
    modifies Footprint(p)
    ensures p.Valid() && Holds(held, p.lent)
  {
    hide NoDup, Holds, Footprint;
    hide p.Valid;
    held := [];
    HoldsNothing();
    ghost var first := Footprint(p);
    for i := 0 to |ops|
      invariant p.Valid() && Holds(held, p.lent)
      invariant forall o :: o in Footprint(p) ==> o in first || fresh(o)
    {
      held := Perform(p, held, ops[i]);
    }
  }

  /** Opens a pool as NewBirdPool does and, if that succeeds, performs any operations, with any time
      between them: no entry is held twice, the held and the idle entries fit the channel, the pool stays
      within its bound, and what is held is usable. */
  method AnySequence(poolSize: nat, poolSizeMax: nat, maxRetries: int, retryDelayMs: nat, now: int,
                     dials: nat -> nat -> DialOutcome, rounds: nat, ops: seq<Op>)
      returns (p: BirdPool, opening: Opening, held: seq<PooledConnection>)
    ensures opening == Ready <==> forall i: nat :: i < poolSize ==> Connects(dials(i), 0, if maxRetries < 0 then 0 else maxRetries)
    ensures opening == Ready ==> p.Valid() && Holds(held, p.lent) && |p.pool| <= p.poolSizeMax
    ensures opening == Ready && !p.shutdown ==> |p.available| + |held| <= p.poolSizeMax
    ensures opening == Ready && !p.shutdown ==>
              forall e :: e in held ==> e in p.pool && e.conn != null && e.conn.open && e.conn.restricted
  {
    hide Footprint, Holds, NoDup, Connects;
    hide p.Valid;
    held := [];
    p, opening := NewBirdPool(poolSize, poolSizeMax, maxRetries, retryDelayMs, now, dials, rounds);
    if opening == Ready {
      held := PerformAll(p, ops);
      HeldFit(p, held);
    }
  }

  method NewBirdPool(poolSize: nat, poolSizeMax: nat, maxRetries: int, retryDelayMs: nat, now: int,
                     dials: nat -> nat -> DialOutcome, rounds: nat)
      returns (p: BirdPool, opening: Opening)
    ensures opening == Ready <==> forall i: nat :: i < poolSize ==> Connects(dials(i), 0, if maxRetries < 0 then 0 else maxRetries)
    ensures opening == Ready ==> p.Valid() && p.lent == {} && fresh(Footprint(p))
  {
    hide Connects, BirdPool.Valid, BirdPool.Active;
    var dialer := NewDialer(maxRetries, retryDelayMs, now);
    p := new BirdPool(poolSize, poolSizeMax, dialer);
    opening := p.Open(dials, rounds);
    assert opening == Ready ==> Footprint(p) == {p, dialer} + (set e | e in p.pool) + Conns(p.pool);
  }

  method NewDialer(maxRetries: int, retryDelayMs: nat, now: int) returns (d: Dialer)
    ensures d.Valid() && fresh(d) && d.Allowed() == if maxRetries < 0 then 0 else maxRetries
  {
    d := new Dialer(maxRetries, retryDelayMs, now);
  }

  lemma HeldFit(p: BirdPool, held: seq<PooledConnection>)
    requires p.Valid() && Holds(held, p.lent)
    ensures |p.pool| <= p.poolSizeMax
    ensures !p.shutdown ==> |p.available| + |held| <= p.poolSizeMax
    ensures !p.shutdown ==> forall e :: e in held ==> e in p.pool && e.conn != null && e.conn.open && e.conn.restricted
  {
    DistinctElements(held, p.lent);
  }
}
