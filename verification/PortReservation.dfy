/** The table of reserved ports that both port allocators share. Times are in nanoseconds, of which the
    allocators see whole seconds; which ports the kernel offers or refuses, which are drawn and how long
    things take are inputs. */
module PortReservation {
  import opened Sessions

  const SECOND := 1_000_000_000
  const RESERVED_FOR := 300

  /** The reading of the clock: the seconds that have passed in full. */
  function Unix(time: int): int {
    time / SECOND
  }

  /** One pass through the critical section: the port tried, whether it can be bound, when the table
      was looked up, and when the reservation would be made. */
  datatype Attempt = Attempt(port: int, bindable: bool, checked: int, reserved: int)

  datatype Grant = Grant(port: int, time: int)

  type Table = map<int, int>

  predicate Blocked(table: Table, port: int, time: int) {
    port in table && Unix(time) < table[port]
  }

  predicate Granted(table: Table, a: Attempt) {
    !Blocked(table, a.port, a.checked) && a.bindable
  }

  function After(table: Table, a: Attempt): Table {
    if Granted(table, a) then table[a.port := Unix(a.reserved) + RESERVED_FOR] else table
  }

  /** The table after these attempts, whoever made them. */
  function TableAfter(attempts: seq<Attempt>): Table {
    if attempts == [] then map[] else After(TableAfter(attempts[..|attempts| - 1]), attempts[|attempts| - 1])
  }

  function Grants(attempts: seq<Attempt>): seq<Grant> {
    if attempts == [] then []
    else
      var n := |attempts| - 1;
      Grants(attempts[..n])
      + if Granted(TableAfter(attempts[..n]), attempts[n]) then [Grant(attempts[n].port, attempts[n].reserved)] else []
  }

  /** The clock does not go back. */
  predicate Clocked(attempts: seq<Attempt>) {
    && (forall i :: 0 <= i < |attempts| ==> attempts[i].checked <= attempts[i].reserved)
    && (forall i :: 0 < i < |attempts| ==> attempts[i - 1].reserved <= attempts[i].checked)
  }

  /** The table knows every grant: its port stays reserved at least as long as promised. */
  lemma {:induction false} TableCoversGrants(attempts: seq<Attempt>)
    requires Clocked(attempts)
    ensures forall g :: g in Grants(attempts) ==>
              g.port in TableAfter(attempts) && Unix(g.time) + RESERVED_FOR <= TableAfter(attempts)[g.port]
    ensures forall g :: g in Grants(attempts) ==> g.time <= attempts[|attempts| - 1].reserved
  {
    if attempts != [] {
      var n := |attempts| - 1;
      TableCoversGrants(attempts[..n]);
    }
  }

  /** Two grants of one port are five minutes apart by the clock's readings, and so more than 299 seconds
      apart, over any history of attempts. */
  lemma {:induction false} GrantsApart(attempts: seq<Attempt>, i: nat, k: nat)
    requires Clocked(attempts) && i < k < |Grants(attempts)| && Grants(attempts)[i].port == Grants(attempts)[k].port
    ensures Unix(Grants(attempts)[i].time) + RESERVED_FOR <= Unix(Grants(attempts)[k].time)
    ensures Grants(attempts)[k].time - Grants(attempts)[i].time > 299 * SECOND
  {
    var n := |attempts| - 1;
    var before := Grants(attempts[..n]);
    if k < |before| {
      GrantsApart(attempts[..n], i, k);
    } else {
      TableCoversGrants(attempts[..n]);
      assert before[i] in before;
    }
  }

  /** No more than that: they may be 299 seconds and a nanosecond apart. */
  lemma GrantsThisClose(port: int)
    ensures var attempts := [Attempt(port, true, SECOND - 1, SECOND - 1), Attempt(port, true, 300 * SECOND, 300 * SECOND)];
            && Clocked(attempts)
            && Grants(attempts) == [Grant(port, SECOND - 1), Grant(port, 300 * SECOND)]
            && 300 * SECOND - (SECOND - 1) == 299 * SECOND + 1
  {
    GrantedTwice(port, SECOND - 1, 300 * SECOND);
  }

  /** Every later grant of the port is a full five minutes after the one at this time. */
  ghost predicate WaitsInFull(attempts: seq<Attempt>, port: int, time: int) {
    forall i, k :: 0 <= i < k < |Grants(attempts)| && Grants(attempts)[i] == Grant(port, time) && Grants(attempts)[k].port == port
      ==> Grants(attempts)[k].time - time >= RESERVED_FOR * SECOND
  }

  /** After a grant the next one of its port waits the full five minutes, in every history, exactly if the
      grant fell on a whole second. */
  lemma WaitsInFullIff(port: int, time: int)
    ensures (forall attempts :: Clocked(attempts) ==> WaitsInFull(attempts, port, time)) <==> time % SECOND == 0
  {
    if time % SECOND == 0 {
      forall attempts | Clocked(attempts)
        ensures WaitsInFull(attempts, port, time)
      {
        WholeSecondWaits(attempts, port, time);
      }
    } else {
      var next := (Unix(time) + RESERVED_FOR) * SECOND;
      var attempts := [Attempt(port, true, time, time), Attempt(port, true, next, next)];
      GrantedTwice(port, time, next);
      assert Clocked(attempts) && !WaitsInFull(attempts, port, time) by {
        assert Grants(attempts)[0] == Grant(port, time) && Grants(attempts)[1] == Grant(port, next);
      }
    }
  }

  lemma {:induction false} WholeSecondWaits(attempts: seq<Attempt>, port: int, time: int)
    requires Clocked(attempts) && time % SECOND == 0
    ensures WaitsInFull(attempts, port, time)
  {
    forall i, k | 0 <= i < k < |Grants(attempts)| && Grants(attempts)[i] == Grant(port, time) && Grants(attempts)[k].port == port
      ensures Grants(attempts)[k].time - time >= RESERVED_FOR * SECOND
    {
      GrantsApart(attempts, i, k);
    }
  }

  lemma {:induction false} GrantedTwice(port: int, time: int, next: int)
    requires time <= next && Unix(time) + RESERVED_FOR <= Unix(next)
    ensures Grants([Attempt(port, true, time, time), Attempt(port, true, next, next)]) == [Grant(port, time), Grant(port, next)]
  {
    var (a, b) := (Attempt(port, true, time, time), Attempt(port, true, next, next));
    assert [a, b] == [a] + [b] && [a] == [] + [a];
    OneMoreAttempt([], a);
    OneMoreAttempt([a], b);
  }

  function LastGrant(grants: seq<Grant>, port: int): Option<int> {
    if grants == [] then None
    else
      var n := |grants| - 1;
      if grants[n].port == port then Some(grants[n].time) else LastGrant(grants[..n], port)
  }

  /** The table holds the last grant of each port, and nothing else. */
  lemma {:induction false} TableIsLastGrant(attempts: seq<Attempt>, port: int)
    ensures var (table, last) := (TableAfter(attempts), LastGrant(Grants(attempts), port));
            if last == None then port !in table else port in table && table[port] == Unix(last.value) + RESERVED_FOR
  {
    if attempts != [] {
      var n := |attempts| - 1;
      TableIsLastGrant(attempts[..n], port);
      var (before, all) := (Grants(attempts[..n]), Grants(attempts));
      if Granted(TableAfter(attempts[..n]), attempts[n]) {
        assert all[..|all| - 1] == before;
        assert all[|all| - 1] == Grant(attempts[n].port, attempts[n].reserved);
      } else {
        assert all == before;
      }
    }
  }

  lemma {:induction false} OneMoreAttempt(attempts: seq<Attempt>, a: Attempt)
    ensures TableAfter(attempts + [a]) == After(TableAfter(attempts), a)
    ensures Grants(attempts + [a]) == Grants(attempts) + if Granted(TableAfter(attempts), a) then [Grant(a.port, a.reserved)] else []
  {
    assert (attempts + [a])[..|attempts|] == attempts;
  }

  lemma ClockedSnoc(attempts: seq<Attempt>, a: Attempt)
    requires Clocked(attempts) && a.checked <= a.reserved
    requires attempts != [] ==> attempts[|attempts| - 1].reserved <= a.checked
    ensures Clocked(attempts + [a])
  {
  }

  // ---------------------------------------------------------------------------------------
  // The allocators.
  // ---------------------------------------------------------------------------------------

  /** How long passes before the table is looked up and before the reservation is made. */
  datatype Delay = Delay(before: nat, between: nat)

  /** How long this many tries take. */
  function Elapsed(delays: nat -> Delay, tries: nat): nat {
    if tries == 0 then 0 else Elapsed(delays, tries - 1) + delays(tries - 1).before + delays(tries - 1).between
  }

  /** Whether the port is reserved when a try looks it up, all earlier ones having failed. */
  predicate Taken(table: Table, now: int, delays: nat -> Delay, try: nat, port: int) {
    port in table && (now + Elapsed(delays, try) + delays(try).before) / 1_000_000_000 < table[port]
  }

  class PortTable {
    var reservedPorts: Table
    var now: int
    ghost var attempts: seq<Attempt>

    ghost predicate Valid()
      reads this
    {
      && reservedPorts == TableAfter(attempts) && Clocked(attempts)
      && (attempts != [] ==> attempts[|attempts| - 1].reserved <= now)
    }

    constructor (now: int)
      ensures Valid() && attempts == [] && this.now == now
    {
      reservedPorts, attempts := map[], [];
      this.now := now;
    }

    /** The critical section. */
    method TryReserve(port: int, bindable: bool, delay: Delay) returns (ok: bool)
      requires Valid()
      modifies this
      ensures Valid() && now == old(now) + delay.before + delay.between
      ensures attempts == old(attempts) + [Attempt(port, bindable, old(now) + delay.before, now)]
      ensures ok <==> bindable && !(port in old(reservedPorts) && (old(now) + delay.before) / 1_000_000_000 < old(reservedPorts)[port])
      ensures reservedPorts == if ok then old(reservedPorts)[port := now / 1_000_000_000 + 300] else old(reservedPorts)
      ensures Grants(attempts) == Grants(old(attempts)) + if ok then [Grant(port, now)] else []
    {
      hide TableAfter, Grants, Clocked;
      ghost var a := Attempt(port, bindable, now + delay.before, now + delay.before + delay.between);
      OneMoreAttempt(attempts, a);
      ClockedSnoc(attempts, a);
      now := now + delay.before;
      var blocked := port in reservedPorts && Unix(now) < reservedPorts[port];
      now := now + delay.between;
      ok := !blocked && bindable;
      if ok {
        reservedPorts := reservedPorts[port := Unix(now) + 300];
      }
      attempts := attempts + [a];
    }

    /** A port the kernel chooses: the first offered that is not reserved. None comes back if an offer is
        missing before that one, or all ten offered are reserved. */
    method GetRandomUnusedPort(proto: string, kernel: nat -> Option<int>, delays: nat -> Delay) returns (port: Option<int>)
      requires Valid()
      modifies this
      ensures Valid()
      ensures Grants(attempts) == Grants(old(attempts)) + if port.Some? then [Grant(port.value, now)] else []
      ensures old(attempts) <= attempts && |attempts| <= |old(attempts)| + 10
      ensures proto != "tcp" && proto != "udp" ==> port == None && attempts == old(attempts)
      ensures port != None ==> exists i: nat ::
                && i < 10 && port == kernel(i) && !Taken(old(reservedPorts), old(now), delays, i, port.value)
                && (forall j: nat :: j < i ==> kernel(j).Some? && Taken(old(reservedPorts), old(now), delays, j, kernel(j).value))
      ensures port == None && (proto == "tcp" || proto == "udp") ==>
                || (forall i: nat :: i < 10 ==> kernel(i).Some? && Taken(old(reservedPorts), old(now), delays, i, kernel(i).value))
                || (exists i: nat :: i < 10 && kernel(i) == None &&
                     forall j: nat :: j < i ==> kernel(j).Some? && Taken(old(reservedPorts), old(now), delays, j, kernel(j).value))
      ensures reservedPorts == if port == None then old(reservedPorts) else old(reservedPorts)[port.value := now / 1_000_000_000 + 300]
    {
      hide Grants, TableAfter, Clocked;
      for i := 0 to 10
        invariant Valid() && Grants(attempts) == Grants(old(attempts))
        invariant reservedPorts == old(reservedPorts) && now == old(now) + Elapsed(delays, i)
        invariant forall j: nat :: j < i ==> kernel(j).Some? && Taken(reservedPorts, old(now), delays, j, kernel(j).value)
        invariant old(attempts) <= attempts && |attempts| <= |old(attempts)| + i
        invariant proto != "tcp" && proto != "udp" ==> attempts == old(attempts)
      {
        if proto != "tcp" && proto != "udp" {
          return None;
        }
        var offered := kernel(i);
        if offered == None {
          return None;
        }
        var ok := TryReserve(offered.value, true, delays(i));
        if ok {
          return offered;
        }
      }
      return None;
    }

    /** A port drawn from a range: the first that is not reserved and can be bound. None comes back if each
        of the twenty drawn is reserved or cannot be bound. */
    method GetRandomPortInRange(proto: string, minPort: int, maxPort: int, draws: nat -> nat, bindable: (nat, int) -> bool, delays: nat -> Delay)
        returns (port: Option<int>)
      requires Valid() && minPort <= maxPort
      modifies this
      ensures Valid()
      ensures Grants(attempts) == Grants(old(attempts)) + if port.Some? then [Grant(port.value, now)] else []
      ensures old(attempts) <= attempts && |attempts| <= |old(attempts)| + 20
      ensures port.Some? ==> minPort <= port.value <= maxPort
      ensures proto == "tcp" || proto == "udp" ==>
                (port == None <==> forall i: nat :: i < 20 ==>
                  var drawn := minPort + draws(i) % (maxPort - minPort + 1);
                  Taken(old(reservedPorts), old(now), delays, i, drawn) || !bindable(i, drawn))
      ensures port != None ==> exists i: nat ::
                && i < 20 && port.value == minPort + draws(i) % (maxPort - minPort + 1)
                && !Taken(old(reservedPorts), old(now), delays, i, port.value) && bindable(i, port.value)
                && (forall j: nat :: j < i ==>
                     var drawn := minPort + draws(j) % (maxPort - minPort + 1);
                     Taken(old(reservedPorts), old(now), delays, j, drawn) || !bindable(j, drawn))
      ensures proto != "tcp" && proto != "udp" ==>
                var tried := |attempts| - |old(attempts)|;
                && port == None
                && (forall i: nat :: i < tried ==> Taken(old(reservedPorts), old(now), delays, i, minPort + draws(i) % (maxPort - minPort + 1)))
                && (tried < 20 ==> !Taken(old(reservedPorts), old(now), delays, tried, minPort + draws(tried) % (maxPort - minPort + 1)))
      ensures reservedPorts == if port == None then old(reservedPorts) else old(reservedPorts)[port.value := now / 1_000_000_000 + 300]
    {
      hide Grants, TableAfter, Clocked;
      for i := 0 to 20
        invariant Valid() && Grants(attempts) == Grants(old(attempts))
        invariant old(attempts) <= attempts && |attempts| == |old(attempts)| + i
        invariant reservedPorts == old(reservedPorts) && now == old(now) + Elapsed(delays, i)
        invariant forall j: nat :: j < i ==>
                    var drawn := minPort + draws(j) % (maxPort - minPort + 1);
                    Taken(reservedPorts, old(now), delays, j, drawn) || (!bindable(j, drawn) && (proto == "tcp" || proto == "udp"))
      {
        var candidate := minPort + draws(i) % (maxPort - minPort + 1);
        var supported := proto == "tcp" || proto == "udp";
        if !supported && !(candidate in reservedPorts && Unix(now + delays(i).before) < reservedPorts[candidate]) {
          return None;
        }
        var ok := TryReserve(candidate, supported && bindable(i, candidate), delays(i));
        if ok {
          return Some(candidate);
        }
      }
      return None;
    }

    /** The port offered to a WireGuard peer: computed for the first session of an ASN, which is never
        a port that range grants for others, and drawn for the later ones. */
    method WireGuardPort(asn: nat, existingSessions: int, draws: nat -> nat, bindable: (nat, int) -> bool, delays: nat -> Delay)
        returns (port: Option<int>)
      requires Valid()
      modifies this
      ensures Valid()
      ensures existingSessions == 0 ==> port == Some(20000 + asn % 10000) && attempts == old(attempts)
      ensures existingSessions != 0 ==>
                Grants(attempts) == Grants(old(attempts)) + if port.Some? then [Grant(port.value, now)] else []
      ensures port.Some? ==> if existingSessions == 0 then 20000 <= port.value <= 29999 else 40000 <= port.value <= 49999
      ensures existingSessions != 0 ==>
                (port == None <==> forall i: nat :: i < 20 ==>
                  var drawn := 40000 + draws(i) % 10000;
                  Taken(old(reservedPorts), old(now), delays, i, drawn) || !bindable(i, drawn))
    {
      if existingSessions == 0 {
        return Some(20000 + asn % 10000);
      }
      port := GetRandomPortInRange("udp", 40000, 49999, draws, bindable, delays);
    }
  }
}
