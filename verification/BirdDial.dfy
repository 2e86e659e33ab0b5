/** Dialling the BIRD control socket: retries, backoff after failures, restricted mode.

    Times are in nanoseconds. What each dial does and how long it takes is an input. */
module BirdDial {
  import opened ControlReply

  const SECOND := 1_000_000_000
  const MILLISECOND := 1_000_000
  const BACKOFF_MIN := SECOND
  const BACKOFF_MAX := 30 * SECOND

  datatype DialResult = Refused | Unrestricted | Connected

  /** Whether a dial goes through, what the daemon then says as its banner and in reply to the request
      for restricted mode, and how far the readers read ahead. */
  datatype DialOutcome = DialOutcome(dialTime: nat, restrictTime: nat, accepted: bool, banner: string, reply: string,
                                     readAhead: (nat, nat)) {
    function Result(): DialResult {
      if !accepted then Refused
      else if Contains(ReplyText(After(ReplyText(banner).1, readAhead.0) + reply).0, "Access restricted") then Connected
      else Unrestricted
    }
  }

  /** With a well-formed banner and a one-line reply, it is the text of the reply that counts. */
  lemma ConnectedMeans(o: DialOutcome, banner: Line, reply: Line)
    requires banner.Valid() && banner.Last() && reply.Valid() && reply.Last()
    requires o.banner == banner.Wire() && o.reply == reply.Wire()
    ensures o.Result() == Connected <==> o.accepted && Contains(reply.Content(), "Access restricted")
  {
    OneLine(banner);
    OneLine(reply);
    assert "" + o.reply == o.reply;
    hide ReplyText, Contains;
  }

  lemma OneLine(l: Line)
    requires l.Valid() && l.Last()
    ensures ReplyText(l.Wire()) == (l.Content(), "")
  {
    LineReads(l, "");
    assert l.Wire() + "" == l.Wire();
    ReplyStep(l.Wire());
    hide ReplyText, NextLine, Text, IsLast;
  }

  /** Whether dialling at most n times, from the k-th on, ends with a connection. */
  predicate Connects(outcomes: nat -> DialOutcome, k: nat, n: nat)
    decreases if k < n then n - k else 0
  {
    k < n && match outcomes(k).Result()
             case Connected => true
             case Unrestricted => false
             case Refused => Connects(outcomes, k + 1, n)
  }

  /** One dial: when it started, when its result was known, and the result. */
  datatype Attempt = Attempt(started: int, ended: int, result: DialResult)

  function Min(a: int, b: int): int { if a < b then a else b }

  function Max(a: int, b: int): int { if a < b then b else a }

  function Pow2(n: nat): (p: nat)
    ensures p >= 1
  {
    if n == 0 then 1 else 2 * Pow2(n - 1)
  }

  /** The number of failures since a dial last went through; a connection that could not be
      restricted had gone through first. */
  function Streak(h: seq<Attempt>): nat {
    if h == [] then 0
    else
      match h[|h| - 1].result
      case Connected => 0
      case Unrestricted => 1
      case Refused => 1 + Streak(h[..|h| - 1])
  }

  /** The wait that k consecutive failures call for: 1, 2, 4, 8, 16 and then 30 seconds. */
  function Backoff(k: nat): int {
    if k == 0 then 0 else Min(Pow2(k - 1), 30) * SECOND
  }

  /** How a failure changes the backoff. */
  function Raised(backoff: int): int {
    if backoff == 0 then BACKOFF_MIN else Min(backoff * 2, BACKOFF_MAX)
  }

  lemma RaisedBackoff(k: nat)
    ensures Raised(Backoff(k)) == Backoff(k + 1)
  {
    if k > 0 {
      var p := Pow2(k - 1);
      assert Pow2(k) == 2 * p;
      assert Min(p, 30) * SECOND * 2 == Min(2 * p, 60) * SECOND;
    }
  }

  /** Repeated doubling with a cap has the closed form. */
  function RaisedTimes(k: nat): int {
    if k == 0 then 0 else Raised(RaisedTimes(k - 1))
  }

  lemma {:induction false} BackoffAfter(k: nat)
    ensures RaisedTimes(k) == Backoff(k)
    ensures k > 0 ==> SECOND <= RaisedTimes(k) <= 30 * SECOND
  {
    if k > 0 {
      BackoffAfter(k - 1);
      RaisedBackoff(k - 1);
    }
  }

  /** Every dial starts no earlier than the previous one ended plus the backoff due by then. */
  predicate Spaced(h: seq<Attempt>) {
    forall i :: 0 < i < |h| ==> h[i - 1].ended + Backoff(Streak(h[..i])) <= h[i].started
  }

  /** Each dial from this one on gave the result due, took as long as it did, and started at the earliest
      time allowed: once the retry delay, or for the first the time of the call, and the backoff due by then
      are over. */
  ghost predicate Timely(h: seq<Attempt>, from: nat, called: int, retryDelay: nat, outcomes: nat -> DialOutcome) {
    forall i: nat :: from <= i < |h| ==>
      TimelyAt(h[..i], h[i], if i == from then called else h[i - 1].ended + retryDelay, outcomes(i - from))
  }

  ghost predicate TimelyAt(h: seq<Attempt>, a: Attempt, ready: int, o: DialOutcome) {
    && a.result == o.Result()
    && a.started == (if h == [] then ready else Max(ready, h[|h| - 1].ended + Backoff(Streak(h))))
    && a.ended == a.started + o.dialTime + (if o.accepted then o.restrictTime else 0)
  }

  lemma {:induction false} TimelySnoc(h: seq<Attempt>, more: seq<Attempt>, from: nat, called: int, retryDelay: nat, outcomes: nat -> DialOutcome)
    requires from <= |h| && |more| == |h| + 1 && more[..|h|] == h && Timely(h, from, called, retryDelay, outcomes)
    requires TimelyAt(h, more[|h|], if |h| == from then called else h[|h| - 1].ended + retryDelay, outcomes(|h| - from))
    ensures Timely(more, from, called, retryDelay, outcomes)
  {
    hide TimelyAt;
    forall i: nat | from <= i < |more|
      ensures TimelyAt(more[..i], more[i], if i == from then called else more[i - 1].ended + retryDelay, outcomes(i - from))
    {
      if i < |h| {
        assert more[..i] == h[..i] && more[i] == h[i];
      }
    }
  }

  lemma NoneTimely(h: seq<Attempt>, called: int, retryDelay: nat, outcomes: nat -> DialOutcome)
    ensures Timely(h, |h|, called, retryDelay, outcomes)
  {
  }

  lemma {:induction false} SpacedSnoc(h: seq<Attempt>, a: Attempt)
    requires Spaced(h)
    requires h != [] ==> h[|h| - 1].ended + Backoff(Streak(h)) <= a.started
    ensures Spaced(h + [a])
  {
    forall i | 0 < i < |h + [a]|
      ensures (h + [a])[i - 1].ended + Backoff(Streak((h + [a])[..i])) <= (h + [a])[i].started
    {
      assert (h + [a])[..i] == h[..i];
      if i == |h| {
        assert h[..i] == h;
      }
    }
  }

  lemma {:induction false} StreakSnoc(h: seq<Attempt>, a: Attempt)
    ensures Streak(h + [a]) == match a.result case Connected => 0 case Unrestricted => 1 case Refused => 1 + Streak(h)
  {
    assert (h + [a])[..|h + [a]| - 1] == h;
  }

  /** A connection the socket accepted, with its banner read. */
  method NewBirdConnection(outcome: DialOutcome) returns (conn: BirdConn)
    ensures fresh(conn) && conn.open && !conn.restricted
    ensures conn.incoming == After(ReplyText(outcome.banner).1, outcome.readAhead.0)
  {
    hide ReplyText, After;
    conn := new BirdConn(outcome.banner);
    var _ := conn.Read(false, outcome.readAhead.0);
  }

  /** The request for restricted mode, and the daemon's reply to it. */
  method RequestRestriction(conn: BirdConn, outcome: DialOutcome) returns (restricted: bool)
    requires conn.open && outcome.accepted
    requires conn.incoming == After(ReplyText(outcome.banner).1, outcome.readAhead.0)
    modifies conn
    ensures conn.open && (restricted ==> conn.restricted)
    ensures restricted <==> outcome.Result() == Connected
    ensures !restricted <==> outcome.Result() == Unrestricted
  {
    hide ReplyText, After, Contains;
    conn.Deliver(outcome.reply);
    restricted := conn.Restrict(outcome.readAhead.1);
  }

  lemma RefusedMeans(o: DialOutcome)
    ensures o.Result() == Refused <==> !o.accepted
  {
  }

  /** One more dial that connects. */
  lemma {:induction false} HistoryConnected(h: seq<Attempt>, started: int, ended: int)
    requires Spaced(h) && (h != [] ==> h[|h| - 1].ended + Backoff(Streak(h)) <= started)
    ensures var a := Attempt(started, ended, Connected); Spaced(h + [a]) && Streak(h + [a]) == 0
  {
    SpacedSnoc(h, Attempt(started, ended, Connected));
    StreakSnoc(h, Attempt(started, ended, Connected));
  }

  /** One step of the dial loop. */
  lemma ConnectsStep(outcomes: nat -> DialOutcome, k: nat, n: nat)
    ensures Connects(outcomes, k, n) <==>
            k < n && (outcomes(k).Result() == Connected || (outcomes(k).Result() == Refused && Connects(outcomes, k + 1, n)))
  {
  }

  class Dialer {
    const maxRetries: int
    const retryDelayMs: nat
    var now: int
    var lastDialFailure: int
    var dialBackoff: int
    ghost var attempts: seq<Attempt>

    ghost predicate Valid()
      reads this
    {
      && dialBackoff == Backoff(Streak(attempts))
      && (attempts != [] ==> attempts[|attempts| - 1].ended <= now)
      && (dialBackoff != 0 ==> attempts != [] && lastDialFailure == attempts[|attempts| - 1].ended)
      && Spaced(attempts)
    }

    constructor (maxRetries: int, retryDelayMs: nat, now: int)
      ensures Valid() && attempts == [] && this.now == now
      ensures this.maxRetries == maxRetries && this.retryDelayMs == retryDelayMs
    {
      this.maxRetries, this.retryDelayMs, this.now := maxRetries, retryDelayMs, now;
      lastDialFailure, dialBackoff, attempts := 0, 0, [];
    }

    method WaitForDialWindow()
      requires Valid()
      modifies this`now
      ensures Valid()
      ensures now == if attempts == [] then old(now) else Max(old(now), attempts[|attempts| - 1].ended + Backoff(Streak(attempts)))
      ensures now <= old(now) + 30 * SECOND
    {
      if dialBackoff == 0 {
        return;
      }
      var sleep := lastDialFailure + dialBackoff - now;
      if sleep > 0 {
        now := now + sleep;
      }
    }

    /** Records a failure that ends the attempt started at the given time. */
    method RecordDialFailure(ghost started: int, ghost result: DialResult)
      requires result != Connected
      requires dialBackoff == Backoff(if result == Refused then Streak(attempts) else 0)
      requires Spaced(attempts)
      requires attempts != [] ==> attempts[|attempts| - 1].ended + Backoff(Streak(attempts)) <= started
      modifies this`lastDialFailure, this`dialBackoff, this`attempts
      ensures Valid()
      ensures attempts == old(attempts) + [Attempt(started, now, result)]
    {
      ghost var h := attempts + [Attempt(started, now, result)];
      StreakSnoc(attempts, Attempt(started, now, result));
      RaisedBackoff(if result == Refused then Streak(attempts) else 0);
      SpacedSnoc(attempts, Attempt(started, now, result));
      hide Streak, Backoff, Spaced;
      if dialBackoff == 0 {
        dialBackoff := BACKOFF_MIN;
      } else {
        dialBackoff := dialBackoff * 2;
        if dialBackoff > BACKOFF_MAX {
          dialBackoff := BACKOFF_MAX;
        }
      }
      lastDialFailure := now;
      attempts := h;
    }

    method ResetDialBackoff()
      modifies this`lastDialFailure, this`dialBackoff
      ensures dialBackoff == 0
    {
      dialBackoff, lastDialFailure := 0, 0;
    }

    /** One dial, and the restriction of what it opened. */
    method DialOnce(outcome: DialOutcome) returns (bc: BirdConn?)
      requires Valid()
      modifies this`now, this`lastDialFailure, this`dialBackoff, this`attempts
      ensures Valid() && old(now) <= now
      ensures |attempts| == |old(attempts)| + 1 && attempts[..|old(attempts)|] == old(attempts)
      ensures attempts[|old(attempts)|].result == outcome.Result() && attempts[|old(attempts)|].ended == now
      ensures TimelyAt(old(attempts), attempts[|old(attempts)|], old(now), outcome)
      ensures bc != null <==> outcome.Result() == Connected
      ensures bc != null ==> fresh(bc) && bc.open && bc.restricted
    {
      hide ReplyText, After, Contains, DialOutcome.Result, Spaced, Streak;
      bc := null;
      RefusedMeans(outcome);
      WaitForDialWindow();
      ghost var started := now;
      now := now + outcome.dialTime;
      if !outcome.accepted {
        RecordDialFailure(started, Refused);
        return null;
      }
      var conn := NewBirdConnection(outcome);
      ResetDialBackoff();
      var restricted := RequestRestriction(conn, outcome);
      now := now + outcome.restrictTime;
      if !restricted {
        conn.Close();
        RecordDialFailure(started, Unrestricted);
        return null;
      }
      HistoryConnected(attempts, started, now);
      attempts := attempts + [Attempt(started, now, Connected)];
      return conn;
    }

    /** Dials at most maxRetries times, each no earlier than the backoff allows. A connection is
        returned, open and restricted, exactly when the last dial connected; every dial before the
        last was refused; giving up takes a failed restriction or all the retries. */
    method CreateConnection(outcomes: nat -> DialOutcome) returns (bc: BirdConn?)
      requires Valid()
      modifies this`now, this`lastDialFailure, this`dialBackoff, this`attempts
      ensures Valid() && old(now) <= now
      ensures |old(attempts)| <= |attempts| && attempts[..|old(attempts)|] == old(attempts)
      ensures var dials := attempts[|old(attempts)|..];
              && |dials| <= Allowed()
              && (forall i :: 0 <= i < |dials| - 1 ==> dials[i].result == Refused)
              && (bc != null <==> dials != [] && dials[|dials| - 1].result == Connected)
              && (bc == null ==> |dials| == Allowed() || (dials != [] && dials[|dials| - 1].result == Unrestricted))
      ensures Timely(attempts, |old(attempts)|, old(now), retryDelayMs * 1_000_000, outcomes)
      ensures bc != null <==> Connects(outcomes, 0, Allowed())
      ensures bc != null ==> fresh(bc) && bc.open && bc.restricted
    {
      hide Valid, Connects, DialOutcome.Result, Timely, TimelyAt;
      bc := null;
      NoneTimely(attempts, now, retryDelayMs * 1_000_000, outcomes);
      var attempt := 0;
      ghost var before := attempts;
      while attempt < maxRetries
        invariant bc == null && Valid() && old(now) <= now
        invariant 0 <= attempt <= Allowed()
        invariant |attempts| == |before| + attempt && attempts[..|before|] == before
        invariant forall i :: |before| <= i < |attempts| ==> attempts[i].result == Refused
        invariant Connects(outcomes, 0, Allowed()) <==> Connects(outcomes, attempt, Allowed())
        invariant Timely(attempts, |before|, old(now), retryDelayMs * 1_000_000, outcomes)
        invariant attempt < Allowed() ==> now == if attempt == 0 then old(now) else attempts[|attempts| - 1].ended + retryDelayMs * 1_000_000
      {
        var outcome := outcomes(attempt);
        ConnectsStep(outcomes, attempt, Allowed());
        label dial:
        bc := DialOnce(outcome);
        assert attempts[..|before|] == old@dial(attempts)[..|before|];
        assert forall i :: 0 <= i < attempt ==> attempts[|before|..][i] == old@dial(attempts)[|before| + i];
        TimelySnoc(old@dial(attempts), attempts, |before|, old(now), retryDelayMs * 1_000_000, outcomes);
        if outcome.Result() != Refused {
          return;
        }
        attempt := attempt + 1;
        if attempt < maxRetries {
          Sleep(retryDelayMs * MILLISECOND);
        }
      }
      ConnectsStep(outcomes, attempt, Allowed());
    }

    method Sleep(duration: nat)
      requires Valid()
      modifies this`now
      ensures Valid() && now == old(now) + duration
    {
      now := now + duration;
    }

    function Allowed(): nat {
      if maxRetries < 0 then 0 else maxRetries
    }
  }
}
