/** The pool of BIRD connections as interleaved steps of many callers and the maintenance loop.

    A receive from the channel, the check of what was received and the mark under the lock are
    steps of their own, and so are the unmark and the send of a release. Entries are numbered in
    the order they are made. Each critical section is one step, and any number of seconds may pass
    between two steps. Shutdown is not part of it. */
module BirdPoolSteps {
  import opened BirdPool

  const IDLE_SECONDS := 300

  datatype Phase =
    | Outside
    /** Received from the channel, not looked at yet. */
    | Received(entry: nat, waiting: bool)
    /** Found to have a connection, not marked yet. */
    | Checked(entry: nat)
    /** Nothing idle: about to look at the size of the pool under the lock. */
    | Missed
    | Waiting
    | Holding(entry: nat)
    /** Unmarked, not sent yet. */
    | Releasing(entry: nat)

  datatype State = State(
    size: nat, max: nat,
    pool: seq<nat>, channel: seq<nat>, callers: seq<Phase>,
    marked: set<nat>, connected: set<nat>, made: nat,
    /** When each entry was last marked or unmarked, and the time, in seconds. */
    used: map<nat, nat>, now: nat)

  datatype Step =
    | Receive(t: nat)
    | Check(t: nat)
    | Mark(t: nat)
    | Miss(t: nat)
    | Create(t: nat, dialled: bool)
    | TimeOut(t: nat)
    | Reconnect(t: nat)
    | Unmark(t: nat)
    | Send(t: nat)
    | Maintain
    | Pass(seconds: nat)

  function Range(n: nat): (r: seq<nat>)
    ensures |r| == n && forall i :: 0 <= i < n ==> r[i] == i
  {
    seq(n, i => i)
  }

  function Numbers(from: nat, to: nat): (r: set<nat>)
    ensures forall e: nat :: e in r <==> from <= e < to
  {
    if to <= from then {} else Numbers(from, to - 1) + {to - 1}
  }

  function UsedAtStart(n: nat): map<nat, nat> {
    map e | e in Numbers(0, n) :: 0
  }

  function Start(size: nat, max: nat, callers: nat): State
    requires size <= max
  {
    State(size, max, Range(size), Range(size), seq(callers, _ => Outside), {}, Numbers(0, size), size, UsedAtStart(size), 0)
  }

  predicate Enabled(s: State, step: Step) {
    if step.Maintain? || step.Pass? then true
    else
      step.t < |s.callers|
      && var p := s.callers[step.t];
         match step
         case Receive(_) => (p.Outside? || p.Waiting?) && s.channel != []
         case Check(_) => p.Received?
         case Mark(_) => p.Checked?
         case Miss(_) => p.Outside? && s.channel == []
         case Create(_, _) => p.Missed?
         case TimeOut(_) => p.Waiting?
         case Reconnect(_) => p.Holding?
         case Unmark(_) => p.Holding?
         case Send(_) => p.Releasing?
  }

  /** Whether a release finds the channel full. */
  predicate Overflows(s: State, step: Step) {
    step.Send? && |s.channel| >= s.max
  }

  function At(s: State, t: nat, p: Phase): State
    requires t < |s.callers|
  {
    s.(callers := s.callers[t := p])
  }

  predicate Idle(s: State, e: nat) {
    e in s.used && s.now - s.used[e] > IDLE_SECONDS
  }

  function Spares(s: State): (r: seq<Spare>)
    ensures |r| == |s.pool|
  {
    seq(|s.pool|, i requires 0 <= i < |s.pool| => Spare(s.pool[i] in s.marked, Idle(s, s.pool[i])))
  }

  /** The pool after a pass of maintenance. */
  function Survivors(s: State): seq<nat> {
    if |s.pool| <= s.size then s.pool else Filter(s.pool, Survives(Spares(s), s.size))
  }

  function Apply(s: State, step: Step): State
    requires Enabled(s, step)
  {
    match step
    case Receive(t) =>
      At(s, t, Received(s.channel[0], s.callers[t].Waiting?)).(channel := s.channel[1..])
    case Check(t) =>
      var p := s.callers[t];
      At(s, t, if p.entry in s.connected then Checked(p.entry) else if p.waiting then Waiting else Missed)
    case Mark(t) =>
      At(s, t, Holding(s.callers[t].entry)).(marked := s.marked + {s.callers[t].entry}, used := s.used[s.callers[t].entry := s.now])
    case Miss(t) =>
      At(s, t, Missed)
    case Create(t, dialled) =>
      if |s.pool| >= s.max then At(s, t, Waiting)
      else if !dialled then At(s, t, Outside)
      else At(s, t, Holding(s.made)).(pool := s.pool + [s.made], marked := s.marked + {s.made},
                                      connected := s.connected + {s.made}, made := s.made + 1, used := s.used[s.made := s.now])
    case TimeOut(t) =>
      At(s, t, Outside)
    case Reconnect(t) =>
      s.(connected := s.connected + {s.callers[t].entry})
    case Unmark(t) =>
      At(s, t, Releasing(s.callers[t].entry)).(marked := s.marked - {s.callers[t].entry}, used := s.used[s.callers[t].entry := s.now])
    case Send(t) =>
      if |s.channel| < s.max then At(s, t, Outside).(channel := s.channel + [s.callers[t].entry])
      else At(s, t, Outside)
    case Maintain =>
      var kept := Survivors(s);
      s.(pool := kept, connected := set e | e in s.connected && (e in s.pool ==> e in kept))
    case Pass(seconds) =>
      s.(now := s.now + seconds)
  }

  predicate Runs(s: State, steps: seq<Step>)
    decreases |steps|
  {
    steps == [] || (Enabled(s, steps[0]) && Runs(Apply(s, steps[0]), steps[1..]))
  }

  function Final(s: State, steps: seq<Step>): State
    requires Runs(s, steps)
    decreases |steps|
  {
    if steps == [] then s else Final(Apply(s, steps[0]), steps[1..])
  }

  // ---------------------------------------------------------------------------------------
  // Exclusive ownership and the size bound, in every interleaving.
  // ---------------------------------------------------------------------------------------

  /** The entry a caller owns, or -1. */
  function Owned(p: Phase): int {
    if p.Received? || p.Checked? || p.Holding? || p.Releasing? then p.entry else -1
  }

  ghost predicate OneOwner(callers: seq<Phase>) {
    forall t, u :: 0 <= t < u < |callers| && Owned(callers[t]) != -1 ==> Owned(callers[t]) != Owned(callers[u])
  }

  /** What is owned is not in the channel. */
  ghost predicate NotIdle(callers: seq<Phase>, channel: seq<nat>) {
    forall t, i :: 0 <= t < |callers| && 0 <= i < |channel| ==> Owned(callers[t]) != channel[i]
  }

  /** All numbers given out are smaller. */
  ghost predicate Below(s: State) {
    && (forall i :: 0 <= i < |s.pool| ==> s.pool[i] < s.made)
    && (forall i :: 0 <= i < |s.channel| ==> s.channel[i] < s.made)
    && (forall t :: 0 <= t < |s.callers| ==> Owned(s.callers[t]) < s.made)
  }

  /** No entry has two owners, none is both owned and idle, none is idle twice; the pool is bounded. */
  ghost predicate Exclusive(s: State) {
    && s.size <= s.max && |s.pool| <= s.max && NoDup(s.pool) && NoDup(s.channel)
    && OneOwner(s.callers) && NotIdle(s.callers, s.channel) && Below(s)
  }

  lemma SurvivorsPart(s: State)
    requires NoDup(s.pool)
    ensures NoDup(Survivors(s)) && |Survivors(s)| <= |s.pool|
    ensures forall e :: e in Survivors(s) ==> e in s.pool
    ensures forall i :: 0 <= i < |Survivors(s)| ==> Survivors(s)[i] in s.pool
    ensures forall e :: e in s.pool && e in s.marked ==> e in Survivors(s)
  {
    if |s.pool| > s.size {
      var spares := Spares(s);
      FilterElements(s.pool, Survives(spares, s.size));
      forall e | e in s.pool && e in s.marked
        ensures e in Survivors(s)
      {
        var i :| 0 <= i < |s.pool| && s.pool[i] == e;
        SurvivesIff(spares, s.size, i);
      }
    }
  }

  lemma Moved(s: State, t: nat, p: Phase)
    requires Exclusive(s) && t < |s.callers| && (Owned(p) == -1 || Owned(p) == Owned(s.callers[t]))
    ensures Exclusive(At(s, t, p))
  {
  }

  lemma ExclusiveReceive(s: State, t: nat)
    requires Exclusive(s) && Enabled(s, Receive(t))
    ensures Exclusive(Apply(s, Receive(t)))
  {
  }

  lemma ExclusiveCreate(s: State, t: nat)
    requires Exclusive(s) && Enabled(s, Create(t, true)) && |s.pool| < s.max
    ensures Exclusive(Apply(s, Create(t, true)))
  {
  }

  lemma ExclusiveSend(s: State, t: nat)
    requires Exclusive(s) && Enabled(s, Send(t)) && |s.channel| < s.max
    ensures Exclusive(Apply(s, Send(t)))
  {
  }

  lemma ExclusiveStep(s: State, step: Step)
    requires Exclusive(s) && Enabled(s, step)
    ensures Exclusive(Apply(s, step))
  {
    match step
    case Receive(t) => ExclusiveReceive(s, t);
    case Check(t) => Moved(s, t, Apply(s, step).callers[t]);
    case Mark(t) => Moved(s, t, Holding(s.callers[t].entry));
    case Miss(t) => Moved(s, t, Missed);
    case Create(t, dialled) =>
      if |s.pool| >= s.max {
        Moved(s, t, Waiting);
      } else if !dialled {
        Moved(s, t, Outside);
      } else {
        ExclusiveCreate(s, t);
      }
    case TimeOut(t) => Moved(s, t, Outside);
    case Reconnect(t) =>
    case Unmark(t) => Moved(s, t, Releasing(s.callers[t].entry));
    case Send(t) =>
      if |s.channel| < s.max {
        ExclusiveSend(s, t);
      } else {
        Moved(s, t, Outside);
      }
    case Maintain => SurvivorsPart(s);
    case Pass(_) =>
  }

  lemma {:induction false} ExclusiveRun(s: State, steps: seq<Step>)
    requires Exclusive(s) && Runs(s, steps)
    ensures Exclusive(Final(s, steps))
    decreases |steps|
  {
    if steps != [] {
      ExclusiveStep(s, steps[0]);
      ExclusiveRun(Apply(s, steps[0]), steps[1..]);
    }
  }

  /** However the callers and the maintenance loop interleave, no two callers hold one entry and
      the pool never exceeds its bound. */
  lemma {:induction false} AlwaysExclusive(size: nat, max: nat, callers: nat, steps: seq<Step>)
    requires size <= max && Runs(Start(size, max, callers), steps)
    ensures var s := Final(Start(size, max, callers), steps);
            && |s.pool| <= s.max
            && forall t, u :: 0 <= t < u < |s.callers| && s.callers[t].Holding? && s.callers[u].Holding?
                 ==> s.callers[t].entry != s.callers[u].entry
  {
    ExclusiveRun(Start(size, max, callers), steps);
    var s := Final(Start(size, max, callers), steps);
    forall t, u | 0 <= t < u < |s.callers| && s.callers[t].Holding? && s.callers[u].Holding?
      ensures s.callers[t].entry != s.callers[u].entry
    {
      assert Owned(s.callers[t]) != Owned(s.callers[u]);
    }
  }

  // ---------------------------------------------------------------------------------------
  // When the channel never overflows.
  // ---------------------------------------------------------------------------------------

  /** No call is between its receive and its mark, its miss and its creation, or its unmark and its send. */
  predicate Quiet(s: State) {
    forall t :: 0 <= t < |s.callers| ==> s.callers[t].Outside? || s.callers[t].Waiting? || s.callers[t].Holding?
  }

  /** Maintenance runs only when no call is in one of those windows, or when it has nothing to reap. */
  predicate Calm(s: State, steps: seq<Step>)
    requires Runs(s, steps)
    decreases |steps|
  {
    steps == [] || ((steps[0].Maintain? ==> Quiet(s) || |s.pool| <= s.size) && Calm(Apply(s, steps[0]), steps[1..]))
  }

  predicate NeverOverflows(s: State, steps: seq<Step>)
    requires Runs(s, steps)
    decreases |steps|
  {
    steps == [] || (!Overflows(s, steps[0]) && NeverOverflows(Apply(s, steps[0]), steps[1..]))
  }

  /** Reaped entries still in the channel. */
  function Stale(s: State): set<nat> {
    set e | e in s.channel && e !in s.pool
  }

  /** A caller that may create an entry next, or has received a reaped one. */
  predicate Creating(s: State, t: nat)
    requires t < |s.callers|
  {
    var p := s.callers[t];
    p.Missed? || (p.Received? && !p.waiting && p.entry !in s.pool)
  }

  function Creators(s: State): set<nat> {
    set t | 0 <= t < |s.callers| && Creating(s, t)
  }

  /** Members are connected; what is connected and in circulation is a member; what is held is marked. */
  ghost predicate Circulation(s: State) {
    && (forall e :: e in s.pool ==> e in s.connected)
    && (forall i :: 0 <= i < |s.channel| && s.channel[i] in s.connected ==> s.channel[i] in s.pool)
    && (forall t :: 0 <= t < |s.callers| ==>
          match s.callers[t]
          case Received(e, _) => e in s.connected ==> e in s.pool
          case Checked(e) => e in s.pool
          case Holding(e) => e in s.pool && e in s.marked
          case Releasing(e) => e in s.pool
          case _ => true)
  }

  /** Reaped entries in the channel leave room for all who may create. */
  ghost predicate Room(s: State) {
    Stale(s) == {} || |s.pool| + |Stale(s)| + |Creators(s)| <= s.max
  }

  lemma Smaller<T>(a: set<T>, b: set<T>)
    requires a <= b
    ensures |a| <= |b|
  {
    assert b == a + (b - a);
  }

  lemma ChannelFits(s: State, e: nat)
    requires Exclusive(s) && Room(s) && e in s.pool && e !in s.channel
    ensures |s.channel| < s.max
  {
    var i :| 0 <= i < |s.pool| && s.pool[i] == e;
    var others := s.pool[..i] + s.pool[i + 1..];
    forall f | f in s.channel
      ensures f in others || f in Stale(s)
    {
      if f in s.pool {
        var j :| 0 <= j < |s.pool| && s.pool[j] == f;
        assert others[if j < i then j else j - 1] == f;
      }
    }
    Covered(s.channel, others, Stale(s));
  }

  lemma SendFits(s: State, t: nat)
    requires Exclusive(s) && Circulation(s) && Room(s) && Enabled(s, Send(t))
    ensures |s.channel| < s.max
  {
    assert Owned(s.callers[t]) != -1;
    ChannelFits(s, s.callers[t].entry);
  }

  lemma CirculationStep(s: State, step: Step)
    requires Exclusive(s) && Circulation(s) && Enabled(s, step) && (step.Maintain? ==> Quiet(s) || |s.pool| <= s.size)
    ensures Circulation(Apply(s, step))
  {
    match step
    case Maintain => SurvivorsPart(s);
    case _ =>
  }

  lemma RoomReceive(s: State, t: nat)
    requires Exclusive(s) && Room(s) && Enabled(s, Receive(t))
    ensures Room(Apply(s, Receive(t)))
  {
    var r := Apply(s, Receive(t));
    var e := s.channel[0];
    assert Stale(r) == Stale(s) - {e};
    if e in s.pool {
      assert Creators(r) <= Creators(s);
      Smaller(Creators(r), Creators(s));
    } else {
      assert e in Stale(s) && Creators(r) <= Creators(s) + {t};
      Smaller(Creators(r), Creators(s) + {t});
    }
  }

  lemma RoomCreate(s: State, t: nat)
    requires Exclusive(s) && Room(s) && Enabled(s, Create(t, true)) && |s.pool| < s.max
    ensures Room(Apply(s, Create(t, true)))
  {
    var r := Apply(s, Create(t, true));
    assert Stale(r) == Stale(s);
    assert Creators(r) == Creators(s) - {t} && t in Creators(s);
  }

  function Gone(before: seq<nat>, after: seq<nat>): set<nat> {
    set e | e in before && e !in after
  }

  lemma KeptAndGone(before: seq<nat>, after: seq<nat>)
    requires NoDup(after) && forall e :: e in after ==> e in before
    ensures |after| + |Gone(before, after)| <= |before|
  {
    var kept := set e | e in after;
    var gone := Gone(before, after);
    DistinctElements(after, kept);
    LentFits(kept + gone, before);
    assert |kept + gone| == |kept| + |gone|;
  }

  lemma RoomMaintain(s: State)
    requires Exclusive(s) && Room(s) && (Quiet(s) || |s.pool| <= s.size)
    ensures Room(Apply(s, Maintain))
  {
    var r := Apply(s, Maintain);
    SurvivorsPart(s);
    if |s.pool| <= s.size {
      assert Stale(r) == Stale(s) && Creators(r) == Creators(s);
    } else {
      KeptAndGone(s.pool, r.pool);
      var gone := Gone(s.pool, r.pool);
      assert Creators(r) == {};
      assert Stale(r) <= Stale(s) + gone;
      RoomCount(s, r, gone);
    }
  }

  lemma RoomCount(s: State, r: State, gone: set<nat>)
    requires Room(s) && |s.pool| <= s.max == r.max
    requires |r.pool| + |gone| <= |s.pool| && Stale(r) <= Stale(s) + gone && Creators(r) == {}
    ensures Room(r)
  {
    hide Stale, Creators;
    Smaller(Stale(r), Stale(s) + gone);
    assert |Stale(s) + gone| <= |Stale(s)| + |gone|;
  }

  /** A step that leaves the pool as it is and adds neither a reaped idle entry nor a creator. */
  lemma RoomSame(s: State, r: State)
    requires Room(s) && r.pool == s.pool && r.max == s.max
    requires Stale(r) == Stale(s) && Creators(r) <= Creators(s)
    ensures Room(r)
  {
    Smaller(Creators(r), Creators(s));
  }

  lemma RoomMove(s: State, t: nat, p: Phase)
    requires Room(s) && t < |s.callers|
    requires (p.Missed? || (p.Received? && !p.waiting)) ==> Creating(s, t) || Stale(s) == {}
    ensures Room(At(s, t, p))
  {
    var r := At(s, t, p);
    assert Stale(r) == Stale(s);
    if Stale(s) != {} {
      assert Creators(r) <= Creators(s);
      RoomSame(s, r);
    }
  }

  lemma RoomStep(s: State, step: Step)
    requires Exclusive(s) && Circulation(s) && Room(s) && Enabled(s, step)
    requires step.Maintain? ==> Quiet(s) || |s.pool| <= s.size
    ensures Room(Apply(s, step)) && !Overflows(s, step)
  {
    hide Room, Stale, Creators;
    match step
    case Receive(t) => RoomReceive(s, t);
    case Check(t) => RoomMove(s, t, Apply(s, step).callers[t]);
    case Mark(t) => RoomMark(s, t);
    case Miss(t) => RoomMiss(s, t);
    case Create(t, dialled) =>
      if |s.pool| >= s.max {
        RoomMove(s, t, Waiting);
      } else if !dialled {
        RoomMove(s, t, Outside);
      } else {
        RoomCreate(s, t);
      }
    case TimeOut(t) => RoomMove(s, t, Outside);
    case Reconnect(t) => RoomAlike(s, Apply(s, step));
    case Unmark(t) => RoomUnmark(s, t);
    case Send(t) =>
      SendFits(s, t);
      RoomSend(s, t);
    case Maintain => RoomMaintain(s);
    case Pass(_) => RoomAlike(s, Apply(s, step));
  }

  lemma RoomAlike(s: State, r: State)
    requires Room(s) && r.pool == s.pool && r.channel == s.channel && r.callers == s.callers && r.max == s.max
    ensures Room(r)
  {
    assert Stale(r) == Stale(s) && Creators(r) == Creators(s);
  }

  lemma RoomMark(s: State, t: nat)
    requires Room(s) && Enabled(s, Mark(t))
    ensures Room(Apply(s, Mark(t)))
  {
    RoomMove(s, t, Holding(s.callers[t].entry));
    RoomAlike(At(s, t, Holding(s.callers[t].entry)), Apply(s, Mark(t)));
  }

  lemma RoomUnmark(s: State, t: nat)
    requires Room(s) && Enabled(s, Unmark(t))
    ensures Room(Apply(s, Unmark(t)))
  {
    RoomMove(s, t, Releasing(s.callers[t].entry));
    RoomAlike(At(s, t, Releasing(s.callers[t].entry)), Apply(s, Unmark(t)));
  }

  lemma RoomMiss(s: State, t: nat)
    requires Room(s) && Enabled(s, Miss(t))
    ensures Room(Apply(s, Miss(t)))
  {
    assert Stale(s) == {};
    RoomMove(s, t, Missed);
  }

  lemma RoomSend(s: State, t: nat)
    requires Room(s) && Circulation(s) && Enabled(s, Send(t)) && |s.channel| < s.max
    ensures Room(Apply(s, Send(t)))
  {
    var r := Apply(s, Send(t));
    assert Stale(r) == Stale(s) && Creators(r) <= Creators(s);
    RoomSame(s, r);
  }

  lemma {:induction false} RunFits(s: State, steps: seq<Step>)
    requires Exclusive(s) && Circulation(s) && Room(s) && Runs(s, steps) && Calm(s, steps)
    ensures NeverOverflows(s, steps) && Circulation(Final(s, steps))
    decreases |steps|
  {
    hide Exclusive, Circulation, Room, Apply, Overflows;
    if steps != [] {
      ExclusiveStep(s, steps[0]);
      CirculationStep(s, steps[0]);
      RoomStep(s, steps[0]);
      RunFits(Apply(s, steps[0]), steps[1..]);
    }
  }

  lemma {:induction false} StartFits(size: nat, max: nat, callers: nat)
    requires size <= max
    ensures Exclusive(Start(size, max, callers)) && Circulation(Start(size, max, callers)) && Room(Start(size, max, callers))
  {
    assert Stale(Start(size, max, callers)) == {};
  }

  /** If maintenance is calm, a release never finds the channel full, and what is held is a connected
      member of the pool, however the callers interleave. */
  lemma {:induction false} CalmNeverOverflows(size: nat, max: nat, callers: nat, steps: seq<Step>)
    requires size <= max && Runs(Start(size, max, callers), steps)
    requires Calm(Start(size, max, callers), steps)
    ensures NeverOverflows(Start(size, max, callers), steps)
    ensures !HoldsReaped(Final(Start(size, max, callers), steps))
  {
    StartFits(size, max, callers);
    RunFits(Start(size, max, callers), steps);
    hide Exclusive, Room, Start;
  }

  // ---------------------------------------------------------------------------------------
  // Which configurations can overflow.
  // ---------------------------------------------------------------------------------------

  /** A release is about to find the channel full. */
  predicate Jammed(s: State) {
    |s.channel| >= s.max && exists t :: 0 <= t < |s.callers| && s.callers[t].Releasing?
  }

  /** A caller holds an entry whose connection maintenance has closed. */
  predicate HoldsReaped(s: State) {
    exists t :: 0 <= t < |s.callers| && s.callers[t].Holding? && s.callers[t].entry !in s.connected
  }

  ghost predicate Reaches(s: State, goal: State -> bool) {
    exists steps :: Runs(s, steps) && goal(Final(s, steps))
  }

  lemma Before(s: State, step: Step, goal: State -> bool)
    requires Enabled(s, step) && Reaches(Apply(s, step), goal)
    ensures Reaches(s, goal)
  {
    var steps :| Runs(Apply(s, step), steps) && goal(Final(Apply(s, step), steps));
    assert ([step] + steps)[1..] == steps;
    assert Runs(s, [step] + steps) && goal(Final(s, [step] + steps));
  }

  lemma Now(s: State, goal: State -> bool)
    requires goal(s)
    ensures Reaches(s, goal)
  {
    var none: seq<Step> := [];
    assert Runs(s, none) && goal(Final(s, none));
  }

  lemma {:induction false} JamOverflows(s: State, steps: seq<Step>) returns (longer: seq<Step>)
    requires Runs(s, steps) && Jammed(Final(s, steps))
    ensures Runs(s, longer) && !NeverOverflows(s, longer)
    decreases |steps|
  {
    if steps == [] {
      var t :| 0 <= t < |s.callers| && s.callers[t].Releasing?;
      longer := [Send(t)];
      assert Overflows(s, longer[0]);
    } else {
      var rest := JamOverflows(Apply(s, steps[0]), steps[1..]);
      longer := [steps[0]] + rest;
      assert longer[1..] == rest;
    }
  }

  /** How many callers own an entry or are about to make one. */
  function Inside(callers: seq<Phase>): nat {
    if callers == [] then 0 else Inside(callers[..|callers| - 1]) + IsInside(callers[|callers| - 1])
  }

  function IsInside(p: Phase): nat {
    if p.Outside? || p.Waiting? then 0 else 1
  }

  lemma {:induction false} ChangeInside(callers: seq<Phase>, t: nat, p: Phase)
    requires t < |callers|
    ensures Inside(callers[t := p]) + IsInside(callers[t]) == Inside(callers) + IsInside(p)
  {
    var n := |callers| - 1;
    if t < n {
      ChangeInside(callers[..n], t, p);
      assert callers[t := p][..n] == callers[..n][t := p];
    } else {
      assert callers[t := p][..n] == callers[..n];
    }
  }

  lemma {:induction false} InsideBound(callers: seq<Phase>)
    ensures Inside(callers) <= |callers|
    ensures Inside(callers) == |callers| ==> forall t :: 0 <= t < |callers| ==> IsInside(callers[t]) == 1
  {
    if callers != [] {
      InsideBound(callers[..|callers| - 1]);
    }
  }

  lemma {:induction false} NoneInside(n: nat)
    ensures Inside(seq(n, _ => Outside)) == 0
  {
    if n > 0 {
      NoneInside(n - 1);
      assert seq(n, _ => Outside)[..n - 1] == seq(n - 1, _ => Outside);
    }
  }

  /** How a step changes the number inside and the length of the channel. */
  lemma InsideStep(s: State, step: Step)
    requires Enabled(s, step)
    ensures var r := Apply(s, step);
            |r.channel| + Inside(r.callers) <= |s.channel| + Inside(s.callers) || (step.Miss? && s.channel == [])
    ensures var r := Apply(s, step); r.size == s.size && r.max == s.max && |r.callers| == |s.callers|
  {
    if !step.Maintain? && !step.Pass? && !step.Reconnect? {
      ChangeInside(s.callers, step.t, Apply(s, step).callers[step.t]);
    }
  }

  /** With no more callers than the channel holds, it never overflows. */
  lemma {:induction false} FewCallersFit(s: State, steps: seq<Step>)
    requires |s.callers| <= s.max && |s.channel| + Inside(s.callers) <= s.max && Runs(s, steps)
    ensures NeverOverflows(s, steps)
    decreases |steps|
  {
    hide Apply, Inside;
    if steps != [] {
      var r := Apply(s, steps[0]);
      InsideStep(s, steps[0]);
      InsideBound(r.callers);
      MissEmpties(s, steps[0]);
      SenderInside(s, steps[0]);
      FewCallersFit(r, steps[1..]);
    }
  }

  lemma MissEmpties(s: State, step: Step)
    requires Enabled(s, step)
    ensures step.Miss? ==> Apply(s, step).channel == []
  {
  }

  lemma SenderInside(s: State, step: Step)
    requires Enabled(s, step) && |s.channel| + Inside(s.callers) <= s.max
    ensures !Overflows(s, step)
  {
    if step.Send? {
      ChangeInside(s.callers, step.t, Outside);
    }
  }

  /** If the pool cannot grow, maintenance has nothing to reap. */
  lemma {:induction false} FullPoolIsCalm(s: State, steps: seq<Step>)
    requires Exclusive(s) && s.size == s.max && Runs(s, steps)
    ensures Calm(s, steps)
    decreases |steps|
  {
    if steps != [] {
      ExclusiveStep(s, steps[0]);
      InsideStep(s, steps[0]);
      hide Apply;
      FullPoolIsCalm(Apply(s, steps[0]), steps[1..]);
    }
  }

  // ---------------------------------------------------------------------------------------
  // A run that overflows, and one that hands out a reaped entry.
  // ---------------------------------------------------------------------------------------

  /** A state reached without any time passing, with entries 0, 1, ... made and in the pool. */
  function Early(size: nat, max: nat, made: nat, channel: seq<nat>, callers: seq<Phase>, marked: set<nat>): State {
    State(size, max, Range(made), channel, callers, marked, Numbers(0, made), made, UsedAtStart(made), 0)
  }

  /** The first k callers have borrowed what was in the pool at the start. */
  function Borrowed(size: nat, max: nat, callers: nat, k: nat): State
    requires k <= size
  {
    Early(size, max, size, Range(size)[k..], seq(callers, t requires 0 <= t => if t < k then Holding(t) else Outside), Numbers(0, k))
  }

  /** Callers from size up to k have found the channel empty. */
  function AllMissed(size: nat, max: nat, callers: nat, k: nat): State {
    Early(size, max, size, [], seq(callers, t requires 0 <= t => if t < size then Holding(t) else if t < k then Missed else Outside), Numbers(0, size))
  }

  /** Callers up to k hold an entry each; those from k to last have yet to make theirs. */
  function Made(size: nat, max: nat, callers: nat, last: nat, k: nat): State {
    Early(size, max, k, [], seq(callers, t requires 0 <= t => if t < k then Holding(t) else if t < last then Missed else Outside), Numbers(0, k))
  }

  /** The first k of max callers have given their entry back; caller max has yet to make its own. */
  function GivenBack(size: nat, max: nat, callers: nat, k: nat): State {
    Early(size, max, max, Range(k),
          seq(callers, t => if t < k then Outside else if t < max then Holding(t) else if t == max then Missed else Outside), Numbers(k, max))
  }

  lemma UsedAgain(made: nat, k: nat)
    ensures k < made ==> UsedAtStart(made)[k := 0] == UsedAtStart(made)
    ensures UsedAtStart(made)[made := 0] == UsedAtStart(made + 1)
  {
  }

  lemma BorrowOne(size: nat, max: nat, callers: nat, k: nat, goal: State -> bool)
    requires k < size && k < callers && Reaches(Borrowed(size, max, callers, k + 1), goal)
    ensures Reaches(Borrowed(size, max, callers, k), goal)
  {
    var s := Borrowed(size, max, callers, k);
    var s1 := Apply(s, Receive(k));
    var s2 := Apply(s1, Check(k));
    var s3 := Apply(s2, Mark(k));
    UsedAgain(size, k);
    assert s3 == Borrowed(size, max, callers, k + 1) by {
      assert s3.callers == Borrowed(size, max, callers, k + 1).callers;
      assert s3.channel == Borrowed(size, max, callers, k + 1).channel;
      assert s3.marked == Borrowed(size, max, callers, k + 1).marked;
    }
    hide Apply, Borrowed, Reaches;
    Before(s2, Mark(k), goal);
    Before(s1, Check(k), goal);
    Before(s, Receive(k), goal);
  }

  lemma MissOne(size: nat, max: nat, callers: nat, k: nat, goal: State -> bool)
    requires size <= k < callers && Reaches(AllMissed(size, max, callers, k + 1), goal)
    ensures Reaches(AllMissed(size, max, callers, k), goal)
  {
    var s := AllMissed(size, max, callers, k);
    assert Apply(s, Miss(k)).callers == AllMissed(size, max, callers, k + 1).callers;
    Before(s, Miss(k), goal);
  }

  lemma MakeOne(size: nat, max: nat, callers: nat, last: nat, k: nat, goal: State -> bool)
    requires k < last <= callers && k < max && Reaches(Made(size, max, callers, last, k + 1), goal)
    ensures Reaches(Made(size, max, callers, last, k), goal)
  {
    var s := Made(size, max, callers, last, k);
    var r := Apply(s, Create(k, true));
    var next := Made(size, max, callers, last, k + 1);
    UsedAgain(k, k);
    assert r.callers == next.callers && r.marked == next.marked && r.connected == next.connected && r.pool == next.pool;
    Before(s, Create(k, true), goal);
  }

  lemma GiveOneBack(size: nat, max: nat, callers: nat, k: nat, goal: State -> bool)
    requires k < max < callers && Reaches(GivenBack(size, max, callers, k + 1), goal)
    ensures Reaches(GivenBack(size, max, callers, k), goal)
  {
    var s := GivenBack(size, max, callers, k);
    var s1 := Apply(s, Unmark(k));
    var s2 := Apply(s1, Send(k));
    var next := GivenBack(size, max, callers, k + 1);
    UsedAgain(max, k);
    assert s2 == next by {
      assert s2.callers == next.callers;
      assert s2.channel == next.channel;
      assert s2.marked == next.marked;
    }
    hide Apply, GivenBack, Reaches;
    Before(s1, Send(k), goal);
    Before(s, Unmark(k), goal);
  }

  lemma {:induction false} BorrowAll(size: nat, max: nat, callers: nat, k: nat, goal: State -> bool)
    requires k <= size <= callers && Reaches(Borrowed(size, max, callers, size), goal)
    ensures Reaches(Borrowed(size, max, callers, k), goal)
    decreases size - k
  {
    hide Reaches, Borrowed;
    if k < size {
      BorrowAll(size, max, callers, k + 1, goal);
      BorrowOne(size, max, callers, k, goal);
    }
  }

  lemma {:induction false} MissAll(size: nat, max: nat, callers: nat, k: nat, last: nat, goal: State -> bool)
    requires size <= k <= last <= callers && Reaches(AllMissed(size, max, callers, last), goal)
    ensures Reaches(AllMissed(size, max, callers, k), goal)
    decreases last - k
  {
    hide Reaches, AllMissed;
    if k < last {
      MissAll(size, max, callers, k + 1, last, goal);
      MissOne(size, max, callers, k, goal);
    }
  }

  lemma {:induction false} MakeAll(size: nat, max: nat, callers: nat, last: nat, k: nat, end: nat, goal: State -> bool)
    requires k <= end <= last <= callers && end <= max && Reaches(Made(size, max, callers, last, end), goal)
    ensures Reaches(Made(size, max, callers, last, k), goal)
    decreases end - k
  {
    hide Reaches, Made;
    if k < end {
      MakeAll(size, max, callers, last, k + 1, end, goal);
      MakeOne(size, max, callers, last, k, goal);
    }
  }

  lemma {:induction false} GiveAllBack(size: nat, max: nat, callers: nat, k: nat, goal: State -> bool)
    requires k <= max < callers && Reaches(GivenBack(size, max, callers, max), goal)
    ensures Reaches(GivenBack(size, max, callers, k), goal)
    decreases max - k
  {
    hide Reaches, GivenBack;
    if k < max {
      GiveAllBack(size, max, callers, k + 1, goal);
      GiveOneBack(size, max, callers, k, goal);
    }
  }

  /** From the start to the first k entries made, with as many callers inside as last. */
  lemma ReachMade(size: nat, max: nat, callers: nat, last: nat, end: nat, goal: State -> bool)
    requires size <= end <= last <= callers && end <= max && Reaches(Made(size, max, callers, last, end), goal)
    ensures Reaches(Start(size, max, callers), goal)
  {
    MakeAll(size, max, callers, last, size, end, goal);
    assert Made(size, max, callers, last, size) == AllMissed(size, max, callers, last);
    MissAll(size, max, callers, size, last, goal);
    assert Borrowed(size, max, callers, size) == AllMissed(size, max, callers, size);
    BorrowAll(size, max, callers, 0, goal);
    assert Borrowed(size, max, callers, 0) == Start(size, max, callers);
    hide Reaches;
  }

  lemma {:induction false} CountAll(flags: seq<bool>)
    requires forall i :: 0 <= i < |flags| ==> flags[i]
    ensures Count(flags) == |flags|
  {
    if flags != [] {
      CountAll(flags[..|flags| - 1]);
    }
  }

  /** When everything is idle long enough, just the base size is left. */
  lemma {:induction false} AllStale(spares: seq<Spare>, base: nat)
    requires forall i :: 0 <= i < |spares| ==> !spares[i].inUse && spares[i].stale
    ensures Count(Survives(spares, base)) == if |spares| < base then |spares| else base
  {
    if spares != [] {
      var n := |spares| - 1;
      AllStale(spares[..n], base);
      SurvivesPrefix(spares, base, n);
    }
  }

  lemma Later(size: nat, max: nat, made: nat, channel: seq<nat>, callers: seq<Phase>, marked: set<nat>, e: nat)
    requires e < made
    ensures Idle(Apply(Early(size, max, made, channel, callers, marked), Pass(IDLE_SECONDS + 1)), e)
  {
  }

  lemma ReapsToSize(s: State)
    requires s.size < |s.pool| && s.marked == {} && forall i :: 0 <= i < |s.pool| ==> Idle(s, s.pool[i])
    ensures |Survivors(s)| == s.size
  {
    AllStale(Spares(s), s.size);
  }

  /** A caller that may create, with room in the pool but none in the channel, jams it. */
  lemma LateCreationJams(s: State, t: nat)
    requires t < |s.callers| && s.callers[t].Missed? && |s.pool| < s.max <= |s.channel|
    ensures Reaches(s, Jammed)
  {
    var s1 := Apply(s, Create(t, true));
    var s2 := Apply(s1, Unmark(t));
    assert s2.callers[t].Releasing? && s2.channel == s.channel;
    hide Apply, Reaches;
    Now(s2, Jammed);
    Before(s1, Unmark(t), Jammed);
    Before(s, Create(t, true), Jammed);
  }

  /** The last caller makes its entry after maintenance has cut the pool, and finds the channel full. */
  lemma JamAfterReaping(size: nat, max: nat, callers: nat)
    requires size < max < callers
    ensures Reaches(GivenBack(size, max, callers, max), Jammed)
  {
    hide Survivors, Idle, Reaches, Jammed;
    var s := GivenBack(size, max, callers, max);
    var s1 := Apply(s, Pass(IDLE_SECONDS + 1));
    forall i | 0 <= i < max
      ensures Idle(s1, s1.pool[i])
    {
      Later(size, max, max, s.channel, s.callers, s.marked, i);
    }
    assert s1.marked == {};
    ReapsToSize(s1);
    LateCreationJams(Apply(s1, Maintain), max);
    Before(s1, Maintain, Jammed);
    Before(s, Pass(IDLE_SECONDS + 1), Jammed);
  }

  lemma MayJam(size: nat, max: nat, callers: nat)
    requires size < max < callers
    ensures Reaches(Start(size, max, callers), Jammed)
  {
    JamAfterReaping(size, max, callers);
    GiveAllBack(size, max, callers, 0, Jammed);
    assert GivenBack(size, max, callers, 0) == Made(size, max, callers, max + 1, max);
    ReachMade(size, max, callers, max + 1, max, Jammed);
    hide Reaches;
  }

  /** Some run overflows the channel exactly when the pool may grow and more callers than the channel
      holds may be inside at once. */
  lemma OverflowsIff(size: nat, max: nat, callers: nat)
    requires size <= max
    ensures (exists steps :: Runs(Start(size, max, callers), steps) && !NeverOverflows(Start(size, max, callers), steps))
            <==> size < max < callers
  {
    var s := Start(size, max, callers);
    if size < max < callers {
      MayJam(size, max, callers);
      var steps :| Runs(s, steps) && Jammed(Final(s, steps));
      var longer := JamOverflows(s, steps);
      assert Runs(s, longer) && !NeverOverflows(s, longer);
    }
    forall steps | Runs(s, steps) && !(size < max < callers)
      ensures NeverOverflows(s, steps)
    {
      StartFits(size, max, callers);
      if size == max {
        FullPoolIsCalm(s, steps);
        RunFits(s, steps);
      } else {
        NoneInside(callers);
        FewCallersFit(s, steps);
      }
    }
    hide Start, Exclusive, Circulation, Room;
  }

  // ---------------------------------------------------------------------------------------
  // Which configurations can hand out a reaped entry.
  // ---------------------------------------------------------------------------------------

  lemma ReapsLast(s: State)
    requires s.pool == Range(s.size + 1) && s.marked == Numbers(0, s.size) && Idle(s, s.size)
    ensures s.size !in Survivors(s)
  {
    hide Survives, Filter, Count, Numbers, Range;
    var spares := Spares(s);
    var flags := Survives(spares, s.size);
    forall i | 0 <= i < s.size
      ensures flags[..s.size][i]
    {
      assert spares[i].inUse;
      SurvivesIff(spares, s.size, i);
    }
    CountAll(flags[..s.size]);
    SurvivesIff(spares, s.size, s.size);
    assert s.pool[s.size] == s.size;
    FilterElements(s.pool, flags);
  }

  /** A checked entry that maintenance would reap is handed out reaped. */
  lemma ReapedWhenMarked(s: State, t: nat)
    requires t < |s.callers| && s.callers[t].Checked? && s.callers[t].entry in s.pool && s.callers[t].entry !in Survivors(s)
    ensures Reaches(s, HoldsReaped)
  {
    hide Survivors, Reaches;
    var s1 := Apply(s, Maintain);
    var s2 := Apply(s1, Mark(t));
    assert s2.callers[t].Holding? && s2.callers[t].entry !in s2.connected;
    Now(s2, HoldsReaped);
    Before(s1, Mark(t), HoldsReaped);
    Before(s, Maintain, HoldsReaped);
  }

  /** The entry made last is given back, received again and checked. */
  function Rechecked(size: nat, max: nat, callers: nat): State {
    Early(size, max, size + 1, [], seq(callers, t requires 0 <= t => if t < size then Holding(t) else if t == size then Checked(t) else Outside), Numbers(0, size))
  }

  lemma ReachRechecked(size: nat, max: nat, callers: nat)
    requires size < max && size < callers && Reaches(Rechecked(size, max, callers), HoldsReaped)
    ensures Reaches(Made(size, max, callers, size + 1, size + 1), HoldsReaped)
  {
    var s := Made(size, max, callers, size + 1, size + 1);
    var s1 := Apply(s, Unmark(size));
    var s2 := Apply(s1, Send(size));
    var s3 := Apply(s2, Receive(size));
    var s4 := Apply(s3, Check(size));
    UsedAgain(size + 1, size);
    assert s4 == Rechecked(size, max, callers) by {
      assert s4.callers == Rechecked(size, max, callers).callers;
      assert s4.marked == Rechecked(size, max, callers).marked;
    }
    hide Apply, Made, Rechecked, Reaches, HoldsReaped;
    Before(s3, Check(size), HoldsReaped);
    Before(s2, Receive(size), HoldsReaped);
    Before(s1, Send(size), HoldsReaped);
    Before(s, Unmark(size), HoldsReaped);
  }

  lemma ReapedBeforeMark(size: nat, max: nat, callers: nat)
    requires size < max && size < callers
    ensures Reaches(Made(size, max, callers, size + 1, size + 1), HoldsReaped)
  {
    hide Survivors, Idle, Reaches, HoldsReaped, Made, Range, Numbers;
    var s := Rechecked(size, max, callers);
    var s1 := Apply(s, Pass(IDLE_SECONDS + 1));
    Later(size, max, size + 1, s.channel, s.callers, s.marked, size);
    ReapsLast(s1);
    assert s1.pool[size] == size;
    ReapedWhenMarked(s1, size);
    Before(s, Pass(IDLE_SECONDS + 1), HoldsReaped);
    ReachRechecked(size, max, callers);
  }

  /** As long as there are no more callers than entries, none finds the channel empty: every entry is
      idle or owned, and connected. */
  ghost predicate Plenty(s: State) {
    && |s.callers| <= s.size <= s.max && |s.pool| <= s.size
    && |s.channel| + Inside(s.callers) == s.size
    && (forall t :: 0 <= t < |s.callers| ==> !s.callers[t].Missed?)
    && (forall t :: 0 <= t < |s.callers| && s.callers[t].Received? ==> s.callers[t].entry in s.connected)
    && (forall i :: 0 <= i < |s.channel| ==> s.channel[i] in s.connected)
    && (forall t :: 0 <= t < |s.callers| && (s.callers[t].Holding? || s.callers[t].Checked? || s.callers[t].Releasing?) ==>
          s.callers[t].entry in s.connected)
  }

  lemma PlentyStep(s: State, step: Step)
    requires Plenty(s) && Enabled(s, step)
    ensures Plenty(Apply(s, step))
  {
    InsideBound(s.callers);
    if !step.Maintain? && !step.Pass? && !step.Reconnect? {
      ChangeInside(s.callers, step.t, Apply(s, step).callers[step.t]);
    }
    hide Inside;
  }

  lemma {:induction false} PlentyRun(s: State, steps: seq<Step>)
    requires Plenty(s) && Runs(s, steps)
    ensures !HoldsReaped(Final(s, steps))
    decreases |steps|
  {
    hide Apply;
    if steps != [] {
      PlentyStep(s, steps[0]);
      hide Plenty;
      PlentyRun(Apply(s, steps[0]), steps[1..]);
    }
  }

  /** In some run a caller holds an entry that has been reaped exactly when the pool may grow and there
      are more callers than entries at the start. */
  lemma HoldsReapedIff(size: nat, max: nat, callers: nat)
    requires size <= max
    ensures Reaches(Start(size, max, callers), HoldsReaped) <==> size < max && size < callers
  {
    var s := Start(size, max, callers);
    if size < max && size < callers {
      ReapedBeforeMark(size, max, callers);
      ReachMade(size, max, callers, size + 1, size + 1, HoldsReaped);
    }
    forall steps | Runs(s, steps) && !(size < max && size < callers)
      ensures !HoldsReaped(Final(s, steps))
    {
      StartFits(size, max, callers);
      if size == max {
        FullPoolIsCalm(s, steps);
        RunFits(s, steps);
      } else {
        NoneInside(callers);
        PlentyRun(s, steps);
      }
    }
    hide Exclusive, Room;
  }
}
