/** Measuring the round-trip time of the sessions: which addresses are pinged and in which order, and
    the tracker each session's results go into. What a ping finds is an input; losses are reals. */
module RttTracker {
  import opened Sessions

  const MINUTE := 60_000_000_000

  datatype Protocol = IPv6LL | IPv6 | IPv4

  /** What a ping finds (-1 for no answer), and how long it takes. */
  datatype Ping = Ping(rtt: int, loss: real, took: nat)

  /** One measurement; a failed one has no protocol. */
  datatype Sample = Sample(protocol: Option<Protocol>, rtt: int, loss: real)

  const FAILED := Sample(None, -1, 1.0)

  datatype Targets = Targets(ipv4: string, ipv6: string, ipv6ll: string) {
    function Address(p: Protocol): string {
      match p
      case IPv4 => ipv4
      case IPv6 => ipv6
      case IPv6LL => ipv6ll
    }
  }

  // ---------------------------------------------------------------------------------------
  // What a tracker shows of the measurements of its session.
  // ---------------------------------------------------------------------------------------

  datatype View = View(preferred: Option<Protocol>, lastRTT: int, lastLoss: real,
                       metric: seq<int>, lossMetric: seq<real>, avgLoss: real)

  function WindowLength(n: nat, limit: int): nat {
    if limit < 0 then 0 else if limit < n then limit else n
  }

  /** The last entries, as many as the limit allows. */
  function Window<T>(s: seq<T>, limit: int): seq<T> {
    s[|s| - WindowLength(|s|, limit)..]
  }

  function Rtts(h: seq<Sample>): seq<int> {
    seq(|h|, i requires 0 <= i < |h| => h[i].rtt)
  }

  function Losses(h: seq<Sample>): seq<real> {
    seq(|h|, i requires 0 <= i < |h| => h[i].loss)
  }

  function Sum(s: seq<real>): real {
    if s == [] then 0.0 else Sum(s[..|s| - 1]) + s[|s| - 1]
  }

  function Mean(s: seq<real>): real {
    if s == [] then 0.0 else Sum(s) / |s| as real
  }

  /** The protocol of the most recent success. */
  function LastSuccess(h: seq<Sample>): Option<Protocol> {
    if h == [] then None
    else if h[|h| - 1].protocol.Some? then h[|h| - 1].protocol
    else LastSuccess(h[..|h| - 1])
  }

  /** What a tracker holds after these measurements. */
  function Tracked(h: seq<Sample>, limit: int): View
    requires h != []
  {
    var last := h[|h| - 1];
    View(LastSuccess(h), last.rtt, last.loss, Window(Rtts(h), limit), Window(Losses(h), limit), Mean(Window(Losses(h), limit)))
  }

  /** Appending and dropping one too many moves the window by one, whatever the limit. */
  lemma WindowStep<T>(s: seq<T>, x: T, limit: int)
    ensures var grown := Window(s, limit) + [x];
            Window(s + [x], limit) == if |grown| > limit then grown[1..] else grown
  {
  }

  /** For any limit both windows have the same length, that of the last measurements it allows. */
  lemma WindowsMatch(h: seq<Sample>, limit: int)
    requires h != []
    ensures var v := Tracked(h, limit);
            && |v.metric| == |v.lossMetric| == WindowLength(|h|, limit)
            && forall i :: 0 <= i < |v.metric| ==>
                 var sample := h[|h| - |v.metric| + i];
                 v.metric[i] == sample.rtt && v.lossMetric[i] == sample.loss
  {
  }

  /** The preferred protocol is that of the most recent success, if there was one. */
  lemma {:induction false} PreferredIsLastSuccess(h: seq<Sample>)
    ensures match LastSuccess(h)
            case None => forall i :: 0 <= i < |h| ==> h[i].protocol == None
            case Some(p) => exists i :: 0 <= i < |h| && h[i].protocol == Some(p) && forall k :: i < k < |h| ==> h[k].protocol == None
  {
    if h == [] {
    } else if h[|h| - 1].protocol == None {
      var n := |h| - 1;
      PreferredIsLastSuccess(h[..n]);
      assert LastSuccess(h) == LastSuccess(h[..n]);
      hide LastSuccess;
      assert forall i :: 0 <= i < n ==> h[i] == h[..n][i];
      if LastSuccess(h).Some? {
        var i :| 0 <= i < n && h[..n][i].protocol == LastSuccess(h) && forall k :: i < k < n ==> h[..n][k].protocol == None;
        assert h[i].protocol == LastSuccess(h) && forall k :: i < k < |h| ==> h[k].protocol == None;
      }
    } else {
      assert h[|h| - 1].protocol == LastSuccess(h);
    }
  }

  lemma {:induction false} SumBounds(s: seq<real>)
    requires forall i :: 0 <= i < |s| ==> 0.0 <= s[i] <= 1.0
    ensures 0.0 <= Sum(s) <= |s| as real
  {
    if s != [] {
      SumBounds(s[..|s| - 1]);
    }
  }

  lemma DivBounds(x: real, n: real)
    requires n > 0.0 && 0.0 <= x <= n
    ensures 0.0 <= x / n <= 1.0 && x / n * n == x
  {
  }

  lemma {:induction false} MeanBounds(s: seq<real>)
    requires forall i :: 0 <= i < |s| ==> 0.0 <= s[i] <= 1.0
    ensures 0.0 <= Mean(s) <= 1.0
    ensures s != [] ==> Mean(s) * |s| as real == Sum(s)
  {
    SumBounds(s);
    if s != [] {
      DivBounds(Sum(s), |s| as real);
    }
  }

  lemma Restored(t: real, c: real)
    requires c > 0.0
    ensures t / c * c == t
  {
  }

  /** Each loss counts in full, and all count alike. */
  lemma {:induction false} MeanGrows(s: seq<real>, x: real)
    ensures Mean([x]) == x
    ensures Mean(s + [x]) * (|s| + 1) as real == Mean(s) * |s| as real + x
  {
    assert (s + [x])[..|s|] == s && [x][..0] == [];
    assert Sum(s + [x]) == Sum(s) + x && Sum([x]) == x;
    hide Sum;
    Restored(Sum(s + [x]), (|s| + 1) as real);
    if s == [] {
      assert s + [x] == [x];
    } else {
      Restored(Sum(s), |s| as real);
    }
  }

  /** With losses in 0..1, so is the average the tracker holds. */
  lemma AvgLossBounds(h: seq<Sample>, limit: int)
    requires h != [] && forall i :: 0 <= i < |h| ==> 0.0 <= h[i].loss <= 1.0
    ensures 0.0 <= Tracked(h, limit).avgLoss <= 1.0
  {
    MeanBounds(Window(Losses(h), limit));
  }

  // ---------------------------------------------------------------------------------------
  // Which protocols a measurement tries.
  // ---------------------------------------------------------------------------------------

  const ALL := [IPv6LL, IPv6, IPv4]

  function Except(s: seq<Protocol>, p: Protocol): seq<Protocol> {
    if s == [] then []
    else Except(s[..|s| - 1], p) + if s[|s| - 1] != p then [s[|s| - 1]] else []
  }

  /** The protocols tried after these measurements of the session. */
  function Order(h: seq<Sample>): seq<Protocol> {
    match LastSuccess(h)
    case None => ALL
    case Some(p) => if h[|h| - 1].rtt != -1 then [p] else [p] + Except(ALL, p)
  }

  lemma {:induction false} OrderIs(h: seq<Sample>)
    ensures Order(h) == match LastSuccess(h)
                        case None => ALL
                        case Some(p) => if h[|h| - 1].rtt != -1 then [p] else [p] + Except(ALL, p)
  {
  }

  lemma {:induction false} ExceptAll(p: Protocol)
    ensures Except(ALL, p) == if p == IPv6LL then [IPv6, IPv4] else if p == IPv6 then [IPv6LL, IPv4] else [IPv6LL, IPv6]
  {
    assert ALL[..2] == [IPv6LL, IPv6];
    assert [IPv6LL, IPv6][..1] == [IPv6LL];
    assert [IPv6LL][..0] == [];
    assert Except([IPv6LL], p) == if p != IPv6LL then [IPv6LL] else [];
    assert Except([IPv6LL, IPv6], p) == Except([IPv6LL], p) + if p != IPv6 then [IPv6] else [];
  }

  /** What a call finds: the sample it records, and the cache and clock it leaves. */
  datatype Outcome = Outcome(sample: Sample, failed: map<string, int>, now: int)

  datatype Config = Config(limit: int, pingCount: int, pingCountOnFail: int) {
    /** Fewer packets for an address that failed in the last ten minutes. */
    function Count(failed: map<string, int>, now: int, ip: string): int {
      if ip in failed && now - failed[ip] < 10 * MINUTE then pingCountOnFail else pingCount
    }
  }

  /** The cache of failed addresses after a ping; an answer within a millisecond counts as a failure. */
  function Remembered(failed: map<string, int>, ip: string, rtt: int, now: int): map<string, int> {
    if rtt <= 0 then failed[ip := now] else failed - {ip}
  }

  /** Tries the configured protocols in this order until one answers. */
  function FirstAnswer(config: Config, order: seq<Protocol>, targets: Targets, pings: (Protocol, int) -> Ping,
                       failed: map<string, int>, now: int): Outcome {
    if order == [] then Outcome(FAILED, failed, now)
    else
      var ip := targets.Address(order[0]);
      if ip == "" then FirstAnswer(config, order[1..], targets, pings, failed, now)
      else
        var ping := pings(order[0], config.Count(failed, now, ip));
        var failed1 := Remembered(failed, ip, ping.rtt, now + ping.took);
        if ping.rtt != -1 then Outcome(Sample(Some(order[0]), ping.rtt, ping.loss), failed1, now + ping.took)
        else FirstAnswer(config, order[1..], targets, pings, failed1, now + ping.took)
  }

  /** A ping made: the address, the time found and when it ended. */
  datatype Pinged = Pinged(ip: string, rtt: int, time: int)

  /** The cache after these pings. */
  function CacheAfter(h: seq<Pinged>): map<string, int> {
    if h == [] then map[]
    else
      var last := h[|h| - 1];
      Remembered(CacheAfter(h[..|h| - 1]), last.ip, last.rtt, last.time)
  }

  /** Whether the last ping of the address failed, less than ten minutes ago. */
  predicate FailedLately(h: seq<Pinged>, ip: string, now: int) {
    exists i :: 0 <= i < |h| && h[i].ip == ip && h[i].rtt <= 0 && now - h[i].time < 600_000_000_000
                && forall k :: i < k < |h| ==> h[k].ip != ip
  }

  /** The address is in the cache exactly with the time of its last ping, if that failed. */
  lemma {:induction false} CacheIsLastFailure(h: seq<Pinged>, ip: string, now: int)
    ensures FailedLately(h, ip, now) <==> ip in CacheAfter(h) && now - CacheAfter(h)[ip] < 600_000_000_000
  {
    if h != [] {
      var n := |h| - 1;
      CacheIsLastFailure(h[..n], ip, now);
      if h[n].ip != ip {
        if FailedLately(h, ip, now) {
          var i :| 0 <= i < |h| && h[i].ip == ip && h[i].rtt <= 0 && now - h[i].time < 600_000_000_000
                   && forall k :: i < k < |h| ==> h[k].ip != ip;
          assert h[..n][i] == h[i];
        }
        if FailedLately(h[..n], ip, now) {
          var i :| 0 <= i < n && h[..n][i].ip == ip && h[..n][i].rtt <= 0 && now - h[..n][i].time < 600_000_000_000
                   && forall k :: i < k < n ==> h[..n][k].ip != ip;
          assert h[i] == h[..n][i] && forall k :: i < k < n ==> h[k] == h[..n][k];
        }
      }
    }
  }

  /** After any pings an address gets the smaller number of packets exactly if its last ping failed less
      than ten minutes ago. */
  lemma {:induction false} PacketsDue(config: Config, h: seq<Pinged>, ip: string, now: int)
    ensures config.Count(CacheAfter(h), now, ip) == if FailedLately(h, ip, now) then config.pingCountOnFail else config.pingCount
  {
    CacheIsLastFailure(h, ip, now);
    hide FailedLately, CacheAfter;
  }

  /** The order written out: without any success yet link-local, IPv6, IPv4; after a success only its
      protocol; after a failure the protocol of the last success and then the others. */
  lemma {:induction false} OrderWritten(h: seq<Sample>)
    ensures match LastSuccess(h)
            case None => Order(h) == [IPv6LL, IPv6, IPv4]
            case Some(p) =>
              if h[|h| - 1].rtt != -1 then Order(h) == [p]
              else Order(h) == match p
                               case IPv6LL => [IPv6LL, IPv6, IPv4]
                               case IPv6 => [IPv6, IPv6LL, IPv4]
                               case IPv4 => [IPv4, IPv6LL, IPv6]
  {
    if LastSuccess(h).Some? {
      ExceptAll(LastSuccess(h).value);
    }
  }

  // ---------------------------------------------------------------------------------------
  // Failover.
  // ---------------------------------------------------------------------------------------

  ghost predicate AlwaysAnswers(targets: Targets, pings: (Protocol, int) -> Ping, p: Protocol) {
    targets.Address(p) != "" && forall n :: pings(p, n).rtt != -1
  }

  /** Whether an address answers does not depend on the number of packets. */
  ghost predicate Steady(pings: (Protocol, int) -> Ping) {
    forall p, m, n :: pings(p, m).rtt == -1 ==> pings(p, n).rtt == -1
  }

  lemma OrderOnce(h: seq<Sample>)
    ensures var o := Order(h);
            && o != [] && forall i, j :: 0 <= i < j < |o| ==> o[i] != o[j]
  {
    if LastSuccess(h).Some? {
      ExceptAll(LastSuccess(h).value);
    }
  }

  /** All protocols are tried unless the last measurement was a success. */
  lemma OrderCovers(h: seq<Sample>)
    requires h == [] || h[|h| - 1].rtt == -1
    ensures forall p :: p in Order(h)
  {
    var o := Order(h);
    if LastSuccess(h).Some? {
      ExceptAll(LastSuccess(h).value);
    }
    forall p
      ensures p in o
    {
      assert o[0] == p || o[1] == p || o[2] == p;
    }
  }

  /** A sample that is no failure names a configured protocol of the order and what it answered. */
  lemma {:induction false} SampleMeans(config: Config, order: seq<Protocol>, targets: Targets, pings: (Protocol, int) -> Ping,
                                       failed: map<string, int>, now: int)
    ensures var s := FirstAnswer(config, order, targets, pings, failed, now).sample;
            if s.rtt == -1 then s == Sample(None, -1, 1.0)
            else
              && s.protocol.Some? && s.protocol.value in order && targets.Address(s.protocol.value) != ""
              && exists n :: s.rtt == pings(s.protocol.value, n).rtt && s.loss == pings(s.protocol.value, n).loss
    decreases |order|
  {
    if order != [] {
      var ip := targets.Address(order[0]);
      if ip == "" {
        SampleMeans(config, order[1..], targets, pings, failed, now);
      } else {
        var n := config.Count(failed, now, ip);
        var ping := pings(order[0], n);
        if ping.rtt == -1 {
          SampleMeans(config, order[1..], targets, pings, Remembered(failed, ip, ping.rtt, now + ping.took), now + ping.took);
        }
      }
    }
  }

  /** One protocol that always answers is enough. */
  lemma {:induction false} Reached(config: Config, order: seq<Protocol>, targets: Targets, pings: (Protocol, int) -> Ping,
                                   failed: map<string, int>, now: int, p: Protocol)
    requires p in order && AlwaysAnswers(targets, pings, p)
    ensures FirstAnswer(config, order, targets, pings, failed, now).sample.rtt != -1
    decreases |order|
  {
    var ip := targets.Address(order[0]);
    if ip == "" {
      Reached(config, order[1..], targets, pings, failed, now, p);
    } else {
      var ping := pings(order[0], config.Count(failed, now, ip));
      if ping.rtt == -1 {
        Reached(config, order[1..], targets, pings, Remembered(failed, ip, ping.rtt, now + ping.took), now + ping.took, p);
      }
    }
  }

  /** The cache and the clock after these protocols have been tried in turn. */
  function Tried(config: Config, order: seq<Protocol>, targets: Targets, pings: (Protocol, int) -> Ping,
                 failed: map<string, int>, now: int): (map<string, int>, int) {
    if order == [] then (failed, now)
    else
      var ip := targets.Address(order[0]);
      if ip == "" then Tried(config, order[1..], targets, pings, failed, now)
      else
        var ping := pings(order[0], config.Count(failed, now, ip));
        Tried(config, order[1..], targets, pings, Remembered(failed, ip, ping.rtt, now + ping.took), now + ping.took)
  }

  /** Whether a protocol is configured and answers the packets that it would be sent now. */
  predicate Answers(config: Config, p: Protocol, targets: Targets, pings: (Protocol, int) -> Ping, failed: map<string, int>, now: int) {
    targets.Address(p) != "" && pings(p, config.Count(failed, now, targets.Address(p))).rtt != -1
  }

  /** Whether a protocol of the order answers at the time its turn comes. */
  predicate AnswersInTurn(config: Config, order: seq<Protocol>, i: nat, targets: Targets, pings: (Protocol, int) -> Ping,
                          failed: map<string, int>, now: int)
    requires i < |order|
  {
    var (cache, time) := Tried(config, order[..i], targets, pings, failed, now);
    Answers(config, order[i], targets, pings, cache, time)
  }

  lemma {:induction false} TriedFirst(config: Config, order: seq<Protocol>, i: nat, targets: Targets, pings: (Protocol, int) -> Ping,
                                      failed: map<string, int>, now: int)
    requires 0 < i < |order|
    ensures var (failed1, now1) := Tried(config, order[..1], targets, pings, failed, now);
            AnswersInTurn(config, order, i, targets, pings, failed, now)
            <==> AnswersInTurn(config, order[1..], i - 1, targets, pings, failed1, now1)
  {
    assert order[..i][1..] == order[1..][..i - 1] && order[..1][1..] == [];
  }

  /** A measurement succeeds exactly if a protocol of the order answers in its turn, each with the number
      of packets due at that time. */
  lemma {:induction false} FirstAnswerIff(config: Config, order: seq<Protocol>, targets: Targets, pings: (Protocol, int) -> Ping,
                                          failed: map<string, int>, now: int)
    ensures FirstAnswer(config, order, targets, pings, failed, now).sample.rtt != -1
            <==> exists i: nat :: i < |order| && AnswersInTurn(config, order, i, targets, pings, failed, now)
    decreases |order|
  {
    hide AnswersInTurn, FirstAnswer, Tried;
    FirstAnswerStep(config, order, targets, pings, failed, now);
    if order != [] {
      var (failed1, now1) := Tried(config, order[..1], targets, pings, failed, now);
      FirstTurn(config, order, targets, pings, failed, now);
      FirstAnswerIff(config, order[1..], targets, pings, failed1, now1);
      forall i: nat | 0 < i < |order|
        ensures AnswersInTurn(config, order, i, targets, pings, failed, now)
                <==> AnswersInTurn(config, order[1..], i - 1, targets, pings, failed1, now1)
      {
        TriedFirst(config, order, i, targets, pings, failed, now);
      }
      ShiftedTurn(config, order, targets, pings, failed, now, failed1, now1);
    }
  }

  /** It is the first of them that is recorded, with what it answered. */
  lemma {:induction false} FirstInTurn(config: Config, order: seq<Protocol>, i: nat, targets: Targets, pings: (Protocol, int) -> Ping,
                                       failed: map<string, int>, now: int)
    requires i < |order| && AnswersInTurn(config, order, i, targets, pings, failed, now)
    requires forall k: nat :: k < i ==> !AnswersInTurn(config, order, k, targets, pings, failed, now)
    ensures var (cache, time) := Tried(config, order[..i], targets, pings, failed, now);
            var ping := pings(order[i], config.Count(cache, time, targets.Address(order[i])));
            FirstAnswer(config, order, targets, pings, failed, now).sample == Sample(Some(order[i]), ping.rtt, ping.loss)
    decreases i
  {
    hide AnswersInTurn, FirstAnswer, Tried;
    FirstAnswerStep(config, order, targets, pings, failed, now);
    FirstTurn(config, order, targets, pings, failed, now);
    if i == 0 {
      TriedNothing(config, order, targets, pings, failed, now);
    } else {
      var (failed1, now1) := Tried(config, order[..1], targets, pings, failed, now);
      assert !AnswersInTurn(config, order, 0, targets, pings, failed, now);
      TriedMore(config, order, i, targets, pings, failed, now);
      TriedFirst(config, order, i, targets, pings, failed, now);
      forall k: nat | k < i - 1
        ensures !AnswersInTurn(config, order[1..], k, targets, pings, failed1, now1)
      {
        TriedFirst(config, order, k + 1, targets, pings, failed, now);
        assert !AnswersInTurn(config, order, k + 1, targets, pings, failed, now);
      }
      FirstInTurn(config, order[1..], i - 1, targets, pings, failed1, now1);
    }
  }

  lemma {:induction false} TriedNothing(config: Config, order: seq<Protocol>, targets: Targets, pings: (Protocol, int) -> Ping,
                                        failed: map<string, int>, now: int)
    requires order != []
    ensures Tried(config, order[..0], targets, pings, failed, now) == (failed, now)
    ensures Answers(config, order[0], targets, pings, failed, now) <==> AnswersInTurn(config, order, 0, targets, pings, failed, now)
  {
  }

  lemma {:induction false} TriedMore(config: Config, order: seq<Protocol>, i: nat, targets: Targets, pings: (Protocol, int) -> Ping,
                                     failed: map<string, int>, now: int)
    requires 0 < i < |order|
    ensures var (failed1, now1) := Tried(config, order[..1], targets, pings, failed, now);
            Tried(config, order[..i], targets, pings, failed, now) == Tried(config, order[1..][..i - 1], targets, pings, failed1, now1)
  {
    assert order[..i][1..] == order[1..][..i - 1] && order[..1][1..] == [];
  }

  lemma {:induction false} FirstTurn(config: Config, order: seq<Protocol>, targets: Targets, pings: (Protocol, int) -> Ping,
                                     failed: map<string, int>, now: int)
    requires order != []
    ensures AnswersInTurn(config, order, 0, targets, pings, failed, now) <==> Answers(config, order[0], targets, pings, failed, now)
    ensures var ip := targets.Address(order[0]);
            var ping := pings(order[0], config.Count(failed, now, ip));
            Tried(config, order[..1], targets, pings, failed, now)
            == if ip == "" then (failed, now) else (Remembered(failed, ip, ping.rtt, now + ping.took), now + ping.took)
  {
    assert order[..1][1..] == [] && order[..0] == [];
  }

  lemma ShiftedTurn(config: Config, order: seq<Protocol>, targets: Targets, pings: (Protocol, int) -> Ping,
                    failed: map<string, int>, now: int, failed1: map<string, int>, now1: int)
    requires order != []
    requires forall i: nat :: 0 < i < |order| ==>
               (AnswersInTurn(config, order, i, targets, pings, failed, now)
                <==> AnswersInTurn(config, order[1..], i - 1, targets, pings, failed1, now1))
    ensures (exists i: nat :: i < |order| && AnswersInTurn(config, order, i, targets, pings, failed, now))
            <==> AnswersInTurn(config, order, 0, targets, pings, failed, now)
                 || exists i: nat :: i < |order[1..]| && AnswersInTurn(config, order[1..], i, targets, pings, failed1, now1)
  {
    hide AnswersInTurn;
    if i: nat :| i < |order| && AnswersInTurn(config, order, i, targets, pings, failed, now) {
      if i > 0 {
        var k: nat := i - 1;
        assert AnswersInTurn(config, order[1..], k, targets, pings, failed1, now1);
      }
    }
    if k: nat :| k < |order[1..]| && AnswersInTurn(config, order[1..], k, targets, pings, failed1, now1) {
      var i: nat := k + 1;
      assert AnswersInTurn(config, order, i, targets, pings, failed, now) <==> AnswersInTurn(config, order[1..], i - 1, targets, pings, failed1, now1);
      assert AnswersInTurn(config, order, i, targets, pings, failed, now);
    }
  }

  /** When a measurement succeeds: after a success, exactly if the protocol that answered then is
      configured and answers now; otherwise exactly if one of all protocols answers in its turn. */
  lemma {:induction false} SucceedsIff(config: Config, h: seq<Sample>, targets: Targets, pings: (Protocol, int) -> Ping,
                    failed: map<string, int>, now: int)
    requires Recorded(h)
    ensures FirstAnswer(config, Order(h), targets, pings, failed, now).sample.rtt != -1
            <==> if h != [] && h[|h| - 1].rtt != -1 then Answers(config, h[|h| - 1].protocol.value, targets, pings, failed, now)
                 else exists i: nat :: i < |Order(h)| && AnswersInTurn(config, Order(h), i, targets, pings, failed, now)
    ensures h == [] || h[|h| - 1].rtt == -1 ==> |Order(h)| == 3 && forall p :: p in Order(h)
  {
    FirstAnswerIff(config, Order(h), targets, pings, failed, now);
    OrderLength(h);
    hide AnswersInTurn, FirstAnswer;
    if h != [] && h[|h| - 1].rtt != -1 {
      FirstTurn(config, Order(h), targets, pings, failed, now);
    } else {
      OrderCovers(h);
    }
  }

  lemma OrderLength(h: seq<Sample>)
    requires Recorded(h)
    ensures if h != [] && h[|h| - 1].rtt != -1 then Order(h) == [h[|h| - 1].protocol.value] else |Order(h)| == 3
  {
    if LastSuccess(h).Some? {
      ExceptAll(LastSuccess(h).value);
    }
  }

  /** If answering does not depend on the number of packets, it comes down to which addresses answer. */
  lemma {:induction false} SteadySucceedsIff(config: Config, h: seq<Sample>, targets: Targets, pings: (Protocol, int) -> Ping,
                          failed: map<string, int>, now: int)
    requires Recorded(h) && Steady(pings)
    ensures FirstAnswer(config, Order(h), targets, pings, failed, now).sample.rtt != -1
            <==> if h != [] && h[|h| - 1].rtt != -1 then AlwaysAnswers(targets, pings, h[|h| - 1].protocol.value)
                 else exists p :: AlwaysAnswers(targets, pings, p)
  {
    SampleMeans(config, Order(h), targets, pings, failed, now);
    var s := FirstAnswer(config, Order(h), targets, pings, failed, now).sample;
    if s.rtt != -1 {
      assert AlwaysAnswers(targets, pings, s.protocol.value);
    }
    if h == [] || h[|h| - 1].rtt == -1 {
      OrderCovers(h);
    }
    forall p | p in Order(h) && AlwaysAnswers(targets, pings, p)
      ensures s.rtt != -1
    {
      Reached(config, Order(h), targets, pings, failed, now, p);
    }
  }

  /** What measurements leave behind: failures, and successes with their protocol. */
  predicate Recorded(h: seq<Sample>) {
    forall i :: 0 <= i < |h| ==> if h[i].rtt == -1 then h[i] == FAILED else h[i].protocol.Some?
  }

  /** Every measurement adds a sample of that kind. */
  lemma {:induction false} MeasurementRecorded(config: Config, h: seq<Sample>, targets: Targets, pings: (Protocol, int) -> Ping,
                            failed: map<string, int>, now: int)
    requires Recorded(h)
    ensures Recorded(h + [FirstAnswer(config, Order(h), targets, pings, failed, now).sample])
  {
    SampleMeans(config, Order(h), targets, pings, failed, now);
  }

  /** Failover takes at most two rounds: if an address answers throughout two consecutive calls, one
      of them succeeds, whatever was measured before. */
  lemma {:induction false} TwoRounds(config: Config, h: seq<Sample>, targets: Targets, failed: map<string, int>, now: int, later: int,
                  pings1: (Protocol, int) -> Ping, pings2: (Protocol, int) -> Ping, p: Protocol)
    requires AlwaysAnswers(targets, pings1, p) && AlwaysAnswers(targets, pings2, p)
    ensures var first := FirstAnswer(config, Order(h), targets, pings1, failed, now);
            var second := FirstAnswer(config, Order(h + [first.sample]), targets, pings2, first.failed, later);
            first.sample.rtt != -1 || second.sample.rtt != -1
  {
    var first := FirstAnswer(config, Order(h), targets, pings1, failed, now);
    if first.sample.rtt == -1 {
      OrderCovers(h + [first.sample]);
      Reached(config, Order(h + [first.sample]), targets, pings2, first.failed, later, p);
    }
  }

  // ---------------------------------------------------------------------------------------
  // The trackers themselves.
  // ---------------------------------------------------------------------------------------

  /** The mean by a loop. */
  method CalculateAvgLossRate(metrics: seq<real>) returns (r: real)
    ensures r == Mean(metrics)
  {
    if |metrics| == 0 {
      return 0.0;
    }
    var totalLoss := 0.0;
    for i := 0 to |metrics|
      invariant totalLoss == Sum(metrics[..i])
    {
      assert metrics[..i + 1][..i] == metrics[..i];
      totalLoss := totalLoss + metrics[i];
    }
    assert metrics[..|metrics|] == metrics;
    return totalLoss / |metrics| as real;
  }

  lemma {:induction false} TrackedStep(h: seq<Sample>, x: Sample, limit: int)
    ensures var v := Tracked(h + [x], limit);
            && v.preferred == (if x.protocol.Some? then x.protocol else LastSuccess(h))
            && v.lastRTT == x.rtt && v.lastLoss == x.loss
            && (var grown := Window(Rtts(h), limit) + [x.rtt]; v.metric == if |grown| > limit then grown[1..] else grown)
            && (var grown := Window(Losses(h), limit) + [x.loss]; v.lossMetric == if |grown| > limit then grown[1..] else grown)
            && v.avgLoss == Mean(v.lossMetric)
  {
    assert (h + [x])[..|h|] == h;
    assert Rtts(h + [x]) == Rtts(h) + [x.rtt];
    assert Losses(h + [x]) == Losses(h) + [x.loss];
    WindowStep(Rtts(h), x.rtt, limit);
    WindowStep(Losses(h), x.loss, limit);
  }

  class RTTTracker {
    var preferred: Option<Protocol>
    var lastRTT: int
    var lastLoss: real
    var metric: seq<int>
    var lossMetric: seq<real>
    var avgLoss: real

    constructor ()
      ensures State() == View(None, -1, 1.0, [], [], 1.0)
    {
      preferred, lastRTT, lastLoss, metric, lossMetric, avgLoss := None, -1, 1.0, [], [], 1.0;
    }

    function State(): View
      reads this
    {
      View(preferred, lastRTT, lastLoss, metric, lossMetric, avgLoss)
    }

    ghost predicate Tracks(h: seq<Sample>, limit: int)
      reads this
    {
      preferred == LastSuccess(h) && metric == Window(Rtts(h), limit) && lossMetric == Window(Losses(h), limit)
    }

    lemma TracksNothing(limit: int)
      requires State() == View(None, -1, 1.0, [], [], 1.0)
      ensures Tracks([], limit)
    {
    }

    /** The tracker of a session with these measurements. */
    ghost predicate Shows(h: seq<Sample>, limit: int)
      reads this
    {
      h != [] && Tracks(h, limit) && State() == Tracked(h, limit)
    }

    /** Adds one measurement. */
    method Record(protocol: Option<Protocol>, rtt: int, loss: real, limit: int, ghost h: seq<Sample>)
      requires Tracks(h, limit)
      modifies this
      ensures Shows(h + [Sample(protocol, rtt, loss)], limit)
    {
      TrackedStep(h, Sample(protocol, rtt, loss), limit);
      hide Window, Mean, LastSuccess, Rtts, Losses;
      lastRTT := rtt;
      lastLoss := loss;
      if protocol.Some? {
        preferred := protocol;
      }
      metric := metric + [lastRTT];
      if |metric| > limit {
        metric := metric[1..];
      }
      lossMetric := lossMetric + [lastLoss];
      if |lossMetric| > limit {
        lossMetric := lossMetric[1..];
      }
      avgLoss := CalculateAvgLossRate(lossMetric);
    }
  }

  /** The other protocols, by a loop. */
  method Fallbacks(preferred: Protocol) returns (order: seq<Protocol>)
    ensures order == Except(ALL, preferred)
  {
    order := [];
    for i := 0 to |ALL|
      invariant order == Except(ALL[..i], preferred)
    {
      assert ALL[..i + 1][..i] == ALL[..i];
      if ALL[i] != preferred {
        order := order + [ALL[i]];
      }
    }
    assert ALL[..|ALL|] == ALL;
  }

  class RttTask {
    const config: Config
    var trackers: map<string, RTTTracker>
    var failedPingCache: map<string, int>
    var now: int
    ghost var history: map<string, seq<Sample>>

    ghost predicate Valid()
      reads this`trackers, this`history, trackers.Values
    {
      && history.Keys == trackers.Keys
      && (forall u :: u in trackers ==> trackers[u].Shows(history[u], config.limit))
      && (forall u, v :: u in trackers && v in trackers && u != v ==> trackers[u] != trackers[v])
    }

    constructor (config: Config, now: int)
      ensures Valid() && this.config == config && this.now == now && history == map[] && failedPingCache == map[]
    {
      this.config, this.now := config, now;
      trackers, failedPingCache, history := map[], map[], map[];
    }

    /** The measurements of a session so far. */
    ghost function Of(uuid: string): seq<Sample>
      reads this`history
    {
      if uuid in history then history[uuid] else []
    }

    /** The session's tracker, made if there is none. */
    method Lookup(uuid: string) returns (tracker: RTTTracker)
      requires Valid()
      modifies this`trackers
      ensures trackers == old(trackers)[uuid := tracker]
      ensures if uuid in old(trackers) then tracker == old(trackers)[uuid] else fresh(tracker)
      ensures tracker.Tracks(Of(uuid), config.limit)
      ensures forall u :: u in trackers && u != uuid ==> trackers[u] != tracker
    {
      hide RTTTracker.Tracks, RTTTracker.State, Tracked;
      if uuid !in trackers {
        var created := new RTTTracker();
        created.TracksNothing(config.limit);
        trackers := trackers[uuid := created];
      }
      return trackers[uuid];
    }

    method UpdateRTTTracker(uuid: string, preferred: Option<Protocol>, rtt: int, loss: real)
      requires Valid()
      modifies this`trackers, this`history, (if uuid in trackers then {trackers[uuid]} else {})
      ensures Valid() && history == old(history)[uuid := old(Of(uuid)) + [Sample(preferred, rtt, loss)]]
    {
      hide RTTTracker.Shows, RTTTracker.Tracks, RTTTracker.State, Tracked;
      ghost var h := Of(uuid);
      var tracker := Lookup(uuid);
      tracker.Record(preferred, rtt, loss, config.limit, h);
      history := history[uuid := h + [Sample(preferred, rtt, loss)]];
    }

    /** One ping of an address; the cache remembers whether it failed. */
    method PingRTT(ip: string, ping: int -> Ping) returns (rtt: int, loss: real)
      modifies this`failedPingCache, this`now
      ensures var recent := ip in old(failedPingCache) && old(now) - old(failedPingCache)[ip] < 600_000_000_000;
              var p := ping(if recent then config.pingCountOnFail else config.pingCount);
              rtt == p.rtt && loss == p.loss && now == old(now) + p.took
      ensures failedPingCache == if rtt <= 0 then old(failedPingCache)[ip := now] else old(failedPingCache) - {ip}
    {
      var pingCount := config.pingCount;
      if ip in failedPingCache && now - failedPingCache[ip] < 10 * MINUTE {
        pingCount := config.pingCountOnFail;
      }
      var p := ping(pingCount);
      rtt, loss := p.rtt, p.loss;
      now := now + p.took;
      if rtt <= 0 {
        failedPingCache := failedPingCache[ip := now];
      } else {
        failedPingCache := failedPingCache - {ip};
      }
    }

    /** The order of the attempts. */
    method AttemptOrder(uuid: string) returns (order: seq<Protocol>)
      requires Valid()
      ensures order == Order(Of(uuid))
    {
      ghost var h := Of(uuid);
      assert uuid in trackers <==> uuid in history;
      assert uuid in trackers ==> trackers[uuid].Shows(h, config.limit);
      hide Valid, Order;
      assert LastSuccess([]) == None;
      OrderIs(h);
      if uuid in trackers && trackers[uuid].preferred.Some? {
        var tracker := trackers[uuid];
        order := [tracker.preferred.value];
        if tracker.lastRTT == -1 {
          var others := Fallbacks(tracker.preferred.value);
          order := order + others;
        }
      } else {
        order := ALL;
      }
    }

    /** One measurement of a session: exactly one sample is added to its history, and none to any
        other; every protocol pinged was pinged once, in the order, and only if it is configured. */
    method MeasureRTT(uuid: string, targets: Targets, pings: (Protocol, int) -> Ping) returns (rtt: int, ghost pinged: seq<Protocol>)
      requires Valid()
      modifies this`trackers, this`history, this`failedPingCache, this`now, (if uuid in trackers then {trackers[uuid]} else {})
      ensures Valid()
      ensures var outcome := FirstAnswer(config, old(Order(Of(uuid))), targets, pings, old(failedPingCache), old(now));
              && rtt == outcome.sample.rtt && failedPingCache == outcome.failed && now == outcome.now
              && history == old(history)[uuid := old(Of(uuid)) + [outcome.sample]]
      ensures pinged <= Configured(old(Order(Of(uuid))), targets)
    {
      hide Valid, Configured, FirstAnswer, Order;
      var order := AttemptOrder(uuid);
      ghost var outcome := FirstAnswer(config, order, targets, pings, failedPingCache, now);
      pinged := [];
      Whole(order, targets);
      for i := 0 to |order|
        invariant Valid() && history == old(history) && trackers == old(trackers)
        invariant pinged == Configured(order[..i], targets)
        invariant FirstAnswer(config, order[i..], targets, pings, failedPingCache, now) == outcome
      {
        var proto := order[i];
        var ip := targets.Address(proto);
        ConfiguredStep(order, i, targets);
        FirstAnswerStep(config, order[i..], targets, pings, failedPingCache, now);
        if ip != "" {
          var r, loss := PingRTT(ip, n => pings(proto, n));
          pinged := pinged + [proto];
          if r != -1 {
            UpdateRTTTracker(uuid, Some(proto), r, loss);
            return r, pinged;
          }
        }
      }
      FirstAnswerStep(config, [], targets, pings, failedPingCache, now);
      UpdateRTTTracker(uuid, None, -1, 1.0);
      return -1, pinged;
    }

    /** The values reported to the center. */
    method GetRTTValue(uuid: string) returns (rtt: int, loss: real)
      requires Valid()
      ensures if Of(uuid) == [] then rtt == -1 && loss == 1.0
              else rtt == Of(uuid)[|Of(uuid)| - 1].rtt && loss == Mean(Window(Losses(Of(uuid)), config.limit))
    {
      if uuid in trackers {
        assert trackers[uuid].Shows(Of(uuid), config.limit);
        return trackers[uuid].lastRTT, trackers[uuid].avgLoss;
      }
      return -1, 1.0;
    }

    /** Forgets the sessions that are gone. */
    method CleanupTrackers(active: set<string>)
      requires Valid()
      modifies this`trackers, this`history
      ensures Valid()
      ensures forall u :: Of(u) == if u in active then old(Of(u)) else []
    {
      hide RTTTracker.Shows;
      trackers := map u | u in trackers && u in active :: trackers[u];
      history := map u | u in history && u in active :: history[u];
    }

    /** Forgets failures of more than twelve hours ago. */
    method CleanupCache()
      modifies this`failedPingCache
      ensures forall ip :: ip in failedPingCache <==> ip in old(failedPingCache) && now - old(failedPingCache)[ip] <= 43_200_000_000_000
      ensures forall ip :: ip in failedPingCache ==> failedPingCache[ip] == old(failedPingCache)[ip]
    {
      failedPingCache := map ip | ip in failedPingCache && now - failedPingCache[ip] <= 12 * 60 * MINUTE :: failedPingCache[ip];
    }
  }

  /** The protocols of the order that have an address. */
  function Configured(order: seq<Protocol>, targets: Targets): seq<Protocol> {
    if order == [] then []
    else
      var n := |order| - 1;
      Configured(order[..n], targets) + if targets.Address(order[n]) != "" then [order[n]] else []
  }

  lemma {:induction false} ConfiguredStep(order: seq<Protocol>, i: nat, targets: Targets)
    requires i < |order|
    ensures order[i..][0] == order[i] && order[i..][1..] == order[i + 1..]
    ensures Configured(order[..i + 1], targets)
            == Configured(order[..i], targets) + if targets.Address(order[i]) != "" then [order[i]] else []
    ensures Configured(order[..i + 1], targets) <= Configured(order, targets)
  {
    assert order[..i + 1][..i] == order[..i];
    ConfiguredPrefix(order, i + 1, targets);
  }

  lemma {:induction false} Whole(order: seq<Protocol>, targets: Targets)
    ensures order[0..] == order && order[|order|..] == [] && order[..|order|] == order
    ensures Configured(order[..0], targets) == []
  {
  }

  /** One round of the loop. */
  lemma FirstAnswerStep(config: Config, order: seq<Protocol>, targets: Targets, pings: (Protocol, int) -> Ping,
                        failed: map<string, int>, now: int)
    ensures FirstAnswer(config, order, targets, pings, failed, now) ==
            if order == [] then Outcome(FAILED, failed, now)
            else if targets.Address(order[0]) == "" then FirstAnswer(config, order[1..], targets, pings, failed, now)
            else
              var ip := targets.Address(order[0]);
              var ping := pings(order[0], config.Count(failed, now, ip));
              var failed1 := Remembered(failed, ip, ping.rtt, now + ping.took);
              if ping.rtt != -1 then Outcome(Sample(Some(order[0]), ping.rtt, ping.loss), failed1, now + ping.took)
              else FirstAnswer(config, order[1..], targets, pings, failed1, now + ping.took)
  {
  }

  lemma {:induction false} ConfiguredPrefix(order: seq<Protocol>, i: nat, targets: Targets)
    requires i <= |order|
    ensures Configured(order[..i], targets) <= Configured(order, targets)
  {
    if i < |order| {
      ConfiguredPrefix(order[..|order| - 1], i, targets);
      assert order[..|order| - 1][..i] == order[..i];
    } else {
      assert order[..i] == order;
    }
  }
}
