/** The periodic rewriting of all active sessions' BIRD files with their latency communities. */
module FilterUpdater {
  import opened Sessions
  import opened BirdConfig
  import opened LatencyCommunity
  import RttTracker

  predicate IsActive(s: Session) {
    s.status == ENABLED || s.status == PROBLEM
  }

  /** What a round reads: the effective times of the tracked sessions, and the last reported ones. */
  datatype Times = Times(effective: map<string, int>, reported: map<string, int>) {
    predicate Sound() {
      (forall u :: u in effective ==> effective[u] >= -1) && (forall u :: u in reported ==> reported[u] >= -1)
    }

    function Of(uuid: string): (t: int)
      requires Sound()
      ensures t >= -1
    {
      if uuid in effective then effective[uuid] else if uuid in reported then reported[uuid] else -1
    }
  }

  /** What one round works with besides the files. */
  datatype Round = Round(site: Site, probes: Probes, e: real, times: Times, io: nat -> IO)

  predicate Sound(r: Round) {
    IsE(r.e) && r.times.Sound()
  }

  function UpdatedBy(r: Round, files: Files, s: Session, i: nat): (Files, bool)
    requires Sound(r)
  {
    Updated(r.site, r.probes, files, s, Community(r.e, r.times.Of(s.uuid)), Communities(r.site, s.linkType), r.io(i))
  }

  /** The files after the sessions have been gone through in order. */
  function Refreshed(r: Round, files: Files, sessions: seq<Session>): Files
    requires Sound(r)
  {
    if sessions == [] then files
    else
      var n := |sessions| - 1;
      var before := Refreshed(r, files, sessions[..n]);
      if IsActive(sessions[n]) then UpdatedBy(r, before, sessions[n], n).0 else before
  }

  /** How many of the updates of a round succeed. */
  function Succeeding(r: Round, files: Files, sessions: seq<Session>): nat
    requires Sound(r)
  {
    if sessions == [] then 0
    else
      var n := |sessions| - 1;
      Succeeding(r, files, sessions[..n])
      + if IsActive(sessions[n]) && UpdatedBy(r, Refreshed(r, files, sessions[..n]), sessions[n], n).1 then 1 else 0
  }

  function Active(sessions: seq<Session>): nat {
    if sessions == [] then 0 else Active(sessions[..|sessions| - 1]) + if IsActive(sessions[|sessions| - 1]) then 1 else 0
  }

  method EffectiveTimes(task: RttTracker.RttTask) returns (effective: map<string, int>)
    requires task.Valid()
    ensures effective.Keys == task.trackers.Keys
    ensures forall u :: u in effective ==>
              effective[u] == EffectiveRTT(task.trackers[u].metric, task.trackers[u].lastRTT, task.trackers[u].avgLoss)
  {
    hide EffectiveRTT;
    hide task.Valid;
    effective := map[];
    var todo := task.trackers.Keys;
    while todo != {}
      invariant todo <= task.trackers.Keys && effective.Keys == task.trackers.Keys - todo
      invariant forall u :: u in effective ==>
                  effective[u] == EffectiveRTT(task.trackers[u].metric, task.trackers[u].lastRTT, task.trackers[u].avgLoss)
      decreases |todo|
    {
      var u :| u in todo;
      var r := CalculateEffectiveRTT(task.trackers[u]);
      effective := effective[u := r];
      todo := todo - {u};
    }
  }

  /** A round over the sessions in some order. */
  method UpdateFilterParams(dir: PeerConfDir, sessions: seq<Session>, e: real, times: Times, io: nat -> IO)
      returns (updated: nat, failed: nat)
    requires IsE(e) && times.Sound()
    modifies dir`files
    ensures dir.files == Refreshed(Round(dir.site, dir.probes, e, times, io), old(dir.files), sessions)
    ensures updated == Succeeding(Round(dir.site, dir.probes, e, times, io), old(dir.files), sessions)
    ensures updated + failed == Active(sessions)
  {
    ghost var round := Round(dir.site, dir.probes, e, times, io);
    updated, failed := 0, 0;
    for i := 0 to |sessions|
      invariant dir.files == Refreshed(round, old(dir.files), sessions[..i])
      invariant updated == Succeeding(round, old(dir.files), sessions[..i]) && updated + failed == Active(sessions[..i])
    {
      assert sessions[..i + 1][..i] == sessions[..i];
      var session := sessions[i];
      if session.status == ENABLED || session.status == PROBLEM {
        var rtt := -1;
        if session.uuid in times.effective {
          rtt := times.effective[session.uuid];
        } else if session.uuid in times.reported {
          rtt := times.reported[session.uuid];
        }
        var (bandwidth, security) := Communities(dir.site, session.linkType);
        var ok := dir.UpdateBirdConfig(session, Community(e, rtt), bandwidth, security, io(i));
        if ok {
          updated := updated + 1;
        } else {
          failed := failed + 1;
        }
      }
    }
    assert sessions[..|sessions|] == sessions;
  }

  // ---------------------------------------------------------------------------------------
  // What a round does to each file.
  // ---------------------------------------------------------------------------------------

  function FileOf(s: Session): string {
    Sanitize(s.iface)
  }

  /** ENABLED or PROBLEM. */
  predicate IsUp(s: Session) {
    s.status == 2 || s.status == 6
  }

  /** A file that belongs to no active session is as it was. */
  lemma {:induction false} OthersUntouched(r: Round, files: Files, sessions: seq<Session>, name: string)
    requires Sound(r) && forall i :: 0 <= i < |sessions| && IsUp(sessions[i]) ==> FileOf(sessions[i]) != name
    ensures var after := Refreshed(r, files, sessions);
            (name in after <==> name in files) && (name in after ==> after[name] == files[name])
  {
    if sessions != [] {
      OthersUntouched(r, files, sessions[..|sessions| - 1], name);
    }
  }

  /** The blocks carry the community of the session's round-trip time and are named as the collector
      asks for them, all of them exactly if the update succeeded. */
  ghost predicate Current(r: Round, s: Session, blocks: seq<Block>, ok: bool)
    requires Sound(r)
  {
    && BlockNames(blocks) <= SessionNames(s) && (ok <==> BlockNames(blocks) == SessionNames(s))
    && var time := if s.uuid in r.times.effective then r.times.effective[s.uuid]
                   else if s.uuid in r.times.reported then r.times.reported[s.uuid] else -1;
       var (bandwidth, security) := if s.linkType == "wireguard" then (r.site.wireguardBandwidth, r.site.wireguardSecurity)
                                    else if s.linkType == "gre" || s.linkType == "ip6gre" then (r.site.greBandwidth, r.site.greSecurity)
                                    else (0, 0);
       AllSay(r.site, r.probes, s, Community(r.e, time), bandwidth, security, blocks)
  }

  /** After a round in which the template is there and the file can be made, the file of each active
      session, if no other active session has the same, is current. */
  lemma {:induction false} ActiveCurrent(r: Round, files: Files, sessions: seq<Session>, k: nat)
    requires Sound(r) && k < |sessions| && IsUp(sessions[k]) && r.io(k).templateLoaded && r.io(k).creatable
    requires forall i :: 0 <= i < |sessions| && i != k && IsUp(sessions[i]) ==> FileOf(sessions[i]) != FileOf(sessions[k])
    ensures var after := Refreshed(r, files, sessions);
            && FileOf(sessions[k]) in after
            && Current(r, sessions[k], after[FileOf(sessions[k])], UpdatedBy(r, Refreshed(r, files, sessions[..k]), sessions[k], k).1)
  {
    hide Current, UpdatedBy, Sound;
    var n := |sessions| - 1;
    assert k < n ==> sessions[..n][..k] == sessions[..k];
    var before := Refreshed(r, files, sessions[..n]);
    if k < n {
      ActiveCurrent(r, files, sessions[..n], k);
      if IsActive(sessions[n]) {
        OneFile(r, before, sessions[n], n);
      }
    } else {
      OneCurrent(r, before, sessions[k], k);
    }
  }

  /** An update touches its own file only. */
  lemma OneFile(r: Round, files: Files, s: Session, i: nat)
    requires Sound(r)
    ensures var after := UpdatedBy(r, files, s, i).0;
            forall name :: name in files && name != FileOf(s) ==> name in after && after[name] == files[name]
  {
  }

  lemma OneCurrent(r: Round, files: Files, s: Session, i: nat)
    requires Sound(r) && r.io(i).templateLoaded && r.io(i).creatable
    ensures var (after, ok) := UpdatedBy(r, files, s, i);
            FileOf(s) in after && Current(r, s, after[FileOf(s)], ok)
  {
    var latency := Community(r.e, r.times.Of(s.uuid));
    var communities := Communities(r.site, s.linkType);
    FileSays(r.site, r.probes, files, s, latency, communities.0, communities.1, r.io(i));
    FileMatchesQueries(r.site, r.probes, files, s, latency, communities, r.io(i));
    hide BlockNames, SessionNames, AllSay, Community, Updated;
  }

  /** A round's two counts: active sessions whose file can be written, and all active ones. */
  lemma {:induction false} RoundCounts(r: Round, files: Files, sessions: seq<Session>)
    requires Sound(r)
    ensures Succeeding(r, files, sessions) == |Writes(r, sessions)| && Active(sessions) == |Ups(sessions)|
  {
    hide Refreshed, UpdatedBy, Sound, Writes, Ups;
    if sessions != [] {
      var n := |sessions| - 1;
      RoundCounts(r, files, sessions[..n]);
      WritesIff(r, Refreshed(r, files, sessions[..n]), sessions[n], n);
      OneMoreSession(r, sessions);
    } else {
      NoSessions(r);
    }
  }

  /** The positions of the sessions with status 2 or 6. */
  function Ups(sessions: seq<Session>): set<nat> {
    set k | 0 <= k < |sessions| && (sessions[k].status == 2 || sessions[k].status == 6)
  }

  /** Those of them whose files can be written. */
  function Writes(r: Round, sessions: seq<Session>): set<nat> {
    set k | k in Ups(sessions) && k < |sessions| && Writable(sessions[k], r.io(k))
  }

  lemma NoSessions(r: Round)
    ensures Ups([]) == {} && Writes(r, []) == {}
  {
  }

  lemma MoreUps(sessions: seq<Session>)
    requires sessions != []
    ensures var (n, before) := (|sessions| - 1, Ups(sessions[..|sessions| - 1]));
            n !in before && Ups(sessions) == if IsActive(sessions[n]) then before + {n} else before
  {
  }

  lemma OneMoreSession(r: Round, sessions: seq<Session>)
    requires sessions != []
    ensures var (n, up) := (|sessions| - 1, IsActive(sessions[|sessions| - 1]));
            && |Ups(sessions)| == |Ups(sessions[..n])| + (if up then 1 else 0)
            && |Writes(r, sessions)| == |Writes(r, sessions[..n])| + (if up && Writable(sessions[n], r.io(n)) then 1 else 0)
  {
    MoreUps(sessions);
    hide Writable, Ups, IsActive;
    var n := |sessions| - 1;
    var b := Writes(r, sessions[..n]);
    assert n !in b;
    if IsActive(sessions[n]) && Writable(sessions[n], r.io(n)) {
      assert Writes(r, sessions) == b + {n};
    } else {
      assert Writes(r, sessions) == b;
    }
  }

  lemma WritesIff(r: Round, files: Files, s: Session, i: nat)
    requires Sound(r)
    ensures UpdatedBy(r, files, s, i).1 <==> Writable(s, r.io(i))
  {
    hide Updated, Writable;
    UpdateSucceedsIff(r.site, r.probes, files, s, Community(r.e, r.times.Of(s.uuid)), Communities(r.site, s.linkType), r.io(i));
  }

  /** With measurements as the tracker records them, the times of a round are sound. */
  lemma TrackedTimes(h: seq<RttTracker.Sample>, limit: int)
    requires h != [] && forall i :: 0 <= i < |h| ==> h[i].rtt >= -1 && 0.0 <= h[i].loss <= 1.0
    ensures var v := RttTracker.Tracked(h, limit);
            EffectiveRTT(v.metric, v.lastRTT, v.avgLoss) >= -1
  {
    var v := RttTracker.Tracked(h, limit);
    RttTracker.AvgLossBounds(h, limit);
    if v.metric != [] {
      var top := Largest(v.metric);
      EffectiveBounds(v.metric, v.lastRTT, v.avgLoss, top);
    }
  }

  function Largest(s: seq<int>): (top: int)
    ensures forall i :: 0 <= i < |s| ==> s[i] <= top
  {
    if s == [] then 0
    else
      var rest := Largest(s[1..]);
      assert forall i :: 0 < i < |s| ==> s[i] == s[1..][i - 1];
      if s[0] > rest then s[0] else rest
  }
}
