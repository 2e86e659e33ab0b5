/** What every run of syncs keeps, and when a second sync has nothing to do. */
module SessionSyncTheorems {
  import opened Sessions
  import opened SessionSync

  // ---------------------------------------------------------------------------------------
  // Keys and validity, over all runs.
  // ---------------------------------------------------------------------------------------

  predicate Vetted(lib: Library, s: Session) {
    s.status != QUEUED_FOR_SETUP && (s.status != TEARDOWN && s.status != DELETED ==> ValidInputs(lib, s))
  }

  predicate WellKept(lib: Library, local: map<string, Session>) {
    forall u :: u in local ==> local[u].uuid == u && Vetted(lib, local[u])
  }

  function LastFetched(inputs: seq<Input>): Option<seq<Session>> {
    if inputs == [] then None
    else if inputs[|inputs| - 1].fetched.Some? then inputs[|inputs| - 1].fetched
    else LastFetched(inputs[..|inputs| - 1])
  }

  /** Processing changes nothing of a record but its status. */
  lemma RemoteRecord(lib: Library, local: map<string, Session>, w: World, s: Session, o: Outcome)
    ensures Setup(Remote(lib, local, w, s, o).0) == Setup(s)
  {
  }

  lemma RemoteVetted(lib: Library, local: map<string, Session>, w: World, s: Session, o: Outcome)
    requires WellKept(lib, local)
    ensures Vetted(lib, Remote(lib, local, w, s, o).0)
  {
    forall status: int
      ensures ValidInputs(lib, s.(status := status)) == ValidInputs(lib, s)
    {
    }
  }

  lemma {:induction false} RemoteAllWellKept(lib: Library, local: map<string, Session>, w: World, fetched: seq<Session>, env: Environment)
    requires WellKept(lib, local)
    ensures var next := RemoteAll(lib, local, w, fetched, env).0;
            next.Keys == Uuids(fetched) && WellKept(lib, next)
  {
    if fetched != [] {
      var n := |fetched| - 1;
      RemoteAllWellKept(lib, local, w, fetched[..n], env);
      var w1 := RemoteAll(lib, local, w, fetched[..n], env).1;
      RemoteVetted(lib, local, w1, fetched[n], env.remote(n));
      RemoteRecord(lib, local, w1, fetched[n], env.remote(n));
      assert fetched == fetched[..n] + [fetched[n]];
    }
  }

  /** After any run: the keys are the UUIDs of the last list fetched, no session waits for set-up,
      and every session neither torn down nor deleted passes validation, whatever the outcomes. */
  lemma {:induction false} RunWellKept(lib: Library, st: State, inputs: seq<Input>)
    requires WellKept(lib, st.local)
    ensures var after := Run(lib, st, inputs).local;
            && WellKept(lib, after)
            && after.Keys == (if LastFetched(inputs).Some? then Uuids(LastFetched(inputs).value) else st.local.Keys)
            && forall u :: u in after && after[u].status != TEARDOWN && after[u].status != DELETED ==>
                 1280 <= after[u].mtu <= 9999 && 1 <= after[u].asn <= 4294967295
  {
    if inputs != [] {
      var before := Run(lib, st, inputs[..|inputs| - 1]);
      RunWellKept(lib, st, inputs[..|inputs| - 1]);
      var input := inputs[|inputs| - 1];
      if input.fetched.Some? {
        RemoteAllWellKept(lib, before.local, before.world, input.fetched.value, input.env);
      }
    }
  }

  // ---------------------------------------------------------------------------------------
  // The fixed point.
  // ---------------------------------------------------------------------------------------

  predicate DistinctUuids(fetched: seq<Session>) {
    forall i, j :: 0 <= i < j < |fetched| ==> fetched[i].uuid != fetched[j].uuid
  }

  /** The record the center holds after the reports: the last delivered one sets the status. */
  function Recorded(reports: seq<Report>, s: Session): Session {
    if reports == [] then s
    else
      var last := reports[|reports| - 1];
      if last.uuid == s.uuid && last.delivered then s.(status := last.status)
      else Recorded(reports[..|reports| - 1], s)
  }

  /** The reports made since a world; they are only ever appended. */
  function Fresh(before: World, after: World): seq<Report> {
    if |before.reports| <= |after.reports| then after.reports[|before.reports|..] else []
  }

  predicate NoneAbout(reports: seq<Report>, uuid: string) {
    forall k :: 0 <= k < |reports| ==> reports[k].uuid != uuid
  }

  predicate AllAbout(reports: seq<Report>, uuids: set<string>) {
    forall k :: 0 <= k < |reports| ==> reports[k].uuid in uuids
  }

  function Calls(w: World): nat {
    w.configures + w.deletes + |w.reports|
  }

  /** Whether the one report a session may cause got through, if its status changed. */
  predicate Acknowledged(lib: Library, local: map<string, Session>, w: World, s: Session, o: Outcome) {
    var (s', w') := Remote(lib, local, w, s, o);
    s'.status == s.status || (|w'.reports| > |w.reports| && w'.reports[|w.reports|].delivered)
  }

  lemma ConfigureCalls(w: World, s: Session, o: ConfigureOutcome)
    ensures var w' := Configure(w, s, o).0;
            w'.reports == w.reports && w'.configures == w.configures + 1 && w'.deletes == w.deletes
  {
  }

  /** At most one report, about this session; undelivered or absent, it explains the status. */
  predicate Logged(w: World, w': World, s: Session, s': Session) {
    && Calls(w) <= Calls(w')
    && (|| (w'.reports == w.reports && s'.status == s.status)
        || (var n := |w.reports|;
            && |w'.reports| == n + 1
            && w'.reports[..n] == w.reports
            && w'.reports[n].uuid == s.uuid
            && (w'.reports[n].delivered ==> w'.reports[n].status == s'.status)))
  }

  lemma SetUpLogged(w: World, s: Session, o: Outcome)
    ensures var (s', w') := SetUp(w, s, o);
            && w'.reports == w.reports + [Report(s.uuid, s'.status, o.delivered)]
            && w'.configures == w.configures + 1 && w'.deletes == w.deletes
            && (s'.status == ENABLED || s'.status == PROBLEM)
  {
    ConfigureCalls(w, s, o.configure);
    hide Configure;
  }

  /** With a torn down or untouched record there is at most one report, from the check or after it. */
  lemma CheckedShape(lib: Library, w: World, s: Session, o: Outcome)
    ensures var (s', w') := Checked(lib, w, s, o);
            || (s', w') == (s, w)
            || (s', w') == (s.(status := TEARDOWN), w.(reports := w.reports + [Report(s.uuid, TEARDOWN, o.teardownDelivered)]))
  {
    hide ValidInputs;
  }

  lemma NewLogged(lib: Library, w: World, s: Session, o: Outcome)
    ensures var (s', w') := New(lib, w, s, o);
            Logged(w, w', s, s')
  {
    CheckedShape(lib, w, s, o);
    SetUpLogged(w, s, o);
    hide SetUp, Checked;
  }

  lemma ApplyLogged(w: World, s: Session, prior: Session, o: Outcome)
    ensures var (s', w') := Apply(w, s, prior, o);
            && Logged(w, w', s, s')
            && (s.status == TEARDOWN ==> s' == s && w'.reports == w.reports)
  {
    SetUpLogged(w, s, o);
    hide SetUp;
  }

  lemma ChangedLogged(lib: Library, w: World, s: Session, prior: Session, o: Outcome)
    ensures var (s', w') := Changed(lib, w, s, prior, o);
            Logged(w, w', s, s')
  {
    CheckedShape(lib, w, s, o);
    var (t, w1) := Checked(lib, w, s, o);
    ApplyLogged(w, s, prior, o);
    ApplyLogged(w1, t, prior, o);
    hide Apply, Checked;
  }

  lemma RemoteReports(lib: Library, local: map<string, Session>, w: World, s: Session, o: Outcome)
    ensures var (s', w') := Remote(lib, local, w, s, o);
            Logged(w, w', s, s')
  {
    NewLogged(lib, w, s, o);
    if s.uuid in local {
      ChangedLogged(lib, w, s, local[s.uuid], o);
    }
    hide New, Changed;
  }

  /** After one session: the center's record is the local one exactly when the report got through
      or the status did not change. */
  lemma {:induction false} RecordedAfterRemote(lib: Library, local: map<string, Session>, w: World, s: Session, o: Outcome, earlier: seq<Report>)
    requires NoneAbout(earlier, s.uuid)
    ensures var (s', w') := Remote(lib, local, w, s, o);
            && |w.reports| <= |w'.reports|
            && (Recorded(earlier + Fresh(w, w'), s) == s' <==> Acknowledged(lib, local, w, s, o))
            && (!Acknowledged(lib, local, w, s, o) ==> Recorded(earlier + Fresh(w, w'), s) == s)
  {
    RemoteReports(lib, local, w, s, o);
    RemoteRecord(lib, local, w, s, o);
    RecordedElsewhere(earlier, s);
    var (s', w') := Remote(lib, local, w, s, o);
    var all := earlier + Fresh(w, w');
    assert s' == s.(status := s'.status);
    if w'.reports == w.reports {
      assert all == earlier;
    } else {
      assert all[..|all| - 1] == earlier && all[|all| - 1] == w'.reports[|w.reports|];
    }
  }

  lemma {:induction false} RecordedElsewhere(reports: seq<Report>, s: Session)
    requires NoneAbout(reports, s.uuid)
    ensures Recorded(reports, s) == s
  {
    if reports != [] {
      RecordedElsewhere(reports[..|reports| - 1], s);
    }
  }

  lemma {:induction false} RecordedUnaffected(earlier: seq<Report>, later: seq<Report>, s: Session)
    requires NoneAbout(later, s.uuid)
    ensures Recorded(earlier + later, s) == Recorded(earlier, s)
  {
    if later == [] {
      assert earlier + later == earlier;
    } else {
      var n := |later| - 1;
      assert (earlier + later)[..|earlier + later| - 1] == earlier + later[..n];
      RecordedUnaffected(earlier, later[..n], s);
    }
  }

  /** The world in which session i is processed. */
  function WorldAt(lib: Library, local: map<string, Session>, w: World, fetched: seq<Session>, env: Environment, i: nat): World
    requires i <= |fetched|
  {
    RemoteAll(lib, local, w, fetched[..i], env).1
  }

  predicate AcknowledgedAt(lib: Library, local: map<string, Session>, w: World, fetched: seq<Session>, env: Environment, i: nat)
    requires i < |fetched|
  {
    Acknowledged(lib, local, WorldAt(lib, local, w, fetched, env, i), fetched[i], env.remote(i))
  }

  /** The center's record of a session equals the local one exactly if it was acknowledged, and
      is otherwise still the fetched one. */
  predicate Settled(s: Session, next: map<string, Session>, reports: seq<Report>, acknowledged: bool) {
    && s.uuid in next
    && Setup(next[s.uuid]) == Setup(s)
    && (Recorded(reports, s) == next[s.uuid] <==> acknowledged)
    && (!acknowledged ==> Recorded(reports, s) == s)
  }

  lemma {:induction false} RemoteAllKeys(lib: Library, local: map<string, Session>, w: World, fetched: seq<Session>, env: Environment)
    ensures RemoteAll(lib, local, w, fetched, env).0.Keys == Uuids(fetched)
  {
    hide Remote;
    if fetched != [] {
      var n := |fetched| - 1;
      RemoteAllKeys(lib, local, w, fetched[..n], env);
      assert fetched == fetched[..n] + [fetched[n]];
    }
  }

  /** The reports of w' are those of w and then some more, each about one of the UUIDs. */
  predicate Reported(w: World, w': World, uuids: set<string>) {
    |w.reports| <= |w'.reports| && w'.reports[..|w.reports|] == w.reports && AllAbout(Fresh(w, w'), uuids)
  }

  lemma ReportedTwice(w: World, w1: World, w2: World, uuids: set<string>, s: Session, s': Session)
    requires Reported(w, w1, uuids) && Logged(w1, w2, s, s')
    ensures Reported(w, w2, uuids + {s.uuid}) && Fresh(w, w2) == Fresh(w, w1) + Fresh(w1, w2)
  {
    LoggedAppends(w1, w2, s, s');
    hide AllAbout, Logged;
    var (a, b, c) := (w.reports, w1.reports, w2.reports);
    AppendedReports(a, b, c);
    AboutTogether(b[|a|..], c[|b|..], uuids, s.uuid);
  }

  lemma LoggedAppends(w: World, w': World, s: Session, s': Session)
    requires Logged(w, w', s, s')
    ensures |w.reports| <= |w'.reports| && w'.reports[..|w.reports|] == w.reports
    ensures forall k :: 0 <= k < |w'.reports| - |w.reports| ==> w'.reports[|w.reports|..][k].uuid == s.uuid
  {
    if w'.reports == w.reports {
      assert w'.reports[..|w.reports|] == w.reports;
    }
  }

  lemma AboutTogether(a: seq<Report>, b: seq<Report>, uuids: set<string>, uuid: string)
    requires AllAbout(a, uuids) && forall k :: 0 <= k < |b| ==> b[k].uuid == uuid
    ensures AllAbout(a + b, uuids + {uuid})
  {
  }

  lemma AppendedReports(a: seq<Report>, b: seq<Report>, c: seq<Report>)
    requires |a| <= |b| <= |c| && b[..|a|] == a && c[..|b|] == b
    ensures c[..|a|] == a && c[|a|..] == b[|a|..] + c[|b|..]
  {
    assert c[..|a|] == c[..|b|][..|a|];
  }

  lemma {:induction false} RemoteAllReports(lib: Library, local: map<string, Session>, w: World, fetched: seq<Session>, env: Environment)
    ensures Reported(w, RemoteAll(lib, local, w, fetched, env).1, Uuids(fetched))
  {
    if fetched != [] {
      var n := |fetched| - 1;
      RemoteAllReports(lib, local, w, fetched[..n], env);
      var w1 := RemoteAll(lib, local, w, fetched[..n], env).1;
      var (s', w2) := Remote(lib, local, w1, fetched[n], env.remote(n));
      RemoteReports(lib, local, w1, fetched[n], env.remote(n));
      hide Remote, Reported, Uuids, Logged;
      ReportedTwice(w, w1, w2, Uuids(fetched[..n]), fetched[n], s');
      RemoteOneMore(lib, local, w, fetched, n, env);
      assert fetched[..n + 1] == fetched;
    }
  }

  /** Session by session, over the whole first loop. */
  lemma {:induction false} RecordedAt(lib: Library, local: map<string, Session>, w: World, fetched: seq<Session>, env: Environment, i: nat)
    requires DistinctUuids(fetched) && i < |fetched|
    ensures var (next, w') := RemoteAll(lib, local, w, fetched, env);
            && |w.reports| <= |w'.reports|
            && Settled(fetched[i], next, Fresh(w, w'), AcknowledgedAt(lib, local, w, fetched, env, i))
  {
    var n := |fetched| - 1;
    var init, s := fetched[..n], fetched[n];
    RemoteAllReports(lib, local, w, init, env);
    var (next, w1) := RemoteAll(lib, local, w, init, env);
    var (s', w2) := Remote(lib, local, w1, s, env.remote(n));
    RemoteReports(lib, local, w1, s, env.remote(n));
    ReportedTwice(w, w1, w2, Uuids(init), s, s');
    if i == n {
      NotAmong(fetched, n);
      hide Remote, AcknowledgedAt, Settled, Uuids, Logged;
      SettledLast(lib, local, w, fetched, env, next, w1, s', w2);
    } else {
      hide Remote, AcknowledgedAt, Settled, Uuids, Logged, Reported;
      RecordedAt(lib, local, w, init, env, i);
      SettledStill(lib, local, w, fetched, env, i);
      OneFresh(w1, w2, s, s', fetched[i].uuid);
      SettledLater(init[i], next, s, s', Fresh(w, w1), Fresh(w1, w2), AcknowledgedAt(lib, local, w, init, env, i));
    }
  }

  lemma OneFresh(w: World, w': World, s: Session, s': Session, uuid: string)
    requires Logged(w, w', s, s') && uuid != s.uuid
    ensures |w.reports| <= |w'.reports| && NoneAbout(Fresh(w, w'), uuid)
  {
  }

  lemma NotAmong(fetched: seq<Session>, n: nat)
    requires DistinctUuids(fetched) && n < |fetched|
    ensures fetched[n].uuid !in Uuids(fetched[..n])
  {
  }

  lemma SettledStill(lib: Library, local: map<string, Session>, w: World, fetched: seq<Session>, env: Environment, i: nat)
    requires i < |fetched| - 1
    ensures var init := fetched[..|fetched| - 1];
            init[i] == fetched[i] && AcknowledgedAt(lib, local, w, fetched, env, i) == AcknowledgedAt(lib, local, w, init, env, i)
  {
    assert fetched[..i] == fetched[..|fetched| - 1][..i];
    hide Acknowledged;
  }

  lemma SettledLast(lib: Library, local: map<string, Session>, w: World, fetched: seq<Session>, env: Environment, next: map<string, Session>, w1: World, s': Session, w2: World)
    requires fetched != [] && w.reports <= w1.reports <= w2.reports
    requires w1 == WorldAt(lib, local, w, fetched, env, |fetched| - 1)
    requires (s', w2) == Remote(lib, local, w1, fetched[|fetched| - 1], env.remote(|fetched| - 1))
    requires NoneAbout(Fresh(w, w1), fetched[|fetched| - 1].uuid)
    requires Fresh(w, w2) == Fresh(w, w1) + Fresh(w1, w2)
    ensures var s := fetched[|fetched| - 1];
            Settled(s, next[s.uuid := s'], Fresh(w, w2), AcknowledgedAt(lib, local, w, fetched, env, |fetched| - 1))
  {
    var n := |fetched| - 1;
    RecordedAfterRemote(lib, local, w1, fetched[n], env.remote(n), Fresh(w, w1));
    RemoteRecord(lib, local, w1, fetched[n], env.remote(n));
    hide Remote, Acknowledged;
  }

  lemma SettledLater(t: Session, next: map<string, Session>, s: Session, s': Session, earlier: seq<Report>, later: seq<Report>, acknowledged: bool)
    requires Settled(t, next, earlier, acknowledged) && s.uuid != t.uuid
    requires NoneAbout(later, t.uuid)
    ensures Settled(t, next[s.uuid := s'], earlier + later, acknowledged)
  {
    RecordedUnaffected(earlier, later, t);
  }

  /** A later answer of the center: the same sessions, in any order, as the reports left them. */
  predicate CenterAnswers(second: seq<Session>, fetched: seq<Session>, reports: seq<Report>) {
    && (forall j :: 0 <= j < |second| ==> second[j] in RecordedAll(reports, fetched))
    && (forall i :: 0 <= i < |fetched| ==> RecordedAll(reports, fetched)[i] in second)
  }

  function RecordedAll(reports: seq<Report>, fetched: seq<Session>): (records: seq<Session>)
    ensures |records| == |fetched|
    ensures forall i :: 0 <= i < |fetched| ==> records[i] == Recorded(reports, fetched[i])
  {
    seq(|fetched|, i requires 0 <= i < |fetched| => Recorded(reports, fetched[i]))
  }

  /** If every record equals the local one, a sync does nothing at all. */
  lemma {:induction false} AgreementIsQuiet(lib: Library, local: map<string, Session>, w: World, fetched: seq<Session>, env: Environment)
    requires forall i :: 0 <= i < |fetched| ==> fetched[i].uuid in local && local[fetched[i].uuid] == fetched[i]
    ensures var (next, w') := RemoteAll(lib, local, w, fetched, env);
            w' == w && next.Keys == Uuids(fetched) && forall u :: u in next ==> u in local && next[u] == local[u]
  {
    hide Remote, Uuids;
    RemoteAllKeys(lib, local, w, fetched, env);
    if fetched != [] {
      var n := |fetched| - 1;
      assert forall i :: 0 <= i < n ==> fetched[..n][i] == fetched[i];
      AgreementIsQuiet(lib, local, w, fetched[..n], env);
      UnchangedIsQuiet(lib, local, w, fetched[n], env.remote(n));
    }
  }

  lemma UnchangedIsQuiet(lib: Library, local: map<string, Session>, w: World, s: Session, o: Outcome)
    requires s.uuid in local && local[s.uuid] == s
    ensures Remote(lib, local, w, s, o) == (s, w)
  {
  }

  lemma {:induction false} CallsGrow(lib: Library, local: map<string, Session>, w: World, fetched: seq<Session>, env: Environment, i: nat)
    requires i <= |fetched|
    ensures Calls(w) <= Calls(WorldAt(lib, local, w, fetched, env, i)) <= Calls(RemoteAll(lib, local, w, fetched, env).1)
    decreases |fetched|
  {
    hide Remote, Calls;
    if fetched == [] {
      assert fetched[..i] == fetched;
    } else {
      var n := |fetched| - 1;
      var at := WorldAt(lib, local, w, fetched, env, n);
      RemoteReports(lib, local, at, fetched[n], env.remote(n));
      if i <= n {
        CallsGrow(lib, local, w, fetched[..n], env, i);
        assert fetched[..n][..i] == fetched[..i];
      } else {
        CallsGrow(lib, local, w, fetched[..n], env, n);
        assert fetched[..n][..n] == fetched[..n] && fetched[..i] == fetched;
      }
    }
  }

  /** The three ways a lost report leaves the local status apart from the center's. */
  lemma LostReportCases(lib: Library, local: map<string, Session>, w: World, s: Session, o: Outcome)
    requires !Acknowledged(lib, local, w, s, o)
    ensures var s' := Remote(lib, local, w, s, o).0;
            || (s'.status == TEARDOWN != s.status && !ValidInputs(lib, s))
            || (s'.status != TEARDOWN && ValidInputs(lib, s) && WantsSetup(s.status))
            || (s'.status != TEARDOWN && s.status == QUEUED_FOR_DELETE)
  {
    RemoteReports(lib, local, w, s, o);
    SetUpLogged(w, s, o);
    hide SetUp, ValidInputs, Delete;
  }

  lemma UnacknowledgedIsLoud(lib: Library, local: map<string, Session>, w: World, s: Session, o: Outcome, w2: World, o2: Outcome)
    requires !Acknowledged(lib, local, w, s, o)
    ensures Calls(w2) < Calls(Changed(lib, w2, s, Remote(lib, local, w, s, o).0, o2).1)
  {
    LostReportCases(lib, local, w, s, o);
    RemoteReports(lib, local, w, s, o);
    var s' := Remote(lib, local, w, s, o).0;
    hide Remote, Apply, ValidInputs, Logged;
    if DeletingTornDown(s, s') {
      ApplyIsLoud(w2, s, s', o2);
    } else {
      var (t, w3) := Checked(lib, w2, s, o2);
      ApplyIsLoud(w3, t, s', o2);
    }
  }

  lemma ApplyIsLoud(w: World, s: Session, prior: Session, o: Outcome)
    requires WantsSetup(s.status) || IsOff(s.status) || s.status == QUEUED_FOR_DELETE
    ensures Calls(w) < Calls(Apply(w, s, prior, o).1)
  {
    SetUpLogged(w, s, o);
    hide SetUp;
  }

  // ---------------------------------------------------------------------------------------
  // Which lost reports matter.
  // ---------------------------------------------------------------------------------------

  /** Seen for the first time, valid, and already queued for deletion. */
  predicate FirstSeenQueued(lib: Library, local: map<string, Session>, s: Session) {
    s.uuid !in local && s.status == QUEUED_FOR_DELETE && ValidInputs(lib, s)
  }

  /** Whether a report with a status the center does not have yet gets lost, from what is known of the
      session and the outcomes of its operations. */
  predicate NewsLost(lib: Library, local: map<string, Session>, w: World, s: Session, o: Outcome) {
    && !(s.uuid in local && local[s.uuid] == s)
    && s.status != TEARDOWN
    && if !(s.uuid in local && DeletingTornDown(s, local[s.uuid])) && !ValidInputs(lib, s) then !o.teardownDelivered
       else
         && !o.delivered
         && (s.status == QUEUED_FOR_DELETE
             || (WantsSetup(s.status) && s.status != if Configure(w, s, o.configure).1 then ENABLED else PROBLEM))
  }

  /** A report was made, was lost, and named another status than the center's. */
  predicate LosesNews(w: World, w': World, s: Session) {
    |w'.reports| > |w.reports| && var r := w'.reports[|w.reports|]; !r.delivered && r.status != s.status
  }

  lemma SetUpStatus(w: World, s: Session, o: Outcome)
    ensures SetUp(w, s, o).0 == s.(status := if Configure(w, s, o.configure).1 then ENABLED else PROBLEM)
    ensures SetUp(w, s, o).1.reports == w.reports + [Report(s.uuid, SetUp(w, s, o).0.status, o.delivered)]
  {
    SetUpLogged(w, s, o);
  }

  lemma NewsLostMeans(lib: Library, local: map<string, Session>, w: World, s: Session, o: Outcome)
    ensures NewsLost(lib, local, w, s, o) <==> LosesNews(w, Remote(lib, local, w, s, o).1, s)
    ensures NewsLost(lib, local, w, s, o) && !FirstSeenQueued(lib, local, s) <==> !Acknowledged(lib, local, w, s, o)
  {
    SetUpStatus(w, s, o);
    hide SetUp, Configure, ValidInputs;
  }

  /** A report names the status the session ends with, unless it was lost for one first seen queued for
      deletion. */
  lemma ReportNamesStatus(lib: Library, local: map<string, Session>, w: World, s: Session, o: Outcome)
    ensures var (s', w') := Remote(lib, local, w, s, o);
            var n := |w.reports|;
            |w'.reports| > n ==>
              (w'.reports[n].status == s'.status <==> w'.reports[n].delivered || !FirstSeenQueued(lib, local, s))
  {
    SetUpStatus(w, s, o);
    hide SetUp, ValidInputs;
  }

  /** If the center lists the session as before, its next handling makes some call exactly unless it was
      first seen queued for deletion; and reports exactly unless that, or it is listed as deleted. */
  lemma LostReportIsRetried(lib: Library, local: map<string, Session>, w: World, s: Session, o: Outcome, w2: World, o2: Outcome)
    requires NewsLost(lib, local, w, s, o)
    ensures var w3 := Changed(lib, w2, s, Remote(lib, local, w, s, o).0, o2).1;
            && (Calls(w2) < Calls(w3) <==> !FirstSeenQueued(lib, local, s))
            && (w3.reports != w2.reports <==> !FirstSeenQueued(lib, local, s) && s.status != DELETED)
  {
    NewsLostMeans(lib, local, w, s, o);
    if !FirstSeenQueued(lib, local, s) {
      UnacknowledgedIsLoud(lib, local, w, s, o, w2, o2);
    }
    SetUpStatus(w, s, o);
    SetUpStatus(w2, s, o2);
    hide SetUp, Configure, ValidInputs, Calls, Acknowledged;
  }

  /** The second sync makes no call exactly when no report with news was lost, but for sessions first
      seen queued for deletion; and then it changes nothing, whatever its own outcomes. */
  lemma SecondSyncQuietIff(lib: Library, st: State, fetched: seq<Session>, env: Environment, second: seq<Session>, env2: Environment)
    requires DistinctUuids(fetched)
    requires CenterAnswers(second, fetched, Fresh(st.world, Sync(lib, st, Input(Some(fetched), env)).world))
    ensures var once := Sync(lib, st, Input(Some(fetched), env));
            var twice := Sync(lib, once, Input(Some(second), env2));
            && (Calls(twice.world) == Calls(once.world)
                <==> forall i :: 0 <= i < |fetched| ==>
                       NewsLostAt(lib, st.local, st.world, fetched, env, i) ==> FirstSeenQueued(lib, st.local, fetched[i]))
            && (Calls(twice.world) == Calls(once.world) ==> twice == once)
  {
    var once := Sync(lib, st, Input(Some(fetched), env));
    SyncShape(lib, st, fetched, env);
    hide Sync, Settled, Uuids, CenterAnswers, AcknowledgedAt, NewsLostAt, FirstSeenQueued, Calls;
    forall i | 0 <= i < |fetched|
      ensures NewsLostAt(lib, st.local, st.world, fetched, env, i) && !FirstSeenQueued(lib, st.local, fetched[i])
              <==> !AcknowledgedAt(lib, st.local, st.world, fetched, env, i)
    {
      NewsLostAtMeans(lib, st.local, st.world, fetched, env, i);
    }
    if i :| 0 <= i < |fetched| && !AcknowledgedAt(lib, st.local, st.world, fetched, env, i) {
      LostReportIsLoud(lib, st, fetched, env, i, once, second, env2);
    } else {
      AllAcknowledgedIsQuiet(lib, st, fetched, env, once, second, env2);
    }
  }

  predicate NewsLostAt(lib: Library, local: map<string, Session>, w: World, fetched: seq<Session>, env: Environment, i: nat)
    requires i < |fetched|
  {
    NewsLost(lib, local, WorldAt(lib, local, w, fetched, env, i), fetched[i], env.remote(i))
  }

  lemma NewsLostAtMeans(lib: Library, local: map<string, Session>, w: World, fetched: seq<Session>, env: Environment, i: nat)
    requires i < |fetched|
    ensures NewsLostAt(lib, local, w, fetched, env, i) && !FirstSeenQueued(lib, local, fetched[i])
            <==> !AcknowledgedAt(lib, local, w, fetched, env, i)
  {
    NewsLostMeans(lib, local, WorldAt(lib, local, w, fetched, env, i), fetched[i], env.remote(i));
    hide NewsLost, Acknowledged;
  }

  lemma {:induction false} AllAcknowledgedIsQuiet(lib: Library, st: State, fetched: seq<Session>, env: Environment, once: State, second: seq<Session>, env2: Environment)
    requires DistinctUuids(fetched)
    requires once.local == RemoteAll(lib, st.local, st.world, fetched, env).0
    requires once.world.reports == RemoteAll(lib, st.local, st.world, fetched, env).1.reports
    requires CenterAnswers(second, fetched, Fresh(st.world, once.world))
    requires forall i :: 0 <= i < |fetched| ==> AcknowledgedAt(lib, st.local, st.world, fetched, env, i)
    ensures Sync(lib, once, Input(Some(second), env2)) == once
  {
    var reports := Fresh(st.world, once.world);
    hide Sync, Settled, Uuids, CenterAnswers, AcknowledgedAt, Remote;
    forall i | 0 <= i < |fetched|
      ensures Settled(fetched[i], once.local, reports, true)
    {
      RecordedAt(lib, st.local, st.world, fetched, env, i);
    }
    SecondSyncWorld(lib, st, fetched, env, once, second, env2);
    AnswersAgree(second, fetched, reports, once.local);
    AgreementIsQuiet(lib, once.local, once.world, second, env2);
  }

  lemma {:induction false} SyncShape(lib: Library, st: State, fetched: seq<Session>, env: Environment)
    ensures var (next, w) := RemoteAll(lib, st.local, st.world, fetched, env);
            var after := Sync(lib, st, Input(Some(fetched), env));
            after.local == next && after.world.reports == w.reports
  {
  }

  lemma AnswerAt(second: seq<Session>, fetched: seq<Session>, reports: seq<Report>, i: nat) returns (j: nat)
    requires CenterAnswers(second, fetched, reports) && i < |fetched|
    ensures j < |second| && second[j] == Recorded(reports, fetched[i])
  {
    var answer := RecordedAll(reports, fetched)[i];
    j :| 0 <= j < |second| && second[j] == answer;
  }

  lemma QuestionOf(second: seq<Session>, fetched: seq<Session>, reports: seq<Report>, j: nat) returns (i: nat)
    requires CenterAnswers(second, fetched, reports) && j < |second|
    ensures i < |fetched| && second[j] == Recorded(reports, fetched[i]) && second[j].uuid == fetched[i].uuid
  {
    var records := RecordedAll(reports, fetched);
    assert second[j] in records;
    i :| 0 <= i < |records| && records[i] == second[j];
    RecordedSameUuid(reports, fetched[i]);
  }

  lemma AnswersAgree(second: seq<Session>, fetched: seq<Session>, reports: seq<Report>, local: map<string, Session>)
    requires CenterAnswers(second, fetched, reports)
    requires forall i :: 0 <= i < |fetched| ==> Settled(fetched[i], local, reports, true)
    ensures forall j :: 0 <= j < |second| ==> second[j].uuid in local && local[second[j].uuid] == second[j]
  {
    forall j | 0 <= j < |second|
      ensures second[j].uuid in local && local[second[j].uuid] == second[j]
    {
      var i := QuestionOf(second, fetched, reports, j);
    }
  }

  /** The center's answer has the local keys, so the second sync removes nothing. */
  lemma {:induction false} SecondSyncWorld(lib: Library, st: State, fetched: seq<Session>, env: Environment, once: State, second: seq<Session>, env2: Environment)
    requires once.local == RemoteAll(lib, st.local, st.world, fetched, env).0
    requires CenterAnswers(second, fetched, Fresh(st.world, once.world))
    ensures var (next, w) := RemoteAll(lib, once.local, once.world, second, env2);
            Sync(lib, once, Input(Some(second), env2)) == State(next, w)
    ensures once.local.Keys == Uuids(second)
  {
    RemoteAllKeys(lib, st.local, st.world, fetched, env);
    SameUuids(second, fetched, Fresh(st.world, once.world));
    NothingGone(lib, once, second, env2);
  }

  lemma {:induction false} NothingGone(lib: Library, st: State, second: seq<Session>, env: Environment)
    requires st.local.Keys == Uuids(second)
    ensures var (next, w) := RemoteAll(lib, st.local, st.world, second, env);
            Sync(lib, st, Input(Some(second), env)) == State(next, w)
  {
    var none := st.local.Keys - Uuids(second);
    assert none == {};
    RemoveNone(st.local, RemoteAll(lib, st.local, st.world, second, env).1, env);
  }

  lemma {:induction false} LostReportIsLoud(lib: Library, st: State, fetched: seq<Session>, env: Environment, i: nat, once: State, second: seq<Session>, env2: Environment)
    requires DistinctUuids(fetched) && i < |fetched|
    requires once.local == RemoteAll(lib, st.local, st.world, fetched, env).0
    requires once.world.reports == RemoteAll(lib, st.local, st.world, fetched, env).1.reports
    requires CenterAnswers(second, fetched, Fresh(st.world, once.world))
    requires !AcknowledgedAt(lib, st.local, st.world, fetched, env, i)
    ensures Calls(once.world) < Calls(Sync(lib, once, Input(Some(second), env2)).world)
  {
    var reports := Fresh(st.world, once.world);
    hide Sync, Uuids, CenterAnswers, Acknowledged, New, Changed;
    RecordedAt(lib, st.local, st.world, fetched, env, i);
    var j := AnswerAt(second, fetched, reports, i);
    ProcessedAt(lib, st.local, st.world, fetched, env, i);
    SecondSyncWorld(lib, st, fetched, env, once, second, env2);
    UnacknowledgedIsLoud(lib, st.local, WorldAt(lib, st.local, st.world, fetched, env, i), fetched[i], env.remote(i),
                         WorldAt(lib, once.local, once.world, second, env2, j), env2.remote(j));
    CallsGrow(lib, once.local, once.world, second, env2, j);
    CallsGrow(lib, once.local, once.world, second, env2, j + 1);
    RemoteOneMore(lib, once.local, once.world, second, j, env2);
  }

  lemma SameUuids(second: seq<Session>, fetched: seq<Session>, reports: seq<Report>)
    requires CenterAnswers(second, fetched, reports)
    ensures Uuids(second) == Uuids(fetched)
  {
    hide Uuids;
    forall i | 0 <= i < |fetched|
      ensures fetched[i].uuid in Uuids(second)
    {
      var j := AnswerAt(second, fetched, reports, i);
      RecordedSameUuid(reports, fetched[i]);
      UuidAt(second, j);
    }
    forall j | 0 <= j < |second|
      ensures second[j].uuid in Uuids(fetched)
    {
      var i := QuestionOf(second, fetched, reports, j);
      UuidAt(fetched, i);
    }
    UuidsWithin(fetched, Uuids(second));
    UuidsWithin(second, Uuids(fetched));
  }

  lemma UuidAt(fetched: seq<Session>, i: nat)
    requires i < |fetched|
    ensures fetched[i].uuid in Uuids(fetched)
  {
    assert fetched[i] in fetched;
  }

  lemma UuidsWithin(fetched: seq<Session>, uuids: set<string>)
    requires forall i :: 0 <= i < |fetched| ==> fetched[i].uuid in uuids
    ensures Uuids(fetched) <= uuids
  {
  }

  lemma {:induction false} RecordedSameUuid(reports: seq<Report>, s: Session)
    ensures Recorded(reports, s).uuid == s.uuid
  {
    if reports != [] {
      RecordedSameUuid(reports[..|reports| - 1], s);
    }
  }

  /** With distinct UUIDs the local record of a session is the one its own step produced. */
  lemma {:induction false} ProcessedAt(lib: Library, local: map<string, Session>, w: World, fetched: seq<Session>, env: Environment, i: nat)
    requires DistinctUuids(fetched) && i < |fetched|
    ensures var next := RemoteAll(lib, local, w, fetched, env).0;
            && fetched[i].uuid in next
            && next[fetched[i].uuid] == Remote(lib, local, WorldAt(lib, local, w, fetched, env, i), fetched[i], env.remote(i)).0
  {
    hide Remote;
    var n := |fetched| - 1;
    RemoteRecord(lib, local, WorldAt(lib, local, w, fetched, env, n), fetched[n], env.remote(n));
    if i < n {
      ProcessedAt(lib, local, w, fetched[..n], env, i);
      assert fetched[..n][..i] == fetched[..i];
    }
  }

  lemma DeliveredIsAcknowledged(lib: Library, local: map<string, Session>, w: World, s: Session, o: Outcome)
    requires o.teardownDelivered && o.delivered
    ensures Acknowledged(lib, local, w, s, o)
  {
    SetUpLogged(w, s, o);
    hide SetUp, ValidInputs;
  }

  /** When every report is delivered, the second sync finds nothing to do, for every starting
      state and every outcome of configuring and deleting. */
  lemma SyncReachesFixedPoint(lib: Library, st: State, fetched: seq<Session>, env: Environment, second: seq<Session>, env2: Environment)
    requires DistinctUuids(fetched)
    requires forall i :: env.remote(i).teardownDelivered && env.remote(i).delivered
    requires CenterAnswers(second, fetched, Fresh(st.world, Sync(lib, st, Input(Some(fetched), env)).world))
    ensures var once := Sync(lib, st, Input(Some(fetched), env));
            Sync(lib, once, Input(Some(second), env2)) == once
  {
    forall i | 0 <= i < |fetched|
      ensures AcknowledgedAt(lib, st.local, st.world, fetched, env, i)
    {
      var w := WorldAt(lib, st.local, st.world, fetched, env, i);
      DeliveredIsAcknowledged(lib, st.local, w, fetched[i], env.remote(i));
    }
    hide Sync, RemoteAll;
    SecondSyncQuietIff(lib, st, fetched, env, second, env2);
  }

  // ---------------------------------------------------------------------------------------
  // One report is never retried.
  // ---------------------------------------------------------------------------------------

  predicate KeepsListing(input: Input, s: Session) {
    input.fetched.Some? ==>
      s in input.fetched.value && forall i :: 0 <= i < |input.fetched.value| && input.fetched.value[i].uuid == s.uuid ==> input.fetched.value[i] == s
  }

  /** A new session queued for deletion whose report is lost is stored as it came. */
  lemma LostDeleteReport(lib: Library, w: World, s: Session, o: Outcome)
    requires s.status == QUEUED_FOR_DELETE && ValidInputs(lib, s) && !o.delivered
    ensures New(lib, w, s, o) == (s, Send(w, s.uuid, DELETED, false))
  {
  }

  lemma {:induction false} RemoteAllSilent(lib: Library, local: map<string, Session>, w: World, fetched: seq<Session>, env: Environment, s: Session)
    requires s.uuid in local && local[s.uuid] == s
    requires forall i :: 0 <= i < |fetched| && fetched[i].uuid == s.uuid ==> fetched[i] == s
    ensures var (next, w') := RemoteAll(lib, local, w, fetched, env);
            && (s.uuid in next ==> next[s.uuid] == s)
            && Reported(w, w', Uuids(fetched))
            && NoneAbout(Fresh(w, w'), s.uuid)
  {
    if fetched != [] {
      var n := |fetched| - 1;
      var t := fetched[n];
      forall i | 0 <= i < n && fetched[..n][i].uuid == s.uuid
        ensures fetched[..n][i] == s
      {
        assert fetched[..n][i] == fetched[i];
      }
      RemoteAllSilent(lib, local, w, fetched[..n], env, s);
      RemoteAllReports(lib, local, w, fetched, env);
      var (next, w1) := RemoteAll(lib, local, w, fetched[..n], env);
      var (t', w2) := Remote(lib, local, w1, t, env.remote(n));
      RemoteReports(lib, local, w1, t, env.remote(n));
      if t.uuid == s.uuid {
        assert (t', w2) == (s, w1);
      } else {
        hide Remote, Uuids, Logged;
        OneFresh(w1, w2, t, t', s.uuid);
        ReportedTwice(w, w1, w2, Uuids(fetched[..n]), t, t');
      }
    }
  }

  /** Nothing about the session has been reported since, and it is stored as it was. */
  predicate Silent(st: State, after: State, s: Session) {
    && s.uuid in after.local && after.local[s.uuid] == s
    && |st.world.reports| <= |after.world.reports| && after.world.reports[..|st.world.reports|] == st.world.reports
    && NoneAbout(Fresh(st.world, after.world), s.uuid)
  }

  lemma SyncSilent(lib: Library, st: State, fetched: seq<Session>, env: Environment, s: Session)
    requires s.uuid in st.local && st.local[s.uuid] == s && s in fetched
    requires forall i :: 0 <= i < |fetched| && fetched[i].uuid == s.uuid ==> fetched[i] == s
    ensures Silent(st, Sync(lib, st, Input(Some(fetched), env)), s)
  {
    RemoteAllSilent(lib, st.local, st.world, fetched, env, s);
    RemoteAllKeys(lib, st.local, st.world, fetched, env);
    SyncShape(lib, st, fetched, env);
    hide Sync, RemoteAll;
  }

  lemma SilentTwice(a: State, b: State, c: State, s: Session)
    requires Silent(a, b, s) && Silent(b, c, s)
    ensures Silent(a, c, s)
  {
    AppendedReports(a.world.reports, b.world.reports, c.world.reports);
  }

  /** As long as the center lists it unchanged, no later sync reports on it again: the center is
      never told that the session may go. */
  lemma {:induction false} LostDeleteReportIsFinal(lib: Library, st: State, inputs: seq<Input>, s: Session)
    requires s.uuid in st.local && st.local[s.uuid] == s
    requires forall k :: 0 <= k < |inputs| ==> KeepsListing(inputs[k], s)
    ensures Silent(st, Run(lib, st, inputs), s)
  {
    if inputs != [] {
      var n := |inputs| - 1;
      LostDeleteReportIsFinal(lib, st, inputs[..n], s);
      var before := Run(lib, st, inputs[..n]);
      if inputs[n].fetched.Some? {
        SyncSilent(lib, before, inputs[n].fetched.value, inputs[n].env, s);
        assert inputs[n] == Input(Some(inputs[n].fetched.value), inputs[n].env);
        hide Sync, Silent;
        SilentTwice(st, before, Sync(lib, before, inputs[n]), s);
      }
    }
  }

  /** With distinct UUIDs, a sync reports on a session exactly if its own step does. */
  lemma {:induction false} AboutOnlyAt(lib: Library, local: map<string, Session>, w: World, fetched: seq<Session>, env: Environment, j: nat)
    requires DistinctUuids(fetched) && j < |fetched|
    ensures var at := WorldAt(lib, local, w, fetched, env, j);
            NoneAbout(Fresh(w, RemoteAll(lib, local, w, fetched, env).1), fetched[j].uuid)
            <==> Remote(lib, local, at, fetched[j], env.remote(j)).1.reports == at.reports
  {
    hide Remote, Uuids, Logged, Reported, AllAbout, NoneAbout, Fresh, DistinctUuids;
    var n := |fetched| - 1;
    var init, s := fetched[..n], fetched[n];
    RemoteAllReports(lib, local, w, init, env);
    var w1 := RemoteAll(lib, local, w, init, env).1;
    var (s', w2) := Remote(lib, local, w1, s, env.remote(n));
    RemoteReports(lib, local, w1, s, env.remote(n));
    ReportedTwice(w, w1, w2, Uuids(init), s, s');
    AboutBoth(Fresh(w, w1), Fresh(w1, w2), fetched[j].uuid);
    if j == n {
      NotAmong(fetched, n);
      ReportedElsewhere(w, w1, Uuids(init), s.uuid);
      OwnReports(w1, w2, s, s');
    } else {
      DistinctFromLast(fetched, j);
      AboutOnlyAt(lib, local, w, init, env, j);
      assert fetched[..j] == init[..j];
      OneFresh(w1, w2, s, s', fetched[j].uuid);
    }
  }

  lemma AboutBoth(a: seq<Report>, b: seq<Report>, uuid: string)
    ensures NoneAbout(a + b, uuid) <==> NoneAbout(a, uuid) && NoneAbout(b, uuid)
  {
    var c := a + b;
    assert forall k :: 0 <= k < |a| ==> c[k] == a[k];
    assert forall k :: 0 <= k < |b| ==> c[|a| + k] == b[k];
  }

  lemma ReportedElsewhere(w: World, w': World, uuids: set<string>, uuid: string)
    requires Reported(w, w', uuids) && uuid !in uuids
    ensures NoneAbout(Fresh(w, w'), uuid)
  {
  }

  lemma DistinctFromLast(fetched: seq<Session>, j: nat)
    requires DistinctUuids(fetched) && j < |fetched| - 1
    ensures DistinctUuids(fetched[..|fetched| - 1]) && fetched[j].uuid != fetched[|fetched| - 1].uuid
  {
  }

  lemma OwnReports(w: World, w': World, s: Session, s': Session)
    requires Logged(w, w', s, s')
    ensures NoneAbout(Fresh(w, w'), s.uuid) <==> w'.reports == w.reports
  {
    if w'.reports != w.reports {
      assert Fresh(w, w')[0].uuid == s.uuid;
    }
  }

  /** What becomes of a lost report with news. If the center lists the session as before, the next sync
      reports on it exactly unless it was first seen queued for deletion or is listed as deleted; and in
      the first of these cases no run of syncs ever does. */
  lemma {:induction false} LostReportFate(lib: Library, st: State, fetched: seq<Session>, env: Environment, i: nat, second: seq<Session>, env2: Environment)
    requires DistinctUuids(fetched) && i < |fetched| && NewsLostAt(lib, st.local, st.world, fetched, env, i)
    requires DistinctUuids(second) && fetched[i] in second
    ensures var s := fetched[i];
            var once := Sync(lib, st, Input(Some(fetched), env));
            var twice := Sync(lib, once, Input(Some(second), env2));
            && (NoneAbout(Fresh(once.world, twice.world), s.uuid) <==> FirstSeenQueued(lib, st.local, s) || s.status == DELETED)
            && (FirstSeenQueued(lib, st.local, s) ==>
                  forall later: seq<Input> :: (forall k :: 0 <= k < |later| ==> KeepsListing(later[k], s)) ==> Silent(once, Run(lib, once, later), s))
  {
    var s := fetched[i];
    var once := Sync(lib, st, Input(Some(fetched), env));
    hide Remote, NewsLost, FirstSeenQueued, Silent, KeepsListing;
    SyncShape(lib, st, fetched, env);
    SyncShape(lib, once, second, env2);
    ProcessedAt(lib, st.local, st.world, fetched, env, i);
    hide Sync;
    NextReport(lib, st, fetched, env, i, once.local, once.world, second, env2);
    if FirstSeenQueued(lib, st.local, s) {
      StoredAsSeen(lib, st.local, WorldAt(lib, st.local, st.world, fetched, env, i), s, env.remote(i));
      forall later: seq<Input> | forall k :: 0 <= k < |later| ==> KeepsListing(later[k], s)
        ensures Silent(once, Run(lib, once, later), s)
      {
        LostDeleteReportIsFinal(lib, once, later, s);
      }
    }
  }

  lemma {:induction false} NextReport(lib: Library, st: State, fetched: seq<Session>, env: Environment, i: nat,
                   local: map<string, Session>, w: World, second: seq<Session>, env2: Environment)
    requires i < |fetched| && NewsLostAt(lib, st.local, st.world, fetched, env, i)
    requires DistinctUuids(second) && fetched[i] in second
    requires fetched[i].uuid in local
    requires local[fetched[i].uuid] == Remote(lib, st.local, WorldAt(lib, st.local, st.world, fetched, env, i), fetched[i], env.remote(i)).0
    ensures NoneAbout(Fresh(w, RemoteAll(lib, local, w, second, env2).1), fetched[i].uuid)
            <==> FirstSeenQueued(lib, st.local, fetched[i]) || fetched[i].status == DELETED
  {
    hide NewsLost, FirstSeenQueued, Changed, New;
    var s := fetched[i];
    var j :| 0 <= j < |second| && second[j] == s;
    AboutOnlyAt(lib, local, w, second, env2, j);
    LostReportIsRetried(lib, st.local, WorldAt(lib, st.local, st.world, fetched, env, i), s, env.remote(i),
                        WorldAt(lib, local, w, second, env2, j), env2.remote(j));
  }

  lemma StoredAsSeen(lib: Library, local: map<string, Session>, w: World, s: Session, o: Outcome)
    requires FirstSeenQueued(lib, local, s) && NewsLost(lib, local, w, s, o)
    ensures Remote(lib, local, w, s, o).0 == s
  {
    LostDeleteReport(lib, w, s, o);
    hide New;
  }
}
