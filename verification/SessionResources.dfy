/** Interfaces and configuration files match the local sessions after every run of syncs. */
module SessionResources {
  import opened Sessions
  import opened SessionSync
  import BirdConfig
  import opened SessionSyncTheorems

  /** Both resources of a session are there, set up with exactly its record. */
  ghost predicate Holds(w: World, s: Session) {
    && s.iface in w.interfaces && w.interfaces[s.iface] == Setup(s)
    && Sanitize(s.iface) in w.files && w.files[Sanitize(s.iface)] == Setup(s)
  }

  ghost predicate HoldsNothing(w: World, s: Session) {
    s.iface !in w.interfaces && Sanitize(s.iface) !in w.files
  }

  ghost predicate Apart(a: Session, b: Session) {
    Sanitize(a.iface) != Sanitize(b.iface)
  }

  ghost predicate Named(view: map<string, Session>) {
    && (forall u :: u in view ==> view[u].uuid == u)
    && (forall u, v :: u in view && v in view && u != v ==> Apart(view[u], view[v]))
  }

  ghost predicate Served(view: map<string, Session>, w: World) {
    forall u :: u in view && view[u].status == ENABLED ==> Holds(w, view[u])
  }

  ghost predicate Cleared(view: map<string, Session>, w: World) {
    forall u :: u in view && IsOff(view[u].status) ==> HoldsNothing(w, view[u])
  }

  /** Every resource belongs, by the record it was set up with, to a session of the view. */
  ghost predicate Owned(view: map<string, Session>, w: World) {
    && (forall n :: n in w.interfaces ==>
          w.interfaces[n].uuid in view && view[w.interfaces[n].uuid].iface == n)
    && (forall n :: n in w.files ==>
          w.files[n].uuid in view && Sanitize(view[w.files[n].uuid].iface) == n)
  }

  ghost predicate Consistent(view: map<string, Session>, w: World) {
    Named(view) && Served(view, w) && Cleared(view, w) && Owned(view, w)
  }

  // ---------------------------------------------------------------------------------------
  // One session.
  // ---------------------------------------------------------------------------------------

  /** Nothing but the resources under one name differs. */
  ghost predicate SameElsewhere(w: World, w': World, s: Session) {
    && (forall n :: n != s.iface ==>
          (n in w.interfaces <==> n in w'.interfaces) && (n in w.interfaces ==> w.interfaces[n] == w'.interfaces[n]))
    && (forall n :: n != Sanitize(s.iface) ==>
          (n in w.files <==> n in w'.files) && (n in w.files ==> w.files[n] == w'.files[n]))
  }

  /** What is left under the name is new for this session, or was there before. */
  ghost predicate OldOrOwn(w: World, w': World, s: Session) {
    && (s.iface in w'.interfaces ==>
          w'.interfaces[s.iface] == Setup(s) || (s.iface in w.interfaces && w'.interfaces[s.iface] == w.interfaces[s.iface]))
    && (Sanitize(s.iface) in w'.files ==>
          w'.files[Sanitize(s.iface)] == Setup(s)
          || (Sanitize(s.iface) in w.files && w'.files[Sanitize(s.iface)] == w.files[Sanitize(s.iface)]))
  }

  ghost predicate SameResources(w: World, w': World) {
    w.interfaces == w'.interfaces && w.files == w'.files
  }

  lemma ConfigureEffect(w: World, s: Session, o: ConfigureOutcome)
    ensures var (w', ok) := Configure(w, s, o);
            && SameElsewhere(w, w', s) && OldOrOwn(w, w', s)
            && (ok ==> Holds(w', s))
  {
  }

  lemma DeleteEffect(w: World, prior: Session, o: DeleteOutcome, s: Session)
    requires o.linkDeleted && o.fileRemoved && s.iface == prior.iface
    ensures var w' := Delete(w, prior, o).0;
            SameElsewhere(w, w', s) && OldOrOwn(w, w', s) && HoldsNothing(w', s)
  {
  }

  /** What processing a session does to the world, seen from its resources. */
  ghost predicate Effect(w: World, w': World, known: bool, prior: Session, s': Session) {
    && SameElsewhere(w, w', s') && OldOrOwn(w, w', s')
    && (s'.status == ENABLED ==> Holds(w', s') || (known && prior == s' && SameResources(w, w')))
    && (IsOff(s'.status) ==> HoldsNothing(w', s') || (SameResources(w, w') && (known ==> prior == s')))
  }

  lemma SetUpEffect(w: World, s: Session, o: Outcome, known: bool, prior: Session)
    ensures var (s', w') := SetUp(w, s, o);
            Effect(w, w', known, prior, s')
  {
    ConfigureEffect(w, s, o.configure);
    hide Configure;
  }

  lemma NewEffect(lib: Library, w: World, s: Session, o: Outcome)
    ensures var (s', w') := New(lib, w, s, o);
            Effect(w, w', false, s, s')
  {
    var (t, w1) := Checked(lib, w, s, o);
    SetUpEffect(w1, t, o, false, s);
    hide SetUp, ValidInputs, Holds, HoldsNothing;
  }

  lemma ApplyEffect(w: World, s: Session, prior: Session, o: Outcome)
    requires prior.iface == s.iface
    requires o.delete.linkDeleted && o.delete.fileRemoved
    ensures var (s', w') := Apply(w, s, prior, o);
            Effect(w, w', true, prior, s')
  {
    if WantsSetup(s.status) {
      SetUpEffect(w, s, o, true, prior);
      hide SetUp, Delete, Effect;
    } else if IsOff(s.status) || s.status == QUEUED_FOR_DELETE {
      var (s', w') := Apply(w, s, prior, o);
      DeleteEffect(w, prior, o.delete, s');
      hide Delete, SameElsewhere, OldOrOwn, Holds, HoldsNothing, Effect, SetUp;
      RemovedEffect(w, Delete(w, prior, o.delete).0, w', prior, s');
    }
  }

  lemma RemovedEffect(w: World, w1: World, w': World, prior: Session, s': Session)
    requires SameElsewhere(w, w1, s') && OldOrOwn(w, w1, s') && HoldsNothing(w1, s')
    requires SameResources(w1, w') && s'.status != ENABLED
    ensures Effect(w, w', true, prior, s')
  {
  }

  /** The check before it makes no difference to the resources. */
  lemma EffectFrom(w: World, w1: World, w': World, prior: Session, s': Session)
    requires SameResources(w, w1) && Effect(w1, w', true, prior, s')
    ensures Effect(w, w', true, prior, s')
  {
  }

  lemma ChangedEffect(lib: Library, w: World, s: Session, prior: Session, o: Outcome)
    requires prior.iface == s.iface
    requires o.delete.linkDeleted && o.delete.fileRemoved
    ensures var (s', w') := Changed(lib, w, s, prior, o);
            Effect(w, w', true, prior, s')
  {
    if s != prior {
      CheckedShape(lib, w, s, o);
      var (t, w1) := if DeletingTornDown(s, prior) then (s, w) else Checked(lib, w, s, o);
      var (s', w') := Changed(lib, w, s, prior, o);
      ApplyEffect(w1, t, prior, o);
      hide Apply, Checked, Effect;
      EffectFrom(w, w1, w', prior, s');
    }
  }

  /** Replacing one session of a view keeps the enabled ones served. */
  lemma StepServed(view: map<string, Session>, w: World, w': World, s': Session)
    requires Named(view[s'.uuid := s']) && Served(view, w)
    requires var known := s'.uuid in view;
             Effect(w, w', known, if known then view[s'.uuid] else s', s')
    ensures Served(view[s'.uuid := s'], w')
  {
    var after := view[s'.uuid := s'];
    forall u | u in after && after[u].status == ENABLED
      ensures Holds(w', after[u])
    {
      if u != s'.uuid {
        assert Apart(after[u], after[s'.uuid]);
      }
    }
  }

  lemma StepCleared(view: map<string, Session>, w: World, w': World, s': Session)
    requires Named(view[s'.uuid := s']) && Cleared(view, w) && Owned(view, w)
    requires var known := s'.uuid in view;
             && (known ==> view[s'.uuid].iface == s'.iface)
             && Effect(w, w', known, if known then view[s'.uuid] else s', s')
    ensures Cleared(view[s'.uuid := s'], w')
  {
    var after := view[s'.uuid := s'];
    forall u | u in after && IsOff(after[u].status)
      ensures HoldsNothing(w', after[u])
    {
      if u != s'.uuid {
        assert Apart(after[u], after[s'.uuid]);
      } else if u !in view {
        assert forall v :: v in view ==> v in after && Apart(after[v], after[u]);
      }
    }
  }

  lemma StepOwned(view: map<string, Session>, w: World, w': World, s': Session)
    requires Owned(view, w)
    requires s'.uuid in view ==> view[s'.uuid].iface == s'.iface
    requires SameElsewhere(w, w', s') && OldOrOwn(w, w', s')
    ensures Owned(view[s'.uuid := s'], w')
  {
  }

  /** The session is known to the view as to the local map, and its name is no one else's. */
  ghost predicate Ready(local: map<string, Session>, view: map<string, Session>, s: Session) {
    && (s.uuid in view <==> s.uuid in local)
    && (s.uuid in local ==> view[s.uuid] == local[s.uuid] && local[s.uuid].iface == s.iface)
    && (forall u :: u in view && u != s.uuid ==> Apart(view[u], s))
  }

  /** One session processed in a consistent view leaves a consistent view. */
  lemma StepConsistent(lib: Library, local: map<string, Session>, view: map<string, Session>, w: World, s: Session, o: Outcome)
    requires Consistent(view, w)
    requires Ready(local, view, s)
    requires o.delete.linkDeleted && o.delete.fileRemoved
    ensures var (s', w') := Remote(lib, local, w, s, o);
            Consistent(view[s.uuid := s'], w')
  {
    var (s', w') := Remote(lib, local, w, s, o);
    RemoteRecord(lib, local, w, s, o);
    if s.uuid in local {
      ChangedEffect(lib, w, s, local[s.uuid], o);
    } else {
      NewEffect(lib, w, s, o);
      assert Effect(w, w', false, s', s');
    }
    hide Remote, Effect, Served, Cleared, Owned;
    assert Setup(s').iface == s.iface && Setup(s').uuid == s.uuid;
    assert Effect(w, w', s.uuid in view, if s.uuid in view then view[s.uuid] else s', s');
    assert Named(view[s'.uuid := s']);
    StepServed(view, w, w', s');
    StepCleared(view, w, w', s');
    EffectFrame(w, w', s.uuid in view, if s.uuid in view then view[s.uuid] else s', s');
    StepOwned(view, w, w', s');
  }

  lemma EffectFrame(w: World, w': World, known: bool, prior: Session, s': Session)
    requires Effect(w, w', known, prior, s')
    ensures SameElsewhere(w, w', s') && OldOrOwn(w, w', s')
  {
  }

  // ---------------------------------------------------------------------------------------
  // A whole sync, and runs.
  // ---------------------------------------------------------------------------------------

  /** Deletions succeed; a failed one is only logged, so nothing below holds without this. */
  ghost predicate DeletesSucceed(env: Environment) {
    && (forall i :: env.remote(i).delete.linkDeleted && env.remote(i).delete.fileRemoved)
    && (forall u :: env.gone(u).linkDeleted && env.gone(u).fileRemoved)
  }

  ghost predicate InjectiveNames(names: map<string, string>) {
    forall u, v :: u in names && v in names && u != v ==> Sanitize(names[u]) != Sanitize(names[v])
  }

  /** One name per UUID, distinct after sanitising, over the local and the fetched sessions. */
  ghost predicate NamedBy(local: map<string, Session>, fetched: seq<Session>, names: map<string, string>) {
    && InjectiveNames(names)
    && (forall u :: u in local ==> u in names && local[u].iface == names[u])
    && (forall i :: 0 <= i < |fetched| ==> fetched[i].uuid in names && fetched[i].iface == names[fetched[i].uuid])
  }

  ghost predicate Follows(view: map<string, Session>, names: map<string, string>) {
    forall u :: u in view ==> u in names && view[u].iface == names[u]
  }

  /** Processing keeps every session under its name. */
  lemma {:induction false} RemoteAllNames(lib: Library, local: map<string, Session>, w: World, fetched: seq<Session>, env: Environment, known: map<string, Session>, names: map<string, string>)
    requires NamedBy(known, fetched, names)
    ensures Follows(RemoteAll(lib, local, w, fetched, env).0, names)
  {
    if fetched != [] {
      var n := |fetched| - 1;
      NamedInit(known, fetched, names);
      RemoteAllNames(lib, local, w, fetched[..n], env, known, names);
      var w1 := RemoteAll(lib, local, w, fetched[..n], env).1;
      RemoteRecord(lib, local, w1, fetched[n], env.remote(n));
      hide Remote;
      assert Setup(Remote(lib, local, w1, fetched[n], env.remote(n)).0).iface == fetched[n].iface;
    }
  }

  lemma NamedInit(local: map<string, Session>, fetched: seq<Session>, names: map<string, string>)
    requires NamedBy(local, fetched, names) && fetched != []
    ensures NamedBy(local, fetched[..|fetched| - 1], names)
  {
  }

  lemma DistinctInit(fetched: seq<Session>)
    requires DistinctUuids(fetched) && fetched != []
    ensures DistinctUuids(fetched[..|fetched| - 1])
  {
  }

  lemma DeletesSucceedAt(env: Environment, i: nat)
    requires DeletesSucceed(env)
    ensures env.remote(i).delete.linkDeleted && env.remote(i).delete.fileRemoved
  {
  }

  lemma LastReady(local: map<string, Session>, next: map<string, Session>, fetched: seq<Session>, names: map<string, string>)
    requires NamedBy(local, fetched, names) && Follows(next, names) && fetched != []
    requires fetched[|fetched| - 1].uuid !in next
    ensures Ready(local, local + next, fetched[|fetched| - 1])
  {
  }

  lemma InitReady(lib: Library, local: map<string, Session>, w: World, fetched: seq<Session>, env: Environment, names: map<string, string>)
    requires DistinctUuids(fetched) && NamedBy(local, fetched, names) && fetched != []
    ensures var n := |fetched| - 1;
            Ready(local, local + RemoteAll(lib, local, w, fetched[..n], env).0, fetched[n])
  {
    var n := |fetched| - 1;
    NamedInit(local, fetched, names);
    RemoteAllKeys(lib, local, w, fetched[..n], env);
    RemoteAllNames(lib, local, w, fetched[..n], env, local, names);
    NotAmong(fetched, n);
    LastReady(local, RemoteAll(lib, local, w, fetched[..n], env).0, fetched, names);
  }

  lemma ExtendConsistent(lib: Library, local: map<string, Session>, next: map<string, Session>, w: World, s: Session, o: Outcome)
    requires Consistent(local + next, w) && Ready(local, local + next, s)
    requires o.delete.linkDeleted && o.delete.fileRemoved
    ensures var (s', w') := Remote(lib, local, w, s, o);
            Consistent(local + next[s.uuid := s'], w')
  {
    StepConsistent(lib, local, local + next, w, s, o);
    hide Remote, Consistent, Ready;
    var s' := Remote(lib, local, w, s, o).0;
    assert local + next[s.uuid := s'] == (local + next)[s.uuid := s'];
  }

  lemma {:induction false} RemoteAllConsistent(lib: Library, local: map<string, Session>, w: World, fetched: seq<Session>, env: Environment, names: map<string, string>)
    requires Consistent(local, w) && DistinctUuids(fetched) && NamedBy(local, fetched, names) && DeletesSucceed(env)
    ensures var (next, w') := RemoteAll(lib, local, w, fetched, env);
            Consistent(local + next, w')
  {
    if fetched == [] {
      assert local + map[] == local;
    } else {
      hide Remote, Consistent, NamedBy, Ready, DeletesSucceed, DistinctUuids;
      var n := |fetched| - 1;
      NamedInit(local, fetched, names);
      DistinctInit(fetched);
      RemoteAllConsistent(lib, local, w, fetched[..n], env, names);
      var (next, w1) := RemoteAll(lib, local, w, fetched[..n], env);
      InitReady(lib, local, w, fetched, env, names);
      DeletesSucceedAt(env, n);
      ExtendConsistent(lib, local, next, w1, fetched[n], env.remote(n));
    }
  }

  /** Removing sessions with their resources keeps the rest consistent. */
  lemma RemoveConsistent(local: map<string, Session>, view: map<string, Session>, w: World, gone: set<string>, env: Environment)
    requires Consistent(view, w) && gone <= local.Keys && gone <= view.Keys && DeletesSucceed(env)
    requires forall u :: u in gone ==> view[u] == local[u]
    ensures Consistent(view - gone, RemoveAll(local, w, gone, env))
  {
    var (rest, w') := (view - gone, RemoveAll(local, w, gone, env));
    assert Named(rest);
    forall u, g | u in rest && g in gone
      ensures Apart(view[u], local[g])
    {
    }
    assert Served(rest, w') && Cleared(rest, w');
    RemoveOwned(local, view, w, gone, env);
  }

  lemma RemoveOwned(local: map<string, Session>, view: map<string, Session>, w: World, gone: set<string>, env: Environment)
    requires Owned(view, w) && gone <= local.Keys && gone <= view.Keys && DeletesSucceed(env)
    requires forall u :: u in gone ==> view[u] == local[u]
    ensures Owned(view - gone, RemoveAll(local, w, gone, env))
  {
    var w' := RemoveAll(local, w, gone, env);
    forall n | n in w'.interfaces
      ensures w'.interfaces[n].uuid !in gone
    {
      assert n in w.interfaces && view[w.interfaces[n].uuid].iface == n;
    }
    forall n | n in w'.files
      ensures w'.files[n].uuid !in gone
    {
      assert n in w.files && Sanitize(view[w.files[n].uuid].iface) == n;
    }
  }

  /** What is asked of one sync. */
  ghost predicate Orderly(st: State, input: Input, names: map<string, string>) {
    input.fetched.Some? ==>
      && DistinctUuids(input.fetched.value)
      && NamedBy(st.local, input.fetched.value, names)
      && DeletesSucceed(input.env)
  }

  lemma SyncConsistent(lib: Library, st: State, input: Input, names: map<string, string>)
    requires Consistent(st.local, st.world) && Orderly(st, input, names)
    ensures var after := Sync(lib, st, input);
            Consistent(after.local, after.world)
  {
    if input.fetched.Some? {
      var fetched := input.fetched.value;
      var (next, w) := RemoteAll(lib, st.local, st.world, fetched, input.env);
      var gone := st.local.Keys - Uuids(fetched);
      RemoteAllConsistent(lib, st.local, st.world, fetched, input.env, names);
      assert next.Keys == Uuids(fetched) by {
        RemoteAllKeys(lib, st.local, st.world, fetched, input.env);
      }
      hide Consistent, Uuids, RemoveAll, RemoteAll, NamedBy;
      RemoveConsistent(st.local, st.local + next, w, gone, input.env);
      KeepFetched(st.local, next);
    }
  }

  lemma KeepFetched(local: map<string, Session>, next: map<string, Session>)
    ensures (local + next) - (local.Keys - next.Keys) == next
  {
  }

  /** Over every run in which each sync is orderly (with names that may differ from sync to sync),
      each local ENABLED session has its interface and its file, set up with exactly its record;
      each DISABLED, DELETED or torn down session has neither; every resource has a local owner. */
  lemma {:induction false} RunConsistent(lib: Library, st: State, inputs: seq<Input>, names: seq<map<string, string>>)
    requires Consistent(st.local, st.world) && |names| == |inputs|
    requires forall k :: 0 <= k < |inputs| ==> Orderly(Run(lib, st, inputs[..k]), inputs[k], names[k])
    ensures var after := Run(lib, st, inputs);
            Consistent(after.local, after.world)
  {
    hide Sync, Consistent, Orderly;
    if inputs != [] {
      var n := |inputs| - 1;
      forall k | 0 <= k < n
        ensures Orderly(Run(lib, st, inputs[..n][..k]), inputs[..n][k], names[..n][k])
      {
        assert inputs[..n][..k] == inputs[..k];
      }
      RunConsistent(lib, st, inputs[..n], names[..n]);
      SyncConsistent(lib, Run(lib, st, inputs[..n]), inputs[n], names[n]);
    }
  }

  /** From a clean start, with one fixed name per UUID. */
  lemma {:induction false} FromCleanStart(lib: Library, inputs: seq<Input>, names: map<string, string>)
    requires forall k :: 0 <= k < |inputs| && inputs[k].fetched.Some? ==>
               && DistinctUuids(inputs[k].fetched.value)
               && NamedBy(map[], inputs[k].fetched.value, names)
               && DeletesSucceed(inputs[k].env)
    ensures var after := Run(lib, State(map[], CLEAN), inputs);
            Consistent(after.local, after.world) && Follows(after.local, names)
  {
    var start := State(map[], CLEAN);
    if inputs != [] {
      var n := |inputs| - 1;
      FromCleanStart(lib, inputs[..n], names);
      var before := Run(lib, start, inputs[..n]);
      if inputs[n].fetched.Some? {
        var fetched := inputs[n].fetched.value;
        NamedTogether(before.local, fetched, names);
        RemoteAllNames(lib, before.local, before.world, fetched, inputs[n].env, before.local, names);
        SyncShape(lib, before, fetched, inputs[n].env);
        assert inputs[n] == Input(Some(fetched), inputs[n].env);
      }
      hide Sync, Consistent, NamedBy, Follows;
      assert Orderly(before, inputs[n], names);
      SyncConsistent(lib, before, inputs[n], names);
    }
  }

  lemma NamedTogether(local: map<string, Session>, fetched: seq<Session>, names: map<string, string>)
    requires Follows(local, names) && NamedBy(map[], fetched, names)
    ensures NamedBy(local, fetched, names)
  {
  }

  // ---------------------------------------------------------------------------------------
  // When a name passes from a removed session to a new one in one sync.
  // ---------------------------------------------------------------------------------------

  /** The local sessions that stay listed. */
  function Kept(local: map<string, Session>, fetched: seq<Session>): map<string, Session> {
    map u | u in local && u in Uuids(fetched) :: local[u]
  }

  lemma ExtendServed(lib: Library, local: map<string, Session>, view: map<string, Session>, w: World, s: Session, o: Outcome)
    requires Served(view, w) && Ready(local, view, s) && Named(view)
    requires o.delete.linkDeleted && o.delete.fileRemoved
    ensures var (s', w') := Remote(lib, local, w, s, o);
            Served(view[s.uuid := s'], w') && Named(view[s.uuid := s'])
  {
    var (s', w') := Remote(lib, local, w, s, o);
    RemoteRecord(lib, local, w, s, o);
    if s.uuid in local {
      ChangedEffect(lib, w, s, local[s.uuid], o);
    } else {
      NewEffect(lib, w, s, o);
      assert Effect(w, w', false, s', s');
    }
    hide Remote, Effect, Served;
    assert Setup(s').iface == s.iface && Setup(s').uuid == s.uuid;
    assert Effect(w, w', s.uuid in view, if s.uuid in view then view[s.uuid] else s', s');
    assert Named(view[s'.uuid := s']);
    StepServed(view, w, w', s');
  }

  /** The sessions kept are those of the local map that are listed, each under its own name. */
  ghost predicate Keeps(local: map<string, Session>, fetched: seq<Session>, kept: map<string, Session>) {
    && (forall u :: u in kept ==> u in local && local[u] == kept[u])
    && (forall i :: 0 <= i < |fetched| && fetched[i].uuid in local ==> fetched[i].uuid in kept)
  }

  lemma KeepsInit(local: map<string, Session>, fetched: seq<Session>, kept: map<string, Session>)
    requires Keeps(local, fetched, kept) && fetched != []
    ensures Keeps(local, fetched[..|fetched| - 1], kept)
  {
    var init := fetched[..|fetched| - 1];
    forall i | 0 <= i < |init| && init[i].uuid in local
      ensures init[i].uuid in kept
    {
      assert init[i] == fetched[i];
    }
  }

  lemma KeptReady(lib: Library, local: map<string, Session>, w: World, fetched: seq<Session>, env: Environment, names: map<string, string>, kept: map<string, Session>)
    requires DistinctUuids(fetched) && NamedBy(kept, fetched, names) && fetched != [] && Keeps(local, fetched, kept)
    ensures var n := |fetched| - 1;
            Ready(local, kept + RemoteAll(lib, local, w, fetched[..n], env).0, fetched[n])
  {
    var n := |fetched| - 1;
    var next := RemoteAll(lib, local, w, fetched[..n], env).0;
    NamedInit(kept, fetched, names);
    RemoteAllKeys(lib, local, w, fetched[..n], env);
    RemoteAllNames(lib, local, w, fetched[..n], env, kept, names);
    NotAmong(fetched, n);
    LastReady(kept, next, fetched, names);
    hide RemoteAll, NamedBy, Follows;
    assert fetched[n].uuid in local ==> fetched[n].uuid in kept;
  }

  lemma ExtendKept(lib: Library, local: map<string, Session>, kept: map<string, Session>, next: map<string, Session>, w: World, s: Session, o: Outcome)
    requires Served(kept + next, w) && Ready(local, kept + next, s) && Named(kept + next)
    requires o.delete.linkDeleted && o.delete.fileRemoved
    ensures var (s', w') := Remote(lib, local, w, s, o);
            Served(kept + next[s.uuid := s'], w') && Named(kept + next[s.uuid := s'])
  {
    ExtendServed(lib, local, kept + next, w, s, o);
    hide Remote, Served, Named, Ready;
    var s' := Remote(lib, local, w, s, o).0;
    assert kept + next[s.uuid := s'] == (kept + next)[s.uuid := s'];
  }

  lemma {:induction false} RemoteAllServed(lib: Library, local: map<string, Session>, w: World, fetched: seq<Session>, env: Environment, names: map<string, string>, kept: map<string, Session>)
    requires DistinctUuids(fetched) && NamedBy(kept, fetched, names) && DeletesSucceed(env)
    requires Served(kept, w) && Named(kept) && Keeps(local, fetched, kept)
    ensures var (next, w') := RemoteAll(lib, local, w, fetched, env);
            Served(kept + next, w') && Named(kept + next)
  {
    if fetched == [] {
      assert kept + map[] == kept;
    } else {
      hide Remote, Served, Named, NamedBy, Ready, DeletesSucceed, DistinctUuids, Keeps;
      var n := |fetched| - 1;
      NamedInit(kept, fetched, names);
      DistinctInit(fetched);
      KeepsInit(local, fetched, kept);
      RemoteAllServed(lib, local, w, fetched[..n], env, names, kept);
      var (next, w1) := RemoteAll(lib, local, w, fetched[..n], env);
      KeptReady(lib, local, w, fetched, env, names, kept);
      DeletesSucceedAt(env, n);
      ExtendKept(lib, local, kept, next, w1, fetched[n], env.remote(n));
    }
  }

  /** The removals come last: a session that ends ENABLED has its resources afterwards exactly when
      no session removed in the same sync has the same sanitised name. */
  lemma EnabledSurvivesRemoval(lib: Library, st: State, fetched: seq<Session>, env: Environment, names: map<string, string>, u: string)
    requires DistinctUuids(fetched) && DeletesSucceed(env)
    requires var kept := Kept(st.local, fetched);
             NamedBy(kept, fetched, names) && Named(kept) && Served(kept, st.world)
    ensures var after := Sync(lib, st, Input(Some(fetched), env));
            u in after.local && after.local[u].status == ENABLED ==>
              (Holds(after.world, after.local[u])
               <==> forall g :: g in st.local && g !in Uuids(fetched) ==> Apart(st.local[g], after.local[u]))
  {
    var kept := Kept(st.local, fetched);
    KeptKeeps(st.local, fetched);
    hide NamedBy, Named, Kept, Keeps, DistinctUuids, DeletesSucceed;
    RemoteAllServed(lib, st.local, st.world, fetched, env, names, kept);
    var (next, w) := RemoteAll(lib, st.local, st.world, fetched, env);
    if u in next && next[u].status == ENABLED {
      ServedAt(kept, next, w, u);
      HoldsAfterRemoval(st.local, w, st.local.Keys - Uuids(fetched), env, next[u]);
    }
  }

  lemma KeptKeeps(local: map<string, Session>, fetched: seq<Session>)
    ensures Keeps(local, fetched, Kept(local, fetched))
  {
    forall i | 0 <= i < |fetched| && fetched[i].uuid in local
      ensures fetched[i].uuid in Kept(local, fetched)
    {
      UuidAt(fetched, i);
    }
  }

  lemma ServedAt(kept: map<string, Session>, next: map<string, Session>, w: World, u: string)
    requires Served(kept + next, w) && u in next && next[u].status == ENABLED
    ensures Holds(w, next[u])
  {
    assert (kept + next)[u] == next[u];
  }

  lemma HoldsAfterRemoval(local: map<string, Session>, w: World, gone: set<string>, env: Environment, s: Session)
    requires gone <= local.Keys && DeletesSucceed(env) && Holds(w, s)
    ensures Holds(RemoveAll(local, w, gone, env), s) <==> forall g :: g in gone ==> Apart(local[g], s)
  {
    var w' := RemoveAll(local, w, gone, env);
    assert s.iface in w'.interfaces <==> forall g :: g in gone ==> local[g].iface != s.iface;
    assert Sanitize(s.iface) in w'.files <==> forall g :: g in gone ==> Sanitize(local[g].iface) != Sanitize(s.iface);
  }

  /** So handing a removed session's name to a new one leaves the new one ENABLED with nothing,
      although every operation succeeded. */
  lemma ReusedNameLosesResources(lib: Library, prior: Session, s: Session, w: World, env: Environment)
    requires s.uuid != prior.uuid && s.iface == prior.iface
    requires ValidInputs(lib, s) && WantsSetup(s.status) && BirdConfig.NeighborAddress(s).Some?
    requires DeletesSucceed(env) && env.remote(0).configure == ConfigureOutcome(true, true, true, true, true, true, true)
    ensures var after := Sync(lib, State(map[prior.uuid := prior], w), Input(Some([s]), env));
            && s.uuid in after.local && after.local[s.uuid].status == ENABLED
            && HoldsNothing(after.world, after.local[s.uuid])
  {
    var local := map[prior.uuid := prior];
    SetUpSucceeds(lib, w, s, env.remote(0));
    RemoteRecord(lib, local, w, s, env.remote(0));
    var (s', w1) := Remote(lib, local, w, s, env.remote(0));
    OnlyOne(lib, local, w, s, env);
    hide Remote, RemoteAll;
    assert Setup(s').iface == s.iface;
    RemovedWith(local, w1, local.Keys - {s.uuid}, env, prior.uuid, s');
  }

  lemma {:induction false} OnlyOne(lib: Library, local: map<string, Session>, w: World, s: Session, env: Environment)
    ensures var (s', w') := Remote(lib, local, w, s, env.remote(0));
            RemoteAll(lib, local, w, [s], env) == (map[s.uuid := s'], w') && Uuids([s]) == {s.uuid}
  {
    hide Remote;
    assert [s][..0] == [];
    assert RemoteAll(lib, local, w, [], env) == (map[], w);
    assert [s][0] == s;
  }

  lemma RemovedWith(local: map<string, Session>, w: World, gone: set<string>, env: Environment, g: string, s: Session)
    requires gone <= local.Keys && g in gone && DeletesSucceed(env) && local[g].iface == s.iface
    ensures HoldsNothing(RemoveAll(local, w, gone, env), s)
  {
  }

  lemma SetUpSucceeds(lib: Library, w: World, s: Session, o: Outcome)
    requires ValidInputs(lib, s) && WantsSetup(s.status) && BirdConfig.NeighborAddress(s).Some?
    requires o.configure == ConfigureOutcome(true, true, true, true, true, true, true)
    ensures New(lib, w, s, o).0.status == ENABLED
  {
    ConfigureSucceeds(w, s, o.configure);
    hide Configure;
  }

  lemma ConfigureSucceeds(w: World, s: Session, o: ConfigureOutcome)
    requires o == ConfigureOutcome(true, true, true, true, true, true, true)
    requires s.linkType == "gre" || s.linkType == "ip6gre" || (s.linkType == "wireguard" && s.credential != "")
    requires BirdConfig.NeighborAddress(s).Some?
    ensures Configure(w, s, o).1
  {
  }

  /** What the handling of a renamed session does under its old name depends on its new record: the old
      interface and file are deleted for a record that is off, or turned down as invalid, or queued for
      deletion, and otherwise stay as they were. */
  predicate LeavesOldName(lib: Library, s: Session) {
    ValidInputs(lib, s) && !IsOff(s.status) && s.status != QUEUED_FOR_DELETE
  }

  /** What is under the old name goes only by a successful deletion. */
  ghost predicate OldNameFate(w: World, w': World, s: Session, prior: Session, deletes: bool, o: DeleteOutcome) {
    && (prior.iface in w'.interfaces <==> prior.iface in w.interfaces && !(deletes && o.linkDeleted))
    && (prior.iface in w'.interfaces ==> w'.interfaces[prior.iface] == w.interfaces[prior.iface])
    && (Apart(s, prior) ==>
          && (Sanitize(prior.iface) in w'.files <==> Sanitize(prior.iface) in w.files && !(deletes && o.fileRemoved))
          && (Sanitize(prior.iface) in w'.files ==> w'.files[Sanitize(prior.iface)] == w.files[Sanitize(prior.iface)]))
  }

  lemma RenamedApply(w: World, s: Session, prior: Session, o: Outcome)
    requires s.iface != prior.iface
    ensures OldNameFate(w, Apply(w, s, prior, o).1, s, prior, IsOff(s.status) || s.status == QUEUED_FOR_DELETE, o.delete)
  {
    SetUpElsewhere(w, s, o);
    hide SetUp;
  }

  lemma RenamedChanged(lib: Library, w: World, s: Session, prior: Session, o: Outcome)
    requires s.uuid == prior.uuid && s.iface != prior.iface
    ensures OldNameFate(w, Changed(lib, w, s, prior, o).1, s, prior, !LeavesOldName(lib, s), o.delete)
  {
    var (t, w1) := Checked(lib, w, s, o);
    RenamedApply(w, s, prior, o);
    RenamedApply(w1, t, prior, o);
    hide Apply, ValidInputs;
  }

  lemma SetUpElsewhere(w: World, s: Session, o: Outcome)
    ensures SameElsewhere(w, SetUp(w, s, o).1, s)
  {
  }

  /** A renamed session leaves its old interface exactly if its new record is valid, not off and not
      queued for deletion, or the deletion fails; and then as it was. */
  lemma RenameKeepsOldInterface(lib: Library, w: World, s: Session, prior: Session, o: Outcome)
    requires s.uuid == prior.uuid && s.iface != prior.iface && prior.iface in w.interfaces
    ensures var w' := Changed(lib, w, s, prior, o).1;
            && (prior.iface in w'.interfaces <==> LeavesOldName(lib, s) || !o.delete.linkDeleted)
            && (prior.iface in w'.interfaces ==> w'.interfaces[prior.iface] == w.interfaces[prior.iface])
  {
    RenamedChanged(lib, w, s, prior, o);
    hide Changed, LeavesOldName;
  }

  /** The same holds of its old file, if the names still differ after sanitising; otherwise the file is
      the session's own. */
  lemma RenameKeepsOldFile(lib: Library, w: World, s: Session, prior: Session, o: Outcome)
    requires s.uuid == prior.uuid && Apart(s, prior) && Sanitize(prior.iface) in w.files
    ensures var (w', file) := (Changed(lib, w, s, prior, o).1, Sanitize(prior.iface));
            && (file in w'.files <==> LeavesOldName(lib, s) || !o.delete.fileRemoved)
            && (file in w'.files ==> w'.files[file] == w.files[file])
  {
    RenamedChanged(lib, w, s, prior, o);
    hide Changed, LeavesOldName;
  }
}
