/** Session reconciliation: one sync drives the local sessions, the kernel interfaces and the
    BIRD configuration files towards the list held by the center.

    The outside world is two maps, from interface and from file name to the session record each
    was last set up with, and a count or list of the calls made. Whether each outside operation
    succeeds is an input. */
module SessionSync {
  import opened Sessions
  import BirdConfig

  const MIN_MTU := 1280
  const MAX_MTU := 9999
  const ASN_MAX := 4294967295

  // ---------------------------------------------------------------------------------------
  // Validation.
  // ---------------------------------------------------------------------------------------

  /** Library parsers the validators call. */
  datatype Library = Library(
    isIP: string -> bool,
    splitHostPort: string -> Option<(string, string)>,
    atoi: string -> Option<int>,
    isHostname: string -> bool,
    isBase64: string -> bool)

  predicate ValidInterfaceName(name: string) {
    1 <= |name| <= 15
    && forall i :: 0 <= i < |name| ==>
      'a' <= name[i] <= 'z' || 'A' <= name[i] <= 'Z' || '0' <= name[i] <= '9' || name[i] in "._-"
  }

  predicate IsLinkLocal(ip: string) {
    |ip| >= 5 && ip[0] in "fF" && ip[1] in "eE" && ip[2..5] == "80:"
  }

  predicate ValidIPIfGiven(lib: Library, ip: string) {
    ip == "" || lib.isIP(ip)
  }

  predicate ValidEndpoint(lib: Library, endpoint: string, linkType: string) {
    if endpoint == "" then linkType == "wireguard"
    else
      match lib.splitHostPort(endpoint)
      case None => (linkType == "gre" || linkType == "ip6gre") && lib.isIP(endpoint)
      case Some((host, port)) =>
        && lib.atoi(port).Some?
        && 1 <= lib.atoi(port).value <= 65535
        && (lib.isIP(host) || (|host| <= 253 && lib.isHostname(host)))
  }

  predicate ValidCredential(lib: Library, linkType: string, credential: string) {
    if linkType == "wireguard" then credential != "" && lib.isBase64(credential)
    else linkType == "gre" || linkType == "ip6gre"
  }

  predicate ValidInputs(lib: Library, s: Session) {
    && ValidInterfaceName(s.iface)
    && ValidIPIfGiven(lib, s.ipv4)
    && ValidIPIfGiven(lib, s.ipv6)
    && !IsLinkLocal(s.ipv6)
    && ValidIPIfGiven(lib, s.ipv6LinkLocal)
    && (s.ipv6LinkLocal != "" ==> IsLinkLocal(s.ipv6LinkLocal))
    && ValidEndpoint(lib, s.endpoint, s.linkType)
    && ValidCredential(lib, s.linkType, s.credential)
    && MIN_MTU <= s.mtu <= MAX_MTU
    && 1 <= s.asn <= ASN_MAX
  }

  // ---------------------------------------------------------------------------------------
  // The world outside, and what each operation does to it.
  // ---------------------------------------------------------------------------------------

  datatype Report = Report(uuid: string, status: int, delivered: bool)

  datatype World = World(
    interfaces: map<string, Session>,
    files: map<string, Session>,
    configures: nat,
    deletes: nat,
    reports: seq<Report>)

  const CLEAN := World(map[], map[], 0, 0, [])

  /** Success of: deleting an old link, adding the link, programming it; removing the old file,
      having a template, creating the file, rendering it. */
  datatype ConfigureOutcome = ConfigureOutcome(
    linkCleared: bool, linkAdded: bool, linkProgrammed: bool,
    fileCleared: bool, templateLoaded: bool, fileCreated: bool, fileRendered: bool)

  /** Success of: listing the interfaces, deleting the link, removing the file. */
  datatype DeleteOutcome = DeleteOutcome(listed: bool, linkDeleted: bool, fileRemoved: bool)

  datatype Outcome = Outcome(teardownDelivered: bool, configure: ConfigureOutcome, delete: DeleteOutcome, delivered: bool)

  datatype Environment = Environment(remote: nat -> Outcome, gone: string -> DeleteOutcome)

  /** The record with its status masked: what a resource was set up with. */
  function Setup(s: Session): Session {
    s.(status := 0)
  }

  function ConfigureInterface(w: World, s: Session, o: ConfigureOutcome): (World, bool) {
    if !(s.linkType == "wireguard" && s.credential != "") && s.linkType != "gre" && s.linkType != "ip6gre" then
      (w, false)
    else
      var cleared := if o.linkCleared then w.interfaces - {s.iface} else w.interfaces;
      if s.iface in cleared || !o.linkAdded then (w.(interfaces := cleared), false)
      else (w.(interfaces := cleared[s.iface := Setup(s)]), o.linkProgrammed)
  }

  function ConfigureFile(w: World, s: Session, o: ConfigureOutcome): (World, bool) {
    var file := Sanitize(s.iface);
    var cleared := if o.fileCleared then w.files - {file} else w.files;
    if !o.templateLoaded || !o.fileCreated then (w.(files := cleared), false)
    else
      (w.(files := cleared[file := Setup(s)]),
       o.fileRendered && !(IsMultiProtocol(s) && BirdConfig.NeighborAddress(s).None?))
  }

  function Configure(w: World, s: Session, o: ConfigureOutcome): (World, bool) {
    var (w1, up) := ConfigureInterface(w.(configures := w.configures + 1), s, o);
    if !up then (w1, false) else ConfigureFile(w1, s, o)
  }

  function Delete(w: World, s: Session, o: DeleteOutcome): (World, bool) {
    var file := Sanitize(s.iface);
    var linkOk := if s.iface in w.interfaces then o.linkDeleted else o.listed;
    var fileOk := file !in w.files || o.fileRemoved;
    (w.(interfaces := if o.linkDeleted then w.interfaces - {s.iface} else w.interfaces,
        files := if o.fileRemoved then w.files - {file} else w.files,
        deletes := w.deletes + 1),
     linkOk && fileOk)
  }

  function Send(w: World, uuid: string, status: int, delivered: bool): World {
    w.(reports := w.reports + [Report(uuid, status, delivered)])
  }

  // ---------------------------------------------------------------------------------------
  // One session.
  // ---------------------------------------------------------------------------------------

  function Checked(lib: Library, w: World, s: Session, o: Outcome): (Session, World) {
    if s.status != TEARDOWN && !ValidInputs(lib, s) then
      (s.(status := TEARDOWN), Send(w, s.uuid, TEARDOWN, o.teardownDelivered))
    else (s, w)
  }

  /** Set-up with its report: success means ENABLED, failure PROBLEM. */
  function SetUp(w: World, s: Session, o: Outcome): (Session, World) {
    var (w1, ok) := Configure(w, s, o.configure);
    var status := if ok then ENABLED else PROBLEM;
    (s.(status := status), Send(w1, s.uuid, status, o.delivered))
  }

  predicate WantsSetup(status: int) {
    status == QUEUED_FOR_SETUP || status == ENABLED || status == PROBLEM
  }

  /** Statuses under which a session holds no resource. */
  predicate IsOff(status: int) {
    status == DISABLED || status == DELETED || status == TEARDOWN
  }

  /** What a validated new session's status asks for. */
  function Adopt(w: World, s: Session, o: Outcome): (Session, World) {
    if WantsSetup(s.status) then SetUp(w, s, o)
    else if s.status == QUEUED_FOR_DELETE then
      (if o.delivered then s.(status := DELETED) else s, Send(w, s.uuid, DELETED, o.delivered))
    else (s, w)
  }

  function New(lib: Library, w: World, fetched: Session, o: Outcome): (Session, World) {
    var (s, w1) := Checked(lib, w, fetched, o);
    Adopt(w1, s, o)
  }

  predicate DeletingTornDown(fetched: Session, prior: Session) {
    prior.status == TEARDOWN && (fetched.status == QUEUED_FOR_DELETE || fetched.status == DELETED)
  }

  /** What a changed session's status, validated unless exempt, asks for. */
  function Apply(w: World, s: Session, prior: Session, o: Outcome): (Session, World) {
    if WantsSetup(s.status) then SetUp(w, s, o)
    else if IsOff(s.status) then (s, Delete(w, prior, o.delete).0)
    else if s.status == QUEUED_FOR_DELETE then
      (s.(status := DELETED), Send(Delete(w, prior, o.delete).0, s.uuid, DELETED, o.delivered))
    else (s, w)
  }

  function Changed(lib: Library, w: World, fetched: Session, prior: Session, o: Outcome): (Session, World) {
    if fetched == prior then (fetched, w)
    else if DeletingTornDown(fetched, prior) then Apply(w, fetched, prior, o)
    else
      var (s, w1) := Checked(lib, w, fetched, o);
      Apply(w1, s, prior, o)
  }

  function Remote(lib: Library, local: map<string, Session>, w: World, s: Session, o: Outcome): (Session, World) {
    if s.uuid in local then Changed(lib, w, s, local[s.uuid], o) else New(lib, w, s, o)
  }

  // ---------------------------------------------------------------------------------------
  // A whole sync, and runs of syncs.
  // ---------------------------------------------------------------------------------------

  function Uuids(fetched: seq<Session>): set<string> {
    set s | s in fetched :: s.uuid
  }

  function RemoteAll(lib: Library, local: map<string, Session>, w: World, fetched: seq<Session>, env: Environment): (map<string, Session>, World) {
    if fetched == [] then (map[], w)
    else
      var n := |fetched| - 1;
      var (next, w1) := RemoteAll(lib, local, w, fetched[..n], env);
      var (s, w2) := Remote(lib, local, w1, fetched[n], env.remote(n));
      (next[fetched[n].uuid := s], w2)
  }

  /** The removal of a set of local sessions, in whatever order. */
  function RemoveAll(local: map<string, Session>, w: World, gone: set<string>, env: Environment): World
    requires gone <= local.Keys
  {
    w.(interfaces := map n | n in w.interfaces
                       && (forall u :: u in gone ==> local[u].iface != n || !env.gone(u).linkDeleted) :: w.interfaces[n],
       files := map n | n in w.files
                  && (forall u :: u in gone ==> Sanitize(local[u].iface) != n || !env.gone(u).fileRemoved) :: w.files[n],
       deletes := w.deletes + |gone|)
  }

  datatype State = State(local: map<string, Session>, world: World)

  datatype Input = Input(fetched: Option<seq<Session>>, env: Environment)

  function Sync(lib: Library, st: State, input: Input): State {
    match input.fetched
    case None => st
    case Some(fetched) =>
      var (next, w) := RemoteAll(lib, st.local, st.world, fetched, input.env);
      State(next, RemoveAll(st.local, w, st.local.Keys - Uuids(fetched), input.env))
  }

  function Run(lib: Library, st: State, inputs: seq<Input>): State {
    if inputs == [] then st
    else Sync(lib, Run(lib, st, inputs[..|inputs| - 1]), inputs[|inputs| - 1])
  }

  // ---------------------------------------------------------------------------------------
  // The agent, step by step.
  // ---------------------------------------------------------------------------------------

  class Agent {
    const lib: Library
    var localSessions: map<string, Session>
    var world: World

    constructor (lib: Library)
      ensures this.lib == lib && localSessions == map[] && world == CLEAN
    {
      this.lib := lib;
      localSessions, world := map[], CLEAN;
    }

    method DeleteInterface(name: string, listed: bool, linkDeleted: bool) returns (ok: bool)
      modifies this`world
      ensures world == old(world).(interfaces := if linkDeleted then old(world).interfaces - {name} else old(world).interfaces)
      ensures ok == if name in old(world).interfaces then linkDeleted else listed
    {
      var present := name in world.interfaces;
      if listed && !present {
        assert world.interfaces - {name} == world.interfaces;
        return true;
      }
      if linkDeleted {
        world := world.(interfaces := world.interfaces - {name});
      }
      return present && linkDeleted;
    }

    method ConfigureSession(s: Session, o: ConfigureOutcome) returns (ok: bool)
      modifies this`world
      ensures (world, ok) == Configure(old(world), s, o)
    {
      world := world.(configures := world.configures + 1);
      if s.linkType != "wireguard" && s.linkType != "gre" && s.linkType != "ip6gre" {
        return false;
      }
      if s.linkType == "wireguard" && s.credential == "" {
        return false;
      }
      var _ := DeleteInterface(s.iface, true, o.linkCleared);
      if s.iface in world.interfaces || !o.linkAdded {
        return false;
      }
      world := world.(interfaces := world.interfaces[s.iface := Setup(s)]);
      if !o.linkProgrammed {
        return false;
      }
      var file := Sanitize(s.iface);
      if o.fileCleared {
        world := world.(files := world.files - {file});
      }
      if !o.templateLoaded || !o.fileCreated {
        return false;
      }
      world := world.(files := world.files[file := Setup(s)]);
      if s.extensions.Has("mp-bgp") && BirdConfig.NeighborAddress(s).None? {
        return false;
      }
      return o.fileRendered;
    }

    method DeleteSession(s: Session, o: DeleteOutcome) returns (ok: bool)
      modifies this`world
      ensures (world, ok) == Delete(old(world), s, o)
    {
      world := world.(deletes := world.deletes + 1);
      var linkOk := DeleteInterface(s.iface, o.listed, o.linkDeleted);
      var file := Sanitize(s.iface);
      var fileOk := file !in world.files || o.fileRemoved;
      if o.fileRemoved {
        world := world.(files := world.files - {file});
      }
      if !linkOk {
        return false;
      }
      return fileOk;
    }

    method ReportNewStatus(uuid: string, status: int, delivered: bool) returns (ok: bool)
      modifies this`world
      ensures world == Send(old(world), uuid, status, delivered) && ok == delivered
    {
      world := world.(reports := world.reports + [Report(uuid, status, delivered)]);
      return delivered;
    }

    method CheckAndValidate(fetched: Session, o: Outcome) returns (s: Session)
      modifies this`world
      ensures (s, world) == Checked(lib, old(world), fetched, o)
    {
      s := fetched;
      if s.status != TEARDOWN && !ValidInputs(lib, s) {
        s := s.(status := TEARDOWN);
        var _ := ReportNewStatus(s.uuid, TEARDOWN, o.teardownDelivered);
      }
    }

    method ProcessNewSession(fetched: Session, nextLocal: map<string, Session>, o: Outcome) returns (next: map<string, Session>)
      modifies this`world
      ensures var (s, w) := New(lib, old(world), fetched, o);
              next == nextLocal[s.uuid := s] && world == w
    {
      var s := CheckAndValidate(fetched, o);
      if s.status == QUEUED_FOR_SETUP {
        var ok := ConfigureSession(s, o.configure);
        s := s.(status := if ok then ENABLED else PROBLEM);
        var _ := ReportNewStatus(s.uuid, s.status, o.delivered);
      } else if s.status == ENABLED {
        var ok := ConfigureSession(s, o.configure);
        if !ok {
          s := s.(status := PROBLEM);
          var _ := ReportNewStatus(s.uuid, s.status, o.delivered);
        } else {
          var _ := ReportNewStatus(s.uuid, ENABLED, o.delivered);
        }
      } else if s.status == PROBLEM {
        var ok := ConfigureSession(s, o.configure);
        if !ok {
          var _ := ReportNewStatus(s.uuid, PROBLEM, o.delivered);
        } else {
          s := s.(status := ENABLED);
          var _ := ReportNewStatus(s.uuid, s.status, o.delivered);
        }
      } else if s.status == QUEUED_FOR_DELETE {
        var ok := ReportNewStatus(s.uuid, DELETED, o.delivered);
        if ok {
          s := s.(status := DELETED);
        }
      }
      next := nextLocal[s.uuid := s];
    }

    method ProcessChangedSession(fetched: Session, prior: Session, nextLocal: map<string, Session>, o: Outcome) returns (next: map<string, Session>)
      modifies this`world
      ensures var (s, w) := Changed(lib, old(world), fetched, prior, o);
              next == nextLocal[s.uuid := s] && world == w
    {
      if fetched == prior {
        return nextLocal[fetched.uuid := fetched];
      }
      var deletingTornDown := prior.status == TEARDOWN && (fetched.status == QUEUED_FOR_DELETE || fetched.status == DELETED);
      var s := fetched;
      if !deletingTornDown {
        s := CheckAndValidate(fetched, o);
      }
      if s.status == DISABLED || s.status == DELETED || s.status == TEARDOWN {
        var _ := DeleteSession(prior, o.delete);
      } else if s.status == QUEUED_FOR_DELETE {
        var _ := DeleteSession(prior, o.delete);
        s := s.(status := DELETED);
        var _ := ReportNewStatus(s.uuid, DELETED, o.delivered);
      } else if s.status == QUEUED_FOR_SETUP {
        var ok := ConfigureSession(s, o.configure);
        s := s.(status := if ok then ENABLED else PROBLEM);
        var _ := ReportNewStatus(s.uuid, s.status, o.delivered);
      } else if s.status == ENABLED {
        var ok := ConfigureSession(s, o.configure);
        if !ok {
          s := s.(status := PROBLEM);
          var _ := ReportNewStatus(s.uuid, s.status, o.delivered);
        } else {
          var _ := ReportNewStatus(s.uuid, ENABLED, o.delivered);
        }
      } else if s.status == PROBLEM {
        var ok := ConfigureSession(s, o.configure);
        if !ok {
          var _ := ReportNewStatus(s.uuid, PROBLEM, o.delivered);
        } else {
          s := s.(status := ENABLED);
          var _ := ReportNewStatus(s.uuid, s.status, o.delivered);
        }
      }
      next := nextLocal[s.uuid := s];
    }

    /** The first loop of a sync. */
    method ProcessRemoteSessions(remote: seq<Session>, env: Environment) returns (nextLocal: map<string, Session>, seen: set<string>)
      modifies this`world
      ensures (nextLocal, world) == RemoteAll(lib, localSessions, old(world), remote, env)
      ensures seen == Uuids(remote)
    {
      hide New, Changed, Uuids;
      nextLocal, seen := map[], {};
      NoUuids();
      for i := 0 to |remote|
        invariant (nextLocal, world) == RemoteAll(lib, localSessions, old(world), remote[..i], env)
        invariant seen == Uuids(remote[..i])
      {
        var s := remote[i];
        RemoteOneMore(lib, localSessions, old(world), remote, i, env);
        seen := seen + {s.uuid};
        RemoteUuid(lib, localSessions, world, s, env.remote(i));
        if s.uuid !in localSessions {
          nextLocal := ProcessNewSession(s, nextLocal, env.remote(i));
        } else {
          nextLocal := ProcessChangedSession(s, localSessions[s.uuid], nextLocal, env.remote(i));
        }
      }
      assert remote[..|remote|] == remote;
    }

    method ProcessDeletedSession(uuid: string, env: Environment, ghost w: World, ghost done: set<string>)
      requires uuid in localSessions && uuid !in done && done <= localSessions.Keys
      requires world == RemoveAll(localSessions, w, done, env)
      modifies this`world
      ensures world == RemoveAll(localSessions, w, done + {uuid}, env)
    {
      RemoveOneMore(localSessions, w, done, uuid, env);
      var _ := DeleteSession(localSessions[uuid], env.gone(uuid));
    }

    /** The second loop; it runs in an arbitrary order, as a Go map is ranged over. */
    method ProcessDeletedSessions(seen: set<string>, env: Environment)
      modifies this`world
      ensures world == RemoveAll(localSessions, old(world), localSessions.Keys - seen, env)
    {
      ghost var w := world;
      RemoveNone(localSessions, w, env);
      var todo := localSessions.Keys;
      ghost var done := todo - todo - seen;
      assert done == {};
      while todo != {}
        invariant todo <= localSessions.Keys
        invariant done == localSessions.Keys - todo - seen
        invariant world == RemoveAll(localSessions, w, done, env)
        decreases todo
      {
        var uuid :| uuid in todo;
        TakeOne(localSessions.Keys, todo, seen, uuid);
        if uuid !in seen {
          ProcessDeletedSession(uuid, env, w, done);
          done := done + {uuid};
        }
        todo := todo - {uuid};
      }
    }

    method SyncSessions(input: Input)
      modifies this
      ensures State(localSessions, world) == Sync(lib, old(State(localSessions, world)), input)
    {
      if input.fetched.None? {
        return;
      }
      var nextLocal, seen := ProcessRemoteSessions(input.fetched.value, input.env);
      ProcessDeletedSessions(seen, input.env);
      localSessions := nextLocal;
    }
  }

  lemma NoUuids()
    ensures Uuids([]) == {}
  {
  }

  lemma RemoteUuid(lib: Library, local: map<string, Session>, w: World, s: Session, o: Outcome)
    ensures Remote(lib, local, w, s, o).0.uuid == s.uuid
  {
  }

  lemma {:induction false} RemoteOneMore(lib: Library, local: map<string, Session>, w: World, fetched: seq<Session>, i: nat, env: Environment)
    requires i < |fetched|
    ensures var (next, w1) := RemoteAll(lib, local, w, fetched[..i], env);
            var (s, w2) := Remote(lib, local, w1, fetched[i], env.remote(i));
            RemoteAll(lib, local, w, fetched[..i + 1], env) == (next[fetched[i].uuid := s], w2)
    ensures Uuids(fetched[..i + 1]) == Uuids(fetched[..i]) + {fetched[i].uuid}
  {
    assert fetched[..i + 1][..i] == fetched[..i];
    var (_, w1) := RemoteAll(lib, local, w, fetched[..i], env);
    assert Remote(lib, local, w1, fetched[i], env.remote(i)).0.uuid == fetched[i].uuid;
    assert fetched[..i + 1] == fetched[..i] + [fetched[i]];
  }

  lemma TakeOne<T>(keys: set<T>, todo: set<T>, seen: set<T>, u: T)
    requires todo <= keys && u in todo
    ensures todo - {u} <= keys && todo - {u} < todo
    ensures keys - (todo - {u}) - seen == if u in seen then keys - todo - seen else keys - todo - seen + {u}
    ensures u !in keys - todo - seen
  {
  }

  lemma RemoveNone(local: map<string, Session>, w: World, env: Environment)
    ensures RemoveAll(local, w, {}, env) == w
  {
    var r := RemoveAll(local, w, {}, env);
    assert r.interfaces == w.interfaces && r.files == w.files;
  }

  lemma RemoveOneMore(local: map<string, Session>, w: World, gone: set<string>, u: string, env: Environment)
    requires gone <= local.Keys && u in local && u !in gone
    ensures RemoveAll(local, w, gone + {u}, env) == Delete(RemoveAll(local, w, gone, env), local[u], env.gone(u)).0
  {
    var r := RemoveAll(local, w, gone + {u}, env);
    var d := Delete(RemoveAll(local, w, gone, env), local[u], env.gone(u)).0;
    assert r.interfaces == d.interfaces;
    assert r.files == d.files;
    assert |gone + {u}| == |gone| + 1;
  }
}
