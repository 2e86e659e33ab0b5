/** What processing one session of the list does, status by status: 0 DELETED, 1 DISABLED, 2 ENABLED,
    4 QUEUED_FOR_SETUP, 5 QUEUED_FOR_DELETE, 6 PROBLEM, 7 TEARDOWN. */
module SessionHandling {
  import opened Sessions
  import opened SessionSync

  /** The session is new, or differs from its local record. */
  predicate NewOrChanged(local: map<string, Session>, s: Session) {
    s.uuid !in local || local[s.uuid] != s
  }

  /** A session is validated unless it is torn down already, or was and is now to be deleted. */
  predicate Admitted(lib: Library, local: map<string, Session>, s: Session) {
    || s.status == 7
    || (s.uuid in local && local[s.uuid].status == 7 && (s.status == 5 || s.status == 0))
    || ValidInputs(lib, s)
  }

  predicate KnownLink(s: Session) {
    (s.linkType == "wireguard" && s.credential != "") || s.linkType == "gre" || s.linkType == "ip6gre"
  }

  predicate StartsLikeLinkLocal(ip: string) {
    |ip| >= 5 && ip[0] in "fF" && ip[1] in "eE" && ip[2] == '8' && ip[3] == '0' && ip[4] == ':'
  }

  /** What may be wrong with an endpoint: only WireGuard does without one; a bare address is for the tunnels;
      a port must be in range and a host an address or a host name. */
  predicate BadEndpoint(lib: Library, s: Session) {
    if s.endpoint == "" then s.linkType != "wireguard"
    else
      match lib.splitHostPort(s.endpoint)
      case None => s.linkType == "wireguard" || !lib.isIP(s.endpoint)
      case Some(parts) =>
        || lib.atoi(parts.1) == None || lib.atoi(parts.1).value < 1 || lib.atoi(parts.1).value > 65535
        || (!lib.isIP(parts.0) && (|parts.0| > 253 || !lib.isHostname(parts.0)))
  }

  /** A session fails validation exactly for one of these faults. */
  lemma InvalidIff(lib: Library, s: Session)
    ensures !ValidInputs(lib, s) <==>
            || s.iface == "" || |s.iface| > 15
            || (exists i :: 0 <= i < |s.iface| && !('a' <= s.iface[i] <= 'z') && !('A' <= s.iface[i] <= 'Z')
                            && !('0' <= s.iface[i] <= '9') && s.iface[i] != '.' && s.iface[i] != '_' && s.iface[i] != '-')
            || (s.ipv4 != "" && !lib.isIP(s.ipv4))
            || (s.ipv6 != "" && !lib.isIP(s.ipv6)) || StartsLikeLinkLocal(s.ipv6)
            || (s.ipv6LinkLocal != "" && (!lib.isIP(s.ipv6LinkLocal) || !StartsLikeLinkLocal(s.ipv6LinkLocal)))
            || s.linkType !in ["wireguard", "gre", "ip6gre"] || BadEndpoint(lib, s)
            || (s.linkType == "wireguard" && (s.credential == "" || !lib.isBase64(s.credential)))
            || s.mtu < 1280 || s.mtu > 9999 || s.asn < 1 || s.asn > 4294967295
  {
    LinkLocalForms(s.ipv6);
    LinkLocalForms(s.ipv6LinkLocal);
    EndpointForms(lib, s);
    hide ValidEndpoint, BadEndpoint, IsLinkLocal, StartsLikeLinkLocal;
  }

  lemma LinkLocalForms(ip: string)
    ensures IsLinkLocal(ip) <==> StartsLikeLinkLocal(ip)
  {
    if |ip| >= 5 {
      assert ip[2..5] == [ip[2], ip[3], ip[4]];
    }
  }

  lemma EndpointForms(lib: Library, s: Session)
    ensures s.linkType in ["wireguard", "gre", "ip6gre"] ==> (BadEndpoint(lib, s) <==> !ValidEndpoint(lib, s.endpoint, s.linkType))
  {
  }

  /** For a valid session the kind of link is never what fails. */
  lemma ValidLink(lib: Library, s: Session)
    requires ValidInputs(lib, s)
    ensures KnownLink(s)
  {
  }

  /** Every step of the link succeeds: an old one of the name is cleared away, it is added and programmed. */
  predicate LinkComesUp(w: World, s: Session, o: ConfigureOutcome) {
    KnownLink(s) && (s.iface !in w.interfaces || o.linkCleared) && o.linkAdded && o.linkProgrammed
  }

  /** Every step of the file succeeds; a multi-protocol session needs some address. */
  predicate FileIsWritten(s: Session, o: ConfigureOutcome) {
    && o.templateLoaded && o.fileCreated && o.fileRendered
    && (s.extensions.Has("mp-bgp") ==> s.ipv6LinkLocal != "" || s.ipv6 != "" || s.ipv4 != "")
  }

  /** What a set-up leaves of the link and of the file, however far it gets. */
  predicate SetUpLeaves(w: World, w': World, s: Session, o: ConfigureOutcome) {
    && (s.iface in w'.interfaces <==>
          if s.iface in w.interfaces && KnownLink(s) && o.linkCleared then o.linkAdded
          else s.iface in w.interfaces || (KnownLink(s) && o.linkAdded))
    && (LinkComesUp(w, s, o) ==> w'.interfaces[s.iface] == s.(status := 0))
    && w'.interfaces - {s.iface} == w.interfaces - {s.iface}
    && var file := Sanitize(s.iface);
       && (!LinkComesUp(w, s, o) ==> w'.files == w.files)
       && (LinkComesUp(w, s, o) && o.templateLoaded && o.fileCreated ==> file in w'.files && w'.files[file] == s.(status := 0))
       && (LinkComesUp(w, s, o) && !(o.templateLoaded && o.fileCreated) ==>
             (file in w'.files <==> file in w.files && !o.fileCleared) && (file in w'.files ==> w'.files[file] == w.files[file]))
       && w'.files - {file} == w.files - {file}
  }

  /** Statuses 2, 4 and 6 of a new or changed session, once admitted: one attempt to set it up and one
      report, ENABLED exactly if every step succeeds and PROBLEM otherwise. */
  lemma SetUpHandled(lib: Library, local: map<string, Session>, w: World, s: Session, o: Outcome)
    requires NewOrChanged(local, s) && Admitted(lib, local, s) && (s.status == 2 || s.status == 4 || s.status == 6)
    ensures var (s', w') := Remote(lib, local, w, s, o);
            && s' == s.(status := if LinkComesUp(w, s, o.configure) && FileIsWritten(s, o.configure) then 2 else 6)
            && w'.configures == w.configures + 1 && w'.deletes == w.deletes
            && w'.reports == w.reports + [Report(s.uuid, s'.status, o.delivered)]
            && SetUpLeaves(w, w', s, o.configure)
  {
    hide ValidInputs, Sanitize;
    var (w', ok) := Configure(w, s, o.configure);
    assert ok <==> LinkComesUp(w, s, o.configure) && FileIsWritten(s, o.configure);
    SetUpEffects(w, s, o.configure);
    hide Configure, LinkComesUp, FileIsWritten;
  }

  lemma SetUpEffects(w: World, s: Session, o: ConfigureOutcome)
    ensures var w' := Configure(w, s, o).0;
            w'.configures == w.configures + 1 && w'.deletes == w.deletes && w'.reports == w.reports && SetUpLeaves(w, w', s, o)
  {
    hide Sanitize;
    var cleared := w.interfaces - {s.iface};
    assert cleared - {s.iface} == cleared;
    assert cleared[s.iface := Setup(s)] - {s.iface} == cleared;
    assert s.iface !in w.interfaces ==> w.interfaces[s.iface := Setup(s)] - {s.iface} == cleared;
    var file := Sanitize(s.iface);
    var rest := w.files - {file};
    assert rest - {file} == rest && w.files[file := Setup(s)] - {file} == rest && rest[file := Setup(s)] - {file} == rest;
  }

  /** Status 5: a new session is reported deleted, and is so if the report gets through; a changed one is
      removed first, and is deleted whether the report gets through or not. */
  lemma DeleteHandled(lib: Library, local: map<string, Session>, w: World, s: Session, o: Outcome)
    requires NewOrChanged(local, s) && Admitted(lib, local, s) && s.status == 5
    ensures var (s', w') := Remote(lib, local, w, s, o);
            && s' == s.(status := if s.uuid in local || o.delivered then 0 else 5)
            && w'.configures == w.configures && w'.deletes == w.deletes + (if s.uuid in local then 1 else 0)
            && w'.reports == w.reports + [Report(s.uuid, 0, o.delivered)]
            && if s.uuid in local then RemovalLeaves(w, w', local[s.uuid], o.delete) else w'.interfaces == w.interfaces && w'.files == w.files
  {
    hide ValidInputs, Sanitize;
  }

  /** What a removal leaves: link and file each go exactly if their removal succeeds. */
  predicate RemovalLeaves(w: World, w': World, prior: Session, o: DeleteOutcome) {
    && w'.interfaces == (if o.linkDeleted then w.interfaces - {prior.iface} else w.interfaces)
    && w'.files == (if o.fileRemoved then w.files - {Sanitize(prior.iface)} else w.files)
  }

  /** Statuses 0, 1 and 7: a changed session is removed, a new one left alone; nothing is reported. Under
      any other status nothing is done at all. */
  lemma OffHandled(lib: Library, local: map<string, Session>, w: World, s: Session, o: Outcome)
    requires NewOrChanged(local, s) && Admitted(lib, local, s) && s.status !in {2, 4, 5, 6}
    ensures var (s', w') := Remote(lib, local, w, s, o);
            && s' == s && w'.configures == w.configures && w'.reports == w.reports
            && if s.uuid in local && s.status in {0, 1, 7} then w'.deletes == w.deletes + 1 && RemovalLeaves(w, w', local[s.uuid], o.delete)
               else w' == w
  {
    hide ValidInputs, Sanitize;
  }

  /** A session not admitted is torn down and reported so, and removed if there is a local record; an
      unchanged one is left alone. */
  lemma RefusedHandled(lib: Library, local: map<string, Session>, w: World, s: Session, o: Outcome)
    requires NewOrChanged(local, s) ==> !Admitted(lib, local, s)
    ensures var (s', w') := Remote(lib, local, w, s, o);
            if !NewOrChanged(local, s) then s' == s && w' == w
            else
              && s' == s.(status := 7) && w'.configures == w.configures
              && w'.deletes == w.deletes + (if s.uuid in local then 1 else 0)
              && w'.reports == w.reports + [Report(s.uuid, 7, o.teardownDelivered)]
              && if s.uuid in local then RemovalLeaves(w, w', local[s.uuid], o.delete) else w'.interfaces == w.interfaces && w'.files == w.files
  {
    hide ValidInputs, Sanitize;
  }
}
