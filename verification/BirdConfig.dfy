/** BIRD peer configuration: the two generators that write it and the collector that
    queries the protocols it declares.

    Template rendering is abstracted to a record per protocol block; whether one rendering
    succeeds, and whether the file can be removed or created, comes from outside (IO). */
module BirdConfig {
  import opened Sessions
  import Decimal

  /** The three kinds of protocol block a session can have. */
  datatype Kind = MultiProtocol | OnlyIPv6 | OnlyIPv4

  function Suffix(k: Kind): string {
    match k
    case MultiProtocol => ""
    case OnlyIPv6 => "_v6"
    case OnlyIPv4 => "_v4"
  }

  function ProtocolName(asn: nat, iface: string, k: Kind): string {
    "DN42_" + Decimal.Render(asn) + "_" + Sanitize(iface) + Suffix(k)
  }

  datatype Block = Block(
    sessionName: string,
    iface: string,
    neighbor: string,
    source: string,
    asn: nat,
    import4: bool,
    export4: bool,
    import6: bool,
    export6: bool,
    extendedNextHop: bool,
    filter4: string,
    filter6: string)

  datatype Endpoint = Endpoint(seen: bool, healthy: Option<bool>, behindNat: Option<bool>)
  datatype Summary = Summary(ipv4: Endpoint, ipv6: Endpoint)
  type Probes = map<string, Summary>

  function Healthy(e: Endpoint): int {
    if e.seen && (e.healthy == Some(true) || e.behindNat == Some(true)) then 1 else 0
  }

  function ProbeFlag4(probes: Probes, uuid: string): int {
    if uuid in probes then Healthy(probes[uuid].ipv4) else 0
  }

  function ProbeFlag6(probes: Probes, uuid: string): int {
    if uuid in probes then Healthy(probes[uuid].ipv6) else 0
  }

  /** What the generators read from the node's own configuration. */
  datatype Site = Site(source: string, wireguardBandwidth: int, wireguardSecurity: int, greBandwidth: int, greSecurity: int)

  function Communities(site: Site, linkType: string): (int, int) {
    if linkType == "wireguard" then (site.wireguardBandwidth, site.wireguardSecurity)
    else if linkType == "gre" || linkType == "ip6gre" then (site.greBandwidth, site.greSecurity)
    else (0, 0)
  }

  function ComposeFilterParams(latency: int, bandwidth: int, security: int, policy: int, flag: int): string {
    Decimal.Itoa(latency) + "," + Decimal.Itoa(bandwidth) + "," + Decimal.Itoa(security) + ","
    + Decimal.Itoa(policy) + "," + Decimal.Itoa(flag)
  }

  function LinkLocalNeighbor(s: Session): string {
    s.ipv6LinkLocal + "%'" + s.iface + "'"
  }

  function NeighborAddress(s: Session): Option<string> {
    if s.ipv6LinkLocal != "" then Some(LinkLocalNeighbor(s))
    else if s.ipv6 != "" then Some(s.ipv6)
    else if s.ipv4 != "" then Some(s.ipv4)
    else None
  }

  /** Whether each file and template operation succeeds. */
  datatype IO = IO(templateLoaded: bool, removable: bool, creatable: bool, renders: Kind -> bool)

  // ---------------------------------------------------------------------------------------
  // Reference definition: the block list a session should have.
  // ---------------------------------------------------------------------------------------

  function Kinds(s: Session): seq<Kind> {
    if IsMultiProtocol(s) then [MultiProtocol]
    else (if HasIPv6(s) then [OnlyIPv6] else []) + (if s.ipv4 != "" then [OnlyIPv4] else [])
  }

  function NeighborFor(s: Session, k: Kind): Option<string> {
    match k
    case MultiProtocol => NeighborAddress(s)
    case OnlyIPv6 => Some(if s.ipv6LinkLocal != "" then LinkLocalNeighbor(s) else s.ipv6)
    case OnlyIPv4 => Some(s.ipv4)
  }

  function BlockFor(site: Site, probes: Probes, s: Session, latency: int, communities: (int, int), k: Kind): Option<Block> {
    match NeighborFor(s, k)
    case None => None
    case Some(neighbor) =>
      Some(Block(ProtocolName(s.asn, s.iface, k), Sanitize(s.iface), neighbor, site.source, s.asn,
                 k != OnlyIPv6, k != OnlyIPv6, k != OnlyIPv4, k != OnlyIPv4,
                 s.extensions.Has("extended-nexthop"),
                 ComposeFilterParams(latency, communities.0, communities.1, s.policy, ProbeFlag4(probes, s.uuid)),
                 ComposeFilterParams(latency, communities.0, communities.1, s.policy, ProbeFlag6(probes, s.uuid))))
  }

  /** The blocks written before the first that cannot be, and whether all were written. */
  function Emit(site: Site, probes: Probes, s: Session, latency: int, communities: (int, int), renders: Kind -> bool, kinds: seq<Kind>): (seq<Block>, bool) {
    if kinds == [] then ([], true)
    else
      match BlockFor(site, probes, s, latency, communities, kinds[0])
      case None => ([], false)
      case Some(block) =>
        if !renders(kinds[0]) then ([], false)
        else
          var (rest, ok) := Emit(site, probes, s, latency, communities, renders, kinds[1..]);
          ([block] + rest, ok)
  }

  lemma {:induction false} EmitMultiProtocol(site: Site, probes: Probes, s: Session, latency: int, communities: (int, int), renders: Kind -> bool)
    ensures var b := BlockFor(site, probes, s, latency, communities, MultiProtocol);
            Emit(site, probes, s, latency, communities, renders, [MultiProtocol])
            == if b.Some? && renders(MultiProtocol) then ([b.value], true) else ([], false)
  {
    EmitOne(site, probes, s, latency, communities, renders, MultiProtocol);
  }

  lemma {:induction false} EmitOne(site: Site, probes: Probes, s: Session, latency: int, communities: (int, int), renders: Kind -> bool, k: Kind)
    ensures var b := BlockFor(site, probes, s, latency, communities, k);
            Emit(site, probes, s, latency, communities, renders, [k])
            == if b.Some? && renders(k) then ([b.value], true) else ([], false)
  {
    var none: seq<Kind> := [];
    assert [k][1..] == none;
    assert Emit(site, probes, s, latency, communities, renders, none) == ([], true);
    var b := BlockFor(site, probes, s, latency, communities, k);
    if b.Some? && renders(k) {
      assert [b.value] + [] == [b.value];
    }
  }

  lemma {:induction false} EmitTraditional(site: Site, probes: Probes, s: Session, latency: int, communities: (int, int), renders: Kind -> bool)
    requires !IsMultiProtocol(s)
    ensures var v6 := BlockFor(site, probes, s, latency, communities, OnlyIPv6).value;
            var v4 := BlockFor(site, probes, s, latency, communities, OnlyIPv4).value;
            var first := if HasIPv6(s) then [v6] else [];
            Emit(site, probes, s, latency, communities, renders, Kinds(s))
            == if HasIPv6(s) && !renders(OnlyIPv6) then ([], false)
               else if s.ipv4 == "" then (first, true)
               else if !renders(OnlyIPv4) then (first, false)
               else (first + [v4], true)
  {
    EmitOne(site, probes, s, latency, communities, renders, OnlyIPv4);
    EmitOne(site, probes, s, latency, communities, renders, OnlyIPv6);
    if !HasIPv6(s) && s.ipv4 != "" {
      assert Kinds(s) == [OnlyIPv4];
      var v4 := BlockFor(site, probes, s, latency, communities, OnlyIPv4).value;
      assert [] + [v4] == [v4];
    } else if HasIPv6(s) && s.ipv4 == "" {
      assert Kinds(s) == [OnlyIPv6];
    } else if HasIPv6(s) {
      assert Kinds(s)[1..] == [OnlyIPv4];
    }
  }

  type Files = map<string, seq<Block>>

  /** The configuration directory and verdict after a successful os.Create. */
  function Rewritten(site: Site, probes: Probes, files: Files, s: Session, latency: int, communities: (int, int), io: IO): (Files, bool) {
    var (blocks, ok) := Emit(site, probes, s, latency, communities, io.renders, Kinds(s));
    (files[Sanitize(s.iface) := blocks], ok)
  }

  function Removed(files: Files, s: Session, io: IO): Files {
    if io.removable then files - {Sanitize(s.iface)} else files
  }

  function Configured(site: Site, probes: Probes, files: Files, s: Session, io: IO): (Files, bool) {
    if io.templateLoaded && io.creatable then
      Rewritten(site, probes, files, s, 0, Communities(site, s.linkType), io)
    else
      (Removed(files, s, io), false)
  }

  function Updated(site: Site, probes: Probes, files: Files, s: Session, latency: int, communities: (int, int), io: IO): (Files, bool) {
    if !io.templateLoaded then (files, false)
    else if io.creatable then Rewritten(site, probes, files, s, latency, communities, io)
    else (Removed(files, s, io), false)
  }

  function SessionNames(s: Session): seq<string> {
    var kinds := Kinds(s);
    seq(|kinds|, i requires 0 <= i < |kinds| => ProtocolName(s.asn, s.iface, kinds[i]))
  }

  function BlockNames(blocks: seq<Block>): seq<string> {
    seq(|blocks|, i requires 0 <= i < |blocks| => blocks[i].sessionName)
  }

  // ---------------------------------------------------------------------------------------
  // The generators and the collector, step by step.
  // ---------------------------------------------------------------------------------------

  class PeerConfDir {
    const site: Site
    var probes: Probes
    var files: Files

    constructor (site: Site)
      ensures this.site == site && probes == map[] && files == map[]
    {
      this.site := site;
      probes, files := map[], map[];
    }

    method Remove(name: string, removable: bool)
      modifies this`files
      ensures files == if removable then old(files) - {name} else old(files)
    {
      if removable {
        files := files - {name};
      }
    }

    /** What generateMPBGPConfig has put in the new file when it returns. */
    method GenerateMultiProtocol(s: Session, sessionName: string, extended: bool, bandwidth: int, security: int, io: IO)
      returns (written: seq<Block>, ok: bool)
      requires sessionName == ProtocolName(s.asn, s.iface, MultiProtocol)
      requires extended == s.extensions.Has("extended-nexthop")
      ensures (written, ok) == Emit(site, probes, s, 0, (bandwidth, security), io.renders, [MultiProtocol])
    {
      EmitMultiProtocol(site, probes, s, 0, (bandwidth, security), io.renders);
      var neighbor := NeighborAddress(s);
      if neighbor.None? {
        return [], false;
      }
      var filter4 := ComposeFilterParams(0, bandwidth, security, s.policy, ProbeFlag4(probes, s.uuid));
      var filter6 := ComposeFilterParams(0, bandwidth, security, s.policy, ProbeFlag6(probes, s.uuid));
      if !io.renders(MultiProtocol) {
        return [], false;
      }
      return [Block(sessionName, Sanitize(s.iface), neighbor.value, site.source, s.asn, true, true, true, true, extended, filter4, filter6)], true;
    }

    /** What generateTraditionalBGPConfig has put in the new file when it returns. */
    method GenerateTraditional(s: Session, sessionName: string, extended: bool, bandwidth: int, security: int, io: IO)
      returns (written: seq<Block>, ok: bool)
      requires !IsMultiProtocol(s)
      requires sessionName == ProtocolName(s.asn, s.iface, MultiProtocol)
      requires extended == s.extensions.Has("extended-nexthop")
      ensures (written, ok) == Emit(site, probes, s, 0, (bandwidth, security), io.renders, Kinds(s))
    {
      SessionNameSuffix(s, sessionName);
      EmitTraditional(site, probes, s, 0, (bandwidth, security), io.renders);
      written := [];
      var filter4 := ComposeFilterParams(0, bandwidth, security, s.policy, ProbeFlag4(probes, s.uuid));
      var filter6 := ComposeFilterParams(0, bandwidth, security, s.policy, ProbeFlag6(probes, s.uuid));
      if s.ipv6LinkLocal != "" || s.ipv6 != "" {
        var neighbor;
        if s.ipv6LinkLocal != "" {
          neighbor := LinkLocalNeighbor(s);
        } else {
          neighbor := s.ipv6;
        }
        if !io.renders(OnlyIPv6) {
          return written, false;
        }
        written := [Block(sessionName + "_v6", Sanitize(s.iface), neighbor, site.source, s.asn, false, false, true, true, extended, filter4, filter6)];
      }
      if s.ipv4 != "" {
        if !io.renders(OnlyIPv4) {
          return written, false;
        }
        written := written + [Block(sessionName + "_v4", Sanitize(s.iface), s.ipv4, site.source, s.asn, true, true, false, false, extended, filter4, filter6)];
      }
      return written, true;
    }

    method ConfigureBird(s: Session, io: IO) returns (ok: bool)
      modifies this`files
      ensures (files, ok) == Configured(site, probes, old(files), s, io)
    {
      var file := Sanitize(s.iface);
      Remove(file, io.removable);
      if !io.templateLoaded {
        return false;
      }
      var (bandwidth, security) := Communities(site, s.linkType);
      var extended := s.extensions.Has("extended-nexthop");
      if !io.creatable {
        return false;
      }
      var sessionName := "DN42_" + Decimal.Render(s.asn) + "_" + file;
      SessionNameSuffix(s, sessionName);
      var written;
      if s.extensions.Has("mp-bgp") {
        written, ok := GenerateMultiProtocol(s, sessionName, extended, bandwidth, security, io);
      } else {
        written, ok := GenerateTraditional(s, sessionName, extended, bandwidth, security, io);
      }
      files := files[file := written];
      assert files == old(files)[file := written];
    }

    /** What the filter updater, which has its own copy of the generator, has put in the new file. */
    method GenerateUpdate(s: Session, latency: int, bandwidth: int, security: int, io: IO) returns (written: seq<Block>, ok: bool)
      ensures (written, ok) == Emit(site, probes, s, latency, (bandwidth, security), io.renders, Kinds(s))
    {
      var sessionName := "DN42_" + Decimal.Render(s.asn) + "_" + Sanitize(s.iface);
      SessionNameSuffix(s, sessionName);
      written := [];
      var extended := s.extensions.Has("extended-nexthop");
      var filter4 := ComposeFilterParams(latency, bandwidth, security, s.policy, ProbeFlag4(probes, s.uuid));
      var filter6 := ComposeFilterParams(latency, bandwidth, security, s.policy, ProbeFlag6(probes, s.uuid));
      if s.extensions.Has("mp-bgp") {
        EmitMultiProtocol(site, probes, s, latency, (bandwidth, security), io.renders);
        var neighbor := NeighborAddress(s);
        if neighbor.None? || !io.renders(MultiProtocol) {
          return written, false;
        }
        written := [Block(sessionName, Sanitize(s.iface), neighbor.value, site.source, s.asn, true, true, true, true, extended, filter4, filter6)];
        return written, true;
      }
      EmitTraditional(site, probes, s, latency, (bandwidth, security), io.renders);
      if s.ipv6LinkLocal != "" || s.ipv6 != "" {
        var neighbor := "";
        if s.ipv6LinkLocal != "" {
          neighbor := LinkLocalNeighbor(s);
        } else if s.ipv6 != "" {
          neighbor := s.ipv6;
        }
        if !io.renders(OnlyIPv6) {
          return written, false;
        }
        written := [Block(sessionName + "_v6", Sanitize(s.iface), neighbor, site.source, s.asn, false, false, true, true, extended, filter4, filter6)];
      }
      if s.ipv4 != "" {
        if !io.renders(OnlyIPv4) {
          return written, false;
        }
        written := written + [Block(sessionName + "_v4", Sanitize(s.iface), s.ipv4, site.source, s.asn, true, true, false, false, extended, filter4, filter6)];
      }
      return written, true;
    }

    method UpdateBirdConfig(s: Session, latency: int, bandwidth: int, security: int, io: IO) returns (ok: bool)
      modifies this`files
      ensures (files, ok) == Updated(site, probes, old(files), s, latency, (bandwidth, security), io)
    {
      var file := Sanitize(s.iface);
      if !io.templateLoaded {
        return false;
      }
      Remove(file, io.removable);
      if !io.creatable {
        return false;
      }
      var written;
      written, ok := GenerateUpdate(s, latency, bandwidth, security, io);
      files := files[file := written];
      assert files == old(files)[file := written];
    }
  }

  lemma SessionNameSuffix(s: Session, sessionName: string)
    requires sessionName == "DN42_" + Decimal.Render(s.asn) + "_" + Sanitize(s.iface)
    ensures sessionName == ProtocolName(s.asn, s.iface, MultiProtocol)
    ensures sessionName + "_v6" == ProtocolName(s.asn, s.iface, OnlyIPv6)
    ensures sessionName + "_v4" == ProtocolName(s.asn, s.iface, OnlyIPv4)
  {
  }

  /** The protocol names collectSessionMetric asks BIRD about, in order. */
  method QueriedNames(s: Session) returns (names: seq<string>)
    ensures names == SessionNames(s)
    ensures var name := "DN42_" + Decimal.Render(s.asn) + "_" + Sanitize(s.iface);
            names == if s.extensions.Has("mp-bgp") then [name]
                     else (if s.ipv6LinkLocal != "" || s.ipv6 != "" then [name + "_v6"] else [])
                          + (if s.ipv4 != "" then [name + "_v4"] else [])
  {
    var sessionName := "DN42_" + Decimal.Render(s.asn) + "_" + Sanitize(s.iface);
    SessionNameSuffix(s, sessionName);
    if s.extensions.Has("mp-bgp") {
      return [sessionName];
    }
    names := [];
    if s.ipv6LinkLocal != "" || s.ipv6 != "" {
      names := names + [sessionName + "_v6"];
    }
    if s.ipv4 != "" {
      names := names + [sessionName + "_v4"];
    }
  }

  // ---------------------------------------------------------------------------------------
  // Properties.
  // ---------------------------------------------------------------------------------------

  /** The updater with latency community 0 does to the directory what the configurer does, verdict
      included, except in one case: without a template the configurer has already removed the file. */
  lemma UpdateAtZeroIsConfigure(site: Site, probes: Probes, files: Files, s: Session, io: IO)
    ensures Updated(site, probes, files, s, 0, Communities(site, s.linkType), io) == Configured(site, probes, files, s, io)
            <==> io.templateLoaded || Sanitize(s.iface) !in files || !io.removable
  {
    if Sanitize(s.iface) !in files {
      assert files - {Sanitize(s.iface)} == files;
    }
  }

  /** The blocks written are named as the collector queries them, in that order: all of them on
      success, an initial part when a block cannot be written. */
  lemma {:induction false} EmittedNames(site: Site, probes: Probes, s: Session, latency: int, communities: (int, int), renders: Kind -> bool, kinds: seq<Kind>)
    ensures var (blocks, ok) := Emit(site, probes, s, latency, communities, renders, kinds);
            && |blocks| <= |kinds|
            && (ok <==> |blocks| == |kinds|)
            && forall i :: 0 <= i < |blocks| ==> blocks[i].sessionName == ProtocolName(s.asn, s.iface, kinds[i])
  {
    if kinds != [] {
      EmittedNames(site, probes, s, latency, communities, renders, kinds[1..]);
    }
  }

  /** What either generator leaves in the file, against the names the collector asks for. */
  lemma FileMatchesQueries(site: Site, probes: Probes, files: Files, s: Session, latency: int, communities: (int, int), io: IO)
    requires io.templateLoaded && io.creatable
    ensures var (after, ok) := Updated(site, probes, files, s, latency, communities, io);
            FileNames(after, s, ok)
    ensures var (after, ok) := Configured(site, probes, files, s, io);
            FileNames(after, s, ok)
  {
    EmittedNames(site, probes, s, latency, communities, io.renders, Kinds(s));
    EmittedNames(site, probes, s, 0, Communities(site, s.linkType), io.renders, Kinds(s));
  }

  /** The blocks in the session's file are the first of those the collector queries, and all of them
      exactly on success. */
  predicate FileNames(files: Files, s: Session, ok: bool) {
    && Sanitize(s.iface) in files
    && BlockNames(files[Sanitize(s.iface)]) <= SessionNames(s)
    && (ok <==> BlockNames(files[Sanitize(s.iface)]) == SessionNames(s))
  }

  /** Generation fails on its own, with every file and template operation good, exactly for a
      multi-protocol session without any address. */
  lemma GenerationFails(site: Site, probes: Probes, files: Files, s: Session, io: IO)
    requires io.templateLoaded && io.creatable && forall k :: io.renders(k)
    ensures !Configured(site, probes, files, s, io).1
            <==> IsMultiProtocol(s) && s.ipv6LinkLocal == "" && s.ipv6 == "" && s.ipv4 == ""
  {
    if IsMultiProtocol(s) {
      EmitMultiProtocol(site, probes, s, 0, Communities(site, s.linkType), io.renders);
    } else {
      EmitTraditional(site, probes, s, 0, Communities(site, s.linkType), io.renders);
    }
  }

  /** A rewrite succeeds exactly if every file and template operation that it needs does, and a
      multi-protocol session has some address. */
  lemma UpdateSucceedsIff(site: Site, probes: Probes, files: Files, s: Session, latency: int, communities: (int, int), io: IO)
    ensures Updated(site, probes, files, s, latency, communities, io).1 <==> Writable(s, io)
    ensures Configured(site, probes, files, s, io).1 <==> Writable(s, io)
  {
    if IsMultiProtocol(s) {
      EmitMultiProtocol(site, probes, s, latency, communities, io.renders);
      EmitMultiProtocol(site, probes, s, 0, Communities(site, s.linkType), io.renders);
    } else {
      EmitTraditional(site, probes, s, latency, communities, io.renders);
      EmitTraditional(site, probes, s, 0, Communities(site, s.linkType), io.renders);
    }
    hide Emit;
  }

  predicate Writable(s: Session, io: IO) {
    && io.templateLoaded && io.creatable
    && if s.extensions.Has("mp-bgp") then
         io.renders(MultiProtocol) && (s.ipv6LinkLocal != "" || s.ipv6 != "" || s.ipv4 != "")
       else
         && (s.ipv6LinkLocal != "" || s.ipv6 != "" ==> io.renders(OnlyIPv6))
         && (s.ipv4 != "" ==> io.renders(OnlyIPv4))
  }

  predicate EndsWith(s: string, t: string) {
    |t| <= |s| && s[|s| - |t|..] == t
  }

  lemma NameParts(asn: nat, iface: string, k: Kind, asn': nat, iface': string, k': Kind)
    ensures ProtocolName(asn, iface, k) == ProtocolName(asn', iface', k')
            <==> asn == asn' && Sanitize(iface) + Suffix(k) == Sanitize(iface') + Suffix(k')
  {
    var (d, r) := (Decimal.Render(asn), Sanitize(iface) + Suffix(k));
    var (d', r') := (Decimal.Render(asn'), Sanitize(iface') + Suffix(k'));
    var (n, n') := (ProtocolName(asn, iface, k), ProtocolName(asn', iface', k'));
    assert n == "DN42_" + (d + ['_'] + r);
    assert n' == "DN42_" + (d' + ['_'] + r');
    assert n[5..] == d + ['_'] + r && n'[5..] == d' + ['_'] + r';
    if n == n' {
      Decimal.FirstSeparator('_', d, r, d', r');
      Decimal.RenderInjective(asn, asn');
    }
  }

  /** Two names coincide for different (ASN, sanitised interface, kind) exactly when the ASN is the
      same, one is the multi-protocol name and its interface is the other's plus the suffix. */
  lemma NamesCollide(asn: nat, iface: string, k: Kind, asn': nat, iface': string, k': Kind)
    ensures ProtocolName(asn, iface, k) == ProtocolName(asn', iface', k')
            <==> asn == asn'
                 && ((k == k' && Sanitize(iface) == Sanitize(iface'))
                     || (k == MultiProtocol != k' && Sanitize(iface) == Sanitize(iface') + Suffix(k'))
                     || (k' == MultiProtocol != k && Sanitize(iface') == Sanitize(iface) + Suffix(k)))
  {
    NameParts(asn, iface, k, asn', iface', k');
    var (r, r') := (Sanitize(iface) + Suffix(k), Sanitize(iface') + Suffix(k'));
    if r == r' && k == k' {
      assert Sanitize(iface) == r[..|r| - |Suffix(k)|] && Sanitize(iface') == r'[..|r'| - |Suffix(k')|];
    }
    if k != k' && k != MultiProtocol && k' != MultiProtocol {
      assert r[|r| - 1] == Suffix(k)[2] && r'[|r'| - 1] == Suffix(k')[2];
    }
    assert Sanitize(iface) + "" == Sanitize(iface) && Sanitize(iface') + "" == Sanitize(iface');
  }

  /** Away from interface names that end like a suffix, a protocol name identifies its block. */
  lemma NamesInjective(asn: nat, iface: string, k: Kind, asn': nat, iface': string, k': Kind)
    requires !EndsWith(Sanitize(iface), "_v4") && !EndsWith(Sanitize(iface), "_v6")
    requires !EndsWith(Sanitize(iface'), "_v4") && !EndsWith(Sanitize(iface'), "_v6")
    requires ProtocolName(asn, iface, k) == ProtocolName(asn', iface', k')
    ensures asn == asn' && Sanitize(iface) == Sanitize(iface') && k == k'
  {
    NamesCollide(asn, iface, k, asn', iface', k');
    var (p, p') := (Sanitize(iface'), Sanitize(iface));
    assert EndsWith(p + "_v4", "_v4") && EndsWith(p + "_v6", "_v6");
    assert EndsWith(p' + "_v4", "_v4") && EndsWith(p' + "_v6", "_v6");
  }

  // ---------------------------------------------------------------------------------------
  // What a block says.
  // ---------------------------------------------------------------------------------------

  /** The fields of a comma-separated text. */
  function Fields(text: string): (r: seq<string>)
    ensures r != []
  {
    if text == [] then [""]
    else
      var rest := Fields(text[1..]);
      if text[0] == ',' then [""] + rest else [[text[0]] + rest[0]] + rest[1..]
  }

  lemma {:induction false} OneField(a: string)
    requires ',' !in a
    ensures Fields(a) == [a]
  {
    if a != [] {
      OneField(a[1..]);
      assert [a[0]] + a[1..] == a;
    }
  }

  lemma {:induction false} FirstField(a: string, rest: string)
    requires ',' !in a
    ensures Fields(a + [','] + rest) == [a] + Fields(rest)
  {
    var text := a + [','] + rest;
    if a == [] {
      assert text[1..] == rest;
    } else {
      assert text[1..] == a[1..] + [','] + rest;
      FirstField(a[1..], rest);
      assert [a[0]] + a[1..] == a && Fields(text[1..])[1..] == Fields(rest);
    }
  }

  /** The parameters stand in the order latency, bandwidth, security, policy, probe flag. */
  lemma FilterFields(latency: int, bandwidth: int, security: int, policy: int, flag: int)
    ensures Fields(ComposeFilterParams(latency, bandwidth, security, policy, flag))
            == [Decimal.Itoa(latency), Decimal.Itoa(bandwidth), Decimal.Itoa(security), Decimal.Itoa(policy), Decimal.Itoa(flag)]
  {
    hide Fields, Decimal.Itoa;
    var (a, b, c, d, e) := (Decimal.Itoa(latency), Decimal.Itoa(bandwidth), Decimal.Itoa(security), Decimal.Itoa(policy), Decimal.Itoa(flag));
    CommaFree(latency);
    CommaFree(bandwidth);
    CommaFree(security);
    CommaFree(policy);
    CommaFree(flag);
    RightNested(a, b, c, d, e);
    OneField(e);
    FirstField(d, e);
    FirstField(c, d + [','] + e);
    FirstField(b, c + [','] + (d + [','] + e));
    FirstField(a, b + [','] + (c + [','] + (d + [','] + e)));
  }

  predicate Answering(e: Endpoint) {
    e.seen && (e.healthy == Some(true) || e.behindNat == Some(true))
  }

  /** Both filters carry these communities, the session's policy, and 1 exactly for an address family whose
      probe was seen healthy or behind a NAT. */
  predicate FiltersSay(probes: Probes, s: Session, latency: int, bandwidth: int, security: int, b: Block) {
    && Fields(b.filter4) == [Decimal.Itoa(latency), Decimal.Itoa(bandwidth), Decimal.Itoa(security), Decimal.Itoa(s.policy),
                             if s.uuid in probes && Answering(probes[s.uuid].ipv4) then "1" else "0"]
    && Fields(b.filter6) == [Decimal.Itoa(latency), Decimal.Itoa(bandwidth), Decimal.Itoa(security), Decimal.Itoa(s.policy),
                             if s.uuid in probes && Answering(probes[s.uuid].ipv6) then "1" else "0"]
  }

  /** A block of a multi-protocol session is for both families and its first address; otherwise the block
      named with _v6 is for IPv6 and its address, the one named with _v4 for IPv4 and its address. */
  predicate Describes(site: Site, s: Session, b: Block) {
    var name := "DN42_" + Decimal.Render(s.asn) + "_" + Sanitize(s.iface);
    var ipv6 := if s.ipv6LinkLocal != "" then s.ipv6LinkLocal + "%'" + s.iface + "'" else s.ipv6;
    && b.iface == Sanitize(s.iface) && b.source == site.source && b.asn == s.asn && b.neighbor != ""
    && (b.extendedNextHop <==> s.extensions.Has("extended-nexthop"))
    && if s.extensions.Has("mp-bgp") then
         && b.sessionName == name && b.neighbor == (if ipv6 != "" then ipv6 else s.ipv4)
         && b.import4 && b.export4 && b.import6 && b.export6
       else
         || (&& b.sessionName == name + "_v6" && b.neighbor == ipv6
             && !b.import4 && !b.export4 && b.import6 && b.export6)
         || (&& b.sessionName == name + "_v4" && b.neighbor == s.ipv4
             && b.import4 && b.export4 && !b.import6 && !b.export6)
  }

  lemma {:induction false} BlockDescribes(site: Site, probes: Probes, s: Session, latency: int, communities: (int, int), k: Kind)
    requires k in Kinds(s)
    ensures var b := BlockFor(site, probes, s, latency, communities, k);
            b.Some? ==> Describes(site, s, b.value) && FiltersSay(probes, s, latency, communities.0, communities.1, b.value)
  {
    hide ComposeFilterParams, Fields;
    FilterFields(latency, communities.0, communities.1, s.policy, ProbeFlag4(probes, s.uuid));
    FilterFields(latency, communities.0, communities.1, s.policy, ProbeFlag6(probes, s.uuid));
    Flags();
    hide Decimal.Itoa;
    SessionNameSuffix(s, "DN42_" + Decimal.Render(s.asn) + "_" + Sanitize(s.iface));
    assert s.ipv6LinkLocal + "%'" + s.iface + "'" != "";
  }

  lemma Flags()
    ensures Decimal.Itoa(0) == "0" && Decimal.Itoa(1) == "1"
  {
  }

  ghost predicate AllSay(site: Site, probes: Probes, s: Session, latency: int, bandwidth: int, security: int, blocks: seq<Block>) {
    forall i :: 0 <= i < |blocks| ==> Describes(site, s, blocks[i]) && FiltersSay(probes, s, latency, bandwidth, security, blocks[i])
  }

  lemma {:induction false} EmittedBlocks(site: Site, probes: Probes, s: Session, latency: int, communities: (int, int), renders: Kind -> bool, kinds: seq<Kind>)
    requires forall k :: k in kinds ==> k in Kinds(s)
    ensures AllSay(site, probes, s, latency, communities.0, communities.1, Emit(site, probes, s, latency, communities, renders, kinds).0)
  {
    if kinds != [] {
      BlockDescribes(site, probes, s, latency, communities, kinds[0]);
      EmittedBlocks(site, probes, s, latency, communities, renders, kinds[1..]);
      hide BlockFor, Kinds, Describes, FiltersSay;
    }
  }

  /** What the blocks that either generator leaves in the session's file say. The configurer takes latency 0
      and the bandwidth and security of the kind of link. */
  lemma FileSays(site: Site, probes: Probes, files: Files, s: Session, latency: int, bandwidth: int, security: int, io: IO)
    requires io.templateLoaded && io.creatable
    ensures var after := Updated(site, probes, files, s, latency, (bandwidth, security), io).0;
            Sanitize(s.iface) in after && AllSay(site, probes, s, latency, bandwidth, security, after[Sanitize(s.iface)])
    ensures var after := Configured(site, probes, files, s, io).0;
            var (b, c) := if s.linkType == "wireguard" then (site.wireguardBandwidth, site.wireguardSecurity)
                          else if s.linkType == "gre" || s.linkType == "ip6gre" then (site.greBandwidth, site.greSecurity)
                          else (0, 0);
            Sanitize(s.iface) in after && AllSay(site, probes, s, 0, b, c, after[Sanitize(s.iface)])
  {
    EmittedBlocks(site, probes, s, latency, (bandwidth, security), io.renders, Kinds(s));
    EmittedBlocks(site, probes, s, 0, Communities(site, s.linkType), io.renders, Kinds(s));
    hide AllSay, Emit, Kinds;
  }

  lemma CommaFree(i: int)
    ensures ',' !in Decimal.Itoa(i)
  {
  }

  /** The five numbers of a filter parameter string can be read back from it. */
  lemma FilterParamsInjective(a: int, b: int, c: int, d: int, e: int, a': int, b': int, c': int, d': int, e': int)
    requires ComposeFilterParams(a, b, c, d, e) == ComposeFilterParams(a', b', c', d', e')
    ensures (a, b, c, d, e) == (a', b', c', d', e')
  {
    var (s5, t5) := (Decimal.Itoa(e), Decimal.Itoa(e'));
    var (s4, t4) := (Decimal.Itoa(d) + [','] + s5, Decimal.Itoa(d') + [','] + t5);
    var (s3, t3) := (Decimal.Itoa(c) + [','] + s4, Decimal.Itoa(c') + [','] + t4);
    var (s2, t2) := (Decimal.Itoa(b) + [','] + s3, Decimal.Itoa(b') + [','] + t3);
    RightNested(Decimal.Itoa(a), Decimal.Itoa(b), Decimal.Itoa(c), Decimal.Itoa(d), s5);
    RightNested(Decimal.Itoa(a'), Decimal.Itoa(b'), Decimal.Itoa(c'), Decimal.Itoa(d'), t5);
    HeadField(a, s2, a', t2);
    HeadField(b, s3, b', t3);
    HeadField(c, s4, c', t4);
    HeadField(d, s5, d', t5);
    Decimal.ItoaInjective(e, e');
  }

  lemma RightNested(a: string, b: string, c: string, d: string, e: string)
    ensures a + "," + b + "," + c + "," + d + "," + e == a + [','] + (b + [','] + (c + [','] + (d + [','] + e)))
  {
  }

  lemma HeadField(i: int, rest: string, i': int, rest': string)
    requires Decimal.Itoa(i) + [','] + rest == Decimal.Itoa(i') + [','] + rest'
    ensures i == i' && rest == rest'
  {
    CommaFree(i);
    CommaFree(i');
    Decimal.FirstSeparator(',', Decimal.Itoa(i), rest, Decimal.Itoa(i'), rest');
    Decimal.ItoaInjective(i, i');
  }
}
