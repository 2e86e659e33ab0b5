/** The session record the center and the agent exchange, and its status codes. */
module Sessions {

  datatype Option<+T> = None | Some(value: T)

  const DELETED := 0
  const DISABLED := 1
  const ENABLED := 2
  const QUEUED_FOR_SETUP := 4
  const QUEUED_FOR_DELETE := 5
  const PROBLEM := 6
  const TEARDOWN := 7

  /** A Go slice of names: deep equality tells a nil slice from an empty one. */
  datatype NameList = Absent | Listed(names: seq<string>) {
    predicate Has(name: string) { Listed? && name in names }
  }

  datatype Session = Session(
    uuid: string,
    asn: nat,
    status: int,
    ipv4: string,
    ipv6: string,
    ipv6LinkLocal: string,
    linkType: string,
    extensions: NameList,
    iface: string,
    endpoint: string,
    credential: string,
    data: seq<int>,
    mtu: int,
    policy: int)

  /** Dashes become underscores, in file names and in BIRD protocol names. */
  function Sanitize(name: string): (r: string)
    ensures |r| == |name|
    ensures forall i :: 0 <= i < |name| ==> r[i] == (if name[i] == '-' then '_' else name[i])
  {
    seq(|name|, i requires 0 <= i < |name| => if name[i] == '-' then '_' else name[i])
  }

  predicate IsMultiProtocol(s: Session) {
    s.extensions.Has("mp-bgp")
  }

  predicate HasIPv6(s: Session) {
    s.ipv6LinkLocal != "" || s.ipv6 != ""
  }
}
