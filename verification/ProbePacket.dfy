/** The binary probe packet, and a decoder for it. Strings are byte sequences, as in Go. The cipher,
    the clock and the random nonce are inputs. */
module ProbePacket {
  import opened Sessions

  type Byte = b: int | 0 <= b < 256
  type Bytes = seq<Byte>

  const MAX_UINT16 := 0xFFFF
  const MAX_UINT32 := 0xFFFF_FFFF

  /** An authenticated cipher. */
  datatype Aead = Aead(nonceSize: nat, seal: (Bytes, Bytes) -> Bytes, open: (Bytes, Bytes) -> Option<Bytes>)

  ghost predicate OpensWhatItSeals(aead: Aead) {
    forall nonce: Bytes, payload: Bytes :: |nonce| == aead.nonceSize ==> aead.open(nonce, aead.seal(nonce, payload)) == Some(payload)
  }

  // ---------------------------------------------------------------------------------------
  // Numbers.
  // ---------------------------------------------------------------------------------------

  function Pow256(n: nat): (p: nat)
    ensures p > 0
  {
    if n == 0 then 1 else 256 * Pow256(n - 1)
  }

  /** The low bytes of a number, least significant first. */
  function LittleEndian(value: nat, width: nat): (r: Bytes)
    ensures |r| == width
  {
    if width == 0 then [] else [value % 256] + LittleEndian(value / 256, width - 1)
  }

  function FromLittleEndian(s: Bytes): nat {
    if s == [] then 0 else s[0] + 256 * FromLittleEndian(s[1..])
  }

  function FromBigEndian(s: Bytes): nat {
    if s == [] then 0 else 256 * FromBigEndian(s[..|s| - 1]) + s[|s| - 1]
  }

  lemma {:induction false} LittleEndianInverse(value: nat, width: nat)
    requires value < Pow256(width)
    ensures FromLittleEndian(LittleEndian(value, width)) == value
  {
    if width > 0 {
      LittleEndianInverse(value / 256, width - 1);
      assert LittleEndian(value, width)[1..] == LittleEndian(value / 256, width - 1);
    }
  }

  function Reversed(s: Bytes): (r: Bytes)
    ensures |r| == |s| && forall i :: 0 <= i < |s| ==> r[i] == s[|s| - 1 - i]
  {
    seq(|s|, i requires 0 <= i < |s| => s[|s| - 1 - i])
  }

  /** Reading big-endian and writing little-endian turns the bytes around. */
  lemma {:induction false} BigToLittle(s: Bytes)
    ensures LittleEndian(FromBigEndian(s), |s|) == Reversed(s)
  {
    if s != [] {
      var n := |s| - 1;
      BigToLittle(s[..n]);
      assert Reversed(s) == [s[n]] + Reversed(s[..n]);
    }
  }

  lemma Widths()
    ensures Pow256(2) == MAX_UINT16 + 1 && Pow256(4) == MAX_UINT32 + 1 && Pow256(8) == 0x1_0000_0000_0000_0000
  {
    assert Pow256(2) == 256 * Pow256(1) && Pow256(4) == 256 * (256 * Pow256(2));
    assert Pow256(8) == 256 * (256 * (256 * (256 * Pow256(4)))) by {
      assert Pow256(6) == 256 * (256 * Pow256(4)) && Pow256(8) == 256 * (256 * Pow256(6));
    }
  }

  // ---------------------------------------------------------------------------------------
  // Addresses: nil, 4 bytes or 16 bytes.
  // ---------------------------------------------------------------------------------------

  type IP = Option<Bytes>

  const V4_IN_V6: Bytes := [0, 0, 0, 0, 0, 0, 0, 0, 0, 0, 255, 255]

  function To4(ip: IP): (r: IP)
    ensures r.Some? ==> |r.value| == 4
  {
    if ip.Some? && |ip.value| == 4 then ip
    else if ip.Some? && |ip.value| == 16 && ip.value[..12] == V4_IN_V6 then Some(ip.value[12..])
    else None
  }

  function To16(ip: IP): (r: IP)
    ensures r.Some? ==> |r.value| == 16
  {
    if ip.Some? && |ip.value| == 4 then Some(V4_IN_V6 + ip.value)
    else if ip.Some? && |ip.value| == 16 then ip
    else None
  }

  function Zeros(n: nat): (r: Bytes)
    ensures |r| == n && forall i :: 0 <= i < n ==> r[i] == 0
  {
    seq(n, _ => 0)
  }

  /** The address in network order; zeros if there is none. */
  function Address4(ip: IP): (r: Bytes)
    ensures |r| == 4
  {
    if To4(ip).Some? then To4(ip).value else Zeros(4)
  }

  function Address16(ip: IP): (r: Bytes)
    ensures |r| == 16
  {
    if To16(ip).Some? then To16(ip).value else Zeros(16)
  }

  method EncodeIPv4LittleEndian(ip: IP) returns (out: Bytes)
    ensures out == Reversed(Address4(ip))
  {
    out := Zeros(4);
    assert Reversed(Zeros(4)) == Zeros(4);
    if ip == None {
      return;
    }
    var ip4 := To4(ip);
    if ip4 == None {
      return;
    }
    var val := FromBigEndian(ip4.value);
    BigToLittle(ip4.value);
    out := LittleEndian(val, 4);
  }

  method EncodeIPv6LittleEndian(ip: IP) returns (r: Bytes)
    ensures r == Reversed(Address16(ip))
  {
    var out := new Byte[16](_ => 0);
    assert out[..] == Reversed(Zeros(16));
    if ip == None {
      return out[..];
    }
    var ip16 := To16(ip);
    if ip16 == None {
      return out[..];
    }
    for i := 0 to 16
      invariant forall j :: 0 <= j < i ==> out[j] == ip16.value[15 - j]
    {
      out[i] := ip16.value[15 - i];
    }
    return out[..];
  }

  // ---------------------------------------------------------------------------------------
  // Building.
  // ---------------------------------------------------------------------------------------

  /** What is configured: the banner, the router's UUID, the source addresses, the cipher if set up. */
  datatype Config = Config(banner: Bytes, routerUUID: Bytes, srcIPv4: IP, srcIPv6: IP, aead: Option<Aead>)

  datatype Result = Packet(bytes: Bytes) | NotInitialised | AsnTooLarge | NoNonce | TooLarge

  const NUL: Bytes := [0]
  const HEADER: Bytes := [0x42, 0x42, 0x42]
  const FOOTER: Bytes := [0x21, 0x89]

  /** Seconds since 1970 as an unsigned 64-bit number. */
  function Timestamp(unixTime: int): nat {
    unixTime % 0x1_0000_0000_0000_0000
  }

  function Payload(c: Config, uuid: Bytes, asn: nat, unixTime: int): Bytes {
    LittleEndian(Timestamp(unixTime), 8)
    + (c.routerUUID + NUL + (uuid + NUL + (LittleEndian(asn, 4) + (Reversed(Address4(c.srcIPv4)) + Reversed(Address16(c.srcIPv6))))))
  }

  /** Everything after the length field. */
  function Body(banner: Bytes, nonce: Bytes, encrypted: Bytes): Bytes {
    banner + NUL + (LittleEndian(|nonce|, 4) + (nonce + (encrypted + FOOTER)))
  }

  /** The whole packet: header, length, banner, nonce with its size, sealed payload, footer. */
  function PacketOf(c: Config, aead: Aead, uuid: Bytes, asn: nat, unixTime: int, nonce: Bytes): Bytes {
    var body := Body(c.banner, nonce, aead.seal(nonce, Payload(c, uuid, asn, unixTime)));
    HEADER + (LittleEndian(5 + |body|, 2) + body)
  }

  method BuildProbePacket(c: Config, uuid: Bytes, asn: nat, unixTime: int, random: Option<Bytes>) returns (r: Result)
    requires c.aead.Some? && random.Some? ==> |random.value| == c.aead.value.nonceSize
    ensures r.NotInitialised? <==> c.aead.None?
    ensures r.AsnTooLarge? <==> c.aead.Some? && asn > MAX_UINT32
    ensures r.NoNonce? <==> c.aead.Some? && asn <= MAX_UINT32 && random.None?
    ensures c.aead.Some? && asn <= MAX_UINT32 && random.Some? ==>
              var packet := PacketOf(c, c.aead.value, uuid, asn, unixTime, random.value);
              r == if |packet| > MAX_UINT16 then TooLarge else Packet(packet)
  {
    var bannerBytes := c.banner + NUL;
    var ipv4LE := EncodeIPv4LittleEndian(c.srcIPv4);
    var ipv6LE := EncodeIPv6LittleEndian(c.srcIPv6);
    if c.aead == None {
      return NotInitialised;
    }
    var aead := c.aead.value;
    var payload := LittleEndian(Timestamp(unixTime), 8);
    payload := payload + c.routerUUID + NUL;
    payload := payload + uuid + NUL;
    if asn > MAX_UINT32 {
      return AsnTooLarge;
    }
    payload := payload + LittleEndian(asn, 4);
    payload := payload + ipv4LE;
    payload := payload + ipv6LE;
    assert payload == Payload(c, uuid, asn, unixTime);
    if random == None {
      return NoNonce;
    }
    var nonce := random.value;
    var encrypted := aead.seal(nonce, payload);
    var totalLen := 3 + 2 + |bannerBytes| + 4 + aead.nonceSize + |encrypted| + 2;
    assert totalLen == |PacketOf(c, aead, uuid, asn, unixTime, nonce)|;
    if totalLen > MAX_UINT16 {
      return TooLarge;
    }
    var buf := HEADER;
    buf := buf + LittleEndian(totalLen, 2);
    buf := buf + bannerBytes;
    buf := buf + LittleEndian(aead.nonceSize, 4);
    buf := buf + nonce;
    buf := buf + encrypted;
    buf := buf + FOOTER;
    assert buf == HEADER + (LittleEndian(totalLen, 2) + Body(c.banner, nonce, encrypted));
    return Packet(buf);
  }

  // ---------------------------------------------------------------------------------------
  // Decoding.
  // ---------------------------------------------------------------------------------------

  /** What the center can learn from a packet; addresses are in network order. */
  datatype Fields = Fields(banner: Bytes, nonce: Bytes, timestamp: nat, routerUUID: Bytes, sessionUUID: Bytes,
                           asn: nat, ipv4: Bytes, ipv6: Bytes)

  predicate NulFree(s: Bytes) {
    forall i :: 0 <= i < |s| ==> s[i] != 0
  }

  /** What comes before and after the first NUL. */
  function Cut(s: Bytes): Option<(Bytes, Bytes)> {
    if s == [] then None
    else if s[0] == 0 then Some(([], s[1..]))
    else
      match Cut(s[1..])
      case None => None
      case Some((head, rest)) => Some(([s[0]] + head, rest))
  }

  lemma {:induction false} CutAfter(a: Bytes, b: Bytes)
    requires NulFree(a)
    ensures Cut(a + NUL + b) == Some((a, b))
  {
    var s := a + NUL + b;
    if a == [] {
      assert s[1..] == b;
    } else {
      CutAfter(a[1..], b);
      assert s[1..] == a[1..] + NUL + b;
      assert [a[0]] + a[1..] == a;
    }
  }

  lemma {:induction false} CutIsNulFree(s: Bytes)
    requires Cut(s).Some?
    ensures NulFree(Cut(s).value.0)
  {
    if s[0] != 0 {
      CutIsNulFree(s[1..]);
    }
  }

  /** The first bytes and the rest. */
  function Take(s: Bytes, n: nat): Option<(Bytes, Bytes)> {
    if n <= |s| then Some((s[..n], s[n..])) else None
  }

  lemma TakeFirst(a: Bytes, b: Bytes)
    ensures Take(a + b, |a|) == Some((a, b))
  {
  }

  function DecodePayload(payload: Bytes, banner: Bytes, nonce: Bytes): Option<Fields> {
    match Take(payload, 8)
    case None => None
    case Some((timestamp, s1)) =>
    match Cut(s1)
    case None => None
    case Some((router, s2)) =>
    match Cut(s2)
    case None => None
    case Some((session, s3)) =>
      if |s3| != 24 then None
      else Some(Fields(banner, nonce, FromLittleEndian(timestamp), router, session,
                       FromLittleEndian(s3[..4]), Reversed(s3[4..8]), Reversed(s3[8..])))
  }

  function DecodeBody(aead: Aead, body: Bytes): Option<Fields> {
    match Cut(body)
    case None => None
    case Some((banner, s1)) =>
    match Take(s1, 4)
    case None => None
    case Some((size, s2)) =>
    match Take(s2, FromLittleEndian(size))
    case None => None
    case Some((nonce, s3)) =>
      if |s3| < 2 || s3[|s3| - 2..] != FOOTER then None
      else
        match aead.open(nonce, s3[..|s3| - 2])
        case None => None
        case Some(payload) => DecodePayload(payload, banner, nonce)
  }

  /** Rejects a packet whose header, length or footer is wrong or whose payload does not open. */
  function Decode(aead: Aead, packet: Bytes): Option<Fields> {
    if |packet| < 5 || packet[..3] != HEADER || FromLittleEndian(packet[3..5]) != |packet| then None
    else DecodeBody(aead, packet[5..])
  }

  function FieldsOf(c: Config, uuid: Bytes, asn: nat, unixTime: int, nonce: Bytes): Fields {
    Fields(c.banner, nonce, Timestamp(unixTime), c.routerUUID, uuid, asn, Address4(c.srcIPv4), Address16(c.srcIPv6))
  }

  // ---------------------------------------------------------------------------------------
  // The layout, byte by byte.
  // ---------------------------------------------------------------------------------------

  /** An IPv4-mapped address has its last four bytes as IPv4 address; a 4-byte one is mapped for IPv6. */
  lemma AddressBytes(ip: IP)
    ensures ip.Some? && |ip.value| == 4 ==>
              Address4(ip) == ip.value && Address16(ip) == [0, 0, 0, 0, 0, 0, 0, 0, 0, 0, 0xFF, 0xFF] + ip.value
    ensures ip.Some? && |ip.value| == 16 ==>
              && Address16(ip) == ip.value
              && Address4(ip) == if ip.value[..12] == [0, 0, 0, 0, 0, 0, 0, 0, 0, 0, 0xFF, 0xFF] then ip.value[12..] else [0, 0, 0, 0]
    ensures ip.None? || (|ip.value| != 4 && |ip.value| != 16) ==>
              Address4(ip) == [0, 0, 0, 0] && Address16(ip) == [0, 0, 0, 0, 0, 0, 0, 0, 0, 0, 0, 0, 0, 0, 0, 0]
  {
  }

  function Number2(b: Bytes): int
    requires |b| == 2
  {
    b[0] as int + 256 * b[1] as int
  }

  function Number4(b: Bytes): int
    requires |b| == 4
  {
    Number2(b[..2]) + 0x1_0000 * Number2(b[2..])
  }

  function Number8(b: Bytes): int
    requires |b| == 8
  {
    Number2(b[..2]) + 0x1_0000 * Number2(b[2..4]) + 0x1_0000_0000 * Number4(b[4..])
  }

  lemma {:induction false} LittleEndianStep(value: nat, width: nat)
    ensures LittleEndian(value, width + 2)[..2] == [value % 256, value / 256 % 256]
    ensures LittleEndian(value, width + 2)[2..] == LittleEndian(value / 0x1_0000, width)
  {
    assert LittleEndian(value, width + 2) == [value % 256] + ([value / 256 % 256] + LittleEndian(value / 256 / 256, width));
    assert value / 256 / 256 == value / 0x1_0000;
  }

  lemma {:induction false} TwoBytes(v: nat)
    requires v < 0x1_0000
    ensures Number2(LittleEndian(v, 2)) == v
  {
    LittleEndianStep(v, 0);
    assert LittleEndian(v, 2) == LittleEndian(v, 2)[..2];
    hide LittleEndian;
  }

  lemma LowBytes(v: nat)
    ensures Number2([v % 256, v / 256 % 256]) == v % 0x1_0000
  {
    var (high, low) := (v / 0x1_0000, v % 0x1_0000);
    assert v / 256 == 256 * high + low / 256 && v % 256 == low % 256;
    assert (256 * high + low / 256) % 256 == low / 256;
  }

  lemma {:induction false} FourBytes(v: nat)
    requires v < 0x1_0000_0000
    ensures Number4(LittleEndian(v, 4)) == v
  {
    LittleEndianStep(v, 2);
    TwoBytes(v / 0x1_0000);
    LowBytes(v);
    hide LittleEndian, Number2;
  }

  lemma {:induction false} EightBytes(v: nat)
    requires v < 0x1_0000_0000_0000_0000
    ensures Number8(LittleEndian(v, 8)) == v
  {
    var w := v / 0x1_0000;
    LittleEndianStep(v, 6);
    LittleEndianStep(w, 4);
    FourBytes(w / 0x1_0000);
    LowBytes(v);
    LowBytes(w);
    hide LittleEndian, Number2, Number4;
    var b := LittleEndian(v, 8);
    assert b[2..4] == b[2..][..2] && b[4..] == b[2..][2..];
  }

  /** Where everything in a packet stands. */
  lemma Layout(c: Config, aead: Aead, uuid: Bytes, asn: nat, unixTime: int, nonce: Bytes)
    requires |PacketOf(c, aead, uuid, asn, unixTime, nonce)| <= 0xFFFF
    ensures var (p, n, m) := (PacketOf(c, aead, uuid, asn, unixTime, nonce), |c.banner|, |nonce|);
            && |p| >= 12 + n + m && p[..3] == [0x42, 0x42, 0x42] && Number2(p[3..5]) == |p|
            && p[5..5 + n] == c.banner && p[5 + n] == 0
            && Number4(p[6 + n..10 + n]) == m && p[10 + n..10 + n + m] == nonce
            && p[10 + n + m..|p| - 2] == aead.seal(nonce, Payload(c, uuid, asn, unixTime))
            && p[|p| - 2..] == [0x21, 0x89]
  {
    hide Payload, LittleEndian, Number2, Number4;
    var (p, n, m) := (PacketOf(c, aead, uuid, asn, unixTime, nonce), |c.banner|, |nonce|);
    var encrypted := aead.seal(nonce, Payload(c, uuid, asn, unixTime));
    var (size, length) := (LittleEndian(m, 4), LittleEndian(|p|, 2));
    assert p == HEADER + length + c.banner + NUL + size + nonce + encrypted + FOOTER;
    TwoBytes(|p|);
    FourBytes(m);
    assert p[3..5] == length && p[6 + n..10 + n] == size;
  }

  /** Where everything in the payload stands, addresses back to front. */
  lemma PayloadLayout(c: Config, uuid: Bytes, asn: nat, unixTime: int)
    requires asn < 0x1_0000_0000
    ensures var (p, r, u) := (Payload(c, uuid, asn, unixTime), |c.routerUUID|, |uuid|);
            && |p| == r + u + 34
            && Number8(p[..8]) == (if 0 <= unixTime < 0x1_0000_0000_0000_0000 then unixTime else unixTime % 0x1_0000_0000_0000_0000)
            && p[8..8 + r] == c.routerUUID && p[8 + r] == 0
            && p[9 + r..9 + r + u] == uuid && p[9 + r + u] == 0
            && Number4(p[10 + r + u..14 + r + u]) == asn
            && p[14 + r + u..18 + r + u] == Reversed(Address4(c.srcIPv4))
            && p[18 + r + u..] == Reversed(Address16(c.srcIPv6))
  {
    hide LittleEndian, Address4, Address16, Number4, Number8, Reversed;
    var (p, r, u) := (Payload(c, uuid, asn, unixTime), |c.routerUUID|, |uuid|);
    var (time, number) := (LittleEndian(Timestamp(unixTime), 8), LittleEndian(asn, 4));
    EightBytes(Timestamp(unixTime));
    FourBytes(asn);
    var (a, b) := (Reversed(Address4(c.srcIPv4)), Reversed(Address16(c.srcIPv6)));
    assert p == time + c.routerUUID + NUL + uuid + NUL + number + a + b;
    assert p[..8] == time && p[10 + r + u..14 + r + u] == number;
  }

  lemma ReversedTwice(s: Bytes)
    ensures Reversed(Reversed(s)) == s
  {
  }

  /** The length field is the length of the packet. */
  lemma LengthField(c: Config, aead: Aead, uuid: Bytes, asn: nat, unixTime: int, nonce: Bytes)
    ensures var packet := PacketOf(c, aead, uuid, asn, unixTime, nonce);
            && |packet| >= 5 && packet[..3] == HEADER
            && packet[5..] == Body(c.banner, nonce, aead.seal(nonce, Payload(c, uuid, asn, unixTime)))
            && (|packet| <= MAX_UINT16 ==> FromLittleEndian(packet[3..5]) == |packet|)
  {
    var body := Body(c.banner, nonce, aead.seal(nonce, Payload(c, uuid, asn, unixTime)));
    var packet := PacketOf(c, aead, uuid, asn, unixTime, nonce);
    assert packet[3..5] == LittleEndian(|packet|, 2) && packet[5..] == body;
    Widths();
    if |packet| <= MAX_UINT16 {
      LittleEndianInverse(|packet|, 2);
    }
  }

  lemma PayloadDecodes(c: Config, uuid: Bytes, asn: nat, unixTime: int, banner: Bytes, nonce: Bytes)
    requires asn <= MAX_UINT32 && NulFree(c.routerUUID) && NulFree(uuid)
    ensures DecodePayload(Payload(c, uuid, asn, unixTime), banner, nonce)
            == Some(FieldsOf(c, uuid, asn, unixTime, nonce).(banner := banner))
  {
    Widths();
    LittleEndianInverse(Timestamp(unixTime), 8);
    LittleEndianInverse(asn, 4);
    var (ip4, ip6) := (Reversed(Address4(c.srcIPv4)), Reversed(Address16(c.srcIPv6)));
    ReversedTwice(Address4(c.srcIPv4));
    ReversedTwice(Address16(c.srcIPv6));
    var s3 := LittleEndian(asn, 4) + (ip4 + ip6);
    assert s3[..4] == LittleEndian(asn, 4) && s3[4..8] == ip4 && s3[8..] == ip6;
    var s2 := uuid + NUL + s3;
    CutAfter(uuid, s3);
    CutAfter(c.routerUUID, s2);
    TakeFirst(LittleEndian(Timestamp(unixTime), 8), c.routerUUID + NUL + s2);
    hide Cut, Take, LittleEndian, FromLittleEndian, Reversed, Address4, Address16, Timestamp, NulFree;
  }

  lemma BodyDecodes(c: Config, aead: Aead, uuid: Bytes, asn: nat, unixTime: int, nonce: Bytes)
    requires OpensWhatItSeals(aead) && |nonce| == aead.nonceSize <= MAX_UINT32 && asn <= MAX_UINT32
    requires NulFree(c.banner) && NulFree(c.routerUUID) && NulFree(uuid)
    ensures DecodeBody(aead, Body(c.banner, nonce, aead.seal(nonce, Payload(c, uuid, asn, unixTime))))
            == Some(FieldsOf(c, uuid, asn, unixTime, nonce))
  {
    var payload := Payload(c, uuid, asn, unixTime);
    var encrypted := aead.seal(nonce, payload);
    Widths();
    LittleEndianInverse(|nonce|, 4);
    var s3 := encrypted + FOOTER;
    assert s3[|s3| - 2..] == FOOTER && s3[..|s3| - 2] == encrypted;
    var s1 := LittleEndian(|nonce|, 4) + (nonce + s3);
    CutAfter(c.banner, s1);
    TakeFirst(LittleEndian(|nonce|, 4), nonce + s3);
    TakeFirst(nonce, s3);
    PayloadDecodes(c, uuid, asn, unixTime, c.banner, nonce);
    hide Cut, Take, LittleEndian, FromLittleEndian, NulFree, Payload, DecodePayload;
  }

  lemma DecodedNulFree(aead: Aead, packet: Bytes)
    requires Decode(aead, packet).Some?
    ensures var f := Decode(aead, packet).value; NulFree(f.banner) && NulFree(f.routerUUID) && NulFree(f.sessionUUID)
  {
    var body := packet[5..];
    CutIsNulFree(body);
    var (nonce, s3) := Take(Take(Cut(body).value.1, 4).value.1, FromLittleEndian(Take(Cut(body).value.1, 4).value.0)).value;
    var payload := aead.open(nonce, s3[..|s3| - 2]).value;
    var s1 := Take(payload, 8).value.1;
    CutIsNulFree(s1);
    CutIsNulFree(Cut(s1).value.1);
  }

  /** A packet that fits its length field gives back everything that went into it, exactly when
      banner and UUIDs hold no NUL. */
  lemma RoundTrip(c: Config, aead: Aead, uuid: Bytes, asn: nat, unixTime: int, nonce: Bytes)
    requires OpensWhatItSeals(aead) && |nonce| == aead.nonceSize && asn <= MAX_UINT32
    requires |PacketOf(c, aead, uuid, asn, unixTime, nonce)| <= MAX_UINT16
    ensures Decode(aead, PacketOf(c, aead, uuid, asn, unixTime, nonce)) == Some(FieldsOf(c, uuid, asn, unixTime, nonce))
            <==> NulFree(c.banner) && NulFree(c.routerUUID) && NulFree(uuid)
  {
    var packet := PacketOf(c, aead, uuid, asn, unixTime, nonce);
    LengthField(c, aead, uuid, asn, unixTime, nonce);
    if NulFree(c.banner) && NulFree(c.routerUUID) && NulFree(uuid) {
      BodyDecodes(c, aead, uuid, asn, unixTime, nonce);
    }
    if Decode(aead, packet) == Some(FieldsOf(c, uuid, asn, unixTime, nonce)) {
      DecodedNulFree(aead, packet);
    }
    hide PacketOf, NulFree, DecodeBody;
  }
}
