/**
 The inner IPv4 packets the tunnel carries: receive check, synthetic packets and the
 two kinds of reply, with the Internet checksum of RFC 1071 underneath.
 client/src/tunnel/tunnel.cpp, client/src/tunnel/data_sender.cpp, client/src/testbuild/instrument.cpp
 */
module Ipv4 {
  import opened Wrappers
  import opened Bytes

  // ---------------------------------------------------------------- reference

  // Sum of the big-endian 16-bit words; an odd last byte is padded with zero.
  function WordSum(p: seq<Byte>): nat {
    if |p| == 0 then 0
    else if |p| == 1 then p[0] * 256
    else p[0] * 256 + p[1] + WordSum(p[2..])
  }

  // End-around carry.
  function Fold(s: nat): nat {
    if s < 0x1_0000 then s else Fold(s % 0x1_0000 + s / 0x1_0000)
  }

  // RFC 1071: a block with its checksum in place sums to all ones.
  predicate SumsToOnes(p: seq<Byte>) {
    Fold(WordSum(p)) == 0xFFFF
  }

  lemma {:induction false} FoldResidue(s: nat)
    ensures Fold(s) <= 0xFFFF
    ensures Fold(s) % 0xFFFF == s % 0xFFFF
    ensures Fold(s) == 0 <==> s == 0
  {
    if s >= 0x1_0000 {
      var t := s % 0x1_0000 + s / 0x1_0000;
      FoldResidue(t);
      CarryResidue(s, t, s / 0x1_0000);
    }
  }

  lemma CarryResidue(s: nat, t: nat, carry: nat)
    requires s == t + 0xFFFF * carry
    ensures s % 0xFFFF == t % 0xFFFF
  {
    assert s == 0xFFFF * (t / 0xFFFF + carry) + t % 0xFFFF;
  }

  lemma ComplementCompletes(s: nat)
    ensures Fold(s) <= 0xFFFF
    ensures Fold(s + (0xFFFF - Fold(s))) == 0xFFFF
  {
    FoldResidue(s);
    var t := ComplementResidue(s, Fold(s));
    FoldResidue(t);
    OnesOnly(Fold(t), t);
  }

  lemma ComplementResidue(s: nat, f: nat) returns (t: nat)
    requires f <= 0xFFFF && f % 0xFFFF == s % 0xFFFF && (f == 0 <==> s == 0)
    ensures t == s + (0xFFFF - f) && t > 0 && t % 0xFFFF == 0
  {
    t := s + (0xFFFF - f);
    assert s == 0xFFFF * (s / 0xFFFF) + s % 0xFFFF;
    assert f == 0xFFFF * (f / 0xFFFF) + f % 0xFFFF;
    assert t == 0xFFFF * (s / 0xFFFF - f / 0xFFFF + 1);
  }

  lemma OnesOnly(f: nat, t: nat)
    requires f <= 0xFFFF && f > 0 && t % 0xFFFF == 0 && f % 0xFFFF == t % 0xFFFF
    ensures f == 0xFFFF
  {
  }

  lemma {:induction false} WordSumUpdate(p: seq<Byte>, k: nat, v: Byte)
    requires k < |p|
    ensures k % 2 == 0 ==> WordSum(p[k := v]) == WordSum(p) + 256 * (v - p[k])
    ensures k % 2 == 1 ==> WordSum(p[k := v]) == WordSum(p) + v - p[k]
  {
    if k >= 2 {
      WordSumUpdate(p[2..], k - 2, v);
      assert p[k := v][2..] == p[2..][k - 2 := v];
    } else if |p| > 1 {
      assert p[k := v][2..] == p[2..];
    }
  }

  // ---------------------------------------------------------------- bytes

  function Pow256(k: nat): nat
    ensures Pow256(k) >= 1
  {
    if k == 0 then 1 else 256 * Pow256(k - 1)
  }

  // Byte i of a width-byte big-endian number.
  function ByteOf(value: nat, width: nat, i: nat): Byte
    requires i < width
  {
    (value / Pow256(width - 1 - i)) % 256
  }

  lemma ByteOf4(value: U32)
    ensures ByteOf(value, 4, 0) * 0x100_0000 + ByteOf(value, 4, 1) * 0x1_0000
            + ByteOf(value, 4, 2) * 0x100 + ByteOf(value, 4, 3) == value
  {
    assert Pow256(0) == 1;
    assert Pow256(1) == 0x100;
    assert Pow256(2) == 0x1_0000;
    assert Pow256(3) == 0x100_0000;
    FourDigits(value);
  }

  lemma ByteOf2(value: U16)
    ensures ByteOf(value, 2, 0) * 256 + ByteOf(value, 2, 1) == value
  {
    assert Pow256(0) == 1 && Pow256(1) == 0x100;
  }

  // ---------------------------------------------------------------- receive check

  datatype InnerError = InnerOk | NotIpv4 | BadIhl | BadChecksum | BadTotal | BadSource | BadDestination

  function InnerVerdict(p: seq<Byte>, peerVip: U32, localVip: U32): (e: InnerError)
    ensures e == InnerOk <==> IsInnerPacket(p, peerVip, localVip)
  {
    if |p| == 0 || p[0] / 16 != 4 then NotIpv4
    else
      var header := p[0] % 16 * 4;
      if header < 20 || header > |p| then BadIhl
      else if !SumsToOnes(p[..header]) then BadChecksum
      else if Read16(p, 2) != |p| then BadTotal
      else if Read32(p, 12) != peerVip then BadSource
      else if Read32(p, 16) != localVip then BadDestination
      else InnerOk
  }

  // A complete IPv4 packet between the two addresses.
  predicate IsInnerPacket(p: seq<Byte>, source: U32, destination: U32) {
    && |p| >= 20
    && p[0] / 16 == 4
    && 20 <= p[0] % 16 * 4 <= |p|
    && SumsToOnes(p[..p[0] % 16 * 4])
    && Read16(p, 2) == |p|
    && Read32(p, 12) == source
    && Read32(p, 16) == destination
  }

  method FoldSum(start: nat) returns (sum: nat)
    ensures sum == Fold(start)
  {
    sum := start;
    while sum / 0x1_0000 != 0
      invariant Fold(sum) == Fold(start)
      decreases sum
    {
      sum := sum % 0x1_0000 + sum / 0x1_0000;
    }
  }

  method CheckInner(payload: seq<Byte>, peerVip: U32, localVip: U32) returns (e: InnerError)
    ensures e == InnerVerdict(payload, peerVip, localVip)
  {
    if |payload| == 0 || payload[0] / 16 != 4 {
      return NotIpv4;
    }
    var ihl := payload[0] % 16;
    if ihl < 5 || ihl * 4 > |payload| {
      return BadIhl;
    }
    var header := payload[..ihl * 4];
    var sum, i := 0, 0;
    while i < ihl * 4
      invariant 0 <= i <= ihl * 4 && i % 2 == 0
      invariant sum + WordSum(header[i..]) == WordSum(header)
    {
      assert header[i..][2..] == header[i + 2..];
      sum := sum + Read16(payload, i);
      i := i + 2;
    }
    sum := FoldSum(sum);
    if sum != 0xFFFF {
      return BadChecksum;
    }
    if Read16(payload, 2) != |payload| {
      return BadTotal;
    }
    if Read32(payload, 12) != peerVip {
      return BadSource;
    }
    if Read32(payload, 16) != localVip {
      return BadDestination;
    }
    return InnerOk;
  }

  // ---------------------------------------------------------------- building packets in place

  const MARKER_OFFSET := 40
  const MARKER_REQUEST: Byte := 0xA5
  const MARKER_ECHO: Byte := 0x5A
  const SYNTHETIC_PORT := 25565

  method Put(p: array<Byte>, at: nat, value: nat, width: nat)
    modifies p
    ensures forall k | 0 <= k < p.Length ::
              p[k] == if at <= k < at + width then ByteOf(value, width, k - at) else old(p[k])
  {
    for i := 0 to width
      invariant forall k | 0 <= k < p.Length ::
                  p[k] == if at <= k < at + i then ByteOf(value, width, k - at) else old(p[k])
    {
      if at + i < p.Length {
        p[at + i] := ByteOf(value, width, i);
      }
    }
  }

  // Writing the complement of the folded sum into the two zeroed bytes completes the sum.
  lemma FilledHeader(zeroed: seq<Byte>, k: nat, checksum: U16)
    requires k % 2 == 0 && k + 1 < |zeroed| && zeroed[k] == 0 && zeroed[k + 1] == 0
    requires Fold(WordSum(zeroed)) <= 0xFFFF && checksum == 0xFFFF - Fold(WordSum(zeroed))
    ensures SumsToOnes(zeroed[k := checksum / 256][k + 1 := checksum % 256])
  {
    PatchedSum(zeroed, k, checksum);
    ComplementCompletes(WordSum(zeroed));
  }

  lemma PatchedSum(zeroed: seq<Byte>, k: nat, checksum: U16)
    requires k % 2 == 0 && k + 1 < |zeroed| && zeroed[k] == 0 && zeroed[k + 1] == 0
    ensures WordSum(zeroed[k := checksum / 256][k + 1 := checksum % 256]) == WordSum(zeroed) + checksum
  {
    WordSumUpdate(zeroed, k, checksum / 256);
    WordSumUpdate(zeroed[k := checksum / 256], k + 1, checksum % 256);
  }

  method FillIpv4Checksum(packet: array<Byte>)
    modifies packet
    ensures packet.Length >= 20 ==> SumsToOnes(packet[..20])
    ensures forall k | 0 <= k < packet.Length :: packet[k] == old(packet[k]) || (packet.Length >= 20 && k in {10, 11})
  {
    if packet.Length < 20 {
      return;
    }
    packet[10] := 0;
    packet[11] := 0;
    ghost var zeroed: seq<Byte> := packet[..20];
    var sum, i := 0, 0;
    while i < 20
      invariant 0 <= i <= 20 && i % 2 == 0
      invariant sum + WordSum(zeroed[i..]) == WordSum(zeroed)
    {
      assert zeroed[i..][2..] == zeroed[i + 2..];
      sum := sum + 256 * (packet[i] as int) + packet[i + 1];
      i := i + 2;
    }
    FoldResidue(sum);
    sum := FoldSum(sum);
    var checksum: U16 := 0xFFFF - sum;
    FilledHeader(zeroed, 10, checksum);
    packet[10] := checksum / 256;
    packet[11] := checksum % 256;
    assert packet[..20] == zeroed[10 := checksum / 256][11 := checksum % 256];
  }

  datatype Synthetic = Synthetic(size: U16, src: U32, dst: U32, number: U32, sentMs: nat)

  // The layout: IPv4 header, UDP header, number, time, fill.  The checksum at 10 depends on the rest.
  function FieldAt(f: Synthetic, k: nat): Byte
    requires f.size >= 20
  {
    if k < 1 then 0x45 else if k < 2 then 0
    else if k < 4 then ByteOf(f.size, 2, k - 2)
    else if k < 8 then 0 else if k < 9 then 64 else if k < 10 then 17 else if k < 12 then 0
    else if k < 16 then ByteOf(f.src, 4, k - 12)
    else if k < 20 then ByteOf(f.dst, 4, k - 16)
    else if k < 22 then ByteOf(SYNTHETIC_PORT, 2, k - 20)
    else if k < 24 then ByteOf(SYNTHETIC_PORT, 2, k - 22)
    else if k < 26 then ByteOf(f.size - 20, 2, k - 24)
    else if k < 28 then 0
    else if k < 32 then ByteOf(f.number, 4, k - 28)
    else if k < 40 then ByteOf(f.sentMs, 8, k - 32)
    else MARKER_REQUEST
  }

  lemma SmallBytes()
    ensures ByteOf(0x45, 1, 0) == 0x45 && ByteOf(64, 1, 0) == 64 && ByteOf(17, 1, 0) == 17 && ByteOf(0, 1, 0) == 0
    ensures ByteOf(0, 2, 0) == 0 && ByteOf(0, 2, 1) == 0
  {
    assert Pow256(0) == 1;
  }

  method PutHeader(p: array<Byte>, f: Synthetic)
    requires p.Length == f.size >= 20
    modifies p
    ensures forall k | 0 <= k < 20 :: p[k] == FieldAt(f, k)
    ensures forall k | 20 <= k < p.Length :: p[k] == old(p[k])
  {
    hide ByteOf;
    PutLength(p, f);
    PutProtocol(p);
    PutAddresses(p, f);
  }

  method PutAddresses(p: array<Byte>, f: Synthetic)
    requires p.Length == f.size >= 20
    modifies p
    ensures forall k | 10 <= k < 20 :: p[k] == FieldAt(f, k)
    ensures forall k | 0 <= k < p.Length && !(10 <= k < 20) :: p[k] == old(p[k])
  {
    SmallBytes();
    hide ByteOf;
    Put(p, 10, 0, 2);
    Put(p, 12, f.src, 4);
    Put(p, 16, f.dst, 4);
  }

  method PutLength(p: array<Byte>, f: Synthetic)
    requires p.Length == f.size >= 20
    modifies p
    ensures forall k | 0 <= k < 4 :: p[k] == FieldAt(f, k)
    ensures forall k | 4 <= k < p.Length :: p[k] == old(p[k])
  {
    SmallBytes();
    hide ByteOf;
    Put(p, 0, 0x45, 1);
    Put(p, 1, 0x00, 1);
    Put(p, 2, f.size, 2);
  }

  method PutProtocol(p: array<Byte>)
    requires p.Length >= 20
    modifies p
    ensures forall k | 4 <= k < 10 :: p[k] == if k == 8 then 64 else if k == 9 then 17 else 0
    ensures forall k | 0 <= k < p.Length && !(4 <= k < 10) :: p[k] == old(p[k])
  {
    SmallBytes();
    hide ByteOf;
    Put(p, 4, 0, 2);
    Put(p, 6, 0, 2);
    Put(p, 8, 64, 1);
    Put(p, 9, 17, 1);
  }

  lemma HeaderReads(p: seq<Byte>, f: Synthetic)
    requires |p| >= 20 && f.size >= 20 && forall k | 0 <= k < 20 && k !in {10, 11} :: p[k] == FieldAt(f, k)
    ensures p[0] == 0x45 && Read16(p, 2) == f.size && Read32(p, 12) == f.src && Read32(p, 16) == f.dst
  {
    ByteOf2(f.size);
    ByteOf4(f.src);
    ByteOf4(f.dst);
    hide ByteOf;
  }

  method PutPayload(p: array<Byte>, f: Synthetic)
    requires p.Length == f.size >= 20
    modifies p
    ensures forall k | 20 <= k < p.Length && k < 40 :: p[k] == FieldAt(f, k)
    ensures forall k | 0 <= k < p.Length && !(20 <= k < 40) :: p[k] == old(p[k])
  {
    Put(p, 20, SYNTHETIC_PORT, 2);
    Put(p, 22, SYNTHETIC_PORT, 2);
    Put(p, 24, p.Length - 20, 2);
    Put(p, 26, 0, 2);
    Put(p, 28, f.number, 4);
    Put(p, 32, f.sentMs, 8);
  }

  // Every size the console accepts, and every larger size a 16-bit length can state.
  method MakeSynthetic(size: U16, src: U32, dst: U32, number: U32, sentMs: nat) returns (p: array<Byte>)
    requires size >= 20
    ensures fresh(p) && p.Length == size
    ensures InnerVerdict(p[..], src, dst) == InnerOk
    ensures size >= 32 ==> Read32(p[..], 28) == number
    ensures forall k | 0 <= k < size && k !in {10, 11} :: p[k] == FieldAt(Synthetic(size, src, dst, number, sentMs), k)
  {
    var f := Synthetic(size, src, dst, number, sentMs);
    p := Unchecked(f);
    FillIpv4Checksum(p);
    assert p[..][..20] == p[..20];
    HeaderReads(p[..], f);
    NumberReads(p[..], f);
    hide FieldAt, SumsToOnes;
  }

  // The whole layout, with nothing yet in the place of the checksum.
  method Unchecked(f: Synthetic) returns (p: array<Byte>)
    requires f.size >= 20
    ensures fresh(p) && p.Length == f.size
    ensures forall k | 0 <= k < p.Length :: p[k] == FieldAt(f, k)
  {
    p := new Byte[f.size](_ => MARKER_REQUEST);
    hide ByteOf;
    PutHeader(p, f);
    PutPayload(p, f);
  }

  lemma NumberReads(p: seq<Byte>, f: Synthetic)
    requires f.size >= 20 && forall k | 20 <= k < |p| :: p[k] == FieldAt(f, k)
    ensures |p| >= 32 ==> Read32(p, 28) == f.number
  {
    ByteOf4(f.number);
    hide ByteOf;
  }

  method SwapAddresses(p: array<Byte>)
    requires p.Length >= 20
    modifies p
    ensures forall k | 0 <= k < p.Length ::
              p[k] == if 12 <= k < 16 then old(p[k + 4]) else if 16 <= k < 20 then old(p[k - 4]) else old(p[k])
  {
    for i := 0 to 4
      invariant forall k | 0 <= k < p.Length ::
                  p[k] == if 12 <= k < 12 + i then old(p[k + 4])
                          else if 16 <= k < 16 + i then old(p[k - 4]) else old(p[k])
    {
      p[12 + i], p[16 + i] := p[16 + i], p[12 + i];
    }
  }

  predicate IsEchoRequest(inner: seq<Byte>) {
    |inner| > MARKER_OFFSET && inner[0] % 16 == 5 && inner[MARKER_OFFSET] == MARKER_REQUEST
  }

  // The answer to a packet that passed the receive check passes it at the other end.
  method MakeEchoReply(inner: array<Byte>) returns (reply: array?<Byte>)
    ensures reply != null <==> IsEchoRequest(inner[..])
    ensures reply != null ==> fresh(reply) && reply.Length == inner.Length
    ensures reply != null ==> forall a, b: U32 ::
              InnerVerdict(inner[..], a, b) == InnerOk ==> InnerVerdict(reply[..], b, a) == InnerOk
    ensures reply != null ==> forall k | 0 <= k < 20 && k !in {10, 11} ::
              reply[k] == inner[if 12 <= k < 16 then k + 4 else if 16 <= k < 20 then k - 4 else k]
    ensures reply != null ==> reply[MARKER_OFFSET] == MARKER_ECHO
    ensures reply != null ==> forall k | 20 <= k < inner.Length && k != MARKER_OFFSET :: reply[k] == inner[k]
  {
    if inner.Length <= MARKER_OFFSET || inner[0] % 16 != 5 || inner[MARKER_OFFSET] != MARKER_REQUEST {
      return null;
    }
    var r := new Byte[inner.Length](i requires 0 <= i < inner.Length reads inner => inner[i]);
    SwapAddresses(r);
    r[MARKER_OFFSET] := MARKER_ECHO;
    FillIpv4Checksum(r);
    assert r[..][..20] == r[..20];
    hide SumsToOnes;
    reply := r;
  }

  // ---------------------------------------------------------------- ICMP echo

  function InternetChecksum(p: seq<Byte>): U16 {
    FoldResidue(WordSum(p));
    0xFFFF - Fold(WordSum(p))
  }

  lemma ChecksumZeroIsValid(p: seq<Byte>)
    ensures InternetChecksum(p) == 0 <==> SumsToOnes(p)
  {
    FoldResidue(WordSum(p));
  }

  method ComputeInternetChecksum(p: seq<Byte>) returns (c: U16)
    ensures c == InternetChecksum(p)
  {
    var sum, i := 0, 0;
    while i + 1 < |p|
      invariant 0 <= i <= |p| && i % 2 == 0
      invariant sum + WordSum(p[i..]) == WordSum(p)
    {
      assert p[i..][2..] == p[i + 2..];
      sum := sum + Read16(p, i);
      i := i + 2;
    }
    if i < |p| {
      sum := sum + 256 * (p[i] as int);
    }
    FoldResidue(sum);
    sum := FoldSum(sum);
    c := 0xFFFF - sum;
  }

  const VIRTUAL_NET := 0x0A6400
  const MAX_PEERS := 5

  // An unfragmented echo request with a valid ICMP checksum to an address of the
  // virtual /24 that no member can hold and that is not its broadcast address.
  predicate IsAnswerable(p: seq<Byte>) {
    && |p| >= 28
    && p[0] == 0x45
    && Read16(p, 2) == |p|
    && Read16(p, 6) % 0x4000 == 0
    && p[9] == 1
    && p[20] == 8 && p[21] == 0
    && SumsToOnes(p[20..])
    && Read32(p, 16) / 256 == VIRTUAL_NET
    && MAX_PEERS < Read32(p, 16) % 256 < 255
  }

  method CheckAnswerable(packet: seq<Byte>) returns (yes: bool)
    ensures yes == IsAnswerable(packet)
  {
    if |packet| < 28 || packet[0] != 0x45 {
      return false;
    }
    if Read16(packet, 2) != |packet| || Read16(packet, 6) % 0x4000 != 0 || packet[9] != 1 {
      return false;
    }
    if packet[20] != 8 || packet[21] != 0 {
      return false;
    }
    var sum := ComputeInternetChecksum(packet[20..]);
    ChecksumZeroIsValid(packet[20..]);
    if sum != 0 {
      return false;
    }
    var destination := Read32(packet, 16);
    var octet := destination % 256;
    return !(destination / 256 != VIRTUAL_NET || octet <= MAX_PEERS || octet == 255);
  }

  method FillIcmpChecksum(r: array<Byte>)
    requires r.Length >= 28
    modifies r
    ensures SumsToOnes(r[20..])
    ensures forall k | 0 <= k < r.Length && k !in {22, 23} :: r[k] == old(r[k])
  {
    r[22] := 0;
    r[23] := 0;
    ghost var zeroed: seq<Byte> := r[20..];
    var sum := ComputeInternetChecksum(r[20..]);
    FoldResidue(WordSum(zeroed));
    FilledHeader(zeroed, 2, sum);
    r[22] := sum / 256;
    r[23] := sum % 256;
    assert r[20..] == zeroed[2 := sum / 256][3 := sum % 256];
  }

  method MakeIcmpEchoReply(packet: array<Byte>) returns (reply: array?<Byte>)
    ensures reply != null <==> IsAnswerable(packet[..])
    ensures reply != null ==> fresh(reply) && reply.Length == packet.Length
    // Valid at both layers, whatever the length's parity, and addressed back.
    ensures reply != null ==> SumsToOnes(reply[20..])
    ensures reply != null ==> IsInnerPacket(reply[..], Read32(packet[..], 16), Read32(packet[..], 12))
    ensures reply != null ==> reply[8] == 64 && reply[20] == 0 && reply[21] == 0
    ensures reply != null ==> forall k | 24 <= k < packet.Length :: reply[k] == packet[k]
    ensures reply != null ==> forall k | 0 <= k < 12 && k !in {8, 10, 11} :: reply[k] == packet[k]
  {
    var yes := CheckAnswerable(packet[..]);
    if !yes {
      return null;
    }
    var r := new Byte[packet.Length](i requires 0 <= i < packet.Length reads packet => packet[i]);
    SwapAddresses(r);
    r[8] := 64;
    r[20] := 0;
    FillIcmpChecksum(r);
    label filled:
    FillIpv4Checksum(r);
    assert r[20..] == old@filled(r[20..]);
    assert r[..][..20] == r[..20];
    hide SumsToOnes, IsAnswerable;
    reply := r;
  }
}
