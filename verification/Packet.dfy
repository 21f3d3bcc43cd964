/**
 Wire form of tunnel packets: the common header and its six checks, and the roster
 payload (client/src/tunnel/packet.cpp).  Encoders and decoders are stated as functions
 on byte sequences; the loops that fill and walk buffers are proved equal to them.
 */
module Packet {
  import opened Wrappers
  import opened Bytes

  // ---------------------------------------------------------------- header

  const TUNNEL_MAGIC: U32 := 0x53414E47
  const TUNNEL_VERSION: Byte := 1
  const HEADER_SIZE := 20
  const MAX_INNER := 1452
  const MAX_PEERS := 5
  const MAX_NAME_LEN := 16

  const HELLO: Byte := 1
  const HELLO_ACK: Byte := 2
  const KEEPALIVE: Byte := 3
  const DATA: Byte := 4
  const PING: Byte := 5
  const PONG: Byte := 6
  const CLOSE: Byte := 7
  const ROSTER: Byte := 8

  datatype PacketError =
    | Short | Magic | Version | UnknownType | BadLength | TypeLength
    | RosterDirection | RosterStale | RosterFlags | RosterName

  datatype Header = Header(magic: U32, version: Byte, kind: Byte, payloadLength: U16,
                           peerId: U32, epoch: U32, number: U32)

  predicate PayloadLengthOk(kind: Byte, length: nat) {
    if kind == HELLO || kind == HELLO_ACK then length == 20
    else if kind == KEEPALIVE then length == 0
    else if kind == DATA then 20 <= length <= MAX_INNER
    else if kind == PING || kind == PONG then length == 8
    else if kind == CLOSE then length == 1
    else if kind == ROSTER then 16 <= length <= 135
    else false
  }

  function SerializeHeader(h: Header): (b: seq<Byte>)
    ensures |b| == HEADER_SIZE
  {
    Be32(h.magic) + [h.version, h.kind] + Be16(h.payloadLength) + Be32(h.peerId) + Be32(h.epoch) + Be32(h.number)
  }

  function DeserializeHeader(b: seq<Byte>): Header
    requires |b| >= HEADER_SIZE
  {
    Header(Read32(b, 0), b[4], b[5], Read16(b, 6), Read32(b, 8), Read32(b, 12), Read32(b, 16))
  }

  datatype Common = Reject(error: PacketError) | Accept(header: Header, payload: seq<Byte>)

  function CheckCommon(datagram: seq<Byte>): Common {
    if |datagram| < HEADER_SIZE then Reject(Short)
    else
      var h := DeserializeHeader(datagram);
      if h.magic != TUNNEL_MAGIC then Reject(Magic)
      else if h.version != TUNNEL_VERSION then Reject(Version)
      else if !(HELLO <= h.kind <= ROSTER) then Reject(UnknownType)
      else if h.payloadLength != |datagram| - HEADER_SIZE then Reject(BadLength)
      else if !PayloadLengthOk(h.kind, |datagram| - HEADER_SIZE) then Reject(TypeLength)
      else Accept(h, datagram[HEADER_SIZE..])
  }

  // None stands for the zero length build_packet returns for a payload of the wrong size.
  function BuildPacket(kind: Byte, peerId: U32, epoch: U32, number: U32, payload: seq<Byte>): Option<seq<Byte>> {
    if !PayloadLengthOk(kind, |payload|) then None
    else Some(SerializeHeader(Header(TUNNEL_MAGIC, TUNNEL_VERSION, kind, |payload|, peerId, epoch, number)) + payload)
  }

  lemma HeaderRoundTrip(h: Header, rest: seq<Byte>)
    ensures DeserializeHeader(SerializeHeader(h) + rest) == h
  {
    var b := SerializeHeader(h) + rest;
    assert b[0..4] == Be32(h.magic) && b[6..8] == Be16(h.payloadLength);
    assert b[8..12] == Be32(h.peerId) && b[12..16] == Be32(h.epoch) && b[16..20] == Be32(h.number);
    Be32Reads(h.magic, b, 0);
    Be16Reads(h.payloadLength, b, 6);
    Be32Reads(h.peerId, b, 8);
    Be32Reads(h.epoch, b, 12);
    Be32Reads(h.number, b, 16);
  }

  lemma HeaderIsItsBytes(b: seq<Byte>)
    requires |b| >= HEADER_SIZE
    ensures SerializeHeader(DeserializeHeader(b)) == b[..HEADER_SIZE]
  {
    ReadsBe32(b, 0);
    ReadsBe16(b, 6);
    ReadsBe32(b, 8);
    ReadsBe32(b, 12);
    ReadsBe32(b, 16);
  }

  // What is built is accepted with the same fields and payload; what is accepted was so built.
  lemma BuildThenCheck(kind: Byte, peerId: U32, epoch: U32, number: U32, payload: seq<Byte>)
    ensures BuildPacket(kind, peerId, epoch, number, payload).Some? <==> PayloadLengthOk(kind, |payload|)
    ensures PayloadLengthOk(kind, |payload|) ==>
              var c := CheckCommon(BuildPacket(kind, peerId, epoch, number, payload).value);
              && c.Accept? && c.payload == payload && c.header.kind == kind
              && c.header.peerId == peerId && c.header.epoch == epoch && c.header.number == number
  {
    if PayloadLengthOk(kind, |payload|) {
      HeaderRoundTrip(Header(TUNNEL_MAGIC, TUNNEL_VERSION, kind, |payload|, peerId, epoch, number), payload);
    }
  }

  lemma CheckThenBuild(datagram: seq<Byte>)
    requires CheckCommon(datagram).Accept?
    ensures var c := CheckCommon(datagram);
            BuildPacket(c.header.kind, c.header.peerId, c.header.epoch, c.header.number, c.payload) == Some(datagram)
  {
    HeaderIsItsBytes(datagram);
    assert datagram == datagram[..HEADER_SIZE] + datagram[HEADER_SIZE..];
  }

  // ---------------------------------------------------------------- roster

  // name holds the significant bytes only.
  datatype Member = Member(peerId: U32, virtualIp: U32, connected: bool, name: seq<Byte>)
  datatype Roster = Roster(generation: U32, members: seq<Member>)
  datatype RosterContext = RosterContext(senderIsHost: bool, lastGeneration: Option<U32>)
  datatype RosterResult = RosterOk(roster: Roster) | RosterBad(error: PacketError)

  predicate IsNameByte(c: Byte) {
    'A' as int <= c <= 'Z' as int || 'a' as int <= c <= 'z' as int || '0' as int <= c <= '9' as int || c == '_' as int
  }

  predicate IsValidName(name: seq<Byte>) {
    1 <= |name| <= MAX_NAME_LEN && forall i | 0 <= i < |name| :: IsNameByte(name[i])
  }

  predicate ValidNames(ms: seq<Member>) {
    forall i | 0 <= i < |ms| :: IsValidName(ms[i].name)
  }

  predicate IsValidRoster(r: Roster) {
    1 <= |r.members| <= MAX_PEERS && ValidNames(r.members)
  }

  function MemberBytes(m: Member): seq<Byte>
    requires |m.name| <= MAX_NAME_LEN
  {
    Be32(m.peerId) + Be32(m.virtualIp) + [if m.connected then 1 else 0] + [|m.name|] + m.name
  }

  function MembersBytes(ms: seq<Member>): seq<Byte>
    requires ValidNames(ms)
  {
    if ms == [] then []
    else
      assert IsValidName(ms[0].name);
      MemberBytes(ms[0]) + MembersBytes(ms[1..])
  }

  function RosterBytes(r: Roster): seq<Byte>
    requires IsValidRoster(r)
  {
    Be32(r.generation) + [|r.members|] + MembersBytes(r.members)
  }

  // One member as read, with the flag byte kept whole.
  datatype RawMember = RawMember(member: Member, flags: Byte)

  // The members read from pos onwards, and the position after them.
  function ReadMembers(p: seq<Byte>, pos: nat, count: nat): Option<(seq<RawMember>, nat)>
    requires pos <= |p|
    decreases count
  {
    if count == 0 then Some(([], pos))
    else if |p| - pos < 10 then None
    else
      var nameLen := p[pos + 9];
      if !(1 <= nameLen <= MAX_NAME_LEN) || |p| - pos - 10 < nameLen then None
      else
        match ReadMembers(p, pos + 10 + nameLen, count - 1)
        case None => None
        case Some((rest, end)) => Some(([ReadMember(p, pos)] + rest, end))
  }

  function ReadMember(p: seq<Byte>, pos: nat): RawMember
    requires pos + 10 <= |p| && pos + 10 + p[pos + 9] <= |p|
  {
    RawMember(Member(Read32(p, pos), Read32(p, pos + 4), p[pos + 8] % 2 == 1,
                     p[pos + 10..pos + 10 + p[pos + 9]]), p[pos + 8])
  }

  function MembersOf(raw: seq<RawMember>): (ms: seq<Member>)
    ensures |ms| == |raw|
    ensures forall i | 0 <= i < |raw| :: ms[i] == raw[i].member
  {
    if raw == [] then [] else [raw[0].member] + MembersOf(raw[1..])
  }

  function RawOf(ms: seq<Member>): (raw: seq<RawMember>)
    ensures |raw| == |ms|
    ensures forall i | 0 <= i < |ms| :: raw[i].member == ms[i] && raw[i].flags < 2
    ensures MembersOf(raw) == ms
  {
    if ms == [] then [] else [RawMember(ms[0], if ms[0].connected then 1 else 0)] + RawOf(ms[1..])
  }

  // The five receive checks in their order: direction, structure, generation, flags, names.
  function DecodeRoster(p: seq<Byte>, context: RosterContext): RosterResult {
    if !context.senderIsHost then RosterBad(RosterDirection)
    else if |p| < 5 || !(1 <= p[4] <= MAX_PEERS) then RosterBad(TypeLength)
    else
      match ReadMembers(p, 5, p[4])
      case None => RosterBad(TypeLength)
      case Some((raw, end)) =>
        if end != |p| then RosterBad(TypeLength)
        else if context.lastGeneration.Some? && Read32(p, 0) < context.lastGeneration.value then RosterBad(RosterStale)
        else if exists i | 0 <= i < |raw| :: raw[i].flags >= 2 then RosterBad(RosterFlags)
        else if exists i | 0 <= i < |raw| :: !IsValidName(raw[i].member.name) then RosterBad(RosterName)
        else RosterOk(Roster(Read32(p, 0), MembersOf(raw)))
  }

  predicate GenerationAcceptable(context: RosterContext, generation: U32) {
    context.lastGeneration.None? || generation >= context.lastGeneration.value
  }

  lemma {:induction false} ReadMembersOfBytes(before: seq<Byte>, ms: seq<Member>)
    requires ValidNames(ms)
    ensures var p := before + MembersBytes(ms);
            ReadMembers(p, |before|, |ms|) == Some((RawOf(ms), |p|))
    decreases ms
  {
    if ms != [] {
      assert IsValidName(ms[0].name);
      ReadMembersOfBytes(before + MemberBytes(ms[0]), ms[1..]);
      ReadConsOfBytes(before, ms[0], MembersBytes(ms[1..]), |ms| - 1, RawOf(ms[1..]));
    }
  }

  lemma ReadConsOfBytes(before: seq<Byte>, m: Member, tail: seq<Byte>, count: nat, rest: seq<RawMember>)
    requires IsValidName(m.name)
    requires var p := before + MemberBytes(m) + tail;
             ReadMembers(p, |before + MemberBytes(m)|, count) == Some((rest, |p|))
    ensures var p := before + (MemberBytes(m) + tail);
            ReadMembers(p, |before|, count + 1)
            == Some(([RawMember(m, if m.connected then 1 else 0)] + rest, |p|))
  {
    ReadMemberBefore(before, m, tail);
    ReadMembersStep(before + MemberBytes(m) + tail, |before|, m, count, rest);
    Associates(before, MemberBytes(m), tail);
  }

  lemma ReadMembersStep(p: seq<Byte>, pos: nat, m: Member, count: nat, rest: seq<RawMember>)
    requires pos + 10 + |m.name| <= |p| && p[pos + 9] == |m.name| && IsValidName(m.name)
    requires ReadMembers(p, pos + 10 + |m.name|, count) == Some((rest, |p|))
    ensures ReadMembers(p, pos, count + 1) == Some(([ReadMember(p, pos)] + rest, |p|))
  {
  }

  lemma Associates(a: seq<Byte>, b: seq<Byte>, c: seq<Byte>)
    ensures a + b + c == a + (b + c)
  {
  }

  lemma ReadMemberBefore(before: seq<Byte>, m: Member, tail: seq<Byte>)
    requires IsValidName(m.name)
    ensures var p := before + MemberBytes(m) + tail;
            && |p| >= |before| + 10 + |m.name| == |before + MemberBytes(m)|
            && p[|before| + 9] == |m.name|
            && ReadMember(p, |before|) == RawMember(m, if m.connected then 1 else 0)
  {
    ReadMemberOfBytes(before + MemberBytes(m) + tail, |before|, m);
  }

  lemma ReadMemberOfBytes(p: seq<Byte>, pos: nat, m: Member)
    requires IsValidName(m.name)
    requires pos + |MemberBytes(m)| <= |p|
    requires forall k | 0 <= k < |MemberBytes(m)| :: p[pos + k] == MemberBytes(m)[k]
    ensures |MemberBytes(m)| == 10 + |m.name| && p[pos + 9] == |m.name|
    ensures ReadMember(p, pos) == RawMember(m, if m.connected then 1 else 0)
  {
    var b := MemberBytes(m);
    Be32Reads(m.peerId, b, 0);
    assert forall k | 0 <= k < 4 :: b[4 + k] == Be32(m.virtualIp)[k];
    assert b[4..8] == Be32(m.virtualIp);
    Be32Reads(m.virtualIp, b, 4);
    assert Read32(p, pos) == Read32(b, 0) && Read32(p, pos + 4) == Read32(b, 4);
    assert b[8] == (if m.connected then 1 else 0) && b[9] == |m.name|;
    assert forall k | 0 <= k < |m.name| :: p[pos + (10 + k)] == b[10 + k] == m.name[k];
    assert p[pos + 10..pos + 10 + |m.name|] == m.name;
  }

  lemma ReadMemberIsItsBytes(p: seq<Byte>, pos: nat)
    requires pos + 10 <= |p| && pos + 10 + p[pos + 9] <= |p|
    requires ReadMember(p, pos).flags < 2 && IsValidName(ReadMember(p, pos).member.name)
    ensures MemberBytes(ReadMember(p, pos).member) == p[pos..pos + 10 + p[pos + 9]]
  {
    ReadsBe32(p, pos);
    ReadsBe32(p, pos + 4);
    var m := ReadMember(p, pos).member;
    assert p[pos..pos + 10 + p[pos + 9]] == p[pos..pos + 4] + p[pos + 4..pos + 8] + [p[pos + 8]] + [p[pos + 9]] + m.name;
  }

  lemma {:induction false} BytesOfReadMembers(p: seq<Byte>, pos: nat, count: nat, raw: seq<RawMember>, end: nat)
    requires pos <= |p| && ReadMembers(p, pos, count) == Some((raw, end))
    requires forall i | 0 <= i < |raw| :: raw[i].flags < 2 && IsValidName(raw[i].member.name)
    ensures |raw| == count && pos <= end <= |p|
    ensures MembersBytes(MembersOf(raw)) == p[pos..end]
    decreases count
  {
    if count > 0 {
      var next := pos + 10 + p[pos + 9];
      var (rest, end') := ReadMembers(p, next, count - 1).value;
      assert raw[0] == ReadMember(p, pos) && raw[1..] == rest;
      BytesOfReadMembers(p, next, count - 1, rest, end);
      ReadMemberIsItsBytes(p, pos);
      assert MembersOf(raw)[0] == raw[0].member && MembersOf(raw)[1..] == MembersOf(rest);
      assert p[pos..end] == p[pos..next] + p[next..end];
    }
  }

  // Every roster the encoder accepts is read back unchanged by a receiver that has not moved past it.
  lemma EncodeThenDecode(r: Roster, context: RosterContext)
    requires IsValidRoster(r) && context.senderIsHost && GenerationAcceptable(context, r.generation)
    ensures DecodeRoster(RosterBytes(r), context) == RosterOk(r)
  {
    var p := RosterBytes(r);
    var before := Be32(r.generation) + [|r.members|];
    ReadMembersOfBytes(before, r.members);
    assert p == before + MembersBytes(r.members);
    assert p[0..4] == Be32(r.generation);
    Be32Reads(r.generation, p, 0);
    assert p[4] == |r.members|;
  }

  // Acceptance is exactly: a host sent it, it is not stale, and it is the encoding of a valid roster.
  lemma DecodeThenEncode(p: seq<Byte>, context: RosterContext, r: Roster)
    ensures DecodeRoster(p, context) == RosterOk(r) <==>
              context.senderIsHost && IsValidRoster(r) && GenerationAcceptable(context, r.generation)
              && p == RosterBytes(r)
  {
    if context.senderIsHost && IsValidRoster(r) && GenerationAcceptable(context, r.generation) && p == RosterBytes(r) {
      EncodeThenDecode(r, context);
    }
    if DecodeRoster(p, context) == RosterOk(r) {
      var (raw, end) := ReadMembers(p, 5, p[4]).value;
      BytesOfReadMembers(p, 5, p[4], raw, end);
      ReadsBe32(p, 0);
      assert r.members == MembersOf(raw);
      assert p == p[0..4] + [p[4]] + p[5..end];
    }
  }

  // ---------------------------------------------------------------- the loops

  function RosterSize(ms: seq<Member>): nat {
    if ms == [] then 5 else RosterSize(ms[..|ms| - 1]) + 10 + |ms[|ms| - 1].name|
  }

  lemma {:induction false} MembersBytesAppend(ms: seq<Member>)
    requires ms != [] && ValidNames(ms)
    ensures MembersBytes(ms) == MembersBytes(ms[..|ms| - 1]) + MemberBytes(ms[|ms| - 1])
  {
    hide MemberBytes;
    if |ms| > 1 {
      var rest, front := ms[1..], ms[..|ms| - 1];
      MembersBytesAppend(rest);
      assert rest[..|rest| - 1] == front[1..] && front[0] == ms[0];
      assert MembersBytes(front) == MemberBytes(ms[0]) + MembersBytes(front[1..]);
      assert MembersBytes(ms) == MemberBytes(ms[0]) + MembersBytes(rest);
      hide MembersBytes;
    } else {
      assert ms[1..] == [] && ms[..0] == [];
    }
  }

  lemma {:induction false} RosterSizeIsLength(ms: seq<Member>)
    requires ValidNames(ms)
    ensures |MembersBytes(ms)| + 5 == RosterSize(ms)
  {
    if ms != [] {
      MembersBytesAppend(ms);
      RosterSizeIsLength(ms[..|ms| - 1]);
    }
  }

  method WriteBytes(out: array<Byte>, at: nat, bytes: seq<Byte>)
    requires at + |bytes| <= out.Length
    modifies out
    ensures out[..at + |bytes|] == old(out[..at]) + bytes
  {
    for i := 0 to |bytes|
      invariant out[..at + i] == old(out[..at]) + bytes[..i]
    {
      out[at + i] := bytes[i];
      assert out[..at + i + 1] == out[..at + i] + [bytes[i]];
    }
  }

  method MeasureRoster(r: Roster) returns (total: nat)
    ensures IsValidRoster(r) ==> total == |RosterBytes(r)|
    ensures !IsValidRoster(r) ==> total == 0
  {
    if |r.members| < 1 || |r.members| > MAX_PEERS {
      return 0;
    }
    total := 5;
    for i := 0 to |r.members|
      invariant forall k | 0 <= k < i :: IsValidName(r.members[k].name)
      invariant total == RosterSize(r.members[..i])
    {
      if !IsValidName(r.members[i].name) {
        return 0;
      }
      assert r.members[..i + 1][..i] == r.members[..i];
      total := total + 10 + |r.members[i].name|;
    }
    assert r.members[..|r.members|] == r.members;
    RosterSizeIsLength(r.members);
  }

  // The encoding up to the i-th member.
  function Prefix(r: Roster, i: nat): seq<Byte>
    requires IsValidRoster(r) && i <= |r.members|
  {
    Be32(r.generation) + [|r.members|] + MembersBytes(r.members[..i])
  }

  lemma PrefixStep(r: Roster, i: nat)
    requires IsValidRoster(r) && i < |r.members|
    ensures Prefix(r, i + 1) == Prefix(r, i) + MemberBytes(r.members[i])
    ensures |Prefix(r, i + 1)| <= |RosterBytes(r)|
  {
    MembersBytesStep(r.members, i);
    hide MembersBytes, MemberBytes;
    var head := Be32(r.generation) + [|r.members|];
    assert head + (MembersBytes(r.members[..i]) + MemberBytes(r.members[i]))
        == head + MembersBytes(r.members[..i]) + MemberBytes(r.members[i]);
  }

  lemma WholePrefix(r: Roster)
    requires IsValidRoster(r)
    ensures Prefix(r, 0) == Be32(r.generation) + [|r.members|] && Prefix(r, |r.members|) == RosterBytes(r)
    ensures |Prefix(r, 0)| == 5 && |RosterBytes(r)| >= 5
  {
    assert r.members[..|r.members|] == r.members;
    assert MembersBytes(r.members[..0]) == [];
  }

  method WriteMembers(r: Roster, out: array<Byte>)
    requires IsValidRoster(r) && out.Length >= |RosterBytes(r)|
    modifies out
    ensures out[..|RosterBytes(r)|] == RosterBytes(r)
  {
    WholePrefix(r);
    WriteBytes(out, 0, Be32(r.generation) + [|r.members|]);
    var pos := 5;
    hide Prefix, RosterBytes, MemberBytes;
    assert out[..pos] == Prefix(r, 0);
    for i := 0 to |r.members|
      invariant pos == |Prefix(r, i)| <= out.Length && out[..pos] == Prefix(r, i)
    {
      PrefixStep(r, i);
      var bytes := MemberBytes(r.members[i]);
      WriteBytes(out, pos, bytes);
      pos := pos + |bytes|;
    }
  }

  lemma MembersBytesStep(ms: seq<Member>, i: nat)
    requires i < |ms| && ValidNames(ms)
    ensures MembersBytes(ms[..i + 1]) == MembersBytes(ms[..i]) + MemberBytes(ms[i])
    ensures |MembersBytes(ms[..i + 1])| <= |MembersBytes(ms)|
  {
    assert ms[..i + 1][..i] == ms[..i];
    MembersBytesAppend(ms[..i + 1]);
    MembersBytesPrefix(ms, i + 1);
  }

  // Returns the number of bytes written; zero, with nothing written, when the roster is not
  // valid or does not fit.
  method EncodeRoster(r: Roster, out: array<Byte>) returns (length: nat)
    modifies out
    ensures length == 0 <==> !IsValidRoster(r) || out.Length < |RosterBytes(r)|
    ensures length > 0 ==> length <= out.Length && out[..length] == RosterBytes(r)
    ensures length == 0 ==> out[..] == old(out[..])
  {
    var total := MeasureRoster(r);
    if total == 0 || out.Length < total {
      return 0;
    }
    WriteMembers(r, out);
    length := total;
  }

  lemma {:induction false} MembersBytesPrefix(ms: seq<Member>, k: nat)
    requires k <= |ms| && ValidNames(ms)
    ensures |MembersBytes(ms[..k])| <= |MembersBytes(ms)|
    decreases |ms| - k
  {
    if k < |ms| {
      assert ms[..k + 1][..k] == ms[..k];
      MembersBytesAppend(ms[..k + 1]);
      MembersBytesPrefix(ms, k + 1);
    } else {
      assert ms[..k] == ms;
    }
  }

  // The walk over the payload with a moving position.
  method WalkMembers(p: seq<Byte>, count: nat) returns (result: Option<(seq<RawMember>, nat)>)
    requires |p| >= 5
    ensures result == ReadMembers(p, 5, count)
  {
    var pos: nat := 5;
    var raw: seq<RawMember> := [];
    Behind([], ReadMembers(p, 5, count));
    for i := 0 to count
      invariant pos <= |p|
      invariant ReadMembers(p, 5, count) == After(raw, ReadMembers(p, pos, count - i))
    {
      if |p| - pos < 10 {
        return None;
      }
      var nameLen := p[pos + 9];
      if nameLen < 1 || nameLen > MAX_NAME_LEN || |p| - pos - 10 < nameLen {
        return None;
      }
      ghost var tail := ReadMembers(p, pos + 10 + nameLen, count - i - 1);
      assert ReadMembers(p, pos, count - i) == After([ReadMember(p, pos)], tail);
      AfterTwo(raw, [ReadMember(p, pos)], tail);
      raw := raw + [ReadMember(p, pos)];
      pos := pos + 10 + nameLen;
      hide ReadMembers, After, ReadMember;
    }
    assert raw + [] == raw;
    result := Some((raw, pos));
  }

  // These members, and then the rest.
  function After(raw: seq<RawMember>, rest: Option<(seq<RawMember>, nat)>): Option<(seq<RawMember>, nat)> {
    match rest
    case None => None
    case Some((more, end)) => Some((raw + more, end))
  }

  lemma AfterTwo(a: seq<RawMember>, b: seq<RawMember>, rest: Option<(seq<RawMember>, nat)>)
    ensures After(a, After(b, rest)) == After(a + b, rest)
  {
    if rest.Some? {
      assert a + (b + rest.value.0) == a + b + rest.value.0;
    }
  }

  lemma Behind(a: seq<RawMember>, rest: Option<(seq<RawMember>, nat)>)
    requires a == []
    ensures After(a, rest) == rest
  {
    if rest.Some? {
      assert [] + rest.value.0 == rest.value.0;
    }
  }

  method Decode(p: seq<Byte>, context: RosterContext) returns (result: RosterResult)
    ensures result == DecodeRoster(p, context)
  {
    if !context.senderIsHost {
      return RosterBad(RosterDirection);
    }
    if |p| < 5 || p[4] < 1 || p[4] > MAX_PEERS {
      return RosterBad(TypeLength);
    }
    var walked := WalkMembers(p, p[4]);
    if walked.None? || walked.value.1 != |p| {
      return RosterBad(TypeLength);
    }
    var raw := walked.value.0;
    hide ReadMembers, MembersOf, IsValidName;
    if context.lastGeneration.Some? && Read32(p, 0) < context.lastGeneration.value {
      return RosterBad(RosterStale);
    }
    var known := FlagsKnown(raw);
    if !known {
      return RosterBad(RosterFlags);
    }
    var named := NamesValid(raw);
    if !named {
      return RosterBad(RosterName);
    }
    result := RosterOk(Roster(Read32(p, 0), MembersOf(raw)));
  }

  method FlagsKnown(raw: seq<RawMember>) returns (ok: bool)
    ensures ok <==> !exists i | 0 <= i < |raw| :: raw[i].flags >= 2
  {
    for i := 0 to |raw|
      invariant forall k | 0 <= k < i :: raw[k].flags < 2
    {
      if raw[i].flags >= 2 {
        return false;
      }
    }
    return true;
  }

  method NamesValid(raw: seq<RawMember>) returns (ok: bool)
    ensures ok <==> !exists i | 0 <= i < |raw| :: !IsValidName(raw[i].member.name)
  {
    hide IsValidName;
    for i := 0 to |raw|
      invariant forall k | 0 <= k < i :: IsValidName(raw[k].member.name)
    {
      if !IsValidName(raw[i].member.name) {
        return false;
      }
    }
    return true;
  }
}
