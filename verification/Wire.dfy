/** The datagram format (crates/jam-protocol/src/packet.rs) on byte sequences: what a packet is written
    as, and what a byte string is parsed as. */
module Wire {
  import opened Common
  import opened Utf8

  const MAGIC := 0xa5
  const PROTOCOL_VERSION := 1
  const ROOM_CODE_LEN := 6
  const MAX_CLIENTS := 4
  const HEADER_LEN := 8
  const AUDIO_HEADER_LEN := 8

  datatype ParseError =
    | Truncated | BadMagic | BadVersion(version: byte) | BadType(ptype: byte) | BadCodec(codec: byte)
    | BadDenyReason(reason: byte) | BadString | BadLength | TrailingBytes | OutOfRange

  datatype PacketType =
    AudioType | HelloType | WelcomeType | DenyType | PingType | PongType | KeepaliveType | RosterType | ByeType | AckType

  function TypeCode(t: PacketType): (b: byte)
    ensures b <= 9
  {
    match t
    case AudioType => 0 case HelloType => 1 case WelcomeType => 2 case DenyType => 3 case PingType => 4
    case PongType => 5 case KeepaliveType => 6 case RosterType => 7 case ByeType => 8 case AckType => 9
  }

  function TypeOf(b: byte): (r: Result<PacketType, ParseError>)
    ensures if r.Ok? then TypeCode(r.value) == b else b > 9 && r.error == BadType(b)
  {
    match b
    case 0 => Ok(AudioType) case 1 => Ok(HelloType) case 2 => Ok(WelcomeType) case 3 => Ok(DenyType)
    case 4 => Ok(PingType) case 5 => Ok(PongType) case 6 => Ok(KeepaliveType) case 7 => Ok(RosterType)
    case 8 => Ok(ByeType) case 9 => Ok(AckType) case _ => Err(BadType(b))
  }

  datatype Codec = Opus | PcmS16 | PcmF32

  function CodecCode(c: Codec): byte { match c case Opus => 0 case PcmS16 => 1 case PcmF32 => 2 }

  function CodecOf(b: byte): (r: Result<Codec, ParseError>)
    ensures if r.Ok? then CodecCode(r.value) == b else b > 2 && r.error == BadCodec(b)
  {
    match b case 0 => Ok(Opus) case 1 => Ok(PcmS16) case 2 => Ok(PcmF32) case _ => Err(BadCodec(b))
  }

  datatype DenyReason = BadRoomCode | RoomFull | VersionMismatch

  function ReasonCode(r: DenyReason): byte { match r case BadRoomCode => 0 case RoomFull => 1 case VersionMismatch => 2 }

  function ReasonOf(b: byte): (r: Result<DenyReason, ParseError>)
    ensures if r.Ok? then ReasonCode(r.value) == b else b > 2 && r.error == BadDenyReason(b)
  {
    match b case 0 => Ok(BadRoomCode) case 1 => Ok(RoomFull) case 2 => Ok(VersionMismatch) case _ => Err(BadDenyReason(b))
  }

  datatype Header = Header(ptype: PacketType, session: u16, sender: u16, seqno: u16)

  datatype AudioPacket = AudioPacket(timestamp: u32, codec: Codec, payload: seq<byte>, redundant: Option<seq<byte>>)

  datatype PlayerInfo = PlayerInfo(id: u16, name: Text)

  type RoomCode = s: seq<byte> | |s| == ROOM_CODE_LEN witness [0, 0, 0, 0, 0, 0]

  datatype Control =
    | Hello(version: byte, room: RoomCode, name: Text, codecMask: byte, frameMask: byte)
    | Welcome(assignedId: u16, session: u16, sampleRate: u32, frameSamples: u16, codec: Codec, roster: seq<PlayerInfo>)
    | Deny(reason: DenyReason)
    | Ping(t1: u64)
    | Pong(t1: u64, t2: u64, t3: u64)
    | Keepalive
    | Roster(roster: seq<PlayerInfo>)
    | Bye
    | Ack(ackedSeq: u16, ackedType: byte)
  {
    function Type(): PacketType {
      match this
      case Hello(_, _, _, _, _) => HelloType case Welcome(_, _, _, _, _, _) => WelcomeType case Deny(_) => DenyType
      case Ping(_) => PingType case Pong(_, _, _) => PongType case Keepalive => KeepaliveType
      case Roster(_) => RosterType case Bye => ByeType case Ack(_, _) => AckType
    }
  }

  datatype Payload = Audio(audio: AudioPacket) | Ctrl(control: Control)

  // ---------------------------------------------------------------- writing

  /** `n` big-endian bytes */
  function BE(v: nat, n: nat): (s: seq<byte>)
    ensures |s| == n
  {
    if n == 0 then [] else BE(v / 0x100, n - 1) + [v % 0x100]
  }

  function EncodeHeader(h: Header): seq<byte> {
    [MAGIC, PROTOCOL_VERSION * 16 + TypeCode(h.ptype)] + BE(h.session, 2) + BE(h.sender, 2) + BE(h.seqno, 2)
  }

  function EncodeText(s: Text): seq<byte> {
    CutKeepsText(s);
    [|Cut(s)|] + Cut(s)
  }

  function EncodeEach(ps: seq<PlayerInfo>): seq<byte> {
    if ps == [] then [] else BE(ps[0].id, 2) + (EncodeText(ps[0].name) + EncodeEach(ps[1..]))
  }

  function EncodePlayers(ps: seq<PlayerInfo>): seq<byte> { [|ps| % 0x100] + EncodeEach(ps) }

  function EncodeBody(c: Control): seq<byte> {
    match c
    case Hello(version, room, name, codecMask, frameMask) =>
      [version] + (room + (EncodeText(name) + ([codecMask] + [frameMask])))
    case Welcome(id, session, rate, samples, codec, roster) =>
      BE(id, 2) + (BE(session, 2) + (BE(rate, 4) + (BE(samples, 2) + ([CodecCode(codec)] + EncodePlayers(roster)))))
    case Deny(reason) => [ReasonCode(reason)]
    case Ping(t1) => BE(t1, 8)
    case Pong(t1, t2, t3) => BE(t1, 8) + (BE(t2, 8) + BE(t3, 8))
    case Keepalive => []
    case Roster(roster) => EncodePlayers(roster)
    case Bye => []
    case Ack(s, t) => BE(s, 2) + [t]
  }

  function EncodeControl(h: Header, c: Control): seq<byte> { EncodeHeader(h) + EncodeBody(c) }

  function EncodeAudioBody(a: AudioPacket): seq<byte> {
    BE(a.timestamp, 4) + ([CodecCode(a.codec)] + ([if a.redundant.Some? then 1 else 0] + (BE(|a.payload|, 2) + (a.payload +
      if a.redundant.Some? then BE(|a.redundant.value|, 2) + a.redundant.value else []))))
  }

  function EncodeAudio(h: Header, a: AudioPacket): seq<byte> { EncodeHeader(h) + EncodeAudioBody(a) }

  // ---------------------------------------------------------------- parsing

  /** What a cursor read yields: a value and the bytes after it. */
  type Parsed<T> = Result<(T, seq<byte>), ParseError>

  function FromBE(s: seq<byte>): nat {
    if s == [] then 0 else FromBE(s[..|s| - 1]) * 0x100 + s[|s| - 1]
  }

  function Pow256(n: nat): nat { if n == 0 then 1 else Pow256(n - 1) * 0x100 }

  lemma {:induction false} FromBEBound(s: seq<byte>)
    ensures FromBE(s) < Pow256(|s|)
    decreases |s|
  {
    if s != [] { FromBEBound(s[..|s| - 1]); }
  }

  lemma Widths()
    ensures Pow256(2) == 0x1_0000 && Pow256(4) == 0x1_0000_0000
    ensures Pow256(8) == 0x1_0000_0000_0000_0000
  {
    assert Pow256(1) == 0x100;
    assert Pow256(3) == 0x100_0000;
    assert Pow256(5) == 0x100_0000_0000;
    assert Pow256(6) == 0x1_0000_0000_0000;
    assert Pow256(7) == 0x100_0000_0000_0000;
  }

  function TakeBytes(s: seq<byte>, n: nat): Parsed<seq<byte>> {
    if |s| < n then Err(Truncated) else Ok((s[..n], s[n..]))
  }

  function TakeInt(s: seq<byte>, n: nat): (r: Parsed<nat>)
    ensures r.Ok? ==> r.value.0 < Pow256(n)
  {
    var (b, rest) :- TakeBytes(s, n);
    FromBEBound(b);
    Ok((FromBE(b), rest))
  }

  function TakeU8(s: seq<byte>): Parsed<byte> {
    if |s| < 1 then Err(Truncated) else Ok((s[0], s[1..]))
  }

  function TakeU16(s: seq<byte>): Parsed<u16> { Widths(); var (v, rest) :- TakeInt(s, 2); Ok((v, rest)) }

  function TakeU32(s: seq<byte>): Parsed<u32> { Widths(); var (v, rest) :- TakeInt(s, 4); Ok((v, rest)) }

  function TakeU64(s: seq<byte>): Parsed<u64> { Widths(); var (v, rest) :- TakeInt(s, 8); Ok((v, rest)) }

  function TakeText(s: seq<byte>): Parsed<Text> {
    var (n, s1) :- TakeU8(s);
    if n > MAX_NAME_LEN then Err(OutOfRange)
    else
      var (b, s2) :- TakeBytes(s1, n);
      if ValidText(b) then Ok((b, s2)) else Err(BadString)
  }

  function TakePlayer(s: seq<byte>): Parsed<PlayerInfo> {
    var (id, s1) :- TakeU16(s);
    var (name, s2) :- TakeText(s1);
    Ok((PlayerInfo(id, name), s2))
  }

  function TakeEach(s: seq<byte>, n: nat): Parsed<seq<PlayerInfo>>
    decreases n
  {
    if n == 0 then Ok(([], s))
    else
      var (p, s1) :- TakePlayer(s);
      var (rest, s2) :- TakeEach(s1, n - 1);
      Ok(([p] + rest, s2))
  }

  function TakePlayers(s: seq<byte>): Parsed<seq<PlayerInfo>> {
    var (n, s1) :- TakeU8(s);
    if n > MAX_CLIENTS + 1 then Err(OutOfRange) else TakeEach(s1, n)
  }

  function TakeHello(s: seq<byte>): Parsed<Control> {
    var (version, s1) :- TakeU8(s);
    var (room, s2) :- TakeBytes(s1, ROOM_CODE_LEN);
    var (name, s3) :- TakeText(s2);
    var (codecMask, s4) :- TakeU8(s3);
    var (frameMask, s5) :- TakeU8(s4);
    Ok((Hello(version, room, name, codecMask, frameMask), s5))
  }

  function TakeWelcome(s: seq<byte>): Parsed<Control> {
    var (id, s1) :- TakeU16(s);
    var (session, s2) :- TakeU16(s1);
    var (rate, s3) :- TakeU32(s2);
    var (samples, s4) :- TakeU16(s3);
    var (c, s5) :- TakeU8(s4);
    var codec :- CodecOf(c);
    var (roster, s6) :- TakePlayers(s5);
    Ok((Welcome(id, session, rate, samples, codec, roster), s6))
  }

  function TakePong(s: seq<byte>): Parsed<Control> {
    var (t1, s1) :- TakeU64(s);
    var (t2, s2) :- TakeU64(s1);
    var (t3, s3) :- TakeU64(s2);
    Ok((Pong(t1, t2, t3), s3))
  }

  function TakeControl(t: PacketType, s: seq<byte>): Parsed<Control> {
    match t
    case AudioType => Err(BadType(TypeCode(t)))
    case HelloType => TakeHello(s)
    case WelcomeType => TakeWelcome(s)
    case DenyType => var (r, s1) :- TakeU8(s); var reason :- ReasonOf(r); Ok((Deny(reason), s1))
    case PingType => var (t1, s1) :- TakeU64(s); Ok((Ping(t1), s1))
    case PongType => TakePong(s)
    case KeepaliveType => Ok((Keepalive, s))
    case RosterType => var (roster, s1) :- TakePlayers(s); Ok((Roster(roster), s1))
    case ByeType => Ok((Bye, s))
    case AckType => var (q, s1) :- TakeU16(s); var (y, s2) :- TakeU8(s1); Ok((Ack(q, y), s2))
  }

  function DecodeControl(t: PacketType, body: seq<byte>): Result<Control, ParseError> {
    var (c, rest) :- TakeControl(t, body);
    if rest == [] then Ok(c) else Err(TrailingBytes)
  }

  function DecodeHeader(s: seq<byte>): Parsed<Header> {
    if |s| < HEADER_LEN then Err(Truncated)
    else if s[0] != MAGIC then Err(BadMagic)
    else if s[1] / 16 != PROTOCOL_VERSION then Err(BadVersion(s[1] / 16))
    else
      var t :- TypeOf(s[1] % 16);
      Ok((Header(t, U16At(s, 2), U16At(s, 4), U16At(s, 6)), s[HEADER_LEN..]))
  }

  function U16At(s: seq<byte>, i: nat): u16
    requires i + 2 <= |s|
  {
    FromBEBound(s[i..i + 2]);
    Widths();
    FromBE(s[i..i + 2])
  }

  function U32At(s: seq<byte>, i: nat): u32
    requires i + 4 <= |s|
  {
    FromBEBound(s[i..i + 4]);
    Widths();
    FromBE(s[i..i + 4])
  }

  /** The redundant block behind the payload. */
  function TakeBlock(s: seq<byte>): Parsed<seq<byte>> {
    if |s| < 2 then Err(Truncated)
    else if |s| - 2 < U16At(s, 0) then Err(BadLength)
    else Ok((s[2..2 + U16At(s, 0)], s[2 + U16At(s, 0)..]))
  }

  function DecodeAudio(body: seq<byte>): Result<AudioPacket, ParseError> {
    if |body| < AUDIO_HEADER_LEN then Err(Truncated)
    else
      var codec :- CodecOf(body[4]);
      var plen := U16At(body, 6);
      var rest := body[AUDIO_HEADER_LEN..];
      if |rest| < plen then Err(BadLength)
      else if body[5] % 2 == 1 then
        var (red, tail) :- TakeBlock(rest[plen..]);
        if tail == [] then Ok(AudioPacket(U32At(body, 0), codec, rest[..plen], Some(red))) else Err(TrailingBytes)
      else
        if rest[plen..] == [] then Ok(AudioPacket(U32At(body, 0), codec, rest[..plen], None)) else Err(TrailingBytes)
  }

  /** The single entry point of the receive thread: defined on every byte string. */
  function ParseDatagram(s: seq<byte>): Result<(Header, Payload), ParseError> {
    var (h, body) :- DecodeHeader(s);
    if h.ptype.AudioType? then var a :- DecodeAudio(body); Ok((h, Audio(a)))
    else var c :- DecodeControl(h.ptype, body); Ok((h, Ctrl(c)))
  }
}
