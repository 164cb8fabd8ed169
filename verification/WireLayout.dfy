/** The datagrams byte for byte, as the format's description lays them out
    (crates/jam-protocol/src/packet.rs:1-16): every offset, every code, and every number's bytes from the most
    significant one on. */
module WireLayout {
  import opened Common
  import opened Utf8
  import opened Wire
  import opened RoundTrip
  import Handshake

  function Two(v: u16): seq<byte> { [v / 0x100, v % 0x100] }

  function Four(v: u32): seq<byte> { [v / 0x100_0000, v / 0x1_0000 % 0x100, v / 0x100 % 0x100, v % 0x100] }

  function Eight(v: u64): seq<byte> { Four(v / 0x1_0000_0000) + Four(v % 0x1_0000_0000) }

  lemma TwoBytes(v: u16)
    ensures BE(v, 2) == Two(v)
  {
    assert BE(v / 0x100, 1) == BE(v / 0x1_0000, 0) + [v / 0x100 % 0x100];
    assert BE(v, 2) == BE(v / 0x100, 1) + [v % 0x100];
  }

  lemma FourBytes(v: u32)
    ensures BE(v, 4) == Four(v)
  {
    assert BE(v, 4) == BE(v / 0x100, 3) + [v % 0x100];
    assert BE(v / 0x100, 3) == BE(v / 0x1_0000, 2) + [v / 0x100 % 0x100];
    TwoBytes(v / 0x1_0000);
  }

  /** Adding a multiple of 2^32 leaves the four low digits alone. */
  lemma TopDigit(hi: nat, lo: u32)
    ensures (hi * 0x1_0000_0000 + lo) / 0x100_0000 == hi * 0x100 + lo / 0x100_0000
  {
  }

  lemma ThirdDigit(hi: nat, lo: u32)
    ensures (hi * 0x1_0000_0000 + lo) / 0x1_0000 == hi * 0x1_0000 + lo / 0x1_0000
  {
  }

  lemma SecondDigit(hi: nat, lo: u32)
    ensures (hi * 0x1_0000_0000 + lo) / 0x100 == hi * 0x100_0000 + lo / 0x100
  {
  }

  lemma Reduced(a: nat, k: nat)
    ensures (k * 0x100 + a) % 0x100 == a % 0x100
  {
  }

  lemma LowDigits(hi: nat, lo: u32, v: nat)
    requires v == hi * 0x1_0000_0000 + lo
    ensures v / 0x100_0000 % 0x100 == lo / 0x100_0000 && v / 0x1_0000 % 0x100 == lo / 0x1_0000 % 0x100
    ensures v / 0x100 % 0x100 == lo / 0x100 % 0x100 && v % 0x100 == lo % 0x100
  {
    TopDigit(hi, lo);
    ThirdDigit(hi, lo);
    SecondDigit(hi, lo);
    Reduced(lo / 0x100_0000, hi);
    Reduced(lo / 0x1_0000, hi * 0x100);
    Reduced(lo / 0x100, hi * 0x1_0000);
    Reduced(lo, hi * 0x100_0000);
  }

  lemma Divided(v: nat)
    ensures v / 0x100 / 0x100 == v / 0x1_0000 && v / 0x1_0000 / 0x100 == v / 0x100_0000 && v / 0x100_0000 / 0x100 == v / 0x1_0000_0000
  {
  }

  lemma FourMore(v: nat, n: nat)
    ensures BE(v, n + 4)
         == BE(v / 0x1_0000_0000, n) + [v / 0x100_0000 % 0x100] + [v / 0x1_0000 % 0x100] + [v / 0x100 % 0x100] + [v % 0x100]
  {
    Divided(v);
    assert BE(v / 0x100_0000, n + 1) == BE(v / 0x1_0000_0000, n) + [v / 0x100_0000 % 0x100];
    assert BE(v / 0x1_0000, n + 2) == BE(v / 0x100_0000, n + 1) + [v / 0x1_0000 % 0x100];
    assert BE(v / 0x100, n + 3) == BE(v / 0x1_0000, n + 2) + [v / 0x100 % 0x100];
  }

  lemma EightBytes(v: u64)
    ensures BE(v, 8) == Eight(v)
  {
    FourMore(v, 4);
    LowDigits(v / 0x1_0000_0000, v % 0x1_0000_0000, v);
    FourBytes(v / 0x1_0000_0000);
  }

  // ---------------------------------------------------------------- codes

  lemma Codes()
    ensures TypeCode(AudioType) == 0 && TypeCode(HelloType) == 1 && TypeCode(WelcomeType) == 2 && TypeCode(DenyType) == 3
    ensures TypeCode(PingType) == 4 && TypeCode(PongType) == 5 && TypeCode(KeepaliveType) == 6 && TypeCode(RosterType) == 7
    ensures TypeCode(ByeType) == 8 && TypeCode(AckType) == 9
    ensures CodecCode(Opus) == 0 && CodecCode(PcmS16) == 1 && CodecCode(PcmF32) == 2
    ensures ReasonCode(BadRoomCode) == 0 && ReasonCode(RoomFull) == 1 && ReasonCode(VersionMismatch) == 2
  {
  }

  // ---------------------------------------------------------------- layouts

  /** Magic, version 1 over the type's code, session, sender, number. */
  function Head(code: byte, h: Header): seq<byte>
    requires code < 16
  {
    [0xa5, 0x10 + code] + Two(h.session) + Two(h.sender) + Two(h.seqno)
  }

  lemma HeaderLayout(h: Header, code: byte)
    requires code == TypeCode(h.ptype)
    ensures EncodeHeader(h) == Head(code, h) && |EncodeHeader(h)| == 8
  {
    TwoBytes(h.session);
    TwoBytes(h.sender);
    TwoBytes(h.seqno);
  }

  /** A name is a length byte and at most 32 bytes of text. */
  function Named(name: Text): seq<byte> {
    CutKeepsText(name);
    [|Cut(name)|] + Cut(name)
  }

  function Listed(ps: seq<PlayerInfo>): seq<byte> {
    if ps == [] then [] else Two(ps[0].id) + Named(ps[0].name) + Listed(ps[1..])
  }

  lemma {:induction false} ListLayout(ps: seq<PlayerInfo>)
    ensures EncodeEach(ps) == Listed(ps)
    decreases ps
  {
    if ps != [] {
      TwoBytes(ps[0].id);
      ListLayout(ps[1..]);
      Regroup(Two(ps[0].id), Named(ps[0].name), Listed(ps[1..]));
    }
  }

  /** The body of every control packet. */
  function Body(c: Control): seq<byte>
    requires RosterFits(c)
  {
    match c
    case Hello(version, room, name, codecMask, frameMask) => [version] + room + Named(name) + [codecMask, frameMask]
    case Welcome(id, session, rate, samples, codec, roster) =>
      Two(id) + Two(session) + Four(rate) + Two(samples) + [match codec case Opus => 0 case PcmS16 => 1 case PcmF32 => 2]
      + [|roster|] + Listed(roster)
    case Deny(reason) => [match reason case BadRoomCode => 0 case RoomFull => 1 case VersionMismatch => 2]
    case Ping(t1) => Eight(t1)
    case Pong(t1, t2, t3) => Eight(t1) + Eight(t2) + Eight(t3)
    case Roster(roster) => [|roster|] + Listed(roster)
    case Ack(number, code) => Two(number) + [code]
    case Keepalive => []
    case Bye => []
  }

  function Code(c: Control): byte {
    match c
    case Hello(_, _, _, _, _) => 1 case Welcome(_, _, _, _, _, _) => 2 case Deny(_) => 3 case Ping(_) => 4
    case Pong(_, _, _) => 5 case Keepalive => 6 case Roster(_) => 7 case Bye => 8 case Ack(_, _) => 9
  }

  lemma HelloLayout(c: Control)
    requires c.Hello?
    ensures EncodeBody(c) == Body(c)
  {
    assert EncodeText(c.name) == Named(c.name);
    assert [c.codecMask] + [c.frameMask] == [c.codecMask, c.frameMask];
  }

  lemma PlayersLayout(ps: seq<PlayerInfo>)
    requires |ps| <= MAX_CLIENTS + 1
    ensures EncodePlayers(ps) == [|ps|] + Listed(ps)
  {
    CountByte(|ps|);
    ListLayout(ps);
  }

  lemma WelcomeLayout(c: Control)
    requires c.Welcome? && RosterFits(c)
    ensures EncodeBody(c) == Body(c)
  {
    TwoBytes(c.assignedId);
    TwoBytes(c.session);
    FourBytes(c.sampleRate);
    TwoBytes(c.frameSamples);
    PlayersLayout(c.roster);
    SevenParts(Two(c.assignedId), Two(c.session), Four(c.sampleRate), Two(c.frameSamples), [CodecCode(c.codec)], [|c.roster|], Listed(c.roster));
  }

  lemma SevenParts(a: seq<byte>, b: seq<byte>, c: seq<byte>, d: seq<byte>, e: seq<byte>, f: seq<byte>, g: seq<byte>)
    ensures a + (b + (c + (d + (e + (f + g))))) == a + b + c + d + e + f + g
  {
    Regroup(a, b, c + (d + (e + (f + g))));
    Regroup(a + b, c, d + (e + (f + g)));
    Regroup(a + b + c, d, e + (f + g));
    Regroup(a + b + c + d, e, f + g);
    Regroup(a + b + c + d + e, f, g);
  }

  lemma TimesLayout(c: Control)
    requires c.Ping? || c.Pong?
    ensures EncodeBody(c) == Body(c)
  {
    EightBytes(c.t1);
    if c.Pong? {
      EightBytes(c.t2);
      EightBytes(c.t3);
      Regroup(Eight(c.t1), Eight(c.t2), Eight(c.t3));
    }
  }

  /** Every control datagram, byte for byte. */
  lemma ControlLayout(h: Header, c: Control)
    requires h.ptype == c.Type() && RosterFits(c)
    ensures EncodeControl(h, c) == Head(Code(c), h) + Body(c)
  {
    HeaderLayout(h, Code(c));
    match c
    case Hello(_, _, _, _, _) => HelloLayout(c);
    case Welcome(_, _, _, _, _, _) => WelcomeLayout(c);
    case Ping(_) => TimesLayout(c);
    case Pong(_, _, _) => TimesLayout(c);
    case Roster(roster) => PlayersLayout(roster);
    case Ack(s, _) => TwoBytes(s);
    case _ =>
  }

  /** A client's HELLO: version 1, the room, the name, three codecs and two frame sizes on offer. */
  lemma GreetingLayout(h: Header, room: RoomCode, name: Text)
    requires h.ptype == HelloType
    ensures EncodeControl(h, Handshake.HelloFor(room, name)) == Head(1, h) + ([1] + room + Named(name) + [7, 3])
  {
    ControlLayout(h, Handshake.HelloFor(room, name));
  }

  /** Every audio datagram: stamp, codec, the flag for a second block, and one or two blocks with their lengths. */
  lemma AudioLayout(h: Header, a: AudioPacket)
    requires h.ptype == AudioType && BlocksFit(a)
    ensures EncodeAudio(h, a)
         == Head(0, h) + Four(a.timestamp) + [match a.codec case Opus => 0 case PcmS16 => 1 case PcmF32 => 2]
            + [if a.redundant.Some? then 1 else 0] + Two(|a.payload|) + a.payload
            + if a.redundant.Some? then Two(|a.redundant.value|) + a.redundant.value else []
  {
    HeaderLayout(h, 0);
    FourBytes(a.timestamp);
    TwoBytes(|a.payload|);
    if a.redundant.Some? { TwoBytes(|a.redundant.value|); }
    SevenParts(Head(0, h), Four(a.timestamp), [CodecCode(a.codec)], [if a.redundant.Some? then 1 else 0], Two(|a.payload|), a.payload,
               if a.redundant.Some? then Two(|a.redundant.value|) + a.redundant.value else []);
  }
}
