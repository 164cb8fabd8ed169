/** The writer and the reader of packets (crates/jam-protocol/src/packet.rs:134-248, :321-446 and
    :487-598): cursors that advance over a buffer, proved against `Wire`. */
module Cursor {
  import opened Common
  import opened Utf8
  import opened Wire

  class Writer {
    const buf: array<byte>
    var pos: nat

    ghost predicate Valid()
      reads this
    {
      pos <= buf.Length
    }

    /** What has been written so far. */
    ghost function Written(): seq<byte>
      requires Valid()
      reads this, buf
    {
      buf[..pos]
    }

    constructor (out: array<byte>)
      ensures Valid() && buf == out && pos == 0
    {
      buf, pos := out, 0;
    }

    /** Everything below writes through here; there must be room, or the program panics. */
    method Bytes(s: seq<byte>)
      requires Valid() && pos + |s| <= buf.Length
      modifies this`pos, buf
      ensures Valid() && Written() == old(Written()) + s
      ensures forall i | pos <= i < buf.Length :: buf[i] == old(buf[i])
    {
      forall i | 0 <= i < |s| {
        buf[pos + i] := s[i];
      }
      pos := pos + |s|;
    }

    method U8(v: byte)
      requires Valid() && pos + 1 <= buf.Length
      modifies this`pos, buf
      ensures Valid() && Written() == old(Written()) + [v]
      ensures forall i | pos <= i < buf.Length :: buf[i] == old(buf[i])
    {
      buf[pos] := v;
      pos := pos + 1;
    }

    /** A name, cut on a character boundary. */
    method Name(s: Text)
      requires Valid() && pos + |EncodeText(s)| <= buf.Length
      modifies this`pos, buf
      ensures Valid() && Written() == old(Written()) + EncodeText(s)
      ensures forall i | pos <= i < buf.Length :: buf[i] == old(buf[i])
    {
      var n := Min(|s|, MAX_NAME_LEN);
      while n > 0 && !Boundary(s, n)
        invariant 0 <= n <= Min(|s|, MAX_NAME_LEN)
        invariant FloorBoundary(s, n) == FloorBoundary(s, Min(|s|, MAX_NAME_LEN))
      {
        n := n - 1;
      }
      assert s[..n] == Cut(s);
      U8(n);
      Bytes(s[..n]);
    }

    method Players(ps: seq<PlayerInfo>)
      requires Valid() && pos + |EncodePlayers(ps)| <= buf.Length
      modifies this`pos, buf
      ensures Valid() && Written() == old(Written()) + EncodePlayers(ps)
      ensures forall i | pos <= i < buf.Length :: buf[i] == old(buf[i])
    {
      U8(|ps| % 0x100);
      ghost var w1 := Written();
      assert ps[0..] == ps;
      for i := 0 to |ps|
        invariant Valid() && Written() + EncodeEach(ps[i..]) == w1 + EncodeEach(ps)
        invariant forall j | pos <= j < buf.Length :: buf[j] == old(buf[j])
      {
        ghost var w, rest := Written(), EncodeEach(ps[i..][1..]);
        assert ps[i..][1..] == ps[i + 1..];
        assert |w + EncodeEach(ps[i..])| == |w1 + EncodeEach(ps)|;
        Bytes(BE(ps[i].id, 2));
        Name(ps[i].name);
        Regroup4(w, BE(ps[i].id, 2), EncodeText(ps[i].name), rest);
      }
      assert ps[|ps|..] == [] && Written() + [] == Written();
    }

    method Head(h: Header)
      requires Valid() && pos + HEADER_LEN <= buf.Length
      modifies this`pos, buf
      ensures Valid() && Written() == old(Written()) + EncodeHeader(h)
      ensures forall i | pos <= i < buf.Length :: buf[i] == old(buf[i])
    {
      ghost var w := Written();
      U8(MAGIC);
      U8(PROTOCOL_VERSION * 16 + TypeCode(h.ptype));
      Bytes(BE(h.session, 2));
      Bytes(BE(h.sender, 2));
      Bytes(BE(h.seqno, 2));
      assert Written() == w + EncodeHeader(h);
    }

    method Body(c: Control)
      requires Valid() && pos + |EncodeBody(c)| <= buf.Length
      modifies this`pos, buf
      ensures Valid() && Written() == old(Written()) + EncodeBody(c)
      ensures forall i | pos <= i < buf.Length :: buf[i] == old(buf[i])
    {
      ghost var w := Written();
      match c
      case Hello(_, _, _, _, _) => HelloBody(c);
      case Welcome(_, _, _, _, _, _) => WelcomeBody(c);
      case Deny(reason) => U8(ReasonCode(reason));
      case Ping(t1) => Bytes(BE(t1, 8));
      case Pong(_, _, _) => PongBody(c);
      case Keepalive =>
        assert w + [] == w;
      case Roster(roster) => Players(roster);
      case Bye =>
        assert w + [] == w;
      case Ack(_, _) => AckBody(c);
    }

    method PongBody(c: Control)
      requires c.Pong? && Valid() && pos + |EncodeBody(c)| <= buf.Length
      modifies this`pos, buf
      ensures Valid() && Written() == old(Written()) + EncodeBody(c)
      ensures forall i | pos <= i < buf.Length :: buf[i] == old(buf[i])
    {
      ghost var w := Written();
      Bytes(BE(c.t1, 8));
      Bytes(BE(c.t2, 8));
      Bytes(BE(c.t3, 8));
      assert Written() == w + EncodeBody(c);
    }

    method AckBody(c: Control)
      requires c.Ack? && Valid() && pos + |EncodeBody(c)| <= buf.Length
      modifies this`pos, buf
      ensures Valid() && Written() == old(Written()) + EncodeBody(c)
      ensures forall i | pos <= i < buf.Length :: buf[i] == old(buf[i])
    {
      ghost var w := Written();
      Bytes(BE(c.ackedSeq, 2));
      U8(c.ackedType);
      assert Written() == w + EncodeBody(c);
    }

    method HelloBody(c: Control)
      requires c.Hello? && Valid() && pos + |EncodeBody(c)| <= buf.Length
      modifies this`pos, buf
      ensures Valid() && Written() == old(Written()) + EncodeBody(c)
      ensures forall i | pos <= i < buf.Length :: buf[i] == old(buf[i])
    {
      ghost var w := Written();
      U8(c.version);
      Bytes(c.room);
      Name(c.name);
      U8(c.codecMask);
      U8(c.frameMask);
      Regroup6(w, [c.version], c.room, EncodeText(c.name), [c.codecMask], [c.frameMask]);
    }

    method WelcomeBody(c: Control)
      requires c.Welcome? && Valid() && pos + |EncodeBody(c)| <= buf.Length
      modifies this`pos, buf
      ensures Valid() && Written() == old(Written()) + EncodeBody(c)
      ensures forall i | pos <= i < buf.Length :: buf[i] == old(buf[i])
    {
      ghost var w := Written();
      Bytes(BE(c.assignedId, 2));
      Bytes(BE(c.session, 2));
      Bytes(BE(c.sampleRate, 4));
      Bytes(BE(c.frameSamples, 2));
      U8(CodecCode(c.codec));
      Players(c.roster);
      Regroup7(w, BE(c.assignedId, 2), BE(c.session, 2), BE(c.sampleRate, 4), BE(c.frameSamples, 2), [CodecCode(c.codec)], EncodePlayers(c.roster));
    }

    method AudioBody(a: AudioPacket)
      requires Valid() && pos + |EncodeAudioBody(a)| <= buf.Length
      modifies this`pos, buf
      ensures Valid() && Written() == old(Written()) + EncodeAudioBody(a)
      ensures forall i | pos <= i < buf.Length :: buf[i] == old(buf[i])
    {
      ghost var w := Written();
      var flags := if a.redundant.Some? then 1 else 0;
      Bytes(BE(a.timestamp, 4));
      U8(CodecCode(a.codec));
      U8(flags);
      Bytes(BE(|a.payload|, 2));
      Bytes(a.payload);
      ghost var w1 := Written();
      ghost var tail := [];
      if a.redundant.Some? {
        Block(a.redundant.value);
        tail := BE(|a.redundant.value|, 2) + a.redundant.value;
      } else {
        assert w1 + [] == w1;
      }
      Regroup7(w, BE(a.timestamp, 4), [CodecCode(a.codec)], [flags], BE(|a.payload|, 2), a.payload, tail);
    }

    /** A length and that many bytes. */
    method Block(s: seq<byte>)
      requires Valid() && pos + 2 + |s| <= buf.Length
      modifies this`pos, buf
      ensures Valid() && Written() == old(Written()) + (BE(|s|, 2) + s)
      ensures forall i | pos <= i < buf.Length :: buf[i] == old(buf[i])
    {
      Bytes(BE(|s|, 2));
      Bytes(s);
    }
  }

  /** `Control::write` */
  method WriteControl(h: Header, c: Control, out: array<byte>) returns (n: nat)
    requires h.ptype == c.Type() && |EncodeControl(h, c)| <= out.Length
    modifies out
    ensures n == |EncodeControl(h, c)| && out[..n] == EncodeControl(h, c) && out[n..] == old(out[n..])
  {
    var w := new Writer(out);
    w.Head(h);
    assert w.Written() == EncodeHeader(h) by { assert [] + EncodeHeader(h) == EncodeHeader(h); }
    w.Body(c);
    n := w.pos;
    assert w.Written() == EncodeControl(h, c);
  }

  /** `AudioPacket::write` */
  method WriteAudio(h: Header, a: AudioPacket, out: array<byte>) returns (n: nat)
    requires |EncodeAudio(h, a)| <= out.Length
    modifies out
    ensures n == |EncodeAudio(h, a)| && out[..n] == EncodeAudio(h, a) && out[n..] == old(out[n..])
  {
    var w := new Writer(out);
    w.Head(h);
    assert w.Written() == EncodeHeader(h) by { assert [] + EncodeHeader(h) == EncodeHeader(h); }
    w.AudioBody(a);
    n := w.pos;
    assert w.Written() == EncodeAudio(h, a);
  }

  /** A method's result and the bytes it leaves agree with a read of `Wire`. */
  ghost predicate Agrees<T>(r: Result<T, ParseError>, rest: seq<byte>, spec: Parsed<T>) {
    match spec
    case Ok((v, after)) => r == Ok(v) && rest == after
    case Err(e) => r == Err(e)
  }

  class Reader {
    const buf: seq<byte>
    var pos: nat

    ghost predicate Valid()
      reads this
    {
      pos <= |buf|
    }

    ghost function Rest(): seq<byte>
      requires Valid()
      reads this
    {
      buf[pos..]
    }

    constructor (s: seq<byte>)
      ensures Valid() && Rest() == s
    {
      buf, pos := s, 0;
    }

    method Bytes(n: nat) returns (r: Result<seq<byte>, ParseError>)
      requires Valid()
      modifies this
      ensures Valid() && Agrees(r, Rest(), TakeBytes(old(Rest()), n))
    {
      if |buf| - pos < n {
        return Err(Truncated);
      }
      r := Ok(buf[pos..pos + n]);
      assert buf[pos..pos + n] == Rest()[..n];
      pos := pos + n;
    }

    method U8() returns (r: Result<byte, ParseError>)
      requires Valid()
      modifies this
      ensures Valid() && Agrees(r, Rest(), TakeU8(old(Rest())))
    {
      var b :- Bytes(1);
      return Ok(b[0]);
    }

    method U16() returns (r: Result<u16, ParseError>)
      requires Valid()
      modifies this
      ensures Valid() && Agrees(r, Rest(), TakeU16(old(Rest())))
    {
      var b :- Bytes(2);
      FromBEBound(b);
      Widths();
      return Ok(FromBE(b));
    }

    method U32() returns (r: Result<u32, ParseError>)
      requires Valid()
      modifies this
      ensures Valid() && Agrees(r, Rest(), TakeU32(old(Rest())))
    {
      var b :- Bytes(4);
      FromBEBound(b);
      Widths();
      return Ok(FromBE(b));
    }

    method U64() returns (r: Result<u64, ParseError>)
      requires Valid()
      modifies this
      ensures Valid() && Agrees(r, Rest(), TakeU64(old(Rest())))
    {
      var b :- Bytes(8);
      FromBEBound(b);
      Widths();
      return Ok(FromBE(b));
    }

    method Name() returns (r: Result<Text, ParseError>)
      requires Valid()
      modifies this
      ensures Valid() && Agrees(r, Rest(), TakeText(old(Rest())))
    {
      var n :- U8();
      if n > MAX_NAME_LEN {
        return Err(OutOfRange);
      }
      var b :- Bytes(n);
      if ValidText(b) {
        return Ok(b);
      }
      return Err(BadString);
    }

    method Player() returns (r: Result<PlayerInfo, ParseError>)
      requires Valid()
      modifies this
      ensures Valid() && Agrees(r, Rest(), TakePlayer(old(Rest())))
    {
      var id :- U16();
      var name :- Name();
      return Ok(PlayerInfo(id, name));
    }

    method Players() returns (r: Result<seq<PlayerInfo>, ParseError>)
      requires Valid()
      modifies this
      ensures Valid() && Agrees(r, Rest(), TakePlayers(old(Rest())))
    {
      var n :- U8();
      if n > MAX_CLIENTS + 1 {
        return Err(OutOfRange);
      }
      r := Each(n);
    }

    method Each(n: nat) returns (r: Result<seq<PlayerInfo>, ParseError>)
      requires Valid()
      modifies this
      ensures Valid() && Agrees(r, Rest(), TakeEach(old(Rest()), n))
    {
      ghost var s0 := Rest();
      TakeOntoEmpty(s0, n);
      var players: seq<PlayerInfo> := [];
      for i := 0 to n
        invariant Valid() && TakeOnto(players, Rest(), n - i) == TakeOnto([], s0, n)
      {
        var p :- Player();
        players := players + [p];
      }
      return Ok(players);
    }

    method Control(t: PacketType) returns (r: Result<Control, ParseError>)
      requires Valid()
      modifies this
      ensures Valid() && Agrees(r, Rest(), TakeControl(t, old(Rest())))
    {
      match t
      case AudioType => return Err(BadType(TypeCode(t)));
      case HelloType =>
        var version :- U8();
        var room :- Bytes(ROOM_CODE_LEN);
        var name :- Name();
        var codecMask :- U8();
        var frameMask :- U8();
        return Ok(Hello(version, room, name, codecMask, frameMask));
      case WelcomeType =>
        var id :- U16();
        var session :- U16();
        var rate :- U32();
        var samples :- U16();
        var c :- U8();
        var codec :- CodecOf(c);
        var roster :- Players();
        return Ok(Welcome(id, session, rate, samples, codec, roster));
      case DenyType =>
        var c :- U8();
        var reason :- ReasonOf(c);
        return Ok(Deny(reason));
      case PingType => var t1 :- U64(); return Ok(Ping(t1));
      case PongType =>
        var t1 :- U64();
        var t2 :- U64();
        var t3 :- U64();
        return Ok(Pong(t1, t2, t3));
      case KeepaliveType => return Ok(Keepalive);
      case RosterType => var roster :- Players(); return Ok(Roster(roster));
      case ByeType => return Ok(Bye);
      case AckType => var q :- U16(); var y :- U8(); return Ok(Ack(q, y));
    }
  }

  /** Reads players with an accumulator, as the loop does. */
  ghost function TakeOnto(ps: seq<PlayerInfo>, s: seq<byte>, n: nat): Parsed<seq<PlayerInfo>>
    decreases n
  {
    if n == 0 then Ok((ps, s))
    else
      var (p, s1) :- TakePlayer(s);
      TakeOnto(ps + [p], s1, n - 1)
  }

  lemma {:induction false} TakeOntoIs(ps: seq<PlayerInfo>, s: seq<byte>, n: nat)
    ensures match TakeEach(s, n)
            case Ok((qs, rest)) => TakeOnto(ps, s, n) == Ok((ps + qs, rest))
            case Err(e) => TakeOnto(ps, s, n) == Err(e)
    decreases n
  {
    if n == 0 {
      assert ps + [] == ps;
    } else if TakePlayer(s).Ok? {
      var (p, s1) := TakePlayer(s).value;
      TakeOntoIs(ps + [p], s1, n - 1);
      if TakeEach(s1, n - 1).Ok? {
        var qs := TakeEach(s1, n - 1).value.0;
        assert ps + [p] + qs == ps + ([p] + qs);
      }
    }
  }

  lemma TakeOntoEmpty(s: seq<byte>, n: nat)
    ensures TakeOnto([], s, n) == TakeEach(s, n)
  {
    TakeOntoIs([], s, n);
    if TakeEach(s, n).Ok? { assert [] + TakeEach(s, n).value.0 == TakeEach(s, n).value.0; }
  }

  /** `parse_datagram`, with `AudioPacket::parse` reading slices directly. */
  method Parse(s: seq<byte>) returns (r: Result<(Header, Payload), ParseError>)
    ensures r == ParseDatagram(s)
  {
    var hb :- DecodeHeader(s);
    if hb.0.ptype.AudioType? {
      var a :- DecodeAudio(hb.1);
      return Ok((hb.0, Audio(a)));
    }
    var reader := new Reader(hb.1);
    var c :- reader.Control(hb.0.ptype);
    if reader.pos == |reader.buf| {
      return Ok((hb.0, Ctrl(c)));
    }
    return Err(TrailingBytes);
  }

  lemma Regroup4(a: seq<byte>, b: seq<byte>, c: seq<byte>, d: seq<byte>)
    ensures a + b + c + d == a + (b + (c + d))
  {
  }

  lemma Regroup6(a: seq<byte>, b: seq<byte>, c: seq<byte>, d: seq<byte>, e: seq<byte>, f: seq<byte>)
    ensures a + b + c + d + e + f == a + (b + (c + (d + (e + f))))
  {
    Regroup4(a, b, c, d + (e + f));
    Regroup4(a + b + c, d, e, f);
  }

  lemma Regroup7(a: seq<byte>, b: seq<byte>, c: seq<byte>, d: seq<byte>, e: seq<byte>, f: seq<byte>, g: seq<byte>)
    ensures a + b + c + d + e + f + g == a + (b + (c + (d + (e + (f + g)))))
  {
    Regroup4(a, b, c, d + (e + (f + g)));
    Regroup4(a + b + c, d, e, f + g);
    Regroup4(a + b + c + d + e, f, g, []);
    assert g + [] == g;
    assert a + b + c + d + e + f + g + [] == a + b + c + d + e + f + g;
  }
}
