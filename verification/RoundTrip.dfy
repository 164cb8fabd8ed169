/** Writing and parsing undo each other (crates/jam-protocol/tests/roundtrip.rs states the promise). */
module RoundTrip {
  import opened Common
  import opened Utf8
  import opened Wire

  // ---------------------------------------------------------------- integers and bytes

  lemma {:induction false} FromBEofBE(v: nat, n: nat)
    requires v < Pow256(n)
    ensures FromBE(BE(v, n)) == v
    decreases n
  {
    if n > 0 {
      FromBEofBE(v / 0x100, n - 1);
      assert BE(v, n)[..n - 1] == BE(v / 0x100, n - 1);
    }
  }

  lemma {:induction false} BEofFromBE(s: seq<byte>)
    ensures BE(FromBE(s), |s|) == s
    decreases |s|
  {
    if s != [] {
      BEofFromBE(s[..|s| - 1]);
      assert FromBE(s) / 0x100 == FromBE(s[..|s| - 1]) && FromBE(s) % 0x100 == s[|s| - 1];
      assert s == s[..|s| - 1] + [s[|s| - 1]];
    }
  }

  lemma SplitFront(a: seq<byte>, rest: seq<byte>)
    ensures (a + rest)[..|a|] == a && (a + rest)[|a|..] == rest
  {
  }

  lemma TakeIntOf(v: nat, n: nat, rest: seq<byte>)
    requires v < Pow256(n)
    ensures TakeInt(BE(v, n) + rest, n) == Ok((v, rest))
  {
    SplitFront(BE(v, n), rest);
    FromBEofBE(v, n);
  }

  lemma TakeU8Of(v: byte, rest: seq<byte>)
    ensures TakeU8([v] + rest) == Ok((v, rest))
  {
    SplitFront([v], rest);
  }

  lemma TakeU16Of(v: u16, rest: seq<byte>)
    ensures TakeU16(BE(v, 2) + rest) == Ok((v, rest))
  {
    Widths();
    TakeIntOf(v, 2, rest);
  }

  lemma TakeU32Of(v: u32, rest: seq<byte>)
    ensures TakeU32(BE(v, 4) + rest) == Ok((v, rest))
  {
    Widths();
    TakeIntOf(v, 4, rest);
  }

  lemma TakeU64Of(v: u64, rest: seq<byte>)
    ensures TakeU64(BE(v, 8) + rest) == Ok((v, rest))
  {
    Widths();
    TakeIntOf(v, 8, rest);
  }

  /** A successful integer read is undone by writing the value back. */
  lemma IntTaken(s: seq<byte>, n: nat)
    ensures TakeInt(s, n).Ok? ==> var (v, rest) := TakeInt(s, n).value; s == BE(v, n) + rest
  {
    if n <= |s| {
      BEofFromBE(s[..n]);
      assert s == s[..n] + s[n..];
    }
  }

  lemma ByteTaken(s: seq<byte>)
    ensures TakeU8(s).Ok? ==> var (v, rest) := TakeU8(s).value; s == [v] + rest
  {
  }

  // ---------------------------------------------------------------- names and rosters

  function CutPlayer(p: PlayerInfo): PlayerInfo {
    CutKeepsText(p.name);
    p.(name := Cut(p.name))
  }

  function CutPlayers(ps: seq<PlayerInfo>): (qs: seq<PlayerInfo>)
    ensures |qs| == |ps|
  {
    if ps == [] then [] else [CutPlayer(ps[0])] + CutPlayers(ps[1..])
  }

  lemma TakeTextOf(name: Text, rest: seq<byte>)
    ensures ValidText(Cut(name)) && TakeText(EncodeText(name) + rest) == Ok((Cut(name), rest))
  {
    CutKeepsText(name);
    var c := Cut(name);
    assert EncodeText(name) + rest == [|c|] + (c + rest);
    TakeU8Of(|c|, c + rest);
    SplitFront(c, rest);
  }

  lemma TextTaken(s: seq<byte>)
    ensures TakeText(s).Ok? ==>
              var (name, rest) := TakeText(s).value;
              |name| <= MAX_NAME_LEN && Cut(name) == name && s == EncodeText(name) + rest
  {
    ByteTaken(s);
    if TakeText(s).Ok? {
      var (name, rest) := TakeText(s).value;
      CutKeepsText(name);
      var s1 := TakeU8(s).value.1;
      assert s1 == name + rest;
      assert s == [|name|] + (name + rest) == EncodeText(name) + rest;
    }
  }

  lemma {:induction false} TakeEachOf(ps: seq<PlayerInfo>, n: nat, rest: seq<byte>)
    requires n <= |ps|
    ensures TakeEach(EncodeEach(ps) + rest, n) == Ok((CutPlayers(ps[..n]), EncodeEach(ps[n..]) + rest))
    decreases n
  {
    if n == 0 {
      assert ps[n..] == ps && ps[..n] == [];
    } else {
      TakePlayerOf(ps, rest);
      TakeEachOf(ps[1..], n - 1, rest);
      TakeEachStep(EncodeEach(ps) + rest, n, CutPlayer(ps[0]), EncodeEach(ps[1..]) + rest);
      assert ps[1..][n - 1..] == ps[n..];
      CutPlayersStep(ps, n);
    }
  }

  lemma TakeEachStep(s: seq<byte>, n: nat, p: PlayerInfo, s1: seq<byte>)
    requires n > 0 && TakePlayer(s) == Ok((p, s1))
    ensures TakeEach(s, n) == match TakeEach(s1, n - 1)
      case Ok((ps, rest)) => Ok(([p] + ps, rest))
      case Err(e) => Err(e)
  {
  }

  lemma CutPlayersStep(ps: seq<PlayerInfo>, n: nat)
    requires 0 < n <= |ps|
    ensures CutPlayers(ps[..n]) == [CutPlayer(ps[0])] + CutPlayers(ps[1..][..n - 1])
  {
    assert ps[..n][1..] == ps[1..][..n - 1] && ps[..n][0] == ps[0];
  }

  lemma TakePlayerOf(ps: seq<PlayerInfo>, rest: seq<byte>)
    requires ps != []
    ensures TakePlayer(EncodeEach(ps) + rest) == Ok((CutPlayer(ps[0]), EncodeEach(ps[1..]) + rest))
  {
    var tail := EncodeEach(ps[1..]) + rest;
    EncodeEachOne(ps, rest);
    TakeU16Of(ps[0].id, EncodeText(ps[0].name) + tail);
    TakeTextOf(ps[0].name, tail);
  }

  lemma EncodeEachOne(ps: seq<PlayerInfo>, rest: seq<byte>)
    requires ps != []
    ensures EncodeEach(ps) + rest == BE(ps[0].id, 2) + (EncodeText(ps[0].name) + (EncodeEach(ps[1..]) + rest))
  {
    var (a, b, c) := (BE(ps[0].id, 2), EncodeText(ps[0].name), EncodeEach(ps[1..]));
    Regroup(a, b + c, rest);
    Regroup(b, c, rest);
  }

  lemma U16Taken(s: seq<byte>)
    ensures TakeU16(s).Ok? ==> var (v, rest) := TakeU16(s).value; s == BE(v, 2) + rest
  {
    Widths();
    IntTaken(s, 2);
  }

  lemma {:induction false} EachTaken(s: seq<byte>, n: nat)
    requires TakeEach(s, n).Ok?
    ensures var (ps, rest) := TakeEach(s, n).value;
            |ps| == n && CutPlayers(ps) == ps && s == EncodeEach(ps) + rest
    decreases n
  {
    if n > 0 {
      U16Taken(s);
      var (id, s1) := TakeU16(s).value;
      TextTaken(s1);
      var (name, s2) := TakeText(s1).value;
      EachTaken(s2, n - 1);
      var (ps, rest) := TakeEach(s2, n - 1).value;
      var all := [PlayerInfo(id, name)] + ps;
      assert all[1..] == ps;
      EncodeEachOne(all, rest);
    }
  }

  lemma TakeAllOf(ps: seq<PlayerInfo>, rest: seq<byte>)
    ensures TakeEach(EncodeEach(ps) + rest, |ps|) == Ok((CutPlayers(ps), rest))
  {
    TakeEachOf(ps, |ps|, rest);
    assert ps[..|ps|] == ps && ps[|ps|..] == [] && [] + rest == rest;
  }

  lemma CountByte(n: nat)
    requires n < 0x100
    ensures n % 0x100 == n
  {
  }

  /** A roster of at most five entries parses back, each name cut. */
  lemma TakePlayersOf(ps: seq<PlayerInfo>, rest: seq<byte>)
    requires |ps| <= MAX_CLIENTS + 1
    ensures TakePlayers(EncodePlayers(ps) + rest) == Ok((CutPlayers(ps), rest))
  {
    var body := EncodeEach(ps) + rest;
    assert EncodePlayers(ps) == [|ps|] + EncodeEach(ps) by { CountByte(|ps|); }
    Regroup([|ps|], EncodeEach(ps), rest);
    TakeU8Of(|ps|, body);
    TakeAllOf(ps, rest);
    PlayersFrom(EncodePlayers(ps) + rest, |ps|, body);
  }

  lemma PlayersFrom(s: seq<byte>, n: byte, s1: seq<byte>)
    requires TakeU8(s) == Ok((n, s1)) && n <= MAX_CLIENTS + 1
    ensures TakePlayers(s) == TakeEach(s1, n)
  {
  }

  /** A longer one does not: its count is out of range or, past 255 entries, entries are left behind. */
  lemma LongRosterFails(ps: seq<PlayerInfo>)
    requires |ps| > MAX_CLIENTS + 1
    ensures var r := TakePlayers(EncodePlayers(ps)); r.Err? || r.value.1 != []
  {
    var n := |ps| % 0x100;
    TakeU8Of(n, EncodeEach(ps));
    if n <= MAX_CLIENTS + 1 {
      TakeEachOf(ps, n, []);
      assert EncodeEach(ps) + [] == EncodeEach(ps) && ps[n..] != [];
      assert |EncodeEach(ps[n..])| >= |BE(ps[n..][0].id, 2)|;
    }
  }

  lemma PlayersTaken(s: seq<byte>)
    requires TakePlayers(s).Ok?
    ensures var (ps, rest) := TakePlayers(s).value;
            |ps| <= MAX_CLIENTS + 1 && CutPlayers(ps) == ps && s == EncodePlayers(ps) + rest
  {
    var (n, s1) := TakeU8(s).value;
    assert s == [n] + s1 by { ByteTaken(s); }
    var (ps, rest) := TakeEach(s1, n).value;
    assert |ps| == n && CutPlayers(ps) == ps && s1 == EncodeEach(ps) + rest by { EachTaken(s1, n); }
    assert EncodePlayers(ps) == [n] + EncodeEach(ps) by { CountByte(|ps|); }
    Regroup([n], EncodeEach(ps), rest);
  }

  // ---------------------------------------------------------------- control packets

  function CutControl(c: Control): Control {
    match c
    case Hello(v, room, name, cm, fm) => CutKeepsText(name); Hello(v, room, Cut(name), cm, fm)
    case Welcome(_, _, _, _, _, roster) => c.(roster := CutPlayers(roster))
    case Roster(roster) => Roster(CutPlayers(roster))
    case _ => c
  }

  predicate RosterFits(c: Control) { c.Welcome? || c.Roster? ==> |c.roster| <= MAX_CLIENTS + 1 }

  lemma TakeHelloOf(v: byte, room: RoomCode, name: Text, cm: byte, fm: byte)
    ensures ValidText(Cut(name))
    ensures TakeHello(EncodeBody(Hello(v, room, name, cm, fm))) == Ok((Hello(v, room, Cut(name), cm, fm), []))
  {
    var s3 := [cm] + [fm];
    var s2 := EncodeText(name) + s3;
    TakeU8Of(v, room + s2);
    SplitFront(room, s2);
    TakeTextOf(name, s3);
    TakeU8Of(cm, [fm]);
    TakeU8Of(fm, []);
    assert [fm] + [] == [fm];
  }

  lemma TakeWelcomeOf(c: Control)
    requires c.Welcome?
    ensures var r := TakeWelcome(EncodeBody(c));
            if RosterFits(c) then r == Ok((CutControl(c), [])) else r.Err? || r.value.1 != []
  {
    var s5 := EncodePlayers(c.roster);
    TakeRosterOf(c.roster);
    WelcomeFields(c);
  }

  /** A WELCOME's fields before its roster are read back as they are. */
  lemma WelcomeFields(c: Control)
    requires c.Welcome?
    ensures TakeWelcome(EncodeBody(c)) == match TakePlayers(EncodePlayers(c.roster))
      case Ok((roster, rest)) => Ok((c.(roster := roster), rest))
      case Err(e) => Err(e)
  {
    var s5 := EncodePlayers(c.roster);
    var s4 := [CodecCode(c.codec)] + s5;
    var s3 := BE(c.frameSamples, 2) + s4;
    var s2 := BE(c.sampleRate, 4) + s3;
    var s1 := BE(c.session, 2) + s2;
    TakeU16Of(c.assignedId, s1);
    TakeU16Of(c.session, s2);
    WelcomeRest(c.sampleRate, c.frameSamples, c.codec, s5);
    assert EncodeBody(c) == BE(c.assignedId, 2) + s1;
  }

  lemma WelcomeRest(rate: u32, samples: u16, codec: Codec, s5: seq<byte>)
    ensures var s4 := [CodecCode(codec)] + s5;
            var s3 := BE(samples, 2) + s4;
            && TakeU32(BE(rate, 4) + s3) == Ok((rate, s3)) && TakeU16(s3) == Ok((samples, s4))
            && TakeU8(s4) == Ok((CodecCode(codec), s5)) && CodecOf(CodecCode(codec)) == Ok(codec)
  {
    var s4 := [CodecCode(codec)] + s5;
    TakeU32Of(rate, BE(samples, 2) + s4);
    TakeU16Of(samples, s4);
    TakeU8Of(CodecCode(codec), s5);
  }

  lemma TakeRosterOf(ps: seq<PlayerInfo>)
    ensures var r := TakePlayers(EncodePlayers(ps));
            if |ps| <= MAX_CLIENTS + 1 then r == Ok((CutPlayers(ps), [])) else r.Err? || r.value.1 != []
  {
    assert EncodePlayers(ps) + [] == EncodePlayers(ps);
    if |ps| <= MAX_CLIENTS + 1 { TakePlayersOf(ps, []); } else { LongRosterFails(ps); }
  }

  lemma BodyRoundTrip(c: Control)
    ensures var r := DecodeControl(c.Type(), EncodeBody(c));
            if RosterFits(c) then r == Ok(CutControl(c)) else r.Err?
  {
    match c
    case Hello(_, _, _, _, _) => HelloRoundTrip(c);
    case Welcome(_, _, _, _, _, _) => WelcomeRoundTrip(c);
    case Pong(_, _, _) => PongRoundTrip(c);
    case Roster(_) => RosterRoundTrip(c);
    case _ => ShortBodyRoundTrip(c);
  }

  lemma HelloRoundTrip(c: Control)
    requires c.Hello?
    ensures DecodeControl(HelloType, EncodeBody(c)) == Ok(CutControl(c))
  {
    TakeHelloOf(c.version, c.room, c.name, c.codecMask, c.frameMask);
  }

  lemma WelcomeRoundTrip(c: Control)
    requires c.Welcome?
    ensures var r := DecodeControl(WelcomeType, EncodeBody(c)); if RosterFits(c) then r == Ok(CutControl(c)) else r.Err?
  {
    TakeWelcomeOf(c);
  }

  lemma PongRoundTrip(c: Control)
    requires c.Pong?
    ensures DecodeControl(PongType, EncodeBody(c)) == Ok(c)
  {
    TakePongOf(c.t1, c.t2, c.t3);
  }

  lemma RosterRoundTrip(c: Control)
    requires c.Roster?
    ensures var r := DecodeControl(RosterType, EncodeBody(c)); if RosterFits(c) then r == Ok(CutControl(c)) else r.Err?
  {
    TakeRosterOf(c.roster);
    RosterBody(EncodeBody(c));
  }

  lemma RosterBody(s: seq<byte>)
    ensures DecodeControl(RosterType, s) == match TakePlayers(s)
                                            case Ok((ps, rest)) => if rest == [] then Ok(Roster(ps)) else Err(TrailingBytes)
                                            case Err(e) => Err(e)
  {
  }

  lemma ShortBodyRoundTrip(c: Control)
    requires c.Deny? || c.Ping? || c.Keepalive? || c.Bye? || c.Ack?
    ensures DecodeControl(c.Type(), EncodeBody(c)) == Ok(c)
  {
    match c
    case Deny(reason) => TakeDenyOf(reason);
    case Ping(t1) => TakePingOf(t1);
    case Ack(q, y) => TakeAckOf(q, y);
    case _ =>
  }

  lemma TakeDenyOf(reason: DenyReason)
    ensures TakeControl(DenyType, EncodeBody(Deny(reason))) == Ok((Deny(reason), []))
  {
    TakeU8Of(ReasonCode(reason), []);
  }

  lemma TakePingOf(t1: u64)
    ensures TakeControl(PingType, EncodeBody(Ping(t1))) == Ok((Ping(t1), []))
  {
    TakeU64Of(t1, []);
    assert BE(t1, 8) + [] == BE(t1, 8);
  }

  lemma TakeAckOf(q: u16, y: byte)
    ensures TakeControl(AckType, EncodeBody(Ack(q, y))) == Ok((Ack(q, y), []))
  {
    TakeU16Of(q, [y]);
    TakeU8Of(y, []);
    assert [y] + [] == [y];
  }

  lemma TakePongOf(t1: u64, t2: u64, t3: u64)
    ensures TakePong(EncodeBody(Pong(t1, t2, t3))) == Ok((Pong(t1, t2, t3), []))
  {
    TakeU64Of(t1, BE(t2, 8) + BE(t3, 8));
    TakeU64Of(t2, BE(t3, 8));
    TakeU64Of(t3, []);
    assert BE(t3, 8) + [] == BE(t3, 8);
  }

  lemma U32Taken(s: seq<byte>)
    ensures TakeU32(s).Ok? ==> var (v, rest) := TakeU32(s).value; s == BE(v, 4) + rest
  {
    Widths();
    IntTaken(s, 4);
  }

  lemma U64Taken(s: seq<byte>)
    ensures TakeU64(s).Ok? ==> var (v, rest) := TakeU64(s).value; s == BE(v, 8) + rest
  {
    Widths();
    IntTaken(s, 8);
  }

  lemma HelloTaken(s: seq<byte>)
    requires TakeHello(s).Ok? && TakeHello(s).value.1 == []
    ensures var c := TakeHello(s).value.0; s == EncodeBody(c) && CutControl(c) == c
  {
    ByteTaken(s);
    var s1 := TakeU8(s).value.1;
    var (room, s2) := TakeBytes(s1, ROOM_CODE_LEN).value;
    assert s1 == room + s2;
    TextTaken(s2);
    var s3 := TakeText(s2).value.1;
    ByteTaken(s3);
    ByteTaken(TakeU8(s3).value.1);
  }

  lemma WelcomeTaken(s: seq<byte>)
    requires TakeWelcome(s).Ok? && TakeWelcome(s).value.1 == []
    ensures var c := TakeWelcome(s).value.0; s == EncodeBody(c) && CutControl(c) == c && RosterFits(c)
  {
    U16Taken(s);
    var s1 := TakeU16(s).value.1;
    U16Taken(s1);
    var s2 := TakeU16(s1).value.1;
    U32Taken(s2);
    var s3 := TakeU32(s2).value.1;
    U16Taken(s3);
    var s4 := TakeU16(s3).value.1;
    ByteTaken(s4);
    var s5 := TakeU8(s4).value.1;
    RosterTaken(s5);
  }

  lemma RosterTaken(s: seq<byte>)
    requires TakePlayers(s).Ok? && TakePlayers(s).value.1 == []
    ensures var ps := TakePlayers(s).value.0; s == EncodePlayers(ps) && CutPlayers(ps) == ps && |ps| <= MAX_CLIENTS + 1
  {
    PlayersTaken(s);
    var ps := TakePlayers(s).value.0;
    assert EncodePlayers(ps) + [] == EncodePlayers(ps);
  }

  lemma PongTaken(s: seq<byte>)
    requires TakePong(s).Ok? && TakePong(s).value.1 == []
    ensures s == EncodeBody(TakePong(s).value.0)
  {
    U64Taken(s);
    var s1 := TakeU64(s).value.1;
    U64Taken(s1);
    var s2 := TakeU64(s1).value.1;
    U64Taken(s2);
    assert s2 == BE(TakeU64(s2).value.0, 8) + [] == BE(TakeU64(s2).value.0, 8);
  }

  /** What the value read from a body writes is that body. */
  ghost predicate Canonical(t: PacketType, s: seq<byte>)
    requires DecodeControl(t, s).Ok?
  {
    var c := DecodeControl(t, s).value;
    c.Type() == t && EncodeBody(c) == s && CutControl(c) == c && RosterFits(c)
  }

  lemma BodyCanonical(t: PacketType, s: seq<byte>)
    requires DecodeControl(t, s).Ok?
    ensures Canonical(t, s)
  {
    match t
    case HelloType => HelloCanonical(s);
    case WelcomeType => WelcomeCanonical(s);
    case PongType => PongCanonical(s);
    case RosterType => RosterCanonical(s);
    case _ => ShortBodyCanonical(t, s);
  }

  lemma HelloCanonical(s: seq<byte>)
    requires DecodeControl(HelloType, s).Ok?
    ensures Canonical(HelloType, s)
  {
    HelloTaken(s);
  }

  lemma WelcomeCanonical(s: seq<byte>)
    requires DecodeControl(WelcomeType, s).Ok?
    ensures Canonical(WelcomeType, s)
  {
    WelcomeTaken(s);
  }

  lemma PongCanonical(s: seq<byte>)
    requires DecodeControl(PongType, s).Ok?
    ensures Canonical(PongType, s)
  {
    PongTaken(s);
  }

  lemma RosterCanonical(s: seq<byte>)
    requires DecodeControl(RosterType, s).Ok?
    ensures Canonical(RosterType, s)
  {
    RosterTaken(s);
  }

  lemma ShortBodyCanonical(t: PacketType, s: seq<byte>)
    requires DecodeControl(t, s).Ok? && (t.DenyType? || t.PingType? || t.KeepaliveType? || t.ByeType? || t.AckType?)
    ensures Canonical(t, s)
  {
    match t
    case DenyType => ByteTaken(s);
    case PingType => PingTaken(s);
    case AckType => AckTaken(s);
    case _ =>
  }

  lemma PingTaken(s: seq<byte>)
    requires TakeU64(s).Ok? && TakeU64(s).value.1 == []
    ensures EncodeBody(Ping(TakeU64(s).value.0)) == s
  {
    U64Taken(s);
    var t1 := TakeU64(s).value.0;
    assert BE(t1, 8) + [] == BE(t1, 8);
  }

  lemma AckTaken(s: seq<byte>)
    requires TakeU16(s).Ok? && TakeU8(TakeU16(s).value.1).Ok? && TakeU8(TakeU16(s).value.1).value.1 == []
    ensures BE(TakeU16(s).value.0, 2) + [TakeU8(TakeU16(s).value.1).value.0] == s
  {
    U16Taken(s);
    ByteTaken(TakeU16(s).value.1);
  }

  // ---------------------------------------------------------------- headers

  lemma HeaderRoundTrip(h: Header, rest: seq<byte>)
    ensures DecodeHeader(EncodeHeader(h) + rest) == Ok((h, rest))
  {
    Widths();
    var s := EncodeHeader(h) + rest;
    assert s[2..4] == BE(h.session, 2) && s[4..6] == BE(h.sender, 2) && s[6..8] == BE(h.seqno, 2);
    FromBEofBE(h.session, 2);
    FromBEofBE(h.sender, 2);
    FromBEofBE(h.seqno, 2);
    SplitFront(EncodeHeader(h), rest);
  }

  lemma HeaderCanonical(s: seq<byte>)
    requires DecodeHeader(s).Ok?
    ensures var (h, rest) := DecodeHeader(s).value; s == EncodeHeader(h) + rest && |s| == HEADER_LEN + |rest|
  {
    BEofFromBE(s[2..4]);
    BEofFromBE(s[4..6]);
    BEofFromBE(s[6..8]);
    assert s[1] == 16 * (s[1] / 16) + s[1] % 16;
    assert s == [s[0], s[1]] + s[2..4] + s[4..6] + s[6..8] + s[8..];
  }

  // ---------------------------------------------------------------- whole control datagrams

  /** A written control datagram parses back to itself with every name cut, exactly when its roster has
      at most five entries; writing the parsed value gives the same bytes again. */
  lemma ControlRoundTrip(h: Header, c: Control)
    requires h.ptype == c.Type()
    ensures var r := ParseDatagram(EncodeControl(h, c));
            && (RosterFits(c) ==> r == Ok((h, Ctrl(CutControl(c)))) && EncodeControl(h, CutControl(c)) == EncodeControl(h, c))
            && (!RosterFits(c) ==> r.Err?)
  {
    HeaderRoundTrip(h, EncodeBody(c));
    BodyRoundTrip(c);
    if RosterFits(c) { BodyCanonical(c.Type(), EncodeBody(c)); }
  }

  /** Parsing loses nothing: a byte string that parses as a control datagram is what the parsed value
      writes, so parsing is injective and consumes every byte. */
  lemma ControlCanonical(s: seq<byte>)
    requires ParseDatagram(s).Ok? && ParseDatagram(s).value.1.Ctrl?
    ensures var (h, p) := ParseDatagram(s).value;
            h.ptype == p.control.Type() && EncodeControl(h, p.control) == s && CutControl(p.control) == p.control
  {
    HeaderCanonical(s);
    var (h, body) := DecodeHeader(s).value;
    BodyCanonical(h.ptype, body);
  }

  // ---------------------------------------------------------------- audio datagrams

  /** Both length fields can express their block. */
  predicate BlocksFit(a: AudioPacket) {
    |a.payload| < 0x1_0000 && (a.redundant.Some? ==> |a.redundant.value| < 0x1_0000)
  }

  lemma BlockRoundTrip(b: seq<byte>)
    ensures var r := TakeBlock(BE(|b|, 2) + b);
            if |b| < 0x1_0000 then r == Ok((b, [])) else r.Ok? && r.value.1 != []
  {
    var s := BE(|b|, 2) + b;
    assert s[0..2] == BE(|b|, 2);
    var n := U16At(s, 0);
    if |b| < 0x1_0000 {
      Widths();
      FromBEofBE(|b|, 2);
      assert n == |b|;
    }
    Blocked(s, b, n);
  }

  lemma Blocked(s: seq<byte>, b: seq<byte>, n: nat)
    requires |s| == 2 + |b| && s[2..] == b && n <= |b|
    ensures s[2..2 + n] == b[..n] && s[2 + n..] == b[n..] && (n == |b| ==> b[..n] == b && b[n..] == [])
  {
  }

  lemma BlockTaken(s: seq<byte>)
    requires TakeBlock(s).Ok? && TakeBlock(s).value.1 == []
    ensures var b := TakeBlock(s).value.0; |b| < 0x1_0000 && s == BE(|b|, 2) + b
  {
    BEofFromBE(s[0..2]);
    assert s == s[0..2] + s[2..];
  }

  /** The fixed part of an audio body. */
  lemma AudioFields(a: AudioPacket)
    ensures var s := EncodeAudioBody(a);
            && |s| >= 8 && U32At(s, 0) == a.timestamp && s[4] == CodecCode(a.codec)
            && s[5] == (if a.redundant.Some? then 1 else 0)
            && (|a.payload| < 0x1_0000 ==> U16At(s, 6) == |a.payload|)
            && s[8..] == a.payload + if a.redundant.Some? then BE(|a.redundant.value|, 2) + a.redundant.value else []
  {
    var s := EncodeAudioBody(a);
    assert s[0..4] == BE(a.timestamp, 4) && s[6..8] == BE(|a.payload|, 2);
    Widths();
    FromBEofBE(a.timestamp, 4);
    if |a.payload| < 0x1_0000 { FromBEofBE(|a.payload|, 2); }
  }

  lemma AudioBodyRoundTrip(a: AudioPacket)
    ensures DecodeAudio(EncodeAudioBody(a)) == Ok(a) <==> BlocksFit(a)
  {
    if BlocksFit(a) { FittingAudioParses(a); } else { ParsedAudioFits(EncodeAudioBody(a)); }
  }

  lemma FittingAudioParses(a: AudioPacket)
    requires BlocksFit(a)
    ensures DecodeAudio(EncodeAudioBody(a)) == Ok(a)
  {
    AudioFields(a);
    var tail := if a.redundant.Some? then BE(|a.redundant.value|, 2) + a.redundant.value else [];
    SplitFront(a.payload, tail);
    if a.redundant.Some? { BlockRoundTrip(a.redundant.value); }
  }

  lemma ParsedAudioFits(s: seq<byte>)
    ensures DecodeAudio(s).Ok? ==> BlocksFit(DecodeAudio(s).value)
  {
  }

  /** A written audio datagram parses back to itself exactly when its blocks fit their 16-bit length
      fields; the writer truncates the length of a longer one. */
  lemma AudioRoundTrip(h: Header, a: AudioPacket)
    requires h.ptype == AudioType
    ensures ParseDatagram(EncodeAudio(h, a)) == Ok((h, Audio(a))) <==> BlocksFit(a)
  {
    HeaderRoundTrip(h, EncodeAudioBody(a));
    AudioBodyRoundTrip(a);
  }

  const FLAGS_AT := HEADER_LEN + 5

  lemma AudioBodyCanonical(s: seq<byte>)
    requires DecodeAudio(s).Ok?
    ensures var a := DecodeAudio(s).value; BlocksFit(a) && EncodeAudioBody(a) == s[5 := s[5] % 2]
  {
    var a := DecodeAudio(s).value;
    BEofFromBE(s[0..4]);
    BEofFromBE(s[6..8]);
    var plen := U16At(s, 6);
    var tail := s[8..][plen..];
    AudioPieces(s, plen);
    if s[5] % 2 == 1 {
      BlockTaken(tail);
      assert EncodeAudioBody(a) == s[0..4] + ([s[4]] + ([1] + (s[6..8] + (s[8..][..plen] + tail))));
    } else {
      assert EncodeAudioBody(a) == s[0..4] + ([s[4]] + ([0] + (s[6..8] + (s[8..][..plen] + tail))));
    }
  }

  lemma AudioPieces(s: seq<byte>, plen: nat)
    requires AUDIO_HEADER_LEN + plen <= |s|
    ensures forall f: byte :: s[0..4] + ([s[4]] + ([f] + (s[6..8] + (s[8..][..plen] + s[8..][plen..])))) == s[5 := f]
  {
  }

  /** A byte string that parses as an audio datagram is what the parsed value writes, except that the
      reserved flag bits are cleared. */
  lemma AudioCanonical(s: seq<byte>)
    requires ParseDatagram(s).Ok? && ParseDatagram(s).value.1.Audio?
    ensures var (h, p) := ParseDatagram(s).value;
            |s| > FLAGS_AT && h.ptype == AudioType && EncodeAudio(h, p.audio) == s[FLAGS_AT := s[FLAGS_AT] % 2]
  {
    HeaderCanonical(s);
    var (h, body) := DecodeHeader(s).value;
    AudioBodyCanonical(body);
    assert s[FLAGS_AT] == body[5];
    assert EncodeHeader(h) + body[5 := body[5] % 2] == s[FLAGS_AT := s[FLAGS_AT] % 2];
  }
}
