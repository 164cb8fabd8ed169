/** Which byte strings are refused as datagrams, and why (crates/jam-protocol/src/packet.rs:182-262, :372-440): told
    byte by byte, and proved to be what the parser says of every byte string. */
module WireErrors {
  import opened Common
  import opened Utf8
  import opened Wire

  type Verdict = Option<ParseError>

  /** Two bytes, the more significant one first. */
  function Long(hi: byte, lo: byte): nat { (hi as nat) * 256 + lo as nat }

  /** What becomes of a datagram whose last field ends at `n`. */
  function Ending(s: seq<byte>, n: nat): Verdict {
    if |s| < n then Some(Truncated) else if |s| > n then Some(TrailingBytes) else None
  }

  /** A name and what comes before it. */
  function BadName(s: seq<byte>, at: nat): Verdict {
    if |s| <= at then Some(Truncated)
    else if s[at] > 32 then Some(OutOfRange)
    else if |s| < at + 1 + s[at] then Some(Truncated)
    else if !ValidText(s[at + 1..at + 1 + s[at]]) then Some(BadString)
    else None
  }

  function BadPlayers(s: seq<byte>, at: nat, n: nat): Verdict
    decreases n
  {
    if n == 0 then Ending(s, at)
    else
      var bad := BadName(s, at + 2);
      if bad.Some? then bad else BadPlayers(s, at + 3 + s[at + 2], n - 1)
  }

  function BadRoster(s: seq<byte>, at: nat): Verdict {
    if |s| <= at then Some(Truncated) else if s[at] > 5 then Some(OutOfRange) else BadPlayers(s, at + 1, s[at])
  }

  function BadHello(s: seq<byte>): Verdict {
    var bad := BadName(s, 15);
    if bad.Some? then bad else Ending(s, 18 + s[15])
  }

  function BadWelcome(s: seq<byte>): Verdict {
    if |s| < 19 then Some(Truncated) else if s[18] > 2 then Some(BadCodec(s[18])) else BadRoster(s, 19)
  }

  function BadDeny(s: seq<byte>): Verdict {
    if |s| < 9 then Some(Truncated) else if s[8] > 2 then Some(BadDenyReason(s[8])) else Ending(s, 9)
  }

  function BadBlocks(s: seq<byte>): Verdict {
    if |s| < 16 then Some(Truncated)
    else if s[12] > 2 then Some(BadCodec(s[12]))
    else
      var end := 16 + Long(s[14], s[15]);
      if |s| < end then Some(BadLength)
      else if s[13] % 2 == 0 then Ending(s, end)
      else if |s| < end + 2 then Some(Truncated)
      else
        var last := end + 2 + Long(s[end], s[end + 1]);
        if |s| < last then Some(BadLength) else Ending(s, last)
  }

  /** Why a byte string is no datagram, if it is none. */
  function Bad(s: seq<byte>): Verdict {
    if |s| < 8 then Some(Truncated)
    else if s[0] != 0xa5 then Some(BadMagic)
    else if s[1] / 16 != 1 then Some(BadVersion(s[1] / 16))
    else match s[1] % 16
      case 0 => BadBlocks(s)
      case 1 => BadHello(s)
      case 2 => BadWelcome(s)
      case 3 => BadDeny(s)
      case 4 => Ending(s, 16)
      case 5 => Ending(s, 32)
      case 6 => Ending(s, 8)
      case 7 => BadRoster(s, 8)
      case 8 => Ending(s, 8)
      case 9 => Ending(s, 11)
      case t => Some(BadType(t))
  }

  // ---------------------------------------------------------------- proof

  /** A reader's result against a verdict. */
  predicate Matches<T>(r: Result<T, ParseError>, bad: Verdict) {
    match r
    case Ok(_) => bad.None?
    case Err(e) => bad == Some(e)
  }

  /** What is left when a control packet's fields have been read. */
  function Finished<T>(p: Parsed<T>): Result<T, ParseError> {
    var (v, rest) :- p;
    if rest == [] then Ok(v) else Err(TrailingBytes)
  }

  lemma DropDrop(s: seq<byte>, a: nat, b: nat)
    requires a + b <= |s|
    ensures s[a..][b..] == s[a + b..]
  {
  }

  lemma U16Is(s: seq<byte>, i: nat)
    requires i + 2 <= |s|
    ensures U16At(s, i) == Long(s[i], s[i + 1])
  {
    var b := s[i..i + 2];
    assert b[..1] == [s[i]] && [s[i]][..0] == [];
    assert FromBE(b[..1]) == FromBE([]) * 0x100 + s[i];
  }

  lemma NameIs(s: seq<byte>, at: nat)
    requires at <= |s|
    ensures var r := TakeText(s[at..]);
            && Matches(r, BadName(s, at))
            && (r.Ok? ==> r.value.1 == s[at + 1 + s[at]..])
  {
    if at < |s| {
      DropDrop(s, at, 1);
      if s[at] <= 32 && at + 1 + s[at] <= |s| {
        assert s[at + 1..][..s[at]] == s[at + 1..at + 1 + s[at]];
        DropDrop(s, at + 1, s[at]);
      }
    }
  }

  lemma PlayerIs(s: seq<byte>, at: nat)
    requires at <= |s|
    ensures var r := TakePlayer(s[at..]);
            && Matches(r, BadName(s, at + 2))
            && (r.Ok? ==> r.value.1 == s[at + 3 + s[at + 2]..])
  {
    if at + 2 <= |s| {
      DropDrop(s, at, 2);
      NameIs(s, at + 2);
    }
  }

  lemma {:induction false} PlayersAre(s: seq<byte>, at: nat, n: nat)
    requires at <= |s|
    ensures Matches(Finished(TakeEach(s[at..], n)), BadPlayers(s, at, n))
    decreases n
  {
    if n > 0 {
      PlayerIs(s, at);
      if BadName(s, at + 2).None? { PlayersAre(s, at + 3 + s[at + 2], n - 1); }
    }
  }

  lemma RosterIs(s: seq<byte>, at: nat)
    requires at <= |s|
    ensures Matches(Finished(TakePlayers(s[at..])), BadRoster(s, at))
  {
    if at < |s| {
      DropDrop(s, at, 1);
      if s[at] <= 5 { PlayersAre(s, at + 1, s[at]); }
    }
  }

  lemma HelloIs(s: seq<byte>)
    requires |s| >= 8
    ensures Matches(Finished(TakeHello(s[8..])), BadHello(s))
  {
    if |s| >= 15 {
      DropDrop(s, 8, 1);
      DropDrop(s, 9, 6);
      NameIs(s, 15);
      if BadName(s, 15).None? && |s| >= 18 + s[15] {
        DropDrop(s, 16 + s[15], 1);
        DropDrop(s, 17 + s[15], 1);
      }
    }
  }

  lemma WelcomeIs(s: seq<byte>)
    requires |s| >= 8
    ensures Matches(Finished(TakeWelcome(s[8..])), BadWelcome(s))
  {
    if |s| >= 19 {
      DropDrop(s, 8, 2);
      DropDrop(s, 10, 2);
      DropDrop(s, 12, 4);
      DropDrop(s, 16, 2);
      DropDrop(s, 18, 1);
      RosterIs(s, 19);
    }
  }

  lemma ShortIs(t: PacketType, s: seq<byte>)
    requires |s| >= 8 && !t.AudioType? && !t.HelloType? && !t.WelcomeType? && !t.RosterType?
    ensures Matches(Finished(TakeControl(t, s[8..])),
                    match t case DenyType => BadDeny(s) case PingType => Ending(s, 16) case PongType => Ending(s, 32)
                            case AckType => Ending(s, 11) case _ => Ending(s, 8))
  {
    if |s| >= 11 { DropDrop(s, 8, 2); DropDrop(s, 10, 1); }
    if |s| >= 16 { DropDrop(s, 8, 8); }
    if |s| >= 32 { DropDrop(s, 16, 8); DropDrop(s, 24, 8); }
  }

  lemma BlocksAre(s: seq<byte>)
    requires |s| >= 8
    ensures Matches(DecodeAudio(s[8..]), BadBlocks(s))
  {
    if |s| >= 16 && s[12] <= 2 {
      U16Is(s[8..], 6);
      var end := 16 + Long(s[14], s[15]);
      DropDrop(s, 8, 8);
      if |s| >= end {
        DropDrop(s, 16, end - 16);
        if s[13] % 2 == 1 && |s| >= end + 2 {
          U16Is(s[end..], 0);
        }
      }
    }
  }

  /** The parser refuses exactly the byte strings that are no datagrams, each for the first thing wrong with it. */
  lemma RefusedExactly(s: seq<byte>)
    ensures match ParseDatagram(s) case Ok(_) => Bad(s).None? case Err(e) => Bad(s) == Some(e)
  {
    if |s| >= 8 && s[0] == 0xa5 && s[1] / 16 == 1 && s[1] % 16 <= 9 {
      var t := TypeOf(s[1] % 16).value;
      match t
      case AudioType => BlocksAre(s);
      case HelloType => HelloIs(s);
      case WelcomeType => WelcomeIs(s);
      case RosterType => RosterIs(s, 8);
      case _ => ShortIs(t, s);
    }
  }
}
