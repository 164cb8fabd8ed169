/** UTF-8 text as bytes, in the syntax of section 4 of RFC 3629, and the cut of a name on a character
    boundary (crates/jam-protocol/src/packet.rs:516-526). */
module Utf8 {
  import opened Common

  const MAX_NAME_LEN := 32

  predicate Continuation(b: byte) { 0x80 <= b <= 0xbf }

  /** The length of the well-formed character at the front, or 0. */
  function FirstLen(s: seq<byte>): (n: nat)
    ensures n <= |s| && n <= 4
    ensures n > 0 ==> !Continuation(s[0]) && forall i | 1 <= i < n :: Continuation(s[i])
  {
    if |s| >= 1 && s[0] <= 0x7f then 1
    else if |s| >= 2 && 0xc2 <= s[0] <= 0xdf && Continuation(s[1]) then 2
    else if |s| >= 3 && Continuation(s[2]) && (
        || (s[0] == 0xe0 && 0xa0 <= s[1] <= 0xbf)
        || ((0xe1 <= s[0] <= 0xec || 0xee <= s[0] <= 0xef) && Continuation(s[1]))
        || (s[0] == 0xed && 0x80 <= s[1] <= 0x9f)) then 3
    else if |s| >= 4 && Continuation(s[2]) && Continuation(s[3]) && (
        || (s[0] == 0xf0 && 0x90 <= s[1] <= 0xbf)
        || (0xf1 <= s[0] <= 0xf3 && Continuation(s[1]))
        || (s[0] == 0xf4 && 0x80 <= s[1] <= 0x8f)) then 4
    else 0
  }

  predicate ValidText(s: seq<byte>) {
    s == [] || (FirstLen(s) > 0 && ValidText(s[FirstLen(s)..]))
  }

  type Text = s: seq<byte> | ValidText(s)

  /** `is_char_boundary` */
  predicate Boundary(s: seq<byte>, n: nat) { n == 0 || n == |s| || (n < |s| && !Continuation(s[n])) }

  function FloorBoundary(s: seq<byte>, n: nat): (m: nat)
    requires n <= |s|
    ensures m <= n && Boundary(s, m) && forall k | m < k <= n :: !Boundary(s, k)
  {
    if Boundary(s, n) then n else FloorBoundary(s, n - 1)
  }

  /** A name as it is sent: its longest prefix of at most 32 bytes that ends on a boundary. */
  function Cut(s: seq<byte>): seq<byte> { s[..FloorBoundary(s, Min(|s|, MAX_NAME_LEN))] }

  lemma FirstLenPrefix(s: seq<byte>, n: nat)
    requires FirstLen(s) <= n <= |s| && FirstLen(s) > 0
    ensures FirstLen(s[..n]) == FirstLen(s)
  {
  }

  /** A prefix ending on a boundary is well-formed. */
  lemma {:induction false} PrefixIsText(s: seq<byte>, n: nat)
    requires ValidText(s) && n <= |s| && Boundary(s, n)
    ensures ValidText(s[..n])
    decreases |s|
  {
    if n > 0 {
      var k := FirstLen(s);
      assert n >= k;
      FirstLenPrefix(s, n);
      assert s[..n][k..] == s[k..][..n - k];
      assert n < |s| ==> s[k..][n - k] == s[n];
      PrefixIsText(s[k..], n - k);
    }
  }

  /** Characters have at most four bytes, so a boundary is never more than three bytes away. */
  lemma {:induction false} BoundaryNearby(s: seq<byte>, n: nat)
    requires ValidText(s) && n <= |s|
    ensures FloorBoundary(s, n) >= n - 3
    decreases |s|
  {
    if s != [] {
      var k := FirstLen(s);
      if n >= k {
        BoundaryNearby(s[k..], n - k);
        var m := FloorBoundary(s[k..], n - k);
        assert m == |s[k..]| || m == 0 || s[k..][m] == s[k + m];
        assert Boundary(s, k + m) by {
          if m == 0 && k < |s| { assert FirstLen(s[k..]) > 0 && s[k..][0] == s[k]; }
        }
      }
    }
  }

  /** What is sent is well-formed, is a prefix within the limit, is the whole name if that fits, loses at
      most three bytes below the limit otherwise, and is not cut further when sent again. */
  lemma CutKeepsText(s: Text)
    ensures ValidText(Cut(s)) && Cut(s) <= s && |Cut(s)| <= MAX_NAME_LEN
    ensures |s| <= MAX_NAME_LEN ==> Cut(s) == s
    ensures |s| > MAX_NAME_LEN ==> |Cut(s)| >= MAX_NAME_LEN - 3
    ensures forall n | |Cut(s)| < n <= Min(|s|, MAX_NAME_LEN) :: !Boundary(s, n)
    ensures Cut(Cut(s)) == Cut(s)
  {
    var limit := Min(|s|, MAX_NAME_LEN);
    PrefixIsText(s, FloorBoundary(s, limit));
    BoundaryNearby(s, limit);
    assert s[..|s|] == s;
    var c := Cut(s);
    assert FloorBoundary(c, |c|) == |c| && c[..|c|] == c;
  }
}
