/** The sample FIFO (crates/jam-audio/src/accum.rs): a ring over a fixed buffer, proved to be a queue
    that keeps the newest samples on overflow. */
module Fifo {
  import opened Common

  /** The last `n` elements, or all of them if there are fewer. */
  function Newest(s: seq<real>, n: nat): seq<real> { s[Max(|s| - n, 0)..] }

  lemma NewestOfSum(a: seq<real>, s: seq<real>, n: nat)
    requires |a| <= n
    ensures |s| >= n ==> Newest(a + s, n) == s[|s| - n..]
    ensures |s| < n ==> Newest(a + s, n) == a[Max(|a| + |s| - n, 0)..] + s
  {
  }

  /** The `len` elements of the ring `b` from `head` on, wrapping at its end. */
  function Queue(b: seq<real>, head: nat, len: nat): (s: seq<real>)
    requires len <= |b| && head <= |b|
    ensures |s| == len
  {
    if head + len <= |b| then b[head..head + len] else b[head..] + b[..head + len - |b|]
  }

  /** A position that has moved on by less than a turn. */
  function Turned(x: nat, cap: nat): nat { if x < cap then x else x - cap }

  lemma ModOnce(x: nat, cap: nat)
    requires x < 2 * cap
    ensures x % cap == Turned(x, cap)
  {
    if x >= cap {
      assert x == cap * 1 + (x - cap);
      assert x / cap == 1;
    } else {
      assert x / cap == 0;
    }
  }

  lemma QueueDrop(b: seq<real>, head: nat, len: nat, n: nat)
    requires n <= len <= |b| && head < |b|
    ensures Queue(b, Turned(head + n, |b|), len - n) == Queue(b, head, len)[n..]
  {
  }

  /** Writing `s` behind the queue, in two pieces if it wraps, appends it. */
  lemma QueueAppend(b: seq<real>, b': seq<real>, head: nat, len: nat, s: seq<real>)
    requires |b| == |b'| && head < |b| && len + |s| <= |b|
    requires var tail := Turned(head + len, |b|);
             forall i | 0 <= i < |b| ::
               b'[i] == if tail <= i < tail + |s| then s[i - tail]
                        else if i < tail + |s| - |b| then s[|b| - tail + i]
                        else b[i]
    ensures Queue(b', head, len + |s|) == Queue(b, head, len) + s
  {
    var q, q' := Queue(b, head, len) + s, Queue(b', head, len + |s|);
    forall i | 0 <= i < len + |s| ensures q'[i] == q[i] {
    }
  }

  class SampleFifo {
    const buf: array<real>
    var head: nat
    var len: nat

    ghost predicate Valid()
      reads this
    {
      len <= buf.Length && if buf.Length == 0 then head == 0 else head < buf.Length
    }

    /** The queued samples, oldest first. */
    ghost function Contents(): (s: seq<real>)
      requires Valid()
      reads this, buf
      ensures |s| == len
    {
      Queue(buf[..], head, len)
    }

    constructor (capacity: nat)
      ensures Valid() && fresh(buf) && buf.Length == capacity && Contents() == []
    {
      buf := new real[capacity](_ => 0.0);
      head, len := 0, 0;
    }

    /** Appends samples, dropping the oldest on overflow, and reports how many were dropped. */
    method Push(samples: seq<real>) returns (dropped: nat)
      requires Valid()
      modifies this, buf
      ensures Valid()
      ensures Contents() == Newest(old(Contents()) + samples, buf.Length)
      ensures dropped == Max(old(len) + |samples| - buf.Length, 0)
    {
      var cap := buf.Length;
      NewestOfSum(Contents(), samples, cap);
      dropped := 0;
      if |samples| >= cap {
        dropped := len + |samples| - cap;
        var start := |samples| - cap;
        Fill(samples[start..]);
        return;
      }
      var overflow := Monus(len + |samples|, cap);
      if overflow > 0 {
        Drop(overflow);
        dropped := overflow;
      }
      Append(samples);
    }

    /** The incoming block alone fills the FIFO. */
    method Fill(samples: seq<real>)
      requires |samples| == buf.Length
      modifies this, buf
      ensures Valid() && Contents() == samples
    {
      head := 0;
      len := buf.Length;
      CopyIn(0, samples);
    }

    /** Moves the head past the `n` oldest samples. */
    method Drop(n: nat)
      requires Valid() && n <= len && buf.Length > 0
      modifies this
      ensures Valid() && Contents() == old(Contents())[n..]
    {
      QueueDrop(buf[..], head, len, n);
      ModOnce(head + n, buf.Length);
      head := (head + n) % buf.Length;
      len := len - n;
    }

    method Append(samples: seq<real>)
      requires Valid() && len + |samples| <= buf.Length && |samples| < buf.Length
      modifies this, buf
      ensures Valid() && Contents() == old(Contents()) + samples
    {
      var cap := buf.Length;
      ModOnce(head + len, cap);
      var tail := (head + len) % cap;
      var first := Min(cap - tail, |samples|);
      CopyIn(tail, samples[..first]);
      var rest := |samples| - first;
      if rest > 0 {
        CopyIn(0, samples[first..]);
      }
      QueueAppend(old(buf[..]), buf[..], head, len, samples);
      len := len + |samples|;
    }

    /** `copy_from_slice` into the buffer. */
    method CopyIn(at: nat, s: seq<real>)
      requires at + |s| <= buf.Length
      modifies buf
      ensures forall i | 0 <= i < buf.Length :: buf[i] == if at <= i < at + |s| then s[i - at] else old(buf[i])
    {
      forall i | at <= i < at + |s| {
        buf[i] := s[i - at];
      }
    }

    /** Pops `n` samples into `out[..n]` if that many are queued; otherwise nothing changes. Taking
        none from a FIFO without capacity is the one call that divides by zero. */
    method Pop(out: array<real>, n: nat) returns (ok: bool)
      requires Valid() && n <= out.Length && out != buf
      requires n > 0 || buf.Length > 0
      modifies this, out
      ensures Valid() && ok == (n <= old(len))
      ensures ok ==> old(Contents()) == out[..n] + Contents() && out[n..] == old(out[n..])
      ensures !ok ==> Contents() == old(Contents()) && out[..] == old(out[..])
    {
      if len < n {
        return false;
      }
      CopyOut(out, n);
      Drop(n);
      ok := true;
    }

    method CopyOut(out: array<real>, n: nat)
      requires Valid() && n <= len && n <= out.Length && out != buf
      modifies out
      ensures out[..n] == Contents()[..n] && out[n..] == old(out[n..])
    {
      var first := Min(buf.Length - head, n);
      forall i | 0 <= i < first {
        out[i] := buf[head + i];
      }
      if n - first > 0 {
        forall i | first <= i < n {
          out[i] := buf[i - first];
        }
      }
    }
  }
}
