/** The output callback (crates/jam-core/src/engine.rs:354-383): mono frames of a fixed size, produced
    on demand, are handed to the device in blocks of any size on any number of channels. */
module Output {
  import opened Common
  import opened Fifo

  /** The first `n` frames of a stream, one after the other. */
  function Produced(source: nat -> seq<real>, n: nat): seq<real> {
    if n == 0 then [] else Produced(source, n - 1) + source(n - 1)
  }

  /** Where channel `ch` of sample frame `i` lies in an interleaved block. */
  function Place(i: nat, ch: nat, channels: nat): nat { i * channels + ch }

  /** Every sample of the block is on all channels of its sample frame. */
  ghost predicate FannedOut(data: seq<real>, block: seq<real>, channels: nat) {
    && |block| * channels <= |data|
    && forall i: nat, ch: nat | i < |block| && ch < channels ::
         Place(i, ch, channels) < |data| && data[Place(i, ch, channels)] == block[i]
  }

  lemma FramesFit(i: nat, n: nat, channels: nat)
    requires i < n
    ensures i * channels + channels <= n * channels
  {
    NatProduct(n - i - 1, channels);
    assert n * channels == i * channels + channels + (n - i - 1) * channels;
  }

  lemma DivTimes(n: nat, channels: nat)
    requires channels > 0
    ensures n / channels * channels <= n
  {
    assert n == n / channels * channels + n % channels;
  }

  lemma FannedOutSnoc(data: seq<real>, data': seq<real>, block: seq<real>, v: real, channels: nat)
    requires FannedOut(data, block, channels) && |data'| == |data|
    requires |block| * channels + channels <= |data|
    requires data'[..|block| * channels] == data[..|block| * channels]
    requires forall j | |block| * channels <= j < |block| * channels + channels :: data'[j] == v
    ensures FannedOut(data', block + [v], channels)
  {
    var n := |block|;
    assert (n + 1) * channels == n * channels + channels;
    forall i: nat, ch: nat | i < n + 1 && ch < channels
      ensures Place(i, ch, channels) < |data'| && data'[Place(i, ch, channels)] == (block + [v])[i]
    {
      if i < n {
        FramesFit(i, n, channels);
        assert data'[..n * channels][Place(i, ch, channels)] == data[..n * channels][Place(i, ch, channels)];
      }
    }
  }

  // ---------------------------------------------------------------- filling the queue

  /** The samples of the frames numbered `from` to `end - 1`. */
  function Made(source: nat -> seq<real>, from: nat, end: nat): seq<real>
    requires from <= end
  {
    if from == end then [] else Made(source, from, end - 1) + source(end - 1)
  }

  lemma {:induction false} ProducedSplit(source: nat -> seq<real>, from: nat, end: nat)
    requires from <= end
    ensures Produced(source, end) == Produced(source, from) + Made(source, from, end)
    decreases end
  {
    if from != end {
      ProducedSplit(source, from, end - 1);
      Regroup(Produced(source, from), Made(source, from, end - 1), source(end - 1));
    } else {
      assert Produced(source, from) + [] == Produced(source, from);
    }
  }

  /** The length of the queue when frames are pushed until it suffices, before anything is dropped. */
  function Filled(q: nat, needed: nat, frame: nat): (n: nat)
    requires frame > 0
    ensures n >= needed && n >= q && (q < needed ==> n < needed + frame)
    decreases needed - q
  {
    if q >= needed then q else Filled(q + frame, needed, frame)
  }

  /** On the way to filling the queue `q` for a block: the queue now, with the frames up to `end` pushed. */
  ghost predicate Filling(now: seq<real>, q: seq<real>, source: nat -> seq<real>, from: nat, end: nat, capacity: nat, needed: nat)
    requires from <= end && forall k: nat :: |source(k)| == |source(0)| > 0
  {
    && now == Newest(q + Made(source, from, end), capacity)
    && Filled(|q| + |Made(source, from, end)|, needed, |source(0)|) == Filled(|q|, needed, |source(0)|)
  }

  lemma FillingGoesOn(now: seq<real>, q: seq<real>, source: nat -> seq<real>, from: nat, end: nat, capacity: nat, needed: nat)
    requires from <= end && forall k: nat :: |source(k)| == |source(0)| > 0
    requires Filling(now, q, source, from, end, capacity, needed) && |now| < needed <= capacity
    ensures Filling(Newest(now + source(end), capacity), q, source, from, end + 1, capacity, needed)
  {
    assert now == q + Made(source, from, end);
    Regroup(q, Made(source, from, end), source(end));
  }

  /** The queue after `n` more frames. */
  function Queued(q: seq<real>, source: nat -> seq<real>, from: nat, capacity: nat, n: nat): seq<real> {
    if n == 0 then q else Newest(Queued(q, source, from, capacity, n - 1) + source(from + n - 1), capacity)
  }

  lemma {:induction false} QueuedLength(q: seq<real>, source: nat -> seq<real>, from: nat, capacity: nat, n: nat)
    requires |q| <= capacity && forall k: nat :: |source(k)| > 0
    ensures Min(|q| + n, capacity) <= |Queued(q, source, from, capacity, n)| <= capacity
  {
    if n > 0 { QueuedLength(q, source, from, capacity, n - 1); }
  }

  /** When the fill loop ends: some number of frames fills the queue for a block if and only if the block is
      no larger than the FIFO. */
  lemma FillEndsIff(q: seq<real>, source: nat -> seq<real>, from: nat, capacity: nat, needed: nat)
    requires |q| <= capacity && forall k: nat :: |source(k)| > 0
    ensures (exists n :: needed <= |Queued(q, source, from, capacity, n)|) <==> needed <= capacity
  {
    QueuedLength(q, source, from, capacity, needed);
    forall n ensures |Queued(q, source, from, capacity, n)| <= capacity {
      QueuedLength(q, source, from, capacity, n);
    }
  }

  /** Every length below a frame is what some block leaves of an empty queue. */
  lemma EveryLengthIsReached(q: nat, frame: nat)
    requires q < frame
    ensures Filled(0, if q == 0 then 0 else frame - q, frame) - (if q == 0 then 0 else frame - q) == q
  {
  }

  lemma {:induction false} WorstLength(x: nat, needed: nat, frame: nat, worst: nat) returns (q: nat)
    requires frame > 0 && x < needed && Filled(x, needed, frame) == worst
    ensures q < frame && Filled(q, needed, frame) == worst
    decreases x
  {
    if x < frame { q := x; } else { q := WorstLength(x - frame, needed, frame, worst); }
  }

  /** At the lengths the callback reaches between blocks - those below a frame - refilling for a block loses
      nothing, whichever of them it is, if and only if the block and a frame fit to within one sample. */
  lemma RefillLosesNothingIff(needed: nat, frame: nat, capacity: nat)
    requires 0 < needed && 0 < frame
    ensures (forall q | 0 <= q < frame :: Filled(q, needed, frame) <= capacity) <==> needed + frame <= capacity + 1
  {
    assert Filled(needed - 1, needed, frame) == needed - 1 + frame;
    var worst := WorstLength(needed - 1, needed, frame, needed - 1 + frame);
  }

  class OutputCallback {
    const pending: SampleFifo
    const frameBuf: array<real>
    const source: nat -> seq<real>
    var calls: nat
    /** Everything handed to the device so far, one sample per sample frame. */
    ghost var delivered: seq<real>

    ghost predicate Sound()
      reads this, pending
    {
      && pending.Valid() && frameBuf != pending.buf && frameBuf.Length > 0
      && forall k: nat :: |source(k)| == frameBuf.Length
    }

    /** Between blocks less than a frame is queued. */
    ghost predicate Valid()
      reads this, pending
    {
      Sound() && pending.len < frameBuf.Length
    }

    /** What was delivered followed by what is queued is exactly what was produced: nothing has been lost. */
    ghost predicate Seamless()
      requires pending.Valid()
      reads this, pending, pending.buf
    {
      delivered + pending.Contents() == Produced(source, calls)
    }

    constructor (capacity: nat, frame: nat, source: nat -> seq<real>)
      requires frame > 0 && forall k: nat :: |source(k)| == frame
      ensures Valid() && Seamless() && fresh(pending) && fresh(pending.buf) && fresh(frameBuf)
      ensures pending.buf.Length == capacity && frameBuf.Length == frame && this.source == source && delivered == []
    {
      pending := new SampleFifo(capacity);
      frameBuf := new real[frame](_ => 0.0);
      this.source := source;
      calls, delivered := 0, [];
    }

    /** The next frame of the stream. */
    method Process()
      requires Sound()
      modifies this`calls, frameBuf
      ensures calls == old(calls) + 1 && frameBuf[..] == source(old(calls))
    {
      var frame := source(calls);
      forall i | 0 <= i < frameBuf.Length {
        frameBuf[i] := frame[i];
      }
      calls := calls + 1;
    }

    /** Serves one device block of any size the FIFO can hold: the queue and the frames produced for it, less
        the oldest samples if they are too many for the FIFO, go to the device as far as the block reaches and
        stay queued from there. The stream stays seamless exactly when they are not too many. */
    method Serve(data: array<real>, channels: nat) returns (ghost block: seq<real>)
      requires Valid() && channels > 0 && data != pending.buf && data != frameBuf
      requires data.Length / channels <= pending.buf.Length
      modifies this, pending, pending.buf, frameBuf, data
      ensures Valid() && old(calls) <= calls
      ensures |block| == data.Length / channels && delivered == old(delivered) + block
      ensures FannedOut(data[..], block, channels)
      ensures old(pending.len) + |Made(source, old(calls), calls)| == Filled(old(pending.len), |block|, frameBuf.Length)
      ensures block + pending.Contents() == Newest(old(pending.Contents()) + Made(source, old(calls), calls), pending.buf.Length)
      ensures old(Seamless()) ==> (Seamless() <==> Filled(old(pending.len), |block|, frameBuf.Length) <= pending.buf.Length)
    {
      var needed := data.Length / channels;
      Refill(needed);
      DivTimes(data.Length, channels);
      block := Drain(data, channels, needed);
      StreamGoesOn(delivered, old(pending.Contents()), source, old(calls), calls, pending.buf.Length, block, pending.Contents());
      delivered := delivered + block;
    }

    method Drain(data: array<real>, channels: nat, needed: nat) returns (ghost block: seq<real>)
      requires pending.Valid() && frameBuf != pending.buf && data != pending.buf && data != frameBuf
      requires frameBuf.Length > 0 && needed <= pending.len && needed * channels <= data.Length
      modifies pending, frameBuf, data
      ensures pending.Valid() && |block| == needed && block + pending.Contents() == old(pending.Contents())
      ensures FannedOut(data[..], block, channels)
    {
      block := [];
      var written := 0;
      while written < needed
        invariant pending.Valid() && written == |block| <= needed && needed - written <= pending.len
        invariant block + pending.Contents() == old(pending.Contents())
        invariant FannedOut(data[..], block, channels)
      {
        var take := Min(needed - written, frameBuf.Length);
        ghost var chunk := ServeChunk(data, channels, written, take, needed, block);
        Regroup(block, chunk, pending.Contents());
        block := block + chunk;
        written := written + take;
      }
    }

    method ServeChunk(data: array<real>, channels: nat, written: nat, take: nat, ghost needed: nat, ghost block: seq<real>)
      returns (ghost chunk: seq<real>)
      requires pending.Valid() && frameBuf != pending.buf && data != pending.buf && data != frameBuf
      requires 0 < take <= frameBuf.Length && take <= pending.len && |block| == written && written + take <= needed
      requires FannedOut(data[..], block, channels) && needed * channels <= data.Length
      modifies pending, frameBuf, data
      ensures pending.Valid() && |chunk| == take && chunk + pending.Contents() == old(pending.Contents())
      ensures FannedOut(data[..], block + chunk, channels)
    {
      var ok := pending.Pop(frameBuf, take);
      if written + take < needed { FramesFit(written + take, needed, channels); }
      FanOut(data, channels, written, take, block);
      chunk := frameBuf[..take];
    }

    method Refill(needed: nat)
      requires Sound() && needed <= pending.buf.Length
      modifies this`calls, pending, pending.buf, frameBuf
      ensures Sound() && old(calls) <= calls && needed <= pending.len
      ensures old(pending.len) + |Made(source, old(calls), calls)| == Filled(old(pending.len), needed, frameBuf.Length)
      ensures pending.Contents() == Newest(old(pending.Contents()) + Made(source, old(calls), calls), pending.buf.Length)
    {
      ghost var q := pending.Contents();
      while pending.len < needed
        invariant Sound() && old(calls) <= calls
        invariant Filling(pending.Contents(), q, source, old(calls), calls, pending.buf.Length, needed)
        decreases needed - pending.len
      {
        FillingGoesOn(pending.Contents(), q, source, old(calls), calls, pending.buf.Length, needed);
        ProcessAndPush();
      }
    }

    method ProcessAndPush()
      requires Sound() && pending.len < pending.buf.Length
      modifies this`calls, pending, pending.buf, frameBuf
      ensures Sound() && calls == old(calls) + 1 && pending.len > old(pending.len)
      ensures pending.Contents() == Newest(old(pending.Contents()) + source(old(calls)), pending.buf.Length)
    {
      Process();
      var dropped := pending.Push(frameBuf[..]);
    }

    method FanOut(data: array<real>, channels: nat, written: nat, take: nat, ghost block: seq<real>)
      requires data != frameBuf && take <= frameBuf.Length && |block| == written
      requires FannedOut(data[..], block, channels)
      requires (written + take) * channels <= data.Length
      modifies data
      ensures FannedOut(data[..], block + frameBuf[..take], channels)
    {
      assert block + frameBuf[..0] == block;
      for k := 0 to take
        invariant FannedOut(data[..], block + frameBuf[..k], channels)
      {
        ghost var before := data[..];
        FramesFit(written + k, written + take, channels);
        FanSample(data, (written + k) * channels, channels, frameBuf[k]);
        FannedOutSnoc(before, data[..], block + frameBuf[..k], frameBuf[k], channels);
        assert block + frameBuf[..k] + [frameBuf[k]] == block + frameBuf[..k + 1];
      }
    }

    method FanSample(data: array<real>, base: nat, channels: nat, v: real)
      requires base + channels <= data.Length
      modifies data
      ensures data[..base] == old(data[..base])
      ensures forall j | base <= j < base + channels :: data[j] == v
    {
      for ch := 0 to channels
        invariant data[..base] == old(data[..base])
        invariant forall j | base <= j < base + ch :: data[j] == v
      {
        data[base + ch] := v;
      }
    }
  }

  /** The bookkeeping of one block: the stream goes on without a gap exactly when nothing was dropped. */
  lemma StreamGoesOn(delivered: seq<real>, q: seq<real>, source: nat -> seq<real>, from: nat, end: nat, capacity: nat, block: seq<real>, rest: seq<real>)
    requires from <= end && block + rest == Newest(q + Made(source, from, end), capacity)
    ensures delivered + q == Produced(source, from) ==>
              ((delivered + block) + rest == Produced(source, end) <==> |q| + |Made(source, from, end)| <= capacity)
  {
    var made := Made(source, from, end);
    ProducedSplit(source, from, end);
    Regroup(delivered, block, rest);
    Regroup(delivered, q, made);
    if delivered + q == Produced(source, from) {
      assert |delivered + (block + rest)| == |delivered| + Min(|q + made|, capacity);
      assert |Produced(source, end)| == |delivered| + |q + made|;
    }
  }
}
