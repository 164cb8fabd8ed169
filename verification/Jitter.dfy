/** The 64-slot jitter buffer (crates/jam-audio/src/jitter.rs): the ring as a value, with one function
    per operation, and the class that performs the same operations store by store. */
module Jitter {
  import opened Common
  import opened Seq16

  const SLOTS := 64
  const MAX_FRAME_BYTES := 1024

  datatype SlotState = Empty | Writing | Written

  datatype Slot = Slot(state: SlotState, seqno: u16, timestamp: u32, len: u16, payload: seq<byte>) {
    /** Holds a finished frame stamped `s`. */
    predicate Holds(s: u16) { state.Written? && seqno == s }
  }

  datatype PushOutcome = Stored | Late | Duplicate | TooBig

  datatype PopOutcome = Frame(len: nat, timestamp: u32) | Missing

  datatype Stats = Stats(received: nat, late: nat, duplicates: nat, concealed: nat, played: nat, resets: nat)

  datatype Ring = Ring(slots: seq<Slot>, next: u16, newest: u16, started: bool, stats: Stats) {
    predicate Valid() {
      && |slots| == SLOTS
      && forall i | 0 <= i < SLOTS :: |slots[i].payload| == MAX_FRAME_BYTES
    }
  }

  const EMPTY_SLOT := Slot(Empty, 0, 0, 0, seq(MAX_FRAME_BYTES, _ => 0))

  const NEW_RING := Ring(seq(SLOTS, _ => EMPTY_SLOT), 0, 0, false, Stats(0, 0, 0, 0, 0, 0))

  /** A slot after a frame has been written over whatever it held. */
  function Fill(prior: Slot, s: u16, timestamp: u32, data: seq<byte>): Slot
    requires |data| <= MAX_FRAME_BYTES == |prior.payload|
  {
    Slot(Written, s, timestamp, |data|, data + prior.payload[|data|..])
  }

  /** The slot's bytes when `k` of the payload's have been copied over them. */
  function Copied(bytes: seq<byte>, payload: seq<byte>, k: nat): seq<byte>
    requires k <= |payload| <= |bytes|
  {
    payload[..k] + bytes[k..]
  }

  lemma CopyOne(bytes: seq<byte>, payload: seq<byte>, k: nat)
    requires k < |payload| <= |bytes|
    ensures Copied(bytes, payload, k)[k := payload[k]] == Copied(bytes, payload, k + 1)
  {
  }

  function Push(b: Ring, s: u16, timestamp: u32, data: seq<byte>): (r: (Ring, PushOutcome))
    requires b.Valid()
    ensures r.0.Valid()
  {
    if |data| > MAX_FRAME_BYTES then (b, TooBig)
    else if b.started && NewerThan(b.next, s) then (b.(stats := b.stats.(late := b.stats.late + 1)), Late)
    else
      var b1 := if b.started then b.(newest := if NewerThan(s, b.newest) then s else b.newest)
                else b.(next := s, newest := s, started := true);
      var i := s % SLOTS;
      if b.slots[i].Holds(s) then (b1.(stats := b.stats.(duplicates := b.stats.duplicates + 1)), Duplicate)
      else
        (b1.(slots := b.slots[i := Fill(b.slots[i], s, timestamp, data)],
             stats := b.stats.(received := b.stats.received + 1)), Stored)
  }

  /** The outcome of a pop and, for a frame, the bytes copied out. */
  function Pop(b: Ring): (r: (Ring, PopOutcome, seq<byte>))
    requires b.Valid()
    ensures r.0.Valid()
    ensures r.1.Frame? ==> |r.2| == r.1.len <= MAX_FRAME_BYTES
  {
    var i := b.next % SLOTS;
    var slot := b.slots[i];
    var b1 := b.(next := Wrap(b.next + 1));
    if !b.started then (b, Missing, [])
    else if slot.Holds(b.next) && slot.len <= MAX_FRAME_BYTES then
      (b1.(slots := b.slots[i := slot.(state := Empty)], stats := b.stats.(played := b.stats.played + 1)),
       Frame(slot.len, slot.timestamp), slot.payload[..slot.len])
    else
      (b1.(stats := b.stats.(concealed := b.stats.concealed + 1)), Missing, [])
  }

  function Skip(b: Ring): (r: (Ring, bool))
    requires b.Valid()
    ensures r.0.Valid()
  {
    var i := b.next % SLOTS;
    var had := b.slots[i].Holds(b.next);
    var slots := if had then b.slots[i := b.slots[i].(state := Empty)] else b.slots;
    if b.started then (b.(slots := slots, next := Wrap(b.next + 1)), had) else (b, false)
  }

  function Reset(b: Ring): (r: Ring)
    requires b.Valid()
    ensures r.Valid()
  {
    b.(slots := seq(SLOTS, i requires 0 <= i < SLOTS => b.slots[i].(state := Empty)), started := false,
       stats := b.stats.(resets := b.stats.resets + 1))
  }

  function Depth(b: Ring): int { if b.started then Diff(b.newest, b.next) + 1 else 0 }

  class JitterBuffer {
    const slots: array<Slot>
    var nextSeq: u16
    var newestSeq: u16
    var started: bool
    var stats: Stats

    ghost function View(): Ring
      reads this, slots
    {
      Ring(slots[..], nextSeq, newestSeq, started, stats)
    }

    ghost predicate Valid()
      reads this, slots
    {
      View().Valid()
    }

    constructor ()
      ensures fresh(slots) && View() == NEW_RING
    {
      slots := new Slot[SLOTS](_ => EMPTY_SLOT);
      nextSeq, newestSeq, started, stats := 0, 0, false, Stats(0, 0, 0, 0, 0, 0);
    }

    /** The slot is claimed, its fields and bytes are stored one at a time, and only then is it marked
        as written. */
    method WriteSlot(i: nat, incoming: u16, timestamp: u32, payload: seq<byte>)
      requires Valid() && i < SLOTS && |payload| <= MAX_FRAME_BYTES
      modifies slots
      ensures slots[..] == old(slots[..])[i := Fill(old(slots[i]), incoming, timestamp, payload)]
    {
      slots[i] := slots[i].(state := Writing);
      slots[i] := slots[i].(seqno := incoming);
      slots[i] := slots[i].(timestamp := timestamp);
      slots[i] := slots[i].(len := |payload|);
      for k := 0 to |payload|
        invariant forall j | 0 <= j < SLOTS && j != i :: slots[j] == old(slots[j])
        invariant slots[i] == Slot(Writing, incoming, timestamp, |payload|, Copied(old(slots[i]).payload, payload, k))
      {
        CopyOne(old(slots[i]).payload, payload, k);
        slots[i] := slots[i].(payload := slots[i].payload[k := payload[k]]);
      }
      slots[i] := slots[i].(state := Written);
      assert payload[..|payload|] == payload;
    }

    /** Writer side. */
    method PushFrame(incoming: u16, timestamp: u32, payload: seq<byte>) returns (outcome: PushOutcome)
      requires Valid()
      modifies this, slots
      ensures (View(), outcome) == Push(old(View()), incoming, timestamp, payload)
    {
      if |payload| > MAX_FRAME_BYTES {
        return TooBig;
      }
      if !started {
        nextSeq := incoming;
        newestSeq := incoming;
        started := true;
      } else {
        if NewerThan(nextSeq, incoming) {
          stats := stats.(late := stats.late + 1);
          return Late;
        }
        if NewerThan(incoming, newestSeq) {
          newestSeq := incoming;
        }
      }
      var i := incoming % SLOTS;
      if slots[i].Holds(incoming) {
        stats := stats.(duplicates := stats.duplicates + 1);
        return Duplicate;
      }
      WriteSlot(i, incoming, timestamp, payload);
      stats := stats.(received := stats.received + 1);
      return Stored;
    }

    function CurrentDepth(): (d: int)
      reads this, slots
      ensures d == Depth(View())
    {
      if !started then 0 else Diff(newestSeq, nextSeq) + 1
    }

    /** Reader side: takes the frame at the read position, which advances on a hit and on a miss. */
    method PopNext(out: array<byte>) returns (outcome: PopOutcome)
      requires Valid() && out.Length >= MAX_FRAME_BYTES
      modifies this, slots, out
      ensures (View(), outcome) == (Pop(old(View())).0, Pop(old(View())).1)
      ensures outcome.Frame? ==> out[..outcome.len] == Pop(old(View())).2
    {
      if !started {
        return Missing;
      }
      var wanted := nextSeq;
      outcome := Take(wanted, out);
      nextSeq := Wrap(nextSeq + 1);
      match outcome
      case Frame(_, _) => stats := stats.(played := stats.played + 1);
      case Missing => stats := stats.(concealed := stats.concealed + 1);
    }

    method Take(wanted: u16, out: array<byte>) returns (outcome: PopOutcome)
      requires Valid() && out.Length >= MAX_FRAME_BYTES
      modifies slots, out
      ensures var slot := old(slots[wanted % SLOTS]);
              if slot.Holds(wanted) && slot.len <= MAX_FRAME_BYTES then
                && outcome == Frame(slot.len, slot.timestamp)
                && out[..slot.len] == slot.payload[..slot.len]
                && slots[..] == old(slots[..])[wanted % SLOTS := slot.(state := Empty)]
              else
                outcome == Missing && slots[..] == old(slots[..])
    {
      var i := wanted % SLOTS;
      if !slots[i].state.Written? || slots[i].seqno != wanted {
        return Missing;
      }
      var len, timestamp := slots[i].len, slots[i].timestamp;
      if len > MAX_FRAME_BYTES {
        return Missing;
      }
      for k := 0 to len
        invariant slots[..] == old(slots[..])
        invariant out[..k] == slots[i].payload[..k]
      {
        out[k] := slots[i].payload[k];
      }
      if !slots[i].state.Written? || slots[i].seqno != wanted {
        return Missing;
      }
      slots[i] := slots[i].(state := Empty);
      return Frame(len, timestamp);
    }

    method SkipNext() returns (had: bool)
      requires Valid()
      modifies this, slots
      ensures (View(), had) == Skip(old(View()))
    {
      if !started {
        return false;
      }
      var i := nextSeq % SLOTS;
      had := slots[i].Holds(nextSeq);
      if had {
        slots[i] := slots[i].(state := Empty);
      }
      nextSeq := Wrap(nextSeq + 1);
    }

    method Clear()
      requires Valid()
      modifies this, slots
      ensures View() == Reset(old(View()))
    {
      for i := 0 to SLOTS
        invariant slots[..] == seq(SLOTS, j requires 0 <= j < SLOTS => if j < i then old(slots[j]).(state := Empty) else old(slots[j]))
        invariant unchanged(this)
      {
        slots[i] := slots[i].(state := Empty);
      }
      started := false;
      stats := stats.(resets := stats.resets + 1);
    }
  }
}
