/** Playback: the network thread of lib/aoip.c fills the ring from a socket, the audio thread of
    src/rtpdump/rtpdump.c empties it. Every read and write of shared memory is a step of its
    own; the two threads' steps interleave in any order, over sequentially consistent memory.
    A step that its thread is not ready for leaves the state as it is. */
module Playback {
  import opened MachineInt
  import opened Ring

  datatype Slot = Slot(len: nat, seqNo: u16, tstamp: u64, data: seq<u8>)

  /** Where the network thread is; `w` is the write pointer it took, `packet` the datagram it is
      copying, `i` how far it is, `count` what it received. */
  datatype Net =
    | NIdle
    | NReceiving(w: nat)
    | NCopying(w: nat, packet: seq<u8>, i: nat)
    | NTestFull(w: nat, count: nat)
    | NSetLen(w: nat, count: nat)
    | NSetSeq(w: nat, count: nat)
    | NSetTstamp(w: nat, count: nat)
    | NNextSeq(w: nat, count: nat)
    | NPublish(w: nat, count: nat)

  /** Where the audio thread is; `r` is the read pointer it took, `got` the bytes read so far. */
  datatype Audio = AIdle | ATestEmpty(r: nat) | AReading(r: nat, got: seq<u8>)

  /** `inHand` is the datagram last received, `kept` are those that passed the full test. */
  datatype State = State(head: u32, tail: u32, mask: u32, slots: seq<Slot>, seqNo: u16, net: Net, audio: Audio,
                         inHand: seq<u8>, kept: seq<seq<u8>>, published: seq<Slot>, consumed: seq<seq<u8>>,
                         received: nat, dropped: nat)

  datatype Action =
    | TakeWritePtr | ReceiveNothing | Arrive(datagram: seq<u8>) | ReceiveByte | ReceiveDone
    | TestFull | SetLen | SetSeq | SetTstamp(now: u64) | NextSeq | Publish
    | TakeReadPtr | TestEmpty | ReadByte | ReadDone

  // ---------- the threads ----------

  predicate InRange(s: State) {
    s.head < |s.slots| && s.tail < |s.slots|
  }

  function Update(s: State, w: nat, slot: Slot, net: Net): State {
    if w < |s.slots| then s.(slots := s.slots[w := slot], net := net) else s
  }

  /** A datagram longer than the slot loses what does not fit. */
  function Truncated(datagram: seq<u8>, cap: nat): seq<u8> {
    if |datagram| <= cap then datagram else datagram[..cap]
  }

  function NetStep(s: State, a: Action): State
    requires InRange(s)
  {
    match (s.net, a)
    case (NIdle, TakeWritePtr) => s.(net := NReceiving(s.head))
    case (NReceiving(w), ReceiveNothing) => s.(net := NIdle)
    case (NReceiving(w), Arrive(datagram)) =>
      if w < |s.slots| && datagram != [] && s.slots[w].data != [] then
        s.(net := NCopying(w, Truncated(datagram, |s.slots[w].data|), 0))
      else s.(net := NIdle)
    case (NCopying(w, packet, i), ReceiveByte) =>
      if w < |s.slots| && i < |s.slots[w].data| && i < |packet| then
        Update(s, w, s.slots[w].(data := s.slots[w].data[i := packet[i]]), NCopying(w, packet, i + 1))
      else s
    case (NCopying(w, packet, i), ReceiveDone) =>
      if i == |packet| then
        s.(net := NTestFull(w, |packet|), received := s.received + 1, inHand := packet)
      else s
    case (NTestFull(w, count), TestFull) =>
      if Advance(s.head, s.mask) == s.tail then s.(net := NIdle, dropped := s.dropped + 1)
      else s.(net := NSetLen(w, count), kept := s.kept + [s.inHand])
    case (NSetLen(w, count), SetLen) =>
      if w < |s.slots| then Update(s, w, s.slots[w].(len := count), NSetSeq(w, count)) else s
    case (NSetSeq(w, count), SetSeq) =>
      if w < |s.slots| then Update(s, w, s.slots[w].(seqNo := s.seqNo), NSetTstamp(w, count)) else s
    case (NSetTstamp(w, count), SetTstamp(now)) =>
      if w < |s.slots| then Update(s, w, s.slots[w].(tstamp := now), NNextSeq(w, count)) else s
    case (NNextSeq(w, count), NextSeq) => s.(seqNo := (s.seqNo + 1) % TWO_16, net := NPublish(w, count))
    case (NPublish(w, count), Publish) =>
      s.(head := Advance(s.head, s.mask), net := NIdle, published := s.published + [s.slots[s.head]])
    case _ => s
  }

  function AudioStep(s: State, a: Action): State
    requires InRange(s)
  {
    match (s.audio, a)
    case (AIdle, TakeReadPtr) => s.(audio := ATestEmpty(s.tail))
    case (ATestEmpty(r), TestEmpty) => s.(audio := if s.head == s.tail then AIdle else AReading(r, []))
    case (AReading(r, got), ReadByte) =>
      if r < |s.slots| && |got| < s.slots[r].len && |got| < |s.slots[r].data| then
        s.(audio := AReading(r, got + [s.slots[r].data[|got|]]))
      else s
    case (AReading(r, got), ReadDone) =>
      if r < |s.slots| && |got| >= s.slots[r].len then
        s.(tail := Advance(s.tail, s.mask), audio := AIdle, consumed := s.consumed + [got])
      else s
    case _ => s
  }

  predicate OfNet(a: Action) {
    !(a.TakeReadPtr? || a.TestEmpty? || a.ReadByte? || a.ReadDone?)
  }

  function Step(s: State, a: Action): State {
    if !InRange(s) then s else if OfNet(a) then NetStep(s, a) else AudioStep(s, a)
  }

  function Run(s: State, run: seq<Action>): State {
    if run == [] then s else Step(Run(s, run[..|run| - 1]), run[|run| - 1])
  }

  function Start(slots: seq<Slot>): State
    requires 0 < |slots| <= TWO_32
  {
    State(0, 0, |slots| - 1, slots, 0, NIdle, AIdle, [], [], [], [], 0, 0)
  }

  // ---------- the invariant ----------

  /** The queued packets, read off head, tail and the slots. */
  function Queue(s: State): seq<Slot>
    requires InRange(s)
  {
    Queued(s.slots, s.head, s.tail)
  }

  ghost predicate Shape(k: nat, cap: nat, s: State) {
    && s.mask + 1 == Pow2(k) == |s.slots|
    && InRange(s)
    && forall j | 0 <= j < |s.slots| :: |s.slots[j].data| == cap
  }

  /** Tail to head hold exactly what was published and not consumed. */
  ghost predicate Fifo(s: State)
    requires InRange(s)
  {
    |s.consumed| <= |s.published| && Queue(s) == s.published[|s.consumed|..]
  }

  function Bytes(slot: Slot): seq<u8> {
    if slot.len <= |slot.data| then slot.data[..slot.len] else slot.data
  }

  /** Published packets are numbered from zero without a gap and are the datagrams kept; what was
      consumed is what was published, byte for byte. */
  ghost predicate History(cap: nat, s: State) {
    && |s.consumed| <= |s.published| <= |s.kept|
    && (forall i | 0 <= i < |s.published| ::
          && s.published[i].seqNo == i % TWO_16
          && 0 < s.published[i].len <= cap == |s.published[i].data|
          && Bytes(s.published[i]) == s.kept[i])
    && (forall i | 0 <= i < |s.consumed| :: s.consumed[i] == Bytes(s.published[i]))
  }

  /** How far the network thread is with one packet. */
  function Stage(net: Net): nat {
    match net
    case NIdle => 0
    case NReceiving(_) => 1
    case NCopying(_, _, _) => 1
    case NTestFull(_, _) => 2
    case NSetLen(_, _) => 3
    case NSetSeq(_, _) => 4
    case NSetTstamp(_, _) => 5
    case NNextSeq(_, _) => 6
    case NPublish(_, _) => 7
  }

  /** The write pointer is the head slot; once the full test has passed it stays passed. */
  ghost predicate NetInv(cap: nat, s: State)
    requires InRange(s)
  {
    var stage := Stage(s.net);
    && s.seqNo == (|s.published| + if stage == 7 then 1 else 0) % TWO_16
    && (stage >= 1 ==> s.net.w == s.head)
    && (s.net.NCopying? ==>
          s.net.i <= |s.net.packet| && 0 < |s.net.packet| <= cap == |s.slots[s.head].data|
          && s.slots[s.head].data[..s.net.i] == s.net.packet[..s.net.i])
    && |s.kept| == |s.published| + (if stage >= 3 then 1 else 0)
    && (stage >= 2 ==>
          0 < s.net.count <= cap == |s.slots[s.head].data| && s.inHand == s.slots[s.head].data[..s.net.count])
    && (stage >= 3 ==> s.kept[|s.published|] == s.inHand)
    && (stage >= 3 ==> Next(s.head, |s.slots|) != s.tail)
    && (stage >= 4 ==> s.slots[s.head].len == s.net.count)
    && (stage >= 5 ==> s.slots[s.head].seqNo == |s.published| % TWO_16)
  }

  /** The read pointer is the tail slot, and while it is read the ring is not empty. */
  ghost predicate AudioInv(s: State)
    requires InRange(s)
  {
    && (!s.audio.AIdle? ==> s.audio.r == s.tail)
    && (s.audio.AReading? ==>
          && s.head != s.tail && |s.audio.got| <= s.slots[s.tail].len
          && |s.audio.got| <= |s.slots[s.tail].data| && s.audio.got == s.slots[s.tail].data[..|s.audio.got|])
  }

  /** No packet is lost count of: it was consumed, is queued, was dropped, or is in hand. */
  ghost predicate Conserved(s: State)
    requires InRange(s)
  {
    s.received == |s.consumed| + |Queue(s)| + s.dropped + if Stage(s.net) >= 2 then 1 else 0
  }

  ghost predicate Inv(k: nat, cap: nat, s: State) {
    && Shape(k, cap, s) && Fifo(s) && History(cap, s) && NetInv(cap, s) && AudioInv(s) && Conserved(s)
  }

  /** The only slot the network thread writes is the head slot; queue and readers do not notice. */
  lemma HeadWriteKeeps(k: nat, cap: nat, s: State, slot: Slot)
    requires Inv(k, cap, s) && |slot.data| == cap
    ensures var s' := s.(slots := s.slots[s.head := slot]);
            Shape(k, cap, s') && Fifo(s') && History(cap, s') && AudioInv(s') && Conserved(s')
  {
    WriteAtHead(s.slots, s.head, s.tail, slot);
  }

  lemma PublishKeeps(k: nat, cap: nat, s: State)
    requires Inv(k, cap, s) && s.net.NPublish?
    ensures Inv(k, cap, NetStep(s, Action.Publish))
  {
    hide Queued, Advance, Pow2;
    AdvanceIsNext(s.head, s.mask, k);
    Ring.Publish(s.slots, s.head, s.tail);
    var s' := NetStep(s, Action.Publish);
    assert s'.published[|s.consumed|..] == s.published[|s.consumed|..] + [s.slots[s.head]];
  }

  lemma ReceiveKeeps(k: nat, cap: nat, s: State, a: Action)
    requires Inv(k, cap, s) && (a.Arrive? || a.ReceiveByte? || a.ReceiveDone?)
    ensures Inv(k, cap, NetStep(s, a))
  {
    hide Queued, Advance, Pow2, Bytes, History;
    var s' := NetStep(s, a);
    if s'.slots != s.slots {
      OneMoreByte(s.slots[s.head].data, s.net.packet, s.net.i);
      HeadWriteKeeps(k, cap, s, s'.slots[s.head]);
    }
    SameHistory(cap, s, s');
  }

  lemma OneMoreByte(data: seq<u8>, packet: seq<u8>, i: nat)
    requires i < |data| && i < |packet| && data[..i] == packet[..i]
    ensures data[i := packet[i]][..i + 1] == packet[..i + 1]
  {
    assert data[i := packet[i]][..i + 1] == data[..i] + [packet[i]];
    assert packet[..i + 1] == packet[..i] + [packet[i]];
  }

  lemma SetKeeps(k: nat, cap: nat, s: State, a: Action)
    requires Inv(k, cap, s) && (a.SetLen? || a.SetSeq? || a.SetTstamp? || a.NextSeq?)
    ensures Inv(k, cap, NetStep(s, a))
  {
    hide Queued, Advance, Pow2, Bytes, History;
    var s' := NetStep(s, a);
    if s'.slots != s.slots {
      HeadWriteKeeps(k, cap, s, s'.slots[s.head]);
    }
    SameHistory(cap, s, s');
  }

  lemma SameHistory(cap: nat, s: State, s': State)
    requires History(cap, s)
    requires s'.kept == s.kept && s'.published == s.published && s'.consumed == s.consumed
    ensures History(cap, s')
  {
  }

  lemma {:induction false} NetKeeps(k: nat, cap: nat, s: State, a: Action)
    requires Inv(k, cap, s)
    ensures Inv(k, cap, NetStep(s, a))
  {
    hide Queued, Advance, Pow2, Bytes;
    if s.net.NPublish? && a.Publish? {
      PublishKeeps(k, cap, s);
    } else if a.Arrive? || a.ReceiveByte? || a.ReceiveDone? {
      ReceiveKeeps(k, cap, s, a);
    } else if a.SetLen? || a.SetSeq? || a.SetTstamp? || a.NextSeq? {
      SetKeeps(k, cap, s, a);
    } else if a.TestFull? {
      AdvanceIsNext(s.head, s.mask, k);
    }
  }

  lemma ReadDoneKeeps(k: nat, cap: nat, s: State)
    requires Inv(k, cap, s) && s.audio.AReading? && |s.audio.got| >= s.slots[s.tail].len
    ensures Inv(k, cap, AudioStep(s, ReadDone))
  {
    hide Queued, Advance, Pow2;
    AdvanceIsNext(s.tail, s.mask, k);
    Consume(s.slots, s.head, s.tail);
    Tests(s.slots, s.head, s.tail);
    var n := |s.consumed|;
    FrontIs(s.published, n, s.slots[s.tail], Queued(s.slots, s.head, Next(s.tail, |s.slots|)));
    assert s.audio.got == Bytes(s.published[n]);
    var s' := AudioStep(s, ReadDone);
    assert Fifo(s') && History(cap, s') && AudioInv(s');
    if Stage(s.net) >= 3 {
      Tests(s.slots, s.head, s'.tail);
    }
  }

  lemma FrontIs<T>(published: seq<T>, n: nat, x: T, rest: seq<T>)
    requires n <= |published| && published[n..] == [x] + rest
    ensures n < |published| && published[n] == x && published[n + 1..] == rest
  {
    assert published[n..][0] == x && published[n..][1..] == published[n + 1..];
  }

  lemma {:induction false} AudioKeeps(k: nat, cap: nat, s: State, a: Action)
    requires Inv(k, cap, s)
    ensures Inv(k, cap, AudioStep(s, a))
  {
    hide Queued, Advance, Pow2;
    if s.audio.AReading? && a.ReadDone? {
      if |s.audio.got| >= s.slots[s.tail].len {
        ReadDoneKeeps(k, cap, s);
      }
    }
  }

  lemma {:induction false} AlwaysInv(k: nat, cap: nat, slots: seq<Slot>, run: seq<Action>)
    requires |slots| == Pow2(k) <= TWO_32 && forall j | 0 <= j < |slots| :: |slots[j].data| == cap
    ensures Inv(k, cap, Run(Start(slots), run))
  {
    if run != [] {
      hide Inv, NetStep, AudioStep;
      var n := |run| - 1;
      AlwaysInv(k, cap, slots, run[..n]);
      NetKeeps(k, cap, Run(Start(slots), run[..n]), run[n]);
      AudioKeeps(k, cap, Run(Start(slots), run[..n]), run[n]);
    }
  }

  // ---------- what holds in every interleaving ----------

  /** For every power-of-two ring size and any number of index wraps: the slots from tail to head
      are exactly the published packets not yet consumed, in order; the i-th packet consumed is the
      i-th datagram kept, never torn; published packets are numbered without a gap; and every
      packet received is consumed, queued, dropped or the one in hand. */
  lemma {:induction false} EveryRun(k: nat, cap: nat, slots: seq<Slot>, run: seq<Action>)
    requires |slots| == Pow2(k) <= TWO_32 && forall j | 0 <= j < |slots| :: |slots[j].data| == cap
    ensures var s := Run(Start(slots), run);
            && InRange(s) && |s.consumed| <= |s.published|
            && Queue(s) == s.published[|s.consumed|..]
            && |s.published| <= |s.kept|
            && (forall i | 0 <= i < |s.published| ::
                  s.published[i].seqNo == i % TWO_16 && Bytes(s.published[i]) == s.kept[i])
            && (forall i | 0 <= i < |s.consumed| :: s.consumed[i] == s.kept[i])
            && s.received == |s.consumed| + |Queue(s)| + s.dropped + if Stage(s.net) >= 2 then 1 else 0
  {
    AlwaysInv(k, cap, slots, run);
  }

  /** The two threads never touch the contents of the same slot: the network thread's pointer is the
      head slot, the audio thread reads only the tail slot, and only while they differ. A
      packet is dropped only when all slots but one are queued. */
  lemma {:induction false} NeverTheSameSlot(k: nat, cap: nat, slots: seq<Slot>, run: seq<Action>, a: Action)
    requires |slots| == Pow2(k) <= TWO_32 && forall j | 0 <= j < |slots| :: |slots[j].data| == cap
    ensures var s := Run(Start(slots), run);
            && InRange(s)
            && (s.audio.AReading? && !s.net.NIdle? ==> s.audio.r != s.net.w)
            && (forall j | 0 <= j < |s.slots| && Step(s, a).slots != s.slots && j != s.net.w ::
                  Step(s, a).slots[j] == s.slots[j])
            && (Step(s, a).dropped != s.dropped ==> |Queue(s)| == |slots| - 1)
  {
    hide Run, Queued, Advance, Pow2;
    AlwaysInv(k, cap, slots, run);
    var s := Run(Start(slots), run);
    AdvanceIsNext(s.head, s.mask, k);
    Tests(s.slots, s.head, s.tail);
  }

  // ---------- refinement ----------

  /** An unbounded queue of packets and what has been taken from it. */
  datatype Abstract = Abstract(queue: seq<Slot>, taken: seq<seq<u8>>)

  function Abs(s: State): Abstract
    requires InRange(s)
  {
    Abstract(Queue(s), s.consumed)
  }

  ghost predicate Stutter(f: Abstract, f': Abstract) {
    f' == f
  }

  ghost predicate Enqueue(f: Abstract, f': Abstract, x: Slot) {
    f' == f.(queue := f.queue + [x])
  }

  ghost predicate Dequeue(f: Abstract, f': Abstract) {
    f.queue != [] && f' == Abstract(f.queue[1..], f.taken + [Bytes(f.queue[0])])
  }

  /** A step as the unbounded queue sees it: only the head advance enqueues, only the tail advance
      dequeues, and all others, a receive into the head slot included, are invisible. */
  ghost predicate Refines(s: State, a: Action, s': State) {
    && InRange(s) && InRange(s')
    && if s'.head != s.head then a.Publish? && Enqueue(Abs(s), Abs(s'), s.slots[s.head])
       else if s'.tail != s.tail then a.ReadDone? && Dequeue(Abs(s), Abs(s'))
       else Stutter(Abs(s), Abs(s'))
  }

  lemma NetRefines(k: nat, cap: nat, s: State, a: Action)
    requires Inv(k, cap, s)
    ensures Refines(s, a, NetStep(s, a))
  {
    hide Queued, Advance, Pow2, Conserved, History, Bytes;
    AdvanceIsNext(s.head, s.mask, k);
    if a.Publish? && s.net.NPublish? {
      Ring.Publish(s.slots, s.head, s.tail);
    } else if NetStep(s, a).slots != s.slots {
      WriteAtHead(s.slots, s.head, s.tail, NetStep(s, a).slots[s.head]);
    }
  }

  lemma AudioRefines(k: nat, cap: nat, s: State, a: Action)
    requires Inv(k, cap, s)
    ensures Refines(s, a, AudioStep(s, a))
  {
    hide Queued, Advance, Pow2, Conserved, NetInv;
    AdvanceIsNext(s.tail, s.mask, k);
    if a.ReadDone? && s.audio.AReading? && AudioStep(s, a) != s {
      Consume(s.slots, s.head, s.tail);
      FrontIs(s.published, |s.consumed|, s.slots[s.tail], Queued(s.slots, s.head, Next(s.tail, |s.slots|)));
    }
  }

  /** Each step of either thread, in every reachable state, is a step of the unbounded queue, with the
      queue read off the ring alone. */
  lemma {:induction false} StepRefines(k: nat, cap: nat, slots: seq<Slot>, run: seq<Action>, a: Action)
    requires |slots| == Pow2(k) <= TWO_32 && forall j | 0 <= j < |slots| :: |slots[j].data| == cap
    ensures Refines(Run(Start(slots), run), a, Step(Run(Start(slots), run), a))
  {
    hide Inv, NetStep, AudioStep, Run, Refines;
    AlwaysInv(k, cap, slots, run);
    var s := Run(Start(slots), run);
    InvInRange(k, cap, s);
    NetRefines(k, cap, s, a);
    AudioRefines(k, cap, s, a);
  }

  lemma InvInRange(k: nat, cap: nat, s: State)
    requires Inv(k, cap, s)
    ensures InRange(s)
  {
  }
}
