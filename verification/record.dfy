/** Record: the audio thread of src/tonegen/tonegen.c fills the ring, the network thread of
    lib/aoip.c stamps the front slot in place and sends it. Steps interleave as in Playback:
    every access to shared memory is a step, and a step its thread is not ready for does nothing. */
module Record {
  import opened MachineInt
  import opened Ring
  import opened RtpStamp

  const RTP_HDR_SIZE: int := 12
  const PAYLOAD_SIZE: int := 288

  datatype Slot = Slot(len: u16, seqNo: u16, data: seq<u8>)

  datatype Audio =
    | AIdle
    | ATakePtr
    | ASetLen(w: nat)
    | ASetSeq(w: nat)
    | AFilling(w: nat, i: nat)
    | APublish(w: nat)

  /** While sending, `out` are the bytes read from the slot so far. */
  datatype Net =
    | NIdle
    | NTakePtr
    | NStampTime(r: nat)
    | NStampSeq(r: nat)
    | NSending(r: nat, out: seq<u8>)
    | NRetire
    | NStopped

  /** A packet as it went out, and the number of the attempt that got it out. */
  datatype Sent = Sent(bytes: seq<u8>, attempt: nat)

  /** `generated` are the payloads handed to the fill loop, the last one perhaps still being
      written; `stamps` the timestamps of all attempts. */
  datatype State = State(head: u32, tail: u32, mask: u32, slots: seq<Slot>, dataLen: u16,
                         audioSeq: u16, audio: Audio, tstamp: u32, net: Net,
                         generated: seq<seq<u8>>, published: nat, consumed: nat, stamps: seq<u32>, wire: seq<Sent>)

  datatype Action =
    | TestFull | TakeWritePtr | SetLen | SetSeq(payload: seq<u8>) | FillByte | Publish
    | TestEmpty | TakeReadPtr | StampTime(anchor: u32) | StampSeq | SendByte | SendOk | SendAgain | SendFailed | Retire

  // ---------- the threads ----------

  predicate InRange(s: State) {
    s.head < |s.slots| && s.tail < |s.slots|
  }

  function AudioStep(s: State, a: Action): State
    requires InRange(s)
  {
    match (s.audio, a)
    case (AIdle, TestFull) =>
      if Ring.Advance(s.head, s.mask) == s.tail then s else s.(audio := ATakePtr)
    case (ATakePtr, TakeWritePtr) => s.(audio := ASetLen(s.head))
    case (ASetLen(w), SetLen) =>
      if w < |s.slots| then s.(slots := s.slots[w := s.slots[w].(len := s.dataLen)], audio := ASetSeq(w)) else s
    case (ASetSeq(w), SetSeq(payload)) =>
      if w < |s.slots| && |payload| == PAYLOAD_SIZE then
        s.(slots := s.slots[w := s.slots[w].(seqNo := s.audioSeq)], audio := AFilling(w, 0),
           generated := s.generated + [payload])
      else s
    case (AFilling(w, i), FillByte) =>
      if w < |s.slots| && i < PAYLOAD_SIZE && RTP_HDR_SIZE + i < |s.slots[w].data|
         && s.generated != [] && i < |s.generated[|s.generated| - 1]| then
        var data := s.slots[w].data[RTP_HDR_SIZE + i := s.generated[|s.generated| - 1][i]];
        s.(slots := s.slots[w := s.slots[w].(data := data)],
           audio := if i + 1 == PAYLOAD_SIZE then APublish(w) else AFilling(w, i + 1),
           audioSeq := if i + 1 == PAYLOAD_SIZE then (s.audioSeq + 1) % TWO_16 else s.audioSeq)
      else s
    case (APublish(w), Publish) =>
      s.(head := Ring.Advance(s.head, s.mask), audio := AIdle, published := s.published + 1)
    case _ => s
  }

  /** Network byte order. */
  function Be16(x: u16): (b: seq<u8>)
    ensures |b| == 2 && 0x100 * (b[0] as int) + b[1] == x
  {
    [x / 256, x % 256]
  }

  function Be32(x: u32): (b: seq<u8>)
    ensures |b| == 4 && 0x100_0000 * (b[0] as int) + 0x1_0000 * (b[1] as int) + 0x100 * (b[2] as int) + b[3] == x
  {
    Be16(x / TWO_16) + Be16(x % TWO_16)
  }

  /** Overwrite the bytes from `at` on. */
  function Put(data: seq<u8>, at: nat, bytes: seq<u8>): seq<u8> {
    if at + |bytes| <= |data| then data[..at] + bytes + data[at + |bytes|..] else data
  }

  function NetStep(s: State, a: Action): State
    requires InRange(s)
  {
    match (s.net, a)
    case (NIdle, TestEmpty) => if s.head == s.tail then s else s.(net := NTakePtr)
    case (NTakePtr, TakeReadPtr) => s.(net := NStampTime(s.tail))
    case (NStampTime(r), StampTime(anchor)) =>
      if r < |s.slots| then
        var tstamp := NextStamp(s.tstamp, anchor);
        s.(tstamp := tstamp, stamps := s.stamps + [tstamp], net := NStampSeq(r),
           slots := s.slots[r := s.slots[r].(data := Put(s.slots[r].data, 4, Be32(tstamp)))])
      else s
    case (NStampSeq(r), StampSeq) =>
      if r < |s.slots| then
        s.(slots := s.slots[r := s.slots[r].(data := Put(s.slots[r].data, 2, Be16(s.slots[r].seqNo)))],
           net := NSending(r, []))
      else s
    case (NSending(r, out), SendByte) =>
      if r < |s.slots| && |out| < s.slots[r].len && |out| < |s.slots[r].data| then
        s.(net := NSending(r, out + [s.slots[r].data[|out|]]))
      else s
    case (NSending(r, out), SendOk) =>
      if r < |s.slots| && |out| >= s.slots[r].len && s.stamps != [] then
        s.(wire := s.wire + [Sent(out, |s.stamps| - 1)], net := NRetire)
      else s
    case (NSending(_, _), SendAgain) => s.(net := NIdle)
    case (NSending(_, _), SendFailed) => s.(net := NStopped)
    case (NRetire, Retire) => s.(tail := Ring.Advance(s.tail, s.mask), net := NIdle, consumed := s.consumed + 1)
    case _ => s
  }

  predicate OfAudio(a: Action) {
    a.TestFull? || a.TakeWritePtr? || a.SetLen? || a.SetSeq? || a.FillByte? || a.Publish?
  }

  function Step(s: State, a: Action): State {
    if !InRange(s) then s else if OfAudio(a) then AudioStep(s, a) else NetStep(s, a)
  }

  function Run(s: State, run: seq<Action>): State {
    if run == [] then s else Step(Run(s, run[..|run| - 1]), run[|run| - 1])
  }

  function Start(slots: seq<Slot>, dataLen: u16): State
    requires 0 < |slots| <= TWO_32
  {
    State(0, 0, |slots| - 1, slots, dataLen, 0, AIdle, 0, NIdle, [], 0, 0, [], [])
  }

  // ---------- the invariant ----------

  function Queue(s: State): seq<Slot>
    requires InRange(s)
  {
    Queued(s.slots, s.head, s.tail)
  }

  ghost predicate Shape(k: nat, s: State) {
    s.mask + 1 == Pow2(k) == |s.slots| && InRange(s) && s.dataLen >= RTP_HDR_SIZE + PAYLOAD_SIZE
  }

  /** The bytes that neither thread ever writes: version, payload type and SSRC. */
  ghost predicate SameHeader(data: seq<u8>, init: seq<u8>) {
    && |data| >= RTP_HDR_SIZE && |init| >= RTP_HDR_SIZE
    && data[..2] == init[..2] && data[8..RTP_HDR_SIZE] == init[8..RTP_HDR_SIZE]
  }

  ghost predicate Headers(s: State, init: seq<Slot>) {
    && |s.slots| == |init|
    && forall j | 0 <= j < |init| :: |s.slots[j].data| == s.dataLen && SameHeader(s.slots[j].data, init[j].data)
  }

  /** The first n payload bytes are in place. */
  ghost predicate Filled(data: seq<u8>, payload: seq<u8>, n: nat) {
    n <= |payload| && RTP_HDR_SIZE + n <= |data| && data[RTP_HDR_SIZE..RTP_HDR_SIZE + n] == payload[..n]
  }

  /** A slot that holds packet number n. */
  ghost predicate Holds(slot: Slot, dataLen: u16, n: nat, payload: seq<u8>) {
    && slot.len == dataLen == |slot.data| && slot.seqNo == n % TWO_16
    && Filled(slot.data, payload, PAYLOAD_SIZE)
  }

  ghost predicate Contents(s: State)
    requires InRange(s)
  {
    && s.published <= |s.generated| && s.published == s.consumed + |Queue(s)|
    && forall i | 0 <= i < |Queue(s)| ::
         Holds(Queue(s)[i], s.dataLen, s.consumed + i, s.generated[s.consumed + i])
  }

  function Stage(audio: Audio): nat {
    match audio
    case AIdle => 0
    case ATakePtr => 1
    case ASetLen(_) => 2
    case ASetSeq(_) => 3
    case AFilling(_, _) => 4
    case APublish(_) => 5
  }

  ghost predicate AudioInv(s: State)
    requires InRange(s)
  {
    var stage := Stage(s.audio);
    && |s.generated| == s.published + (if stage >= 4 then 1 else 0)
    && (forall i | 0 <= i < |s.generated| :: |s.generated[i]| == PAYLOAD_SIZE)
    && s.audioSeq == (s.published + if stage == 5 then 1 else 0) % TWO_16
    && (stage >= 1 ==> Next(s.head, |s.slots|) != s.tail)
    && (stage >= 2 ==> s.audio.w == s.head)
    && (stage >= 3 ==> s.slots[s.head].len == s.dataLen)
    && (stage >= 4 ==> s.slots[s.head].seqNo == s.published % TWO_16)
    && (stage == 4 ==>
          s.audio.i < PAYLOAD_SIZE && Filled(s.slots[s.head].data, s.generated[s.published], s.audio.i))
    && (stage == 5 ==> Holds(s.slots[s.head], s.dataLen, s.published, s.generated[s.published]))
  }

  ghost predicate NetInv(s: State)
    requires InRange(s)
  {
    && (!s.net.NIdle? && !s.net.NStopped? ==> s.head != s.tail)
    && (s.net.NStampTime? || s.net.NStampSeq? || s.net.NSending? ==> s.net.r == s.tail)
    && (s.net.NStampSeq? || s.net.NSending? ==>
          s.stamps != [] && |s.slots[s.tail].data| >= 8
          && s.slots[s.tail].data[4..8] == Be32(s.stamps[|s.stamps| - 1]))
    && (s.net.NSending? ==>
          s.slots[s.tail].data[2..4] == Be16(s.slots[s.tail].seqNo) && s.net.out <= s.slots[s.tail].data)
    && |s.wire| == s.consumed + (if s.net.NRetire? then 1 else 0)
    && Chain(s.stamps)
    && s.tstamp == if s.stamps == [] then 0 else s.stamps[|s.stamps| - 1]
  }

  /** Slot indices are the packet counts, wrapped. */
  ghost predicate Counts(s: State) {
    |s.slots| > 0 && s.head == s.published % |s.slots| && s.tail == s.consumed % |s.slots|
  }

  /** Packet number i as a receiver sees it: its number in network byte order, its payload, and the
      header constants of its slot. */
  ghost predicate Carries(x: seq<u8>, i: nat, dataLen: u16, payload: seq<u8>, init: seq<u8>) {
    && |x| == dataLen >= RTP_HDR_SIZE + PAYLOAD_SIZE
    && 0x100 * (x[2] as int) + x[3] == i % TWO_16
    && Filled(x, payload, PAYLOAD_SIZE)
    && SameHeader(x, init)
  }

  /** What went out as packet number i, and with which stamp. */
  ghost predicate WireOk(x: Sent, i: nat, dataLen: u16, payload: seq<u8>, init: seq<u8>, stamps: seq<u32>) {
    && Carries(x.bytes, i, dataLen, payload, init)
    && Stamped(x, stamps)
  }

  /** It shows the stamp of the attempt that got it out, in network byte order. */
  ghost predicate Stamped(x: Sent, stamps: seq<u32>) {
    && x.attempt < |stamps| && |x.bytes| >= 8
    && 0x100_0000 * (x.bytes[4] as int) + 0x1_0000 * (x.bytes[5] as int) + 0x100 * (x.bytes[6] as int) + x.bytes[7]
         == stamps[x.attempt]
  }

  ghost predicate Wire(s: State, init: seq<Slot>) {
    && |init| > 0 && |s.wire| <= |s.generated|
    && (forall i | 0 <= i < |s.wire| ::
          WireOk(s.wire[i], i, s.dataLen, s.generated[i], init[i % |init|].data, s.stamps))
    && (forall i | 1 <= i < |s.wire| :: s.wire[i - 1].attempt < s.wire[i].attempt)
    && (s.net.NStampSeq? || s.net.NSending? ==> s.wire != [] ==> s.wire[|s.wire| - 1].attempt < |s.stamps| - 1)
  }

  ghost predicate Inv(k: nat, s: State, init: seq<Slot>) {
    Shape(k, s) && Headers(s, init) && Contents(s) && AudioInv(s) && NetInv(s) && Counts(s) && Wire(s, init)
  }

  // ---------- the audio thread keeps it ----------

  /** The audio thread writes only the head slot, never its header: nothing else notices. */
  lemma HeadWriteKeeps(k: nat, s: State, init: seq<Slot>, slot: Slot)
    requires Inv(k, s, init) && |slot.data| == s.dataLen && SameHeader(slot.data, init[s.head].data)
    ensures var s' := s.(slots := s.slots[s.head := slot]);
            Shape(k, s') && Headers(s', init) && Contents(s') && NetInv(s') && Counts(s') && Wire(s', init)
  {
    hide Queued, SameHeader, WireOk, Holds;
    WriteAtHead(s.slots, s.head, s.tail, slot);
  }

  lemma PublishKeeps(k: nat, s: State, init: seq<Slot>)
    requires Inv(k, s, init) && s.audio.APublish?
    ensures Inv(k, AudioStep(s, Action.Publish), init)
  {
    hide Queued, SameHeader, WireOk, Holds, Ring.Advance, Pow2;
    AdvanceIsNext(s.head, s.mask, k);
    Ring.Publish(s.slots, s.head, s.tail);
    Tests(s.slots, s.head, s.tail);
    WrapStep(s.published, |s.slots|);
  }

  lemma {:induction false} WrapStep(n: nat, size: nat)
    requires size > 0
    ensures (n + 1) % size == Next(n % size, size)
  {
    var q, r := n / size, n % size;
    assert n == q * size + r;
    if r + 1 == size {
      assert n + 1 == (q + 1) * size;
      WrapIs(n + 1, size, q + 1, 0);
    } else {
      WrapIs(n + 1, size, q, r + 1);
    }
  }

  lemma {:induction false} WrapIs(x: nat, size: nat, q: nat, r: nat)
    requires r < size && x == q * size + r
    ensures x % size == r
  {
    Multiple(q - x / size, size);
  }

  lemma Multiple(d: int, size: int)
    requires size >= 0
    ensures d >= 1 ==> d * size >= size
    ensures d <= -1 ==> d * size <= -size
  {
  }

  lemma FillByteData(data: seq<u8>, payload: seq<u8>, i: nat, init: seq<u8>)
    requires Filled(data, payload, i) && i < |payload| && RTP_HDR_SIZE + i < |data| && SameHeader(data, init)
    ensures var data' := data[RTP_HDR_SIZE + i := payload[i]];
            Filled(data', payload, i + 1) && SameHeader(data', init)
  {
    var data' := data[RTP_HDR_SIZE + i := payload[i]];
    assert data'[..2] == data[..2] && data'[8..RTP_HDR_SIZE] == data[8..RTP_HDR_SIZE];
    assert data'[RTP_HDR_SIZE..RTP_HDR_SIZE + i + 1] == data[RTP_HDR_SIZE..RTP_HDR_SIZE + i] + [payload[i]];
    assert payload[..i + 1] == payload[..i] + [payload[i]];
  }

  /** Only the audio invariant looks at the audio thread's own variables. */
  lemma AudioOnly(k: nat, s: State, s': State, init: seq<Slot>)
    requires Shape(k, s) && Headers(s, init) && Contents(s) && NetInv(s) && Counts(s) && Wire(s, init)
    requires s' == s.(audio := s'.audio, audioSeq := s'.audioSeq, generated := s'.generated)
    requires s.generated <= s'.generated
    ensures Shape(k, s') && Headers(s', init) && Contents(s') && NetInv(s') && Counts(s') && Wire(s', init)
  {
    hide Queued, WireOk, Holds, SameHeader;
    assert forall i | 0 <= i < |s.generated| :: s'.generated[i] == s.generated[i];
  }

  lemma {:induction false} SetFieldsKeep(k: nat, s: State, init: seq<Slot>, a: Action)
    requires Inv(k, s, init) && (a.SetLen? || a.SetSeq?)
    ensures Inv(k, AudioStep(s, a), init)
  {
    hide Queued, SameHeader, Holds, Pow2, Contents, NetInv, Wire;
    var s' := AudioStep(s, a);
    if s' != s {
      HeadWriteKeeps(k, s, init, s'.slots[s.head]);
      AudioOnly(k, s.(slots := s'.slots), s', init);
    }
  }

  lemma HeadSlot(s: State, init: seq<Slot>)
    requires InRange(s) && Headers(s, init)
    ensures |s.slots| == |init|
    ensures |s.slots[s.head].data| == s.dataLen && SameHeader(s.slots[s.head].data, init[s.head].data)
  {
  }

  lemma {:induction false} FillByteKeeps(k: nat, s: State, init: seq<Slot>)
    requires Inv(k, s, init) && s.audio.AFilling?
    ensures Inv(k, AudioStep(s, FillByte), init)
  {
    hide Queued, Pow2, Contents, NetInv, Wire, Filled, SameHeader, Headers, Counts;
    HeadSlot(s, init);
    var s' := AudioStep(s, FillByte);
    FillByteData(s.slots[s.head].data, s.generated[s.published], s.audio.i, init[s.head].data);
    HeadWriteKeeps(k, s, init, s'.slots[s.head]);
    AudioOnly(k, s.(slots := s'.slots), s', init);
  }

  lemma {:induction false} AudioKeeps(k: nat, s: State, init: seq<Slot>, a: Action)
    requires Inv(k, s, init)
    ensures Inv(k, AudioStep(s, a), init)
  {
    hide Queued, WireOk, SameHeader, Holds, Ring.Advance, Pow2;
    match (s.audio, a) {
      case (APublish(_), Publish) => PublishKeeps(k, s, init);
      case (ASetLen(_), SetLen) => SetFieldsKeep(k, s, init, a);
      case (ASetSeq(_), SetSeq(_)) => SetFieldsKeep(k, s, init, a);
      case (AFilling(_, _), FillByte) => FillByteKeeps(k, s, init);
      case (AIdle, TestFull) => AdvanceIsNext(s.head, s.mask, k);
      case _ =>
    }
  }

  // ---------- the network thread keeps it ----------

  lemma PutBytes(data: seq<u8>, at: nat, bytes: seq<u8>)
    requires at + |bytes| <= |data|
    ensures var data' := Put(data, at, bytes);
            && |data'| == |data| && data'[at..at + |bytes|] == bytes
            && forall i | 0 <= i < |data| && !(at <= i < at + |bytes|) :: data'[i] == data[i]
  {
  }

  /** Stamping touches bytes 2 to 7 only: header constants and payload stay. */
  lemma StampData(data: seq<u8>, at: nat, bytes: seq<u8>, init: seq<u8>, payload: seq<u8>)
    requires 2 <= at && at + |bytes| <= 8 <= |data|
    requires SameHeader(data, init) && Filled(data, payload, PAYLOAD_SIZE)
    ensures var data' := Put(data, at, bytes);
            && SameHeader(data', init) && Filled(data', payload, PAYLOAD_SIZE)
            && |data'| == |data| && data'[at..at + |bytes|] == bytes
            && (at + |bytes| <= 4 ==> data'[4..8] == data[4..8])
  {
    PutBytes(data, at, bytes);
    var data' := Put(data, at, bytes);
    assert data'[..2] == data[..2] && data'[8..RTP_HDR_SIZE] == data[8..RTP_HDR_SIZE];
    assert data'[RTP_HDR_SIZE..RTP_HDR_SIZE + PAYLOAD_SIZE] == data[RTP_HDR_SIZE..RTP_HDR_SIZE + PAYLOAD_SIZE];
  }

  /** What is at the front of a queue that is not empty. */
  lemma FrontHolds(k: nat, s: State, init: seq<Slot>)
    requires Inv(k, s, init) && s.head != s.tail
    ensures s.consumed < s.published <= |s.generated|
    ensures Holds(s.slots[s.tail], s.dataLen, s.consumed, s.generated[s.consumed])
    ensures SameHeader(s.slots[s.tail].data, init[s.consumed % |init|].data)
  {
    hide Queued, Holds, SameHeader, WireOk;
    Consume(s.slots, s.head, s.tail);
    assert Queue(s)[0] == s.slots[s.tail];
  }

  /** The network thread writes only the front slot, and only so that it still holds its packet. */
  lemma TailWriteKeeps(k: nat, s: State, init: seq<Slot>, slot: Slot)
    requires Inv(k, s, init) && s.head != s.tail
    requires Holds(slot, s.dataLen, s.consumed, s.generated[s.consumed]) && SameHeader(slot.data, init[s.tail].data)
    ensures var s' := s.(slots := s.slots[s.tail := slot]);
            Shape(k, s') && Headers(s', init) && Contents(s') && AudioInv(s') && Counts(s') && Wire(s', init)
  {
    hide Queued, SameHeader, WireOk, Filled;
    WriteAtTail(s.slots, s.head, s.tail, slot);
  }

  lemma {:induction false} StampTimeKeeps(k: nat, s: State, init: seq<Slot>, anchor: u32)
    requires Inv(k, s, init) && s.net.NStampTime?
    ensures Inv(k, NetStep(s, StampTime(anchor)), init)
  {
    hide Queued, SameHeader, Filled, WireOk, Wire, Pow2, AudioInv, Contents, Put, Be32, Be16, Chain;
    FrontHolds(k, s, init);
    var s' := NetStep(s, StampTime(anchor));
    StampData(s.slots[s.tail].data, 4, Be32(s'.tstamp), init[s.tail].data, s.generated[s.consumed]);
    TailWriteKeeps(k, s, init, s'.slots[s.tail]);
    MoreStamps(s, s', init);
    ChainGrows(s.stamps, s.tstamp, anchor);
    OwnVariables(s.(slots := s'.slots), s');
  }

  /** Neither the queue's contents nor the audio thread look at the network thread's variables. */
  lemma OwnVariables(s: State, s': State)
    requires InRange(s) && Contents(s) && AudioInv(s)
    requires s' == s.(tstamp := s'.tstamp, stamps := s'.stamps, net := s'.net, wire := s'.wire)
    ensures Contents(s') && AudioInv(s')
  {
  }

  lemma MoreStamps(s: State, s': State, init: seq<Slot>)
    requires Wire(s, init) && !s.net.NStampSeq? && !s.net.NSending?
    requires s'.wire == s.wire && s'.generated == s.generated && s'.dataLen == s.dataLen
    requires |s'.stamps| == |s.stamps| + 1 && s.stamps <= s'.stamps
    ensures Wire(s', init)
  {
    hide Filled, SameHeader, Be32, Be16;
    forall i | 0 <= i < |s'.wire|
      ensures WireOk(s'.wire[i], i, s'.dataLen, s'.generated[i], init[i % |init|].data, s'.stamps)
    {
      assert s'.stamps[s.wire[i].attempt] == s.stamps[s.wire[i].attempt];
    }
  }

  lemma StampSeqKeeps(k: nat, s: State, init: seq<Slot>)
    requires Inv(k, s, init) && s.net.NStampSeq?
    ensures Inv(k, NetStep(s, StampSeq), init)
  {
    hide Queued, SameHeader, Filled, WireOk, Pow2, AudioInv, Contents, Put, Be32;
    FrontHolds(k, s, init);
    var s' := NetStep(s, StampSeq);
    var slot := s.slots[s.tail];
    StampData(slot.data, 2, Be16(slot.seqNo), init[s.tail].data, s.generated[s.consumed]);
    TailWriteKeeps(k, s, init, s'.slots[s.tail]);
    OwnVariables(s.(slots := s'.slots), s');
  }

  lemma SendOkKeeps(k: nat, s: State, init: seq<Slot>)
    requires Inv(k, s, init) && s.net.NSending?
    ensures Inv(k, NetStep(s, SendOk), init)
  {
    hide Queued, SameHeader, Filled, Pow2, AudioInv, Contents, Be32, Be16;
    FrontHolds(k, s, init);
    var s' := NetStep(s, SendOk);
    var slot := s.slots[s.tail];
    if |s.net.out| < slot.len {
      return;
    }
    assert s.net.out == slot.data;
    assert WireOk(Sent(slot.data, |s.stamps| - 1), s.consumed, s.dataLen, s.generated[s.consumed],
                  init[s.consumed % |init|].data, s.stamps) by {
      FilledFits(slot.data, s.generated[s.consumed]);
      HeaderValues(slot.data, slot.seqNo, s.stamps[|s.stamps| - 1]);
    }
    hide WireOk;
    assert Wire(s', init);
    OwnVariables(s, s');
  }

  lemma HeaderValues(data: seq<u8>, n: u16, stamp: u32)
    requires |data| >= 8 && data[2..4] == Be16(n) && data[4..8] == Be32(stamp)
    ensures 0x100 * (data[2] as int) + data[3] == n
    ensures 0x100_0000 * (data[4] as int) + 0x1_0000 * (data[5] as int) + 0x100 * (data[6] as int) + data[7] == stamp
  {
    hide Be16, Be32;
    assert data[2] == data[2..4][0] && data[3] == data[2..4][1];
    assert data[4] == data[4..8][0] && data[5] == data[4..8][1];
    assert data[6] == data[4..8][2] && data[7] == data[4..8][3];
  }

  lemma SendByteKeeps(k: nat, s: State, init: seq<Slot>)
    requires Inv(k, s, init) && s.net.NSending?
    ensures Inv(k, NetStep(s, SendByte), init)
  {
    hide Queued, SameHeader, Filled, WireOk, Pow2, AudioInv, Contents, Be32, Be16, Chain;
    OwnVariables(s, NetStep(s, SendByte));
  }

  lemma FilledFits(data: seq<u8>, payload: seq<u8>)
    requires Filled(data, payload, PAYLOAD_SIZE)
    ensures |data| >= RTP_HDR_SIZE + PAYLOAD_SIZE
  {
  }

  lemma RetireKeeps(k: nat, s: State, init: seq<Slot>)
    requires Inv(k, s, init) && s.net.NRetire?
    ensures Inv(k, NetStep(s, Retire), init)
  {
    hide Queued, SameHeader, Filled, Holds, WireOk, Pow2, Ring.Advance, Be16, Be32, Chain;
    AdvanceIsNext(s.tail, s.mask, k);
    Consume(s.slots, s.head, s.tail);
    WrapStep(s.consumed, |s.slots|);
    Tests(s.slots, s.head, s.tail);
    var s' := NetStep(s, Retire);
    Tests(s.slots, s.head, s'.tail);
    assert Queue(s) == [s.slots[s.tail]] + Queue(s');
    forall i | 0 <= i < |Queue(s')|
      ensures Holds(Queue(s')[i], s'.dataLen, s'.consumed + i, s'.generated[s'.consumed + i])
    {
      assert Queue(s)[i + 1] == Queue(s')[i];
    }
  }

  lemma {:induction false} NetKeeps(k: nat, s: State, init: seq<Slot>, a: Action)
    requires Inv(k, s, init)
    ensures Inv(k, NetStep(s, a), init)
  {
    hide Queued, WireOk, SameHeader, Holds, Filled, Ring.Advance, Pow2;
    match (s.net, a) {
      case (NStampTime(_), StampTime(anchor)) => StampTimeKeeps(k, s, init, anchor);
      case (NStampSeq(_), StampSeq) => StampSeqKeeps(k, s, init);
      case (NSending(_, _), SendByte) => SendByteKeeps(k, s, init);
      case (NSending(_, _), SendOk) => SendOkKeeps(k, s, init);
      case (NRetire, Retire) => RetireKeeps(k, s, init);
      case _ =>
    }
  }

  // ---------- what holds in every interleaving ----------

  /** A ring as initialisation leaves it: a power-of-two number of slots with room for the packet. */
  ghost predicate Ready(k: nat, slots: seq<Slot>, dataLen: u16) {
    && |slots| == Pow2(k) <= TWO_32 && dataLen >= RTP_HDR_SIZE + PAYLOAD_SIZE
    && forall j | 0 <= j < |slots| :: |slots[j].data| == dataLen
  }

  lemma {:induction false} AlwaysInv(k: nat, slots: seq<Slot>, dataLen: u16, run: seq<Action>)
    requires Ready(k, slots, dataLen)
    ensures Inv(k, Run(Start(slots, dataLen), run), slots)
  {
    if run != [] {
      hide Inv, NetStep, AudioStep;
      var n := |run| - 1;
      AlwaysInv(k, slots, dataLen, run[..n]);
      AudioKeeps(k, Run(Start(slots, dataLen), run[..n]), slots, run[n]);
      NetKeeps(k, Run(Start(slots, dataLen), run[..n]), slots, run[n]);
    }
  }

  /** The slots from tail to head hold exactly the packets generated, completed and not yet retired, in
      order and with their numbers; and every packet generated was sent, is queued, or is the one
      being written. A packet just sent stays queued until it is retired. */
  lemma {:induction false} EveryRun(k: nat, slots: seq<Slot>, dataLen: u16, run: seq<Action>)
    requires Ready(k, slots, dataLen)
    ensures var s := Run(Start(slots, dataLen), run);
            && InRange(s) && s.consumed + |Queue(s)| <= |s.generated|
            && (forall i | 0 <= i < |Queue(s)| ::
                  Holds(Queue(s)[i], s.dataLen, s.consumed + i, s.generated[s.consumed + i]))
            && s.consumed == |s.wire| - (if s.net.NRetire? then 1 else 0)
            && |s.generated| == s.consumed + |Queue(s)| + (if Stage(s.audio) >= 4 then 1 else 0)
  {
    hide Run, Queued, Holds, Headers, Counts, Wire;
    AlwaysInv(k, slots, dataLen, run);
  }

  /** Under every interleaving, and every pattern of full-ring skips and sends that would block, the
      i-th packet sent carries sequence number i mod 2^16, the i-th generated payload, and the
      version, payload type and SSRC bytes that its own slot was initialised with. */
  lemma {:induction false} WireIsTheGeneratedStream(k: nat, slots: seq<Slot>, dataLen: u16, run: seq<Action>)
    requires Ready(k, slots, dataLen)
    ensures var s := Run(Start(slots, dataLen), run);
            && |s.wire| <= |s.generated|
            && forall i | 0 <= i < |s.wire| ::
                 Carries(s.wire[i].bytes, i, dataLen, s.generated[i], slots[i % |slots|].data)
  {
    AlwaysInv(k, slots, dataLen, run);
    var s := Run(Start(slots, dataLen), run);
    hide Run, Contents, Headers, AudioInv, NetInv, Counts, Wire, Be16, SameHeader;
    assert s.dataLen == dataLen by {
      DataLenIsFixed(slots, dataLen, run);
    }
    WireFacts(s, slots);
  }

  lemma {:induction false} DataLenIsFixed(slots: seq<Slot>, dataLen: u16, run: seq<Action>)
    requires 0 < |slots| <= TWO_32
    ensures Run(Start(slots, dataLen), run).dataLen == dataLen
  {
    if run != [] {
      DataLenIsFixed(slots, dataLen, run[..|run| - 1]);
    }
  }

  lemma WireFacts(s: State, init: seq<Slot>)
    requires Wire(s, init)
    ensures |init| > 0 && |s.wire| <= |s.generated|
    ensures forall i | 0 <= i < |s.wire| ::
              Carries(s.wire[i].bytes, i, s.dataLen, s.generated[i], init[i % |init|].data)
  {
    hide SameHeader, Be16, Be32;
  }

  /** The timestamps sent are those of a strictly increasing choice of attempts, and every attempt,
      sent or not, moves the counter on; so two packets m attempts apart, with no new anchor
      in between, are 48 m apart modulo 2^16. */
  lemma {:induction false} StampsOnTheWire(k: nat, slots: seq<Slot>, dataLen: u16, run: seq<Action>, i: nat, j: nat)
    requires Ready(k, slots, dataLen)
    requires i < j < |Run(Start(slots, dataLen), run).wire|
    ensures var s := Run(Start(slots, dataLen), run);
            && s.wire[i].attempt < s.wire[j].attempt
            && Stamped(s.wire[i], s.stamps) && Stamped(s.wire[j], s.stamps)
            && (NoZero(s.stamps, s.wire[i].attempt, s.wire[j].attempt) ==>
                  s.stamps[s.wire[j].attempt] == Kth(s.stamps[s.wire[i].attempt], s.wire[j].attempt - s.wire[i].attempt))
  {
    hide Run, Contents, Headers, AudioInv, Counts, Wire, Chain, Stamped, NoZero;
    AlwaysInv(k, slots, dataLen, run);
    StampsOfTwo(Run(Start(slots, dataLen), run), slots, i, j);
  }

  lemma StampsOfTwo(s: State, init: seq<Slot>, i: nat, j: nat)
    requires Wire(s, init) && Chain(s.stamps) && i < j < |s.wire|
    ensures s.wire[i].attempt < s.wire[j].attempt
    ensures Stamped(s.wire[i], s.stamps) && Stamped(s.wire[j], s.stamps)
    ensures NoZero(s.stamps, s.wire[i].attempt, s.wire[j].attempt) ==>
              s.stamps[s.wire[j].attempt] == Kth(s.stamps[s.wire[i].attempt], s.wire[j].attempt - s.wire[i].attempt)
  {
    hide SameHeader, Filled, Be32, Be16;
    AttemptsRise(s, init, i, j);
    var a, b := s.wire[i].attempt, s.wire[j].attempt;
    if NoZero(s.stamps, a, b) {
      StampsAfterAnchor(s.stamps, a, b - a);
    }
  }

  ghost predicate NoZero(stamps: seq<u32>, a: nat, b: nat) {
    b <= |stamps| && forall n | a <= n < b :: stamps[n] != 0
  }

  lemma {:induction false} AttemptsRise(s: State, init: seq<Slot>, i: nat, j: nat)
    requires Wire(s, init) && i < j < |s.wire|
    ensures s.wire[i].attempt < s.wire[j].attempt
    decreases j
  {
    if i < j - 1 {
      AttemptsRise(s, init, i, j - 1);
    }
  }

  /** The threads never touch the same slot: the audio thread's is the head, the network thread's the
      tail, and the network thread has one only while they differ. */
  lemma {:induction false} NeverTheSameSlot(k: nat, slots: seq<Slot>, dataLen: u16, run: seq<Action>)
    requires Ready(k, slots, dataLen)
    ensures var s := Run(Start(slots, dataLen), run);
            (s.net.NStampTime? || s.net.NStampSeq? || s.net.NSending?) && Stage(s.audio) >= 2 ==> s.net.r != s.audio.w
  {
    AlwaysInv(k, slots, dataLen, run);
  }
}
