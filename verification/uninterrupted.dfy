/** The steps of Record, taken without interruption, are the calls of the source: one call of the
    tone generator's writer is one run of the audio thread's steps, one pass through the sender one
    run of the network thread's. */
module Uninterrupted {
  import opened MachineInt
  import opened Ring
  import opened RtpStamp
  import opened Record

  function Fills(n: nat): seq<Action> {
    seq(n, _ => FillByte)
  }

  /** One call of `tonegen_ao_write` with this payload. */
  function WriterCall(payload: seq<u8>): seq<Action> {
    [TestFull, TakeWritePtr, SetLen, SetSeq(payload)] + Fills(PAYLOAD_SIZE) + [Action.Publish]
  }

  lemma {:induction false} RunAppend(s: State, a: seq<Action>, b: seq<Action>)
    ensures Run(s, a + b) == Run(Run(s, a), b)
    decreases b
  {
    hide Step;
    if b == [] {
      assert a + b == a;
    } else {
      assert (a + b)[..|a + b| - 1] == a + b[..|b| - 1];
      RunAppend(s, a, b[..|b| - 1]);
    }
  }

  lemma RunFour(s: State, a: Action, b: Action, c: Action, d: Action)
    ensures Run(s, [a, b, c, d]) == Step(Step(Step(Step(s, a), b), c), d)
  {
    hide Step;
    assert [a, b, c, d][..3] == [a, b, c] && [a, b, c][..2] == [a, b] && [a, b][..1] == [a] && [a][..0] == [];
    assert Run(s, []) == s;
    assert Run(s, [a]) == Step(s, a);
    assert Run(s, [a, b]) == Step(Run(s, [a]), b);
    assert Run(s, [a, b, c]) == Step(Run(s, [a, b]), c);
  }

  lemma RunOne(s: State, run: seq<Action>, a: Action)
    ensures Run(s, run + [a]) == Step(Run(s, run), a)
  {
    hide Step;
    assert (run + [a])[..|run|] == run;
  }

  /** The head slot with the first n payload bytes in place. */
  function Partly(data: seq<u8>, payload: seq<u8>, n: nat): seq<u8>
    requires n <= |payload| && RTP_HDR_SIZE + n <= |data|
  {
    data[..RTP_HDR_SIZE] + payload[..n] + data[RTP_HDR_SIZE + n..]
  }

  lemma PartlyStep(data: seq<u8>, payload: seq<u8>, n: nat)
    requires n < |payload| && RTP_HDR_SIZE + n < |data|
    ensures Partly(data, payload, n)[RTP_HDR_SIZE + n := payload[n]] == Partly(data, payload, n + 1)
  {
  }

  /** While filling: everything but the head slot and the fill index is as it was. */
  function Filling(s: State, payload: seq<u8>, n: nat): State
    requires InRange(s) && n < |payload| && RTP_HDR_SIZE + n <= |s.slots[s.head].data|
  {
    s.(slots := s.slots[s.head := s.slots[s.head].(len := s.dataLen, seqNo := s.audioSeq,
                                                   data := Partly(s.slots[s.head].data, payload, n))],
       audio := AFilling(s.head, n), generated := s.generated + [payload])
  }

  ghost predicate CanWrite(s: State, payload: seq<u8>) {
    && InRange(s) && s.audio.AIdle? && |payload| == PAYLOAD_SIZE
    && RTP_HDR_SIZE + PAYLOAD_SIZE <= |s.slots[s.head].data|
  }

  lemma FillStep(s: State, payload: seq<u8>, n: nat)
    requires CanWrite(s, payload) && n + 1 < PAYLOAD_SIZE
    ensures Step(Filling(s, payload, n), FillByte) == Filling(s, payload, n + 1)
  {
    PartlyStep(s.slots[s.head].data, payload, n);
    var f := Filling(s, payload, n);
    assert f.slots[s.head].data == Partly(s.slots[s.head].data, payload, n);
    assert f.generated[|f.generated| - 1] == payload;
  }

  lemma {:induction false} FillRun(s: State, payload: seq<u8>, n: nat)
    requires CanWrite(s, payload) && n < PAYLOAD_SIZE
    ensures Run(Filling(s, payload, 0), Fills(n)) == Filling(s, payload, n)
  {
    if n > 0 {
      hide Step, Filling;
      FillRun(s, payload, n - 1);
      assert Fills(n) == Fills(n - 1) + [FillByte];
      RunOne(Filling(s, payload, 0), Fills(n - 1), FillByte);
      FillStep(s, payload, n - 1);
    }
  }

  lemma WriterOpens(s: State, payload: seq<u8>)
    requires CanWrite(s, payload) && Ring.Advance(s.head, s.mask) != s.tail
    ensures Step(Step(Step(Step(s, TestFull), TakeWritePtr), SetLen), SetSeq(payload)) == Filling(s, payload, 0)
  {
    hide Ring.Advance;
    var data := s.slots[s.head].data;
    assert Partly(data, payload, 0) == data;
    var s2 := s.(audio := ASetLen(s.head));
    assert Step(Step(s, TestFull), TakeWritePtr) == s2;
    var s3 := s.(slots := s.slots[s.head := s.slots[s.head].(len := s.dataLen)], audio := ASetSeq(s.head));
    assert Step(s2, SetLen) == s3;
  }

  /** What one call leaves behind. */
  function Written(s: State, payload: seq<u8>): State
    requires CanWrite(s, payload)
  {
    var slot := Slot(s.dataLen, s.audioSeq, Partly(s.slots[s.head].data, payload, PAYLOAD_SIZE));
    s.(slots := s.slots[s.head := slot], head := Ring.Advance(s.head, s.mask),
       audioSeq := (s.audioSeq + 1) % TWO_16, generated := s.generated + [payload], published := s.published + 1)
  }

  lemma WriterCloses(s: State, payload: seq<u8>)
    requires CanWrite(s, payload)
    ensures Step(Step(Filling(s, payload, PAYLOAD_SIZE - 1), FillByte), Action.Publish) == Written(s, payload)
  {
    hide Ring.Advance;
    PartlyStep(s.slots[s.head].data, payload, PAYLOAD_SIZE - 1);
    var f := Filling(s, payload, PAYLOAD_SIZE - 1);
    assert f.generated[|f.generated| - 1] == payload;
    var g := Step(f, FillByte);
    assert g.audio == APublish(s.head);
    assert g.slots == Written(s, payload).slots;
  }

  /** The audio thread's steps in a row do what one call does: nothing on a full ring, else one more
      packet with the running number, header kept, payload in place. */
  lemma {:induction false} WriterCallIs(s: State, payload: seq<u8>)
    requires CanWrite(s, payload)
    ensures Run(s, WriterCall(payload))
         == if Ring.Advance(s.head, s.mask) == s.tail then s else Written(s, payload)
  {
    hide Step, Filling, Written, Ring.Advance;
    var opening := [TestFull, TakeWritePtr, SetLen, SetSeq(payload)];
    RunFour(s, TestFull, TakeWritePtr, SetLen, SetSeq(payload));
    RunAppend(s, opening, Fills(PAYLOAD_SIZE));
    RunOne(s, opening + Fills(PAYLOAD_SIZE), Action.Publish);
    if Ring.Advance(s.head, s.mask) == s.tail {
      FullCall(s, payload);
      IdleFills(s, PAYLOAD_SIZE);
    } else {
      WriterOpens(s, payload);
      FillRun(s, payload, PAYLOAD_SIZE - 1);
      assert Fills(PAYLOAD_SIZE) == Fills(PAYLOAD_SIZE - 1) + [FillByte];
      RunOne(Filling(s, payload, 0), Fills(PAYLOAD_SIZE - 1), FillByte);
      WriterCloses(s, payload);
    }
  }

  lemma FullCall(s: State, payload: seq<u8>)
    requires CanWrite(s, payload) && Ring.Advance(s.head, s.mask) == s.tail
    ensures Step(Step(Step(Step(s, TestFull), TakeWritePtr), SetLen), SetSeq(payload)) == s
    ensures Step(s, Action.Publish) == s
  {
    hide Ring.Advance;
  }

  lemma {:induction false} IdleFills(s: State, n: nat)
    requires InRange(s) && s.audio.AIdle?
    ensures Run(s, Fills(n)) == s
  {
    if n > 0 {
      IdleFills(s, n - 1);
      assert Fills(n) == Fills(n - 1) + [FillByte];
      RunOne(s, Fills(n - 1), FillByte);
    }
  }

  // ---------- the sender ----------

  function SendBytes(n: nat): seq<Action> {
    seq(n, _ => SendByte)
  }

  /** One pass through the sender: a packet of `len` bytes goes out, or the send would block. */
  function SenderPass(anchor: u32, len: nat, sent: bool): seq<Action> {
    [TestEmpty, TakeReadPtr, StampTime(anchor), StampSeq] + SendBytes(len)
    + (if sent then [SendOk, Retire] else [SendAgain])
  }

  ghost predicate CanSend(s: State) {
    InRange(s) && s.net.NIdle? && s.head != s.tail && 8 <= s.slots[s.tail].len == |s.slots[s.tail].data|
  }

  /** Front slot and counter as stamping leaves them. */
  function Stamping(s: State, anchor: u32): State
    requires InRange(s)
  {
    var tstamp := NextStamp(s.tstamp, anchor);
    var slot := s.slots[s.tail];
    s.(tstamp := tstamp, stamps := s.stamps + [tstamp], net := NSending(s.tail, []),
       slots := s.slots[s.tail := slot.(data := Put(Put(slot.data, 4, Be32(tstamp)), 2, Be16(slot.seqNo)))])
  }

  lemma SenderOpens(s: State, anchor: u32)
    requires CanSend(s)
    ensures Step(Step(Step(Step(s, TestEmpty), TakeReadPtr), StampTime(anchor)), StampSeq) == Stamping(s, anchor)
  {
    hide Put, Be16, Be32, NextStamp;
    var s2 := s.(net := NStampTime(s.tail));
    assert Step(Step(s, TestEmpty), TakeReadPtr) == s2;
  }

  lemma {:induction false} SendRun(s: State, n: nat)
    requires InRange(s) && s.net.NSending? && s.net.r < |s.slots| && s.net.out == []
    requires n <= s.slots[s.net.r].len <= |s.slots[s.net.r].data|
    ensures Run(s, SendBytes(n)) == s.(net := NSending(s.net.r, s.slots[s.net.r].data[..n]))
  {
    hide Step;
    if n == 0 {
      assert SendBytes(0) == [];
    } else {
      hide Run;
      SendRun(s, n - 1);
      assert SendBytes(n) == SendBytes(n - 1) + [SendByte];
      RunOne(s, SendBytes(n - 1), SendByte);
      SendStep(s, s.net.r, n - 1);
    }
  }

  lemma SendStep(s: State, r: nat, n: nat)
    requires InRange(s) && r < |s.slots| && n < s.slots[r].len <= |s.slots[r].data|
    ensures Step(s.(net := NSending(r, s.slots[r].data[..n])), SendByte)
         == s.(net := NSending(r, s.slots[r].data[..n + 1]))
  {
    var data := s.slots[r].data;
    assert data[..n + 1] == data[..n] + [data[n]];
  }

  /** The bytes of a stamped slot: number and stamp in network byte order, all others as before. */
  ghost predicate StampedFrom(data: seq<u8>, was: seq<u8>, n: u16, stamp: u32) {
    && |data| == |was| >= 8
    && 0x100 * (data[2] as int) + data[3] == n
    && 0x100_0000 * (data[4] as int) + 0x1_0000 * (data[5] as int) + 0x100 * (data[6] as int) + data[7] == stamp
    && forall i | 0 <= i < |was| && !(2 <= i < 8) :: data[i] == was[i]
  }

  lemma StampedData(was: seq<u8>, n: u16, stamp: u32)
    requires |was| >= 8
    ensures StampedFrom(Put(Put(was, 4, Be32(stamp)), 2, Be16(n)), was, n, stamp)
  {
    hide Put, Be16, Be32;
    var mid := Put(was, 4, Be32(stamp));
    PutBytes(was, 4, Be32(stamp));
    PutBytes(mid, 2, Be16(n));
    var data := Put(mid, 2, Be16(n));
    assert data[4..8] == mid[4..8];
    HeaderValues(data, n, stamp);
  }

  /** A pass through the sender moves the counter on and stamps the front slot in place, whether the
      packet goes out or not. If it does, it is on the wire as stamped and its slot is retired; if the
      send would block, head, tail and wire are as before. */
  lemma {:induction false} SenderPassIs(s: State, anchor: u32, sent: bool)
    requires CanSend(s)
    ensures var s' := Run(s, SenderPass(anchor, s.slots[s.tail].len, sent));
            var stamp := if s.tstamp != 0 then (s.tstamp + 48) % TWO_16 else anchor;
            && s'.net.NIdle? && s'.audio == s.audio && s'.head == s.head && s'.generated == s.generated
            && s'.tstamp == stamp && s'.stamps == s.stamps + [stamp]
            && |s'.slots| == |s.slots| && (forall j | 0 <= j < |s.slots| && j != s.tail :: s'.slots[j] == s.slots[j])
            && s'.slots[s.tail].len == s.slots[s.tail].len && s'.slots[s.tail].seqNo == s.slots[s.tail].seqNo
            && StampedFrom(s'.slots[s.tail].data, s.slots[s.tail].data, s.slots[s.tail].seqNo, stamp)
            && (sent ==> s'.tail == Ring.Advance(s.tail, s.mask) && s'.consumed == s.consumed + 1
                         && s'.wire == s.wire + [Sent(s'.slots[s.tail].data, |s.stamps|)])
            && (!sent ==> s'.tail == s.tail && s'.consumed == s.consumed && s'.wire == s.wire)
  {
    hide Step, Put, Be16, Be32, Ring.Advance, StampedFrom;
    var opening, bytes := [TestEmpty, TakeReadPtr, StampTime(anchor), StampSeq], SendBytes(s.slots[s.tail].len);
    var o := Stamping(s, anchor);
    RunFour(s, TestEmpty, TakeReadPtr, StampTime(anchor), StampSeq);
    SenderOpens(s, anchor);
    RunAppend(s, opening, bytes);
    StampedData(s.slots[s.tail].data, s.slots[s.tail].seqNo, o.tstamp);
    StampedLength(o.slots[s.tail].data, s.slots[s.tail].data, s.slots[s.tail].seqNo, o.tstamp);
    SendRun(o, s.slots[s.tail].len);
    assert o.slots[s.tail].data[..s.slots[s.tail].len] == o.slots[s.tail].data;
    SenderCloses(s, opening + bytes, o, sent);
  }

  lemma StampedLength(data: seq<u8>, was: seq<u8>, n: u16, stamp: u32)
    requires StampedFrom(data, was, n, stamp)
    ensures |data| == |was|
  {
  }

  lemma SenderCloses(s: State, run: seq<Action>, o: State, sent: bool)
    requires InRange(o) && o.stamps != [] && |o.slots[o.tail].data| == o.slots[o.tail].len
    requires Run(s, run) == o.(net := NSending(o.tail, o.slots[o.tail].data))
    ensures Run(s, run + if sent then [SendOk, Retire] else [SendAgain])
         == if sent then AfterSend(o).(net := NIdle, tail := Ring.Advance(o.tail, o.mask), consumed := o.consumed + 1)
            else o.(net := NIdle)
  {
    hide Run, Step, AfterSend;
    LastSteps(o);
    if sent {
      RunOne(s, run, SendOk);
      RunOne(s, run + [SendOk], Retire);
      assert run + [SendOk] + [Retire] == run + [SendOk, Retire];
    } else {
      RunOne(s, run, SendAgain);
    }
  }

  function AfterSend(o: State): State
    requires InRange(o) && o.stamps != []
  {
    o.(net := NRetire, wire := o.wire + [Sent(o.slots[o.tail].data, |o.stamps| - 1)])
  }

  lemma LastSteps(o: State)
    requires InRange(o) && o.stamps != [] && |o.slots[o.tail].data| == o.slots[o.tail].len
    ensures var sending := o.(net := NSending(o.tail, o.slots[o.tail].data));
            && Step(sending, SendAgain) == o.(net := NIdle) && Step(sending, SendOk) == AfterSend(o)
            && Step(AfterSend(o), Retire)
                 == AfterSend(o).(net := NIdle, tail := Ring.Advance(o.tail, o.mask), consumed := o.consumed + 1)
  {
    hide Ring.Advance;
  }
}
