/** The ring as an object: initialisation by lib/aoip.c, one uninterrupted call of the tone
    generator's writer and one of rtpdump's reader. */
module AudioQueue {
  import opened MachineInt
  import opened Ring
  import opened Record
  import opened Uninterrupted

  const SLOT_NUM: int := 512
  const PAYLOAD_TYPE: u8 := 98
  const FRAMES: int := 48

  /** What `build_rtp_hdr` lays down: version 2, the payload type, the SSRC in network order. */
  function RtpHeader(ptype: u8, ssrc: u32): (h: seq<u8>)
    ensures |h| == RTP_HDR_SIZE
  {
    [0x80, ptype, 0, 0, 0, 0, 0, 0] + Be32(ssrc)
  }

  function Zeros(n: nat): seq<u8> {
    seq(n, _ => 0)
  }

  function FreshSlot(dataLen: u16, ssrc: u32): Slot
    requires dataLen >= RTP_HDR_SIZE
  {
    Slot(0, 0, RtpHeader(PAYLOAD_TYPE, ssrc) + Zeros(dataLen - RTP_HDR_SIZE))
  }

  /** A 24-bit sample, most significant byte first. */
  datatype Sample24 = Sample24(hi: u8, mid: u8, lo: u8)

  /** Each sample goes out twice, to the left and the right channel. */
  function Stereo(tone: seq<Sample24>): (bytes: seq<u8>)
    ensures |bytes| == 6 * |tone|
  {
    if tone == [] then []
    else
      var x := tone[|tone| - 1];
      Stereo(tone[..|tone| - 1]) + [x.hi, x.mid, x.lo, x.hi, x.mid, x.lo]
  }

  /** Sample i of the tone, most significant byte first, in the left channel (0) and the right (1). */
  lemma {:induction false} StereoAt(tone: seq<Sample24>, i: nat, channel: nat)
    requires i < |tone| && channel < 2
    ensures var at := 6 * i + 3 * channel;
            Stereo(tone)[at] == tone[i].hi && Stereo(tone)[at + 1] == tone[i].mid && Stereo(tone)[at + 2] == tone[i].lo
  {
    var n := |tone| - 1;
    if i < n {
      StereoAt(tone[..n], i, channel);
    }
  }

  class ToneContext {
    var seqNo: u16

    constructor ()
      ensures seqNo == 0
    {
      seqNo := 0;
    }
  }

  class Queue {
    var head: u32
    var tail: u32
    const mask: u32
    const dataLen: u16
    const slots: array<Slot>
    ghost const k: nat

    ghost predicate Valid()
      reads this, slots
    {
      && mask + 1 == slots.Length == Pow2(k) && head <= mask && tail <= mask
      && forall j | 0 <= j < slots.Length :: |slots[j].data| == dataLen
    }

    ghost function Contents(): seq<Slot>
      requires Valid()
      reads this, slots
    {
      Queued(slots[..], head, tail)
    }

    /** The SSRC of each slot is read from the wall clock as the slot is set up. */
    constructor (dataLen: u16, ssrcs: seq<u32>)
      requires dataLen >= RTP_HDR_SIZE && |ssrcs| == SLOT_NUM
      ensures Valid() && fresh(slots) && Contents() == [] && head == 0 && tail == 0
      ensures this.dataLen == dataLen && slots.Length == SLOT_NUM
      ensures forall j | 0 <= j < SLOT_NUM :: slots[j] == FreshSlot(dataLen, ssrcs[j])
      ensures forall j | 0 <= j < SLOT_NUM :: IsFresh(slots[j], dataLen, ssrcs[j])
    {
      head, tail, mask := 0, 0, SLOT_NUM - 1;
      this.dataLen := dataLen;
      k := 9;
      slots := new Slot[SLOT_NUM](_ => Slot(0, 0, []));
      new;
      for i := 0 to SLOT_NUM
        invariant forall j | 0 <= j < i :: slots[j] == FreshSlot(dataLen, ssrcs[j])
        modifies slots
      {
        slots[i] := Slot(0, 0, Zeros(dataLen));
        slots[i] := slots[i].(data := Put(slots[i].data, 0, RtpHeader(PAYLOAD_TYPE, ssrcs[i])));
        assert slots[i].data == FreshSlot(dataLen, ssrcs[i]).data;
      }
      forall j | 0 <= j < SLOT_NUM ensures IsFresh(slots[j], dataLen, ssrcs[j]) {
        FreshIs(dataLen, ssrcs[j]);
      }
      assert Pow2(9) == 512 by {
        assert Pow2(3) == 8 && Pow2(6) == 8 * Pow2(3) && Pow2(9) == 8 * Pow2(6);
      }
    }

    predicate Empty()
      reads this
    {
      head == tail
    }

    predicate Full()
      reads this
    {
      Advance(head, mask) == tail
    }

    /** The two tests mean what they say of the queue: one slot stays free. */
    lemma TestsMean()
      requires Valid()
      ensures Empty() <==> Contents() == []
      ensures Full() <==> |Contents()| == slots.Length - 1
    {
      Tests(slots[..], head, tail);
      AdvanceIsNext(head, mask, k);
    }

    method WriteNext()
      requires Valid() && !Full()
      modifies this`head
      ensures Valid() && Contents() == old(Contents()) + [slots[old(head)]] && head == Advance(old(head), mask)
    {
      AdvanceIsNext(head, mask, k);
      Ring.Publish(slots[..], head, tail);
      head := Advance(head, mask);
    }

    method ReadNext()
      requires Valid() && !Empty()
      modifies this`tail
      ensures Valid() && old(Contents()) == [slots[old(tail)]] + Contents()
    {
      AdvanceIsNext(tail, mask, k);
      Consume(slots[..], head, tail);
      tail := Advance(tail, mask);
    }

    /** What Record's steps see of the ring, with both threads idle and nothing recorded. */
    ghost function Seen(seqNo: u16): State
      reads this, slots
    {
      State(head, tail, mask, slots[..], dataLen, seqNo, AIdle, 0, NIdle, [], 0, 0, [], [])
    }

    /** One call of the tone generator: nothing if the ring is full, else one more packet with the
        running number and the tone in both channels; the slot's RTP header stays as it was. */
    method TonegenWrite(audio: ToneContext, tone: seq<Sample24>)
      requires Valid() && dataLen >= RTP_HDR_SIZE + PAYLOAD_SIZE && |tone| == FRAMES
      modifies this`head, slots, audio
      ensures Valid()
      ensures old(Full()) ==> head == old(head) && slots[..] == old(slots[..]) && audio.seqNo == old(audio.seqNo)
      ensures !old(Full()) ==>
                && audio.seqNo == (old(audio.seqNo) + 1) % TWO_16
                && |Contents()| == |old(Contents())| + 1 && old(Contents()) == Contents()[..|old(Contents())|]
                && var slot := Contents()[|old(Contents())|];
                   var was := old(slots[head].data);
                   && slot.len == dataLen && slot.seqNo == old(audio.seqNo)
                   && slot.data == was[..RTP_HDR_SIZE] + Stereo(tone) + was[RTP_HDR_SIZE + PAYLOAD_SIZE..]
      ensures var s := Run(old(Seen(audio.seqNo)), WriterCall(Stereo(tone)));
              slots[..] == s.slots && head == s.head && audio.seqNo == s.audioSeq
    {
      hide Queued, Run, WriterCall, Stereo, Advance;
      WriterCallIs(Seen(audio.seqNo), Stereo(tone));
      if !Full() {
        ghost var before := slots[..];
        ghost var was := slots[head].data;
        slots[head] := slots[head].(len := dataLen);
        slots[head] := slots[head].(seqNo := audio.seqNo);
        FillTone(tone);
        assert slots[..] == before[head := slots[head]];
        WriteAtHead(before, head, tail, slots[head]);
        assert slots[head].data == Partly(was, Stereo(tone), PAYLOAD_SIZE);
        audio.seqNo := (audio.seqNo + 1) % TWO_16;
        WriteNext();
      }
    }

    /** The fill loop: six bytes of the head slot per sample. */
    method FillTone(tone: seq<Sample24>)
      requires Valid() && RTP_HDR_SIZE + PAYLOAD_SIZE <= dataLen && |tone| == FRAMES
      modifies slots
      ensures slots[..] == old(slots[..])[head := slots[head]]
      ensures slots[head].len == old(slots[head]).len && slots[head].seqNo == old(slots[head]).seqNo
      ensures var was := old(slots[head].data);
              slots[head].data == was[..RTP_HDR_SIZE] + Stereo(tone) + was[RTP_HDR_SIZE + PAYLOAD_SIZE..]
    {
      hide Put, Stereo;
      var w, i := head, 0;
      ghost var was := slots[w].data;
      assert Stereo(tone[..0]) == [];
      assert was == was[..RTP_HDR_SIZE] + Stereo(tone[..0]) + was[RTP_HDR_SIZE..];
      while i < PAYLOAD_SIZE
        invariant 0 <= i <= PAYLOAD_SIZE && i % 6 == 0
        invariant slots[w].len == old(slots[w]).len && slots[w].seqNo == old(slots[w]).seqNo
        invariant slots[w].data == was[..RTP_HDR_SIZE] + Stereo(tone[..i / 6]) + was[RTP_HDR_SIZE + i..]
        invariant slots[..] == old(slots[..])[w := slots[w]]
      {
        var x := tone[i / 6];
        ghost var data := slots[w].data;
        slots[w] := slots[w].(data := Put(slots[w].data, RTP_HDR_SIZE + i, [x.hi, x.mid, x.lo, x.hi, x.mid, x.lo]));
        FrameWritten(was, data, slots[w].data, tone, i / 6);
        i := i + 6;
      }
      assert tone[..FRAMES] == tone;
    }

    static lemma FrameWritten(was: seq<u8>, data: seq<u8>, data': seq<u8>, tone: seq<Sample24>, n: nat)
      requires n < |tone| && RTP_HDR_SIZE + 6 * |tone| <= |was|
      requires data == was[..RTP_HDR_SIZE] + Stereo(tone[..n]) + was[RTP_HDR_SIZE + 6 * n..]
      requires var x := tone[n];
               data' == Put(data, RTP_HDR_SIZE + 6 * n, [x.hi, x.mid, x.lo, x.hi, x.mid, x.lo])
      ensures data' == was[..RTP_HDR_SIZE] + Stereo(tone[..n + 1]) + was[RTP_HDR_SIZE + 6 * (n + 1)..]
    {
      assert tone[..n + 1][..n] == tone[..n];
    }
  }

  /** The 16-bit index of rtpdump's loop after n rounds. */
  function IndexAfter(n: nat): u16 {
    (RTP_HDR_SIZE + 6 * n) % TWO_16
  }

  lemma IndexStep(n: nat)
    ensures IndexAfter(0) == RTP_HDR_SIZE && IndexAfter(n + 1) == (IndexAfter(n) + 6) % TWO_16
  {
    var x := RTP_HDR_SIZE + 6 * n;
    var q, r := x / TWO_16, x % TWO_16;
    assert RTP_HDR_SIZE + 6 * (n + 1) == x + 6 == q * TWO_16 + r + 6;
    if r + 6 < TWO_16 {
      WrapIs(x + 6, TWO_16, q, r + 6);
    } else {
      WrapIs(x + 6, TWO_16, q + 1, r + 6 - TWO_16);
    }
  }

  /** The loop ends for every length but the largest, which its even index never reaches. */
  lemma LoopEndsIff(len: u16)
    ensures (exists n: nat :: IndexAfter(n) >= len) <==> len != TWO_16 - 1
  {
    assert IndexAfter(21843) == TWO_16 - 2;
    forall n: nat ensures IndexAfter(n) <= TWO_16 - 2 {
      var q := (RTP_HDR_SIZE + 6 * n) / TWO_16;
      assert IndexAfter(n) == RTP_HDR_SIZE + 6 * n - TWO_16 * q;
    }
  }

  /** How many rounds it takes: one per six bytes after the header, except that for 65533 and 65534 the
      index passes zero once before it gets there. */
  function FramesIn(len: u16): nat {
    if len <= RTP_HDR_SIZE then 0 else if len <= TWO_16 - 4 then (len - RTP_HDR_SIZE + 5) / 6 else 21843
  }

  lemma FramesInIsLeast(len: u16)
    requires len != TWO_16 - 1
    ensures IndexAfter(FramesIn(len)) >= len && forall m: nat | m < FramesIn(len) :: IndexAfter(m) < len
  {
    forall m: nat | m < FramesIn(len) ensures IndexAfter(m) < len {
      assert IndexAfter(m) == RTP_HDR_SIZE + 6 * m - if m <= 10_920 then 0 else TWO_16;
    }
  }

  lemma WrapAdd(x: nat)
    ensures (x % TWO_32 + 1) % TWO_32 == (x + 1) % TWO_32
  {
  }

  /** rtpdump's loop over a packet, for every length on which it ends. */
  method CountFrames(len: u16, received: u32) returns (received': u32)
    requires len != TWO_16 - 1
    ensures received' == (received + FramesIn(len)) % TWO_32
  {
    hide FramesIn, IndexAfter;
    FramesInIsLeast(len);
    received' := received;
    var i := RTP_HDR_SIZE;
    ghost var n: nat := 0;
    IndexStep(0);
    while i < len
      invariant i == IndexAfter(n) && n <= FramesIn(len)
      invariant received' == (received + n) % TWO_32
      decreases FramesIn(len) - n
    {
      IndexStep(n);
      WrapAdd(received + n);
      received' := (received' + 1) % TWO_32;
      i := (i + 6) % TWO_16;
      n := n + 1;
    }
  }

  /** One call of rtpdump's reader: the read pointer is taken before the empty test, and if that
      passes the front packet is counted and removed. */
  method RtpdumpRead(q: Queue, received: u32) returns (received': u32, taken: seq<Slot>)
    requires q.Valid()
    requires !q.Empty() ==> q.slots[q.tail].len != TWO_16 - 1
    modifies q`tail
    ensures q.Valid() && old(q.Contents()) == taken + q.Contents()
    ensures |taken| == if old(q.Contents()) == [] then 0 else 1
    ensures received' == if taken == [] then received else (received + FramesIn(taken[0].len)) % TWO_32
  {
    hide Queued, Advance;
    q.TestsMean();
    var slot := q.slots[q.tail];
    received', taken := received, [];
    if !q.Empty() {
      received' := CountFrames(slot.len, received);
      q.ReadNext();
      taken := [slot];
    }
  }

  /** A ring that `Queue` has set up is one that Record's runs may start from, so every packet on the
      wire has version 2, payload type 98 and the SSRC of its own slot. */
  lemma InitialisedStream(q: Queue, dataLen: u16, ssrcs: seq<u32>, run: seq<Action>)
    requires |ssrcs| == SLOT_NUM && dataLen >= RTP_HDR_SIZE + PAYLOAD_SIZE
    requires q.Valid() && q.slots.Length == SLOT_NUM
    requires forall j | 0 <= j < SLOT_NUM :: q.slots[j] == FreshSlot(dataLen, ssrcs[j])
    ensures var s := Run(Start(q.slots[..], dataLen), run);
            && |s.wire| <= |s.generated|
            && forall i | 0 <= i < |s.wire| :: IsOurRtp(s.wire[i].bytes, ssrcs[i % SLOT_NUM])
  {
    hide Run;
    var slots := q.slots[..];
    WireIsTheGeneratedStream(q.k, slots, dataLen, run);
    var s := Run(Start(slots, dataLen), run);
    forall i | 0 <= i < |s.wire| ensures IsOurRtp(s.wire[i].bytes, ssrcs[i % SLOT_NUM]) {
      assert Carries(s.wire[i].bytes, i, dataLen, s.generated[i], slots[i % SLOT_NUM].data);
      HeaderBytes(s.wire[i].bytes, dataLen, ssrcs[i % SLOT_NUM]);
    }
  }

  /** A slot with an RTP header and otherwise zero. */
  ghost predicate IsFresh(slot: Slot, dataLen: u16, ssrc: u32) {
    && slot.len == 0 && slot.seqNo == 0 && |slot.data| == dataLen && IsOurRtp(slot.data, ssrc)
    && (forall i | 2 <= i < 8 :: slot.data[i] == 0) && (forall i | RTP_HDR_SIZE <= i < dataLen :: slot.data[i] == 0)
  }

  lemma FreshIs(dataLen: u16, ssrc: u32)
    requires dataLen >= RTP_HDR_SIZE
    ensures IsFresh(FreshSlot(dataLen, ssrc), dataLen, ssrc)
  {
    var data := FreshSlot(dataLen, ssrc).data;
    assert SameHeader(data, data);
    HeaderBytes(data, dataLen, ssrc);
  }

  /** Version 2, payload type 98, and the SSRC in network byte order. */
  ghost predicate IsOurRtp(x: seq<u8>, ssrc: u32) {
    && |x| >= RTP_HDR_SIZE && x[0] == 0x80 && x[1] == 98
    && 0x100_0000 * (x[8] as int) + 0x1_0000 * (x[9] as int) + 0x100 * (x[10] as int) + x[11] == ssrc
  }

  lemma HeaderBytes(x: seq<u8>, dataLen: u16, ssrc: u32)
    requires dataLen >= RTP_HDR_SIZE && SameHeader(x, FreshSlot(dataLen, ssrc).data)
    ensures IsOurRtp(x, ssrc)
  {
    var init := FreshSlot(dataLen, ssrc).data;
    assert x[..2][0] == init[..2][0] && x[..2][1] == init[..2][1];
    assert init[8..RTP_HDR_SIZE] == Be32(ssrc);
    hide Be32;
    assert x[8] == Be32(ssrc)[0] && x[9] == Be32(ssrc)[1] && x[10] == Be32(ssrc)[2] && x[11] == Be32(ssrc)[3] by {
      assert x[8..RTP_HDR_SIZE] == Be32(ssrc);
      assert x[8] == x[8..RTP_HDR_SIZE][0] && x[9] == x[8..RTP_HDR_SIZE][1];
      assert x[10] == x[8..RTP_HDR_SIZE][2] && x[11] == x[8..RTP_HDR_SIZE][3];
    }
  }
}
