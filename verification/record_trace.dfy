/** Record read off the run itself: which payloads were handed over, and which anchors were taken. */
module RecordTrace {
  import opened MachineInt
  import opened Ring
  import opened RtpStamp
  import opened Record
  import opened Uninterrupted

  ghost predicate Rising(at: seq<nat>, n: nat) {
    (forall i | 0 <= i < |at| :: at[i] < n) && forall i, j | 0 <= i < j < |at| :: at[i] < at[j]
  }

  /** The payloads are those of the `SetSeq` actions at `at`. */
  ghost predicate PayloadsOf(run: seq<Action>, generated: seq<seq<u8>>, at: seq<nat>) {
    && |at| == |generated| && Rising(at, |run|)
    && forall i | 0 <= i < |at| :: run[at[i]].SetSeq? && generated[i] == run[at[i]].payload
  }

  /** The stamps are those of the `StampTime` actions at `at`: the action's own anchor for the first
      attempt and after a zero, else 48 more than the last, modulo 2^16. */
  ghost predicate StampsOf(run: seq<Action>, stamps: seq<u32>, at: seq<nat>) {
    && |at| == |stamps| && Rising(at, |run|)
    && (forall j | 0 <= j < |at| :: run[at[j]].StampTime?)
    && forall j | 0 <= j < |at| ::
         stamps[j] == if j == 0 || stamps[j - 1] == 0 then run[at[j]].anchor else (stamps[j - 1] + 48) % TWO_16
  }

  function LastStamp(stamps: seq<u32>): u32 {
    if stamps == [] then 0 else stamps[|stamps| - 1]
  }

  lemma PayloadsLater(run: seq<Action>, a: Action, generated: seq<seq<u8>>, at: seq<nat>)
    requires PayloadsOf(run, generated, at)
    ensures PayloadsOf(run + [a], generated, at)
    ensures a.SetSeq? ==> PayloadsOf(run + [a], generated + [a.payload], at + [|run|])
  {
  }

  lemma StampsLater(run: seq<Action>, a: Action, stamps: seq<u32>, at: seq<nat>)
    requires StampsOf(run, stamps, at)
    ensures StampsOf(run + [a], stamps, at)
    ensures a.StampTime? ==>
              var last := LastStamp(stamps);
              StampsOf(run + [a], stamps + [if last == 0 then a.anchor else (last + 48) % TWO_16], at + [|run|])
  {
  }

  lemma AudioFacts(s: State, a: Action)
    requires InRange(s)
    ensures var s' := AudioStep(s, a);
            && s'.stamps == s.stamps
            && (s'.generated == s.generated || (a.SetSeq? && s'.generated == s.generated + [a.payload]))
  {
    hide Ring.Advance;
  }

  lemma NetFacts(s: State, a: Action)
    requires InRange(s) && s.tstamp == LastStamp(s.stamps)
    ensures var s', last := NetStep(s, a), LastStamp(s.stamps);
            && s'.generated == s.generated
            && (s'.stamps == s.stamps
                || (a.StampTime? && s'.stamps == s.stamps + [if last == 0 then a.anchor else (last + 48) % TWO_16]))
  {
    hide Ring.Advance, Put, Be32, Be16;
  }

  lemma CounterIsLast(k: nat, s: State, init: seq<Slot>)
    requires Inv(k, s, init)
    ensures InRange(s) && s.tstamp == LastStamp(s.stamps)
  {
    hide Queued, Pow2, Contents, Headers, AudioInv, Counts, Wire, Be32, Be16, Chain;
  }

  /** What each step adds to the payloads and the stamps. */
  lemma StepFacts(k: nat, s: State, init: seq<Slot>, a: Action)
    requires Inv(k, s, init)
    ensures var s', last := Step(s, a), LastStamp(s.stamps);
            && (s'.generated == s.generated || (a.SetSeq? && s'.generated == s.generated + [a.payload]))
            && (s'.stamps == s.stamps
                || (a.StampTime? && s'.stamps == s.stamps + [if last == 0 then a.anchor else (last + 48) % TWO_16]))
  {
    hide Inv, AudioStep, NetStep;
    CounterIsLast(k, s, init);
    AudioFacts(s, a);
    NetFacts(s, a);
  }

  lemma TraceEmpty(slots: seq<Slot>, dataLen: u16)
    requires 0 < |slots| <= TWO_32
    ensures var s := Run(Start(slots, dataLen), []); PayloadsOf([], s.generated, []) && StampsOf([], s.stamps, [])
  {
  }

  lemma {:induction false} Trace(k: nat, slots: seq<Slot>, dataLen: u16, run: seq<Action>)
      returns (payloads: seq<nat>, anchors: seq<nat>)
    requires Ready(k, slots, dataLen)
    ensures var s := Run(Start(slots, dataLen), run);
            PayloadsOf(run, s.generated, payloads) && StampsOf(run, s.stamps, anchors)
  {
    hide Inv, Step, Run, Start, PayloadsOf, StampsOf;
    if run == [] {
      payloads, anchors := [], [];
      TraceEmpty(slots, dataLen);
    } else {
      var init, a := run[..|run| - 1], run[|run| - 1];
      payloads, anchors := Trace(k, slots, dataLen, init);
      AlwaysInv(k, slots, dataLen, init);
      var s := Run(Start(slots, dataLen), init);
      StepFacts(k, s, slots, a);
      PayloadsLater(init, a, s.generated, payloads);
      StampsLater(init, a, s.stamps, anchors);
      RunOne(Start(slots, dataLen), init, a);
      assert run == init + [a];
      if Step(s, a).generated != s.generated {
        payloads := payloads + [|init|];
      }
      if Step(s, a).stamps != s.stamps {
        anchors := anchors + [|init|];
      }
    }
  }

  lemma StoppedStep(s: State, a: Action)
    requires s.net.NStopped?
    ensures Step(s, a).net.NStopped? && Step(s, a).wire == s.wire && Step(s, a).tail == s.tail
  {
    hide Ring.Advance;
  }

  /** A send that fails is the last: nothing goes out or is retired after it. */
  lemma {:induction false} FailedSendIsLast(s: State, run: seq<Action>, n: nat)
    requires n < |run| && run[n].SendFailed?
    requires InRange(Run(s, run[..n])) && Run(s, run[..n]).net.NSending?
    ensures Run(s, run).net.NStopped? && Run(s, run).wire == Run(s, run[..n]).wire
    ensures Run(s, run).tail == Run(s, run[..n]).tail
    decreases run
  {
    var m := |run| - 1;
    if n == m {
      hide Run;
      RunOne(s, run[..n], run[n]);
      assert run == run[..n] + [run[n]];
    } else {
      hide Step, Run;
      assert run[..m][..n] == run[..n];
      FailedSendIsLast(s, run[..m], n);
      RunOne(s, run[..m], run[m]);
      assert run == run[..m] + [run[m]];
      StoppedStep(Run(s, run[..m]), run[m]);
    }
  }

  /** In every interleaving packet i on the wire carries the payload of the i-th `SetSeq` that took
      effect, at `payloads[i]` of the run, under the number i; and its stamp is that of the attempt
      made at `anchors[attempt]`, an anchor or 48 more than the attempt before. */
  lemma {:induction false} WireOfTheRun(k: nat, slots: seq<Slot>, dataLen: u16, run: seq<Action>)
      returns (payloads: seq<nat>, anchors: seq<nat>)
    requires Ready(k, slots, dataLen)
    ensures var s := Run(Start(slots, dataLen), run);
            && |s.wire| <= |payloads| && Rising(payloads, |run|) && StampsOf(run, s.stamps, anchors)
            && (forall i | 0 <= i < |payloads| :: run[payloads[i]].SetSeq?)
            && (forall i | 0 <= i < |s.wire| ::
                  && Carries(s.wire[i].bytes, i, dataLen, run[payloads[i]].payload, slots[i % |slots|].data)
                  && Stamped(s.wire[i], s.stamps))
  {
    hide Run, Carries, Stamped, StampsOf, Contents, Headers, AudioInv, NetInv, Counts;
    payloads, anchors := Trace(k, slots, dataLen, run);
    WireIsTheGeneratedStream(k, slots, dataLen, run);
    AlwaysInv(k, slots, dataLen, run);
    var s := Run(Start(slots, dataLen), run);
    forall i | 0 <= i < |s.wire| ensures Stamped(s.wire[i], s.stamps) {
      assert WireOk(s.wire[i], i, s.dataLen, s.generated[i], slots[i % |slots|].data, s.stamps);
    }
  }
}
