/** Playback read off the run itself: which datagrams arrived, and what became of each. */
module PlaybackTrace {
  import opened MachineInt
  import opened Ring
  import opened Playback

  /** Action n of the run is a datagram that the network thread takes from its socket. */
  ghost predicate Taken(cap: nat, slots: seq<Slot>, run: seq<Action>, n: nat)
    requires 0 < |slots| <= TWO_32 && n < |run|
  {
    0 < cap && run[n].Arrive? && run[n].datagram != [] && Run(Start(slots), run[..n]).net.NReceiving?
  }

  ghost function TakenCount(cap: nat, slots: seq<Slot>, run: seq<Action>): nat
    requires 0 < |slots| <= TWO_32
  {
    if run == [] then 0
    else TakenCount(cap, slots, run[..|run| - 1]) + if Taken(cap, slots, run, |run| - 1) then 1 else 0
  }

  /** The network thread holds a datagram that it has neither kept nor dropped. */
  predicate Waiting(net: Net) {
    net.NCopying? || net.NTestFull?
  }

  function InHand(s: State): seq<u8> {
    if s.net.NCopying? then s.net.packet else s.inHand
  }

  /** As much of the datagram as the slot has room for. */
  ghost predicate IsCutOf(x: seq<u8>, datagram: seq<u8>, cap: nat) {
    x == if |datagram| <= cap then datagram else datagram[..cap]
  }

  ghost predicate Traced(cap: nat, run: seq<Action>, taken: nat, s: State, at: seq<nat>, cur: nat) {
    && |at| == |s.kept|
    && (forall i | 0 <= i < |at| ::
          at[i] < |run| && run[at[i]].Arrive? && IsCutOf(s.kept[i], run[at[i]].datagram, cap))
    && (forall i, j | 0 <= i < j < |at| :: at[i] < at[j])
    && (Waiting(s.net) ==>
          && cur < |run| && run[cur].Arrive? && IsCutOf(InHand(s), run[cur].datagram, cap)
          && forall i | 0 <= i < |at| :: at[i] < cur)
    && taken == |s.kept| + s.dropped + if Waiting(s.net) then 1 else 0
  }

  /** What each step does to the datagrams kept, dropped and in hand. */
  lemma StepFacts(k: nat, cap: nat, s: State, a: Action)
    requires Inv(k, cap, s)
    ensures var s' := Step(s, a);
            if 0 < cap && a.Arrive? && a.datagram != [] && s.net.NReceiving? then
              && Waiting(s'.net) && IsCutOf(InHand(s'), a.datagram, cap) && s'.kept == s.kept && s'.dropped == s.dropped
            else if a.TestFull? && s.net.NTestFull? then
              && !Waiting(s'.net)
              && ((s'.kept == s.kept && s'.dropped == s.dropped + 1)
                  || (s'.kept == s.kept + [InHand(s)] && s'.dropped == s.dropped))
            else
              && Waiting(s'.net) == Waiting(s.net) && (Waiting(s.net) ==> InHand(s') == InHand(s))
              && s'.kept == s.kept && s'.dropped == s.dropped
  {
    hide Queued, Advance, Pow2, Fifo, History, Conserved;
  }

  lemma TraceStep(k: nat, cap: nat, run: seq<Action>, taken: nat, s: State, at: seq<nat>, cur: nat, a: Action)
      returns (at': seq<nat>, cur': nat)
    requires Inv(k, cap, s) && Traced(cap, run, taken, s, at, cur)
    ensures var now := 0 < cap && a.Arrive? && a.datagram != [] && s.net.NReceiving?;
            Traced(cap, run + [a], taken + (if now then 1 else 0), Step(s, a), at', cur')
  {
    hide Inv, Step, IsCutOf;
    StepFacts(k, cap, s, a);
    at', cur' := at, cur;
    if 0 < cap && a.Arrive? && a.datagram != [] && s.net.NReceiving? {
      cur' := |run|;
    } else if a.TestFull? && s.net.NTestFull? && Step(s, a).dropped == s.dropped {
      at' := at + [cur];
    }
  }

  lemma TraceEmpty(cap: nat, slots: seq<Slot>)
    requires 0 < |slots| <= TWO_32
    ensures Traced(cap, [], TakenCount(cap, slots, []), Run(Start(slots), []), [], 0)
  {
  }

  lemma Unfold(cap: nat, slots: seq<Slot>, init: seq<Action>, a: Action)
    requires 0 < |slots| <= TWO_32
    ensures var s := Run(Start(slots), init);
            && Run(Start(slots), init + [a]) == Step(s, a)
            && TakenCount(cap, slots, init + [a]) == TakenCount(cap, slots, init)
                 + if 0 < cap && a.Arrive? && a.datagram != [] && s.net.NReceiving? then 1 else 0
  {
    hide Step;
    assert (init + [a])[..|init|] == init;
  }

  lemma {:induction false} Trace(k: nat, cap: nat, slots: seq<Slot>, run: seq<Action>) returns (at: seq<nat>, cur: nat)
    requires |slots| == Pow2(k) <= TWO_32 && forall j | 0 <= j < |slots| :: |slots[j].data| == cap
    ensures Traced(cap, run, TakenCount(cap, slots, run), Run(Start(slots), run), at, cur)
  {
    hide Inv, Step, Run, Start, Traced, TakenCount, Pow2;
    if run == [] {
      at, cur := [], 0;
      TraceEmpty(cap, slots);
    } else {
      var init, a := run[..|run| - 1], run[|run| - 1];
      at, cur := Trace(k, cap, slots, init);
      AlwaysInv(k, cap, slots, init);
      at, cur := TraceStep(k, cap, init, TakenCount(cap, slots, init), Run(Start(slots), init), at, cur, a);
      Unfold(cap, slots, init, a);
      assert run == init + [a];
    }
  }

  /** In every interleaving the packets kept are datagrams of the run, in the order of their arrival:
      packet i is the one that arrived at `at[i]`, whole or cut to the size of a slot, and so is what
      the reader gets of it. The datagrams taken from the socket but not kept are those dropped on
      a full ring and at most one still in hand. */
  lemma {:induction false} DatagramsInOrder(k: nat, cap: nat, slots: seq<Slot>, run: seq<Action>) returns (at: seq<nat>)
    requires |slots| == Pow2(k) <= TWO_32 && forall j | 0 <= j < |slots| :: |slots[j].data| == cap
    ensures var s := Run(Start(slots), run);
            && |s.consumed| <= |s.published| <= |s.kept| == |at|
            && (forall i, j | 0 <= i < j < |at| :: at[i] < at[j])
            && (forall i | 0 <= i < |at| :: at[i] < |run| && run[at[i]].Arrive?)
            && (forall i | 0 <= i < |s.published| ::
                  var d := run[at[i]].datagram; Bytes(s.published[i]) == if |d| <= cap then d else d[..cap])
            && (forall i | 0 <= i < |s.consumed| ::
                  var d := run[at[i]].datagram; s.consumed[i] == if |d| <= cap then d else d[..cap])
            && TakenCount(cap, slots, run) == |s.kept| + s.dropped + (if Waiting(s.net) then 1 else 0)
  {
    hide Run, Inv, Bytes, Queued, Pow2, TakenCount;
    var cur;
    at, cur := Trace(k, cap, slots, run);
    EveryRun(k, cap, slots, run);
  }
}
