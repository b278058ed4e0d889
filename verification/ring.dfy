/** The masked ring of include/aoip/queue.h: index arithmetic, and which slots are queued. */
module Ring {
  import opened MachineInt

  function Pow2(k: nat): (p: nat)
    ensures p >= 1
  {
    if k == 0 then 1 else 2 * Pow2(k - 1)
  }

  /** Bitwise and. */
  function And(a: nat, b: nat): nat {
    if a == 0 || b == 0 then 0 else 2 * And(a / 2, b / 2) + (if a % 2 == 1 && b % 2 == 1 then 1 else 0)
  }

  /** Masking with 2^k - 1 keeps everything below 2^k and takes 2^k to zero. */
  lemma {:induction false} AndMask(x: nat, k: nat)
    requires x <= Pow2(k)
    ensures And(x, Pow2(k) - 1) == if x == Pow2(k) then 0 else x
  {
    if k > 0 && x > 0 {
      AndMask(x / 2, k - 1);
    }
  }

  /** `(i + 1) & mask`, as both index advances compute it on uint32_t. */
  function Advance(i: u32, mask: u32): u32
    ensures Advance(i, mask) <= mask
  {
    AndAtMost((i + 1) % TWO_32, mask);
    And((i + 1) % TWO_32, mask)
  }

  lemma {:induction false} AndAtMost(a: nat, b: nat)
    ensures And(a, b) <= b
  {
    if a != 0 && b != 0 {
      AndAtMost(a / 2, b / 2);
    }
  }

  /** The successor of an index around the ring. */
  function Next(i: nat, size: nat): (j: nat)
    requires i < size
    ensures j < size
  {
    if i + 1 == size then 0 else i + 1
  }

  /** For every power-of-two size up to 2^32 the mask steps around the ring. */
  lemma AdvanceIsNext(i: u32, mask: u32, k: nat)
    requires mask + 1 == Pow2(k) && i <= mask
    ensures Advance(i, mask) == Next(i, mask + 1)
  {
    AndMask(i + 1, k);
  }

  // ---------- the queued slots, from the ring alone ----------

  /** The slots from tail up to head, in ring order. */
  function Queued<T>(slots: seq<T>, head: nat, tail: nat): seq<T>
    requires head < |slots| && tail < |slots|
  {
    if tail <= head then slots[tail..head] else slots[tail..] + slots[..head]
  }

  /** The two tests and the length: one slot always stays free. */
  lemma Tests<T>(slots: seq<T>, head: nat, tail: nat)
    requires head < |slots| && tail < |slots|
    ensures head == tail <==> Queued(slots, head, tail) == []
    ensures Next(head, |slots|) == tail <==> |Queued(slots, head, tail)| == |slots| - 1
    ensures |Queued(slots, head, tail)| <= |slots| - 1
  {
  }

  /** Publishing appends the head slot. */
  lemma Publish<T>(slots: seq<T>, head: nat, tail: nat)
    requires head < |slots| && tail < |slots| && Next(head, |slots|) != tail
    ensures Queued(slots, Next(head, |slots|), tail) == Queued(slots, head, tail) + [slots[head]]
  {
  }

  /** Consuming removes the tail slot. */
  lemma Consume<T>(slots: seq<T>, head: nat, tail: nat)
    requires head < |slots| && tail < |slots| && head != tail
    ensures Queued(slots, head, tail) == [slots[tail]] + Queued(slots, head, Next(tail, |slots|))
  {
    if tail > head && tail + 1 == |slots| {
      assert slots[tail..] == [slots[tail]];
    }
  }

  /** Whatever is done to the head slot, nothing queued changes. */
  lemma WriteAtHead<T>(slots: seq<T>, head: nat, tail: nat, x: T)
    requires head < |slots| && tail < |slots|
    ensures Queued(slots[head := x], head, tail) == Queued(slots, head, tail)
  {
  }

  /** A change to the tail slot is a change to the front of the queue. */
  lemma WriteAtTail<T>(slots: seq<T>, head: nat, tail: nat, x: T)
    requires head < |slots| && tail < |slots| && head != tail
    ensures Queued(slots[tail := x], head, tail) == Queued(slots, head, tail)[0 := x]
  {
  }
}
