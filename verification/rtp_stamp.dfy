/** The RTP timestamp the sender of lib/aoip.c puts on each send attempt. */
module RtpStamp {
  import opened MachineInt

  const SAMPLES_PER_PACKET: int := 48

  /** A zero counter means "not anchored": the next attempt takes a fresh anchor. */
  function NextStamp(tstamp: u32, anchor: u32): u32 {
    if tstamp != 0 then (tstamp + SAMPLES_PER_PACKET) % TWO_16 else anchor
  }

  /** The stamps of successive attempts: each follows from the one before, or is an anchor. */
  ghost predicate Chain(stamps: seq<u32>) {
    forall i | 1 <= i < |stamps| :: stamps[i - 1] != 0 ==> stamps[i] == (stamps[i - 1] + SAMPLES_PER_PACKET) % TWO_16
  }

  lemma ChainGrows(stamps: seq<u32>, tstamp: u32, anchor: u32)
    requires Chain(stamps) && (stamps != [] ==> tstamp == stamps[|stamps| - 1])
    ensures Chain(stamps + [NextStamp(tstamp, anchor)])
  {
  }

  /** From an anchor T, and until a stamp comes out as zero, the k-th later attempt is stamped
      (T + 48 k) mod 2^16. */
  lemma {:induction false} StampsAfterAnchor(stamps: seq<u32>, a: nat, k: nat)
    requires Chain(stamps) && 1 <= k && a + k < |stamps|
    requires forall i | a <= i < a + k :: stamps[i] != 0
    ensures stamps[a + k] == (stamps[a] + SAMPLES_PER_PACKET * k) % TWO_16
  {
    if k > 1 {
      StampsAfterAnchor(stamps, a, k - 1);
      assert stamps[a + k] == (stamps[a + k - 1] + SAMPLES_PER_PACKET) % TWO_16;
    } else {
      assert stamps[a + 1] == (stamps[a] + SAMPLES_PER_PACKET) % TWO_16;
    }
  }

  function Kth(anchor: u32, k: nat): int {
    (anchor + SAMPLES_PER_PACKET * k) % TWO_16
  }

  /** The counter comes back to zero, and the sender takes a new anchor, within 4096 attempts if
      16 divides the anchor, and never otherwise. */
  lemma ReanchorIff(anchor: u32)
    ensures (exists k: nat :: 1 <= k <= 4096 && Kth(anchor, k) == 0) <==> anchor % 16 == 0
    ensures (exists k: nat :: 1 <= k && Kth(anchor, k) == 0) <==> anchor % 16 == 0
  {
    forall k: nat | 1 <= k && Kth(anchor, k) == 0 ensures anchor % 16 == 0 {
      var q := (anchor + SAMPLES_PER_PACKET * k) / TWO_16;
      assert anchor == 16 * (4096 * q - 3 * k);
    }
    if anchor % 16 == 0 {
      // 3 * 2731 == 1 modulo 4096
      var m := anchor / 16 % 4096;
      var k := 4096 - m * 2731 % 4096;
      var c := anchor / 16 / 4096;
      assert anchor == 16 * (4096 * c + m);
      var d := m * 2731 / 4096;
      assert m * 2731 == 4096 * d + (4096 - k);
      assert 3 * k == 3 * 4096 * (d + 1) - 8193 * m;
      assert anchor + 48 * k == TWO_16 * (c + 3 * (d + 1) - 2 * m);
      assert Kth(anchor, k) == 0;
    }
  }

  lemma SameResidue(x: nat)
    ensures (x + SAMPLES_PER_PACKET) % TWO_16 % 16 == x % 16
  {
    var q := (x + SAMPLES_PER_PACKET) / TWO_16;
    assert (x + SAMPLES_PER_PACKET) % TWO_16 == x + 16 * (3 - 4096 * q);
  }

  /** On any sequence of attempts, an anchor that 16 does not divide is never replaced. */
  lemma {:induction false} NeverReanchored(stamps: seq<u32>, a: nat, k: nat)
    requires Chain(stamps) && a + k < |stamps| && stamps[a] % 16 != 0
    ensures stamps[a + k] != 0 && stamps[a + k] % 16 == stamps[a] % 16
    decreases k
  {
    if k > 0 {
      NeverReanchored(stamps, a, k - 1);
      SameResidue(stamps[a + k - 1]);
      assert stamps[a + k] == (stamps[a + k - 1] + SAMPLES_PER_PACKET) % TWO_16;
    }
  }

  /** And one that 16 divides is replaced within 4096 attempts. */
  lemma ReanchoredSoon(stamps: seq<u32>, a: nat)
    requires Chain(stamps) && a + 4096 < |stamps| && stamps[a] % 16 == 0
    ensures exists i :: a <= i <= a + 4096 && stamps[i] == 0
  {
    if forall i | a <= i < a + 4096 :: stamps[i] != 0 {
      ReanchorIff(stamps[a]);
      var m: nat :| 1 <= m <= 4096 && Kth(stamps[a], m) == 0;
      StampsAfterAnchor(stamps, a, m);
    }
  }

  /** Stamps are meant to advance by 48 samples per attempt; the 16-bit mask makes that true exactly
      while the sum stays below 2^16. */
  lemma AdvancesBy48Iff(tstamp: u32, anchor: u32)
    requires tstamp != 0
    ensures NextStamp(tstamp, anchor) == tstamp + SAMPLES_PER_PACKET <==> tstamp + SAMPLES_PER_PACKET < TWO_16
  {
  }
}
