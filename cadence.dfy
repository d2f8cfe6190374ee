/** The full/partial refresh cadence: the update counter, which refresh mode
    a call uses and which waveform table (LUT) it uploads. */
module Cadence {
  import opened Optional

  /** 2^32: the counter and the cadence length are 32-bit unsigned. */
  const U32: nat := 0x1_0000_0000

  /** A waveform table to upload before the refresh. */
  datatype LutTable = FullRedLut | PartialLut

  /** A refresh is full exactly when the counter is 0. */
  predicate IsFullUpdate(atUpdate: nat) {
    atUpdate == 0
  }

  /** The table a call uploads, if any: the source reloads when the "full now"
      and "full last time" flags differ, and only when the cadence length is
      at least 1. */
  function LutSelection(atUpdate: nat, every: nat): (t: Option<LutTable>)
  {
    var fullUpdate, prevFullUpdate := atUpdate == 0, atUpdate == 1;
    if every >= 1 && fullUpdate != prevFullUpdate then
      Some(if fullUpdate then FullRedLut else PartialLut)
    else None
  }

  /** A table is uploaded exactly on counters 0 and 1: the full red table on a
      full update, the partial table on the first partial update after it. */
  lemma LutSelectionCases(atUpdate: nat, every: nat)
    requires every >= 1
    ensures LutSelection(atUpdate, every).Some? <==> atUpdate <= 1
    ensures LutSelection(atUpdate, every) == Some(FullRedLut) <==> IsFullUpdate(atUpdate)
    ensures LutSelection(atUpdate, every) == Some(PartialLut) <==> atUpdate == 1
  {
  }

  /** The counter step the source performs at the end of the cadence logic,
      as written: (at_update_ + 1) % full_update_every_ in 32-bit arithmetic,
      executed even when full_update_every_ is 0, where it divides by zero
      (None). */
  function AdvanceAsWritten(atUpdate: nat, every: nat): (r: Option<nat>)
    requires atUpdate < U32 && every < U32
  {
    if every == 0 then None else Some(((atUpdate + 1) % U32) % every)
  }

  /** The intended counter step, with the advance under the same
      `full_update_every_ >= 1` guard as the LUT reload: a cadence length of
      0 leaves the counter where it is. */
  function Advance(atUpdate: nat, every: nat): (r: nat)
    requires atUpdate < U32 && every < U32
    ensures r < U32
    ensures every >= 1 ==> r < every
    ensures every == 0 ==> r == atUpdate
  {
    if every >= 1 then ((atUpdate + 1) % U32) % every else atUpdate
  }

  /** As written, a cadence length of 0 faults, although the guard on the
      LUT reload shows that 0 was meant to be accepted; for every other
      length the written step and the intended one agree. */
  lemma AdvanceAsWrittenFaultsOnZero(atUpdate: nat, every: nat)
    requires atUpdate < U32 && every < U32
    ensures every == 0 <==> AdvanceAsWritten(atUpdate, every) == None
    ensures every >= 1 ==> AdvanceAsWritten(atUpdate, every) == Some(Advance(atUpdate, every))
  {
  }

  /** Euclidean division is unique: a quotient and a remainder in [0, n) that
      rebuild a are the ones % and / give. */
  lemma ModUnique(a: int, n: int, q: int, r: int)
    requires n >= 1 && 0 <= r < n && a == q * n + r
    ensures a % n == r
  {
    var d := q - a / n;
    assert d * n == a % n - r;
  }

  /** Euclidean division rebuilds its dividend. */
  lemma DivMod(a: int, n: int)
    requires n >= 1
    ensures a == (a / n) * n + a % n
  {
  }

  /** On a counter already in range, a step is a plain increment modulo the cadence length. */
  lemma AdvanceInRange(atUpdate: nat, every: nat)
    requires every >= 1 && every < U32 && atUpdate < every
    ensures Advance(atUpdate, every) == (atUpdate + 1) % every
    ensures Advance(atUpdate, every) == if atUpdate + 1 == every then 0 else atUpdate + 1
  {
    ModUnique(atUpdate + 1, U32, 0, atUpdate + 1);
    if atUpdate + 1 == every {
      ModUnique(atUpdate + 1, every, 1, 0);
    } else {
      ModUnique(atUpdate + 1, every, 0, atUpdate + 1);
    }
  }

  /** The counter after k refreshes. */
  function Iterate(atUpdate: nat, every: nat, k: nat): (r: nat)
    requires atUpdate < U32 && every < U32
    ensures r < U32
    decreases k
  {
    if k == 0 then atUpdate else Advance(Iterate(atUpdate, every, k - 1), every)
  }

  /** After k refreshes the counter has moved k places around the cycle. */
  lemma {:induction false} IterateMod(atUpdate: nat, every: nat, k: nat)
    requires every >= 1 && every < U32 && atUpdate < every
    ensures Iterate(atUpdate, every, k) == (atUpdate + k) % every
    decreases k
  {
    if k > 0 {
      IterateMod(atUpdate, every, k - 1);
      AdvanceInRange(Iterate(atUpdate, every, k - 1), every);
      ModStep(atUpdate + k - 1, every);
    } else {
      ModUnique(atUpdate, every, 0, atUpdate);
    }
  }

  /** Adding one to a number moves its remainder one place round the cycle. */
  lemma ModStep(a: nat, n: nat)
    requires n >= 1
    ensures (a + 1) % n == if a % n + 1 == n then 0 else a % n + 1
  {
    DivMod(a, n);
    if a % n + 1 == n {
      ModUnique(a + 1, n, a / n + 1, 0);
    } else {
      ModUnique(a + 1, n, a / n, a % n + 1);
    }
  }

  /** Cycle closure: every consecutive refreshes bring the counter back to where it started. */
  lemma CycleCloses(atUpdate: nat, every: nat)
    requires every >= 1 && every < U32 && atUpdate < every
    ensures Iterate(atUpdate, every, every) == atUpdate
  {
    IterateMod(atUpdate, every, every);
    ModUnique(atUpdate + every, every, 1, atUpdate);
  }

  /** Exactly one refresh in each window of `every` consecutive refreshes is
      full: the k-th one, for the single k that brings the counter to 0. */
  lemma OneFullUpdatePerCycle(atUpdate: nat, every: nat, k: nat)
    requires every >= 1 && every < U32 && atUpdate < every && k < every
    ensures IsFullUpdate(Iterate(atUpdate, every, k)) <==> k == (every - atUpdate) % every
  {
    IterateMod(atUpdate, every, k);
    if atUpdate + k < every {
      ModUnique(atUpdate + k, every, 0, atUpdate + k);
    } else {
      ModUnique(atUpdate + k, every, 1, atUpdate + k - every);
    }
    if atUpdate == 0 {
      ModUnique(every - atUpdate, every, 1, 0);
    } else {
      ModUnique(every - atUpdate, every, 0, every - atUpdate);
    }
  }

  /** With a cadence of two or more, the partial table is uploaded exactly
      once per cycle: on the refresh right after the full one. */
  lemma OnePartialLutPerCycle(atUpdate: nat, every: nat, k: nat)
    requires 2 <= every < U32 && atUpdate < every && k < every
    ensures LutSelection(Iterate(atUpdate, every, k), every) == Some(PartialLut)
        <==> k == (every + 1 - atUpdate) % every
  {
    IterateMod(atUpdate, every, k);
    if atUpdate + k < every {
      ModUnique(atUpdate + k, every, 0, atUpdate + k);
    } else {
      ModUnique(atUpdate + k, every, 1, atUpdate + k - every);
    }
    if atUpdate <= 1 {
      ModUnique(every + 1 - atUpdate, every, 1, 1 - atUpdate);
    } else {
      ModUnique(every + 1 - atUpdate, every, 0, every + 1 - atUpdate);
    }
  }

  /** With a cadence length of 1 the counter stays at 0, so every refresh is
      full and reloads the full red table. */
  lemma CadenceOfOneAlwaysFull(k: nat)
    ensures IsFullUpdate(Iterate(0, 1, k))
    ensures LutSelection(Iterate(0, 1, k), 1) == Some(FullRedLut)
  {
    IterateMod(0, 1, k);
  }
}
