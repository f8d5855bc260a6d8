/** The two array helpers of the static class `Lisp`, which imitate the Common
    Lisp sequence functions FILL and REPLACE. */
module Lisp {
  import opened Results

  /** Stores `item` into `sequence[start..end]`; the C# loop does nothing when
      `start >= end`, and touches only cells inside that range otherwise. */
  method Fill<T>(sequence: array<T>, item: T, start: int, end: int)
    requires start < end ==> 0 <= start && end <= sequence.Length
    modifies sequence
    ensures forall i :: 0 <= i < sequence.Length ==>
      sequence[i] == (if start <= i < end then item else old(sequence[i]))
  {
    var i := start;
    while i < end
      invariant start <= i
      invariant start < end ==> i <= end
      invariant end <= start ==> i == start
      invariant forall k :: 0 <= k < sequence.Length ==>
        sequence[k] == (if start <= k < i then item else old(sequence[k]))
    {
      sequence[i] := item;
      i := i + 1;
    }
  }

  /** A negative end bound stands for the length of the sequence. */
  function EffectiveEnd(end: int, length: nat): int { if end < 0 then length else end }

  /** The number of cells REPLACE copies: the shorter of the two ranges. */
  function CopyCount(length1: nat, length2: nat, start1: int, end1: int, start2: int, end2: int): (n: int)
    ensures n <= EffectiveEnd(end1, length1) - start1
    ensures n <= EffectiveEnd(end2, length2) - start2
    ensures n == EffectiveEnd(end1, length1) - start1 || n == EffectiveEnd(end2, length2) - start2
  {
    Min(EffectiveEnd(end1, length1) - start1, EffectiveEnd(end2, length2) - start2)
  }

  /** The count as the C# code computes it: a defaulted `end2` overwrites
      `end1` with the length of the second array and stays -1 itself. */
  function CopyCountAsWritten(length1: nat, length2: nat, start1: int, end1: int, start2: int, end2: int): (n: int)
    ensures end2 >= 0 ==> n == CopyCount(length1, length2, start1, end1, start2, end2)
    ensures end2 < 0 ==> n <= end2 - start2
  {
    var e1 := if end2 < 0 then length2 else EffectiveEnd(end1, length1);
    Min(e1 - start1, end2 - start2)
  }

  /** REPLACE with the defaulting of `end2` the parameter list evidently
      intends: copies `sequence2[start2..]` over `sequence1[start1..]`, as many
      cells as both ranges hold. */
  method Replace<T>(sequence1: array<T>, sequence2: array<T>,
                    start1: int := 0, end1: int := -1, start2: int := 0, end2: int := -1)
    requires sequence1 != sequence2
    requires var n := CopyCount(sequence1.Length, sequence2.Length, start1, end1, start2, end2);
      n > 0 ==> 0 <= start1 && start1 + n <= sequence1.Length && 0 <= start2 && start2 + n <= sequence2.Length
    modifies sequence1
    ensures var n := CopyCount(sequence1.Length, sequence2.Length, start1, end1, start2, end2);
      forall i :: 0 <= i < sequence1.Length ==>
        sequence1[i] == (if start1 <= i < start1 + n then sequence2[start2 + (i - start1)] else old(sequence1[i]))
  {
    var e1 := if end1 < 0 then sequence1.Length else end1;
    var e2 := if end2 < 0 then sequence2.Length else end2;
    var quantity := Min(e1 - start1, e2 - start2);
    CopyLoop(sequence1, sequence2, start1, start2, quantity);
  }

  /** REPLACE as the C# code is written (`end1` is assigned where `end2` was
      meant), so that a call defaulting `end2` copies nothing. */
  method ReplaceAsWritten<T>(sequence1: array<T>, sequence2: array<T>,
                             start1: int := 0, end1: int := -1, start2: int := 0, end2: int := -1)
    requires sequence1 != sequence2
    requires var n := CopyCountAsWritten(sequence1.Length, sequence2.Length, start1, end1, start2, end2);
      n > 0 ==> 0 <= start1 && start1 + n <= sequence1.Length && 0 <= start2 && start2 + n <= sequence2.Length
    modifies sequence1
    ensures var n := CopyCountAsWritten(sequence1.Length, sequence2.Length, start1, end1, start2, end2);
      forall i :: 0 <= i < sequence1.Length ==>
        sequence1[i] == (if start1 <= i < start1 + n then sequence2[start2 + (i - start1)] else old(sequence1[i]))
  {
    var e1 := end1;
    var e2 := end2;
    if e1 < 0 { e1 := sequence1.Length; }
    if e2 < 0 { e1 := sequence2.Length; }
    var quantity := Min(e1 - start1, e2 - start2);
    CopyLoop(sequence1, sequence2, start1, start2, quantity);
  }

  /** The copying loop shared by both versions of REPLACE. */
  method CopyLoop<T>(sequence1: array<T>, sequence2: array<T>, start1: int, start2: int, quantity: int)
    requires sequence1 != sequence2
    requires quantity > 0 ==>
      0 <= start1 && start1 + quantity <= sequence1.Length && 0 <= start2 && start2 + quantity <= sequence2.Length
    modifies sequence1
    ensures forall i :: 0 <= i < sequence1.Length ==>
      sequence1[i] == (if start1 <= i < start1 + quantity then sequence2[start2 + (i - start1)] else old(sequence1[i]))
  {
    var realEnd1 := start1 + quantity;
    var i, j := start1, start2;
    while i < realEnd1
      invariant start1 <= i
      invariant quantity > 0 ==> i <= realEnd1
      invariant quantity <= 0 ==> i == start1
      invariant j == start2 + (i - start1)
      invariant forall k :: 0 <= k < sequence1.Length ==>
        sequence1[k] == (if start1 <= k < i then sequence2[start2 + (k - start1)] else old(sequence1[k]))
    {
      sequence1[i] := sequence2[j];
      i, j := i + 1, j + 1;
    }
  }

  /** With `end2` defaulted and a non-negative `start2`, the C# REPLACE copies
      no cell at all, whatever the other bounds are. */
  lemma DefaultEnd2CopiesNothingAsWritten(length1: nat, length2: nat, start1: int, end1: int, start2: int)
    requires 0 <= start2
    ensures CopyCountAsWritten(length1, length2, start1, end1, start2, -1) < 0
  {
  }

  /** The call `SetIndentation` makes (`end1` = the current prefix length, the
      rest defaulted) copies that whole prefix once `end2` defaults properly. */
  lemma PrefixCopyCount(length1: nat, length2: nat, prefixLength: nat)
    requires prefixLength <= length2 && prefixLength <= length1
    ensures CopyCount(length1, length2, 0, prefixLength, 0, -1) == prefixLength
    ensures CopyCountAsWritten(length1, length2, 0, prefixLength, 0, -1) == -1
  {
  }
}
