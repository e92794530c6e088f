/**
 * Transcript words and the robust average pause between them.
 *
 * Timestamps are milliseconds. The source keeps them in `u64`, whose
 * subtraction fails on underflow; the two predicates below are what the
 * source needs of its input for those subtractions to succeed.
 */
module Transcript {

  /** A timed word; also the type of the aligned output tokens. */
  datatype Word = Word(startMs: nat, endMs: nat, text: seq<char>)

  /** Every word ends no earlier than it starts (`end_ms - start_ms` in the rate estimate). */
  predicate WellTimed(words: seq<Word>) {
    forall i :: 0 <= i < |words| ==> words[i].startMs <= words[i].endMs
  }

  /** The end of the word before word `i`. */
  function PrevEnd(words: seq<Word>, i: nat): nat
    requires 1 <= i < |words|
  {
    words[i - 1].endMs
  }

  /** No word starts before the previous one ends (`start_ms - words[i - 1].end_ms`). */
  predicate NoNegativeGaps(words: seq<Word>) {
    forall i {:trigger PrevEnd(words, i)} :: 1 <= i < |words| ==> PrevEnd(words, i) <= words[i].startMs
  }

  /** The pause before word `i`. */
  function Gap(words: seq<Word>, i: nat): nat
    requires NoNegativeGaps(words) && 1 <= i < |words|
  {
    words[i].startMs - PrevEnd(words, i)
  }

  /**
   * Gap `i` enters the average: the first gap always does; a later gap
   * does unless it is more than twenty times the gap before it.
   */
  predicate Counted(words: seq<Word>, i: nat)
    requires NoNegativeGaps(words) && 1 <= i < |words|
  {
    i == 1 || Gap(words, i) <= 20 * Gap(words, i - 1)
  }

  /** The sum of the counted gaps among gaps 1 .. n-1. */
  function CountedSum(words: seq<Word>, n: nat): nat
    requires NoNegativeGaps(words) && n <= |words|
  {
    if n <= 1 then 0
    else CountedSum(words, n - 1) + (if Counted(words, n - 1) then Gap(words, n - 1) else 0)
  }

  /** The number of counted gaps among gaps 1 .. n-1. */
  function CountedNumber(words: seq<Word>, n: nat): nat
    requires NoNegativeGaps(words) && n <= |words|
  {
    if n <= 1 then 0
    else CountedNumber(words, n - 1) + (if Counted(words, n - 1) then 1 else 0)
  }

  /** The average pause: 0 when no gap is counted, otherwise the floor of the mean of the counted gaps. */
  function AveragePause(words: seq<Word>): nat
    requires NoNegativeGaps(words)
  {
    var count := CountedNumber(words, |words|);
    if count == 0 then 0 else CountedSum(words, |words|) / count
  }

  /**
   * Without negative gaps and with every word well timed, a word never
   * ends before an earlier word starts; in particular the span of a range
   * of words, from its first start to its last end, has a duration.
   */
  lemma {:induction false} SpanOrdered(words: seq<Word>, i: nat, j: nat)
    requires WellTimed(words) && NoNegativeGaps(words)
    requires i <= j < |words|
    ensures words[i].startMs <= words[j].endMs
    decreases j
  {
    if i < j {
      SpanOrdered(words, i, j - 1);
      assert PrevEnd(words, j) <= words[j].startMs <= words[j].endMs;
    } else {
      assert words[j].startMs <= words[j].endMs;
    }
  }

  /** The `average_wait` block: one pass over the words accumulating `sum` and `count`. */
  method AverageWait(words: seq<Word>) returns (averageWait: nat)
    requires NoNegativeGaps(words)
    ensures averageWait == AveragePause(words)
  {
    var sum: nat := 0;
    var count: nat := 0;
    for i := 0 to |words|
      invariant sum == CountedSum(words, i)
      invariant count == CountedNumber(words, i)
    {
      if i == 0 {
        continue;
      }
      assert PrevEnd(words, i) == words[i - 1].endMs;
      var wait := words[i].startMs - words[i - 1].endMs;
      if i > 1 {
        assert PrevEnd(words, i - 1) == words[i - 2].endMs;
        var prevWait := words[i - 1].startMs - words[i - 2].endMs;
        if wait > prevWait * 20 {
          continue;
        }
      }
      sum := sum + wait;
      count := count + 1;
    }
    if count == 0 {
      averageWait := 0;
    } else {
      averageWait := sum / count;
    }
  }

  /** With two or more words the first gap is counted, so the average is a true mean. */
  lemma {:induction false} FirstGapCounted(words: seq<Word>, n: nat)
    requires NoNegativeGaps(words) && 2 <= n <= |words|
    ensures CountedNumber(words, n) >= 1
    decreases n
  {
    if n > 2 {
      FirstGapCounted(words, n - 1);
    }
  }

  /**
   * No gap is counted exactly when there are fewer than two words; the
   * average pause of such a transcript is 0.
   */
  lemma AveragePauseOfShortTranscript(words: seq<Word>)
    requires NoNegativeGaps(words)
    ensures CountedNumber(words, |words|) == 0 <==> |words| < 2
    ensures |words| < 2 ==> AveragePause(words) == 0
  {
    if |words| >= 2 {
      FirstGapCounted(words, |words|);
    }
  }

  lemma {:induction false} CountedSumAtMost(words: seq<Word>, n: nat, bound: nat)
    requires NoNegativeGaps(words) && n <= |words|
    requires forall i {:trigger Counted(words, i)} :: 1 <= i < n && Counted(words, i) ==> Gap(words, i) <= bound
    ensures CountedSum(words, n) <= CountedNumber(words, n) * bound
    decreases n
  {
    if n > 1 {
      CountedSumAtMost(words, n - 1, bound);
      var c := CountedNumber(words, n - 1);
      assert (c + 1) * bound == c * bound + bound;
    }
  }

  lemma {:induction false} CountedSumAtLeast(words: seq<Word>, n: nat, bound: nat)
    requires NoNegativeGaps(words) && n <= |words|
    requires forall i {:trigger Counted(words, i)} :: 1 <= i < n && Counted(words, i) ==> bound <= Gap(words, i)
    ensures CountedNumber(words, n) * bound <= CountedSum(words, n)
    decreases n
  {
    if n > 1 {
      CountedSumAtLeast(words, n - 1, bound);
      var c := CountedNumber(words, n - 1);
      assert (c + 1) * bound == c * bound + bound;
    }
  }

  /** The average pause never exceeds a bound on the counted gaps: outliers that were skipped do not raise it. */
  lemma AveragePauseAtMost(words: seq<Word>, bound: nat)
    requires NoNegativeGaps(words)
    requires forall i {:trigger Counted(words, i)} :: 1 <= i < |words| && Counted(words, i) ==> Gap(words, i) <= bound
    ensures AveragePause(words) <= bound
  {
    CountedSumAtMost(words, |words|, bound);
    var count := CountedNumber(words, |words|);
    if count > 0 {
      DivAtMost(CountedSum(words, |words|), count, bound);
    }
  }

  /** The average pause is at least any lower bound on the counted gaps, when there are two or more words. */
  lemma AveragePauseAtLeast(words: seq<Word>, bound: nat)
    requires NoNegativeGaps(words) && |words| >= 2
    requires forall i {:trigger Counted(words, i)} :: 1 <= i < |words| && Counted(words, i) ==> bound <= Gap(words, i)
    ensures bound <= AveragePause(words)
  {
    CountedSumAtLeast(words, |words|, bound);
    FirstGapCounted(words, |words|);
    DivAtLeast(CountedSum(words, |words|), CountedNumber(words, |words|), bound);
  }

  lemma DivAtMost(sum: nat, count: nat, bound: nat)
    requires count > 0 && sum <= count * bound
    ensures sum / count <= bound
  {
  }

  lemma DivAtLeast(sum: nat, count: nat, bound: nat)
    requires count > 0 && count * bound <= sum
    ensures bound <= sum / count
  {
    var d := sum / count;
    assert sum < count * d + count;
    if d < bound {
      MulMonotone(count, d + 1, bound);
      assert false;
    }
  }

  lemma MulMonotone(c: nat, a: nat, b: nat)
    requires a <= b
    ensures c * a <= c * b
  {
  }

  /**
   * The outlier example: gaps 10, 12, 11, 500, 9. The gap of 500 follows a
   * gap of 11 and is skipped; the gap of 9 is kept, so the average is
   * (10 + 12 + 11 + 9) / 4 = 10.
   */
  lemma OutlierExample()
    ensures var words := [Word(0, 100, "a"), Word(110, 200, "b"), Word(212, 300, "c"),
                          Word(311, 400, "d"), Word(900, 1000, "e"), Word(1009, 1100, "f")];
            NoNegativeGaps(words) && !Counted(words, 4) && Counted(words, 5) && AveragePause(words) == 10
  {
    var words := [Word(0, 100, "a"), Word(110, 200, "b"), Word(212, 300, "c"),
                  Word(311, 400, "d"), Word(900, 1000, "e"), Word(1009, 1100, "f")];
    assert CountedSum(words, 6) == 42 && CountedNumber(words, 6) == 4;
  }
}
