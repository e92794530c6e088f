/**
 * What the alignment pass promises: the per-range timing rules, that the
 * output only grows by appending, that durations are never negative, and
 * that the output follows the script token by token.
 */
module AlignmentProperties {
  import opened Options
  import opened Tokenizer
  import opened Transcript
  import opened Alignment

  /** Token `k` of a layout starts after the sizes of the tokens before it and `k` gaps. */
  lemma {:induction false} StartAtFromSum(p0: nat, gap: nat, sizes: seq<nat>, k: nat)
    requires k < |sizes|
    ensures StartAt(p0, gap, sizes, k) == p0 + Sum(sizes[..k]) + k * gap
    decreases k
  {
    if k > 0 {
      StartAtFromSum(p0, gap, sizes, k - 1);
      assert sizes[..k][..k - 1] == sizes[..k - 1];
      assert k * gap == (k - 1) * gap + gap;
    }
  }

  /**
   * A layout from `p0` has one token per text: the first starts at `p0`,
   * each ends its size after its start, and each later one starts one gap
   * after the previous one ends.
   */
  lemma LayoutShape(p0: nat, gap: nat, texts: seq<seq<char>>, sizes: seq<nat>, r: seq<Word>)
    requires |texts| == |sizes| && r == Layout(p0, gap, texts, sizes)
    ensures |r| == |texts| &&
      (|r| > 0 ==> r[0].startMs == p0) &&
      (forall k :: 0 <= k < |r| ==> r[k].text == texts[k] && r[k].endMs == r[k].startMs + sizes[k]) &&
      (forall k :: 0 <= k < |r| ==> p0 <= r[k].startMs) &&
      (forall i, j :: 0 <= i < |r| && j == i + 1 && j < |r| ==> r[j].startMs == r[i].endMs + gap)
  {
    forall k | 0 <= k < |texts| ensures p0 <= StartAt(p0, gap, sizes, k) {
      StartAtFromSum(p0, gap, sizes, k);
    }
  }

  /** The last token of a layout ends after all the sizes and one gap fewer than there are tokens. */
  lemma LayoutLastEnd(p0: nat, gap: nat, texts: seq<seq<char>>, sizes: seq<nat>, r: seq<Word>)
    requires |texts| == |sizes| > 0 && r == Layout(p0, gap, texts, sizes)
    ensures r[|texts| - 1].endMs == p0 + Sum(sizes) + (|texts| - 1) * gap
  {
    StartAtFromSum(p0, gap, sizes, |sizes| - 1);
  }

  /**
   * Equal ranges, and Replace ranges of equal lengths: the k-th token keeps
   * the timing of the k-th transcript word of the range and takes the text
   * of the k-th script token.
   */
  lemma PositionalTiming(c: Context, prev: seq<Word>, op: Op)
    requires ValidContext(c) && Fits(c, op)
    requires op.tag == Equal || (op.tag == Replace && op.newEnd - op.newStart == op.oldEnd - op.oldStart)
    ensures var out := OpOutput(c, prev, op);
      |out| == op.newEnd - op.newStart &&
      forall k :: 0 <= k < |out| ==>
        out[k] == Word(c.words[op.oldStart + k].startMs, c.words[op.oldStart + k].endMs, TokenText(c, op.newStart + k))
  {
    OutputOfPassthrough(c, prev, op);
  }

  /** A Delete range appends nothing. */
  lemma DeleteAppendsNothing(c: Context, ops: seq<Op>, j: nat)
    requires ValidContext(c) && AllFit(c, ops) && j < |ops| && ops[j].tag == Delete
    ensures Assemble(c, ops, j + 1) == Assemble(c, ops, j)
  {
    AssembleStep(c, ops, j + 1);
  }

  /** A prefix of `b` is a prefix of `b` extended by `x`. */
  lemma PrefixExtended<T>(a: seq<T>, b: seq<T>, x: seq<T>, d: seq<T>)
    requires a <= b && d == b + x
    ensures a <= d
  {
    assert forall k :: 0 <= k < |a| ==> a[k] == b[k] == d[k];
  }

  /** The output is only ever appended to: the output after `i` ranges begins the output after `j >= i` ranges. */
  lemma {:induction false} AssembleExtends(c: Context, ops: seq<Op>, i: nat, j: nat)
    requires ValidContext(c) && AllFit(c, ops) && i <= j <= |ops|
    ensures Assemble(c, ops, i) <= Assemble(c, ops, j)
    decreases j
  {
    if i < j {
      AssembleExtends(c, ops, i, j - 1);
      PrefixExtended(Assemble(c, ops, i), Assemble(c, ops, j - 1), Chunk(c, ops, j - 1), Assemble(c, ops, j));
    }
  }

  /** An Insert range with nothing timed before it: every token is emitted with (0, 0), in order. */
  lemma InsertWithoutAnchor(c: Context, prev: seq<Word>, op: Op)
    requires ValidContext(c) && Fits(c, op) && op.tag == Insert
    requires forall i :: 0 <= i < |prev| ==> prev[i].endMs == 0
    ensures var out := OpOutput(c, prev, op);
      |out| == op.newEnd - op.newStart &&
      forall k :: 0 <= k < |out| ==> out[k] == Word(0, 0, TokenText(c, op.newStart + k))
  {
  }

  /**
   * An Insert range whose anchor is `prev[a]`, the last emitted token with a
   * non-zero end: one token per script token, the first starting at the
   * anchor, each lasting its size at the global rate, each later one
   * starting the average pause after the previous one ends. None of them
   * carries the (0, 0) timestamps.
   */
  lemma InsertWithAnchor(c: Context, prev: seq<Word>, op: Op, a: nat)
    requires ValidContext(c) && Fits(c, op) && op.tag == Insert
    requires a < |prev| && prev[a].endMs != 0
    requires forall i :: a < i < |prev| ==> prev[i].endMs == 0
    ensures var out := OpOutput(c, prev, op);
      |out| == op.newEnd - op.newStart &&
      (|out| > 0 ==> out[0].startMs == prev[a].endMs) &&
      (forall k :: 0 <= k < |out| ==>
        out[k].text == TokenText(c, op.newStart + k) &&
        out[k].endMs == out[k].startMs + c.insertSize(TokenText(c, op.newStart + k)) &&
        prev[a].endMs <= out[k].startMs && out[k].endMs != 0) &&
      (forall i, j :: 0 <= i < |out| && j == i + 1 && j < |out| ==> out[j].startMs == out[i].endMs + c.wait)
  {
    LastAnchorAt(prev, a);
    OutputOfAnchoredInsert(c, prev, op, prev[a].endMs);
    AnchoredLayout(c, op.newStart, op.newEnd, OpOutput(c, prev, op), prev[a].endMs);
  }

  /** The anchor is the end of the last word whose end is not 0. */
  lemma LastAnchorAt(prev: seq<Word>, a: nat)
    requires a < |prev| && prev[a].endMs != 0
    requires forall i :: a < i < |prev| ==> prev[i].endMs == 0
    ensures LastAnchor(prev) == Some(prev[a].endMs)
  {
    var r := LastAnchor(prev);
    assert r.Some?;
    var i :| 0 <= i < |prev| && prev[i].endMs == r.value && forall j :: i < j < |prev| ==> prev[j].endMs == 0;
    assert i == a;
  }

  /** The tokens of an Insert range laid out from a nonzero anchor `t`. */
  lemma AnchoredLayout(c: Context, ns: nat, ne: nat, out: seq<Word>, t: nat)
    requires ValidContext(c) && ns <= ne <= |c.tokens| && t != 0
    requires out == Layout(t, c.wait, TokenTexts(c, ns, ne), InsertSizes(c, TokenTexts(c, ns, ne)))
    ensures |out| == ne - ns &&
      (|out| > 0 ==> out[0].startMs == t) &&
      (forall k :: 0 <= k < |out| ==>
        out[k].text == TokenText(c, ns + k) &&
        out[k].endMs == out[k].startMs + c.insertSize(TokenText(c, ns + k)) &&
        t <= out[k].startMs && out[k].endMs != 0) &&
      (forall i, j :: 0 <= i < |out| && j == i + 1 && j < |out| ==> out[j].startMs == out[i].endMs + c.wait)
  {
    var texts := TokenTexts(c, ns, ne);
    LayoutShape(t, c.wait, texts, InsertSizes(c, texts), out);
  }

  /**
   * A Replace range of unequal lengths whose sized tokens are shorter in
   * total than the transcript span: one token per script token, the first
   * at the span's start, tokens separated by the even share of the slack,
   * and the last ending no later than the span's end.
   */
  lemma FitTiming(c: Context, prev: seq<Word>, op: Op)
    requires ValidContext(c) && Fits(c, op) && op.tag == Replace
    requires op.newEnd - op.newStart != op.oldEnd - op.oldStart
    requires Sum(ReplaceSizes(c, op.oldStart, op.oldEnd, TokenTexts(c, op.newStart, op.newEnd)))
             < SpanEnd(c, op) - SpanStart(c, op)
    ensures var texts := TokenTexts(c, op.newStart, op.newEnd);
      var sizes := ReplaceSizes(c, op.oldStart, op.oldEnd, texts);
      var pause := PauseLen(SpanEnd(c, op) - SpanStart(c, op), Sum(sizes), |texts|);
      |texts| == op.newEnd - op.newStart &&
      Paced(OpOutput(c, prev, op), texts, sizes, SpanStart(c, op), pause, SpanEnd(c, op))
  {
    var texts := TokenTexts(c, op.newStart, op.newEnd);
    var sizes := ReplaceSizes(c, op.oldStart, op.oldEnd, texts);
    OutputOfFit(c, prev, op);
    FitShape(SpanStart(c, op), SpanEnd(c, op), texts, sizes, OpOutput(c, prev, op));
  }

  /**
   * `out` has one token per text, the first starting at `start`, each
   * lasting its size, each starting `pause` after the previous one ends,
   * the last ending no later than `end`.
   */
  predicate Paced(out: seq<Word>, texts: seq<seq<char>>, sizes: seq<nat>, start: nat, pause: nat, end: nat) {
    |out| == |texts| == |sizes| > 0 &&
    out[0].startMs == start &&
    (forall k :: 0 <= k < |out| ==> out[k].text == texts[k] && out[k].endMs == out[k].startMs + sizes[k]) &&
    (forall i, j :: 0 <= i < |out| && j == i + 1 && j < |out| ==> out[j].startMs == out[i].endMs + pause) &&
    out[|out| - 1].endMs <= end
  }

  /** A layout whose pauses share out the slack of the span `p0..end` is paced within the span. */
  lemma FitShape(p0: nat, end: nat, texts: seq<seq<char>>, sizes: seq<nat>, out: seq<Word>)
    requires |texts| == |sizes| >= 1 && p0 <= end && Sum(sizes) < end - p0
    requires out == Layout(p0, PauseLen(end - p0, Sum(sizes), |texts|), texts, sizes)
    ensures Paced(out, texts, sizes, p0, PauseLen(end - p0, Sum(sizes), |texts|), end)
  {
    var pause := PauseLen(end - p0, Sum(sizes), |texts|);
    LayoutShape(p0, pause, texts, sizes, out);
    FitLayout(p0, end - p0, texts, sizes, out);
    assert forall k :: 0 <= k < |out| ==> out[k].text == texts[k] && out[k].endMs == out[k].startMs + sizes[k];
    assert forall i, j :: 0 <= i < |out| && j == i + 1 && j < |out| ==> out[j].startMs == out[i].endMs + pause;
  }

  /** A layout with the slack shared out as pauses ends within the span. */
  lemma FitLayout(p0: nat, dur: nat, texts: seq<seq<char>>, sizes: seq<nat>, r: seq<Word>)
    requires |texts| == |sizes| >= 1 && Sum(sizes) < dur
    requires r == Layout(p0, PauseLen(dur, Sum(sizes), |texts|), texts, sizes)
    ensures r[|texts| - 1].endMs <= p0 + dur
  {
    LayoutLastEnd(p0, PauseLen(dur, Sum(sizes), |texts|), texts, sizes, r);
    PausesFit(dur, Sum(sizes), |texts|);
  }

  /** The pauses of a fitted Replace range add up to no more than the slack. */
  lemma PausesFit(dur: nat, total: nat, n: nat)
    requires 1 <= n && total < dur
    ensures total + (n - 1) * PauseLen(dur, total, n) <= dur
  {
    if n > 1 {
      var q := (dur - total) / (n - 1);
      assert (n - 1) * q <= dur - total;
    }
  }

  /**
   * A Replace range of unequal lengths whose sized tokens do not fit: a
   * single token spanning the transcript words of the range, whose text is
   * the script from the first token's start to the last token's end, with
   * every script token of the range in it at its own offset.
   */
  lemma MergeTiming(c: Context, prev: seq<Word>, op: Op)
    requires ValidContext(c) && Fits(c, op) && op.tag == Replace
    requires op.newEnd - op.newStart != op.oldEnd - op.oldStart
    requires Sum(ReplaceSizes(c, op.oldStart, op.oldEnd, TokenTexts(c, op.newStart, op.newEnd)))
             >= SpanEnd(c, op) - SpanStart(c, op)
    ensures var out := OpOutput(c, prev, op);
      var base := c.tokens[op.newStart].start;
      |out| == 1 &&
      out[0].startMs == c.words[op.oldStart].startMs &&
      out[0].endMs == c.words[op.oldEnd - 1].endMs &&
      out[0].startMs <= out[0].endMs &&
      base <= c.tokens[op.newEnd - 1].End() &&
      out[0].text == c.script[base..c.tokens[op.newEnd - 1].End()] &&
      forall k :: op.newStart <= k < op.newEnd ==>
        base <= c.tokens[k].start && c.tokens[k].End() <= c.tokens[op.newEnd - 1].End() &&
        out[0].text[c.tokens[k].start - base..c.tokens[k].End() - base] == TokenText(c, k)
  {
    assert ReplaceStrategy(c, op) == Merge;
    OutputOfMerge(c, prev, op);
    MergedOp(c, op, OpOutput(c, prev, op));
    SpanTimed(c, op);
  }

  /** The one token of a merge, stated in terms of the range's transcript words and script tokens. */
  lemma MergedOp(c: Context, op: Op, out: seq<Word>)
    requires ValidContext(c) && Fits(c, op) && op.newStart < op.newEnd && op.oldStart < op.oldEnd
    requires out == [Word(SpanStart(c, op), SpanEnd(c, op), MergedText(c, op.newStart, op.newEnd))]
    ensures var base := c.tokens[op.newStart].start;
      |out| == 1 &&
      out[0].startMs == c.words[op.oldStart].startMs &&
      out[0].endMs == c.words[op.oldEnd - 1].endMs &&
      base <= c.tokens[op.newEnd - 1].End() &&
      out[0].text == c.script[base..c.tokens[op.newEnd - 1].End()] &&
      forall k :: op.newStart <= k < op.newEnd ==>
        base <= c.tokens[k].start && c.tokens[k].End() <= c.tokens[op.newEnd - 1].End() &&
        out[0].text[c.tokens[k].start - base..c.tokens[k].End() - base] == TokenText(c, k)
  {
    MergedOutput(c, op.newStart, op.newEnd, out, SpanStart(c, op), SpanEnd(c, op));
  }

  /** The span of a Replace range has a duration. */
  lemma SpanTimed(c: Context, op: Op)
    requires ValidContext(c) && Fits(c, op) && op.oldStart < op.oldEnd
    ensures SpanStart(c, op) <= SpanEnd(c, op)
  {
    SpanOrdered(c.words, op.oldStart, op.oldEnd - 1);
  }

  /** The one token of a merge spans the script from the first token's start to the last token's end and holds every token in between. */
  lemma MergedOutput(c: Context, ns: nat, ne: nat, out: seq<Word>, t0: nat, t1: nat)
    requires ValidContext(c) && ns < ne <= |c.tokens| && out == [Word(t0, t1, MergedText(c, ns, ne))]
    ensures var base := c.tokens[ns].start;
      |out| == 1 && out[0].startMs == t0 && out[0].endMs == t1 &&
      base <= c.tokens[ne - 1].End() &&
      out[0].text == c.script[base..c.tokens[ne - 1].End()] &&
      forall k :: ns <= k < ne ==>
        base <= c.tokens[k].start && c.tokens[k].End() <= c.tokens[ne - 1].End() &&
        out[0].text[c.tokens[k].start - base..c.tokens[k].End() - base] == TokenText(c, k)
  {
    assert out[0].text == MergedText(c, ns, ne);
    MergedTextSpan(c, ns, ne, ns);
    forall k | ns <= k < ne
      ensures c.tokens[ns].start <= c.tokens[k].start && c.tokens[k].End() <= c.tokens[ne - 1].End()
      ensures out[0].text[c.tokens[k].start - c.tokens[ns].start..c.tokens[k].End() - c.tokens[ns].start]
              == TokenText(c, k)
    {
      MergedTextSpan(c, ns, ne, k);
    }
  }

  lemma MergedTextSpan(c: Context, ns: nat, ne: nat, k: nat)
    requires ValidContext(c) && ns <= k < ne <= |c.tokens|
    ensures var base := c.tokens[ns].start;
      var last := c.tokens[ne - 1].End();
      base <= c.tokens[k].start && c.tokens[k].End() <= last &&
      MergedText(c, ns, ne) == c.script[base..last] &&
      MergedText(c, ns, ne)[c.tokens[k].start - base..c.tokens[k].End() - base] == TokenText(c, k)
  {
    TokenBetween(c, ns, ne, k);
    assert MergedText(c, ns, ne) == c.script[c.tokens[ns].start..c.tokens[ne - 1].End()];
    SliceOfSlice(c.script, c.tokens[ns].start, c.tokens[k].start, c.tokens[k].End(), c.tokens[ne - 1].End(),
                 MergedText(c, ns, ne), TokenText(c, k));
  }

  /** Token `k` of tokens `ns .. ne - 1` lies between the first one's start and the last one's end. */
  lemma TokenBetween(c: Context, ns: nat, ne: nat, k: nat)
    requires ValidContext(c) && ns <= k < ne <= |c.tokens|
    ensures c.tokens[ns].start <= c.tokens[k].start && c.tokens[k].End() <= c.tokens[ne - 1].End()
    ensures c.tokens[ne - 1].End() <= |c.script|
  {
    if ns < k {
      InOrderSuffix(c.tokens, 0, ns);
      InOrderApart(c.tokens, ns, k);
    }
    if k < ne - 1 {
      InOrderSuffix(c.tokens, 0, k);
      InOrderApart(c.tokens, k, ne - 1);
    }
  }

  /** A slice of a slice is a slice of the whole. */
  lemma SliceOfSlice<T>(s: seq<T>, a: nat, b: nat, d: nat, e: nat, whole: seq<T>, part: seq<T>)
    requires a <= b <= d <= e <= |s| && whole == s[a..e] && part == s[b..d]
    ensures whole[b - a..d - a] == part
  {
    var inner := whole[b - a..d - a];
    forall i | 0 <= i < d - b
      ensures inner[i] == part[i]
    {
      assert inner[i] == whole[b - a + i] == s[b + i];
    }
  }

  /** Every token one range appends ends no earlier than it starts. */
  lemma OpDurations(c: Context, prev: seq<Word>, op: Op)
    requires ValidContext(c) && Fits(c, op)
    ensures Timed(OpOutput(c, prev, op))
  {
    var texts := TokenTexts(c, op.newStart, op.newEnd);
    if op.tag == Insert && LastAnchor(prev).Some? {
      OutputOfAnchoredInsert(c, prev, op, LastAnchor(prev).value);
      LayoutShape(LastAnchor(prev).value, c.wait, texts, InsertSizes(c, texts), OpOutput(c, prev, op));
    } else if op.tag == Replace && ReplaceStrategy(c, op) == Fit {
      var sizes := ReplaceSizes(c, op.oldStart, op.oldEnd, texts);
      OutputOfFit(c, prev, op);
      LayoutShape(SpanStart(c, op), PauseLen(SpanEnd(c, op) - SpanStart(c, op), Sum(sizes), |texts|), texts, sizes,
                  OpOutput(c, prev, op));
    } else if op.tag == Replace && ReplaceStrategy(c, op) == Merge {
      OutputOfMerge(c, prev, op);
      SpanOrdered(c.words, op.oldStart, op.oldEnd - 1);
    }
  }

  /** Every token ends no earlier than it starts. */
  predicate Timed(out: seq<Word>) {
    forall k :: 0 <= k < |out| ==> out[k].startMs <= out[k].endMs
  }

  lemma TimedConcat(a: seq<Word>, b: seq<Word>, ab: seq<Word>)
    requires Timed(a) && Timed(b) && ab == a + b
    ensures Timed(ab)
  {
    forall k | 0 <= k < |ab| ensures ab[k].startMs <= ab[k].endMs {
      if k >= |a| { assert ab[k] == b[k - |a|]; }
    }
  }

  /** Every output token ends no earlier than it starts. */
  lemma {:induction false} DurationsNonNegative(c: Context, ops: seq<Op>, j: nat)
    requires ValidContext(c) && AllFit(c, ops) && j <= |ops|
    ensures Timed(Assemble(c, ops, j))
    decreases j
  {
    if j > 0 {
      DurationsNonNegative(c, ops, j - 1);
      DurationsStep(c, ops, j);
    }
  }

  lemma DurationsStep(c: Context, ops: seq<Op>, j: nat)
    requires ValidContext(c) && AllFit(c, ops) && 0 < j <= |ops|
    requires Timed(Assemble(c, ops, j - 1))
    ensures Timed(Assemble(c, ops, j))
  {
    AssembleStep(c, ops, j);
    OpDurations(c, Assemble(c, ops, j - 1), ops[j - 1]);
    TimedConcat(Assemble(c, ops, j - 1), OpOutput(c, Assemble(c, ops, j - 1), ops[j - 1]), Assemble(c, ops, j));
  }

  /** No Replace range among the first `j` falls back to merging. */
  predicate NoMerge(c: Context, ops: seq<Op>, j: nat)
    requires ValidContext(c) && AllFit(c, ops) && j <= |ops|
  {
    forall i :: 0 <= i < j && ops[i].tag == Replace ==> ReplaceStrategy(c, ops[i]) != Merge
  }

  /** Token `k` of `out` has the text of script token `from + k`. */
  predicate SpellsTokens(c: Context, out: seq<Word>, from: nat)
    requires ValidContext(c) && from + |out| <= |c.tokens|
  {
    forall k :: 0 <= k < |out| ==> out[k].text == TokenText(c, from + k)
  }

  lemma SpellsConcat(c: Context, a: seq<Word>, b: seq<Word>, ab: seq<Word>, from: nat)
    requires ValidContext(c) && from + |a| + |b| <= |c.tokens| && ab == a + b
    requires SpellsTokens(c, a, from) && SpellsTokens(c, b, from + |a|)
    ensures |ab| == |a| + |b| && SpellsTokens(c, ab, from)
  {
    forall k | 0 <= k < |ab| ensures ab[k].text == TokenText(c, from + k) {
      if k >= |a| { assert ab[k] == b[k - |a|]; }
    }
  }

  /** Unless a Replace range merges, a range appends one token per script token, with that token's text. */
  lemma OpTexts(c: Context, prev: seq<Word>, op: Op)
    requires ValidContext(c) && Fits(c, op)
    requires op.tag == Replace ==> ReplaceStrategy(c, op) != Merge
    ensures |OpOutput(c, prev, op)| == op.newEnd - op.newStart
    ensures SpellsTokens(c, OpOutput(c, prev, op), op.newStart)
  {
    var texts := TokenTexts(c, op.newStart, op.newEnd);
    var n := op.newEnd - op.newStart;
    if op.tag == Equal || (op.tag == Replace && n == op.oldEnd - op.oldStart) {
      OutputOfPassthrough(c, prev, op);
      PassthroughSpells(c, op.oldStart, op.newStart, n, OpOutput(c, prev, op));
    } else if op.tag == Insert {
      match LastAnchor(prev)
      case Some(t) =>
        OutputOfAnchoredInsert(c, prev, op, t);
        LayoutSpells(c, op.newStart, op.newEnd, OpOutput(c, prev, op), t, c.wait, InsertSizes(c, texts));
      case None =>
        assert OpOutput(c, prev, op) == Unknown(texts);
        UnknownSpells(c, op.newStart, op.newEnd, OpOutput(c, prev, op));
    } else if op.tag == Replace {
      assert ReplaceStrategy(c, op) == Fit;
      var sizes := ReplaceSizes(c, op.oldStart, op.oldEnd, texts);
      OutputOfFit(c, prev, op);
      LayoutSpells(c, op.newStart, op.newEnd, OpOutput(c, prev, op),
                   SpanStart(c, op), PauseLen(SpanEnd(c, op) - SpanStart(c, op), Sum(sizes), |texts|), sizes);
    } else {
      assert OpOutput(c, prev, op) == [];
    }
  }

  lemma PassthroughSpells(c: Context, os: nat, ns: nat, n: nat, out: seq<Word>)
    requires ValidContext(c) && os + n <= |c.words| && ns + n <= |c.tokens| && out == Passthrough(c, os, ns, n)
    ensures |out| == n && SpellsTokens(c, out, ns)
  {
  }

  lemma UnknownSpells(c: Context, ns: nat, ne: nat, out: seq<Word>)
    requires ValidContext(c) && ns <= ne <= |c.tokens| && out == Unknown(TokenTexts(c, ns, ne))
    ensures |out| == ne - ns && SpellsTokens(c, out, ns)
  {
  }

  lemma LayoutSpells(c: Context, ns: nat, ne: nat, out: seq<Word>, p0: nat, gap: nat, sizes: seq<nat>)
    requires ValidContext(c) && ns <= ne <= |c.tokens| && |sizes| == ne - ns
    requires out == Layout(p0, gap, TokenTexts(c, ns, ne), sizes)
    ensures |out| == ne - ns && SpellsTokens(c, out, ns)
  {
    LayoutShape(p0, gap, TokenTexts(c, ns, ne), sizes, out);
  }

  /** The script index where range `j` starts: the end of the previous range. */
  function NewCursor(ops: seq<Op>, j: nat): nat
    requires j <= |ops|
  {
    if j == 0 then 0 else ops[j - 1].newEnd
  }

  lemma {:induction false} AssembleFollowsScript(c: Context, ops: seq<Op>, j: nat)
    requires ValidContext(c) && Partition(ops, |c.words|, |c.tokens|) && AllFit(c, ops) && j <= |ops|
    requires NoMerge(c, ops, j)
    ensures NewCursor(ops, j) <= |c.tokens|
    ensures |Assemble(c, ops, j)| == NewCursor(ops, j)
    ensures SpellsTokens(c, Assemble(c, ops, j), 0)
    decreases j
  {
    if j > 0 {
      AssembleFollowsScript(c, ops, j - 1);
      FollowsStep(c, ops, j);
    }
  }

  lemma FollowsStep(c: Context, ops: seq<Op>, j: nat)
    requires ValidContext(c) && Partition(ops, |c.words|, |c.tokens|) && AllFit(c, ops) && 0 < j <= |ops|
    requires NoMerge(c, ops, j)
    requires NewCursor(ops, j - 1) <= |c.tokens| && |Assemble(c, ops, j - 1)| == NewCursor(ops, j - 1)
    requires SpellsTokens(c, Assemble(c, ops, j - 1), 0)
    ensures NewCursor(ops, j) <= |c.tokens|
    ensures |Assemble(c, ops, j)| == NewCursor(ops, j)
    ensures SpellsTokens(c, Assemble(c, ops, j), 0)
  {
    var op := ops[j - 1];
    assert Fits(c, op);
    assert op.newStart == NewCursor(ops, j - 1);
    AssembleStep(c, ops, j);
    OpTexts(c, Assemble(c, ops, j - 1), op);
    SpellsConcat(c, Assemble(c, ops, j - 1), OpOutput(c, Assemble(c, ops, j - 1), op), Assemble(c, ops, j), 0);
  }

  /**
   * When no Replace range merges, the output is the script token by token:
   * as many tokens as the script has, each with its script token's text.
   */
  lemma OutputFollowsScript(c: Context, ops: seq<Op>)
    requires ValidContext(c) && Partition(ops, |c.words|, |c.tokens|) && AllFit(c, ops)
    requires NoMerge(c, ops, |ops|)
    ensures |Assemble(c, ops, |ops|)| == |c.tokens|
    ensures forall k :: 0 <= k < |c.tokens| ==> Assemble(c, ops, |ops|)[k].text == TokenText(c, k)
  {
    AssembleFollowsScript(c, ops, |ops|);
    assert ops != [] ==> ops[|ops| - 1].newEnd == |c.tokens|;
  }
}
