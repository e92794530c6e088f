/**
 * `match_timestamps_to_script`: gives a start and end time to every token
 * of the script, walking the differ's ranges in order and appending to
 * the output.
 *
 * The differ is an external library; its ranges are an input here, under
 * the contract it provides. The floating-point speaking rates are
 * abstracted as two sizing functions that say how many milliseconds a
 * token is given: `insertSize` (the transcript's global rate) and
 * `replaceSize` (the local rate of the transcript words a Replace range
 * covers).
 */
module Alignment {
  import opened Options
  import opened Tokenizer
  import opened Transcript

  datatype Tag = Equal | Delete | Insert | Replace

  /** A range of the diff: transcript words `oldStart..oldEnd` against script tokens `newStart..newEnd`. */
  datatype Op = Op(tag: Tag, oldStart: nat, oldEnd: nat, newStart: nat, newEnd: nat)

  /**
   * The shape each kind of range has in the differ's output: an Equal range
   * has two ranges of one length, a Delete range an empty script range, an
   * Insert range an empty transcript range, a Replace range two non-empty ranges.
   */
  predicate WellShapedOp(op: Op) {
    op.oldStart <= op.oldEnd && op.newStart <= op.newEnd &&
    match op.tag
    case Equal => op.oldEnd - op.oldStart == op.newEnd - op.newStart
    case Delete => op.newStart == op.newEnd
    case Insert => op.oldStart == op.oldEnd
    case Replace => op.oldStart < op.oldEnd && op.newStart < op.newEnd
  }

  /** The ranges cover `0..oldCount` and `0..newCount` contiguously and in order. */
  predicate Partition(ops: seq<Op>, oldCount: nat, newCount: nat) {
    (forall j :: 0 <= j < |ops| ==> WellShapedOp(ops[j])) &&
    (forall j :: 0 < j < |ops| ==> ops[j].oldStart == ops[j - 1].oldEnd && ops[j].newStart == ops[j - 1].newEnd) &&
    if ops == [] then oldCount == 0 && newCount == 0
    else ops[0].oldStart == 0 && ops[0].newStart == 0 &&
         ops[|ops| - 1].oldEnd == oldCount && ops[|ops| - 1].newEnd == newCount
  }

  /** What the timing of every range depends on besides the output so far. */
  datatype Context = Context(
    words: seq<Word>,
    script: seq<char>,
    tokens: seq<Span>,
    wait: nat,
    insertSize: seq<char> -> nat,
    replaceSize: (seq<Word>, seq<char>) -> nat)

  predicate ValidContext(c: Context) {
    WellTimed(c.words) && NoNegativeGaps(c.words) && Within(c.script, c.tokens) && InOrderFrom(c.tokens, 0)
  }

  /** The range is well shaped and indexes existing words and tokens. */
  predicate Fits(c: Context, op: Op) {
    WellShapedOp(op) && op.oldEnd <= |c.words| && op.newEnd <= |c.tokens|
  }

  predicate AllFit(c: Context, ops: seq<Op>) {
    forall j :: 0 <= j < |ops| ==> Fits(c, ops[j])
  }

  function TokenText(c: Context, k: nat): seq<char>
    requires ValidContext(c) && k < |c.tokens|
  {
    Text(c.script, c.tokens[k])
  }

  /** The texts of tokens `ns..ne`. */
  function TokenTexts(c: Context, ns: nat, ne: nat): (r: seq<seq<char>>)
    requires ValidContext(c) && ns <= ne <= |c.tokens|
    ensures |r| == ne - ns
    ensures forall k :: 0 <= k < ne - ns ==> r[k] == TokenText(c, ns + k)
  {
    seq(ne - ns, k requires 0 <= k < ne - ns => TokenText(c, ns + k))
  }

  /** The end time of the last token emitted so far whose end time is not 0. */
  function LastAnchor(out: seq<Word>): (r: Option<nat>)
    ensures r.None? <==> forall i :: 0 <= i < |out| ==> out[i].endMs == 0
    ensures r.Some? ==> (r.value != 0 &&
      exists i :: 0 <= i < |out| && out[i].endMs == r.value && forall j :: i < j < |out| ==> out[j].endMs == 0)
    decreases |out|
  {
    if out == [] then None
    else if out[|out| - 1].endMs != 0 then Some(out[|out| - 1].endMs)
    else LastAnchor(out[..|out| - 1])
  }

  /** Transcript timing with script text, position by position (Equal, and Replace of equal lengths). */
  function Passthrough(c: Context, os: nat, ns: nat, n: nat): seq<Word>
    requires ValidContext(c) && os + n <= |c.words| && ns + n <= |c.tokens|
  {
    seq(n, k requires 0 <= k < n => Word(c.words[os + k].startMs, c.words[os + k].endMs, TokenText(c, ns + k)))
  }

  /** Every text with the "timing unknown" timestamps (0, 0). */
  function Unknown(texts: seq<seq<char>>): seq<Word> {
    seq(|texts|, k requires 0 <= k < |texts| => Word(0, 0, texts[k]))
  }

  /** Where token `k` of a sequential layout from `p0` starts: after the previous token and one gap. */
  function StartAt(p0: nat, gap: nat, sizes: seq<nat>, k: nat): nat
    requires k < |sizes|
    decreases k
  {
    if k == 0 then p0 else StartAt(p0, gap, sizes, k - 1) + sizes[k - 1] + gap
  }

  /** Tokens laid out one after another from `p0`, token `k` lasting `sizes[k]`, with `gap` between tokens. */
  function Layout(p0: nat, gap: nat, texts: seq<seq<char>>, sizes: seq<nat>): seq<Word>
    requires |texts| == |sizes|
  {
    seq(|texts|, k requires 0 <= k < |texts| =>
      Word(StartAt(p0, gap, sizes, k), StartAt(p0, gap, sizes, k) + sizes[k], texts[k]))
  }

  function InsertSizes(c: Context, texts: seq<seq<char>>): (r: seq<nat>)
    ensures |r| == |texts|
  {
    var f := c.insertSize;
    var sizes: seq<nat> := seq(|texts|, k requires 0 <= k < |texts| => f(texts[k]));
    sizes
  }

  function ReplaceSizes(c: Context, os: nat, oe: nat, texts: seq<seq<char>>): (r: seq<nat>)
    requires os <= oe <= |c.words|
    ensures |r| == |texts|
  {
    var sizes: seq<nat> := seq(|texts|, k requires 0 <= k < |texts| => c.replaceSize(c.words[os..oe], texts[k]));
    sizes
  }

  /** The total of the token sizes of a range. */
  function Sum(xs: seq<nat>): nat {
    if xs == [] then 0 else Sum(xs[..|xs| - 1]) + xs[|xs| - 1]
  }

  /** The pause between the tokens of a Replace range the sized tokens fit into. */
  function PauseLen(dur: nat, total: nat, n: nat): nat
    requires 1 <= n && total < dur
  {
    if n - 1 == 0 then 0 else (dur - total) / (n - 1)
  }

  /** Start of the first and end of the last transcript word of a Replace range. */
  function SpanStart(c: Context, op: Op): nat
    requires Fits(c, op) && op.oldStart < op.oldEnd
  {
    c.words[op.oldStart].startMs
  }

  function SpanEnd(c: Context, op: Op): nat
    requires Fits(c, op) && op.oldStart < op.oldEnd
  {
    c.words[op.oldEnd - 1].endMs
  }

  /** The script from the start of token `ns` to the end of token `ne - 1`, whitespace included. */
  function MergedText(c: Context, ns: nat, ne: nat): seq<char>
    requires ValidContext(c) && ns < ne <= |c.tokens|
  {
    assert ns < ne - 1 ==> c.tokens[ns].End() <= c.tokens[ne - 1].start by {
      if ns < ne - 1 {
        InOrderSuffix(c.tokens, 0, ns);
        InOrderApart(c.tokens, ns, ne - 1);
      }
    }
    c.script[c.tokens[ns].start..c.tokens[ne - 1].End()]
  }

  /** How a Replace range of unequal lengths is timed. */
  datatype Strategy = Positional | Fit | Merge

  function ReplaceStrategy(c: Context, op: Op): Strategy
    requires ValidContext(c) && Fits(c, op) && op.tag == Replace
  {
    if op.newEnd - op.newStart == op.oldEnd - op.oldStart then Positional
    else if Sum(ReplaceSizes(c, op.oldStart, op.oldEnd, TokenTexts(c, op.newStart, op.newEnd)))
            < SpanEnd(c, op) - SpanStart(c, op) then Fit
    else Merge
  }

  /** The tokens one range appends, given the tokens emitted before it. */
  function OpOutput(c: Context, prev: seq<Word>, op: Op): seq<Word>
    requires ValidContext(c) && Fits(c, op)
  {
    var texts := TokenTexts(c, op.newStart, op.newEnd);
    match op.tag
    case Equal => Passthrough(c, op.oldStart, op.newStart, op.newEnd - op.newStart)
    case Delete => []
    case Insert =>
      (match LastAnchor(prev)
       case Some(t) => Layout(t, c.wait, texts, InsertSizes(c, texts))
       case None => Unknown(texts))
    case Replace =>
      (match ReplaceStrategy(c, op)
       case Positional => Passthrough(c, op.oldStart, op.newStart, op.newEnd - op.newStart)
       case Fit =>
         var sizes := ReplaceSizes(c, op.oldStart, op.oldEnd, texts);
         Layout(SpanStart(c, op), PauseLen(SpanEnd(c, op) - SpanStart(c, op), Sum(sizes), |texts|), texts, sizes)
       case Merge => [Word(SpanStart(c, op), SpanEnd(c, op), MergedText(c, op.newStart, op.newEnd))])
  }

  /** The output after the first `j` ranges. */
  function Assemble(c: Context, ops: seq<Op>, j: nat): seq<Word>
    requires ValidContext(c) && AllFit(c, ops) && j <= |ops|
    decreases j, 0
  {
    if j == 0 then [] else Assemble(c, ops, j - 1) + Chunk(c, ops, j - 1)
  }

  /** The tokens range `k` appends, timed given the output of the ranges before it. */
  function Chunk(c: Context, ops: seq<Op>, k: nat): seq<Word>
    requires ValidContext(c) && AllFit(c, ops) && k < |ops|
    decreases k, 1
  {
    OpOutput(c, Assemble(c, ops, k), ops[k])
  }

  /** Range `j - 1` appends its tokens to the output after the first `j - 1` ranges. */
  lemma AssembleStep(c: Context, ops: seq<Op>, j: nat)
    requires ValidContext(c) && AllFit(c, ops) && 0 < j <= |ops|
    ensures Assemble(c, ops, j) == Assemble(c, ops, j - 1) + OpOutput(c, Assemble(c, ops, j - 1), ops[j - 1])
  {
    var prev := Assemble(c, ops, j - 1);
    var chunk := Chunk(c, ops, j - 1);
    assert chunk == OpOutput(c, prev, ops[j - 1]);
    assert Assemble(c, ops, j) == prev + chunk;
  }

  /** The tokens of an Insert range with an anchor at `t`. */
  lemma OutputOfAnchoredInsert(c: Context, prev: seq<Word>, op: Op, t: nat)
    requires ValidContext(c) && Fits(c, op) && op.tag == Insert && LastAnchor(prev) == Some(t)
    ensures var texts := TokenTexts(c, op.newStart, op.newEnd);
      OpOutput(c, prev, op) == Layout(t, c.wait, texts, InsertSizes(c, texts))
  {
  }

  /** The tokens of a Replace range that fits its sized tokens into the span. */
  lemma OutputOfFit(c: Context, prev: seq<Word>, op: Op)
    requires ValidContext(c) && Fits(c, op) && op.tag == Replace && ReplaceStrategy(c, op) == Fit
    ensures var texts := TokenTexts(c, op.newStart, op.newEnd);
      var sizes := ReplaceSizes(c, op.oldStart, op.oldEnd, texts);
      OpOutput(c, prev, op) == Layout(SpanStart(c, op), PauseLen(SpanEnd(c, op) - SpanStart(c, op), Sum(sizes), |texts|), texts, sizes)
  {
  }

  /** The token of a Replace range that merges. */
  lemma OutputOfMerge(c: Context, prev: seq<Word>, op: Op)
    requires ValidContext(c) && Fits(c, op) && op.tag == Replace && ReplaceStrategy(c, op) == Merge
    ensures OpOutput(c, prev, op) == [Word(SpanStart(c, op), SpanEnd(c, op), MergedText(c, op.newStart, op.newEnd))]
  {
  }

  /** The tokens of an Equal range or of a Replace range of equal lengths. */
  lemma OutputOfPassthrough(c: Context, prev: seq<Word>, op: Op)
    requires ValidContext(c) && Fits(c, op)
    requires op.tag == Equal || (op.tag == Replace && op.newEnd - op.newStart == op.oldEnd - op.oldStart)
    ensures OpOutput(c, prev, op) == Passthrough(c, op.oldStart, op.newStart, op.newEnd - op.newStart)
  {
    var p := Passthrough(c, op.oldStart, op.newStart, op.newEnd - op.newStart);
    if op.tag == Replace {
      assert ReplaceStrategy(c, op) == Positional;
    }
    assert OpOutput(c, prev, op) == p;
  }

  /** Pushing element `i` of `p` extends the pushed prefix of `p` by one. */
  lemma PushStep<T>(matched: seq<T>, p: seq<T>, i: nat, out: seq<T>, x: T)
    requires i < |p| && out == matched + p[..i] && p[i] == x
    ensures out + [x] == matched + p[..i + 1]
  {
    assert p[..i + 1] == p[..i] + [x];
  }

  /** Pushes, position by position, transcript timing with script text. */
  method PushPassthrough(c: Context, matched: seq<Word>, os: nat, ns: nat, n: nat) returns (out: seq<Word>)
    requires ValidContext(c) && os + n <= |c.words| && ns + n <= |c.tokens|
    ensures out == matched + Passthrough(c, os, ns, n)
  {
    out := matched;
    for i := 0 to n
      invariant out == matched + Passthrough(c, os, ns, n)[..i]
    {
      var w := c.words[os + i];
      var x := Word(w.startMs, w.endMs, TokenText(c, ns + i));
      PushStep(matched, Passthrough(c, os, ns, n), i, out, x);
      out := out + [x];
    }
  }

  /** Pushes every text with the timing-unknown timestamps (0, 0). */
  method PushUnknown(matched: seq<Word>, texts: seq<seq<char>>) returns (out: seq<Word>)
    ensures out == matched + Unknown(texts)
  {
    out := matched;
    for i := 0 to |texts|
      invariant out == matched + Unknown(texts)[..i]
    {
      PushStep(matched, Unknown(texts), i, out, Word(0, 0, texts[i]));
      out := out + [Word(0, 0, texts[i])];
    }
  }

  /** Pushes the texts one after another from `p0`: a gap before every token but the first, then its size. */
  method PushLayout(matched: seq<Word>, p0: nat, gap: nat, texts: seq<seq<char>>, sizes: seq<nat>)
    returns (out: seq<Word>)
    requires |texts| == |sizes|
    ensures out == matched + Layout(p0, gap, texts, sizes)
  {
    out := matched;
    var pos := p0;
    for i := 0 to |texts|
      invariant out == matched + Layout(p0, gap, texts, sizes)[..i]
      invariant i == 0 ==> pos == p0
      invariant 0 < i ==> pos == StartAt(p0, gap, sizes, i - 1) + sizes[i - 1]
    {
      if i > 0 {
        pos := pos + gap;
      }
      var length := sizes[i];
      var end := pos + length;
      PushStep(matched, Layout(p0, gap, texts, sizes), i, out, Word(pos, end, texts[i]));
      out := out + [Word(pos, end, texts[i])];
      pos := pos + length;
    }
  }

  lemma {:induction false} PartitionEndsGrow(ops: seq<Op>, oldCount: nat, newCount: nat, j: nat, k: nat)
    requires Partition(ops, oldCount, newCount) && j <= k < |ops|
    ensures ops[j].oldEnd <= ops[k].oldEnd && ops[j].newEnd <= ops[k].newEnd
    decreases k - j
  {
    if j < k {
      PartitionEndsGrow(ops, oldCount, newCount, j + 1, k);
      assert WellShapedOp(ops[j + 1]);
    }
  }

  /** A partition of the words and tokens only indexes existing words and tokens. */
  lemma PartitionFits(c: Context, ops: seq<Op>)
    requires Partition(ops, |c.words|, |c.tokens|)
    ensures AllFit(c, ops)
  {
    forall j | 0 <= j < |ops| ensures Fits(c, ops[j]) {
      PartitionEndsGrow(ops, |c.words|, |c.tokens|, j, |ops| - 1);
    }
  }

  /** One range of the diff: the `match op.tag` arm for its kind. */
  method PushOp(c: Context, matched: seq<Word>, op: Op) returns (out: seq<Word>)
    requires ValidContext(c) && Fits(c, op)
    ensures out == matched + OpOutput(c, matched, op)
  {
    match op.tag {
      case Equal =>
        out := PushPassthrough(c, matched, op.oldStart, op.newStart, op.newEnd - op.newStart);
      case Delete =>
        out := matched;
      case Insert =>
        var texts := TokenTexts(c, op.newStart, op.newEnd);
        var lastTime := LastAnchor(matched);
        match lastTime {
          case Some(t) =>
            out := PushLayout(matched, t, c.wait, texts, InsertSizes(c, texts));
          case None =>
            out := PushUnknown(matched, texts);
        }
      case Replace =>
        out := PushReplace(c, matched, op);
    }
  }

  /** A Replace range: positional when the lengths agree, else fitted into the span, else merged. */
  method PushReplace(c: Context, matched: seq<Word>, op: Op) returns (out: seq<Word>)
    requires ValidContext(c) && Fits(c, op) && op.tag == Replace
    ensures out == matched + OpOutput(c, matched, op)
  {
    if op.newEnd - op.newStart == op.oldEnd - op.oldStart {
      OutputOfPassthrough(c, matched, op);
      out := PushPassthrough(c, matched, op.oldStart, op.newStart, op.newEnd - op.newStart);
      return;
    }
    var start := c.words[op.oldStart].startMs;
    var end := c.words[op.oldEnd - 1].endMs;
    SpanOrdered(c.words, op.oldStart, op.oldEnd - 1);
    var dur := end - start;
    var texts := TokenTexts(c, op.newStart, op.newEnd);
    var lengths := ReplaceSizes(c, op.oldStart, op.oldEnd, texts);
    var totalLength := Sum(lengths);
    if totalLength < dur {
      var pauseCount := |texts| - 1;
      var pauseLen := if pauseCount == 0 then 0 else (dur - totalLength) / pauseCount;
      assert ReplaceStrategy(c, op) == Fit;
      OutputOfFit(c, matched, op);
      out := PushLayout(matched, start, pauseLen, texts, lengths);
      return;
    }
    var first := c.tokens[op.newStart];
    var last := c.tokens[op.newEnd - 1];
    var scriptStart := SubstrPos(|c.script|, first.start).value;
    var scriptEnd := SubstrPos(|c.script|, last.start).value + last.len;
    assert scriptStart <= scriptEnd by {
      if op.newStart < op.newEnd - 1 {
        InOrderSuffix(c.tokens, 0, op.newStart);
        InOrderApart(c.tokens, op.newStart, op.newEnd - 1);
      }
    }
    assert ReplaceStrategy(c, op) == Merge;
    OutputOfMerge(c, matched, op);
    out := matched + [Word(start, end, c.script[scriptStart..scriptEnd])];
  }

  /**
   * The alignment pass: tokenize the script, compute the average pause,
   * then append the tokens of every range of the diff, in order.
   */
  method MatchTimestampsToScript(words: seq<Word>, script: seq<char>, ops: seq<Op>,
                                 insertSize: seq<char> -> nat, replaceSize: (seq<Word>, seq<char>) -> nat)
    returns (matched: seq<Word>)
    requires WellTimed(words) && NoNegativeGaps(words)
    requires Partition(ops, |words|, |Tokens(script)|)
    ensures ValidContext(Context(words, script, Tokens(script), AveragePause(words), insertSize, replaceSize))
    ensures AllFit(Context(words, script, Tokens(script), AveragePause(words), insertSize, replaceSize), ops)
    ensures matched == Assemble(Context(words, script, Tokens(script), AveragePause(words), insertSize, replaceSize), ops, |ops|)
  {
    var scriptWords := Split(script);
    var averageWait := AverageWait(words);
    var c := Context(words, script, scriptWords, averageWait, insertSize, replaceSize);
    OrderedInOrder(scriptWords, 0);
    PartitionFits(c, ops);
    matched := [];
    for j := 0 to |ops|
      invariant matched == Assemble(c, ops, j)
    {
      matched := PushOp(c, matched, ops[j]);
      AssembleStep(c, ops, j + 1);
    }
  }
}
