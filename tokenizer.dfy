/**
 * The script tokenizer (`split`) and the offset lookup (`substr_pos`).
 *
 * A token is recorded by its start offset and its length in the script, so
 * that the merge fallback can recover an exact substring of the script by
 * offset arithmetic. Offsets count characters of the script.
 */
module Tokenizer {
  import opened Options

  /** Rust's `char::is_whitespace`: the Unicode White_Space property. */
  predicate IsWhitespace(c: char) {
    c == '\t' || c == '\n' || c == '\U{0B}' || c == '\U{0C}' || c == '\r' || c == ' '
    || c == '\U{85}' || c == '\U{A0}' || c == '\U{1680}'
    || c == '\U{2000}' || c == '\U{2001}' || c == '\U{2002}' || c == '\U{2003}' || c == '\U{2004}'
    || c == '\U{2005}' || c == '\U{2006}' || c == '\U{2007}' || c == '\U{2008}' || c == '\U{2009}'
    || c == '\U{200A}' || c == '\U{2028}' || c == '\U{2029}' || c == '\U{202F}' || c == '\U{205F}'
    || c == '\U{3000}'
  }

  /** No whitespace character lies in `s[i..j]`. */
  predicate NoWhitespace(s: seq<char>, i: nat, j: nat)
    requires i <= j <= |s|
    decreases j - i
  {
    i == j || (!IsWhitespace(s[i]) && NoWhitespace(s, i + 1, j))
  }

  /** A token of the script: `len` characters starting at offset `start`. */
  datatype Span = Span(start: nat, len: nat) {
    function End(): nat { start + len }
  }

  /** The characters of the script that token `t` stands for. */
  function Text(s: seq<char>, t: Span): seq<char>
    requires t.End() <= |s|
  {
    s[t.start..t.End()]
  }

  /** `t` is the line-break token: exactly one `'\n'`. */
  predicate IsLineBreak(s: seq<char>, t: Span)
    requires t.End() <= |s|
  {
    t.len == 1 && s[t.start] == '\n'
  }

  /** A token is either a line break or a non-empty run without whitespace. */
  predicate Shaped(s: seq<char>, t: Span) {
    t.End() <= |s| && t.len > 0 &&
    (IsLineBreak(s, t) || NoWhitespace(s, t.start, t.End()))
  }

  /** Every token lies inside the script. */
  predicate Within(s: seq<char>, toks: seq<Span>) {
    forall i :: 0 <= i < |toks| ==> toks[i].End() <= |s|
  }

  /** Tokens appear left to right and do not overlap. */
  predicate Ordered(toks: seq<Span>) {
    forall i, j :: 0 <= i < j < |toks| ==> toks[i].End() <= toks[j].start
  }

  /** From token `i` on, each token ends no later than the next one starts. */
  predicate InOrderFrom(toks: seq<Span>, i: nat)
    requires i <= |toks|
    decreases |toks| - i
  {
    i + 1 >= |toks| || (toks[i].End() <= toks[i + 1].start && InOrderFrom(toks, i + 1))
  }

  lemma {:induction false} OrderedInOrder(toks: seq<Span>, i: nat)
    requires Ordered(toks) && i <= |toks|
    ensures InOrderFrom(toks, i)
    decreases |toks| - i
  {
    if i + 1 < |toks| {
      OrderedInOrder(toks, i + 1);
    }
  }

  lemma {:induction false} InOrderSuffix(toks: seq<Span>, i: nat, k: nat)
    requires i <= k <= |toks| && InOrderFrom(toks, i)
    ensures InOrderFrom(toks, k)
    decreases k - i
  {
    if i < k {
      InOrderSuffix(toks, i + 1, k);
    }
  }

  /** Neighbour by neighbour order is order: token `i` ends no later than any later token starts. */
  lemma {:induction false} InOrderApart(toks: seq<Span>, i: nat, j: nat)
    requires i < j < |toks| && InOrderFrom(toks, i)
    ensures toks[i].End() <= toks[j].start
    decreases j - i
  {
    if i + 1 < j {
      InOrderApart(toks, i + 1, j);
    }
  }

  predicate WellFormed(s: seq<char>, toks: seq<Span>) {
    (forall i :: 0 <= i < |toks| ==> Shaped(s, toks[i])) && Ordered(toks)
  }

  /** The offset of the first whitespace character at or after `from`, if there is one. */
  function FindWhitespace(s: seq<char>, from: nat): (r: Option<nat>)
    requires from <= |s|
    ensures r.Some? ==> from <= r.value < |s|
    decreases |s| - from
  {
    if from == |s| then None
    else if IsWhitespace(s[from]) then Some(from)
    else FindWhitespace(s, from + 1)
  }

  /** The search stops at the first whitespace character, or finds none when there is none. */
  lemma {:induction false} FindWhitespaceFinds(s: seq<char>, from: nat)
    requires from <= |s|
    ensures var r := FindWhitespace(s, from);
      (r.Some? ==> IsWhitespace(s[r.value]) && NoWhitespace(s, from, r.value)) &&
      (r.None? ==> NoWhitespace(s, from, |s|))
    decreases |s| - from
  {
    if from < |s| && !IsWhitespace(s[from]) {
      FindWhitespaceFinds(s, from + 1);
    }
  }

  /** The tokens `split` produces from offset `pos` on. */
  function SplitFrom(s: seq<char>, pos: nat): seq<Span>
    requires pos <= |s|
    decreases |s| - pos
  {
    if pos == |s| then []
    else match FindWhitespace(s, pos)
      case None => [Span(pos, |s| - pos)]
      case Some(q) => Head(s, pos, q) + SplitFrom(s, q + 1)
  }

  /** What one step of `split` pushes when the next whitespace is at `q`. */
  function Head(s: seq<char>, pos: nat, q: nat): seq<Span>
    requires pos <= q < |s|
  {
    Run(pos, q) + Break(s, q)
  }

  /** The run before the whitespace, if it is not empty. */
  function Run(pos: nat, q: nat): seq<Span>
    requires pos <= q
  {
    if q > pos then [Span(pos, q - pos)] else []
  }

  /** The whitespace character itself, if it is a line break. */
  function Break(s: seq<char>, q: nat): seq<Span>
    requires q < |s|
  {
    if s[q] == '\n' then [Span(q, 1)] else []
  }

  /** The tokens of the whole script. */
  function Tokens(s: seq<char>): seq<Span> {
    SplitFrom(s, 0)
  }

  /**
   * `split`: a pass over the script that pushes each non-empty run of
   * non-whitespace characters, and each line break on its own, and skips
   * every other whitespace character.
   */
  method Split(s: seq<char>) returns (toks: seq<Span>)
    ensures toks == Tokens(s)
    ensures WellFormed(s, toks)
  {
    toks := [];
    var pos := 0;
    while pos < |s|
      invariant pos <= |s|
      invariant toks + SplitFrom(s, pos) == Tokens(s)
      decreases |s| - pos
    {
      var space := FindWhitespace(s, pos);
      match space {
        case None =>
          toks := toks + [Span(pos, |s| - pos)];
          SplitWellFormed(s);
          return;
        case Some(q) =>
          ghost var before := toks;
          if q > pos {
            toks := toks + [Span(pos, q - pos)];
          }
          assert toks == before + Run(pos, q);
          ghost var mid := toks;
          if s[q] == '\n' {
            toks := toks + [Span(q, 1)];
          }
          assert toks == mid + Break(s, q);
          AppendAssoc(before, Run(pos, q), Break(s, q));
          SplitLoopStep(s, pos, q, before, toks);
          pos := q + 1;
      }
    }
    SplitWellFormed(s);
  }

  /** The loop of `split` keeps `toks` followed by the rest of the split equal to the whole split. */
  lemma SplitLoopStep(s: seq<char>, pos: nat, q: nat, before: seq<Span>, toks: seq<Span>)
    requires pos < |s| && FindWhitespace(s, pos) == Some(q)
    requires before + SplitFrom(s, pos) == Tokens(s) && toks == before + Head(s, pos, q)
    ensures toks + SplitFrom(s, q + 1) == Tokens(s)
  {
    SplitFromStep(s, pos, q);
    AppendAssoc(before, Head(s, pos, q), SplitFrom(s, q + 1));
  }

  /** No whitespace remains: the rest of the script is one token. */
  lemma SplitFromLast(s: seq<char>, pos: nat)
    requires pos < |s| && FindWhitespace(s, pos).None?
    ensures SplitFrom(s, pos) == [Span(pos, |s| - pos)]
  {
    var last := [Span(pos, |s| - pos)];
    assert pos != |s|;
    assert SplitFrom(s, pos) == last;
  }

  /** One step of the recursion: the next whitespace is at `q`. */
  lemma SplitFromStep(s: seq<char>, pos: nat, q: nat)
    requires pos < |s| && FindWhitespace(s, pos) == Some(q)
    ensures SplitFrom(s, pos) == Head(s, pos, q) + SplitFrom(s, q + 1)
  {
    var h := Head(s, pos, q);
    var tail := SplitFrom(s, q + 1);
    assert pos != |s|;
    assert SplitFrom(s, pos) == h + tail;
  }

  lemma SliceSplit<T>(s: seq<T>, i: nat, j: nat)
    requires i <= j <= |s|
    ensures s[i..] == s[i..j] + s[j..]
  {
  }

  lemma AppendAssoc<T>(a: seq<T>, b: seq<T>, c: seq<T>)
    ensures (a + b) + c == a + (b + c)
  {
  }

  /** Every token lies in `lo..hi`. */
  predicate Between(toks: seq<Span>, lo: nat, hi: nat) {
    forall i :: 0 <= i < |toks| ==> lo <= toks[i].start && toks[i].End() <= hi
  }

  /** Two well-formed token lists on either side of offset `m` concatenate to a well-formed list. */
  lemma ConcatWellFormed(s: seq<char>, a: seq<Span>, b: seq<Span>, lo: nat, m: nat, hi: nat)
    requires WellFormed(s, a) && WellFormed(s, b)
    requires lo <= m <= hi && Between(a, lo, m) && Between(b, m, hi)
    ensures WellFormed(s, a + b) && Between(a + b, lo, hi)
  {
    var ab := a + b;
    forall i | 0 <= i < |ab| ensures Shaped(s, ab[i]) && lo <= ab[i].start && ab[i].End() <= hi {
      if i < |a| { assert ab[i] == a[i]; } else { assert ab[i] == b[i - |a|]; }
    }
    forall i, j | 0 <= i < j < |ab| ensures ab[i].End() <= ab[j].start {
      if j < |a| {
        assert ab[i] == a[i] && ab[j] == a[j];
      } else if i < |a| {
        assert ab[i] == a[i] && ab[j] == b[j - |a|];
      } else {
        assert ab[i] == b[i - |a|] && ab[j] == b[j - |a|];
      }
    }
  }

  /** Every token is shaped and lies in `pos..|s|`; tokens are ordered. */
  lemma {:induction false} SplitFromWellFormed(s: seq<char>, pos: nat)
    requires pos <= |s|
    ensures WellFormed(s, SplitFrom(s, pos)) && Between(SplitFrom(s, pos), pos, |s|)
    decreases |s| - pos
  {
    if pos < |s| {
      match FindWhitespace(s, pos)
      case None =>
        SplitFromLastWellFormed(s, pos);
      case Some(q) =>
        SplitFromWellFormed(s, q + 1);
        SplitFromStepWellFormed(s, pos, q);
    }
  }

  lemma SplitFromLastWellFormed(s: seq<char>, pos: nat)
    requires pos < |s| && FindWhitespace(s, pos).None?
    ensures WellFormed(s, SplitFrom(s, pos)) && Between(SplitFrom(s, pos), pos, |s|)
  {
    FindWhitespaceFinds(s, pos);
    SplitFromLast(s, pos);
    LastWellFormed(s, pos, SplitFrom(s, pos));
  }

  lemma SplitFromStepWellFormed(s: seq<char>, pos: nat, q: nat)
    requires pos < |s| && FindWhitespace(s, pos) == Some(q)
    requires WellFormed(s, SplitFrom(s, q + 1)) && Between(SplitFrom(s, q + 1), q + 1, |s|)
    ensures WellFormed(s, SplitFrom(s, pos)) && Between(SplitFrom(s, pos), pos, |s|)
  {
    FindWhitespaceFinds(s, pos);
    var toks, tail := SplitFrom(s, pos), SplitFrom(s, q + 1);
    SplitFromStep(s, pos, q);
    StepWellFormed(s, pos, q, toks, tail);
  }

  /** One step of the split keeps the token list well formed. */
  lemma StepWellFormed(s: seq<char>, pos: nat, q: nat, toks: seq<Span>, tail: seq<Span>)
    requires pos <= q < |s| && IsWhitespace(s[q]) && NoWhitespace(s, pos, q)
    requires toks == Head(s, pos, q) + tail
    requires WellFormed(s, tail) && Between(tail, q + 1, |s|)
    ensures WellFormed(s, toks) && Between(toks, pos, |s|)
  {
    HeadWellFormed(s, pos, q);
    ConcatWellFormed(s, Head(s, pos, q), tail, pos, q + 1, |s|);
  }

  lemma LastWellFormed(s: seq<char>, pos: nat, toks: seq<Span>)
    requires pos < |s| && NoWhitespace(s, pos, |s|)
    requires toks == [Span(pos, |s| - pos)]
    ensures WellFormed(s, toks) && Between(toks, pos, |s|)
  {
    assert Shaped(s, Span(pos, |s| - pos));
  }

  /** The tokens of one step of `split` are well formed and lie in `pos..q+1`. */
  lemma HeadWellFormed(s: seq<char>, pos: nat, q: nat)
    requires pos <= q < |s| && NoWhitespace(s, pos, q)
    ensures WellFormed(s, Head(s, pos, q)) && Between(Head(s, pos, q), pos, q + 1)
  {
    assert q > pos ==> Shaped(s, Span(pos, q - pos));
    assert WellFormed(s, Run(pos, q)) && Between(Run(pos, q), pos, q);
    assert s[q] == '\n' ==> Shaped(s, Span(q, 1));
    assert WellFormed(s, Break(s, q)) && Between(Break(s, q), q, q + 1);
    ConcatWellFormed(s, Run(pos, q), Break(s, q), pos, q, q + 1);
  }

  lemma SplitWellFormed(s: seq<char>)
    ensures WellFormed(s, Tokens(s))
  {
    SplitFromWellFormed(s, 0);
  }

  /** The script with every whitespace character other than a line break removed. */
  function Kept(s: seq<char>): seq<char> {
    if s == [] then []
    else (if IsWhitespace(s[0]) && s[0] != '\n' then [] else [s[0]]) + Kept(s[1..])
  }

  /** The texts of the tokens, concatenated in order. */
  function Joined(s: seq<char>, toks: seq<Span>): seq<char>
    requires Within(s, toks)
  {
    if toks == [] then [] else Text(s, toks[0]) + Joined(s, toks[1..])
  }

  lemma {:induction false} KeptConcat(a: seq<char>, b: seq<char>)
    ensures Kept(a + b) == Kept(a) + Kept(b)
    decreases |a|
  {
    if a != [] {
      assert (a + b)[0] == a[0] && (a + b)[1..] == a[1..] + b;
      KeptConcat(a[1..], b);
    } else {
      assert a + b == b;
    }
  }

  lemma {:induction false} KeptNoWhitespace(s: seq<char>, i: nat, j: nat)
    requires i <= j <= |s| && NoWhitespace(s, i, j)
    ensures Kept(s[i..j]) == s[i..j]
    decreases j - i
  {
    if i < j {
      KeptNoWhitespace(s, i + 1, j);
      assert s[i..j][0] == s[i] && s[i..j][1..] == s[i + 1..j];
    }
  }

  lemma WithinConcat(s: seq<char>, a: seq<Span>, b: seq<Span>)
    requires Within(s, a) && Within(s, b)
    ensures Within(s, a + b)
  {
    forall i | 0 <= i < |a + b| ensures (a + b)[i].End() <= |s| {
      if i < |a| { assert (a + b)[i] == a[i]; } else { assert (a + b)[i] == b[i - |a|]; }
    }
  }
  lemma {:induction false} JoinedConcat(s: seq<char>, a: seq<Span>, b: seq<Span>)
    requires Within(s, a) && Within(s, b)
    ensures Within(s, a + b) && Joined(s, a + b) == Joined(s, a) + Joined(s, b)
    decreases |a|
  {
    WithinConcat(s, a, b);
    if a != [] {
      assert (a + b)[0] == a[0] && (a + b)[1..] == a[1..] + b;
      JoinedConcat(s, a[1..], b);
    } else {
      assert a + b == b;
    }
  }

  lemma KeptSingle(c: char)
    ensures Kept([c]) == if IsWhitespace(c) && c != '\n' then [] else [c]
  {
    assert [c][1..] == [];
  }

  lemma SliceSnoc(s: seq<char>, i: nat, j: nat)
    requires i <= j < |s|
    ensures s[i..j + 1] == s[i..j] + [s[j]]
  {
  }

  lemma JoinedSingle(s: seq<char>, t: Span)
    requires t.End() <= |s|
    ensures Within(s, [t]) && Joined(s, [t]) == Text(s, t)
  {
    assert [t][1..] == [];
  }

  /** The kept characters of a run followed by one whitespace character. */
  lemma KeptRunThenSpace(s: seq<char>, pos: nat, q: nat)
    requires pos <= q < |s|
    requires NoWhitespace(s, pos, q)
    ensures Kept(s[pos..q + 1]) == s[pos..q] + Kept([s[q]])
  {
    SliceSnoc(s, pos, q);
    KeptConcat(s[pos..q], [s[q]]);
    KeptNoWhitespace(s, pos, q);
  }

  /** One step of `split` keeps exactly the kept characters of `s[pos..q+1]`. */
  lemma HeadKeeps(s: seq<char>, pos: nat, q: nat)
    requires pos <= q < |s| && IsWhitespace(s[q])
    requires NoWhitespace(s, pos, q)
    ensures Within(s, Head(s, pos, q)) && Joined(s, Head(s, pos, q)) == Kept(s[pos..q + 1])
  {
    RunKeeps(s, pos, q);
    BreakKeeps(s, q);
    JoinedConcat(s, Run(pos, q), Break(s, q));
    KeptRunThenSpace(s, pos, q);
  }

  lemma RunKeeps(s: seq<char>, pos: nat, q: nat)
    requires pos <= q <= |s|
    ensures Within(s, Run(pos, q)) && Joined(s, Run(pos, q)) == s[pos..q]
  {
    if q > pos {
      JoinedSingle(s, Span(pos, q - pos));
    }
  }

  lemma BreakKeeps(s: seq<char>, q: nat)
    requires q < |s| && IsWhitespace(s[q])
    ensures Within(s, Break(s, q)) && Joined(s, Break(s, q)) == Kept([s[q]])
  {
    KeptSingle(s[q]);
    if s[q] == '\n' {
      JoinedSingle(s, Span(q, 1));
      assert Text(s, Span(q, 1)) == [s[q]];
    }
  }

  lemma {:induction false} SplitFromKeeps(s: seq<char>, pos: nat)
    requires pos <= |s|
    ensures Within(s, SplitFrom(s, pos)) && Joined(s, SplitFrom(s, pos)) == Kept(s[pos..])
    decreases |s| - pos
  {
    if pos == |s| {
      EndKeeps(s, pos, SplitFrom(s, pos));
    } else {
      match FindWhitespace(s, pos)
      case None =>
        SplitFromLastKeeps(s, pos);
      case Some(q) =>
        SplitFromKeeps(s, q + 1);
        SplitFromStepKeeps(s, pos, q);
    }
  }

  lemma SplitFromLastKeeps(s: seq<char>, pos: nat)
    requires pos < |s| && FindWhitespace(s, pos).None?
    ensures Within(s, SplitFrom(s, pos)) && Joined(s, SplitFrom(s, pos)) == Kept(s[pos..])
  {
    FindWhitespaceFinds(s, pos);
    SplitFromLast(s, pos);
    LastKeeps(s, pos, SplitFrom(s, pos));
  }

  lemma SplitFromStepKeeps(s: seq<char>, pos: nat, q: nat)
    requires pos < |s| && FindWhitespace(s, pos) == Some(q)
    requires Within(s, SplitFrom(s, q + 1)) && Joined(s, SplitFrom(s, q + 1)) == Kept(s[q + 1..])
    ensures Within(s, SplitFrom(s, pos)) && Joined(s, SplitFrom(s, pos)) == Kept(s[pos..])
  {
    FindWhitespaceFinds(s, pos);
    SplitFromStep(s, pos, q);
    StepKeeps(s, pos, q, SplitFrom(s, pos), SplitFrom(s, q + 1));
  }

  /** At the end of the script nothing is left to keep. */
  lemma EndKeeps(s: seq<char>, pos: nat, toks: seq<Span>)
    requires pos == |s| && toks == []
    ensures Within(s, toks) && Joined(s, toks) == Kept(s[pos..])
  {
    assert s[pos..] == [];
  }
  lemma LastKeeps(s: seq<char>, pos: nat, toks: seq<Span>)
    requires pos < |s| && NoWhitespace(s, pos, |s|)
    requires toks == [Span(pos, |s| - pos)]
    ensures Within(s, toks) && Joined(s, toks) == Kept(s[pos..])
  {
    KeptNoWhitespace(s, pos, |s|);
    assert s[pos..|s|] == s[pos..];
    JoinedSingle(s, Span(pos, |s| - pos));
  }

  /** One step of `split` followed by tokens that keep the rest keeps everything from `pos` on. */
  lemma StepKeeps(s: seq<char>, pos: nat, q: nat, toks: seq<Span>, tail: seq<Span>)
    requires pos <= q < |s| && IsWhitespace(s[q])
    requires NoWhitespace(s, pos, q)
    requires toks == Head(s, pos, q) + tail
    requires Within(s, tail) && Joined(s, tail) == Kept(s[q + 1..])
    ensures Within(s, toks) && Joined(s, toks) == Kept(s[pos..])
  {
    HeadKeeps(s, pos, q);
    JoinedConcat(s, Head(s, pos, q), tail);
    SliceSplit(s, pos, q + 1);
    KeptConcat(s[pos..q + 1], s[q + 1..]);
  }

  /**
   * Nothing is lost but whitespace: the tokens' texts, concatenated, are the
   * script with every whitespace character other than a line break removed.
   */
  lemma SplitKeepsText(s: seq<char>)
    ensures Within(s, Tokens(s)) && Joined(s, Tokens(s)) == Kept(s)
  {
    SplitFromKeeps(s, 0);
    assert s[0..] == s;
  }

  /** Each run token is maximal: whitespace or the script's edge lies on both sides of it. */
  predicate Maximal(s: seq<char>, toks: seq<Span>)
    requires Within(s, toks)
  {
    forall i :: 0 <= i < |toks| && !IsLineBreak(s, toks[i]) ==>
      (toks[i].start == 0 || IsWhitespace(s[toks[i].start - 1])) &&
      (toks[i].End() == |s| || IsWhitespace(s[toks[i].End()]))
  }

  lemma ConcatMaximal(s: seq<char>, a: seq<Span>, b: seq<Span>)
    requires Within(s, a) && Within(s, b) && Maximal(s, a) && Maximal(s, b)
    ensures Within(s, a + b) && Maximal(s, a + b)
  {
    WithinConcat(s, a, b);
    forall i | 0 <= i < |a + b|
      ensures (a + b)[i] == if i < |a| then a[i] else b[i - |a|]
    {
    }
  }

  lemma HeadMaximal(s: seq<char>, pos: nat, q: nat)
    requires pos <= q < |s| && IsWhitespace(s[q])
    requires pos == 0 || IsWhitespace(s[pos - 1])
    ensures Within(s, Head(s, pos, q)) && Maximal(s, Head(s, pos, q))
  {
    assert Maximal(s, Run(pos, q));
    assert Maximal(s, Break(s, q));
    ConcatMaximal(s, Run(pos, q), Break(s, q));
  }

  lemma {:induction false} SplitFromMaximal(s: seq<char>, pos: nat)
    requires pos <= |s|
    requires pos == 0 || IsWhitespace(s[pos - 1])
    ensures Within(s, SplitFrom(s, pos)) && Maximal(s, SplitFrom(s, pos))
    decreases |s| - pos
  {
    if pos < |s| {
      match FindWhitespace(s, pos)
      case None =>
        SplitFromLastMaximal(s, pos);
      case Some(q) =>
        FoundWhitespace(s, pos, q);
        SplitFromMaximal(s, q + 1);
        SplitFromStepMaximal(s, pos, q);
    }
  }

  /** A whitespace character that `FindWhitespace` reports lies inside the script. */
  lemma FoundWhitespace(s: seq<char>, pos: nat, q: nat)
    requires pos < |s| && FindWhitespace(s, pos) == Some(q)
    ensures q < |s| && IsWhitespace(s[q])
  {
    FindWhitespaceFinds(s, pos);
  }

  lemma SplitFromLastMaximal(s: seq<char>, pos: nat)
    requires pos < |s| && (pos == 0 || IsWhitespace(s[pos - 1]))
    requires FindWhitespace(s, pos).None?
    ensures Within(s, SplitFrom(s, pos)) && Maximal(s, SplitFrom(s, pos))
  {
    FindWhitespaceFinds(s, pos);
    SplitFromLast(s, pos);
    LastMaximal(s, pos, SplitFrom(s, pos));
  }

  lemma SplitFromStepMaximal(s: seq<char>, pos: nat, q: nat)
    requires pos < |s| && FindWhitespace(s, pos) == Some(q) && IsWhitespace(s[q])
    requires pos == 0 || IsWhitespace(s[pos - 1])
    requires Within(s, SplitFrom(s, q + 1)) && Maximal(s, SplitFrom(s, q + 1))
    ensures Within(s, SplitFrom(s, pos)) && Maximal(s, SplitFrom(s, pos))
  {
    var toks, tail := SplitFrom(s, pos), SplitFrom(s, q + 1);
    SplitFromStep(s, pos, q);
    StepMaximal(s, pos, q, toks, tail);
  }

  lemma LastMaximal(s: seq<char>, pos: nat, toks: seq<Span>)
    requires pos < |s| && (pos == 0 || IsWhitespace(s[pos - 1]))
    requires toks == [Span(pos, |s| - pos)]
    ensures Within(s, toks) && Maximal(s, toks)
  {
  }

  /** One step of the split keeps every token maximal. */
  lemma StepMaximal(s: seq<char>, pos: nat, q: nat, toks: seq<Span>, tail: seq<Span>)
    requires pos <= q < |s| && IsWhitespace(s[q])
    requires pos == 0 || IsWhitespace(s[pos - 1])
    requires toks == Head(s, pos, q) + tail
    requires Within(s, tail) && Maximal(s, tail)
    ensures Within(s, toks) && Maximal(s, toks)
  {
    HeadMaximal(s, pos, q);
    ConcatMaximal(s, Head(s, pos, q), tail);
  }

  lemma SplitMaximal(s: seq<char>)
    ensures Within(s, Tokens(s)) && Maximal(s, Tokens(s))
  {
    SplitFromMaximal(s, 0);
  }

  /**
   * `substr_pos`: the offset of a sub-slice inside `main`, given the
   * sub-slice's position relative to the start of `main`. It is defined
   * when the sub-slice starts inside `main` or exactly at its end.
   */
  function SubstrPos(mainLen: nat, subOffset: int): (r: Option<nat>)
    ensures r.Some? <==> 0 <= subOffset <= mainLen
    ensures r.Some? ==> r.value == subOffset
  {
    if subOffset < 0 || subOffset > mainLen then None else Some(subOffset)
  }

  /** The `unwrap` on `substr_pos` never fails for a token of the script, and yields its offset. */
  lemma SubstrPosOfToken(s: seq<char>, k: nat)
    requires k < |Tokens(s)|
    ensures SubstrPos(|s|, Tokens(s)[k].start) == Some(Tokens(s)[k].start)
  {
    SplitWellFormed(s);
    assert Shaped(s, Tokens(s)[k]);
  }
}
