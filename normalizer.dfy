/**
 * The comparison key of a word: its alphanumeric characters, each replaced
 * by its lower-case form. The keys of the transcript words and of the
 * script tokens are what the external differ compares; they are never
 * part of the output.
 *
 * Which characters are alphanumeric and what a character lower-cases to
 * (possibly several characters) are Unicode tables; they are parameters here.
 */
module Normalizer {

  /** The key of a word: each alphanumeric character in turn, lower-cased; every other character dropped. */
  function Key(w: seq<char>, isAlnum: char -> bool, lower: char -> seq<char>): seq<char> {
    if w == [] then []
    else (if isAlnum(w[0]) then lower(w[0]) else []) + Key(w[1..], isAlnum, lower)
  }

  /** The key of a concatenation is the concatenation of the keys. */
  lemma {:induction false} KeyConcat(a: seq<char>, b: seq<char>, isAlnum: char -> bool, lower: char -> seq<char>)
    ensures Key(a + b, isAlnum, lower) == Key(a, isAlnum, lower) + Key(b, isAlnum, lower)
    decreases |a|
  {
    if a == [] {
      assert a + b == b;
    } else {
      assert (a + b)[0] == a[0] && (a + b)[1..] == a[1..] + b;
      KeyConcat(a[1..], b, isAlnum, lower);
    }
  }

  /** A word without alphanumeric characters (punctuation only) has the empty key. */
  lemma {:induction false} KeyOfNonAlnum(w: seq<char>, isAlnum: char -> bool, lower: char -> seq<char>)
    requires forall k :: 0 <= k < |w| ==> !isAlnum(w[k])
    ensures Key(w, isAlnum, lower) == []
    decreases |w|
  {
    if w != [] {
      KeyOfNonAlnum(w[1..], isAlnum, lower);
    }
  }

  /** Inserting a non-alphanumeric character anywhere leaves the key unchanged. */
  lemma KeyIgnoresPunctuation(a: seq<char>, c: char, b: seq<char>, isAlnum: char -> bool, lower: char -> seq<char>)
    requires !isAlnum(c)
    ensures Key(a + [c] + b, isAlnum, lower) == Key(a + b, isAlnum, lower)
  {
    KeyConcat(a + [c], b, isAlnum, lower);
    KeyConcat(a, [c], isAlnum, lower);
    KeyConcat(a, b, isAlnum, lower);
    KeyOfNonAlnum([c], isAlnum, lower);
  }

  /** Characters that lower-case alike give words with the same key. */
  lemma KeyIgnoresCase(a: seq<char>, c: char, d: char, b: seq<char>, isAlnum: char -> bool, lower: char -> seq<char>)
    requires isAlnum(c) == isAlnum(d) && lower(c) == lower(d)
    ensures Key(a + [c] + b, isAlnum, lower) == Key(a + [d] + b, isAlnum, lower)
  {
    KeyConcat(a + [c], b, isAlnum, lower);
    KeyConcat(a, [c], isAlnum, lower);
    KeyConcat(a + [d], b, isAlnum, lower);
    KeyConcat(a, [d], isAlnum, lower);
    assert [c][1..] == [] && [d][1..] == [];
  }

  /** Every character of a key comes from the lower-case form of an alphanumeric character of the word. */
  lemma {:induction false} KeyFromAlnum(w: seq<char>, isAlnum: char -> bool, lower: char -> seq<char>, x: char)
    requires x in Key(w, isAlnum, lower)
    ensures exists k :: 0 <= k < |w| && isAlnum(w[k]) && x in lower(w[k])
    decreases |w|
  {
    if x in (if isAlnum(w[0]) then lower(w[0]) else []) {
    } else {
      KeyFromAlnum(w[1..], isAlnum, lower, x);
      var k :| 0 <= k < |w[1..]| && isAlnum(w[1..][k]) && x in lower(w[1..][k]);
      assert w[k + 1] == w[1..][k];
    }
  }
}
