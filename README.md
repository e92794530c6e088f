# Subtitle timing alignment, modelled in Dafny

The program plays an audio recording while it shows a trusted script,
revealing each script word at the moment it is spoken. The timing comes
from a machine transcript: timed words (`start_ms`, `end_ms`, text) that
may be misspelt, split differently or missing. The alignment engine
`match_timestamps_to_script` works in four steps:

1. It splits the script into tokens. A token is a run of non-whitespace
   characters or a single line break.
2. It reduces transcript words and script tokens to comparison keys
   (alphanumeric characters, lower-cased).
3. An external differ compares the two key lists. It returns ranges
   tagged Equal, Delete, Insert or Replace.
4. It walks the ranges in order and appends timed script tokens to the
   output.

How each range is timed:

- **Equal** copies the timing of the transcript words position by position.
- **Delete** emits nothing.
- **Insert** lays the tokens out after the last emitted token whose end
  is not 0 (the anchor). Each token gets a size from the global speaking
  rate, and the average pause separates tokens. Without an anchor every
  token is emitted with (0, 0).
- **Replace** has three strategies:
  - positional, when both ranges have one length;
  - fit, when the sized tokens fit into the span of the transcript
    words: the slack is shared out as equal pauses;
  - merge, otherwise: one token that covers the whole span and whose
    text is the script from the first token's start to the last token's end.

The average pause is the mean of the gaps between consecutive transcript
words. A gap more than twenty times the gap before it is an outlier and
is skipped.

The modules follow that structure:

- `Options`: the optional value.
- `Normalizer`: the comparison key.
- `Transcript`: the timed word and the average pause.
- `Tokenizer`: `split` and `substr_pos`.
- `Alignment`: the ranges, the per-range output and the alignment pass.
- `AlignmentProperties`: what the pass promises.

The imperative parts of the source keep their form:

- the splitting loop, `Tokenizer.Split`;
- the averaging loop, `Transcript.AverageWait`;
- the loop over the ranges and the inner push loops, `Alignment.MatchTimestampsToScript`
  and `Alignment.Push*`.

Each of these is proved equal to a specification function:

- `Tokenizer.Tokens` for the splitting loop;
- `Transcript.AveragePause` for the averaging loop;
- `Alignment.Assemble` and `Alignment.OpOutput` for the range loop and its push loops.

The properties are lemmas about those functions.

Modelling decisions:

- Timestamps are `nat`. The source keeps them in `u64`, and its
  subtractions panic on underflow. The model therefore requires two
  things of the transcript:
  - every word ends no earlier than it starts (`WellTimed`);
  - no word starts before the previous one ends (`NoNegativeGaps`).

  That the span of a Replace range is never negative is then proved
  (`Transcript.SpanOrdered`), not assumed.
- The differ's ranges are an input. They must be well shaped and cover
  the words and the tokens contiguously and in order (`Alignment.Partition`).
- The two floating-point speaking rates are abstracted as sizing
  functions, carried in `Alignment.Context`:
  - `insertSize`, the duration of an inserted token;
  - `replaceSize`, the duration of a token of a Replace range, given
    that range's transcript words.
- Offsets count characters. The source counts UTF-8 bytes and steps over
  continuation bytes after a whitespace character, which has the same
  effect.
- A token is kept as its offset and length (`Tokenizer.Span`), so the
  offset lookup of the merge fallback is arithmetic on offsets.
- Whitespace is the Unicode White_Space property, written out.

(0, 0) marks a token whose timing is unknown; an Insert range without an
anchor emits it. The code also emits (0, 0) in three other cases:

- an Equal or positional Replace range copies a transcript word timed (0, 0);
- a fitted layout whose span starts at 0 gives (0, 0) to its first token
  when that token's size is 0, and to later tokens only when their sizes
  and the pause are 0 too;
- a Replace range of unequal lengths whose transcript words all have the
  timing (0, 0) has a span of duration 0, so no sizes fit into it, and its
  merged token has the timing (0, 0).

The model follows the code. `AlignmentProperties.InsertWithoutAnchor`
proves the direction that holds: an Insert range without an anchor emits
(0, 0) tokens. `AlignmentProperties.InsertWithAnchor` proves that an
Insert range with an anchor never emits an end of 0.

## Model

| member | source | states |
|---|---|---|
| Normalizer.Key | src/main.rs:30-48 | the key of one word, as both key lists compute it for each transcript word and each script token: its characters in order, every non-alphanumeric one dropped and every alphanumeric one replaced by its lower-case form |
| Normalizer.KeyConcat | src/main.rs:33-37 | the key of a concatenation is the concatenation of the keys |
| Normalizer.KeyOfNonAlnum | src/main.rs:35 | a word with no alphanumeric character has the empty key |
| Normalizer.KeyIgnoresPunctuation | src/main.rs:35 | inserting a non-alphanumeric character anywhere leaves the key unchanged |
| Normalizer.KeyIgnoresCase | src/main.rs:36 | replacing a character by one that lower-cases alike leaves the key unchanged |
| Normalizer.KeyFromAlnum | src/main.rs:33-37 | every character of a key comes from the lower-case form of an alphanumeric character of the word |
| Transcript.Gap | src/main.rs:76-78 | the pause before word `i`: its start minus the previous word's end |
| Transcript.Counted | src/main.rs:71-83 | gap `i` enters the average: the first gap always, a later gap unless it exceeds twenty times the gap before it |
| Transcript.CountedSum | src/main.rs:68-85 | the sum of the counted gaps among the first `n` words (`sum`) |
| Transcript.CountedNumber | src/main.rs:69-85 | the number of counted gaps among the first `n` words (`count`) |
| Transcript.AveragePause | src/main.rs:67-93 | 0 when no gap is counted, otherwise the counted sum divided by the count, rounded down |
| Transcript.SpanOrdered | src/main.rs:168-171 | with well-timed words and no negative gaps, a later word never ends before an earlier one starts, so `end - start` of a span cannot underflow |
| Transcript.AverageWait | src/main.rs:67-93 | the loop over the words computes the average pause: 0 when no gap is counted, else the floor of the counted sum over the count; the first gap is always counted, a later one unless it exceeds twenty times the gap before it |
| Transcript.FirstGapCounted | src/main.rs:71-86 | with two or more words at least one gap is counted (the first) |
| Transcript.AveragePauseOfShortTranscript | src/main.rs:88-92 | nothing is counted exactly when there are fewer than two words, and then the average pause is 0 |
| Transcript.CountedSumAtMost | src/main.rs:71-86 | the counted sum is at most the count times an upper bound on the counted gaps |
| Transcript.CountedSumAtLeast | src/main.rs:71-86 | the counted sum is at least the count times a lower bound on the counted gaps |
| Transcript.AveragePauseAtMost | src/main.rs:67-93 | the average pause is at most any bound on the counted gaps, so skipped outliers cannot raise it |
| Transcript.AveragePauseAtLeast | src/main.rs:67-93 | with two or more words the average pause is at least any lower bound on the counted gaps |
| Transcript.OutlierExample | src/main.rs:76-85 | on gaps 10, 12, 11, 500, 9: the 500 is skipped, the 9 after it is counted, and the average is 10 |
| Tokenizer.IsWhitespace | src/main.rs:267 | the Unicode White_Space property that `char::is_whitespace` tests, character by character |
| Tokenizer.SplitFrom | src/main.rs:261-291 | the tokens `split` pushes from offset `pos` on: the rest as one token when no whitespace is left, else the run before the next whitespace (if not empty), that whitespace if it is a line break, then the tokens after it |
| Tokenizer.Tokens | src/main.rs:261-291 | the tokens of the whole script, from offset 0 |
| Tokenizer.Head | src/main.rs:277-284 | what one pass of the loop pushes: the run, then the line break |
| Tokenizer.FindWhitespace | src/main.rs:267 | the whitespace search reports an offset at or after its start and inside the script |
| Tokenizer.FindWhitespaceFinds | src/main.rs:267 | the reported offset holds whitespace and nothing before it does; when nothing is reported, the rest of the script has no whitespace |
| Tokenizer.FoundWhitespace | src/main.rs:267 | a reported offset lies inside the script and holds whitespace |
| Tokenizer.OrderedInOrder | src/main.rs:261-291 | tokens in left-to-right order are in order neighbour by neighbour |
| Tokenizer.InOrderSuffix | src/main.rs:261-291 | neighbour-by-neighbour order holds for every suffix |
| Tokenizer.InOrderApart | src/main.rs:261-291 | neighbour-by-neighbour order implies that a token ends no later than any later token starts |
| Tokenizer.Split | src/main.rs:261-291 | the `while pos < len` loop returns exactly the split of the script, and its tokens are well formed |
| Tokenizer.SplitLoopStep | src/main.rs:274-288 | one pass of the loop (push the run if non-empty, push a line break, move past the whitespace) keeps the pushed tokens followed by the rest of the split equal to the whole split |
| Tokenizer.SplitFromLast | src/main.rs:269-273 | with no whitespace left, the rest of the script is one token |
| Tokenizer.SplitFromStep | src/main.rs:274-288 | with whitespace at `q`, the split is the run before `q`, the line break if `q` holds one, then the split after `q` |
| Tokenizer.SplitFromWellFormed | src/main.rs:261-291 | every token from `pos` on is a line break or a non-empty run without whitespace, they are ordered, and they lie in `pos..len` |
| Tokenizer.SplitFromLastWellFormed | src/main.rs:269-273 | the final run is a well-formed token |
| Tokenizer.SplitFromStepWellFormed | src/main.rs:274-288 | one step followed by a well-formed rest is well formed |
| Tokenizer.StepWellFormed | src/main.rs:277-288 | the tokens of one step, before a well-formed rest after `q`, are well formed and lie in `pos..len` |
| Tokenizer.LastWellFormed | src/main.rs:269-273 | a whitespace-free rest of the script is one well-formed token |
| Tokenizer.HeadWellFormed | src/main.rs:277-284 | the run and the line break pushed in one step are well formed and lie in `pos..q+1` |
| Tokenizer.ConcatWellFormed | src/main.rs:261-291 | well-formed tokens on either side of an offset concatenate to well-formed tokens |
| Tokenizer.SplitWellFormed | src/main.rs:261-291 | the whole split emits only line breaks and non-empty whitespace-free runs, in increasing order |
| Tokenizer.KeptNoWhitespace | src/main.rs:277-279 | a whitespace-free run is kept whole |
| Tokenizer.KeptRunThenSpace | src/main.rs:277-285 | a run and the whitespace after it keep the run and what the whitespace keeps |
| Tokenizer.HeadKeeps | src/main.rs:277-285 | the texts of one step are exactly the kept characters of `pos..q+1` |
| Tokenizer.RunKeeps | src/main.rs:277-280 | the run token, if pushed, spells the characters before the whitespace |
| Tokenizer.BreakKeeps | src/main.rs:282-284 | a line break is pushed and kept; any other whitespace is dropped |
| Tokenizer.SplitFromKeeps | src/main.rs:261-291 | the token texts from `pos` on, concatenated, are the rest of the script without its non-line-break whitespace |
| Tokenizer.SplitFromLastKeeps | src/main.rs:269-273 | the final run keeps the rest of the script |
| Tokenizer.SplitFromStepKeeps | src/main.rs:274-288 | one step followed by a rest that keeps its characters keeps everything from `pos` on |
| Tokenizer.EndKeeps | src/main.rs:265 | at the end of the script nothing is left to keep |
| Tokenizer.LastKeeps | src/main.rs:269-273 | a whitespace-free final run keeps the rest of the script |
| Tokenizer.StepKeeps | src/main.rs:277-288 | one step before a rest that keeps its characters keeps everything from `pos` on |
| Tokenizer.SplitKeepsText | src/main.rs:261-291 | nothing but whitespace is lost: the token texts, concatenated, are the script with every non-line-break whitespace character removed |
| Tokenizer.HeadMaximal | src/main.rs:277-284 | the tokens of one step, after whitespace or the start of the script, have whitespace or an edge on both sides |
| Tokenizer.SplitFromMaximal | src/main.rs:261-291 | every run token from `pos` on is maximal: whitespace or the script's edge on both sides |
| Tokenizer.SplitFromLastMaximal | src/main.rs:269-273 | the final run is maximal |
| Tokenizer.SplitFromStepMaximal | src/main.rs:274-288 | one step followed by a maximal rest is maximal |
| Tokenizer.LastMaximal | src/main.rs:269-273 | the run to the end of the script is maximal |
| Tokenizer.StepMaximal | src/main.rs:277-288 | the tokens of one step before a maximal rest are maximal |
| Tokenizer.ConcatMaximal | src/main.rs:261-291 | maximal token lists concatenate to a maximal list |
| Tokenizer.SplitMaximal | src/main.rs:261-291 | no run of the split can be extended: each has whitespace or an edge of the script on both sides |
| Tokenizer.SubstrPosOfToken | src/main.rs:293-302 | `substr_pos` gives `None` when the sub-slice starts before the main string or past its end, and otherwise its offset; for every token of the split the lookup succeeds (its `unwrap` cannot fail) and yields the token's offset |
| Alignment.Passthrough | src/main.rs:98-111 | for each position `k` of the range: the start and end of transcript word `os + k` with the text of script token `ns + k` |
| Alignment.Unknown | src/main.rs:141-147 | every text of the range with the timing (0, 0), in order |
| Alignment.StartAt | src/main.rs:124-136 | where token `k` of a layout starts: `p0` for the first, else the previous token's start plus its size plus the gap |
| Alignment.Layout | src/main.rs:124-137 | tokens placed one after another from `p0`: token `k` from its start to its start plus its size, with its text |
| Alignment.Sum | src/main.rs:188 | the total of the token sizes of a range |
| Alignment.PauseLen | src/main.rs:192-197 | the pause of a fitted range: 0 for a single token, otherwise the slack `dur - total` divided by the number of gaps, rounded down |
| Alignment.MergedText | src/main.rs:221-228 | the script from the offset of the range's first token to the end of its last token, whitespace included |
| Alignment.ReplaceStrategy | src/main.rs:151-214 | positional when both ranges have one length, else fit when the total of the sizes is below the span's duration, else merge |
| Alignment.OpOutput | src/main.rs:97-236 | what one range appends, given the output so far: Equal copies position by position; Delete nothing; Insert a layout from the anchor with the average pause, or (0, 0) tokens without one; Replace by its strategy |
| Alignment.Assemble | src/main.rs:95-239 | the output after the first `j` ranges: the output after `j - 1` ranges followed by what range `j - 1` appends to it |
| Alignment.LastAnchor | src/main.rs:115-119 | none exactly when every emitted token ends at 0; otherwise a non-zero end of an emitted token after which every token ends at 0 |
| Alignment.InsertSizes | src/main.rs:129 | one size per inserted token |
| Alignment.ReplaceSizes | src/main.rs:184-187 | one size per token of the range |
| Alignment.AssembleStep | src/main.rs:95-97 | the output after `j` ranges is the output after `j - 1` ranges followed by what range `j - 1` appends given that output |
| Alignment.OutputOfAnchoredInsert | src/main.rs:121-137 | an Insert range with an anchor lays its tokens out from the anchor with the average pause |
| Alignment.OutputOfFit | src/main.rs:190-214 | a fitted Replace range lays its tokens out from the span's start with the shared-out pause |
| Alignment.OutputOfMerge | src/main.rs:216-234 | a merging Replace range appends one token over the span with the merged script text |
| Alignment.OutputOfPassthrough | src/main.rs:98-111 | an Equal range, or a Replace range of equal lengths, appends the transcript timing with the script text, position by position |
| Alignment.PushPassthrough | src/main.rs:99-111 | the push loop appends exactly the positional output |
| Alignment.PushUnknown | src/main.rs:141-147 | the push loop appends every token with (0, 0), in order |
| Alignment.PushLayout | src/main.rs:124-137 | the loop that advances `pos` by a gap and by each token's size appends exactly the sequential layout |
| Alignment.PartitionEndsGrow | src/main.rs:96 | the ends of the ranges never decrease |
| Alignment.PartitionFits | src/main.rs:96 | the ranges of a partition index only existing words and tokens, so the source's indexing cannot panic |
| Alignment.PushOp | src/main.rs:97-236 | one iteration of the loop over the ranges appends exactly that range's output |
| Alignment.PushReplace | src/main.rs:149-235 | the Replace arm appends the positional, fitted or merged output, whichever applies |
| Alignment.MatchTimestampsToScript | src/main.rs:27-239 | the pass splits the script, computes the average pause and returns the ranges' outputs appended in diff order |
| AlignmentProperties.StartAtFromSum | src/main.rs:124-137 | token `k` of a layout starts after the first `k` sizes and `k` gaps |
| AlignmentProperties.LayoutShape | src/main.rs:124-137 | a layout has one token per text: the first at the start, each lasting its size, each later one a gap after the previous end, none before the start |
| AlignmentProperties.LayoutLastEnd | src/main.rs:198-211 | a layout's last token ends after all the sizes and one gap fewer than the tokens |
| AlignmentProperties.PositionalTiming | src/main.rs:98-164 | for an Equal range (lines 98-111) and a Replace range of equal lengths (lines 151-164), the k-th token takes the timing of the k-th transcript word of the range and the text of the k-th script token |
| AlignmentProperties.DeleteAppendsNothing | src/main.rs:113 | a Delete range leaves the output unchanged |
| AlignmentProperties.AssembleExtends | src/main.rs:95-239 | the output is only appended to: the output after `i` ranges is a prefix of the output after any later range |
| AlignmentProperties.InsertWithoutAnchor | src/main.rs:141-147 | with no token timed before it, an Insert range emits every script token, in order, with (0, 0) |
| AlignmentProperties.InsertWithAnchor | src/main.rs:114-137 | with anchor `t`: one output per script token, the first starting at `t`, each ending at start plus its size, each later one starting the average pause after the previous one ends, none ending at 0 |
| AlignmentProperties.LastAnchorAt | src/main.rs:115-119 | the anchor is the end of the last emitted token whose end is not 0 |
| AlignmentProperties.AnchoredLayout | src/main.rs:121-137 | an inserted layout from a non-zero anchor has the shape above |
| AlignmentProperties.FitTiming | src/main.rs:166-214 | when the sized tokens fit: one token per script token, the first at the span's start, consecutive tokens `(dur - total) / (n - 1)` apart (0 when `n == 1`), the last ending no later than the span's end |
| AlignmentProperties.FitShape | src/main.rs:190-211 | a layout with the shared-out pause is paced within its span |
| AlignmentProperties.FitLayout | src/main.rs:190-211 | a layout with the shared-out pause ends within the span |
| AlignmentProperties.PausesFit | src/main.rs:192-197 | the tokens' sizes and the pauses between them add up to no more than the span |
| AlignmentProperties.MergeTiming | src/main.rs:216-234 | when the sized tokens do not fit: exactly one token spanning the first transcript word's start to the last one's end, whose text is the script from the first token's offset to the last token's end and holds every token of the range at its own offset |
| AlignmentProperties.MergedOp | src/main.rs:216-234 | the merged token stated in terms of the range's words and tokens |
| AlignmentProperties.SpanTimed | src/main.rs:168-171 | the span of a Replace range does not end before it starts |
| AlignmentProperties.MergedOutput | src/main.rs:221-233 | the merged text runs from the first token's offset to the last token's end and holds every token of the range |
| AlignmentProperties.MergedTextSpan | src/main.rs:225-228 | token `k` of the range appears in the merged text at its offset relative to the first token |
| AlignmentProperties.TokenBetween | src/main.rs:225-228 | token `k` of the range lies between the first token's start and the last token's end |
| AlignmentProperties.OpDurations | src/main.rs:95-236 | every token one range appends ends no earlier than it starts |
| AlignmentProperties.DurationsNonNegative | src/main.rs:95-239 | every output token ends no earlier than it starts |
| AlignmentProperties.DurationsStep | src/main.rs:95-237 | appending one range's tokens keeps every duration non-negative |
| AlignmentProperties.OpTexts | src/main.rs:97-215 | unless a Replace range merges, a range appends one token per script token, each with that token's text |
| AlignmentProperties.PassthroughSpells | src/main.rs:98-111 | positional output spells the range's script tokens |
| AlignmentProperties.UnknownSpells | src/main.rs:141-147 | (0, 0) output spells the range's script tokens |
| AlignmentProperties.LayoutSpells | src/main.rs:124-137 | laid-out output spells the range's script tokens |
| AlignmentProperties.SpellsConcat | src/main.rs:95-239 | outputs that spell consecutive runs of tokens concatenate to one that spells both |
| AlignmentProperties.AssembleFollowsScript | src/main.rs:95-239 | after `j` ranges without a merge, the output has one token per script token so far, each with its token's text |
| AlignmentProperties.FollowsStep | src/main.rs:95-237 | one more range without a merge keeps the output following the script |
| AlignmentProperties.OutputFollowsScript | src/main.rs:27-239 | when no Replace range merges, the output is the script token by token: as many tokens as the script has, each with its token's text |

## Left out

- `main` (src/main.rs:304-442) is not part of this model. It covers file reading, TSV parsing, the window, the terminal renderer, audio playback and the wall-clock playback loop: all I/O, rendering and real time.
- The differ (src/main.rs:56) is an external library and is not modelled. Its ranges are an input to `Alignment.MatchTimestampsToScript`, constrained by `Alignment.Partition`. The key computation (src/main.rs:30-54) is modelled as `Normalizer.Key`, applied to each word. It feeds only the differ, so the pass does not call it.
- Alignment.InsertSizes: the global rate (src/main.rs:58-65) and the token length it gives (src/main.rs:129) use `f32` arithmetic and a float-to-`u64` cast. They are a parameter, `insertSize`.
- Alignment.ReplaceSizes: the local rate (src/main.rs:175-182) and the token lengths (src/main.rs:184-187) are floating point too. They are a parameter, `replaceSize`, that sees the range's transcript words.
- Normalizer.Key: which characters are alphanumeric, and what a character lower-cases to, are Unicode tables. They are parameters `isAlnum` and `lower`.
- Tokenizer.Split: offsets count characters where the source counts UTF-8 bytes (the byte test for a line break and the char-boundary skip, src/main.rs:282-288). Byte lengths are not modelled.
- Transcript.AverageWait: `u64` overflow of `sum` and of `prev_wait * 20` is not modelled. Timestamps are unbounded.
- Alignment.MatchTimestampsToScript: `u64` overflow of the laid-out positions (src/main.rs:127-136, 198-210) and of the total of the token sizes (src/main.rs:188) is not modelled. The underflow cases are preconditions, as described above.
- AlignmentProperties.OutputFollowsScript: one output token per script token holds only when no Replace range merges. A merge emits one token for several. `AlignmentProperties.MergeTiming` states what it emits instead.
- The commented-out dump (src/main.rs:241-258) is not code.
