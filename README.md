# Sensor-noise pipeline and identifier-audit utility, modelled in Dafny

The repository holds two separate pieces of software, and this project models
the core of each.

**The identifier-audit utility (`Search.py`).** It walks a C/C++ source tree
and answers two questions about identifiers.

- *near*: which identifiers lie within a small edit distance of a given
  needle. They are bucketed by distance, with a count and a capped list of
  locations per token, and the per-file results are merged.
- *compare*: how often identifier A and identifier B occur in each file and
  in total, and whether the counts meet an expectation (`equal`, `a>=b`,
  `b>=a`) within a tolerance.

Before tokenizing, a single-pass scanner can blank out comments and string,
character and raw-string literals. It keeps every newline, so line and column
numbers stay valid. The near-miss search uses a cut-off (banded) Levenshtein
distance.

**The sensor-noise post-processing pipeline (`src/`).** It is built on
OpenSceneGraph. Four noise effects (PRNU, dark noise, photon noise, read
noise) are registered, in that order, on a `PostProcessChain`. `build`
filters the chain by each effect's enabled flag and produces one
render-to-texture pass per active effect: pass *i+1* reads pass *i*'s
output, only the last pass renders to the screen, and every pass's fragment
shader is the effect's text with the shared noise utilities spliced in. The
splice is meant to go right after the `#version` line, and does when that
line ends in a newline (see Findings for when it does not). Each effect is a small parameter object whose setters
clamp into range and mirror the value into a uniform. Three of the effects
own a frame counter that publishes 0, 1, 2, … A keyboard handler changes
parameters and toggles effects.

Modules:

- Search side:
  - `Strings` (strings.dfy): `find`, `count` and integer formatting;
  - `SearchTypes` (search_types.dfy): the records, ASCII lower-casing and the capped append;
  - `SearchFilters` (search_filters.dfy): `should_skip_dir`, `check_expectation` and the overall row;
  - `CommentMask` (search_mask.dfy): the masker;
  - `EditDistance` (search_distance.dfy): the cut-off Levenshtein;
  - `CompareScan` (search_compare.dfy): the compare counting loop and `format_locs`;
  - `NearMerge` (search_near.dfy): the near-miss merge.
- Pipeline side:
  - `NoiseEffects` (noise_effect.dfy): the `INoiseEffect` state, uniforms and frame callback;
  - `PRNU`, `DarkNoise`, `PhotonNoise` and `ReadNoise`: one file per effect;
  - `PostProcess` (post_process_chain.dfy): the chain, `build`, `createPass` and the splice;
  - `SensorNoise` (sensor_noise_simulator.dfy): the simulator and its key handler.

Every loop that updates state in the source is a `method` with a `while`
loop, proved against a specification function:

- the masker's scan loop and its `put_spaces` array loop;
- the banded row loop;
- the compare token loop;
- the near-miss merge, a class whose `buckets` map is reassigned;
- `build`'s pass loop.

Each C++ effect is a `class`. Its setters name in `modifies` exactly their
field and that field's uniform. `INoiseEffect` is held by composition: each
effect has an `effect: NoiseEffect` that carries the enabled flag, the
fragment text and the optional frame uniform.

## Model

| member | source | states |
|---|---|---|
| Strings.Find | src/PostProcessChain.cpp:182-185 | `std::string::find`: the result is -1 when the pattern occurs nowhere at or after `from`; otherwise it is the first position at or after `from` where it occurs |
| Strings.IntToString | Search.py:402 | decimal rendering of a line or column: non-empty, digits only except a leading '-' exactly for negatives, and it ends in a digit; its value is fixed by `IntToStringValue` |
| Strings.NatToString | Search.py:402 | decimal rendering of a natural number: digits only, a single digit exactly when n < 10, and no leading zero (the first digit is '0' only for 0); its value is fixed by `NatToStringValue` |
| Strings.NatToStringValue | Search.py:402 | the digits `NatToString(n)` produces denote n |
| Strings.IntToStringValue | Search.py:402 | the rendering of n is the digits of n when n >= 0, and '-' followed by the digits of -n otherwise |
| SearchTypes.Lower | Search.py:368-379 | `str.lower()` on ASCII: same length, each character lower-cased on its own |
| SearchTypes.LowerIdempotent | Search.py:368-379 | lower-casing twice is the same as lower-casing once, so comparing folded tokens against a folded needle is consistent |
| SearchTypes.Keep | Search.py:382-387 | the capped location list is a prefix of all hits; its length is the number of hits when the cap is 0, otherwise the smaller of the hit count and the cap |
| SearchTypes.KeepAppend | Search.py:382-383 | appending a hit under the cap rule (`cap == 0 or len < cap`) adds it exactly when the kept list is still short, and otherwise leaves the list unchanged |
| SearchTypes.KeepWithinCap | Search.py:382-387 | when all hits fit under the cap (or the cap is 0) every hit is kept |
| SearchFilters.ShouldSkipDir | Search.py:202-210 | a directory is skipped iff some pattern equals its name, or ends in `*` with the part before `*` a prefix of the name |
| SearchFilters.SkipConcat | Search.py:202-210 | skipping under two pattern lists joined is skipping under either list |
| SearchFilters.StarSkipsAll | Search.py:202-210 | a bare `*` pattern skips every directory; an empty pattern list skips none |
| SearchFilters.CheckExpectationMeaning | Search.py:539-545 | for diff = A - B: `equal` holds iff the counts are within the tolerance of each other; `a>=b` holds iff A + tol >= B; `b>=a` holds iff B + tol >= A |
| SearchFilters.CheckExpectation | Search.py:539-545 | the three integer modes; given meaning by `CheckExpectationMeaning` and `CheckExpectationMonotone` |
| SearchFilters.CheckExpectationMonotone | Search.py:539-545 | raising the tolerance never turns a passing check into a failing one |
| SearchFilters.OverallRow | Search.py:707-711 | the `<TOTAL>` row has diff = total A - total B and no locations |
| SearchFilters.TotalA | Search.py:707 | the sum of the A counts; `OverallDiffIsSum` and `ExactRowsGiveExactTotal` relate it to the rows |
| SearchFilters.TotalB | Search.py:708 | the sum of the B counts; used with `TotalA` by the same lemmas |
| SearchFilters.OverallDiffIsSum | Search.py:707-711 | the total diff is the sum of the per-file diffs |
| SearchFilters.ExactRowsGiveExactTotal | Search.py:707-723 | with tolerance 0, if every file meets the expectation then so does the total |
| SearchFilters.TolerancesDoNotAdd | Search.py:707-723 | with tolerance 1, two files can each pass `equal` while the total fails it; the per-file tolerance is not summed |
| CommentMask.Blank | Search.py:55-59 | blanking a range keeps the length of the buffer |
| CommentMask.LineEnd | Search.py:64-72 | a `//` comment ends at the first newline after it, or at the end of the text |
| CommentMask.BlockScan | Search.py:74-82 | the block-comment scan stops at the first `*/` after the opener; if there is none, it stops before the last character |
| CommentMask.QuoteEnd | Search.py:84-112 | a quoted literal ends at the end of the text or just after a closing quote character |
| CommentMask.ParenScan | Search.py:114-128 | the raw-string delimiter scan stops at the first '(' or at the end of the text |
| CommentMask.RawEnd | Search.py:114-139 | a raw string's end lies past the `R"` opener and within the text |
| CommentMask.RawEndClosesAtDelimiter | Search.py:129-138 | with a '(' and a closing `)delim"`, the raw string ends right after the first closing sequence past the '(' |
| CommentMask.StepAt | Search.py:61-141 | one step of the scan always advances, and advances by exactly one character when nothing is masked |
| CommentMask.MaskFrom | Search.py:61-141 | the rest of the scan keeps the length and keeps the masked-output invariant: newlines in place, every other character unchanged or a space |
| CommentMask.MaskedShape | Search.py:38-143 | the masked text has the source's length, keeps every '\n', and every character it changes becomes ' ' |
| CommentMask.MaskFromKeepsBlanks | Search.py:55-59 | a position already blanked stays blank for the rest of the scan |
| CommentMask.MaskFromMasksStep | Search.py:61-141 | every non-newline character inside a masked comment or literal ends up as a space |
| CommentMask.MaskFromKeepsBefore | Search.py:61-141 | the scan never changes a position it has already passed |
| CommentMask.UnmaskedStepKeeps | Search.py:140-141 | a character where no comment or literal starts is copied unchanged |
| CommentMask.CoveringStep | Search.py:61-141 | every position lies in the region of exactly the scan step that starts at or before it and ends after it |
| CommentMask.MaskFromExact | Search.py:61-141 | from any position on, a character becomes a space iff the step covering it masks and it is not a newline; otherwise it keeps its value |
| CommentMask.MaskedExact | Search.py:61-141 | in the masked file, code outside every comment and literal keeps its characters, and every non-newline inside one is a space |
| CommentMask.UnterminatedBlockComment | Search.py:74-82 | a `/*` with no closing `*/` masks through the end of the input |
| CommentMask.UnterminatedQuote | Search.py:84-112 | a literal with no closing quote (every quote character escaped by a backslash pair) runs to the end of the input; one with a closing quote ends just after a quote character |
| CommentMask.NoQuoteCharNoClosing | Search.py:84-112 | a literal with no quote character at all after its opener has no closing quote |
| CommentMask.EscapedQuoteRunsToEnd | Search.py:88-96 | in `"a\"b` the only inner quote is escaped, so the literal runs to the end of the input |
| CommentMask.UnterminatedRawString | Search.py:114-139 | `R"` with no '(' or with no closing `)delim"` masks through the end of the input |
| CommentMask.UnterminatedMasksRest | Search.py:125-136 | when a step runs to the end of the input, every non-newline character from the opener on is a space |
| CommentMask.PlainTextUnchanged | Search.py:61-141 | text containing no '/', '"', '\'' or 'R' passes through unchanged |
| CommentMask.MaskedStep | Search.py:61-141 | a masked step blanks its range and the scan resumes at the step's end |
| CommentMask.PutSpaces | Search.py:55-59 | `put_spaces` on the array: the new contents are the old ones with [a, b) blanked except newlines |
| CommentMask.SkipLine | Search.py:66-70 | the `//` loop stops where `LineEnd` says |
| CommentMask.SkipBlock | Search.py:77-79 | the block-comment loop stops where `BlockScan` says |
| CommentMask.SkipQuoted | Search.py:86-95 | the literal loop (escape pairs skipped) stops where `QuoteEnd` says |
| CommentMask.SkipToParen | Search.py:118-124 | the delimiter loop stops where `ParenScan` says |
| CommentMask.ScanStep | Search.py:61-141 | one iteration of the main loop classifies and advances exactly as `StepAt` |
| CommentMask.MaskCommentsAndStrings | Search.py:38-143 | the masked text has the input's length; each character is the input's, or a space where the input had no newline |
| EditDistance.DistSymmetric | Search.py:164-166 | the edit-distance table is symmetric, so swapping so that a is the shorter string changes nothing |
| EditDistance.LevenshteinSymmetric | Search.py:164-166 | Levenshtein(a, b) == Levenshtein(b, a) |
| EditDistance.DistAtLeastGap | Search.py:160-161 | every table entry is at least the difference of the prefix lengths |
| EditDistance.DistSelf | Search.py:157-158 | the distance from a string to itself is 0 |
| EditDistance.LevenshteinBounds | Search.py:157-161 | equal strings are at distance 0, and the distance is at least the length gap, which justifies the early `k+1` |
| EditDistance.RowAboveStaysAbove | Search.py:190-191 | if a whole row exceeds k then the final distance exceeds k, which justifies the early exit |
| EditDistance.NextRowAbove | Search.py:190-191 | a row entirely above k forces the next row above k as well |
| EditDistance.CapCell | Search.py:180-188 | the cell recurrence commutes with capping at k + 1 |
| EditDistance.BandUnfold | Search.py:180-188 | a cell inside the band is the minimum of deletion, insertion and substitution |
| EditDistance.DistUnfold | Search.py:180-188 | the reference distance obeys the same recurrence |
| EditDistance.BandAgreesOff | Search.py:172-175 | cells outside the band (left at k + 1) are right up to the cap, because their true distance already exceeds k |
| EditDistance.BandAgreesIn | Search.py:180-188 | a cell inside the band is right up to the cap when its three neighbours are |
| EditDistance.BandAgreesEdge | Search.py:169-176 | row 0 and column 0 hold the exact distances |
| EditDistance.BandAgrees | Search.py:171-193 | every cell of the banded table equals the true prefix distance, capped at k + 1 |
| EditDistance.BandRowAbove | Search.py:190-191 | a banded row entirely above k means the distance is above k |
| EditDistance.BandRowOutside | Search.py:172-178 | if every cell inside the band exceeds k, so does every cell of the row |
| EditDistance.BandColumnOne | Search.py:171-188 | while i <= k, the banded cell in row i, column 1 is at most i |
| EditDistance.BandRow | Search.py:172-188 | the inner loop fills the row with the banded table and its minimum detects an all-above-k row |
| EditDistance.BoundedLevenshtein | Search.py:150-195 | returns 0 for equal strings; returns k+1 when the lengths differ by more than k; for k >= 0 returns min(Levenshtein(a, b), k+1); for k < 0 returns k+1 unless the strings are equal |
| CompareScan.HitsA | Search.py:380-383 | the A hits are at most as many as the tokens |
| CompareScan.HitsB | Search.py:384-387 | the B hits are at most as many as the tokens |
| CompareScan.CountsPartitionTokens | Search.py:378-387 | no token counts toward both sides: count A + count B <= number of tokens |
| CompareScan.SameKeyCountsOnlyA | Search.py:378-387 | when A and B fold to the same key, every match counts toward A and B counts nothing |
| CompareScan.HitsAAreMatches | Search.py:378-383 | the A hits are exactly the locations of tokens matching A |
| CompareScan.HitsBAreMatches | Search.py:378-387 | the B hits are exactly the locations of tokens matching B |
| CompareScan.PositionsStep | Search.py:378-387 | the matching positions of a token list are those of its prefix plus the last one if it matches |
| CompareScan.HitCounts | Search.py:378-387 | there are as many A (B) hits as token positions matching A (B) |
| CompareScan.HitsStep | Search.py:378-387 | one token adds its location to A's hits if it matches A, else to B's if it matches B, else to neither |
| CompareScan.AppendCapped | Search.py:382-383 | the capped append keeps the list equal to the capped prefix of all hits so far |
| CompareScan.CountTokens | Search.py:378-387 | the loop counts exactly the A and B hits and keeps the first `locs_per_file` of each (all of them when 0) |
| CompareScan.ScanFileCompare | Search.py:350-389 | an unreadable file gives an all-zero row; otherwise the row has the counts, diff = A - B, and the capped location lists |
| CompareScan.CompareRowOf | Search.py:378-389 | the row of a readable file; `CountTokens` and `ScanFileCompare` prove the loop produces it |
| CompareScan.SliceTo | Search.py:401 | `locs[:max_items]` is a prefix, of Python's slice length for non-negative and negative bounds |
| CompareScan.NoColonInNumber | Search.py:402 | a rendered number contains no ':' |
| CompareScan.JoinLocsColons | Search.py:402 | the joined list holds exactly one ':' per shown location |
| CompareScan.SuffixHasNoColon | Search.py:403-404 | the "(+n)" suffix contains no ':' |
| CompareScan.FormatLocsEntries | Search.py:400-405 | the formatted string shows exactly min(max_items, number of locations) entries |
| CompareScan.JoinLocsEnd | Search.py:402 | the joined list is empty iff there is nothing to show, and otherwise ends in a digit |
| CompareScan.FormatLocsTruncation | Search.py:400-405 | the string ends with ')' iff locations were hidden; with nothing hidden it is the plain joined list |
| CompareScan.FormatLocs | Search.py:400-405 | `format_locs`; given meaning by `FormatLocsEntries`, `FormatLocsTruncation` and `JoinLocsColons` |
| CompareScan.JoinLocs | Search.py:401-402 | `line:col` entries joined by ", "; given meaning by `JoinLocsColons`, `JoinLocsEnd` and `IntToStringValue` |
| CompareScan.MoreSuffix | Search.py:403-404 | the hidden-count suffix; given meaning by `SuffixHasNoColon` and `FormatLocsTruncation` |
| NearMerge.Restrict | Search.py:602-603 | restricting a map to a key set keeps exactly those keys and their values |
| NearMerge.MergeEntry | Search.py:604-615 | one token merged into a bucket; given meaning by `MergeEntrySpec` |
| NearMerge.MergeBucket | Search.py:602-615 | one distance bucket merged; given meaning by `MergePartialCounts` and `MergePartialLocs` |
| NearMerge.MergePartial | Search.py:597-615 | one file's partial result merged into the aggregate; given meaning by `MergePartialCounts`, `MergePartialLocs` and `MergePartialCapped` |
| NearMerge.MergeAll | Search.py:597-615 | the partial results merged in file order; given meaning by `MergeAllSpec` |
| NearMerge.MergeEntrySpec | Search.py:604-615 | a merged entry keeps the token, adds the counts, and holds the capped concatenation of both location lists; the result stays within the cap |
| NearMerge.MergePartialCounts | Search.py:602-609 | merging a partial result keeps every bucket and token of either side and adds the counts |
| NearMerge.MergePartialLocs | Search.py:606-615 | after a merge each token's locations are the capped concatenation of the old and the new locations |
| NearMerge.MergePartialCapped | Search.py:602-615 | merging keeps every location list within the cap and every entry keyed by its own token |
| NearMerge.KeepKeepAppend | Search.py:610-615 | capping, appending and capping again is the same as appending and capping once |
| NearMerge.MergeAllSpec | Search.py:596-615 | merging all per-file results gives, per distance and token, the total count and the first `max_locs_per_token` locations in file order |
| NearMerge.NearAggregate.constructor | Search.py:568 | the aggregate starts empty |
| NearMerge.NearAggregate.Merge | Search.py:602-615 | the loop over a partial result leaves the buckets equal to the specification merge of the old buckets with that result |
| NearMerge.NearAggregate.MergeTokens | Search.py:603-615 | the loop over one distance bucket computes the specification bucket merge |
| NearMerge.NearAggregate.MergeOne | Search.py:604-615 | one token's merge: a copy for a new token, otherwise added counts and locations extended up to the remaining room |
| NearMerge.BucketStep | Search.py:603-615 | merging one more token extends the merge of the tokens already done |
| NearMerge.PartialStep | Search.py:602-615 | merging one more distance extends the merge of the distances already done and leaves that bucket untouched until then |
| NoiseEffects.MaxReal | src/DarkNoiseEffect.h:57 | `std::max`: the result is one of the arguments and at least both |
| NoiseEffects.ClampReal | src/DarkNoiseEffect.h:63 | `std::clamp`: the result lies in [lo, hi], equals v inside it and the nearer bound outside it |
| NoiseEffects.FrameCallback.constructor | src/DarkNoiseEffect.h:87 | a new callback is bound to its uniform with its counter at 0 |
| NoiseEffects.FrameCallback.Invoke | src/DarkNoiseEffect.h:88-92 | each call publishes the current counter to the uniform and then increments it, so the published values are 0, 1, 2, … |
| NoiseEffects.NoiseEffect.constructor | src/INoiseEffect.h:38 | a new effect is enabled |
| NoiseEffects.NoiseEffect.SetEnabled | src/INoiseEffect.h:34-35 | after `setEnabled(b)`, `isEnabled()` is b, and only the flag changes |
| NoiseEffects.NoiseEffect.CreateUpdateCallback | src/INoiseEffect.h:28 | an effect without a frame uniform gives no callback (the null default); an effect with one gives a fresh counter at 0 bound to that uniform |
| PRNU.PRNUEffect.constructor | src/PRNUEffect.h:15-21 | stores the given strength unclamped (default 0.01), enabled, resolution 1280×720, in range iff the strength is not negative; no frame uniform |
| PRNU.PRNUEffect.SetPRNUStrength | src/PRNUEffect.h:42-43 | the stored strength and its uniform become max(0, v); for v >= 0 the getter returns v |
| PRNU.PRNUEffect.PRNUStrength | src/PRNUEffect.h:43 | the stored strength; `Valid()` keeps it equal to its uniform, and the setter's contract fixes it |
| PRNU.PRNUEffect.SetResolution | src/PRNUEffect.h:45 | the resolution uniform becomes (w, h) |
| DarkNoise.DarkNoiseEffect.constructor | src/DarkNoiseEffect.h:15-32 | stores the four parameters unclamped (defaults 0.005, 0.003, 0.0005, 50), frame uniform 0, resolution 1280×720; in range iff the arguments are |
| DarkNoise.DarkNoiseEffect.SetDarkCurrent | src/DarkNoiseEffect.h:57-58 | stores max(0, v) in the field and its uniform; v itself when v >= 0; other fields unchanged |
| DarkNoise.DarkNoiseEffect.DarkCurrent | src/DarkNoiseEffect.h:58 | the stored parameter; `Valid()` keeps it equal to its uniform, and `SetDarkCurrent`'s contract fixes it |
| DarkNoise.DarkNoiseEffect.SetDSNUStrength | src/DarkNoiseEffect.h:60-61 | stores max(0, v); v itself when v >= 0; other fields unchanged |
| DarkNoise.DarkNoiseEffect.DSNUStrength | src/DarkNoiseEffect.h:61 | the stored parameter; `Valid()` keeps it equal to its uniform, and `SetDSNUStrength`'s contract fixes it |
| DarkNoise.DarkNoiseEffect.SetHotPixelProbability | src/DarkNoiseEffect.h:63-64 | stores v clamped into [0, 1]; v itself when already inside |
| DarkNoise.DarkNoiseEffect.HotPixelProbability | src/DarkNoiseEffect.h:64 | the stored parameter; `Valid()` keeps it equal to its uniform, and `SetHotPixelProbability`'s contract fixes it |
| DarkNoise.DarkNoiseEffect.SetHotPixelStrength | src/DarkNoiseEffect.h:66-67 | stores max(0, v); v itself when v >= 0; other fields unchanged |
| DarkNoise.DarkNoiseEffect.HotPixelStrength | src/DarkNoiseEffect.h:67 | the stored parameter; `Valid()` keeps it equal to its uniform, and `SetHotPixelStrength`'s contract fixes it |
| DarkNoise.DarkNoiseEffect.SetResolution | src/DarkNoiseEffect.h:69 | the resolution uniform becomes (w, h) |
| PhotonNoise.PhotonNoiseEffect.constructor | src/PhotonNoiseEffect.h:15-22 | stores the given scale unclamped (default 100), frame uniform 0, resolution 1280×720; in range iff the scale is at least 1 |
| PhotonNoise.PhotonNoiseEffect.SetPhotonScale | src/PhotonNoiseEffect.h:44-45 | the stored scale and its uniform become max(1, s); s itself when s >= 1 |
| PhotonNoise.PhotonNoiseEffect.PhotonScale | src/PhotonNoiseEffect.h:45 | the stored parameter; `Valid()` keeps it equal to its uniform, and `SetPhotonScale`'s contract fixes it |
| PhotonNoise.PhotonNoiseEffect.SetResolution | src/PhotonNoiseEffect.h:47 | the resolution uniform becomes (w, h) |
| ReadNoise.ReadNoiseEffect.constructor | src/ReadNoiseEffect.h:15-22 | stores the given read noise unclamped (default 0.01), frame uniform 0, resolution 1280×720; in range iff it is not negative |
| ReadNoise.ReadNoiseEffect.SetReadNoise | src/ReadNoiseEffect.h:44-45 | the stored read noise and its uniform become max(0, v); v itself when v >= 0 |
| ReadNoise.ReadNoiseEffect.ReadNoise | src/ReadNoiseEffect.h:45 | the stored parameter; `Valid()` keeps it equal to its uniform, and `SetReadNoise`'s contract fixes it |
| ReadNoise.ReadNoiseEffect.SetResolution | src/ReadNoiseEffect.h:47 | the resolution uniform becomes (w, h) |
| PostProcess.ActiveEffects | src/PostProcessChain.cpp:79-84 | the active list is no longer than the registered list, and holds only registered, enabled effects |
| PostProcess.ActiveAtEnabledIndices | src/PostProcessChain.cpp:79-84 | the active list is the registered list at the enabled positions, in increasing order, so registration order is kept |
| PostProcess.EnabledIndicesExact | src/PostProcessChain.cpp:79-84 | a position is selected iff the effect there is enabled |
| PostProcess.ActiveEmptyIffNoneEnabled | src/PostProcessChain.cpp:79-90 | there is no active effect iff no registered effect is enabled |
| PostProcess.ActiveAllEnabled | src/PostProcessChain.cpp:79-84 | when every effect is enabled the active list is the registered list |
| PostProcess.SizeT | src/PostProcessChain.cpp:186-187 | `size_t` arithmetic: the result is in [0, 2^64) and congruent to the exact value |
| PostProcess.FindPos | src/PostProcessChain.cpp:182-185 | `find` with `npos`: npos exactly when there is no occurrence, otherwise the first position at or after `from` where the pattern occurs |
| PostProcess.Substr | src/PostProcessChain.cpp:186-187 | `substr(pos, count)`: a prefix of the text from pos, of length min(count, remaining) |
| PostProcess.SubstrLine | src/PostProcessChain.cpp:186 | with a newline found, the version line is the text from `#version` through that newline |
| PostProcess.SubstrRest | src/PostProcessChain.cpp:187 | with a newline found, the body is the text after it |
| PostProcess.SubstrUnterminated | src/PostProcessChain.cpp:186-187 | with `lineEnd == npos`, `npos + 1` wraps to 0 so the body is the whole text, and the version line is empty at position 0 and the rest of the text elsewhere |
| PostProcess.NewlineAt | src/PostProcessChain.cpp:185 | a one-character newline pattern occurs exactly at newline characters |
| PostProcess.NewlineAfterDirective | src/PostProcessChain.cpp:185 | the newline found after `#version` lies past the directive word |
| PostProcess.FragmentSourceAsWritten | src/PostProcessChain.cpp:177-193 | without a `#version` the text is `#version 330 core\n` + utilities + `\n` + the effect's text |
| PostProcess.VersionLineEnd | src/PostProcessChain.cpp:185-187 | the corrected cut lies after the directive word, within the text, with no newline before the line's own terminator |
| PostProcess.SpliceAsWritten | src/PostProcessChain.cpp:185-188 | the `#version` branch as written; given meaning by `SpliceTerminatedAsWritten` and `SpliceUnterminatedAsWritten` |
| PostProcess.FragmentSource | src/PostProcessChain.cpp:177-193 | the splice as intended; given meaning by `SpliceStartsWithVersion`, `SpliceTerminatedCorrected`, `SpliceUnterminatedCorrected` and `ChainedShaderStartsWithVersion` |
| PostProcess.SpliceWithVersionLine | src/PostProcessChain.cpp:182-188 | with a newline after `#version`, the shader is that line + `\n` + utilities + `\n` + the text after the line (text before `#version` is dropped), and the source as written agrees |
| PostProcess.SpliceTerminatedCorrected | src/PostProcessChain.cpp:182-188 | the corrected splice gives the same layout for a terminated version line |
| PostProcess.SpliceTerminatedAsWritten | src/PostProcessChain.cpp:182-188 | the splice as written gives that layout for a terminated version line |
| PostProcess.SpliceWithoutVersion | src/PostProcessChain.cpp:190-193 | without `#version` both definitions prepend `#version 330 core\n` + utilities + `\n` |
| PostProcess.SpliceUnterminatedAsWritten | src/PostProcessChain.cpp:182-188 | as written, a `#version` with no newline after it gives an empty version line at position 0 (otherwise a copy of the text from `#version` on), then the utilities, then the whole text again |
| PostProcess.LoneDirectiveFinds | src/PostProcessChain.cpp:182-185 | in `#version 330 core` the directive is at 0 and there is no newline |
| PostProcess.SpliceUnterminatedExample | src/PostProcessChain.cpp:182-188 | as written, `#version 330 core` without a newline produces a shader that does not start with `#version` |
| PostProcess.SpliceStartsWithVersion | src/PostProcessChain.cpp:177-193 | the corrected shader always starts with `#version` and contains the utilities right after a newline |
| PostProcess.SpliceUnterminatedCorrected | src/PostProcessChain.cpp:182-188 | corrected, an unterminated directive stays in front, followed by the utilities, with nothing duplicated |
| PostProcess.ChainedShaderStartsWithVersion | src/PostProcessChain.cpp:177-193 | in a built chain, a pass whose effect text has no `#version` or a newline after it gets the corrected shader, which starts with `#version` |
| PostProcess.RenderOrdersIncrease | src/PostProcessChain.cpp:102-106 | in a built chain every intermediate pass is PRE_RENDER with order >= 1 (after the scene's 0), and the orders strictly increase |
| PostProcess.EachTextureReadOnce | src/PostProcessChain.cpp:93-119 | no two passes read the same texture, and only pass 0 reads the scene texture |
| PostProcess.PostProcessChain.constructor | src/PostProcessChain.cpp:27-32 | stores the size and the shader texts, with no effects |
| PostProcess.PostProcessChain.AddEffect | src/PostProcessChain.cpp:47-50 | appends the effect at the end and leaves the earlier entries and their order unchanged |
| PostProcess.PostProcessChain.CreatePass | src/PostProcessChain.cpp:126-217 | the pass reads the given input; a final pass has no output and is POST_RENDER; any other pass gets a fresh output texture of the chain's size; the shader is the effect's text spliced as the source writes it (`FragmentSourceAsWritten`) |
| PostProcess.PostProcessChain.Build | src/PostProcessChain.cpp:53-123 | a fresh scene texture at PRE_RENDER 0; one pass per active effect in order, chained input to output, only the last without output, orders 1, 2, … then POST_RENDER; each pass's shader is its effect's text spliced as written; no passes and no callbacks when nothing is enabled; one counter at 0 per temporal effect, bound to that effect's frame uniform |
| PostProcess.PostProcessChain.FilterActive | src/PostProcessChain.cpp:79-84 | the filter loop computes the active effects |
| PostProcess.PostProcessChain.MakePasses | src/PostProcessChain.cpp:93-120 | the pass loop produces a complete chain and the callbacks for it |
| PostProcess.PostProcessChain.ChainStep | src/PostProcessChain.cpp:96-119 | one iteration extends a correctly linked prefix by one pass and one optional callback, keeping every intermediate output at the chain's size |
| PostProcess.PostProcessChain.AddPass | src/PostProcessChain.cpp:97-106 | the next pass fits the chain: right effect, right input, output only if not final (then a fresh texture), order i+1 or POST_RENDER |
| PostProcess.PostProcessChain.RegisterCallback | src/PostProcessChain.cpp:111-113 | a callback is registered exactly when the effect creates one, and a registered callback is a fresh object |
| PostProcess.LinkedStep | src/PostProcessChain.cpp:95-120 | a pass that fits the chain keeps the prefix correctly linked |
| PostProcess.StepKeepsPassesFit | src/PostProcessChain.cpp:97-106 | appending a fitting pass keeps every pass's effect, output and order right |
| PostProcess.StepKeepsInputsChained | src/PostProcessChain.cpp:119 | appending a pass that reads the previous output keeps the input chain |
| PostProcess.StepKeepsOutputsDistinct | src/PostProcessChain.cpp:135-144 | a fresh output keeps all outputs distinct and different from the scene texture |
| PostProcess.TemporalEffects | src/PostProcessChain.cpp:111-113 | the effects that register callbacks are active effects with a frame uniform |
| PostProcess.CallbacksStep | src/PostProcessChain.cpp:111-113 | registering one more effect's callback (or none) keeps one counter per temporal effect |
| SensorNoise.HandledExactly | src/SensorNoiseSimulator.h:82-208 | an event is consumed iff it is a key press of one of the 18 handled keys; anything else changes nothing |
| SensorNoise.HandleKey | src/SensorNoiseSimulator.h:82-208 | the key handler as a transition; given meaning by `HandledExactly`, `TogglesFlipOneFlag`, `KeyKeepsRange`, `PhotonScaleKeys`, `RaiseKeys` and `ShrinkKeys` |
| SensorNoise.Reset | src/SensorNoiseSimulator.h:173-185 | every parameter through its setter at its default; given meaning by `ResetRestoresDefaults` |
| SensorNoise.Defaults | src/SensorNoiseSimulator.h:173-185 | the seven defaults with the given flags; `InitialInRange` proves them in range |
| SensorNoise.HandleAll | src/SensorNoiseSimulator.h:82-208 | a sequence of events handled in order; `EventsKeepRange` proves it keeps the range |
| SensorNoise.TogglesFlipOneFlag | src/SensorNoiseSimulator.h:188-203 | '1' to '4' flip exactly the PRNU, dark, photon or read flag |
| SensorNoise.ToggleTwiceRestores | src/SensorNoiseSimulator.h:188-203 | pressing a toggle key twice restores the state |
| SensorNoise.ResetRestoresDefaults | src/SensorNoiseSimulator.h:173-185 | 'r'/'R' set all seven parameters to their defaults and keep the flags |
| SensorNoise.InitialInRange | src/SensorNoiseSimulator.h:27-50 | the freshly built simulator's parameters are in range |
| SensorNoise.KeyKeepsRange | src/SensorNoiseSimulator.h:82-208 | every event keeps the parameters in range (photon scale >= 1, others >= 0, hot-pixel probability in [0, 1]) |
| SensorNoise.PhotonKeysKeepRange | src/SensorNoiseSimulator.h:91-106 | '+' and '-' keep the parameters in range |
| SensorNoise.DarkKeysKeepRange | src/SensorNoiseSimulator.h:109-170 | 'd', 'D', 's' and 'S' keep the parameters in range |
| SensorNoise.ReadAndPRNUKeysKeepRange | src/SensorNoiseSimulator.h:125-154 | 'n', 'N', 'p' and 'P' keep the parameters in range |
| SensorNoise.EventsKeepRange | src/SensorNoiseSimulator.h:82-208 | any sequence of events keeps the parameters in range |
| SensorNoise.PhotonScaleKeys | src/SensorNoiseSimulator.h:91-106 | '+' (either keyboard) multiplies the scale by 1.5; '-' divides it by 1.5 but not below 1; nothing else changes |
| SensorNoise.PlusThenMinusRestores | src/SensorNoiseSimulator.h:91-106 | in range, '-' undoes '+' |
| SensorNoise.MinusThenPlusAtFloor | src/SensorNoiseSimulator.h:91-106 | at scale 1, '-' then '+' gives 1.5 rather than 1 |
| SensorNoise.RaiseKeys | src/SensorNoiseSimulator.h:109-163 | 'd', 'n', 'p' and 's' raise their parameter to at least 0.001 and at least 2 (dark) or 1.5 times its value, changing nothing else |
| SensorNoise.ShrinkKeys | src/SensorNoiseSimulator.h:116-170 | 'D' halves the dark current; 'N', 'P' and 'S' divide their parameter by 1.5; nothing else changes |
| SensorNoise.RaiseThenShrinkDark | src/SensorNoiseSimulator.h:109-122 | 'd' then 'D' restores the dark current when it was at least 0.0005, and otherwise leaves 0.0005 |
| SensorNoise.SensorNoiseSimulator.constructor | src/SensorNoiseSimulator.h:27-50 | the chain holds PRNU, DarkNoise, PhotonNoise, ReadNoise in that order; every effect is at its defaults, enabled, with resolution (width, height) |
| SensorNoise.SensorNoiseSimulator.NewChain | src/SensorNoiseSimulator.h:46-49 | the four `addEffect` calls leave the effects in the given order |
| SensorNoise.SensorNoiseSimulator.NewPRNU | src/SensorNoiseSimulator.h:32-40 | a default PRNU effect with the simulator's resolution |
| SensorNoise.SensorNoiseSimulator.NewDarkNoise | src/SensorNoiseSimulator.h:33-41 | a default dark-noise effect with the simulator's resolution |
| SensorNoise.SensorNoiseSimulator.NewPhotonNoise | src/SensorNoiseSimulator.h:34-42 | a default photon-noise effect with the simulator's resolution |
| SensorNoise.SensorNoiseSimulator.NewReadNoise | src/SensorNoiseSimulator.h:35-43 | a default read-noise effect with the simulator's resolution |
| SensorNoise.SensorNoiseSimulator.SetPhotonScale | src/PhotonNoiseEffect.h:44 | through the simulator, only the photon scale changes, to max(1, s) |
| SensorNoise.SensorNoiseSimulator.SetDarkCurrent | src/DarkNoiseEffect.h:57 | only the dark current changes, to max(0, v) |
| SensorNoise.SensorNoiseSimulator.SetDSNUStrength | src/DarkNoiseEffect.h:60 | only the DSNU strength changes, to max(0, v) |
| SensorNoise.SensorNoiseSimulator.SetHotPixelProbability | src/DarkNoiseEffect.h:63 | only the hot-pixel probability changes, to v clamped into [0, 1] |
| SensorNoise.SensorNoiseSimulator.SetHotPixelStrength | src/DarkNoiseEffect.h:66 | only the hot-pixel strength changes, to max(0, v) |
| SensorNoise.SensorNoiseSimulator.SetReadNoise | src/ReadNoiseEffect.h:44 | only the read noise changes, to max(0, v) |
| SensorNoise.SensorNoiseSimulator.SetPRNUStrength | src/PRNUEffect.h:42 | only the PRNU strength changes, to max(0, v) |
| SensorNoise.SensorNoiseKeyHandler.constructor | src/SensorNoiseSimulator.h:80 | the handler is bound to its simulator |
| SensorNoise.SensorNoiseKeyHandler.Handle | src/SensorNoiseSimulator.h:82-208 | the result and the simulator's new parameters and flags are those of the transition `HandleKey`, about which the lemmas above are proved; only the seven parameters, their uniforms and the four enabled flags may change (resolution and frame uniforms do not) |
| SensorNoise.SensorNoiseKeyHandler.PhotonKey | src/SensorNoiseSimulator.h:91-106 | the '+' and '-' branches perform the transition's photon-scale step |
| SensorNoise.SensorNoiseKeyHandler.DarkKey | src/SensorNoiseSimulator.h:109-170 | the 'd', 'D', 's' and 'S' branches perform the transition's step |
| SensorNoise.SensorNoiseKeyHandler.ReadAndPRNUKey | src/SensorNoiseSimulator.h:125-154 | the 'n', 'N', 'p' and 'P' branches perform the transition's step |
| SensorNoise.SensorNoiseKeyHandler.ToggleKey | src/SensorNoiseSimulator.h:186-206 | the toggle branches flip one flag and consume the key; any other key is not consumed and changes nothing |
| SensorNoise.SensorNoiseKeyHandler.ResetAll | src/SensorNoiseSimulator.h:173-185 | the reset branch sets every parameter, through its setter, to its default |

## Left out

- File I/O is not modelled: `readFile`, `loadCommonSources`, each `getFragmentSource`, `load_text` and the unreadable-file exception. Shader texts are inputs (`vertexSource`, `utilsSource`, each effect's `fragmentSource`). A file's content is `Option<seq<Token>>`, with `None` for a file that cannot be read.
- The identifier regex `IDENT_RE` and `iter_identifiers_with_pos` are not modelled: a file is its token sequence with line and column.
- `scan_file_near` is not modelled beyond the capped append it shares with the compare loop. Its per-file aggregates are inputs to the merge.
- The tree walk (`iter_source_files`, `collect_files`, `path_matches_any_glob`), argparse, printing, and the JSON and CSV export are not modelled.
- The multiprocessing `Pool` branch of `cmd_near` and `cmd_compare` is not modelled. Its merge is the same as the sequential one.
- The order in which dictionary entries are visited in the merge is a parameter: `Pick` chooses any unvisited key. The result is proved equal for every order, because each key is merged independently.
- The `ratio` mode of `check_expectation` (Search.py:546-549) is left out, because it is a floating-point comparison.
- `SearchTypes.Lower`: models `str.lower()` on ASCII letters only. Unicode case mapping is not modelled.
- Float parameters and factors are reals. IEEE single-precision rounding in the setters and key handler is not modelled, so `PlusThenMinusRestores` holds exactly only in real arithmetic.
- The frame counter `m_f` is an unbounded integer. Its 32-bit `int` overflow after 2^31 frames is not modelled.
- OpenSceneGraph objects are abstracted. Cameras, geometry, programs, StateSets, `setupUniforms`, `createFullscreenQuad`, viewports and the camera tree are reduced to a `Pass` record (effect, input texture, optional output texture, render order, fragment text) and a `SceneGraph` record. Textures are objects with a size. Only the resolution and parameter uniforms are fields.
- `FrameCallback.Invoke` does not model `traverse(node, nv)`, the scene-graph traversal.
- `getName`, logging to `std::cout`/`std::cerr`, `apply`, the effect accessors and `getEventHandler` are not modelled.
- A toggle key changes only the effect's enabled flag. As in the source, the already built scene graph is not rebuilt; a later `Build` sees the new flag.
- `size_t` is modelled as 64 bits wide. A `std::string` is a `StdString`, a text shorter than `npos`.
- The noise mathematics (hash RNG, samplers, per-pixel transforms) lives in GLSL files that are not part of this model.
- `src/main.cpp` and `src/PostProcessing.cpp`/`.h` are not part of this model.

## Findings

| source | as written | input that shows it | evidently intended | confidence | as-written member | corrected member |
|---|---|---|---|---|---|---|
| src/PostProcessChain.cpp:182-188 | when the text has `#version` but no newline after it, `lineEnd` is `npos`. Then `lineEnd - versionPos + 1` wraps (to 0 when `#version` is at position 0), and `substr(lineEnd + 1)` is `substr(0)`, the whole text. The shader is an empty (or duplicated) version line, the utilities, and then the whole text including `#version`, which now sits after the utilities | an effect whose text is `#version 330 core` with no trailing newline: the shader becomes `"\n" + utils + "\n#version 330 core"`, which does not start with `#version` | the directive line stays first, followed by the utilities, with nothing duplicated | not executed | PostProcess.SpliceUnterminatedExample | PostProcess.SpliceUnterminatedCorrected |
