# Variant generation helpers of ViGenAiR, in Dafny

This project models `GenerationHelper` in `ui/src/generation.ts`. That code turns a video's extracted segments into a prompt for a generative text model and turns the model's reply into variant proposals. It has four operations.

- **createVideoScript** renders the audio/visual segments as a script.
  - Each scene gets a block of lines: a `Scene k` header, the start/end times and the duration line.
  - The block has a `Description:` line only when the trimmed description is non-empty.
  - The shot-count line is always present.
  - The speech, details, text and logos lines are always present too. In the source each is guarded by an array's truthiness, and every array is truthy, the empty one included.
  - The block has a `Keywords:` line only when the trimmed keywords are non-empty, and ends with an empty line.
  - The script is all pushed lines joined with `"\n"`. The header properties below are about the pushed lines. A `"\n"` inside a description, transcript entry, label, object, text, logo or keyword is not escaped, so the joined text can hold more lines that read `Scene k`.
- **calculateExpectedDurationRange** gives `"<d - 20% of d>-<d + 20% of d>"`.
- **resolveGenerationPrompt** fills five placeholders of the prompt template, one after the other, with JavaScript's `String.prototype.replace` and a string pattern. Each call therefore:
  - replaces only the first occurrence;
  - works on the text the earlier calls produced, placeholders inserted by an earlier filler included;
  - expands the `$$`, `$&`, `` $` `` and `$'` patterns of the filler, as in GetSubstitution (ECMAScript section 22.1.3.19.1).
- **generateVariants** asks the model, splits each reply on `"\n\n\n"`, and matches the variant pattern against every block. Each matching block becomes a record numbered after its position (`combo_id = index + 1`), so blocks that do not match leave gaps in the numbering. The request is repeated until some reply gives at least one record.

Modules, one per concern of the source:

- `Wrappers` holds `Option`.
- `Strings` holds the JavaScript string built-ins the code relies on: `trim` (with ECMAScript's WhiteSpace and LineTerminator set), the search for the leftmost occurrence of a string that `split` and `replace` do (`IndexOf`), `split`, `Array.prototype.join`, `filter(Boolean)`, `replace` with a string pattern, and `String()` of a natural number.
- `VideoScript` holds createVideoScript. It is imperative: a loop pushes lines onto an array.
- `Prompt` holds resolveGenerationPrompt and calculateExpectedDurationRange.
- `Variants` holds generateVariants. It is imperative: a retry loop, and an inner loop that pushes records.

The script loop (`CreateVideoScript`) and the loop over the blocks of a reply (`CollectVariants`) are methods proved equal to functions of their inputs (`ScriptText`, `ParseChunks`); `RequestOnce`, which has no loop, is proved equal to `ParseReply`. The properties are lemmas about those functions. The retry loop (`RequestVariants`) is described by the predicate `AttemptsOutcome` instead: which attempt it stops at depends on the replies.

Everything the code takes from the outside is a parameter of the model:

- the conversions `String(x)`, `x.toFixed(2)` and `Number(s)`, as a `NumberFormat`, where `None` stands for NaN;
- the regular expression, as `matcher`, which gives the five named groups or no match;
- the model's replies, as `generate(prompt, n)`, the reply to the n-th request.

The code has no bound on the retry loop. The model follows the code and makes the bound a parameter (see `RequestVariants` below).

## Model

| member | source | states |
|---|---|---|
| VideoScript.SceneBlock | ui/src/generation.ts:92-125 | The lines pushed for one segment; their layout is stated by SceneBlockLayout, DescriptionLineIff and KeywordsLineIff |
| VideoScript.ScriptText | ui/src/generation.ts:89-127 | The script: the blocks of all segments, in order, joined with "\n"; CreateVideoScript is proved to compute it |
| VideoScript.CreateVideoScript | ui/src/generation.ts:85-128 | The script built scene by scene is the lines of every segment's block, in input order, joined with "\n" |
| VideoScript.PushScene | ui/src/generation.ts:91-126 | One call of the per-segment callback appends exactly that segment's block to the lines pushed so far |
| VideoScript.SceneBlockLayout | ui/src/generation.ts:92-125 | Positions in a block: "Scene k", "start --> end", "Duration: …s", then after the optional description the shot count, off-screen speech in quotes, details of labels followed by objects, each on-screen text quoted and comma-joined, logos; the last line is empty; the length is 9 plus one per optional line |
| VideoScript.DescriptionLineIff | ui/src/generation.ts:97-100 | The fourth line of a block is "Description: d" exactly when the trimmed description d is non-empty |
| VideoScript.KeywordsLineIff | ui/src/generation.ts:108-124 | The last line but one is "Keywords: w" exactly when the trimmed keywords w are non-empty |
| VideoScript.HeadersOfBlock | ui/src/generation.ts:92-125 | Among the lines pushed for a block exactly one is a "Scene <number>" line, its own header; no other pushed line can be read as a header |
| VideoScript.ScriptHeaders | ui/src/generation.ts:91-92 | The scene headers among the pushed lines of the whole script are "Scene 1" … "Scene n", one per segment, in input order, and there are no others |
| VideoScript.HeaderListAt | ui/src/generation.ts:92 | The k-th header (from 0) is "Scene " followed by the decimal digits of k + 1 |
| VideoScript.ScriptLinesSplit | ui/src/generation.ts:91-126 | Block k (from 0) follows directly after the blocks of the segments before it, as a prefix of the script's lines |
| VideoScript.ScriptEnds | ui/src/generation.ts:125-127 | No segments give the empty script and only they do; otherwise the last line is empty |
| Strings.Trim | ui/src/generation.ts:97 | trim: drops the leading, then the trailing ECMAScript whitespace; characterised by TrimIsTrimmed, TrimMiddle, TrimSuffix and TrimEmptyIff |
| Strings.TrimIsTrimmed | ui/src/generation.ts:97 | The result of trim has no whitespace at either end |
| Strings.TrimMiddle | ui/src/generation.ts:97 | The result of trim is a contiguous slice of the input, preceded only by whitespace |
| Strings.TrimSuffix | ui/src/generation.ts:97 | What trim drops after the kept slice is whitespace only |
| Strings.TrimEmptyIff | ui/src/generation.ts:97-98 | trim gives "" (a falsy string) exactly when the input is all whitespace |
| Strings.TrimTrimmed | ui/src/generation.ts:162 | trim leaves a string without whitespace at its ends unchanged, so trimming twice is trimming once |
| Strings.IndexOf | ui/src/generation.ts:143 | The search that split and replace make: the index found is the leftmost occurrence of the pattern; None means it does not occur |
| Strings.Split | ui/src/generation.ts:143 | split on a non-empty separator gives at least one piece; SplitLeftmost fixes the pieces, and JoinSplit and SplitPiecesFree give their properties |
| Strings.SplitLeftmost | ui/src/generation.ts:143 | split cuts at the leftmost occurrence of the separator and continues after it, so a self-overlapping separator such as "\n\n\n" is cut at non-overlapping leftmost copies; a string without the separator is a single piece |
| Strings.Join | ui/src/generation.ts:127 | join of a list of strings with a separator between neighbours, "" for the empty list; JoinSplit and SplitJoin relate it to Split |
| Strings.JoinSplit | ui/src/generation.ts:143 | Joining the pieces of a split with the separator gives back the split string |
| Strings.SplitPiecesFree | ui/src/generation.ts:143 | No piece of a split contains the separator |
| Strings.SplitJoin | ui/src/generation.ts:161-163 | The elements of a non-empty list that lack the separator's first character, joined with it, split back into the same elements (the empty list joins to "", which splits into [""]) |
| Strings.NonEmpty | ui/src/generation.ts:164 | filter(Boolean) keeps the non-empty strings and only those, and never lengthens the list |
| Strings.NonEmptyAppend | ui/src/generation.ts:164 | filter(Boolean) works element by element: a one-element list keeps its element exactly when it is non-empty, and a concatenation filters to the concatenation of the filtered parts, so order and repetitions are kept |
| Strings.NatToStringRoundTrip | ui/src/generation.ts:92 | The decimal notation of a scene number reads back as that number |
| Strings.NatToStringInjective | ui/src/generation.ts:92 | Different scene numbers give different headers |
| Strings.NatToString | ui/src/generation.ts:92 | `${index + 1}` of a scene number: a non-empty string of decimal digits without a leading zero |
| Strings.Substitution | ui/src/generation.ts:69-73 | GetSubstitution of a replacement for a match without groups; SubstitutionLiteral states the literal case, ReplaceFirstDollarPatterns the "$&" and "$$" cases, and ReplaceFirstContextPatterns the "$`" and "$'" cases |
| Strings.ReplaceFirst | ui/src/generation.ts:68-73 | replace with a string pattern changes nothing when the pattern is absent; otherwise only the leftmost occurrence is replaced, by the expansion of the replacement, with the text before and after it kept |
| Strings.SubstitutionLiteral | ui/src/generation.ts:69-73 | A replacement in which no "$" is followed by "$", "&", "`" or "'" is inserted literally, so a "$" as in "$9.99" stays as it is |
| Strings.NoDollarPatternDash | ui/src/generation.ts:80 | Two texts without "$" patterns, joined with "-" as the duration range is, have none either |
| Strings.ReplaceFirstAt | ui/src/generation.ts:68-73 | A pattern that occurs nowhere before a given copy, not even overlapping it, is replaced at that copy by a replacement without "$" patterns, inserted literally; whatever follows, later occurrences included, is kept |
| Strings.LeftmostCopy | ui/src/generation.ts:68-73 | A copy of the pattern with no occurrence before it, overlapping ones included, is the leftmost occurrence, with the text before and after it kept apart |
| Strings.FirstCharAbsent | ui/src/generation.ts:68-73 | A text lacking the pattern's first character (the "{" of a placeholder) leaves the copy of the pattern after it the leftmost one |
| Strings.MissingCharacter | ui/src/generation.ts:68-73 | A string that lacks one character of the pattern does not contain the pattern |
| Strings.ReplaceFirstWhole | ui/src/generation.ts:68-73 | Replacing a pattern that is the whole string gives the expansion of the replacement alone |
| Strings.ReplaceFirstDollarPatterns | ui/src/generation.ts:69 | A replacement "$&" puts the matched placeholder back, and "$$" becomes a single "$" |
| Strings.ReplaceFirstContextPatterns | ui/src/generation.ts:69-73 | At the leftmost copy of the pattern, a replacement "$`" is replaced by the text before the copy and "$'" by the text after it |
| Strings.SubstitutionContext | ui/src/generation.ts:69-73 | In GetSubstitution, "$`" expands to the text before the match and "$'" to the text after it |
| Prompt.DesiredDuration | ui/src/generation.ts:63 | Number(duration), or 30 when that is falsy: the parsed number when it is a number other than 0; 30 when it is 0 or NaN; never 0 |
| Prompt.ExpectedDurationRange | ui/src/generation.ts:78-83 | The range is the rendering of 4/5 of the duration, a "-", and the rendering of 6/5 of the duration |
| Prompt.ResolveInOrder | ui/src/generation.ts:55-76 | For a template holding the placeholders in call order, the prompt is the template with the user's prompt, String(d), the rendering of 4/5 d, "-" and 6/5 d, the folder's language and the folder's script in their places, where d is Number(duration) or 30; provided each placeholder is the leftmost copy of itself once the earlier ones are filled, and no filler holds a "$" pattern ("$$", "$&", "$`", "$'"); other "$" are fine |
| Prompt.ResolveGenerationPrompt | ui/src/generation.ts:55-76 | The five replace calls over the configured template, with the fillers of PromptFillers; ResolveInOrder states the prompt it gives |
| Prompt.PromptFillers | ui/src/generation.ts:59-66 | The fillers: the user's prompt, String(d), the range of d, the folder's language and the script, d being DesiredDuration |
| Prompt.Fill | ui/src/generation.ts:68-73 | The five replace calls in the source's order; FillInOrder, FillWithoutPlaceholders, PlaceholderInPrompt and DollarInPrompt state what they give |
| Prompt.FillWithoutPlaceholders | ui/src/generation.ts:68-73 | A template without any of the five placeholders is returned unchanged |
| Prompt.FillInOrder | ui/src/generation.ts:68-73 | A template holding the placeholders in call order is filled in place, provided each placeholder is the leftmost copy of itself once the earlier ones are filled and no filler holds a "$" pattern; later copies of placeholders stay |
| Prompt.PlaceholderInPrompt | ui/src/generation.ts:68-73 | A user prompt that is "{{videoScript}}" is itself replaced later: the prompt becomes the (expanded) script |
| Prompt.DollarInPrompt | ui/src/generation.ts:69 | A user prompt "$&" is not inserted literally: it brings the "{{userPrompt}}" placeholder back |
| Variants.ScenePieces | ui/src/generation.ts:161-164 | `trim().split(', ').filter(Boolean)` gives pieces that are non-empty and free of ", " |
| Variants.ScenePiecesBlank | ui/src/generation.ts:161-164 | An empty or all-whitespace scene list gives no scenes, not one empty scene |
| Variants.ScenePiecesJoin | ui/src/generation.ts:161-164 | Non-empty scene ids with no comma and no whitespace at their ends, written out with ", ", split back into the same ids (an empty id would be dropped by filter(Boolean)) |
| Variants.ParseScenesJoin | ui/src/generation.ts:161-165 | Non-empty scene ids with no comma and no whitespace at their ends, written out with ", ", are read back as Number() of each id, one per id, in order |
| Variants.ParseScenes | ui/src/generation.ts:161-165 | `.map(scene => Number(scene))` over the scene pieces: one Number() per piece, in order; ParseScenesJoin gives the ids it reads back |
| Variants.BuildVariant | ui/src/generation.ts:158-169 | The record of the block at position index: numbered index + 1; BuildVariantTrimmed gives its texts and score |
| Variants.BuildVariantTrimmed | ui/src/generation.ts:160-168 | A record's title, description and reasoning have no whitespace at their ends, and its score is Number() of the trimmed score text |
| Variants.MatchesSound | ui/src/generation.ts:147-150 | Every match is of one of the blocks considered, with the groups the pattern gives for that block |
| Variants.MatchesOrdered | ui/src/generation.ts:147 | Matches come in strictly increasing block order |
| Variants.MatchedChunkIsMatch | ui/src/generation.ts:148-149 | Every block the pattern matches is among the matches |
| Variants.MatchesEmpty | ui/src/generation.ts:147-175 | There is no match exactly when the pattern matches none of the blocks |
| Variants.RecordAdded | ui/src/generation.ts:149-170 | For a matching block, pushing its record extends the records of the blocks before it to those of one block more |
| Variants.NoRecordAdded | ui/src/generation.ts:171-175 | For a block that does not match, nothing is pushed and the records are those of one block more |
| Variants.ParseChunks | ui/src/generation.ts:147-176 | The records of all blocks of a reply; there are never more records than blocks |
| Variants.ParseReply | ui/src/generation.ts:143-176 | The records of one reply, split on "\n\n\n"; RequestOnce is proved to compute it |
| Variants.ParseChunksSound | ui/src/generation.ts:147-170 | Every record is built from a block the pattern matches, and its combo_id is that block's position plus one, within 1..#blocks |
| Variants.ParseChunksOrdered | ui/src/generation.ts:147-170 | combo_ids strictly increase, so no block gives two records |
| Variants.ParseChunksComplete | ui/src/generation.ts:147-175 | There is a record numbered k + 1 exactly when the pattern matches block k; an unmatched block leaves a gap |
| Variants.ParseChunksEmpty | ui/src/generation.ts:147-175 | A reply gives no record exactly when the pattern matches none of its blocks |
| Variants.CollectVariants | ui/src/generation.ts:147-176 | The forEach loop pushes exactly the records of the reply's blocks, in block order |
| Variants.RequestOnce | ui/src/generation.ts:140-176 | One request gives the records of the reply to that request, split on "\n\n\n" |
| Variants.AttemptedNext | ui/src/generation.ts:138-176 | After an empty result, one more request keeps "every earlier reply gave nothing, the records are those of the last reply" |
| Variants.AttemptsOutcomeEmpty | ui/src/generation.ts:138-178 | When the loop stops, its result is empty exactly when none of the allowed replies gives a record |
| Variants.RequestVariants | ui/src/generation.ts:135-178 | The loop stops at the first reply that gives records and returns that reply's records; every earlier reply gave none; an empty result means every allowed reply gave none |
| Variants.GenerateVariants | ui/src/generation.ts:130-179 | The prompt is resolved once and sent on every attempt; the outcome is that of RequestVariants for that prompt |

## Left out

- Loading `language.txt` and `data.json` and the `JSON.parse` (`StorageManager.loadFile`, lines 59-62 and 86-88) are left out: storage I/O. The folder's contents are given as a `VideoFolder` value.
- `CONFIG.vertexAi.generationPrompt` is left out as configuration: the template is a parameter.
- `VertexHelper.generate` is left out as a network call: the n-th reply is the oracle `generate(prompt, n)`, so the replies of different attempts may differ.
- `AppLogger.info` and `AppLogger.warn` (lines 141 and 172-174) are left out: logging only, no effect on the result.
- The regular expression of line 145 is not modelled as a regular expression. It is the `matcher` parameter, which gives the five named groups or no match. Its five groups are not optional, so a match always has all five as strings and `String(...)` changes nothing.
- The conversions `String(x)`, `x.toFixed(2)` and `Number(s)` are left out as runtime number formatting. They are the `NumberFormat` parameter, with NaN as `None`. Infinities and -0 have no counterpart among the model's reals.
- Prompt.DesiredDuration: does not separate -0 from 0, or infinities from other numbers, because the parsed duration is a real.
- Prompt.ExpectedDurationRange: does not model IEEE double rounding. `20 / 100` and the products are computed exactly on reals, so a double result that differs in the last bit is not captured.
- VideoScript.DurationLine: subtracts `start_s` from `end_s` exactly on reals before `toFixed(2)`, while the source subtracts doubles, so a rounding of the difference in the last bit is not captured.
- `AvSegment` cannot hold a null or missing `transcript` or `logos`. For those the source skips the speech or logos line (lines 110 and 119). The model has arrays only, for which both lines are always pushed.
- Strings are sequences of Unicode scalar values rather than UTF-16 code units, so surrogate pairs are not modelled.
- Variants.RequestVariants: the source retries without limit and may never return. The model makes at most `maxAttempts` requests, and its contract states what an empty result means when the bound is reached.
- `demandGenAssets` and the segment fields `av_segment_id`, `audio_segment_ids`, `duration_s` and `details` are read by none of these functions. They are kept in the datatypes only. The source's "details" line lists `labels` and then `objects`, not the `details` field.
- The forEach pushes onto the array the retry loop tests. CollectVariants starts from an empty sequence instead, which is the same value, because the loop runs only while that array is empty.
- The rest of the repository is not part of this model: the storage helpers, the Angular user interface and the Python extraction service.
