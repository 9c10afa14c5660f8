/**
 * GenerationHelper.generateVariants: asks the model for combinations of
 * scenes until its reply holds at least one well-formed combination, and
 * turns each well-formed block of the reply into a variant record.
 */
module Variants {
  import opened Wrappers
  import opened Strings
  import opened VideoScript
  import opened Prompt

  /**
   * The named groups of the variant regular expression: the texts after
   * "Title:", "Scenes:", "Reasoning:" and "Score:", and everything after
   * the "ABCD:" line.
   */
  datatype FieldGroups = FieldGroups(title: string, scenes: string, description: string, score: string, reasoning: string)

  /** One proposed combination of scenes. A None number is NaN. */
  datatype Variant = Variant(
    combo_id: nat,
    title: string,
    scenes: seq<Option<real>>,
    description: string,
    score: Option<real>,
    reasoning: string)

  /** Blocks of the reply are separated by two empty lines. */
  const ChunkSeparator: string := "\n\n\n"

  /** Scene numbers are separated by a comma and a space. */
  const SceneSeparator: string := ", "

  /**
   * `scenes.trim().split(', ').filter(Boolean)`: the scene numbers as text;
   * none is empty and none holds the separator.
   */
  function ScenePieces(scenes: string): (r: seq<string>)
    ensures forall k :: 0 <= k < |r| ==> r[k] != "" && !Contains(r[k], SceneSeparator)
  {
    var pieces := Split(Trim(scenes), SceneSeparator);
    SplitPiecesFree(Trim(scenes), SceneSeparator);
    PiecesStayFree(pieces);
    NonEmpty(pieces)
  }

  lemma PiecesStayFree(pieces: seq<string>)
    requires forall k :: 0 <= k < |pieces| ==> !Contains(pieces[k], SceneSeparator)
    ensures forall k :: 0 <= k < |NonEmpty(pieces)| ==> NonEmpty(pieces)[k] != "" && !Contains(NonEmpty(pieces)[k], SceneSeparator)
  {
    var r := NonEmpty(pieces);
    forall k | 0 <= k < |r|
      ensures r[k] != "" && !Contains(r[k], SceneSeparator)
    {
      assert r[k] in r;
      assert r[k] in pieces;
    }
  }

  /** An empty or all-whitespace scene list gives no scene numbers, not one empty one. */
  lemma ScenePiecesBlank(scenes: string)
    requires AllWhitespace(scenes)
    ensures ScenePieces(scenes) == []
  {
    TrimEmptyIff(scenes);
    assert Split("", SceneSeparator) == [""];
    assert NonEmpty([""]) == [] + NonEmpty([]);
  }

  /**
   * Scene numbers written out with the separator split back into the same
   * numbers, as long as each is non-empty, has no comma and no whitespace
   * at either end. This holds for the empty list too.
   */
  lemma ScenePiecesJoin(ids: seq<string>)
    requires forall k :: 0 <= k < |ids| ==> ids[k] != "" && ',' !in ids[k] && IsTrimmed(ids[k])
    ensures ScenePieces(Join(ids, SceneSeparator)) == ids
  {
    if ids == [] {
      ScenePiecesBlank("");
    } else {
      var s := Join(ids, SceneSeparator);
      JoinTrimmed(ids, SceneSeparator);
      TrimTrimmed(s);
      SplitJoin(ids, SceneSeparator);
      NonEmptyKeepsAll(ids);
      assert ScenePieces(s) == NonEmpty(Split(Trim(s), SceneSeparator));
    }
  }

  /** `.map(scene => Number(scene))` over the scene pieces. */
  function ParseScenes(scenes: string, fmt: NumberFormat): (r: seq<Option<real>>)
    ensures |r| == |ScenePieces(scenes)|
    ensures forall k :: 0 <= k < |r| ==> r[k] == fmt.parse(ScenePieces(scenes)[k])
  {
    var pieces := ScenePieces(scenes);
    seq(|pieces|, k requires 0 <= k < |pieces| => fmt.parse(pieces[k]))
  }

  /**
   * Scene numbers written out with the separator are read back one by one,
   * in order, under the conditions of ScenePiecesJoin.
   */
  lemma ParseScenesJoin(ids: seq<string>, fmt: NumberFormat)
    requires forall k :: 0 <= k < |ids| ==> ids[k] != "" && ',' !in ids[k] && IsTrimmed(ids[k])
    ensures |ParseScenes(Join(ids, SceneSeparator), fmt)| == |ids|
    ensures forall k :: 0 <= k < |ids| ==> ParseScenes(Join(ids, SceneSeparator), fmt)[k] == fmt.parse(ids[k])
  {
    ScenePiecesJoin(ids);
  }

  /** The record for the block at position `index` of the reply; records are numbered from 1. */
  function BuildVariant(index: nat, g: FieldGroups, fmt: NumberFormat): (v: Variant)
    ensures v.combo_id == index + 1
  {
    Variant(
      index + 1,
      Trim(g.title),
      ParseScenes(g.scenes, fmt),
      Trim(g.description),
      fmt.parse(Trim(g.score)),
      Trim(g.reasoning))
  }

  /** The texts of a record have no whitespace at either end, and its score is read from the trimmed text. */
  lemma BuildVariantTrimmed(index: nat, g: FieldGroups, fmt: NumberFormat)
    ensures var v := BuildVariant(index, g, fmt);
      && IsTrimmed(v.title) && IsTrimmed(v.description) && IsTrimmed(v.reasoning)
      && v.score == fmt.parse(Trim(g.score)) && IsTrimmed(Trim(g.score))
  {
    TrimIsTrimmed(g.title);
    TrimIsTrimmed(g.description);
    TrimIsTrimmed(g.reasoning);
    TrimIsTrimmed(g.score);
  }

  /** A block of the reply that the pattern matches: its position and the groups of the match. */
  datatype BlockMatch = BlockMatch(index: nat, groups: FieldGroups)

  /**
   * The matches among the first `n` blocks, in the order of the blocks;
   * `matcher` stands for the regular expression.
   */
  function Matches(chunks: seq<string>, n: nat, matcher: string -> Option<FieldGroups>): (r: seq<BlockMatch>)
    requires n <= |chunks|
    ensures |r| <= n
  {
    if n == 0 then []
    else
      match matcher(chunks[n - 1])
      case Some(g) => Matches(chunks, n - 1, matcher) + [BlockMatch(n - 1, g)]
      case None => Matches(chunks, n - 1, matcher)
  }

  /** The record of each match, in order. */
  function Build(ms: seq<BlockMatch>, fmt: NumberFormat): (r: seq<Variant>)
    ensures |r| == |ms|
    ensures forall i :: 0 <= i < |ms| ==> r[i] == BuildVariant(ms[i].index, ms[i].groups, fmt)
  {
    seq(|ms|, i requires 0 <= i < |ms| => BuildVariant(ms[i].index, ms[i].groups, fmt))
  }

  /** The records of the first `n` blocks: one for each block the pattern matches. */
  function Records(chunks: seq<string>, n: nat, matcher: string -> Option<FieldGroups>, fmt: NumberFormat): seq<Variant>
    requires n <= |chunks|
  {
    Build(Matches(chunks, n, matcher), fmt)
  }

  /** The records of all the blocks. */
  function ParseChunks(chunks: seq<string>, matcher: string -> Option<FieldGroups>, fmt: NumberFormat): (r: seq<Variant>)
    ensures |r| <= |chunks|
  {
    Records(chunks, |chunks|, matcher, fmt)
  }

  /** The records of one reply of the model. */
  function ParseReply(reply: string, matcher: string -> Option<FieldGroups>, fmt: NumberFormat): seq<Variant> {
    ParseChunks(Split(reply, ChunkSeparator), matcher, fmt)
  }

  /** The loop step for a block the pattern matches: its record is pushed. */
  lemma RecordAdded(chunks: seq<string>, index: nat, matcher: string -> Option<FieldGroups>, fmt: NumberFormat, variants: seq<Variant>, g: FieldGroups)
    requires index < |chunks| && variants == Records(chunks, index, matcher, fmt)
    requires matcher(chunks[index]) == Some(g)
    ensures variants + [BuildVariant(index, g, fmt)] == Records(chunks, index + 1, matcher, fmt)
  {
    var ms := Matches(chunks, index, matcher);
    assert Matches(chunks, index + 1, matcher) == ms + [BlockMatch(index, g)];
    assert Build(ms + [BlockMatch(index, g)], fmt) == Build(ms, fmt) + [BuildVariant(index, g, fmt)];
  }

  /** The loop step for a block the pattern does not match: nothing is pushed. */
  lemma NoRecordAdded(chunks: seq<string>, index: nat, matcher: string -> Option<FieldGroups>, fmt: NumberFormat, variants: seq<Variant>)
    requires index < |chunks| && variants == Records(chunks, index, matcher, fmt)
    requires matcher(chunks[index]).None?
    ensures variants == Records(chunks, index + 1, matcher, fmt)
  {
    assert Matches(chunks, index + 1, matcher) == Matches(chunks, index, matcher);
  }

  /** Every match is of one of the first `n` blocks, with the groups the pattern gives for that block. */
  lemma {:induction false} MatchesSound(chunks: seq<string>, n: nat, matcher: string -> Option<FieldGroups>)
    requires n <= |chunks|
    ensures forall i :: 0 <= i < |Matches(chunks, n, matcher)| ==>
      && Matches(chunks, n, matcher)[i].index < n
      && matcher(chunks[Matches(chunks, n, matcher)[i].index]) == Some(Matches(chunks, n, matcher)[i].groups)
    decreases n
  {
    if n > 0 {
      MatchesSound(chunks, n - 1, matcher);
      var p := Matches(chunks, n - 1, matcher);
      var r := Matches(chunks, n, matcher);
      forall i | 0 <= i < |r|
        ensures r[i].index < n && matcher(chunks[r[i].index]) == Some(r[i].groups)
      {
        if i < |p| {
          assert r[i] == p[i];
        }
      }
    }
  }

  /** The matches come in strictly increasing order of position. */
  lemma {:induction false} MatchesOrdered(chunks: seq<string>, n: nat, matcher: string -> Option<FieldGroups>)
    requires n <= |chunks|
    ensures forall i, j :: 0 <= i < j < |Matches(chunks, n, matcher)| ==>
      Matches(chunks, n, matcher)[i].index < Matches(chunks, n, matcher)[j].index
    decreases n
  {
    if n > 0 {
      MatchesOrdered(chunks, n - 1, matcher);
      MatchesSound(chunks, n - 1, matcher);
      var p := Matches(chunks, n - 1, matcher);
      var r := Matches(chunks, n, matcher);
      forall i, j | 0 <= i < j < |r|
        ensures r[i].index < r[j].index
      {
        assert r[i] == p[i];
        if j < |p| {
          assert r[j] == p[j];
        }
      }
    }
  }

  /** A block the pattern matches is among the matches. */
  lemma {:induction false} MatchedChunkIsMatch(chunks: seq<string>, n: nat, matcher: string -> Option<FieldGroups>, k: nat)
    requires k < n <= |chunks| && matcher(chunks[k]).Some?
    ensures exists i :: 0 <= i < |Matches(chunks, n, matcher)| && Matches(chunks, n, matcher)[i].index == k
    decreases n
  {
    var r := Matches(chunks, n, matcher);
    var p := Matches(chunks, n - 1, matcher);
    if k == n - 1 {
      assert r[|p|].index == k;
    } else {
      MatchedChunkIsMatch(chunks, n - 1, matcher, k);
      var i :| 0 <= i < |p| && p[i].index == k;
      assert r[i] == p[i];
    }
  }

  /** The first `n` blocks give no match exactly when the pattern matches none of them. */
  lemma {:induction false} MatchesEmpty(chunks: seq<string>, n: nat, matcher: string -> Option<FieldGroups>)
    requires n <= |chunks|
    ensures Matches(chunks, n, matcher) == [] <==> forall k :: 0 <= k < n ==> matcher(chunks[k]).None?
    decreases n
  {
    if n > 0 {
      MatchesEmpty(chunks, n - 1, matcher);
      assert (forall k :: 0 <= k < n ==> matcher(chunks[k]).None?)
         <==> (forall k :: 0 <= k < n - 1 ==> matcher(chunks[k]).None?) && matcher(chunks[n - 1]).None?;
    }
  }

  /**
   * `v` is the record of a block of `chunks` that the pattern matches: its
   * number is the position of that block plus one, and it is built from
   * that match.
   */
  predicate FromChunk(v: Variant, chunks: seq<string>, matcher: string -> Option<FieldGroups>, fmt: NumberFormat) {
    && 1 <= v.combo_id <= |chunks|
    && matcher(chunks[v.combo_id - 1]).Some?
    && v == BuildVariant(v.combo_id - 1, matcher(chunks[v.combo_id - 1]).value, fmt)
  }

  /** Every record comes from a block the pattern matches, and is numbered after its position. */
  lemma ParseChunksSound(chunks: seq<string>, matcher: string -> Option<FieldGroups>, fmt: NumberFormat)
    ensures forall i :: 0 <= i < |ParseChunks(chunks, matcher, fmt)| ==> FromChunk(ParseChunks(chunks, matcher, fmt)[i], chunks, matcher, fmt)
  {
    var ms := Matches(chunks, |chunks|, matcher);
    MatchesSound(chunks, |chunks|, matcher);
    var r := ParseChunks(chunks, matcher, fmt);
    forall i | 0 <= i < |r|
      ensures FromChunk(r[i], chunks, matcher, fmt)
    {
      assert r[i] == BuildVariant(ms[i].index, ms[i].groups, fmt);
    }
  }

  /** The records are numbered in strictly increasing order, so no block gives two. */
  lemma ParseChunksOrdered(chunks: seq<string>, matcher: string -> Option<FieldGroups>, fmt: NumberFormat)
    ensures forall i, j :: 0 <= i < j < |ParseChunks(chunks, matcher, fmt)| ==>
      ParseChunks(chunks, matcher, fmt)[i].combo_id < ParseChunks(chunks, matcher, fmt)[j].combo_id
  {
    var ms := Matches(chunks, |chunks|, matcher);
    MatchesOrdered(chunks, |chunks|, matcher);
    var r := ParseChunks(chunks, matcher, fmt);
    forall i, j | 0 <= i < j < |r|
      ensures r[i].combo_id < r[j].combo_id
    {
      assert r[i].combo_id == ms[i].index + 1 && r[j].combo_id == ms[j].index + 1;
    }
  }

  /**
   * A block gives a record exactly when the pattern matches it; a block it
   * does not match leaves its number out.
   */
  lemma ParseChunksComplete(chunks: seq<string>, matcher: string -> Option<FieldGroups>, fmt: NumberFormat, k: nat)
    requires k < |chunks|
    ensures (exists i :: 0 <= i < |ParseChunks(chunks, matcher, fmt)| && ParseChunks(chunks, matcher, fmt)[i].combo_id == k + 1)
        <==> matcher(chunks[k]).Some?
  {
    var ms := Matches(chunks, |chunks|, matcher);
    var r := ParseChunks(chunks, matcher, fmt);
    if matcher(chunks[k]).Some? {
      MatchedChunkIsMatch(chunks, |chunks|, matcher, k);
      var i :| 0 <= i < |ms| && ms[i].index == k;
      assert r[i].combo_id == k + 1;
    } else {
      MatchesSound(chunks, |chunks|, matcher);
      forall i | 0 <= i < |r|
        ensures r[i].combo_id != k + 1
      {
        assert r[i].combo_id == ms[i].index + 1;
      }
    }
  }

  /** A reply gives no record exactly when the pattern matches none of its blocks. */
  lemma ParseChunksEmpty(chunks: seq<string>, matcher: string -> Option<FieldGroups>, fmt: NumberFormat)
    ensures ParseChunks(chunks, matcher, fmt) == [] <==> forall k :: 0 <= k < |chunks| ==> matcher(chunks[k]).None?
  {
    MatchesEmpty(chunks, |chunks|, matcher);
  }

  /**
   * After `iteration` calls: every earlier reply gave no record and the
   * records are those of the last reply.
   */
  predicate Attempted(prompt: string, generate: (string, nat) -> string, matcher: string -> Option<FieldGroups>, fmt: NumberFormat, variants: seq<Variant>, iteration: nat) {
    && (forall n :: 1 <= n < iteration ==> ParseReply(generate(prompt, n), matcher, fmt) == [])
    && (iteration == 0 ==> variants == [])
    && (iteration != 0 ==> variants == ParseReply(generate(prompt, iteration), matcher, fmt))
  }

  /**
   * What the attempts loop leaves behind: at most `maxAttempts` calls, the
   * records of the last reply after replies that gave none, and an empty
   * result only when the calls ran out.
   */
  predicate AttemptsOutcome(prompt: string, generate: (string, nat) -> string, matcher: string -> Option<FieldGroups>, fmt: NumberFormat, maxAttempts: nat, variants: seq<Variant>, iteration: nat) {
    && iteration <= maxAttempts
    && Attempted(prompt, generate, matcher, fmt, variants, iteration)
    && (variants == [] ==> iteration == maxAttempts)
  }

  /** One more call after replies that all gave no record. */
  lemma AttemptedNext(prompt: string, generate: (string, nat) -> string, matcher: string -> Option<FieldGroups>, fmt: NumberFormat, variants: seq<Variant>, iteration: nat, next: seq<Variant>)
    requires Attempted(prompt, generate, matcher, fmt, variants, iteration) && variants == []
    requires next == ParseReply(generate(prompt, iteration + 1), matcher, fmt)
    ensures Attempted(prompt, generate, matcher, fmt, next, iteration + 1)
  {
    forall n | 1 <= n < iteration + 1
      ensures ParseReply(generate(prompt, n), matcher, fmt) == []
    {
      if n == iteration {
        assert iteration != 0;
      }
    }
  }

  /**
   * When the loop stops (a reply gave records, or the calls ran out), it
   * comes back empty exactly when none of the replies it may ask for gives
   * a record.
   */
  lemma AttemptsOutcomeEmpty(prompt: string, generate: (string, nat) -> string, matcher: string -> Option<FieldGroups>, fmt: NumberFormat, maxAttempts: nat, variants: seq<Variant>, iteration: nat)
    requires Attempted(prompt, generate, matcher, fmt, variants, iteration) && iteration <= maxAttempts
    requires variants != [] || iteration == maxAttempts
    ensures AttemptsOutcome(prompt, generate, matcher, fmt, maxAttempts, variants, iteration)
    ensures variants == [] <==> forall n :: 1 <= n <= maxAttempts ==> ParseReply(generate(prompt, n), matcher, fmt) == []
  {
    if variants != [] {
      assert 1 <= iteration <= maxAttempts && ParseReply(generate(prompt, iteration), matcher, fmt) != [];
    }
  }

  /**
   * The prompt is resolved once; then the model is asked until a reply
   * gives records (RequestVariants).
   */
  method GenerateVariants(
    template: string, folder: VideoFolder, settings: GenerationSettings, fmt: NumberFormat,
    generate: (string, nat) -> string, matcher: string -> Option<FieldGroups>, maxAttempts: nat)
    returns (variants: seq<Variant>, iteration: nat)
    ensures AttemptsOutcome(ResolveGenerationPrompt(template, folder, settings, fmt), generate, matcher, fmt, maxAttempts, variants, iteration)
    ensures variants == [] <==> forall n :: 1 <= n <= maxAttempts ==>
      ParseReply(generate(ResolveGenerationPrompt(template, folder, settings, fmt), n), matcher, fmt) == []
  {
    var prompt := ResolveGenerationPrompt(template, folder, settings, fmt);
    variants, iteration := RequestVariants(prompt, generate, matcher, fmt, maxAttempts);
  }

  /**
   * The source's loop runs until a reply gives at least one record, with no
   * bound; here it makes at most `maxAttempts` calls. `generate(prompt, n)`
   * is the model's reply to the prompt on the n-th call. The result is
   * empty exactly when none of the replies gives a record.
   */
  method RequestVariants(prompt: string, generate: (string, nat) -> string, matcher: string -> Option<FieldGroups>, fmt: NumberFormat, maxAttempts: nat) returns (variants: seq<Variant>, iteration: nat)
    ensures AttemptsOutcome(prompt, generate, matcher, fmt, maxAttempts, variants, iteration)
    ensures variants == [] <==> forall n :: 1 <= n <= maxAttempts ==> ParseReply(generate(prompt, n), matcher, fmt) == []
  {
    variants := [];
    iteration := 0;
    while variants == [] && iteration < maxAttempts
      invariant Attempted(prompt, generate, matcher, fmt, variants, iteration)
      invariant iteration <= maxAttempts
      decreases maxAttempts - iteration
    {
      var next := RequestOnce(prompt, generate, matcher, fmt, iteration + 1);
      AttemptedNext(prompt, generate, matcher, fmt, variants, iteration, next);
      iteration, variants := iteration + 1, next;
    }
    AttemptsOutcomeEmpty(prompt, generate, matcher, fmt, maxAttempts, variants, iteration);
  }

  /** One call of the model: its reply is split into blocks and the records of the blocks are collected. */
  method RequestOnce(prompt: string, generate: (string, nat) -> string, matcher: string -> Option<FieldGroups>, fmt: NumberFormat, n: nat) returns (variants: seq<Variant>)
    ensures variants == ParseReply(generate(prompt, n), matcher, fmt)
  {
    var response := generate(prompt, n);
    var results := Split(response, ChunkSeparator);
    variants := CollectVariants(results, matcher, fmt);
  }

  /**
   * `results.forEach(...)`: pushes the record of every block the pattern
   * matches, in order. The source pushes onto the loop's array, which is
   * empty whenever this runs.
   */
  method CollectVariants(results: seq<string>, matcher: string -> Option<FieldGroups>, fmt: NumberFormat) returns (variants: seq<Variant>)
    ensures variants == ParseChunks(results, matcher, fmt)
  {
    variants := [];
    var index := 0;
    while index < |results|
      invariant index <= |results|
      invariant variants == Records(results, index, matcher, fmt)
    {
      var found := matcher(results[index]);
      if found.Some? {
        RecordAdded(results, index, matcher, fmt, variants, found.value);
        variants := variants + [BuildVariant(index, found.value, fmt)];
      } else {
        NoRecordAdded(results, index, matcher, fmt, variants);
      }
      index := index + 1;
    }
  }
}
