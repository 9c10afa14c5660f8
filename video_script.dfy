/**
 * GenerationHelper.createVideoScript: renders the audio/visual segments of
 * a video into a textual script, one block of lines per scene.
 */
module VideoScript {
  import opened Wrappers
  import opened Strings

  /** One audio/visual segment, as read from the folder's data.json. Times are in seconds. */
  datatype AvSegment = AvSegment(
    av_segment_id: int,
    description: string,
    visual_segment_ids: seq<int>,
    audio_segment_ids: seq<int>,
    start_s: real,
    end_s: real,
    duration_s: real,
    transcript: seq<string>,
    labels: seq<string>,
    objects: seq<string>,
    text: seq<string>,
    logos: seq<string>,
    details: seq<string>,
    keywords: string)

  /**
   * How the JavaScript runtime converts between numbers and strings, which
   * this model takes as given: `show` is String(x) (what a template literal
   * inserts), `fixed2` is x.toFixed(2), and `parse` is Number(s), with None
   * for NaN.
   */
  datatype NumberFormat = NumberFormat(show: real -> string, fixed2: real -> string, parse: string -> Option<real>)

  function Quote(t: string): string {
    "\"" + t + "\""
  }

  function QuoteAll(ts: seq<string>): (r: seq<string>)
    ensures |r| == |ts| && forall i :: 0 <= i < |ts| ==> r[i] == Quote(ts[i])
  {
    seq(|ts|, i requires 0 <= i < |ts| => Quote(ts[i]))
  }

  // The lines of a scene block, one function per template of the source.

  function SceneHeader(k: nat): string {
    "Scene " + NatToString(k)
  }

  function TimesLine(seg: AvSegment, fmt: NumberFormat): string {
    fmt.show(seg.start_s) + " --> " + fmt.show(seg.end_s)
  }

  function DurationLine(seg: AvSegment, fmt: NumberFormat): string {
    "Duration: " + (fmt.fixed2(seg.end_s - seg.start_s) + "s")
  }

  function DescriptionLine(description: string): string {
    "Description: " + description
  }

  function ShotsLine(seg: AvSegment): string {
    "Number of visual shots: " + NatToString(|seg.visual_segment_ids|)
  }

  function SpeechLine(seg: AvSegment): string {
    "Off-screen speech: " + Quote(Join(seg.transcript, " "))
  }

  function DetailsLine(seg: AvSegment): string {
    "On-screen details: " + Join(seg.labels + seg.objects, ", ")
  }

  function TextLine(seg: AvSegment): string {
    "On-screen text: " + Join(QuoteAll(seg.text), ", ")
  }

  function LogosLine(seg: AvSegment): string {
    "Logos: " + Join(seg.logos, ", ")
  }

  function KeywordsLine(keywords: string): string {
    "Keywords: " + keywords
  }

  /**
   * The block of lines for the `k`-th scene (numbered from 1): the
   * description and keywords lines appear only when the trimmed text is
   * non-empty.
   */
  function SceneBlock(k: nat, seg: AvSegment, fmt: NumberFormat): seq<string> {
    var description := Trim(seg.description);
    var keywords := Trim(seg.keywords);
    [SceneHeader(k), TimesLine(seg, fmt), DurationLine(seg, fmt)]
    + (if description != "" then [DescriptionLine(description)] else [])
    + [ShotsLine(seg), SpeechLine(seg), DetailsLine(seg), TextLine(seg), LogosLine(seg)]
    + (if keywords != "" then [KeywordsLine(keywords)] else [])
    + [""]
  }

  /** The blocks of all segments, numbered 1, 2, ... in order. */
  function SceneBlocks(segs: seq<AvSegment>, fmt: NumberFormat): (r: seq<seq<string>>)
    ensures |r| == |segs| && forall i :: 0 <= i < |segs| ==> r[i] == SceneBlock(i + 1, segs[i], fmt)
  {
    seq(|segs|, i requires 0 <= i < |segs| => SceneBlock(i + 1, segs[i], fmt))
  }

  /** The sequences of `xss`, one after the other. */
  function Flatten<T>(xss: seq<seq<T>>): seq<T>
    decreases |xss|
  {
    if xss == [] then [] else Flatten(xss[..|xss| - 1]) + xss[|xss| - 1]
  }

  /** The lines of the script: the blocks of all segments, one after the other. */
  function ScriptLines(segs: seq<AvSegment>, fmt: NumberFormat): seq<string> {
    Flatten(SceneBlocks(segs, fmt))
  }

  /** The script: its lines joined with "\n". */
  function ScriptText(segs: seq<AvSegment>, fmt: NumberFormat): string {
    Join(ScriptLines(segs, fmt), "\n")
  }

  lemma ScriptLinesStep(segs: seq<AvSegment>, i: nat, fmt: NumberFormat)
    requires i < |segs|
    ensures ScriptLines(segs[..i + 1], fmt) == ScriptLines(segs[..i], fmt) + SceneBlock(i + 1, segs[i], fmt)
  {
    var bs := SceneBlocks(segs[..i + 1], fmt);
    assert bs[..i] == SceneBlocks(segs[..i], fmt);
    assert bs[i] == SceneBlock(i + 1, segs[i], fmt);
  }

  lemma ScriptLinesLast(segs: seq<AvSegment>, fmt: NumberFormat)
    requires segs != []
    ensures ScriptLines(segs, fmt) == ScriptLines(segs[..|segs| - 1], fmt) + SceneBlock(|segs|, segs[|segs| - 1], fmt)
  {
    ScriptLinesStep(segs, |segs| - 1, fmt);
    assert segs[..|segs|] == segs;
  }

  /** The order in which the lines of a block are pushed, for lines of any type. */
  lemma PushOrder<T>(v: seq<T>, a: T, b: T, c: T, d: seq<T>, e: seq<T>, kw: seq<T>, z: T)
    requires |e| == 5
    ensures v + [a] + [b] + [c] + d + [e[0]] + [e[1]] + [e[2]] + [e[3]] + [e[4]] + kw + [z]
      == v + ([a, b, c] + d + e + kw + [z])
  {
  }

  /**
   * The callback of the loop over the segments: pushes the lines of the
   * scene at `index` onto `videoScript`. The speech, details, text and logos
   * lines are guarded in the source by the truthiness of an array, which
   * holds for every array, the empty one included, so they are always pushed.
   */
  method PushScene(videoScript: seq<string>, avSegment: AvSegment, index: nat, fmt: NumberFormat)
    returns (result: seq<string>)
    ensures result == videoScript + SceneBlock(index + 1, avSegment, fmt)
  {
    result := videoScript;
    result := result + [SceneHeader(index + 1)];
    result := result + [TimesLine(avSegment, fmt)];
    result := result + [DurationLine(avSegment, fmt)];
    var description := Trim(avSegment.description);
    if description != "" {
      result := result + [DescriptionLine(description)];
    }
    ghost var descriptionPart := if description != "" then [DescriptionLine(description)] else [];
    assert result == videoScript + [SceneHeader(index + 1)] + [TimesLine(avSegment, fmt)] + [DurationLine(avSegment, fmt)] + descriptionPart;
    result := result + [ShotsLine(avSegment)];
    var keywords := Trim(avSegment.keywords);
    result := result + [SpeechLine(avSegment)];
    result := result + [DetailsLine(avSegment)];
    result := result + [TextLine(avSegment)];
    result := result + [LogosLine(avSegment)];
    ghost var middle := result;
    if keywords != "" {
      result := result + [KeywordsLine(keywords)];
    }
    ghost var keywordsPart := if keywords != "" then [KeywordsLine(keywords)] else [];
    assert result == middle + keywordsPart;
    result := result + [""];
    PushOrder(videoScript, SceneHeader(index + 1), TimesLine(avSegment, fmt), DurationLine(avSegment, fmt), descriptionPart,
      [ShotsLine(avSegment), SpeechLine(avSegment), DetailsLine(avSegment), TextLine(avSegment), LogosLine(avSegment)], keywordsPart, "");
  }

  /** Builds the script scene by scene and joins its lines with "\n". */
  method CreateVideoScript(segments: seq<AvSegment>, fmt: NumberFormat) returns (script: string)
    ensures script == ScriptText(segments, fmt)
  {
    var videoScript: seq<string> := [];
    var index := 0;
    while index < |segments|
      invariant 0 <= index <= |segments|
      invariant videoScript == ScriptLines(segments[..index], fmt)
    {
      videoScript := PushScene(videoScript, segments[index], index, fmt);
      ScriptLinesStep(segments, index, fmt);
      index := index + 1;
    }
    assert segments[..index] == segments;
    script := Join(videoScript, "\n");
  }

  // ---------------------------------------------------------------------------
  // The shape of a scene block
  // ---------------------------------------------------------------------------

  /** A line of the form "Scene <decimal number>". */
  predicate IsSceneHeader(line: string) {
    |line| > 6 && line[..6] == "Scene " && AllDigits(line[6..])
  }

  lemma SceneHeaderIsHeader(k: nat)
    ensures IsSceneHeader(SceneHeader(k))
  {
    var h := SceneHeader(k);
    assert h[..6] == "Scene " && h[6..] == NatToString(k);
  }

  /** A scene header begins with 'S' and has no '>' in it. */
  lemma HeaderLetters(line: string)
    requires IsSceneHeader(line)
    ensures line[0] == 'S' && '>' !in line
  {
    assert line[0] == line[..6][0];
    forall i | 0 <= i < |line| ensures line[i] != '>' {
      if i < 6 {
        assert line[i] == line[..6][i];
      } else {
        assert line[i] == line[6..][i - 6];
      }
    }
  }

  /** The "start --> end" line holds a '>', whatever the numbers render to. */
  lemma TimesLineArrow(seg: AvSegment, fmt: NumberFormat)
    ensures '>' in TimesLine(seg, fmt)
  {
    var line := TimesLine(seg, fmt);
    assert line[|fmt.show(seg.start_s)| + 3] == '>';
  }

  /** A line that starts with a tag other than 'S...' is never a header. */
  lemma TaggedLineIsNoHeader(tag: string, rest: string)
    requires tag != [] && tag[0] != 'S'
    ensures !IsSceneHeader(tag + rest)
  {
    if IsSceneHeader(tag + rest) {
      HeaderLetters(tag + rest);
    }
  }

  /** Lines that are never scene headers make no headers. */
  lemma {:induction false} HeadersNone(lines: seq<string>)
    requires forall i :: 0 <= i < |lines| ==> !IsSceneHeader(lines[i])
    ensures Headers(lines) == []
    decreases |lines|
  {
    if lines != [] {
      assert !IsSceneHeader(lines[0]);
      HeadersNone(lines[1..]);
    }
  }

  /** The scene-header lines of `lines`, in order. */
  function Headers(lines: seq<string>): (r: seq<string>)
    ensures forall i :: 0 <= i < |r| ==> IsSceneHeader(r[i])
    decreases |lines|
  {
    if lines == [] then []
    else (if IsSceneHeader(lines[0]) then [lines[0]] else []) + Headers(lines[1..])
  }

  lemma {:induction false} HeadersAppend(a: seq<string>, b: seq<string>)
    ensures Headers(a + b) == Headers(a) + Headers(b)
    decreases |a|
  {
    if a == [] {
      assert a + b == b;
    } else {
      var h := if IsSceneHeader(a[0]) then [a[0]] else [];
      assert (a + b)[0] == a[0];
      assert (a + b)[1..] == a[1..] + b;
      HeadersAppend(a[1..], b);
      assert Headers(a + b) == h + (Headers(a[1..]) + Headers(b));
      assert Headers(a) == h + Headers(a[1..]);
    }
  }

  lemma TimingLinesNoHeader(seg: AvSegment, fmt: NumberFormat)
    ensures Headers([TimesLine(seg, fmt), DurationLine(seg, fmt)]) == []
  {
    TimesLineArrow(seg, fmt);
    if IsSceneHeader(TimesLine(seg, fmt)) {
      HeaderLetters(TimesLine(seg, fmt));
    }
    TaggedLineIsNoHeader("Duration: ", fmt.fixed2(seg.end_s - seg.start_s) + "s");
    HeadersNone([TimesLine(seg, fmt), DurationLine(seg, fmt)]);
  }

  lemma AlwaysLinesNoHeader(seg: AvSegment)
    ensures Headers([ShotsLine(seg), SpeechLine(seg), DetailsLine(seg), TextLine(seg), LogosLine(seg)]) == []
  {
    TaggedLineIsNoHeader("Number of visual shots: ", NatToString(|seg.visual_segment_ids|));
    TaggedLineIsNoHeader("Off-screen speech: ", Quote(Join(seg.transcript, " ")));
    TaggedLineIsNoHeader("On-screen details: ", Join(seg.labels + seg.objects, ", "));
    TaggedLineIsNoHeader("On-screen text: ", Join(QuoteAll(seg.text), ", "));
    TaggedLineIsNoHeader("Logos: ", Join(seg.logos, ", "));
    HeadersNone([ShotsLine(seg), SpeechLine(seg), DetailsLine(seg), TextLine(seg), LogosLine(seg)]);
  }

  lemma OptionalLinesNoHeader(description: string, keywords: string)
    ensures Headers(if description != "" then [DescriptionLine(description)] else []) == []
    ensures Headers(if keywords != "" then [KeywordsLine(keywords)] else []) == []
    ensures Headers([""]) == []
  {
    TaggedLineIsNoHeader("Description: ", description);
    TaggedLineIsNoHeader("Keywords: ", keywords);
    HeadersNone(if description != "" then [DescriptionLine(description)] else []);
    HeadersNone(if keywords != "" then [KeywordsLine(keywords)] else []);
    HeadersNone([""]);
  }

  /** A block holds exactly one header: its own. */
  lemma HeadersOfBlock(k: nat, seg: AvSegment, fmt: NumberFormat)
    ensures Headers(SceneBlock(k, seg, fmt)) == [SceneHeader(k)]
  {
    var description := Trim(seg.description);
    var keywords := Trim(seg.keywords);
    var first := [SceneHeader(k), TimesLine(seg, fmt), DurationLine(seg, fmt)];
    var desc := if description != "" then [DescriptionLine(description)] else [];
    var always := [ShotsLine(seg), SpeechLine(seg), DetailsLine(seg), TextLine(seg), LogosLine(seg)];
    var kw := if keywords != "" then [KeywordsLine(keywords)] else [];
    SceneHeaderIsHeader(k);
    TimingLinesNoHeader(seg, fmt);
    assert first[1..] == [TimesLine(seg, fmt), DurationLine(seg, fmt)];
    assert Headers(first) == [SceneHeader(k)];
    AlwaysLinesNoHeader(seg);
    OptionalLinesNoHeader(description, keywords);
    HeadersAppend(first, desc);
    HeadersAppend(first + desc, always);
    HeadersAppend(first + desc + always, kw);
    HeadersAppend(first + desc + always + kw, [""]);
  }

  /** Where the parts of a block end up, for lines of any type. */
  lemma BlockShape<T>(first: seq<T>, d: seq<T>, always: seq<T>, kw: seq<T>, z: T)
    requires |first| == 3 && |d| <= 1 && |always| == 5 && |kw| <= 1
    ensures var b := first + d + always + kw + [z];
      && |b| == 9 + |d| + |kw|
      && b[0] == first[0] && b[1] == first[1] && b[2] == first[2]
      && (|d| == 1 ==> b[3] == d[0])
      && b[3 + |d|] == always[0] && b[4 + |d|] == always[1] && b[5 + |d|] == always[2]
      && b[6 + |d|] == always[3] && b[7 + |d|] == always[4]
      && b[|b| - 2] == (if |kw| == 1 then kw[0] else always[4])
      && b[|b| - 1] == z
  {
  }

  /**
   * The positions of the lines in the block for scene `k`: `o` is 1 when
   * there is a description line and 0 otherwise. Every block starts with
   * its "Scene k" header, then the "start --> end" line and the "Duration:"
   * line; the shot count, speech, details, text and logos lines are always
   * there, even for empty arrays; details list the labels and then the
   * objects; every on-screen text entry is put in double quotes (QuoteAll);
   * the block ends with an empty line.
   */
  lemma SceneBlockLayout(k: nat, seg: AvSegment, fmt: NumberFormat)
    ensures var b := SceneBlock(k, seg, fmt);
      var o := if Trim(seg.description) != "" then 1 else 0;
      && |b| == 9 + o + (if Trim(seg.keywords) != "" then 1 else 0)
      && b[0] == "Scene " + NatToString(k)
      && b[1] == fmt.show(seg.start_s) + " --> " + fmt.show(seg.end_s)
      && b[2] == "Duration: " + (fmt.fixed2(seg.end_s - seg.start_s) + "s")
      && b[3 + o] == "Number of visual shots: " + NatToString(|seg.visual_segment_ids|)
      && b[4 + o] == "Off-screen speech: " + Quote(Join(seg.transcript, " "))
      && b[5 + o] == "On-screen details: " + Join(seg.labels + seg.objects, ", ")
      && b[6 + o] == "On-screen text: " + Join(QuoteAll(seg.text), ", ")
      && b[7 + o] == "Logos: " + Join(seg.logos, ", ")
      && b[|b| - 1] == ""
  {
    BlockPieces(k, seg, fmt);
  }

  /** SceneBlock cut into the parts BlockShape speaks of. */
  lemma BlockPieces(k: nat, seg: AvSegment, fmt: NumberFormat)
    ensures var description := Trim(seg.description);
      var keywords := Trim(seg.keywords);
      var d := if description != "" then [DescriptionLine(description)] else [];
      var kw := if keywords != "" then [KeywordsLine(keywords)] else [];
      var always := [ShotsLine(seg), SpeechLine(seg), DetailsLine(seg), TextLine(seg), LogosLine(seg)];
      && SceneBlock(k, seg, fmt) == [SceneHeader(k), TimesLine(seg, fmt), DurationLine(seg, fmt)] + d + always + kw + [""]
      && var b := SceneBlock(k, seg, fmt);
      && |b| == 9 + |d| + |kw|
      && b[0] == SceneHeader(k) && b[1] == TimesLine(seg, fmt) && b[2] == DurationLine(seg, fmt)
      && (|d| == 1 ==> b[3] == d[0])
      && b[3 + |d|] == always[0] && b[4 + |d|] == always[1] && b[5 + |d|] == always[2]
      && b[6 + |d|] == always[3] && b[7 + |d|] == always[4]
      && b[|b| - 2] == (if |kw| == 1 then kw[0] else always[4])
      && b[|b| - 1] == ""
  {
    var description := Trim(seg.description);
    var keywords := Trim(seg.keywords);
    var d := if description != "" then [DescriptionLine(description)] else [];
    var kw := if keywords != "" then [KeywordsLine(keywords)] else [];
    var always := [ShotsLine(seg), SpeechLine(seg), DetailsLine(seg), TextLine(seg), LogosLine(seg)];
    BlockShape([SceneHeader(k), TimesLine(seg, fmt), DurationLine(seg, fmt)], d, always, kw, "");
  }

  /** The "Description: d" line, fourth in the block, is there exactly when the trimmed description d is non-empty. */
  lemma DescriptionLineIff(k: nat, seg: AvSegment, fmt: NumberFormat)
    ensures var d := Trim(seg.description);
      SceneBlock(k, seg, fmt)[3] == "Description: " + d <==> d != ""
  {
    var d := Trim(seg.description);
    var b := SceneBlock(k, seg, fmt);
    BlockPieces(k, seg, fmt);
    if d == "" {
      assert b[3][0] == 'N';
    }
  }

  /** The "Keywords: w" line, last but one in the block, is there exactly when the trimmed keywords w are non-empty. */
  lemma KeywordsLineIff(k: nat, seg: AvSegment, fmt: NumberFormat)
    ensures var w := Trim(seg.keywords); var b := SceneBlock(k, seg, fmt);
      |b| >= 2 && (b[|b| - 2] == "Keywords: " + w <==> w != "")
  {
    var w := Trim(seg.keywords);
    var b := SceneBlock(k, seg, fmt);
    BlockPieces(k, seg, fmt);
    if w == "" {
      assert b[|b| - 2][0] == 'L';
    }
  }

  // ---------------------------------------------------------------------------
  // Scene headers across the whole script
  // ---------------------------------------------------------------------------

  /** The headers "Scene 1" to "Scene n". */
  function HeaderList(n: nat): (r: seq<string>)
    ensures |r| == n
  {
    if n == 0 then [] else HeaderList(n - 1) + [SceneHeader(n)]
  }

  lemma {:induction false} HeaderListAt(n: nat, k: nat)
    requires k < n
    ensures HeaderList(n)[k] == "Scene " + NatToString(k + 1)
  {
    if k < n - 1 {
      HeaderListAt(n - 1, k);
    }
  }

  /** The script has one "Scene k" header per segment, numbered 1 to n in input order, and no other header. */
  lemma {:induction false} ScriptHeaders(segs: seq<AvSegment>, fmt: NumberFormat)
    ensures Headers(ScriptLines(segs, fmt)) == HeaderList(|segs|)
    decreases |segs|
  {
    if segs != [] {
      var n := |segs|;
      ScriptHeaders(segs[..n - 1], fmt);
      ScriptLinesLast(segs, fmt);
      HeadersAppend(ScriptLines(segs[..n - 1], fmt), SceneBlock(n, segs[n - 1], fmt));
      HeadersOfBlock(n, segs[n - 1], fmt);
    }
  }

  lemma {:induction false} FlattenPrefix<T>(xss: seq<seq<T>>, k: nat)
    requires k < |xss|
    ensures Flatten(xss[..k]) + xss[k] <= Flatten(xss)
    decreases |xss|
  {
    var n := |xss|;
    var init := xss[..n - 1];
    if k == n - 1 {
      assert Flatten(xss) == Flatten(init) + xss[k];
    } else {
      FlattenPrefix(init, k);
      assert init[..k] == xss[..k] && init[k] == xss[k];
      var p := Flatten(xss[..k]) + xss[k];
      assert Flatten(xss) == Flatten(init) + xss[n - 1];
      assert Flatten(xss)[..|p|] == Flatten(init)[..|p|];
    }
  }

  /** The lines of a script are its blocks one after the other: block k (from 0) comes right after the blocks before it. */
  lemma ScriptLinesSplit(segs: seq<AvSegment>, k: nat, fmt: NumberFormat)
    requires k < |segs|
    ensures ScriptLines(segs[..k], fmt) + SceneBlock(k + 1, segs[k], fmt) <= ScriptLines(segs, fmt)
  {
    var bs := SceneBlocks(segs, fmt);
    FlattenPrefix(bs, k);
    assert bs[..k] == SceneBlocks(segs[..k], fmt);
  }

  /** An empty segment list gives the empty script; otherwise the script's last line is empty, so the text ends with "\n". */
  lemma ScriptEnds(segs: seq<AvSegment>, fmt: NumberFormat)
    ensures segs == [] <==> ScriptText(segs, fmt) == ""
    ensures segs != [] ==> var lines := ScriptLines(segs, fmt); lines != [] && lines[|lines| - 1] == ""
  {
    if segs != [] {
      var n := |segs|;
      var lines := ScriptLines(segs, fmt);
      SceneBlockLayout(n, segs[n - 1], fmt);
      ScriptLinesLast(segs, fmt);
      assert lines == ScriptLines(segs[..n - 1], fmt) + SceneBlock(n, segs[n - 1], fmt);
      assert |lines| >= 2;
      assert ScriptText(segs, fmt) == lines[0] + "\n" + Join(lines[1..], "\n");
    }
  }
}
