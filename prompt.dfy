/**
 * GenerationHelper.resolveGenerationPrompt and
 * GenerationHelper.calculateExpectedDurationRange: the prompt sent to the
 * model is the configured template with five placeholders filled in.
 */
module Prompt {
  import opened Wrappers
  import opened Strings
  import opened VideoScript

  /** What the user asked for on the generation screen. */
  datatype GenerationSettings = GenerationSettings(prompt: string, duration: string, demandGenAssets: bool)

  /**
   * The contents of the video's storage folder that the prompt uses: the
   * text of language.txt and the segments of data.json.
   */
  datatype VideoFolder = VideoFolder(videoLanguage: string, segments: seq<AvSegment>)

  const UserPromptTag: string := "{{userPrompt}}"
  const DurationTag: string := "{{desiredDuration}}"
  const RangeTag: string := "{{expectedDurationRange}}"
  const LanguageTag: string := "{{videoLanguage}}"
  const ScriptTag: string := "{{videoScript}}"

  /** The duration used when the settings give none. */
  const DefaultDuration: real := 30.0

  /**
   * `Number(settings.duration) || 30`: the requested duration when it is a
   * number other than zero; 30 when it is zero or not a number.
   */
  function DesiredDuration(duration: string, fmt: NumberFormat): (d: real)
    ensures d != 0.0
    ensures fmt.parse(duration) == Some(d) || d == DefaultDuration
    ensures forall x :: fmt.parse(duration) == Some(x) && x != 0.0 ==> d == x
  {
    match fmt.parse(duration)
    case Some(x) => if x != 0.0 then x else DefaultDuration
    case None => DefaultDuration
  }

  /** The share of the duration by which the generated video may be shorter or longer. */
  const DurationFraction: real := 20.0 / 100.0

  /** "low-high": the duration less 20% and the duration plus 20%. */
  function ExpectedDurationRange(duration: real, fmt: NumberFormat): (r: string)
    ensures r == fmt.show(4.0 / 5.0 * duration) + "-" + fmt.show(6.0 / 5.0 * duration)
  {
    fmt.show(duration - duration * DurationFraction) + "-" + fmt.show(duration + duration * DurationFraction)
  }

  /** The text put in place of each placeholder. */
  datatype Fillers = Fillers(
    userPrompt: string,
    desiredDuration: string,
    expectedDurationRange: string,
    videoLanguage: string,
    videoScript: string)

  /** The five `replace` calls, in the order the source makes them. */
  function Fill(template: string, v: Fillers): string {
    var s1 := ReplaceFirst(template, UserPromptTag, v.userPrompt);
    var s2 := ReplaceFirst(s1, DurationTag, v.desiredDuration);
    var s3 := ReplaceFirst(s2, RangeTag, v.expectedDurationRange);
    var s4 := ReplaceFirst(s3, LanguageTag, v.videoLanguage);
    ReplaceFirst(s4, ScriptTag, v.videoScript)
  }

  function PromptFillers(folder: VideoFolder, settings: GenerationSettings, fmt: NumberFormat): Fillers {
    var duration := DesiredDuration(settings.duration, fmt);
    Fillers(
      settings.prompt,
      fmt.show(duration),
      ExpectedDurationRange(duration, fmt),
      folder.videoLanguage,
      ScriptText(folder.segments, fmt))
  }

  /** The prompt for a video folder and the user's settings. */
  function ResolveGenerationPrompt(template: string, folder: VideoFolder, settings: GenerationSettings, fmt: NumberFormat): string {
    Fill(template, PromptFillers(folder, settings, fmt))
  }

  /**
   * The whole prompt: a template holding the placeholders in the order of
   * the calls becomes the template with the user's prompt, the duration,
   * its range, the folder's language and its script in their places, as
   * long as each placeholder is the leftmost copy of itself once the
   * earlier ones are filled, and no filler holds a "$" pattern.
   * (FirstCharAbsent gives the first condition when no "{" comes first.)
   */
  lemma ResolveInOrder(p0: string, p1: string, p2: string, p3: string, p4: string, p5: string,
                       folder: VideoFolder, settings: GenerationSettings, fmt: NumberFormat, d: real)
    requires d == DesiredDuration(settings.duration, fmt)
    requires LeftmostAfter(p0, UserPromptTag)
    requires LeftmostAfter(p0 + settings.prompt + p1, DurationTag)
    requires LeftmostAfter(p0 + settings.prompt + p1 + fmt.show(d) + p2, RangeTag)
    requires LeftmostAfter(p0 + settings.prompt + p1 + fmt.show(d) + p2
                           + (fmt.show(4.0 / 5.0 * d) + "-" + fmt.show(6.0 / 5.0 * d)) + p3, LanguageTag)
    requires LeftmostAfter(p0 + settings.prompt + p1 + fmt.show(d) + p2
                           + (fmt.show(4.0 / 5.0 * d) + "-" + fmt.show(6.0 / 5.0 * d)) + p3 + folder.videoLanguage + p4, ScriptTag)
    requires NoDollarPattern(settings.prompt) && NoDollarPattern(fmt.show(d)) && NoDollarPattern(folder.videoLanguage)
    requires NoDollarPattern(fmt.show(4.0 / 5.0 * d)) && NoDollarPattern(fmt.show(6.0 / 5.0 * d))
    requires NoDollarPattern(ScriptText(folder.segments, fmt))
    ensures ResolveGenerationPrompt(p0 + UserPromptTag + p1 + DurationTag + p2 + RangeTag + p3 + LanguageTag + p4 + ScriptTag + p5, folder, settings, fmt)
         == p0 + settings.prompt + p1 + fmt.show(d) + p2 + fmt.show(4.0 / 5.0 * d) + "-" + fmt.show(6.0 / 5.0 * d)
            + p3 + folder.videoLanguage + p4 + ScriptText(folder.segments, fmt) + p5
  {
    var template := p0 + UserPromptTag + p1 + DurationTag + p2 + RangeTag + p3 + LanguageTag + p4 + ScriptTag + p5;
    var v := PromptFillers(folder, settings, fmt);
    var lo, hi := fmt.show(4.0 / 5.0 * d), fmt.show(6.0 / 5.0 * d);
    var a, b, l, sc := settings.prompt, fmt.show(d), folder.videoLanguage, ScriptText(folder.segments, fmt);
    assert v == Fillers(a, b, lo + "-" + hi, l, sc);
    NoDollarPatternDash(lo, hi);
    FillInOrder(p0, p1, p2, p3, p4, p5, v);
    assert ResolveGenerationPrompt(template, folder, settings, fmt) == Fill(template, v);
    Spread(p0, a, p1, b, p2, lo, "-", hi, p3, l, p4, sc, p5);
  }

  lemma Spread<T>(p0: seq<T>, a: seq<T>, p1: seq<T>, b: seq<T>, p2: seq<T>, lo: seq<T>, m: seq<T>, hi: seq<T>,
                  p3: seq<T>, l: seq<T>, p4: seq<T>, s: seq<T>, p5: seq<T>)
    ensures p0 + a + p1 + b + p2 + (lo + m + hi) + p3 + l + p4 + s + p5
         == p0 + a + p1 + b + p2 + lo + m + hi + p3 + l + p4 + s + p5
  {
  }

  /** A template without placeholders is the prompt as it is. */
  lemma FillWithoutPlaceholders(template: string, v: Fillers)
    requires !Contains(template, UserPromptTag) && !Contains(template, DurationTag)
    requires !Contains(template, RangeTag) && !Contains(template, LanguageTag)
    requires !Contains(template, ScriptTag)
    ensures Fill(template, v) == template
  {
  }

  /**
   * A template holding the placeholders in the order of the calls is
   * filled in place, as long as each placeholder is the leftmost copy of
   * itself once the earlier ones are filled and no filler holds a "$"
   * pattern. Later text may hold the placeholders again: those copies stay.
   */
  lemma FillInOrder(p0: string, p1: string, p2: string, p3: string, p4: string, p5: string, v: Fillers)
    requires LeftmostAfter(p0, UserPromptTag)
    requires LeftmostAfter(p0 + v.userPrompt + p1, DurationTag)
    requires LeftmostAfter(p0 + v.userPrompt + p1 + v.desiredDuration + p2, RangeTag)
    requires LeftmostAfter(p0 + v.userPrompt + p1 + v.desiredDuration + p2 + v.expectedDurationRange + p3, LanguageTag)
    requires LeftmostAfter(p0 + v.userPrompt + p1 + v.desiredDuration + p2 + v.expectedDurationRange + p3 + v.videoLanguage + p4, ScriptTag)
    requires NoDollarPattern(v.userPrompt) && NoDollarPattern(v.desiredDuration) && NoDollarPattern(v.expectedDurationRange)
    requires NoDollarPattern(v.videoLanguage) && NoDollarPattern(v.videoScript)
    ensures Fill(p0 + UserPromptTag + p1 + DurationTag + p2 + RangeTag + p3 + LanguageTag + p4 + ScriptTag + p5, v)
         == p0 + v.userPrompt + p1 + v.desiredDuration + p2 + v.expectedDurationRange + p3 + v.videoLanguage + p4 + v.videoScript + p5
  {
    var a, b, c, l := v.userPrompt, v.desiredDuration, v.expectedDurationRange, v.videoLanguage;
    var r4 := p4 + ScriptTag + p5;
    var r3 := p3 + LanguageTag + r4;
    var r2 := p2 + RangeTag + r3;
    var r1 := p1 + DurationTag + r2;
    Nest(p0, UserPromptTag, p1, DurationTag, p2, RangeTag, p3, LanguageTag, p4, ScriptTag, p5);
    ReplaceFirstAt(p0, UserPromptTag, r1, a);
    Regroup(p0, a, p1, DurationTag, r2);
    ReplaceFirstAt(p0 + a + p1, DurationTag, r2, b);
    Regroup(p0 + a + p1, b, p2, RangeTag, r3);
    ReplaceFirstAt(p0 + a + p1 + b + p2, RangeTag, r3, c);
    Regroup(p0 + a + p1 + b + p2, c, p3, LanguageTag, r4);
    ReplaceFirstAt(p0 + a + p1 + b + p2 + c + p3, LanguageTag, r4, l);
    Regroup(p0 + a + p1 + b + p2 + c + p3, l, p4, ScriptTag, p5);
    ReplaceFirstAt(p0 + a + p1 + b + p2 + c + p3 + l + p4, ScriptTag, p5, v.videoScript);
  }

  lemma Nest<T>(p0: seq<T>, u: seq<T>, p1: seq<T>, d: seq<T>, p2: seq<T>, r: seq<T>, p3: seq<T>, l: seq<T>, p4: seq<T>, s: seq<T>, p5: seq<T>)
    ensures p0 + u + p1 + d + p2 + r + p3 + l + p4 + s + p5 == p0 + u + (p1 + d + (p2 + r + (p3 + l + (p4 + s + p5))))
  {
  }

  lemma Regroup<T>(a: seq<T>, b: seq<T>, c: seq<T>, x: seq<T>, r: seq<T>)
    ensures a + b + (c + x + r) == a + b + c + x + r
  {
  }

  /** Letters by which the placeholders tell each other apart. */
  lemma TagLetters()
    ensures DurationTag[9] == 'D' && RangeTag[10] == 'D' && LanguageTag[7] == 'L' && ScriptTag[7] == 'S'
    ensures 'D' !in UserPromptTag && 'L' !in UserPromptTag && 'S' !in UserPromptTag
    ensures 'D' !in ScriptTag && 'L' !in ScriptTag && '$' !in ScriptTag
  {
  }

  /**
   * The replacements act on the text the earlier ones inserted: a user
   * prompt that is the script placeholder is itself replaced by the script
   * (whose "$" patterns are expanded).
   */
  lemma PlaceholderInPrompt(v: Fillers)
    requires v.userPrompt == ScriptTag
    ensures Fill(UserPromptTag, v) == Substitution(v.videoScript, ScriptTag, "", "")
  {
    TagLetters();
    var s1 := ReplaceFirst(UserPromptTag, UserPromptTag, ScriptTag);
    ReplaceFirstWhole(UserPromptTag, ScriptTag);
    SubstitutionLiteral(ScriptTag, UserPromptTag, "", "");
    assert s1 == ScriptTag;
    MissingCharacter(ScriptTag, DurationTag, 9);
    MissingCharacter(ScriptTag, RangeTag, 10);
    MissingCharacter(ScriptTag, LanguageTag, 7);
    var s4 := ReplaceFirst(ReplaceFirst(ReplaceFirst(s1, DurationTag, v.desiredDuration), RangeTag, v.expectedDurationRange), LanguageTag, v.videoLanguage);
    assert s4 == ScriptTag;
    ReplaceFirstWhole(ScriptTag, v.videoScript);
  }

  /**
   * The user's prompt is a replacement pattern, not literal text: a prompt
   * "$&" puts the placeholder it replaces back.
   */
  lemma DollarInPrompt(v: Fillers)
    requires v.userPrompt == "$&"
    ensures Fill(UserPromptTag, v) == UserPromptTag
  {
    ReplaceFirstDollarPatterns(UserPromptTag);
    TagLetters();
    MissingCharacter(UserPromptTag, DurationTag, 9);
    MissingCharacter(UserPromptTag, RangeTag, 10);
    MissingCharacter(UserPromptTag, LanguageTag, 7);
    MissingCharacter(UserPromptTag, ScriptTag, 7);
  }
}
