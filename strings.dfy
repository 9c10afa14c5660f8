/**
 * The JavaScript string built-ins that the generation helpers rely on:
 * String.prototype.trim, split and replace with a string pattern (and the
 * leftmost-occurrence search both make),
 * Array.prototype.join, filter(Boolean) on strings, and String() of an
 * integer-valued number.
 */
module Strings {
  import opened Wrappers

  // ---------------------------------------------------------------------------
  // trim
  // ---------------------------------------------------------------------------

  /**
   * The code points that trim removes: ECMAScript WhiteSpace (section 12.2)
   * and LineTerminator (section 12.3), that is tab, line feed, vertical tab,
   * form feed, carriage return, the space separators of Unicode category Zs,
   * the line and paragraph separators and the byte order mark.
   */
  predicate IsWhitespace(c: char) {
    var n := c as int;
    || 0x09 <= n <= 0x0D || n == 0x20 || n == 0xA0 || n == 0x1680 || 0x2000 <= n <= 0x200A
    || n == 0x2028 || n == 0x2029 || n == 0x202F || n == 0x205F || n == 0x3000 || n == 0xFEFF
  }

  predicate AllWhitespace(s: string)
    decreases |s|
  {
    s == [] || (IsWhitespace(s[0]) && AllWhitespace(s[1..]))
  }

  lemma {:induction false} AllWhitespaceAppend(a: string, b: string)
    ensures AllWhitespace(a + b) <==> AllWhitespace(a) && AllWhitespace(b)
    decreases |a|
  {
    if a == [] {
      assert a + b == b;
    } else {
      assert (a + b)[0] == a[0] && (a + b)[1..] == a[1..] + b;
      AllWhitespaceAppend(a[1..], b);
    }
  }

  /** Neither end of `s` is whitespace. */
  predicate IsTrimmed(s: string) {
    s == [] || (!IsWhitespace(s[0]) && !IsWhitespace(s[|s| - 1]))
  }

  /** String.prototype.trimStart: drops the leading whitespace. */
  function TrimStart(s: string): (r: string)
    ensures |r| <= |s|
    decreases |s|
  {
    if s != [] && IsWhitespace(s[0]) then TrimStart(s[1..]) else s
  }

  /** String.prototype.trimEnd: drops the trailing whitespace. */
  function TrimEnd(s: string): (r: string)
    ensures |r| <= |s|
    decreases |s|
  {
    if s != [] && IsWhitespace(s[|s| - 1]) then TrimEnd(s[..|s| - 1]) else s
  }

  /** String.prototype.trim: cuts the leading and the trailing whitespace off `s`. */
  function Trim(s: string): string {
    TrimEnd(TrimStart(s))
  }

  /** trimStart leaves a suffix of `s`, after a whitespace prefix, that does not start with whitespace. */
  lemma {:induction false} TrimStartShape(s: string)
    ensures var t := TrimStart(s);
      && |t| <= |s| && t == s[|s| - |t|..] && AllWhitespace(s[..|s| - |t|])
      && (t != [] ==> !IsWhitespace(t[0]))
    decreases |s|
  {
    if s != [] && IsWhitespace(s[0]) {
      var t := TrimStart(s[1..]);
      assert TrimStart(s) == t;
      TrimStartShape(s[1..]);
      var p := s[..|s| - |t|];
      assert p[0] == s[0];
      assert p[1..] == s[1..][..|s| - 1 - |t|];
      assert s[1..][|s| - 1 - |t|..] == s[|s| - |t|..];
    } else {
      assert s[..0] == [];
    }
  }

  /** trimEnd leaves a prefix of `s`, before a whitespace suffix, that does not end with whitespace. */
  lemma {:induction false} TrimEndShape(s: string)
    ensures var t := TrimEnd(s);
      && |t| <= |s| && t == s[..|t|] && AllWhitespace(s[|t|..])
      && (t != [] ==> !IsWhitespace(t[|t| - 1]))
    decreases |s|
  {
    if s != [] && IsWhitespace(s[|s| - 1]) {
      var u := s[..|s| - 1];
      var t := TrimEnd(u);
      TrimEndShape(u);
      assert u[..|t|] == s[..|t|];
      assert s[|t|..] == u[|t|..] + [s[|s| - 1]];
      assert [s[|s| - 1]][1..] == [];
      AllWhitespaceAppend(u[|t|..], [s[|s| - 1]]);
    } else {
      assert s[|s|..] == [];
    }
  }

  /** The result of trim has no whitespace at either end. */
  lemma TrimIsTrimmed(s: string)
    ensures IsTrimmed(Trim(s))
  {
    var t := TrimStart(s);
    var r := TrimEnd(t);
    TrimStartShape(s);
    TrimEndShape(t);
    if r != [] {
      assert r[0] == t[0];
    }
  }

  /**
   * The result of trim is what is left of `s` once a whitespace prefix and
   * a whitespace suffix are cut off (TrimSuffix); with TrimIsTrimmed this
   * determines it.
   */
  lemma TrimMiddle(s: string)
    ensures var k := |s| - |TrimStart(s)|; var r := Trim(s);
      && k + |r| <= |s| && r == s[k..k + |r|] && AllWhitespace(s[..k])
  {
    var t := TrimStart(s);
    var r := TrimEnd(t);
    var k := |s| - |t|;
    assert k + |r| <= |s| && r == s[k..k + |r|] && AllWhitespace(s[..k]) by {
      TrimStartShape(s);
      TrimEndShape(t);
      WhitespaceAround(s, t, r);
    }
    assert Trim(s) == r;
  }

  /** What trim cuts off at the end of `s` is whitespace. */
  lemma TrimSuffix(s: string)
    ensures var k := |s| - |TrimStart(s)| + |Trim(s)|;
      k <= |s| && AllWhitespace(s[k..])
  {
    var t := TrimStart(s);
    var r := TrimEnd(t);
    var k := |s| - |t| + |r|;
    assert k <= |s| && AllWhitespace(s[k..]) by {
      TrimStartShape(s);
      TrimEndShape(t);
      assert s[k..] == t[|r|..];
    }
    assert Trim(s) == r;
  }

  /** A prefix `r` of a suffix `t` of `s`, each cut off by whitespace, is a middle slice of `s` between whitespace. */
  lemma WhitespaceAround(s: string, t: string, r: string)
    requires |t| <= |s| && t == s[|s| - |t|..] && AllWhitespace(s[..|s| - |t|])
    requires |r| <= |t| && r == t[..|r|] && AllWhitespace(t[|r|..])
    ensures var k := |s| - |t|;
      && k + |r| <= |s| && r == s[k..k + |r|]
      && AllWhitespace(s[..k]) && AllWhitespace(s[k + |r|..])
  {
    var k := |s| - |t|;
    assert t[|r|..] == s[k + |r|..];
  }

  /** A string of whitespace trims to the empty string. */
  lemma {:induction false} TrimAllWhitespace(s: string)
    requires AllWhitespace(s)
    ensures TrimStart(s) == [] && Trim(s) == []
    decreases |s|
  {
    if s != [] {
      TrimAllWhitespace(s[1..]);
    }
  }

  /** Only a string of whitespace trims to the empty string. */
  lemma TrimEmpty(s: string)
    requires Trim(s) == []
    ensures AllWhitespace(s)
  {
    var t := TrimStart(s);
    TrimStartShape(s);
    TrimEndShape(t);
    assert t[0..] == t;
    assert s == s[..|s| - |t|] + t;
    AllWhitespaceAppend(s[..|s| - |t|], t);
  }

  /** Trim gives the empty string exactly when `s` is all whitespace. */
  lemma TrimEmptyIff(s: string)
    ensures Trim(s) == [] <==> AllWhitespace(s)
  {
    if AllWhitespace(s) {
      TrimAllWhitespace(s);
    }
    if Trim(s) == [] {
      TrimEmpty(s);
    }
  }

  /** Trimming a trimmed string changes nothing, so trim is idempotent. */
  lemma TrimTrimmed(s: string)
    requires IsTrimmed(s)
    ensures Trim(s) == s
  {
  }

  // ---------------------------------------------------------------------------
  // occurrences
  // ---------------------------------------------------------------------------

  /** `pat` occurs in `s` starting at index `i`. */
  predicate OccursAt(s: string, pat: string, i: nat) {
    i + |pat| <= |s| && s[i..i + |pat|] == pat
  }

  predicate Contains(s: string, pat: string) {
    exists i: nat :: i <= |s| && OccursAt(s, pat, i)
  }

  /** `i` is the leftmost index at which `pat` occurs in `s`. */
  predicate FirstOccurrence(s: string, pat: string, i: nat) {
    OccursAt(s, pat, i) && forall j: nat :: j < i ==> !OccursAt(s, pat, j)
  }

  lemma FirstOccurrenceUnique(s: string, pat: string, i: nat, j: nat)
    requires FirstOccurrence(s, pat, i) && FirstOccurrence(s, pat, j)
    ensures i == j
  {
  }

  /** Occurrences in `s[1..]` are the occurrences in `s` shifted by one. */
  lemma OccursInTail(s: string, pat: string)
    requires s != []
    ensures forall j: nat :: 0 < j ==> (OccursAt(s, pat, j) <==> OccursAt(s[1..], pat, j - 1))
  {
    forall j: nat | 0 < j
      ensures OccursAt(s, pat, j) <==> OccursAt(s[1..], pat, j - 1)
    {
      if j + |pat| <= |s| {
        assert s[1..][j - 1..] == s[j..];
        assert s[j..j + |pat|] == s[j..][..|pat|];
        assert s[1..][j - 1..j - 1 + |pat|] == s[1..][j - 1..][..|pat|];
      }
    }
  }

  /** The leftmost occurrence of `pat`, if any: the search that split and replace make. */
  function IndexOf(s: string, pat: string): (r: Option<nat>)
    ensures r.Some? ==> FirstOccurrence(s, pat, r.value)
    ensures r.None? ==> !Contains(s, pat)
    decreases |s|
  {
    if |pat| > |s| then None
    else if s[..|pat|] == pat then Some(0)
    else
      OccursInTail(s, pat);
      assert !OccursAt(s, pat, 0);
      match IndexOf(s[1..], pat)
      case None => None
      case Some(i) => Some(i + 1)
  }

  /** A prefix of `s` that ends at the first occurrence of `pat` does not contain `pat`. */
  lemma BeforeFirstOccurrence(s: string, pat: string, i: nat)
    requires pat != [] && FirstOccurrence(s, pat, i)
    ensures !Contains(s[..i], pat)
  {
    forall j: nat | OccursAt(s[..i], pat, j) ensures false {
      assert s[..i][j..j + |pat|] == s[j..j + |pat|];
      assert OccursAt(s, pat, j);
    }
  }

  // ---------------------------------------------------------------------------
  // split and join
  // ---------------------------------------------------------------------------

  /**
   * String.prototype.split with a non-empty string separator: the pieces
   * between the leftmost non-overlapping occurrences of `sep`. The empty
   * string splits into one empty piece.
   */
  function Split(s: string, sep: string): (r: seq<string>)
    requires sep != []
    ensures r != []
    decreases |s|
  {
    match IndexOf(s, sep)
    case None => [s]
    case Some(i) => [s[..i]] + Split(s[i + |sep|..], sep)
  }

  /** Array.prototype.join over strings: the empty array joins to "". */
  function Join(xs: seq<string>, sep: string): string {
    if |xs| == 0 then ""
    else if |xs| == 1 then xs[0]
    else xs[0] + sep + Join(xs[1..], sep)
  }

  /** Joining the pieces with the separator gives back the split string. */
  lemma {:induction false} JoinSplit(s: string, sep: string)
    requires sep != []
    ensures Join(Split(s, sep), sep) == s
    decreases |s|
  {
    match IndexOf(s, sep)
    case None =>
    case Some(i) =>
      var rest := s[i + |sep|..];
      JoinSplit(rest, sep);
      assert Split(s, sep) == [s[..i]] + Split(rest, sep);
      assert s == s[..i] + s[i..i + |sep|] + rest;
  }

  /**
   * split cuts at the leftmost occurrence of the separator and goes on
   * after it; a string without the separator is one piece.
   */
  lemma SplitLeftmost(s: string, sep: string)
    requires sep != []
    ensures !Contains(s, sep) ==> Split(s, sep) == [s]
    ensures forall i: nat :: FirstOccurrence(s, sep, i) ==> Split(s, sep) == [s[..i]] + Split(s[i + |sep|..], sep)
  {
    match IndexOf(s, sep)
    case None =>
    case Some(k) =>
      assert OccursAt(s, sep, k);
      forall i: nat | FirstOccurrence(s, sep, i)
        ensures Split(s, sep) == [s[..i]] + Split(s[i + |sep|..], sep)
      {
        FirstOccurrenceUnique(s, sep, i, k);
      }
  }

  /** No piece of a split contains the separator. */
  lemma {:induction false} SplitPiecesFree(s: string, sep: string)
    requires sep != []
    ensures forall k :: 0 <= k < |Split(s, sep)| ==> !Contains(Split(s, sep)[k], sep)
    decreases |s|
  {
    match IndexOf(s, sep)
    case None =>
    case Some(i) =>
      var rest := s[i + |sep|..];
      SplitPiecesFree(rest, sep);
      BeforeFirstOccurrence(s, sep, i);
      assert Split(s, sep) == [s[..i]] + Split(rest, sep);
  }

  /**
   * When the first character of the separator occurs in no element, the
   * only occurrences of the separator in the joined string are the ones
   * the join put there, so splitting gives the elements back.
   */
  lemma {:induction false} SplitJoin(xs: seq<string>, sep: string)
    requires sep != [] && xs != []
    requires forall k :: 0 <= k < |xs| ==> sep[0] !in xs[k]
    ensures Split(Join(xs, sep), sep) == xs
    decreases |xs|
  {
    var s := Join(xs, sep);
    if |xs| == 1 {
      forall j: nat ensures !OccursAt(s, sep, j) {
        if j + |sep| <= |s| {
          assert s[j..j + |sep|][0] == s[j];
        }
      }
    } else {
      var x := xs[0];
      var rest := Join(xs[1..], sep);
      assert s == x + sep + rest;
      assert s[|x|..|x| + |sep|] == sep;
      forall j: nat | j < |x| ensures !OccursAt(s, sep, j) {
        assert s[j] == x[j];
      }
      assert FirstOccurrence(s, sep, |x|);
      FirstOccurrenceUnique(s, sep, IndexOf(s, sep).value, |x|);
      assert IndexOf(s, sep) == Some(|x|);
      assert s[..|x|] == x && s[|x| + |sep|..] == rest;
      assert Split(s, sep) == [x] + Split(rest, sep);
      SplitJoin(xs[1..], sep);
      assert xs == [x] + xs[1..];
    }
  }

  /** filter(Boolean) over strings: keeps the non-empty elements, in order. */
  function NonEmpty(xs: seq<string>): (r: seq<string>)
    ensures |r| <= |xs|
    ensures forall x :: x in r <==> x in xs && x != ""
  {
    if xs == [] then []
    else (if xs[0] == "" then [] else [xs[0]]) + NonEmpty(xs[1..])
  }

  /**
   * filter(Boolean) keeps order and repetitions: it works element by
   * element, and a filtered concatenation is the concatenation of the
   * filtered parts.
   */
  lemma {:induction false} NonEmptyAppend(a: seq<string>, b: seq<string>)
    ensures NonEmpty(a + b) == NonEmpty(a) + NonEmpty(b)
    ensures forall x :: NonEmpty([x]) == (if x == "" then [] else [x])
    decreases |a|
  {
    if a == [] {
      assert a + b == b;
    } else {
      assert (a + b)[0] == a[0] && (a + b)[1..] == a[1..] + b;
      NonEmptyAppend(a[1..], b);
    }
  }

  lemma {:induction false} NonEmptyKeepsAll(xs: seq<string>)
    requires forall k :: 0 <= k < |xs| ==> xs[k] != ""
    ensures NonEmpty(xs) == xs
  {
    if xs != [] {
      NonEmptyKeepsAll(xs[1..]);
      assert xs == [xs[0]] + xs[1..];
    }
  }

  /** The first and last characters of a join are those of its first and last elements, when these are non-empty. */
  lemma {:induction false} JoinEnds(xs: seq<string>, sep: string)
    requires xs != [] && forall k :: 0 <= k < |xs| ==> xs[k] != []
    ensures var s := Join(xs, sep); s != [] && s[0] == xs[0][0] && s[|s| - 1] == xs[|xs| - 1][|xs[|xs| - 1]| - 1]
    decreases |xs|
  {
    if |xs| > 1 {
      JoinEnds(xs[1..], sep);
    }
  }

  /** Joining non-empty strings without whitespace at their ends gives a string without whitespace at its ends. */
  lemma JoinTrimmed(xs: seq<string>, sep: string)
    requires xs != [] && forall k :: 0 <= k < |xs| ==> xs[k] != [] && IsTrimmed(xs[k])
    ensures IsTrimmed(Join(xs, sep))
  {
    JoinEnds(xs, sep);
    assert IsTrimmed(xs[0]) && IsTrimmed(xs[|xs| - 1]);
  }

  // ---------------------------------------------------------------------------
  // replace with a string pattern
  // ---------------------------------------------------------------------------

  /**
   * GetSubstitution (ECMAScript section 22.1.3.19.1) for a match that has no
   * capture groups: in the replacement, "$$" stands for "$", "$&" for the
   * matched text, "$`" for the text before the match and "$'" for the text
   * after it; every other character, "$" included, stands for itself.
   */
  function Substitution(rep: string, matched: string, before: string, after: string): string
    decreases |rep|
  {
    if rep == [] then ""
    else if rep[0] == '$' && |rep| >= 2 && rep[1] == '$' then "$" + Substitution(rep[2..], matched, before, after)
    else if rep[0] == '$' && |rep| >= 2 && rep[1] == '&' then matched + Substitution(rep[2..], matched, before, after)
    else if rep[0] == '$' && |rep| >= 2 && rep[1] == '`' then before + Substitution(rep[2..], matched, before, after)
    else if rep[0] == '$' && |rep| >= 2 && rep[1] == '\'' then after + Substitution(rep[2..], matched, before, after)
    else [rep[0]] + Substitution(rep[1..], matched, before, after)
  }

  /** The characters that make a "$" before them a pattern of GetSubstitution. */
  predicate IsDollarCode(c: char) {
    c == '$' || c == '&' || c == '`' || c == '\''
  }

  /** No "$" of `rep` starts one of the patterns "$$", "$&", "$`" and "$'"; any other "$" is literal. */
  predicate NoDollarPattern(rep: string) {
    forall i :: 0 <= i < |rep| - 1 && rep[i] == '$' ==> !IsDollarCode(rep[i + 1])
  }

  /** A replacement in which no "$" starts a pattern, "$9.99" say, is inserted literally. */
  lemma {:induction false} SubstitutionLiteral(rep: string, matched: string, before: string, after: string)
    requires NoDollarPattern(rep)
    ensures Substitution(rep, matched, before, after) == rep
    decreases |rep|
  {
    if rep != [] {
      if rep[0] == '$' && |rep| >= 2 {
        assert !IsDollarCode(rep[1]);
      }
      var tail := rep[1..];
      forall i | 0 <= i < |tail| - 1 && tail[i] == '$'
        ensures !IsDollarCode(tail[i + 1])
      {
        assert tail[i] == rep[i + 1] && tail[i + 1] == rep[i + 2];
      }
      SubstitutionLiteral(tail, matched, before, after);
      assert rep == [rep[0]] + tail;
    }
  }

  /** Two replacements without patterns, joined with "-", have none either. */
  lemma NoDollarPatternDash(x: string, y: string)
    requires NoDollarPattern(x) && NoDollarPattern(y)
    ensures NoDollarPattern(x + "-" + y)
  {
    var r := x + "-" + y;
    forall i | 0 <= i < |r| - 1
      ensures r[i] == '$' ==> !IsDollarCode(r[i + 1])
    {
      if i < |x| - 1 {
        assert r[i] == x[i] && r[i + 1] == x[i + 1];
      } else if i == |x| - 1 {
        assert r[i + 1] == '-';
      } else if i == |x| {
        assert r[i] == '-';
      } else {
        assert r[i] == y[i - |x| - 1] && r[i + 1] == y[i - |x|];
      }
    }
  }

  /**
   * String.prototype.replace with a string pattern: only the leftmost
   * occurrence of `pat` is replaced, by the expansion of `rep`; a string
   * without `pat` is returned unchanged.
   */
  function ReplaceFirst(s: string, pat: string, rep: string): (r: string)
    ensures !Contains(s, pat) ==> r == s
    ensures forall i: nat :: FirstOccurrence(s, pat, i) ==>
      r == s[..i] + Substitution(rep, pat, s[..i], s[i + |pat|..]) + s[i + |pat|..]
  {
    match IndexOf(s, pat)
    case None => s
    case Some(i) =>
      assert forall j: nat :: FirstOccurrence(s, pat, j) ==> j == i;
      s[..i] + Substitution(rep, pat, s[..i], s[i + |pat|..]) + s[i + |pat|..]
  }

  /** A string that lacks one of the characters of `pat` does not contain `pat`. */
  lemma MissingCharacter(s: string, pat: string, k: nat)
    requires k < |pat| && pat[k] !in s
    ensures !Contains(s, pat)
  {
    forall j: nat | j + |pat| <= |s|
      ensures !OccursAt(s, pat, j)
    {
      assert s[j..j + |pat|][k] == s[j + k];
    }
  }

  /**
   * The copy of `pat` placed right after `pre` is the leftmost occurrence
   * of `pat`: it occurs nowhere before, not even overlapping that copy.
   */
  predicate LeftmostAfter(pre: string, pat: string) {
    pat != [] && !Contains(pre + pat[..|pat| - 1], pat)
  }

  /** A text before the pattern that lacks the pattern's first character ("{" for a placeholder) leaves that copy leftmost. */
  lemma FirstCharAbsent(pre: string, pat: string)
    requires pat != [] && pat[0] !in pre
    ensures LeftmostAfter(pre, pat)
  {
    var t := pre + pat[..|pat| - 1];
    forall j: nat | j + |pat| <= |t|
      ensures !OccursAt(t, pat, j)
    {
      assert t[j..j + |pat|][0] == t[j] == pre[j];
    }
  }

  /**
   * When the pattern occurs nowhere before the copy after `pre`, it is
   * replaced where it stands, and only there: whatever follows, further
   * occurrences of the pattern included, is kept as it is. A replacement
   * in which no "$" starts a pattern is inserted as it is.
   */
  lemma ReplaceFirstAt(pre: string, pat: string, post: string, rep: string)
    requires LeftmostAfter(pre, pat) && NoDollarPattern(rep)
    ensures ReplaceFirst(pre + pat + post, pat, rep) == pre + rep + post
  {
    LeftmostCopy(pre, pat, post);
    SubstitutionLiteral(rep, pat, pre, post);
  }

  /** The copy of `pat` after `pre` is then the leftmost occurrence, with `pre` before it and `post` after it. */
  lemma LeftmostCopy(pre: string, pat: string, post: string)
    requires LeftmostAfter(pre, pat)
    ensures var s := pre + pat + post;
      FirstOccurrence(s, pat, |pre|) && s[..|pre|] == pre && s[|pre| + |pat|..] == post
  {
    var s := pre + pat + post;
    var i := |pre|;
    var t := pre + pat[..|pat| - 1];
    assert s[i..i + |pat|] == pat;
    assert s[..|t|] == t;
    forall j: nat | j < i
      ensures !OccursAt(s, pat, j)
    {
      if j + |pat| <= |s| {
        assert t[j..j + |pat|] == s[j..j + |pat|];
        assert OccursAt(s, pat, j) ==> OccursAt(t, pat, j);
      }
    }
    assert s[..i] == pre && s[i + |pat|..] == post;
  }

  /**
   * The context patterns of the replacement: at the leftmost copy of the
   * pattern, "$`" stands for the text before it and "$'" for the text after it.
   */
  lemma ReplaceFirstContextPatterns(pre: string, pat: string, post: string)
    requires LeftmostAfter(pre, pat)
    ensures ReplaceFirst(pre + pat + post, pat, "$`") == pre + pre + post
    ensures ReplaceFirst(pre + pat + post, pat, "$'") == pre + post + post
  {
    var s := pre + pat + post;
    LeftmostCopy(pre, pat, post);
    SubstitutionContext(pat, pre, post);
    assert ReplaceFirst(s, pat, "$`") == pre + Substitution("$`", pat, pre, post) + post;
    assert ReplaceFirst(s, pat, "$'") == pre + Substitution("$'", pat, pre, post) + post;
  }

  lemma SubstitutionContext(matched: string, before: string, after: string)
    ensures Substitution("$`", matched, before, after) == before
    ensures Substitution("$'", matched, before, after) == after
  {
    var l, r := "$`", "$'";
    assert l[0] == '$' && l[1] == '`' && |l| == 2 && l[2..] == "";
    assert r[0] == '$' && r[1] == '\'' && |r| == 2 && r[2..] == "";
    assert Substitution(l, matched, before, after) == before + Substitution("", matched, before, after);
    assert Substitution(r, matched, before, after) == after + Substitution("", matched, before, after);
  }

  /** When the pattern is the whole string, the result is the expansion of the replacement alone. */
  lemma ReplaceFirstWhole(pat: string, rep: string)
    ensures ReplaceFirst(pat, pat, rep) == Substitution(rep, pat, "", "")
  {
    assert OccursAt(pat, pat, 0);
    assert FirstOccurrence(pat, pat, 0);
    assert pat[..0] == "" && pat[|pat|..] == "";
  }

  /** The "$" patterns of the replacement are expanded: "$&" puts the pattern back, "$$" becomes a single "$". */
  lemma ReplaceFirstDollarPatterns(pat: string)
    ensures ReplaceFirst(pat, pat, "$&") == pat
    ensures ReplaceFirst(pat, pat, "$$") == "$"
  {
    ReplaceFirstWhole(pat, "$&");
    ReplaceFirstWhole(pat, "$$");
  }

  // ---------------------------------------------------------------------------
  // String() of a whole number
  // ---------------------------------------------------------------------------

  predicate IsDigit(c: char) {
    '0' <= c <= '9'
  }

  predicate AllDigits(s: string) {
    forall i :: 0 <= i < |s| ==> IsDigit(s[i])
  }

  function DigitChar(d: nat): (c: char)
    requires d < 10
    ensures IsDigit(c) && c as int - '0' as int == d
  {
    ('0' as int + d) as char
  }

  /** Decimal notation of a natural number, without leading zeros. */
  function NatToString(n: nat): (r: string)
    ensures r != [] && AllDigits(r)
    ensures |r| > 1 ==> r[0] != '0'
  {
    if n < 10 then [DigitChar(n)] else NatToString(n / 10) + [DigitChar(n % 10)]
  }

  /** The number that a string of decimal digits denotes. */
  function DigitsValue(s: string): nat
    requires AllDigits(s)
  {
    if s == [] then 0 else DigitsValue(s[..|s| - 1]) * 10 + (s[|s| - 1] as int - '0' as int)
  }

  lemma {:induction false} NatToStringRoundTrip(n: nat)
    ensures DigitsValue(NatToString(n)) == n
  {
    var r := NatToString(n);
    if n >= 10 {
      NatToStringRoundTrip(n / 10);
      assert r[..|r| - 1] == NatToString(n / 10);
    } else {
      assert r[..|r| - 1] == [];
    }
  }

  lemma NatToStringInjective(a: nat, b: nat)
    requires NatToString(a) == NatToString(b)
    ensures a == b
  {
    NatToStringRoundTrip(a);
    NatToStringRoundTrip(b);
  }
}
