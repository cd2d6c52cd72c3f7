/**
 * sanitizeOrganizationSlug (apps/api/scripts/seed-system-user.helpers.ts).
 *
 * Lower-casing is a parameter: nothing more is used of it than that it leaves strings of
 * [a-z0-9-] alone.
 */
module OrganizationSlug {
  import opened Text

  const MAX_LENGTH: nat := 50

  predicate IsWordChar(c: char) {
    'a' <= c <= 'z' || IsDigit(c)
  }

  predicate IsSlugChar(c: char) {
    IsWordChar(c) || c == '-'
  }

  predicate SlugChars(s: string) {
    forall c :: c in s ==> IsSlugChar(c)
  }

  ghost predicate FixesSlugs(lower: string -> string) {
    forall s :: SlugChars(s) ==> lower(s) == s
  }

  // --- The chain of replacements ---------------------------------------------------

  function DropOthers(s: string): (r: string)
    ensures |r| <= |s|
  {
    if s != "" && !IsSlugChar(s[0]) then DropOthers(s[1..]) else s
  }

  /** replace(/[^a-z0-9-]+/g, '-') */
  function HyphenateOthers(s: string): string
    decreases |s|
  {
    if s == "" then ""
    else if IsSlugChar(s[0]) then [s[0]] + HyphenateOthers(s[1..])
    else "-" + HyphenateOthers(DropOthers(s[1..]))
  }

  /** replace(/^-+/g, '') */
  function StripLeading(s: string): (r: string)
    ensures |r| <= |s|
  {
    if s != "" && s[0] == '-' then StripLeading(s[1..]) else s
  }

  /** replace(/-+$/g, '') */
  function StripTrailing(s: string): string {
    if s != "" && s[|s| - 1] == '-' then StripTrailing(s[..|s| - 1]) else s
  }

  /** replace(/-+/g, '-') */
  function Collapse(s: string): string
    decreases |s|
  {
    if s == "" then ""
    else if s[0] == '-' then "-" + Collapse(StripLeading(s[1..]))
    else [s[0]] + Collapse(s[1..])
  }

  function Cut(s: string): string {
    if |s| <= MAX_LENGTH then s else s[..MAX_LENGTH]
  }

  function Hyphenated(s: string): string {
    Collapse(StripTrailing(StripLeading(HyphenateOthers(s))))
  }

  function Sanitize(lower: string -> string, value: string): string {
    Cut(Hyphenated(lower(Trim(value))))
  }

  // --- What it means: the alphanumeric words, joined by hyphens ------------------------

  function WordEnd(s: string): (n: nat)
    ensures n <= |s|
    ensures forall i :: 0 <= i < n ==> IsWordChar(s[i])
    ensures n < |s| ==> !IsWordChar(s[n])
  {
    if s != "" && IsWordChar(s[0]) then 1 + WordEnd(s[1..]) else 0
  }

  /** The maximal runs of letters and digits. */
  function Words(s: string): seq<string>
    decreases |s|
  {
    if s == "" then []
    else if IsWordChar(s[0]) then [s[..WordEnd(s)]] + Words(s[WordEnd(s)..])
    else Words(s[1..])
  }

  function Join(words: seq<string>): string {
    if words == [] then ""
    else if |words| == 1 then words[0]
    else words[0] + "-" + Join(words[1..])
  }

  lemma {:induction false} WordsSkipOthers(s: string)
    ensures Words(DropOthers(s)) == Words(s)
    ensures Words(StripLeading(s)) == Words(s)
  {
    if s != "" && !IsSlugChar(s[0]) {
      WordsSkipOthers(s[1..]);
    } else if s != "" && s[0] == '-' {
      WordsSkipOthers(s[1..]);
    }
  }

  /** The two strings begin with the same word, and `rest` follows it in the second. */
  predicate SameWord(s: string, t: string, rest: string) {
    WordEnd(t) == WordEnd(s) && t[..WordEnd(t)] == s[..WordEnd(s)] && t[WordEnd(t)..] == rest
  }

  lemma WordEndStep(c: char, s: string)
    requires IsWordChar(c)
    ensures WordEnd([c] + s) == WordEnd(s) + 1
  {
    assert ([c] + s)[1..] == s;
  }

  lemma SliceCons(c: char, t: string, n: nat)
    requires n <= |t|
    ensures ([c] + t)[..n + 1] == [c] + t[..n] && ([c] + t)[n + 1..] == t[n..]
  {
  }

  lemma SameWordStep(c: char, s: string, t: string, rest: string)
    requires IsWordChar(c) && SameWord(s, t, rest)
    ensures SameWord([c] + s, [c] + t, rest)
  {
    WordEndStep(c, s);
    WordEndStep(c, t);
    SliceCons(c, s, WordEnd(s));
    SliceCons(c, t, WordEnd(t));
  }

  lemma NoWord(s: string, t: string)
    requires (s != "" ==> !IsWordChar(s[0])) && (t != "" ==> !IsWordChar(t[0]))
    ensures WordEnd(s) == 0 && SameWord(s, t, t)
  {
  }

  lemma RestOf(c: char, s: string)
    requires IsWordChar(c)
    ensures ([c] + s)[WordEnd([c] + s)..] == s[WordEnd(s)..]
  {
    WordEndStep(c, s);
    SliceCons(c, s, WordEnd(s));
  }

  lemma HyphenateStep(c: char, s: string)
    requires IsSlugChar(c)
    ensures HyphenateOthers([c] + s) == [c] + HyphenateOthers(s)
  {
    assert ([c] + s)[1..] == s;
  }

  lemma {:induction false} WordEndHyphenated(s: string)
    ensures SameWord(s, HyphenateOthers(s), HyphenateOthers(s[WordEnd(s)..]))
  {
    if s != "" && IsWordChar(s[0]) {
      var c, rest := s[0], s[1..];
      assert s == [c] + rest;
      WordEndHyphenated(rest);
      HyphenateStep(c, rest);
      RestOf(c, rest);
      SameWordStep(c, rest, HyphenateOthers(rest), HyphenateOthers(rest[WordEnd(rest)..]));
    } else {
      NoWord(s, HyphenateOthers(s));
      assert s[0..] == s;
    }
  }

  lemma {:induction false} WordsHyphenated(s: string)
    ensures Words(HyphenateOthers(s)) == Words(s)
    decreases |s|
  {
    var h := HyphenateOthers(s);
    if s == "" {
    } else if IsWordChar(s[0]) {
      WordEndHyphenated(s);
      WordsHyphenated(s[WordEnd(s)..]);
    } else if s[0] == '-' {
      WordsHyphenated(s[1..]);
      assert h[1..] == HyphenateOthers(s[1..]);
    } else {
      WordsHyphenated(DropOthers(s[1..]));
      WordsSkipOthers(s[1..]);
      assert h[1..] == HyphenateOthers(DropOthers(s[1..]));
    }
  }

  /** A hyphen at the end adds no word. */
  lemma {:induction false} WordsBeforeHyphen(s: string)
    ensures Words(s + "-") == Words(s)
    decreases |s|
  {
    var t := s + "-";
    if s == "" {
      assert t[1..] == "";
    } else if IsWordChar(s[0]) {
      WordEndBeforeHyphen(s);
      var n := WordEnd(s);
      WordsBeforeHyphen(s[n..]);
      assert t[n..] == s[n..] + "-" && t[..n] == s[..n];
    } else {
      WordsBeforeHyphen(s[1..]);
      assert t[1..] == s[1..] + "-";
    }
  }

  lemma {:induction false} WordEndBeforeHyphen(s: string)
    ensures WordEnd(s + "-") == WordEnd(s)
  {
    if s != "" && IsWordChar(s[0]) {
      assert (s + "-")[1..] == s[1..] + "-";
      WordEndBeforeHyphen(s[1..]);
    }
  }

  lemma {:induction false} WordsStripTrailing(s: string)
    ensures Words(StripTrailing(s)) == Words(s)
  {
    if s != "" && s[|s| - 1] == '-' {
      WordsStripTrailing(s[..|s| - 1]);
      WordsBeforeHyphen(s[..|s| - 1]);
      assert s == s[..|s| - 1] + "-";
    }
  }

  // --- Well-formed slugs --------------------------------------------------------------

  /** Hyphen-separated words of letters and digits, or nothing. */
  predicate Separated(s: string) {
    && SlugChars(s)
    && (s != "" ==> s[0] != '-' && s[|s| - 1] != '-')
    && (forall i :: 0 < i < |s| ==> !(s[i - 1] == '-' && s[i] == '-'))
  }

  lemma {:induction false} HyphenatedChars(s: string)
    ensures SlugChars(HyphenateOthers(s))
    decreases |s|
  {
    if s != "" {
      HyphenatedChars(if IsSlugChar(s[0]) then s[1..] else DropOthers(s[1..]));
    }
  }

  lemma {:induction false} StripLeadingShape(s: string)
    requires SlugChars(s)
    ensures var r := StripLeading(s);
            && SlugChars(r) && |r| <= |s| && r == s[|s| - |r|..] && (r != "" ==> r[0] != '-')
  {
    if s != "" && s[0] == '-' {
      StripLeadingShape(s[1..]);
    }
  }

  lemma {:induction false} StripTrailingShape(s: string)
    requires SlugChars(s)
    ensures var r := StripTrailing(s);
            && SlugChars(r) && |r| <= |s| && r == s[..|r|] && (r != "" ==> r[|r| - 1] != '-')
  {
    if s != "" && s[|s| - 1] == '-' {
      var front := s[..|s| - 1];
      StripTrailingShape(front);
    }
  }

  /** Collapsing a string that does not end with a hyphen. */
  lemma {:induction false} CollapseShape(s: string)
    requires SlugChars(s) && (s != "" ==> s[|s| - 1] != '-')
    ensures var r := Collapse(s);
            && SlugChars(r) && (s == "" <==> r == "")
            && (s != "" ==> r[0] == s[0] && r[|r| - 1] != '-')
            && (forall i :: 0 < i < |r| ==> !(r[i - 1] == '-' && r[i] == '-'))
    decreases |s|
  {
    var r := Collapse(s);
    if s == "" {
    } else if s[0] == '-' {
      var rest := StripLeading(s[1..]);
      StripLeadingShape(s[1..]);
      CollapseShape(rest);
      assert r[1..] == Collapse(rest);
      assert |s| > 1 && rest != "" by { LastKept(s[1..]); }
      forall i | 0 < i < |r| ensures !(r[i - 1] == '-' && r[i] == '-') {
        if i > 1 {
          assert r[i - 1] == r[1..][i - 2] && r[i] == r[1..][i - 1];
        }
      }
    } else {
      CollapseShape(s[1..]);
      assert r[1..] == Collapse(s[1..]);
      forall i | 0 < i < |r| ensures !(r[i - 1] == '-' && r[i] == '-') {
        if i > 1 {
          assert r[i - 1] == r[1..][i - 2] && r[i] == r[1..][i - 1];
        }
      }
    }
  }

  /** Stripping leading hyphens keeps a last character that is none. */
  lemma {:induction false} LastKept(s: string)
    requires s != "" && s[|s| - 1] != '-'
    ensures StripLeading(s) != ""
  {
    if s[0] == '-' {
      LastKept(s[1..]);
    }
  }

  lemma CollapseStep(c: char, s: string)
    requires c != '-'
    ensures Collapse([c] + s) == [c] + Collapse(s)
  {
    assert ([c] + s)[1..] == s;
  }

  lemma {:induction false} WordEndCollapsed(s: string)
    ensures SameWord(s, Collapse(s), Collapse(s[WordEnd(s)..]))
  {
    if s != "" && IsWordChar(s[0]) {
      var c, rest := s[0], s[1..];
      assert s == [c] + rest;
      WordEndCollapsed(rest);
      CollapseStep(c, rest);
      RestOf(c, rest);
      SameWordStep(c, rest, Collapse(rest), Collapse(rest[WordEnd(rest)..]));
    } else {
      NoWord(s, Collapse(s));
      assert s[0..] == s;
    }
  }

  lemma {:induction false} WordsCollapsed(s: string)
    requires SlugChars(s)
    ensures Words(Collapse(s)) == Words(s)
    decreases |s|
  {
    if s == "" {
    } else if IsWordChar(s[0]) {
      WordEndCollapsed(s);
      WordsCollapsed(s[WordEnd(s)..]);
    } else {
      assert s[0] in s;
      var rest := StripLeading(s[1..]);
      StripLeadingShape(s[1..]);
      WordsCollapsed(rest);
      WordsSkipOthers(s[1..]);
      assert Collapse(s)[1..] == Collapse(rest);
    }
  }

  /** What follows the first hyphen is well-formed again. */
  lemma AfterHyphen(s: string, n: nat)
    requires Separated(s) && n < |s| && s[n] == '-'
    ensures n + 1 < |s| && IsWordChar(s[n + 1]) && Separated(s[n + 1..])
  {
    var rest := s[n + 1..];
    assert !(s[n] == '-' && s[n + 1] == '-') && s[n + 1] in s;
    forall i | 0 < i < |rest| ensures !(rest[i - 1] == '-' && rest[i] == '-') {
      assert rest[i - 1] == s[n + i] && rest[i] == s[n + 1 + i];
    }
  }

  lemma AroundHyphen(s: string, n: nat)
    requires n < |s| && s[n] == '-'
    ensures s == s[..n] + ("-" + s[n + 1..]) && s[n..] == "-" + s[n + 1..]
  {
  }

  lemma WordsAfterHyphen(s: string)
    ensures Words("-" + s) == Words(s)
  {
    assert ("-" + s)[1..] == s;
  }

  lemma FirstWord(s: string, n: nat)
    requires s != "" && IsWordChar(s[0]) && n == WordEnd(s) < |s| && s[n] == '-'
    ensures Words(s) == [s[..n]] + Words(s[n + 1..])
    ensures s == s[..n] + ("-" + s[n + 1..])
  {
    AroundHyphen(s, n);
    WordsAfterHyphen(s[n + 1..]);
  }

  /** A well-formed slug is its words, joined. */
  lemma {:induction false} SeparatedIsJoined(s: string)
    requires Separated(s)
    ensures Join(Words(s)) == s
    decreases |s|
  {
    if s != "" {
      assert s[0] in s;
      var n := WordEnd(s);
      if n < |s| {
        assert s[n] in s && s[n] == '-';
        AfterHyphen(s, n);
        FirstWord(s, n);
        SeparatedIsJoined(s[n + 1..]);
        JoinFirst(s[..n], Words(s[n + 1..]));
      } else {
        assert s[n..] == "" && s[..n] == s;
      }
    }
  }

  lemma JoinFirst(word: string, words: seq<string>)
    requires words != []
    ensures Join([word] + words) == word + ("-" + Join(words))
  {
    assert ([word] + words)[1..] == words;
    assert word + "-" + Join(words) == word + ("-" + Join(words));
  }

  lemma HyphenatedIsJoinedWords(s: string)
    ensures Separated(Hyphenated(s))
    ensures Hyphenated(s) == Join(Words(s))
  {
    var h := HyphenateOthers(s);
    HyphenatedChars(s);
    var led := StripLeading(h);
    StripLeadingShape(h);
    var trailed := StripTrailing(led);
    StripTrailingShape(led);
    CollapseShape(trailed);
    WordsHyphenated(s);
    WordsSkipOthers(h);
    WordsStripTrailing(led);
    WordsCollapsed(trailed);
    SeparatedIsJoined(Hyphenated(s));
  }

  // --- The slug -------------------------------------------------------------------------

  /** The result: the words of the trimmed, lower-cased value, joined by hyphens and cut at 50. */
  lemma SanitizedIsJoinedWords(lower: string -> string, value: string)
    ensures Sanitize(lower, value) == Cut(Join(Words(lower(Trim(value)))))
  {
    HyphenatedIsJoinedWords(lower(Trim(value)));
  }

  /** Its shape: only the cut can leave a hyphen at the end. */
  lemma SanitizedShape(lower: string -> string, value: string)
    ensures var r := Sanitize(lower, value);
            && |r| <= MAX_LENGTH && SlugChars(r)
            && (r != "" ==> r[0] != '-')
            && (forall i :: 0 < i < |r| ==> !(r[i - 1] == '-' && r[i] == '-'))
            && (r != "" && r[|r| - 1] == '-' ==> |r| == MAX_LENGTH)
  {
    HyphenatedIsJoinedWords(lower(Trim(value)));
  }

  lemma {:induction false} TrimKeepsSlugs(s: string)
    requires SlugChars(s)
    ensures Trim(s) == s
  {
    if s != "" {
      assert s[0] in s && s[|s| - 1] in s;
    }
  }

  lemma SanitizeSlugChars(lower: string -> string, s: string)
    requires FixesSlugs(lower) && SlugChars(s)
    ensures Sanitize(lower, s) == Cut(Join(Words(s)))
  {
    TrimKeepsSlugs(s);
    HyphenatedIsJoinedWords(s);
  }

  /** The fixed points are exactly the well-formed slugs within the length. */
  lemma FixedPoints(lower: string -> string, s: string)
    requires FixesSlugs(lower)
    ensures Sanitize(lower, s) == s <==> Separated(s) && |s| <= MAX_LENGTH
  {
    if Separated(s) && |s| <= MAX_LENGTH {
      SanitizeSlugChars(lower, s);
      SeparatedIsJoined(s);
    }
    if Sanitize(lower, s) == s {
      SanitizedShape(lower, s);
      SanitizeSlugChars(lower, s);
      if s != "" && s[|s| - 1] == '-' {
        TrailingHyphen(s);
        DropsTrailingHyphen(s);
      }
    }
  }

  /** The string with its last character, a hyphen, taken off. */
  predicate OneHyphenTooMany(s: string) {
    && s != "" && s[|s| - 1] == '-' && Separated(s[..|s| - 1])
  }

  lemma TrailingHyphen(s: string)
    requires SlugChars(s) && s != "" && s[|s| - 1] == '-' && s[0] != '-'
    requires forall i :: 0 < i < |s| ==> !(s[i - 1] == '-' && s[i] == '-')
    ensures OneHyphenTooMany(s)
  {
    var front := s[..|s| - 1];
    var i := |s| - 1;
    assert i > 0 && s[i - 1] != '-';
    assert forall k :: 0 <= k < |front| ==> front[k] == s[k];
  }

  /** With one hyphen too many at the end, the words join to the rest. */
  lemma DropsTrailingHyphen(s: string)
    requires OneHyphenTooMany(s)
    ensures Join(Words(s)) == s[..|s| - 1]
  {
    var front := s[..|s| - 1];
    assert s == front + "-";
    WordsBeforeHyphen(front);
    SeparatedIsJoined(front);
  }

  /** The cut falls right after a hyphen between two words. */
  predicate CutsAfterHyphen(lower: string -> string, value: string) {
    var joined := Join(Words(lower(Trim(value))));
    |joined| > MAX_LENGTH && joined[MAX_LENGTH - 1] == '-'
  }

  /** Only such a cut leaves a hyphen at the end. */
  lemma EndsWithHyphen(lower: string -> string, value: string)
    ensures var r := Sanitize(lower, value);
            r != "" && r[|r| - 1] == '-' <==> CutsAfterHyphen(lower, value)
  {
    HyphenatedIsJoinedWords(lower(Trim(value)));
  }

  /**
   * Sanitizing is idempotent on exactly those values whose words are not cut after a
   * hyphen; a third time never changes anything.
   */
  lemma SanitizingAgain(lower: string -> string, value: string)
    requires FixesSlugs(lower)
    ensures var r := Sanitize(lower, value);
            && (Sanitize(lower, r) == r <==> !CutsAfterHyphen(lower, value))
            && Sanitize(lower, Sanitize(lower, r)) == Sanitize(lower, r)
  {
    var r := Sanitize(lower, value);
    EndsWithHyphen(lower, value);
    SanitizedShape(lower, value);
    FixedPoints(lower, r);
    if r != "" && r[|r| - 1] == '-' {
      SanitizeSlugChars(lower, r);
      TrailingHyphen(r);
      DropsTrailingHyphen(r);
      FixedPoints(lower, r[..|r| - 1]);
    }
  }

  lemma AlnumSeparated(s: string)
    requires forall c :: c in s ==> IsWordChar(c)
    ensures Separated(s)
  {
    assert forall i :: 0 <= i < |s| ==> s[i] in s;
  }

  lemma SeparatedByHyphen(a: string, b: string)
    requires Separated(a) && Separated(b) && a != "" && b != ""
    ensures Separated(a + ("-" + b))
  {
    var t := "-" + b;
    assert forall i :: 0 < i < |t| ==> t[i] == b[i - 1];
    var s := a + t;
    assert forall i :: |a| <= i < |s| ==> s[i] == t[i - |a|];
  }

  /** The cut does leave a hyphen when the 50th character is one: sanitizing is not idempotent. */
  lemma CutAtHyphen(lower: string -> string, word: string, rest: string)
    requires FixesSlugs(lower) && |word| == MAX_LENGTH - 1 && rest != ""
    requires (forall c :: c in word ==> IsWordChar(c)) && (forall c :: c in rest ==> IsWordChar(c))
    ensures Sanitize(lower, word + ("-" + rest)) == word + "-"
    ensures Sanitize(lower, word + "-") == word
  {
    AlnumSeparated(word);
    AlnumSeparated(rest);
    SeparatedByHyphen(word, rest);
    var s := word + ("-" + rest);
    SanitizeSlugChars(lower, s);
    SeparatedIsJoined(s);
    var cut := word + "-";
    assert s[..MAX_LENGTH] == cut && cut[..MAX_LENGTH - 1] == word;
    SanitizeSlugChars(lower, cut);
    DropsTrailingHyphen(cut);
  }
}
