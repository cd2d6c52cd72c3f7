/**
 * Translation lookup and parameter interpolation (packages/i18n/src/index.ts).
 *
 * A template is described by its tokens: brace-free text and `{{name}}`
 * placeholders.  `t` never sees the tokens; it runs one replaceAll per parameter
 * over the template string.
 */
module Translations {
  import opened Wrappers
  import opened StringReplace

  /** A parameter value after String(): `null` and `undefined` have none. */
  type Param = (string, Option<string>)

  function Shown(value: Option<string>): string {
    if value.Some? then value.value else ""
  }

  function Placeholder(name: string): (p: string)
    ensures |p| == |name| + 4
  {
    "{{" + name + "}}"
  }

  /** The reduce over Object.entries(params). */
  function Interpolate(template: string, params: seq<Param>): string
    decreases |params|
  {
    if params == [] then template
    else
      var next := ReplaceAll(template, Placeholder(params[0].0), EscapeDollars(Shown(params[0].1)));
      Interpolate(next, params[1..])
  }

  // --- The meaning: simultaneous substitution --------------------------------

  datatype Token = Text(text: string) | Hole(name: string)

  predicate NoBraces(s: string) {
    '{' !in s && '}' !in s
  }

  predicate PlainNames(params: seq<Param>) {
    forall p :: p in params ==> NoBraces(p.0)
  }

  function Piece(t: Token): string {
    if t.Text? then t.text else Placeholder(t.name)
  }

  /** The template string of a token list. */
  function Template(tokens: seq<Token>): string {
    if tokens == [] then ""
    else Piece(tokens[0]) + Template(tokens[1..])
  }

  function Lookup(params: seq<Param>, name: string): Option<string> {
    if params == [] then None
    else if params[0].0 == name then Some(Shown(params[0].1))
    else Lookup(params[1..], name)
  }

  /** All placeholders at once; those without a parameter stay as they are. */
  function Substitute(tokens: seq<Token>, params: seq<Param>): string {
    if tokens == [] then ""
    else
      var head := tokens[0];
      (match head
       case Text(s) => s
       case Hole(n) => (match Lookup(params, n) case Some(v) => v case None => Placeholder(n)))
      + Substitute(tokens[1..], params)
  }

  // --- The tokens of any template -------------------------------------------------

  function NameLength(s: string): (n: nat)
    ensures n <= |s| && NoBraces(s[..n])
    ensures n < |s| ==> s[n] == '{' || s[n] == '}'
  {
    if s == "" || s[0] == '{' || s[0] == '}' then 0
    else
      var n := NameLength(s[1..]);
      assert s[..n + 1] == [s[0]] + s[1..][..n];
      n + 1
  }

  /** The placeholder that a string starts with. */
  function HoleAt(s: string): (name: Option<string>)
    ensures name.Some? ==> NoBraces(name.value) && Placeholder(name.value) <= s
  {
    if "{{" <= s then
      var n := NameLength(s[2..]);
      if "}}" <= s[2 + n..] then
        assert s == "{{" + s[2..][..n] + s[2 + n..];
        Some(s[2..][..n])
      else None
    else None
  }

  function Tokens(s: string): seq<Token>
    decreases |s|
  {
    if s == "" then []
    else
      match HoleAt(s)
      case Some(name) => [Hole(name)] + Tokens(s[|name| + 4..])
      case None => [Text([s[0]])] + Tokens(s[1..])
  }

  lemma TokensStep(s: string)
    requires s != ""
    ensures HoleAt(s).Some? ==>
              var rest := s[|HoleAt(s).value| + 4..];
              && s == Placeholder(HoleAt(s).value) + rest
              && Tokens(s) == [Hole(HoleAt(s).value)] + Tokens(rest)
    ensures HoleAt(s).None? ==> s == [s[0]] + s[1..] && Tokens(s) == [Text([s[0]])] + Tokens(s[1..])
  {
  }

  lemma TemplateStep(t: Token, rest: seq<Token>)
    ensures Template([t] + rest) == Piece(t) + Template(rest)
  {
    assert ([t] + rest)[1..] == rest;
  }

  lemma {:induction false} TokensOfTemplate(s: string)
    ensures Template(Tokens(s)) == s
    decreases |s|
  {
    if s != "" {
      TokensStep(s);
      match HoleAt(s) {
        case Some(name) =>
          TokensOfTemplate(s[|name| + 4..]);
          TemplateStep(Hole(name), Tokens(s[|name| + 4..]));
        case None =>
          TokensOfTemplate(s[1..]);
          TemplateStep(Text([s[0]]), Tokens(s[1..]));
      }
    }
  }

  // --- One parameter -----------------------------------------------------------

  /** The tokens after one parameter has been put in. */
  function Fill(tokens: seq<Token>, name: string, value: string): seq<Token> {
    if tokens == [] then []
    else
      [if tokens[0] == Hole(name) then Text(value) else tokens[0]] + Fill(tokens[1..], name, value)
  }

  /** How many placeholders the parameter has. */
  function Holes(tokens: seq<Token>, name: string): nat {
    if tokens == [] then 0 else (if tokens[0] == Hole(name) then 1 else 0) + Holes(tokens[1..], name)
  }

  /** A placeholder does not overlap itself. */
  lemma NoStraddle(x: string, name: string, rest: string)
    requires NoBraces(name) && x != "" && !(Placeholder(name) <= x)
    ensures !(Placeholder(name) <= x + (Placeholder(name) + rest))
  {
    var p := Placeholder(name);
    var s := x + (p + rest);
    var k := |x|;
    assert forall i :: 2 <= i < |p| ==> p[i] != '{' by {
      assert forall i :: 0 <= i < |name| ==> p[i + 2] == name[i];
    }
    if k >= |p| {
      assert s[..|p|] == x[..|p|];
    } else {
      assert s[k] == p[0] == '{' && s[k + 1] == p[1] == '{';
      assert p[if k == 1 then 2 else k] != '{';
    }
  }

  lemma Regroup(a: string, b: string, c: string)
    ensures a + (b + c) == (a + b) + c
  {
  }

  lemma InsertMatch(p: string, rest: string, value: string)
    requires p != ""
    ensures Insert(p + rest, p, value) == value + Insert(rest, p, value) && Count(p + rest, p) == 1 + Count(rest, p)
  {
    assert (p + rest)[|p|..] == rest;
  }

  lemma InsertPass(c: char, rest: string, p: string, value: string)
    requires p != "" && !(p <= [c] + rest)
    ensures Insert([c] + rest, p, value) == [c] + Insert(rest, p, value) && Count([c] + rest, p) == Count(rest, p)
  {
    assert ([c] + rest)[1..] == rest;
  }

  /** Replacing goes on independently before and after a placeholder. */
  ghost predicate Across(x: string, p: string, rest: string, value: string)
    requires p != ""
  {
    && Insert(x + (p + rest), p, value) == Insert(x, p, value) + (value + Insert(rest, p, value))
    && Count(x + (p + rest), p) == Count(x, p) + 1 + Count(rest, p)
  }

  lemma AcrossMatch(y: string, p: string, rest: string, value: string)
    requires p != "" && Across(y, p, rest, value)
    ensures Across(p + y, p, rest, value)
  {
    InsertMatch(p, y, value);
    InsertMatch(p, y + (p + rest), value);
    Regroup(p, y, p + rest);
    Regroup(value, Insert(y, p, value), value + Insert(rest, p, value));
  }

  lemma AcrossPass(c: char, y: string, p: string, rest: string, value: string)
    requires p != "" && Across(y, p, rest, value)
    requires !(p <= [c] + y) && !(p <= ([c] + y) + (p + rest))
    ensures Across([c] + y, p, rest, value)
  {
    Regroup([c], y, p + rest);
    InsertPass(c, y, p, value);
    InsertPass(c, y + (p + rest), p, value);
    Regroup([c], Insert(y, p, value), value + Insert(rest, p, value));
  }

  lemma {:induction false} InsertAcross(x: string, name: string, rest: string, value: string)
    requires NoBraces(name)
    ensures Across(x, Placeholder(name), rest, value)
    decreases |x|
  {
    var p := Placeholder(name);
    if x == "" {
      InsertMatch(p, rest, value);
      assert "" + (p + rest) == p + rest;
      assert "" + (value + Insert(rest, p, value)) == value + Insert(rest, p, value);
    } else if p <= x {
      InsertAcross(x[|p|..], name, rest, value);
      AcrossMatch(x[|p|..], p, rest, value);
      assert x == p + x[|p|..];
    } else {
      NoStraddle(x, name, rest);
      assert x == [x[0]] + x[1..];
      InsertAcross(x[1..], name, rest, value);
      AcrossPass(x[0], x[1..], p, rest, value);
    }
  }

  /** A replacement in `x` and then in the tokens hits the placeholders, and nothing else if the counts agree. */
  ghost predicate Hits(x: string, tokens: seq<Token>, name: string, value: string) {
    var p, s := Placeholder(name), x + Template(tokens);
    var filled := x + Template(Fill(tokens, name, value));
    && Count(s, p) >= Holes(tokens, name)
    && (Count(s, p) == Holes(tokens, name) ==> Insert(s, p, value) == filled)
    && (|value| == |p| && value != p && Insert(s, p, value) == filled ==> Count(s, p) == Holes(tokens, name))
  }

  lemma {:induction false} InsertHits(x: string, tokens: seq<Token>, name: string, value: string)
    requires NoBraces(name)
    ensures Hits(x, tokens, name, value)
    decreases |tokens|
  {
    var p := Placeholder(name);
    if tokens == [] {
      assert x + "" == x;
      if Count(x, p) == 0 {
        InsertNothing(x, p, value);
      } else if |value| == |p| && value != p && Insert(x, p, value) == x {
        NothingInserted(x, p, value);
      }
    } else {
      var rest := tokens[1..];
      var piece := Piece(tokens[0]);
      assert Fill(tokens, name, value)[1..] == Fill(rest, name, value);
      if tokens[0] == Hole(name) {
        InsertHits("", rest, name, value);
        HoleHits(x, tokens, name, value);
      } else {
        InsertHits(x + piece, rest, name, value);
        Regroup(x, piece, Template(rest));
        Regroup(x, piece, Template(Fill(rest, name, value)));
      }
    }
  }

  lemma HoleHits(x: string, tokens: seq<Token>, name: string, value: string)
    requires NoBraces(name) && tokens != [] && tokens[0] == Hole(name) && Hits("", tokens[1..], name, value)
    ensures Hits(x, tokens, name, value)
  {
    var p, rest := Placeholder(name), Template(tokens[1..]);
    var filledRest := Template(Fill(tokens[1..], name, value));
    assert Fill(tokens, name, value)[1..] == Fill(tokens[1..], name, value);
    assert "" + rest == rest && "" + filledRest == filledRest;
    InsertAcross(x, name, rest, value);
    if Count(x, p) == 0 {
      InsertNothing(x, p, value);
    }
    if |value| == |p| && value != p {
      SameInserted(x, p, Insert(rest, p, value), filledRest, value);
    }
  }

  lemma SameInserted(x: string, p: string, after: string, filled: string, value: string)
    requires p != "" && |value| == |p| && value != p
    ensures Insert(x, p, value) + (value + after) == x + (value + filled) ==> Count(x, p) == 0 && after == filled
  {
    if Insert(x, p, value) + (value + after) == x + (value + filled) {
      InsertLength(x, p, value);
      NothingInserted(x, p, value);
      SamePieces(Insert(x, p, value), after, x, filled, value);
    }
  }

  lemma SamePieces(a: string, b: string, a': string, b': string, middle: string)
    requires a + (middle + b) == a' + (middle + b') && |a| == |a'|
    ensures a == a' && b == b'
  {
    SameParts(a, middle + b, a', middle + b');
    SameParts(middle, b, middle, b');
  }

  lemma SameParts(a: string, b: string, a': string, b': string)
    requires a + b == a' + b' && |a| == |a'|
    ensures a == a' && b == b'
  {
    assert a == (a + b)[..|a|] && b == (a + b)[|a|..];
    assert a' == (a' + b')[..|a'|] && b' == (a' + b')[|a'|..];
  }

  lemma {:induction false} FillLength(tokens: seq<Token>, name: string, value: string)
    ensures |Template(Fill(tokens, name, value))|
         == |Template(tokens)| + Holes(tokens, name) * (|value| - |Placeholder(name)|)
  {
    if tokens != [] {
      var d := |value| - |Placeholder(name)|;
      FillLength(tokens[1..], name, value);
      assert Fill(tokens, name, value)[1..] == Fill(tokens[1..], name, value);
      assert (1 + Holes(tokens[1..], name)) * d == d + Holes(tokens[1..], name) * d;
    }
  }

  lemma {:induction false} FillItself(tokens: seq<Token>, name: string)
    ensures Template(Fill(tokens, name, Placeholder(name))) == Template(tokens)
  {
    if tokens != [] {
      FillItself(tokens[1..], name);
      assert Fill(tokens, name, Placeholder(name))[1..] == Fill(tokens[1..], name, Placeholder(name));
    }
  }

  /** The template has the parameter's placeholder only where it is meant. */
  predicate Distinguishes(tokens: seq<Token>, name: string, value: string) {
    value == Placeholder(name) || Count(Template(tokens), Placeholder(name)) == Holes(tokens, name)
  }

  lemma CancelFactor(a: int, b: int, d: int)
    requires a * d == b * d && d != 0
    ensures a == b
  {
    assert (a - b) * d == 0;
  }

  /** One replaceAll puts in the parameter where it is meant, exactly when only its placeholders match. */
  lemma StepExact(tokens: seq<Token>, name: string, value: string)
    requires NoBraces(name)
    ensures ReplaceAll(Template(tokens), Placeholder(name), EscapeDollars(value)) == Template(Fill(tokens, name, value))
       <==> Distinguishes(tokens, name, value)
  {
    var s, p := Template(tokens), Placeholder(name);
    EscapedReplaceInserts(s, p, value);
    InsertHits("", tokens, name, value);
    assert "" + s == s && "" + Template(Fill(tokens, name, value)) == Template(Fill(tokens, name, value));
    if value == p {
      InsertNothing(s, p, value);
      FillItself(tokens, name);
    } else if |value| != |p| && Insert(s, p, value) == Template(Fill(tokens, name, value)) {
      InsertLength(s, p, value);
      FillLength(tokens, name, value);
      CancelFactor(Count(s, p), Holes(tokens, name), |value| - |p|);
    }
  }

  // --- All parameters ------------------------------------------------------------

  /** Putting in one parameter removes it from the substitution still to do. */
  lemma {:induction false} FillSubstitutes(tokens: seq<Token>, params: seq<Param>)
    requires params != []
    ensures Substitute(Fill(tokens, params[0].0, Shown(params[0].1)), params[1..]) == Substitute(tokens, params)
  {
    if tokens != [] {
      FillSubstitutes(tokens[1..], params);
      var filled := Fill(tokens, params[0].0, Shown(params[0].1));
      assert filled[1..] == Fill(tokens[1..], params[0].0, Shown(params[0].1));
    }
  }

  lemma {:induction false} SubstituteNothing(tokens: seq<Token>)
    ensures Substitute(tokens, []) == Template(tokens)
  {
    if tokens != [] {
      SubstituteNothing(tokens[1..]);
    }
  }

  /** No literal and no value that is put in makes up a placeholder whose turn is still to come. */
  predicate Clean(tokens: seq<Token>, params: seq<Param>)
    decreases |params|
  {
    params == [] ||
    var name, value := params[0].0, Shown(params[0].1);
    Distinguishes(tokens, name, value) && Clean(Fill(tokens, name, value), params[1..])
  }

  /** After the first k parameters, replacing in turn has given what substituting at once does. */
  predicate Agrees(tokens: seq<Token>, params: seq<Param>, k: nat)
    requires k <= |params|
  {
    Interpolate(Template(tokens), params[..k]) == Substitute(tokens, params[..k])
  }

  lemma AgreesNext(tokens: seq<Token>, params: seq<Param>, k: nat)
    requires k < |params|
    requires var name, value := params[0].0, Shown(params[0].1);
             ReplaceAll(Template(tokens), Placeholder(name), EscapeDollars(value))
             == Template(Fill(tokens, name, value))
    ensures Agrees(tokens, params, k + 1)
       <==> Agrees(Fill(tokens, params[0].0, Shown(params[0].1)), params[1..], k)
  {
    var front := params[..k + 1];
    assert front[0] == params[0] && front[1..] == params[1..][..k];
    FillSubstitutes(tokens, front);
  }

  /** With one parameter, agreeing is putting it in where it is meant. */
  lemma AgreesFirst(tokens: seq<Token>, params: seq<Param>)
    requires params != []
    ensures var name, value := params[0].0, Shown(params[0].1);
            Agrees(tokens, params, 1) <==>
            ReplaceAll(Template(tokens), Placeholder(name), EscapeDollars(value)) == Template(Fill(tokens, name, value))
  {
    var name, value := params[0].0, Shown(params[0].1);
    var front := params[..1];
    assert front[0] == params[0] && front[1..] == [];
    FillSubstitutes(tokens, front);
    SubstituteNothing(Fill(tokens, name, value));
    assert Interpolate(ReplaceAll(Template(tokens), Placeholder(name), EscapeDollars(value)), [])
        == ReplaceAll(Template(tokens), Placeholder(name), EscapeDollars(value));
  }

  /**
   * Replacing one parameter after the other agrees with simultaneous substitution, from
   * the first parameter to the last, exactly when no literal and no value that has been
   * put in makes up a placeholder whose turn is still to come.
   */
  lemma {:induction false} InterpolationExact(tokens: seq<Token>, params: seq<Param>)
    requires PlainNames(params)
    ensures (forall k: nat :: k <= |params| ==> Agrees(tokens, params, k)) <==> Clean(tokens, params)
    decreases |params|
  {
    SubstituteNothing(tokens);
    assert params[..0] == [];
    assert Agrees(tokens, params, 0);
    if params != [] {
      var name, value := params[0].0, Shown(params[0].1);
      var filled := Fill(tokens, name, value);
      assert params[0] in params;
      StepExact(tokens, name, value);
      AgreesFirst(tokens, params);
      InterpolationExact(filled, params[1..]);
      if Distinguishes(tokens, name, value) {
        forall k: nat | k < |params|
          ensures Agrees(tokens, params, k + 1) <==> Agrees(filled, params[1..], k)
        {
          AgreesNext(tokens, params, k);
        }
        if forall k: nat :: k <= |params| ==> Agrees(tokens, params, k) {
          forall k: nat | k <= |params[1..]| ensures Agrees(filled, params[1..], k) {
            assert Agrees(tokens, params, k + 1);
          }
        }
        if Clean(filled, params[1..]) {
          forall k: nat | k <= |params| ensures Agrees(tokens, params, k) {
            assert k > 0 ==> Agrees(filled, params[1..], k - 1);
          }
        }
      }
    }
  }

  /** In particular the whole interpolation is the substitution. */
  lemma InterpolationIsSubstitution(tokens: seq<Token>, params: seq<Param>)
    requires PlainNames(params) && Clean(tokens, params)
    ensures Interpolate(Template(tokens), params) == Substitute(tokens, params)
  {
    InterpolationExact(tokens, params);
    assert Agrees(tokens, params, |params|);
    assert params[..|params|] == params;
  }

  // --- Where it is clean ------------------------------------------------------------

  /** No occurrence of a placeholder starts inside text without an opening brace. */
  lemma {:induction false} CountPassesText(s: string, rest: string, pattern: string)
    requires pattern != "" && pattern[0] == '{' && '{' !in s
    ensures Count(s + rest, pattern) == Count(rest, pattern)
  {
    if s == "" {
      assert s + rest == rest;
    } else {
      assert (s + rest)[0] == s[0] && (s + rest)[1..] == s[1..] + rest;
      CountPassesText(s[1..], rest, pattern);
    }
  }

  /** A placeholder only matches its own name. */
  lemma PlaceholderPrefix(n: string, name: string, rest: string)
    requires NoBraces(n) && NoBraces(name)
    requires Placeholder(name) <= Placeholder(n) + rest
    ensures n == name
  {
    var p, s := Placeholder(name), Placeholder(n) + rest;
    assert forall i :: 0 <= i < |p| ==> p[i] == s[i];
    assert forall i :: 0 <= i < |name| ==> p[i + 2] == name[i];
    assert forall i :: 0 <= i < |n| ==> s[i + 2] == n[i];
    assert p[|name| + 2] == '}' && s[|n| + 2] == '}';
    assert |n| == |name|;
    assert forall i :: 0 <= i < |n| ==> n[i] == s[i + 2] == name[i];
  }

  /** A placeholder of another name is passed over. */
  lemma CountPassesHole(n: string, name: string, rest: string)
    requires NoBraces(n) && NoBraces(name) && n != name
    ensures Count(Placeholder(n) + rest, Placeholder(name)) == Count(rest, Placeholder(name))
  {
    var pattern, s := Placeholder(name), Placeholder(n) + rest;
    if pattern <= s {
      PlaceholderPrefix(n, name, rest);
    }
    var tail := (n + "}}") + rest;
    assert s[1..] == "{" + tail && ("{" + tail)[1..] == tail;
    assert pattern[1] == '{' && ("{" + tail)[1] != '{';
    assert !(pattern <= "{" + tail);
    CountPassesText(n + "}}", rest, pattern);
  }

  /** Literals have no opening brace, and names no brace. */
  predicate PlainTokens(tokens: seq<Token>) {
    forall t :: t in tokens ==> if t.Text? then '{' !in t.text else NoBraces(t.name)
  }

  /** Nor have the values, except that the last to be put in may be anything. */
  predicate PlainParams(params: seq<Param>) {
    && PlainNames(params)
    && forall i :: 0 <= i < |params| - 1 ==> '{' !in Shown(params[i].1)
  }

  lemma {:induction false} CountPlain(tokens: seq<Token>, name: string)
    requires PlainTokens(tokens) && NoBraces(name)
    ensures Count(Template(tokens), Placeholder(name)) == Holes(tokens, name)
  {
    if tokens != [] {
      var rest, pattern := tokens[1..], Placeholder(name);
      CountPlain(rest, name);
      match tokens[0] {
        case Text(s) => CountPassesText(s, Template(rest), pattern);
        case Hole(n) =>
          if n == name {
            assert Template(tokens)[|pattern|..] == Template(rest);
          } else {
            CountPassesHole(n, name, Template(rest));
          }
      }
    }
  }

  lemma {:induction false} FillPlain(tokens: seq<Token>, name: string, value: string)
    requires PlainTokens(tokens) && '{' !in value
    ensures PlainTokens(Fill(tokens, name, value))
  {
    if tokens != [] {
      FillPlain(tokens[1..], name, value);
    }
  }

  /** Plain literals and values are clean, in any order. */
  lemma {:induction false} PlainIsClean(tokens: seq<Token>, params: seq<Param>)
    requires PlainTokens(tokens) && PlainParams(params)
    ensures Clean(tokens, params)
    decreases |params|
  {
    if params != [] {
      var name, value := params[0].0, Shown(params[0].1);
      assert params[0] in params;
      CountPlain(tokens, name);
      var rest := params[1..];
      if rest != [] {
        FillPlain(tokens, name, value);
        forall i | 0 <= i < |rest| - 1 ensures '{' !in Shown(rest[i].1) {
          assert rest[i] == params[i + 1];
        }
        PlainIsClean(Fill(tokens, name, value), rest);
      }
    }
  }

  /** In the tokens of any template, braces or not, a placeholder is only where it is meant. */
  lemma {:induction false} CountTokens(s: string, name: string)
    requires NoBraces(name)
    ensures Count(s, Placeholder(name)) == Holes(Tokens(s), name)
    decreases |s|
  {
    if s != "" {
      TokensStep(s);
      match HoleAt(s) {
        case Some(n) =>
          CountTokens(s[|n| + 4..], name);
          CountAtHole(n, s[|n| + 4..], name);
          HolesStep(Hole(n), Tokens(s[|n| + 4..]), name);
        case None =>
          if Placeholder(name) <= s {
            HoleFound(s, name);
          }
          CountTokens(s[1..], name);
          InsertPass(s[0], s[1..], Placeholder(name), "");
          HolesStep(Text([s[0]]), Tokens(s[1..]), name);
      }
    }
  }

  lemma CountAtHole(n: string, rest: string, name: string)
    requires NoBraces(n) && NoBraces(name)
    ensures Count(Placeholder(n) + rest, Placeholder(name))
         == Count(rest, Placeholder(name)) + if n == name then 1 else 0
  {
    if n == name {
      InsertMatch(Placeholder(name), rest, "");
    } else {
      CountPassesHole(n, name, rest);
    }
  }

  lemma HolesStep(t: Token, rest: seq<Token>, name: string)
    ensures Holes([t] + rest, name) == Holes(rest, name) + if t == Hole(name) then 1 else 0
  {
    assert ([t] + rest)[1..] == rest;
  }

  lemma HoleFound(s: string, name: string)
    requires NoBraces(name) && Placeholder(name) <= s
    ensures HoleAt(s) == Some(name)
  {
    var p := Placeholder(name);
    var rest := s[|p|..];
    assert s == p + rest;
    assert s[..2] == "{{" && s[2..] == name + ("}}" + rest);
    NameRun(name, "}}" + rest);
    assert s[2 + |name|..] == "}}" + rest && s[2..][..|name|] == name;
  }

  lemma {:induction false} NameRun(name: string, rest: string)
    requires NoBraces(name) && rest != "" && rest[0] == '}'
    ensures NameLength(name + rest) == |name|
  {
    if name == "" {
      assert name + rest == rest;
    } else {
      assert (name + rest)[0] == name[0] && (name + rest)[1..] == name[1..] + rest;
      NameRun(name[1..], rest);
    }
  }

  /** So a single parameter is always put in where it is meant, whatever template and value. */
  lemma OneParameter(template: string, p: Param)
    requires NoBraces(p.0)
    ensures Interpolate(template, [p]) == Substitute(Tokens(template), [p])
  {
    TokensOfTemplate(template);
    CountTokens(template, p.0);
    assert [p][1..] == [];
    InterpolationIsSubstitution(Tokens(template), [p]);
  }

  // --- The order of the parameters ----------------------------------------------------

  lemma {:induction false} LookupDecides(tokens: seq<Token>, params: seq<Param>, params': seq<Param>)
    requires forall n :: Lookup(params, n) == Lookup(params', n)
    ensures Substitute(tokens, params) == Substitute(tokens, params')
  {
    if tokens != [] {
      LookupDecides(tokens[1..], params, params');
    }
  }

  /** The keys of an object are distinct. */
  predicate DistinctNames(params: seq<Param>) {
    forall i, j :: 0 <= i < j < |params| ==> params[i].0 != params[j].0
  }

  lemma {:induction false} LookupFinds(params: seq<Param>, p: Param)
    requires DistinctNames(params)
    ensures p in params ==> Lookup(params, p.0) == Some(Shown(p.1))
    ensures (forall q :: q in params ==> q.0 != p.0) ==> Lookup(params, p.0) == None
  {
    if params != [] {
      LookupFinds(params[1..], p);
    }
  }

  /** The order in which an object lists its parameters does not matter where both orders are clean. */
  lemma OrderIrrelevant(tokens: seq<Token>, params: seq<Param>, params': seq<Param>)
    requires PlainNames(params) && Clean(tokens, params) && Clean(tokens, params')
    requires DistinctNames(params) && DistinctNames(params')
    requires forall p :: p in params <==> p in params'
    ensures Interpolate(Template(tokens), params) == Interpolate(Template(tokens), params')
  {
    forall n ensures Lookup(params, n) == Lookup(params', n) {
      if p :| p in params && p.0 == n {
        LookupFinds(params, p);
        LookupFinds(params', p);
      } else {
        LookupFinds(params, (n, None));
        LookupFinds(params', (n, None));
      }
    }
    LookupDecides(tokens, params, params');
    InterpolationIsSubstitution(tokens, params);
    InterpolationIsSubstitution(tokens, params');
  }

  /**
   * Values with braces are not clean in general: a placeholder inside a value is itself
   * replaced when its parameter comes later, and kept when it came earlier.
   */
  lemma BracesInValuesDependOnOrder()
    ensures var a, b := ("a", Some(Placeholder("b"))), ("b", Some("x"));
            && Interpolate(Placeholder("a"), [a, b]) == "x"
            && Interpolate(Placeholder("a"), [b, a]) == Placeholder("b")
  {
    var a, b: Param := ("a", Some(Placeholder("b"))), ("b", Some("x"));
    InterpolateHole("a", Placeholder("b"), [b]);
    InterpolateHole("b", "x", []);
    assert [a] + [b] == [a, b] && [b] + [] == [b];
    // putting in b first changes nothing
    InterpolateHole("a", Placeholder("b"), []);
    assert [b, a][1..] == [a] + [];
    OtherHoleStays();
  }

  lemma OtherHoleStays()
    ensures ReplaceAll(Placeholder("a"), Placeholder("b"), EscapeDollars("x")) == Placeholder("a")
  {
    EscapedReplaceInserts(Placeholder("a"), Placeholder("b"), "x");
    CountPassesHole("a", "b", "");
    assert Placeholder("a") + "" == Placeholder("a");
    InsertNothing(Placeholder("a"), Placeholder("b"), "x");
  }

  /** The first parameter fills a template that is just its placeholder, braces or not. */
  lemma InterpolateHole(name: string, value: string, params: seq<Param>)
    ensures Interpolate(Placeholder(name), [(name, Some(value))] + params) == Interpolate(value, params)
  {
    var p := Placeholder(name);
    EscapedReplaceInserts(p, p, value);
    assert p[|p|..] == "";
    assert Insert(p, p, value) == value + Insert("", p, value) == value;
    assert ([(name, Some(value))] + params)[1..] == params;
  }

  /** A placeholder becomes its parameter's value, whatever that is, and nothing for null and undefined. */
  lemma PlaceholderBecomesValue(name: string, value: string)
    ensures Interpolate("{{" + name + "}}", [(name, Some(value))]) == value
    ensures Interpolate("{{" + name + "}}", [(name, None)]) == ""
  {
    InterpolateHole(name, value, []);
    InterpolateHole(name, "", []);
    assert [(name, Some(value))] + [] == [(name, Some(value))];
    assert [(name, Some(""))] + [] == [(name, Some(""))];
    assert [(name, None)][1..] == [(name, Some(""))][1..];
    assert Interpolate(Placeholder(name), [(name, None)]) == Interpolate(Placeholder(name), [(name, Some(""))]);
  }

  // --- The store -----------------------------------------------------------------

  class Store {
    var locales: map<string, map<string, string>>

    constructor ()
      ensures locales == map[]
    {
      locales := map[];
    }

    /** Deletes the locales one by one, keeping the store object. */
    method ClearTranslations()
      modifies this
      ensures locales == map[]
    {
      var keys := locales.Keys;
      while keys != {}
        invariant keys == locales.Keys
        decreases |keys|
      {
        var locale :| locale in keys;
        locales := locales - {locale};
        keys := keys - {locale};
      }
      assert locales == map[];
    }

    /** Merges over what the locale already has; other locales keep theirs. */
    method LoadTranslations(locale: string, translations: map<string, string>)
      modifies this
      ensures locales.Keys == old(locales).Keys + {locale}
      ensures forall l :: l in old(locales) && l != locale ==> locales[l] == old(locales)[l]
      ensures forall k :: k in translations ==> k in locales[locale] && locales[locale][k] == translations[k]
      ensures forall k :: k !in translations ==> LookupKey(locale, k) == old(LookupKey(locale, k))
    {
      var existing := if locale in locales then locales[locale] else map[];
      locales := locales[locale := existing + translations];
    }

    function LookupKey(locale: string, key: string): Option<string>
      reads this
    {
      if locale in locales && key in locales[locale] then Some(locales[locale][key]) else None
    }

    /** The fallback chain: the locale, then English, then the key itself. */
    function TemplateFor(key: string, locale: string): (template: string)
      reads this
      ensures LookupKey(if locale == "" then "en" else locale, key).Some? ==>
                Some(template) == LookupKey(if locale == "" then "en" else locale, key)
      ensures LookupKey(if locale == "" then "en" else locale, key).None? ==>
                template == if LookupKey("en", key).Some? then LookupKey("en", key).value else key
    {
      var normalized := if locale == "" then "en" else locale;
      match LookupKey(normalized, key)
      case Some(s) => s
      case None =>
        var english := if normalized != "en" then LookupKey("en", key) else None;
        if english.Some? then english.value else key
    }

    function T(key: string, params: Option<seq<Param>>, locale: string): string
      reads this
    {
      var template := TemplateFor(key, locale);
      if params.None? then template else Interpolate(template, params.value)
    }

    /** What `t` returns: the found template with all its placeholders substituted at once. */
    lemma TranslationSubstitutes(key: string, params: seq<Param>, locale: string)
      requires PlainNames(params) && Clean(Tokens(TemplateFor(key, locale)), params)
      ensures T(key, Some(params), locale) == Substitute(Tokens(TemplateFor(key, locale)), params)
      ensures T(key, None, locale) == Substitute(Tokens(TemplateFor(key, locale)), [])
    {
      var tokens := Tokens(TemplateFor(key, locale));
      TokensOfTemplate(TemplateFor(key, locale));
      InterpolationIsSubstitution(tokens, params);
      SubstituteNothing(tokens);
    }
  }
}
