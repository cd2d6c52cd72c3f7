/**
 * The two string built-ins behind parameter interpolation, as ECMA-262 (2024)
 * defines them: GetSubstitution (section 22.1.3.19.1) and
 * String.prototype.replaceAll (section 22.1.3.20) with a string pattern.
 */
module StringReplace {
  import opened Wrappers
  import opened Text

  /**
   * GetSubstitution for a string pattern: no captures, no named captures.  A
   * reference `$n` to a capture that does not exist stands for itself.
   */
  function GetSubstitution(matched: string, str: string, position: nat, replacement: string): string
    requires position <= |str|
    decreases |replacement|
  {
    if replacement == "" then ""
    else if replacement[0] != '$' || |replacement| == 1 then
      [replacement[0]] + GetSubstitution(matched, str, position, replacement[1..])
    else
      var ref :=
        if replacement[1] == '$' then "$"
        else if replacement[1] == '`' then str[..position]
        else if replacement[1] == '&' then matched
        else if replacement[1] == '\'' then
          (if position + |matched| <= |str| then str[position + |matched|..] else "")
        else if IsDigit(replacement[1]) then replacement[..2]
        else "$";
      var refLength :=
        if replacement[1] in "$`&\'" || IsDigit(replacement[1]) then 2 else 1;
      ref + GetSubstitution(matched, str, position, replacement[refLength..])
  }

  /** What the tokens of a replacement stand for. */
  lemma TokenExpands(matched: string, str: string, position: nat, c: char, rest: string)
    requires position + |matched| <= |str|
    ensures c == '$' || c == '&' || c == '`' || c == '\'' ==>
              GetSubstitution(matched, str, position, ['$', c] + rest)
              == (if c == '$' then "$"
                  else if c == '&' then matched
                  else if c == '`' then str[..position]
                  else str[position + |matched|..])
                 + GetSubstitution(matched, str, position, rest)
  {
    assert (['$', c] + rest)[2..] == rest;
    assert (['$', c] + rest)[1] == c;
  }

  /** Everything else stands for itself, a '$' before it or at the end included. */
  lemma OthersStay(matched: string, str: string, position: nat, c: char, rest: string)
    requires position <= |str|
    ensures c != '$' ==>
              GetSubstitution(matched, str, position, [c] + rest) == [c] + GetSubstitution(matched, str, position, rest)
    ensures GetSubstitution(matched, str, position, "$") == "$"
    ensures c !in "$&`'" ==>
              GetSubstitution(matched, str, position, ['$', c] + rest)
              == ['$', c] + GetSubstitution(matched, str, position, rest)
  {
    assert ([c] + rest)[1..] == rest;
    assert (['$', c] + rest)[2..] == rest && (['$', c] + rest)[1..] == [c] + rest && (['$', c] + rest)[..2] == ['$', c];
    assert GetSubstitution(matched, str, position, "$"[1..]) == "";
  }

  /** Every '$' replaced by the expansion of "$$$$": two '$'. */
  function EscapeDollars(value: string): string {
    if value == "" then ""
    else (if value[0] == '$' then GetSubstitution("$", value, 0, "$$$$") else [value[0]]) + EscapeDollars(value[1..])
  }

  /**
   * Escaping undoes the expansion: whatever was matched, and wherever, the escaped
   * value is inserted as it is.
   */
  lemma {:induction false} EscapedExpandsToItself(matched: string, str: string, position: nat, value: string)
    requires position <= |str|
    ensures GetSubstitution(matched, str, position, EscapeDollars(value)) == value
  {
    if value != "" {
      var rest := EscapeDollars(value[1..]);
      EscapedExpandsToItself(matched, str, position, value[1..]);
      assert value == [value[0]] + value[1..];
      if value[0] == '$' {
        EscapedDollar(value);
        assert EscapeDollars(value)[2..] == rest;
      } else {
        assert EscapeDollars(value)[1..] == rest;
      }
    }
  }

  lemma EscapedDollar(value: string)
    ensures GetSubstitution("$", value, 0, "$$$$") == "$$"
  {
    assert "$$$$"[2..] == "$$";
    assert "$$"[2..] == "";
    assert GetSubstitution("$", value, 0, "") == "";
    assert GetSubstitution("$", value, 0, "$$") == "$";
  }

  /** Unescaped, a value with a '$' token leaks its surroundings: the reason for the escaping. */
  lemma UnescapedLeaks()
    ensures GetSubstitution("{{a}}", "x{{a}}", 1, "$&") == "{{a}}"
    ensures GetSubstitution("{{a}}", "x{{a}}", 1, "$`") == "x"
  {
    assert GetSubstitution("{{a}}", "x{{a}}", 1, "") == "";
    assert "$&"[2..] == "" && "$`"[2..] == "";
  }

  /** The first occurrence of the pattern at or after `from`. */
  function IndexOf(str: string, pattern: string, from: nat): (r: Option<nat>)
    requires from <= |str|
    ensures r.Some? ==> from <= r.value && r.value + |pattern| <= |str|
    ensures r.Some? ==> pattern <= str[r.value..]
    decreases |str| - from
  {
    if pattern <= str[from..] then Some(from)
    else if from == |str| then None
    else IndexOf(str, pattern, from + 1)
  }

  /** The string with each match replaced, from `from` on; `expand` gives the text for a match. */
  function Splice(str: string, pattern: string, expand: nat -> string, from: nat): string
    requires from <= |str| && pattern != ""
    decreases |str| - from
  {
    match IndexOf(str, pattern, from)
    case None => str[from..]
    case Some(p) => str[from..p] + (expand(p) + Splice(str, pattern, expand, p + |pattern|))
  }

  /** The text that replaceAll puts in place of a match at a position. */
  function Expansion(str: string, pattern: string, replacement: string): nat -> string {
    (p: nat) => if p <= |str| then GetSubstitution(pattern, str, p, replacement) else ""
  }

  function ReplaceAll(str: string, pattern: string, replacement: string): string
    requires pattern != ""
  {
    Splice(str, pattern, Expansion(str, pattern, replacement), 0)
  }

  /** Replacing occurrences left to right, with the value inserted as it is. */
  function Insert(str: string, pattern: string, value: string): string
    requires pattern != ""
    decreases |str|
  {
    if pattern <= str then value + Insert(str[|pattern|..], pattern, value)
    else if str == "" then ""
    else [str[0]] + Insert(str[1..], pattern, value)
  }

  lemma SliceFirst(str: string, from: nat, to: nat, rest: string)
    requires from < to <= |str|
    ensures str[from..to] + rest == [str[from]] + (str[from + 1..to] + rest)
  {
    assert str[from..to] == [str[from]] + str[from + 1..to];
  }

  /** A position where the pattern does not start is copied. */
  lemma SpliceCopies(str: string, pattern: string, expand: nat -> string, from: nat)
    requires from < |str| && pattern != "" && !(pattern <= str[from..])
    ensures Splice(str, pattern, expand, from) == [str[from]] + Splice(str, pattern, expand, from + 1)
  {
    match IndexOf(str, pattern, from + 1) {
      case None => SliceFirst(str, from, |str|, "");
      case Some(p) =>
        SliceFirst(str, from, p, expand(p) + Splice(str, pattern, expand, p + |pattern|));
    }
  }

  lemma SpliceMatches(str: string, pattern: string, expand: nat -> string, from: nat)
    requires from <= |str| && pattern != "" && pattern <= str[from..]
    ensures from + |pattern| <= |str|
    ensures Splice(str, pattern, expand, from) == expand(from) + Splice(str, pattern, expand, from + |pattern|)
  {
    assert str[from..from] == "";
  }

  lemma {:induction false} SpliceInserts(
    str: string, pattern: string, expand: nat -> string, value: string, from: nat)
    requires from <= |str| && pattern != ""
    requires forall p: nat :: p <= |str| ==> expand(p) == value
    ensures Splice(str, pattern, expand, from) == Insert(str[from..], pattern, value)
    decreases |str| - from
  {
    var rest := str[from..];
    if pattern <= rest {
      SpliceMatches(str, pattern, expand, from);
      SpliceInserts(str, pattern, expand, value, from + |pattern|);
      assert rest[|pattern|..] == str[from + |pattern|..];
    } else if from < |str| {
      SpliceCopies(str, pattern, expand, from);
      SpliceInserts(str, pattern, expand, value, from + 1);
      assert rest[1..] == str[from + 1..];
    }
  }

  /** With an escaped replacement, replaceAll is plain insertion. */
  lemma EscapedReplaceInserts(str: string, pattern: string, value: string)
    requires pattern != ""
    ensures ReplaceAll(str, pattern, EscapeDollars(value)) == Insert(str, pattern, value)
  {
    var expand := Expansion(str, pattern, EscapeDollars(value));
    forall p: nat | p <= |str| ensures expand(p) == value {
      EscapedExpandsToItself(pattern, str, p, value);
    }
    SpliceInserts(str, pattern, expand, value, 0);
    assert str[0..] == str;
  }

  // --- What an insertion tells about the matches ---------------------------------

  /** How many matches are replaced. */
  function Count(str: string, pattern: string): nat
    requires pattern != ""
    decreases |str|
  {
    if pattern <= str then 1 + Count(str[|pattern|..], pattern)
    else if str == "" then 0
    else Count(str[1..], pattern)
  }

  lemma {:induction false} InsertNothing(str: string, pattern: string, value: string)
    requires pattern != "" && (Count(str, pattern) == 0 || value == pattern)
    ensures Insert(str, pattern, value) == str
    decreases |str|
  {
    if pattern <= str {
      InsertNothing(str[|pattern|..], pattern, value);
      assert str == pattern + str[|pattern|..];
    } else if str != "" {
      InsertNothing(str[1..], pattern, value);
    }
  }

  lemma {:induction false} InsertLength(str: string, pattern: string, value: string)
    requires pattern != ""
    ensures |Insert(str, pattern, value)| == |str| + Count(str, pattern) * (|value| - |pattern|)
    decreases |str|
  {
    if pattern <= str {
      var n := Count(str[|pattern|..], pattern);
      InsertLength(str[|pattern|..], pattern, value);
      assert (1 + n) * (|value| - |pattern|) == |value| - |pattern| + n * (|value| - |pattern|);
    } else if str != "" {
      InsertLength(str[1..], pattern, value);
    }
  }

  /** A replacement of the same length that changes nothing has replaced nothing, or the pattern by itself. */
  lemma {:induction false} NothingInserted(str: string, pattern: string, value: string)
    requires pattern != "" && |value| == |pattern| && value != pattern
    ensures Insert(str, pattern, value) == str ==> Count(str, pattern) == 0
    decreases |str|
  {
    if pattern <= str {
      var rest := Insert(str[|pattern|..], pattern, value);
      assert (value + rest)[..|value|] == value && str[..|pattern|] == pattern;
    } else if str != "" {
      var rest := Insert(str[1..], pattern, value);
      assert ([str[0]] + rest)[1..] == rest;
      NothingInserted(str[1..], pattern, value);
    }
  }
}
