/**
 * The string checks and sanitisers the validator rule chains apply to each
 * request field (the express-validator / validator.js built-ins). A field
 * that is absent arrives as "" (the chains convert it to a string first).
 */
module Checks {
  import opened Wrappers
  import opened Text
  import Collections

  /** The whitespace `trim()` strips (ASCII only in this model). */
  predicate IsSpace(c: char)
  {
    c == ' ' || c == '\t' || c == '\n' || c == '\r' || c == '\U{B}' || c == '\U{C}'
  }

  function TrimStart(s: string): (r: string)
    ensures |r| <= |s|
    ensures r == [] || !IsSpace(r[0])
    ensures r == s[|s| - |r|..]
    ensures forall i :: 0 <= i < |s| - |r| ==> IsSpace(s[i])
  {
    if s != [] && IsSpace(s[0]) then TrimStart(s[1..]) else s
  }

  function TrimEnd(s: string): (r: string)
    ensures |r| <= |s|
    ensures r == [] || !IsSpace(r[|r| - 1])
    ensures r == s[..|r|]
    ensures forall i :: |r| <= i < |s| ==> IsSpace(s[i])
  {
    if s != [] && IsSpace(s[|s| - 1]) then TrimEnd(s[..|s| - 1]) else s
  }

  /** Cutting s to s[a..b] removes only white space. */
  predicate SpaceCut(s: string, a: int, b: int)
  {
    0 <= a <= b <= |s| && forall i :: 0 <= i < |s| && (i < a || b <= i) ==> IsSpace(s[i])
  }

  /** Cutting white space off the front and then off the back leaves a slice with only white space cut. */
  lemma CutBothEnds(s: string, front: string, r: string)
    requires |front| <= |s| && front == s[|s| - |front|..]
    requires forall i :: 0 <= i < |s| - |front| ==> IsSpace(s[i])
    requires |r| <= |front| && r == front[..|r|]
    requires forall i :: |r| <= i < |front| ==> IsSpace(front[i])
    ensures var a := |s| - |front|;
            SpaceCut(s, a, a + |r|) && r == s[a..a + |r|]
  {
    var a := |s| - |front|;
    Collections.PrefixOfSuffix(s, a, |r|);
    forall i | a + |r| <= i < |s| ensures IsSpace(s[i]) {
      assert s[i] == front[i - a];
    }
  }

  /** `trim()`: white space is removed from both ends, and a text without any is left as it is. */
  function Trim(s: string): (r: string)
    ensures |r| <= |s|
    ensures r == [] || (!IsSpace(r[0]) && !IsSpace(r[|r| - 1]))
    ensures (forall i :: 0 <= i < |s| ==> !IsSpace(s[i])) ==> r == s
  {
    TrimEnd(TrimStart(s))
  }

  /** What `trim()` keeps is a slice of the input, and everything it cuts off on either side is white space. */
  lemma TrimSlice(s: string)
    ensures exists a, b :: SpaceCut(s, a, b) && Trim(s) == s[a..b]
  {
    var front := TrimStart(s);
    var r := TrimEnd(front);
    CutBothEnds(s, front, r);
    var a := |s| - |front|;
    assert Trim(s) == r == s[a..a + |r|] && SpaceCut(s, a, a + |r|);
  }

  /** The characters `escape()` replaces, apart from '&' which starts every entity. */
  predicate HtmlSpecial(c: char)
  {
    c == '"' || c == '\'' || c == '<' || c == '>' || c == '/' || c == '\\' || c == '`'
  }

  /** `escape()`: the HTML-significant characters become entities. */
  function EscapeChar(c: char): (r: string)
    ensures |r| >= 1
    ensures forall i :: 0 <= i < |r| ==> !HtmlSpecial(r[i])
    ensures !HtmlSpecial(c) && c != '&' ==> r == [c]
  {
    match c
    case '&' => "&amp;"
    case '"' => "&quot;"
    case '\'' => "&#x27;"
    case '<' => "&lt;"
    case '>' => "&gt;"
    case '/' => "&#x2F;"
    case '\\' => "&#x5C;"
    case '`' => "&#96;"
    case _ => [c]
  }

  /** `escape()` on a text: it grows or keeps its length, and no special character is left. */
  function Escape(s: string): (r: string)
    ensures |r| >= |s|
    ensures forall i :: 0 <= i < |r| ==> !HtmlSpecial(r[i])
  {
    if s == [] then [] else
      var head := EscapeChar(s[0]);
      var tail := Escape(s[1..]);
      assert forall i :: 0 <= i < |head + tail| ==> (head + tail)[i] == if i < |head| then head[i] else tail[i - |head|];
      head + tail
  }

  /**
   * Reading the entities of `escape()` back; validator.js's `unescape()`
   * recognises the same eight.
   */
  function Unescape(s: string): string
    decreases |s|
  {
    if s == [] then []
    else if "&amp;" <= s then "&" + Unescape(s[5..])
    else if "&quot;" <= s then "\"" + Unescape(s[6..])
    else if "&#x27;" <= s then "'" + Unescape(s[6..])
    else if "&lt;" <= s then "<" + Unescape(s[4..])
    else if "&gt;" <= s then ">" + Unescape(s[4..])
    else if "&#x2F;" <= s then "/" + Unescape(s[6..])
    else if "&#x5C;" <= s then "\\" + Unescape(s[6..])
    else if "&#96;" <= s then "`" + Unescape(s[5..])
    else [s[0]] + Unescape(s[1..])
  }

  /** One escaped character is read back as that character, whatever follows it. */
  lemma UnescapeEscapeChar(c: char, rest: string)
    ensures Unescape(EscapeChar(c) + rest) == [c] + Unescape(rest)
  {
    if c in "&\"<>" {
      UnescapeNamedEntity(c, rest);
    } else if c in "'/\\`" {
      UnescapeNumericEntity(c, rest);
    } else {
      var s := EscapeChar(c) + rest;
      assert s[0] == c && s[1..] == rest;
    }
  }

  /** The entities spelt with a name: `&amp;`, `&quot;`, `&lt;` and `&gt;`. */
  lemma UnescapeNamedEntity(c: char, rest: string)
    requires c in "&\"<>"
    ensures Unescape(EscapeChar(c) + rest) == [c] + Unescape(rest)
  {
    var e := EscapeChar(c);
    var s := e + rest;
    assert s[..|e|] == e && s[|e|..] == rest;
    if c == '&' {
      assert "&amp;" <= s;
    } else if c == '"' {
      assert s[1] == 'q' && "&quot;" <= s;
    } else if c == '<' {
      assert s[1] == 'l' && "&lt;" <= s;
    } else {
      assert s[1] == 'g' && "&gt;" <= s;
    }
  }

  /** The entities spelt with a number: `&#x27;`, `&#x2F;`, `&#x5C;` and `&#96;`. */
  lemma UnescapeNumericEntity(c: char, rest: string)
    requires c in "'/\\`"
    ensures Unescape(EscapeChar(c) + rest) == [c] + Unescape(rest)
  {
    var e := EscapeChar(c);
    var s := e + rest;
    assert s[..|e|] == e && s[|e|..] == rest;
    assert s[1] == '#';
    if c == '\'' {
      assert s[3] == '2' && s[4] == '7' && "&#x27;" <= s;
    } else if c == '/' {
      assert s[2] == 'x' && s[3] == '2' && s[4] == 'F' && "&#x2F;" <= s;
    } else if c == '\\' {
      assert s[2] == 'x' && s[3] == '5' && "&#x5C;" <= s;
    } else {
      assert s[2] == '9' && "&#96;" <= s;
    }
  }

  /** `escape()` loses nothing: reading its entities back gives the input. */
  lemma {:induction false} UnescapeEscape(s: string)
    ensures Unescape(Escape(s)) == s
  {
    if s != [] {
      assert Escape(s) == EscapeChar(s[0]) + Escape(s[1..]);
      UnescapeEscapeChar(s[0], Escape(s[1..]));
      UnescapeEscape(s[1..]);
      assert [s[0]] + s[1..] == s;
    }
  }

  /** `escape()` works character by character, so it distributes over concatenation. */
  lemma {:induction false} EscapeConcat(a: string, b: string)
    ensures Escape(a + b) == Escape(a) + Escape(b)
  {
    if a != [] {
      assert (a + b)[0] == a[0] && (a + b)[1..] == a[1..] + b;
      EscapeConcat(a[1..], b);
    } else {
      assert a + b == b;
    }
  }

  /** `trim().escape()`, the sanitising prefix of every chain. */
  function Clean(s: string): string
  {
    Escape(Trim(s))
  }

  /** Escaping leaves a string without special characters as it is. */
  lemma {:induction false} EscapePlain(s: string)
    requires forall i :: 0 <= i < |s| ==> EscapeChar(s[i]) == [s[i]]
    ensures Escape(s) == s
  {
    if s != [] {
      EscapePlain(s[1..]);
    }
  }

  /** Sanitising leaves a word of ASCII letters as it is. */
  lemma CleanLetters(s: string)
    requires forall i :: 0 <= i < |s| ==> IsLetter(s[i])
    ensures Clean(s) == s
  {
    assert TrimStart(s) == s;
    assert TrimEnd(s) == s;
    EscapePlain(s);
  }

  /** Sanitising leaves a numeral as it is. */
  lemma CleanDigits(s: string)
    requires AllDigits(s)
    ensures Clean(s) == s
  {
    assert TrimStart(s) == s;
    assert TrimEnd(s) == s;
    EscapePlain(s);
  }

  /** `notEmpty()` */
  predicate NotEmpty(s: string)
  {
    s != ""
  }

  predicate IsSign(c: char)
  {
    c == '+' || c == '-'
  }

  /** The digits of an integer numeral: an optional sign, then one or more digits. */
  function Unsigned(s: string): string
  {
    if s != [] && IsSign(s[0]) then s[1..] else s
  }

  /** `isInt()` (leading zeros allowed): `[-+]?[0-9]+` */
  predicate IsInt(s: string)
    ensures s != [] && AllDigits(s) ==> IsInt(s)
    ensures IsInt(s) ==> s != [] && (IsSign(s[0]) || IsDigit(s[0]))
  {
    var d := Unsigned(s);
    d != [] && AllDigits(d)
  }

  /** The value of an integer numeral, as `toInt()` gives it. */
  function IntValue(s: string): (v: int)
    requires IsInt(s)
    ensures s[0] != '-' ==> v >= 0
    ensures s[0] == '-' ==> v <= 0
    ensures AllDigits(s) ==> v == DigitsValue(s)
  {
    var v: int := DigitsValue(Unsigned(s));
    if s[0] == '-' then -v else v
  }

  /** The numeral of an integer is an integer text, and reading it back gives the integer. */
  lemma IntValueOfNumeral(n: int)
    ensures IsInt(IntToString(n)) && IntValue(IntToString(n)) == n
  {
    var m: nat := if n < 0 then -n else n;
    NatToStringDigits(m);
    var d := NatToString(m);
    assert IsDigit(d[0]);
    if n < 0 {
      assert IntToString(n) == "-" + d;
      assert Unsigned("-" + d) == d;
    } else {
      assert IntToString(n) == d;
      assert Unsigned(d) == d;
    }
  }

  /** `isInt({ min })` */
  predicate IsIntMin(s: string, min: int)
  {
    IsInt(s) && IntValue(s) >= min
  }

  /** The digits before a decimal point, if the string has one. */
  function PointIndex(s: string): (i: nat)
    ensures i <= |s|
    ensures forall j :: 0 <= j < i ==> s[j] != '.'
    ensures i < |s| ==> s[i] == '.'
  {
    if s == [] then 0 else if s[0] == '.' then 0 else 1 + PointIndex(s[1..])
  }

  /**
   * `isFloat()` without an exponent: an optional sign, digits, and an
   * optional point followed by digits, with at least one digit in all.
   */
  predicate IsFloat(s: string)
    ensures IsFloat(s) ==> s != []
  {
    var d := Unsigned(s);
    var i := PointIndex(d);
    && AllDigits(d[..i])
    && (i < |d| ==> AllDigits(d[i + 1..]))
    && (exists j :: 0 <= j < |d| && IsDigit(d[j]))
  }

  function Pow10(n: nat): (p: nat)
    ensures p >= 1
  {
    if n == 0 then 1 else 10 * Pow10(n - 1)
  }

  /** The value of a decimal numeral, as `toFloat()` gives it. */
  function FloatValue(s: string): (v: real)
    requires IsFloat(s)
    ensures s[0] != '-' ==> v >= 0.0
    ensures s[0] == '-' ==> v <= 0.0
  {
    var d := Unsigned(s);
    var i := PointIndex(d);
    var whole := DigitsValue(d[..i]) as real;
    var frac := if i < |d| then DigitsValue(d[i + 1..]) as real / Pow10(|d| - i - 1) as real else 0.0;
    if s[0] == '-' then -(whole + frac) else whole + frac
  }

  /** `isFloat({ min })` */
  predicate IsFloatMin(s: string, min: real)
  {
    IsFloat(s) && FloatValue(s) >= min
  }

  /** The empty text is not a decimal. */
  lemma EmptyIsNotFloat()
    ensures !IsFloat("")
  {
    assert Unsigned("") == "";
  }

  /** A string of digits has no decimal point. */
  lemma {:induction false} PointIndexOfDigits(d: string)
    requires AllDigits(d)
    ensures PointIndex(d) == |d|
  {
    if d != [] {
      assert IsDigit(d[0]);
      assert AllDigits(d[1..]) by {
        forall i | 0 <= i < |d[1..]| ensures IsDigit(d[1..][i]) {
          assert d[1..][i] == d[i + 1];
        }
      }
      PointIndexOfDigits(d[1..]);
    }
  }

  /** An integer numeral is also a decimal one, with the same value. */
  lemma IntIsFloat(s: string)
    requires IsInt(s)
    ensures IsFloat(s) && FloatValue(s) == IntValue(s) as real
  {
    var d := Unsigned(s);
    PointIndexOfDigits(d);
    assert d[..|d|] == d;
    assert IsDigit(d[0]);
  }

  /**
   * `a < b` after both texts went through `toFloat()`: a text that is not a
   * decimal becomes NaN, and any comparison with NaN is false.
   */
  predicate FloatLess(a: string, b: string)
  {
    IsFloat(a) && IsFloat(b) && FloatValue(a) < FloatValue(b)
  }

  predicate IsLetter(c: char)
  {
    ('a' <= c <= 'z') || ('A' <= c <= 'Z')
  }

  /** `isAlpha()`: one or more ASCII letters. */
  predicate IsAlpha(s: string)
    ensures IsAlpha(s) ==> !IsInt(s) && Trim(s) == s
  {
    s != [] && forall i :: 0 <= i < |s| ==> IsLetter(s[i])
  }

  /** `isLength({ min, max })` */
  predicate IsLength(s: string, min: nat, max: nat)
    ensures min > max ==> !IsLength(s, min, max)
    ensures IsLength(s, min, max) && s == [] ==> min == 0
  {
    min <= |s| <= max
  }

  /** `isIn(values)` */
  predicate IsIn(s: string, values: seq<string>)
    ensures IsIn(s, values) <==> exists i :: 0 <= i < |values| && values[i] == s
  {
    s in values
  }
}
