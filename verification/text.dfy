/** The string operations of JavaScript that the application uses:
    `toLowerCase`, `includes`, `trim`, `split`, `substring`, `replace` with a
    string pattern, decimal number formatting and `parseInt(s, 10)`. */
module Text {
  import opened JsValues
  import opened Seqs

  // ---------------------------------------------------------------- case

  /** `toLowerCase` on one character (ASCII letters only). */
  function LowerChar(c: char): char {
    if 'A' <= c <= 'Z' then (c as int + 32) as char else c
  }

  function Lower(s: string): (r: string)
    ensures |r| == |s|
    ensures forall i :: 0 <= i < |s| ==> r[i] == LowerChar(s[i])
  {
    seq(|s|, i requires 0 <= i < |s| => LowerChar(s[i]))
  }

  /** Lower-casing twice is lower-casing once, so a comparison of
      lower-cased texts does not depend on the case of its inputs. */
  lemma LowerIdempotent(s: string)
    ensures Lower(Lower(s)) == Lower(s)
  {
  }

  // ---------------------------------------------------------- substrings

  /** `s.includes(t)` */
  predicate Contains(s: string, t: string) {
    exists i | 0 <= i <= |s| :: OccursAt(s, t, i)
  }

  /** `t` occurs in `s` starting at index `i`. */
  predicate OccursAt(s: string, t: string, i: int) {
    0 <= i <= |s| - |t| && s[i..i + |t|] == t
  }

  /** A text contains every text it starts with. */
  lemma ContainsPrefix(s: string, t: string)
    requires t <= s
    ensures Contains(s, t)
  {
    assert OccursAt(s, t, 0);
  }

  /** A text contained in a part of a concatenation is contained in the whole. */
  lemma {:induction false} ContainsInMiddle(a: string, t: string, b: string)
    ensures Contains(a + t + b, t)
  {
    assert OccursAt(a + t + b, t, |a|);
  }

  /** Containment is transitive. */
  lemma ContainsWithin(s: string, t: string, u: string)
    requires Contains(s, t) && Contains(t, u)
    ensures Contains(s, u)
  {
    var i :| 0 <= i <= |s| && OccursAt(s, t, i);
    var j :| 0 <= j <= |t| && OccursAt(t, u, j);
    forall k | 0 <= k < |u|
      ensures s[i + j + k] == u[k]
    {
      assert u[k] == t[j..j + |u|][k] == t[j + k];
      assert t[j + k] == s[i..i + |t|][j + k];
    }
    assert s[i + j..i + j + |u|] == u;
    assert OccursAt(s, u, i + j);
  }

  // ---------------------------------------------------------- whitespace

  /** The characters `trim` removes: JavaScript's white space and line
      terminators. */
  predicate IsWhite(c: char) {
    c == ' ' || c == '\t' || c == '\n' || c == '\r' || c == '\U{B}' || c == '\U{C}'
    || c == '\U{A0}' || c == '\U{1680}' || ('\U{2000}' <= c <= '\U{200A}')
    || c == '\U{2028}' || c == '\U{2029}' || c == '\U{202F}' || c == '\U{205F}'
    || c == '\U{3000}' || c == '\U{FEFF}'
  }

  function TrimStart(s: string): (r: string)
    ensures |r| <= |s| && r == s[|s| - |r|..]
    ensures r != [] ==> !IsWhite(r[0])
  {
    if s != [] && IsWhite(s[0]) then TrimStart(s[1..]) else s
  }

  function TrimEnd(s: string): (r: string)
    ensures r <= s
    ensures r != [] ==> !IsWhite(r[|r| - 1])
  {
    if s != [] && IsWhite(s[|s| - 1]) then TrimEnd(s[..|s| - 1]) else s
  }

  /** `s.trim()` */
  function Trim(s: string): string {
    TrimEnd(TrimStart(s))
  }

  /** A text that neither starts nor ends with white space is its own trim. */
  predicate IsTrimmed(s: string) {
    s == [] || (!IsWhite(s[0]) && !IsWhite(s[|s| - 1]))
  }

  /** `s` is white space, then `r` at index `i`, then white space. */
  predicate WhiteAround(r: string, s: string, i: int) {
    0 <= i <= |s| - |r| && r == s[i..i + |r|]
    && (forall k :: 0 <= k < i ==> IsWhite(s[k]))
    && (forall k :: i + |r| <= k < |s| ==> IsWhite(s[k]))
  }

  /** `r` is `s` with white space cut from its two ends and nothing else. */
  ghost predicate TrimmedFrom(r: string, s: string) {
    exists i :: 0 <= i <= |s| && WhiteAround(r, s, i)
  }

  /** `trim` removes white space from the start only. */
  lemma {:induction false} TrimStartDropsWhite(s: string)
    ensures forall k :: 0 <= k < |s| - |TrimStart(s)| ==> IsWhite(s[k])
  {
    if s != [] && IsWhite(s[0]) {
      TrimStartDropsWhite(s[1..]);
      forall k | 1 <= k < |s| - |TrimStart(s)|
        ensures IsWhite(s[k])
      {
        assert s[k] == s[1..][k - 1];
      }
    }
  }

  /** `trim` removes white space from the end only. */
  lemma {:induction false} TrimEndDropsWhite(s: string)
    ensures forall k :: |TrimEnd(s)| <= k < |s| ==> IsWhite(s[k])
  {
    if s != [] && IsWhite(s[|s| - 1]) {
      TrimEndDropsWhite(s[..|s| - 1]);
    }
  }

  /** A prefix `r` of the suffix `t` of `s` starting at `i`, with white space
      before `t` and after `r`, is `s` with white space cut from its ends. */
  lemma CutEnds(s: string, t: string, r: string, i: int)
    requires 0 <= i <= |s| && t == s[i..] && r <= t
    requires forall k :: 0 <= k < i ==> IsWhite(s[k])
    requires forall k :: |r| <= k < |t| ==> IsWhite(t[k])
    ensures TrimmedFrom(r, s)
  {
    assert r == s[i..i + |r|];
    forall k | i + |r| <= k < |s|
      ensures IsWhite(s[k])
    {
      assert s[k] == t[k - i];
    }
    assert WhiteAround(r, s, i);
  }

  /** `trim` leaves no white space at either end. */
  lemma TrimEdges(s: string)
    ensures IsTrimmed(Trim(s)) && |Trim(s)| <= |s|
  {
    var t := TrimStart(s);
    var r := Trim(s);
    if r != [] {
      assert r[0] == t[0];
    }
  }

  /** What `trim` removes is only the white space at the two ends. */
  lemma TrimCutsWhite(s: string)
    ensures TrimmedFrom(Trim(s), s)
  {
    var t := TrimStart(s);
    TrimStartDropsWhite(s);
    TrimEndDropsWhite(t);
    CutEnds(s, t, Trim(s), |s| - |t|);
  }

  /** `trim` leaves no white space at either end, and what it removes is
      only the white space at the two ends. */
  lemma TrimIsTrimmed(s: string)
    ensures IsTrimmed(Trim(s)) && |Trim(s)| <= |s|
    ensures TrimmedFrom(Trim(s), s)
  {
    TrimEdges(s);
    TrimCutsWhite(s);
  }

  lemma TrimmedIsFixed(s: string)
    requires IsTrimmed(s)
    ensures Trim(s) == s
  {
  }

  /** Leading white space does not survive `trim`. */
  lemma {:induction false} TrimSkipsLeadingWhite(w: string, s: string)
    requires forall i :: 0 <= i < |w| ==> IsWhite(w[i])
    ensures TrimStart(w + s) == TrimStart(s)
  {
    if w == [] {
      assert w + s == s;
    } else {
      assert (w + s)[0] == w[0];
      assert (w + s)[1..] == w[1..] + s;
      TrimSkipsLeadingWhite(w[1..], s);
    }
  }

  /** White space before a trimmed text is cut by `trim`. */
  lemma TrimWhiteBefore(w: string, s: string)
    requires forall i :: 0 <= i < |w| ==> IsWhite(w[i])
    requires IsTrimmed(s)
    ensures Trim(w + s) == s
  {
    TrimSkipsLeadingWhite(w, s);
    TrimmedIsFixed(s);
  }

  /** Leading white space is cut only up to the first non-white character. */
  lemma {:induction false} TrimStartBefore(a: string, b: string)
    requires b != [] && !IsWhite(b[0])
    ensures TrimStart(a + b) == TrimStart(a) + b
  {
    if a == [] {
      assert a + b == b;
    } else if IsWhite(a[0]) {
      assert (a + b)[0] == a[0];
      assert (a + b)[1..] == a[1..] + b;
      TrimStartBefore(a[1..], b);
    } else {
      assert (a + b)[0] == a[0];
    }
  }

  /** Leading white space is cut only from a text before a part that starts
      with something else. */
  lemma TrimStartBeforeMid(a: string, mid: string, tail: string)
    requires mid != [] && !IsWhite(mid[0])
    ensures TrimStart(a + mid + tail) == TrimStart(a) + mid + tail
  {
    assert a + mid + tail == a + (mid + tail);
    assert (mid + tail)[0] == mid[0];
    TrimStartBefore(a, mid + tail);
  }

  /** Trimming a text with a middle part that neither starts nor ends with
      white space cuts only the start of what precedes it and the end of
      what follows it. */
  lemma TrimAround(a: string, mid: string, tail: string)
    requires mid != [] && !IsWhite(mid[0]) && !IsWhite(mid[|mid| - 1])
    ensures Trim(a + mid + tail) == TrimStart(a) + mid + TrimEnd(tail)
  {
    var head := TrimStart(a) + mid;
    assert TrimStart(a + mid + tail) == head + tail by {
      TrimStartBeforeMid(a, mid, tail);
    }
    assert TrimEnd(head + tail) == head + TrimEnd(tail) by {
      assert head[|head| - 1] == mid[|mid| - 1];
      TrimEndAfter(head, tail);
    }
  }

  /** Trailing white space is cut only after the last non-white character. */
  lemma {:induction false} TrimEndAfter(x: string, y: string)
    requires x != [] && !IsWhite(x[|x| - 1])
    ensures TrimEnd(x + y) == x + TrimEnd(y)
    decreases |y|
  {
    if y == [] {
      assert x + y == x;
    } else if IsWhite(y[|y| - 1]) {
      assert (x + y)[..|x + y| - 1] == x + y[..|y| - 1];
      TrimEndAfter(x, y[..|y| - 1]);
    } else {
      assert y == y;
    }
  }

  // ---------------------------------------------------------------- split

  /** The text does not contain the character. */
  predicate Lacks(s: string, c: char) {
    forall i :: 0 <= i < |s| ==> s[i] != c
  }

  /** `s.split(sep)` for a one-character separator: no part contains it. */
  function Split(s: string, sep: char): (r: seq<string>)
    ensures |r| >= 1
    ensures forall k :: 0 <= k < |r| ==> Lacks(r[k], sep)
    decreases |s|
  {
    match Find(s, c => c == sep)
    case None => [s]
    case Some(i) => [s[..i]] + Split(s[i + 1..], sep)
  }

  /** `parts.join(sep)`, the inverse of `Split`. */
  function Join(parts: seq<string>, sep: char): string {
    if parts == [] then ""
    else if |parts| == 1 then parts[0]
    else parts[0] + [sep] + Join(parts[1..], sep)
  }

  /** Splitting and joining again gives back the text. */
  lemma {:induction false} JoinSplit(s: string, sep: char)
    ensures Join(Split(s, sep), sep) == s
    decreases |s|
  {
    match Find(s, c => c == sep)
    case None =>
    case Some(i) =>
      var rest := Split(s[i + 1..], sep);
      SplitAt(s, sep, i);
      JoinSplit(s[i + 1..], sep);
      JoinCons(s[..i], rest, sep);
      assert s == s[..i] + [sep] + s[i + 1..];
  }

  /** One step of `Split` at the first separator. */
  lemma SplitAt(s: string, sep: char, i: nat)
    requires Find(s, c => c == sep) == Some(i)
    ensures i < |s| && s[i] == sep
    ensures Split(s, sep) == [s[..i]] + Split(s[i + 1..], sep)
  {
  }

  /** One step of `Join` before a non-empty rest. */
  lemma JoinCons(part: string, rest: seq<string>, sep: char)
    requires rest != []
    ensures Join([part] + rest, sep) == part + [sep] + Join(rest, sep)
  {
    assert ([part] + rest)[1..] == rest;
  }

  /** The first part of a split is everything before the first separator. */
  lemma SplitFirst(a: string, sep: char, b: string)
    requires forall i :: 0 <= i < |a| ==> a[i] != sep
    ensures Split(a + [sep] + b, sep) == [a] + Split(b, sep)
  {
    var s := a + [sep] + b;
    var f := Find(s, c => c == sep);
    assert s[|a|] == sep;
    assert f == Some(|a|);
    assert s[..|a|] == a;
    assert s[|a| + 1..] == b;
  }

  // ------------------------------------------------------------- numbers

  predicate IsDigit(c: char) {
    '0' <= c <= '9'
  }

  predicate AllDigits(s: string) {
    forall i :: 0 <= i < |s| ==> IsDigit(s[i])
  }

  function DigitChar(d: nat): (c: char)
    requires d < 10
    ensures IsDigit(c)
  {
    ('0' as int + d) as char
  }

  /** `String(n)` for a non-negative integer: decimal digits, no leading zero. */
  function NatToString(n: nat): (r: string)
    ensures |r| >= 1 && AllDigits(r)
    ensures r[0] == '0' ==> r == "0"
    decreases n
  {
    if n < 10 then [DigitChar(n)] else NatToString(n / 10) + [DigitChar(n % 10)]
  }

  /** The number a string of decimal digits denotes. */
  function DigitsValue(s: string): nat
    requires AllDigits(s)
  {
    if s == [] then 0 else DigitsValue(s[..|s| - 1]) * 10 + (s[|s| - 1] as int - '0' as int)
  }

  /** Formatting a number and reading it back gives the number. */
  lemma {:induction false} NatToStringValue(n: nat)
    ensures DigitsValue(NatToString(n)) == n
    decreases n
  {
    var s := NatToString(n);
    if n < 10 {
      assert s[..|s| - 1] == [];
    } else {
      assert s[..|s| - 1] == NatToString(n / 10);
      NatToStringValue(n / 10);
    }
  }

  /** The longest prefix of decimal digits. */
  function LeadingDigits(s: string): (r: string)
    ensures r <= s && AllDigits(r)
    ensures |r| < |s| ==> !IsDigit(s[|r|])
  {
    if s != [] && IsDigit(s[0]) then [s[0]] + LeadingDigits(s[1..]) else []
  }

  lemma {:induction false} LeadingDigitsOfDigits(s: string)
    requires AllDigits(s)
    ensures LeadingDigits(s) == s
  {
    if s != [] {
      LeadingDigitsOfDigits(s[1..]);
    }
  }

  /** `parseInt(s, 10)`: skip leading white space, read an optional sign
      and the longest run of decimal digits; `None` stands for NaN (no
      digits). Negative zero is the integer 0. */
  function ParseInt(s: string): (r: Option<int>)
    ensures r.None? <==> LeadingDigits(Unsigned(TrimStart(s))) == []
  {
    var t := TrimStart(s);
    var digits := LeadingDigits(Unsigned(t));
    if digits == [] then None
    else
      var v: int := DigitsValue(digits);
      if t[0] == '-' then Some(-v) else Some(v)
  }

  /** The text after an optional leading sign. */
  function Unsigned(t: string): string {
    if t != [] && (t[0] == '-' || t[0] == '+') then t[1..] else t
  }

  /** `n.toString()` for an integer, "NaN" for `None`. */
  function IntToText(n: Option<int>): string {
    match n
    case None => "NaN"
    case Some(v) => if v < 0 then "-" + NatToString(-v) else NatToString(v)
  }

  /** `parseInt(s, 10).toString()` */
  function IntegerText(s: string): string {
    IntToText(ParseInt(s))
  }

  /** Reading back what `IntToText` printed gives the same number. */
  lemma ParseIntToText(n: Option<int>)
    ensures ParseInt(IntToText(n)) == n
  {
    if n.None? {
      ParseNaN();
    } else if n.value < 0 {
      var m: nat := -n.value;
      ParseNegative(m);
      assert IntToText(n) == "-" + NatToString(m);
    } else {
      var m: nat := n.value;
      ParseDecimal(m);
      assert IntToText(n) == NatToString(m);
    }
  }

  lemma ParseNaN()
    ensures ParseInt("NaN") == None
  {
    var t := "NaN";
    assert !IsWhite(t[0]);
    assert TrimStart(t) == t;
    assert Unsigned(t) == t;
    assert !IsDigit(t[0]);
    assert LeadingDigits(t) == [];
  }

  lemma DigitNotWhite(c: char)
    requires IsDigit(c)
    ensures !IsWhite(c) && c != '-' && c != '+'
  {
  }

  lemma ParseDecimal(n: nat)
    ensures ParseInt(NatToString(n)) == Some(n)
  {
    ParseDigits(NatToString(n));
    NatToStringValue(n);
  }

  lemma ParseNegative(n: nat)
    requires n > 0
    ensures ParseInt("-" + NatToString(n)) == Some(0 - n)
  {
    var d := NatToString(n);
    var text := "-" + d;
    assert text[0] == '-' && !IsWhite('-');
    assert TrimStart(text) == text;
    assert text[1..] == d;
    assert Unsigned(text) == d;
    LeadingDigitsOfDigits(d);
    NatToStringValue(n);
    assert LeadingDigits(Unsigned(TrimStart(text))) == d;
  }

  /** A leading zero does not change the number a digit string denotes. */
  lemma {:induction false} DigitsValueLeadingZero(d: string)
    requires AllDigits(d)
    ensures DigitsValue("0" + d) == DigitsValue(d)
    decreases |d|
  {
    var z := "0" + d;
    if d == [] {
      assert z[..|z| - 1] == [];
    } else {
      assert z[..|z| - 1] == "0" + d[..|d| - 1];
      DigitsValueLeadingZero(d[..|d| - 1]);
    }
  }

  /** The digit run of a text is its digits up to the first non-digit. */
  lemma {:induction false} LeadingDigitsAppend(d: string, rest: string)
    requires AllDigits(d)
    requires rest == [] || !IsDigit(rest[0])
    ensures LeadingDigits(d + rest) == d
  {
    if d == [] {
      assert d + rest == rest;
    } else {
      assert (d + rest)[0] == d[0];
      assert (d + rest)[1..] == d[1..] + rest;
      LeadingDigitsAppend(d[1..], rest);
    }
  }

  /** A sign is not cut by `trim` and is skipped to reach what follows it. */
  lemma SignFirst(c: char, u: string)
    requires c == '+' || c == '-'
    ensures TrimStart([c] + u) == [c] + u && Unsigned([c] + u) == u && ([c] + u)[0] == c
  {
    assert ([c] + u)[0] == c && ([c] + u)[1..] == u;
  }

  /** Text starting with a digit is not cut by `trim` and has no sign. */
  lemma DigitFirst(u: string)
    requires u != [] && IsDigit(u[0])
    ensures TrimStart(u) == u && Unsigned(u) == u && u[0] != '-'
  {
    DigitNotWhite(u[0]);
  }

  /** An optional sign before digits: nothing for `trim` to cut, and the
      sign is skipped to reach the digits. */
  lemma SignedDigits(sign: string, d: string, rest: string)
    requires sign == "" || sign == "+" || sign == "-"
    requires d != [] && AllDigits(d)
    ensures var x := sign + d + rest;
      TrimStart(x) == x && Unsigned(x) == d + rest && (x[0] == '-' <==> sign == "-")
  {
    var u := d + rest;
    assert u[0] == d[0];
    if sign == "" {
      assert sign + d + rest == u;
      DigitFirst(u);
    } else {
      assert sign + d + rest == [sign[0]] + u;
      SignFirst(sign[0], u);
    }
  }

  /** `parseInt(s, 10)` on white space, an optional sign, a run of digits and
      anything not starting with a digit: the signed value of the digits. */
  lemma ParseIntReads(w: string, sign: string, d: string, rest: string)
    requires forall i :: 0 <= i < |w| ==> IsWhite(w[i])
    requires sign == "" || sign == "+" || sign == "-"
    requires d != [] && AllDigits(d)
    requires rest == [] || !IsDigit(rest[0])
    ensures ParseInt(w + sign + d + rest) == Some(if sign == "-" then 0 - DigitsValue(d) else DigitsValue(d))
  {
    var x := sign + d + rest;
    assert w + sign + d + rest == w + x;
    TrimSkipsLeadingWhite(w, x);
    SignedDigits(sign, d, rest);
    LeadingDigitsAppend(d, rest);
    ParseIntFrom(w + x, d, sign == "-");
  }

  /** What `parseInt` reads once the start of the text is known. */
  lemma ParseIntFrom(s: string, d: string, negative: bool)
    requires d != [] && LeadingDigits(Unsigned(TrimStart(s))) == d
    requires TrimStart(s) != [] && (TrimStart(s)[0] == '-' <==> negative)
    ensures ParseInt(s) == Some(if negative then 0 - DigitsValue(d) else DigitsValue(d))
  {
  }

  /** A non-empty digit string parses to the number it denotes. */
  lemma ParseDigits(d: string)
    requires d != [] && AllDigits(d)
    ensures ParseInt(d) == Some(DigitsValue(d))
  {
    DigitNotWhite(d[0]);
    assert TrimStart(d) == d;
    assert Unsigned(d) == d;
    LeadingDigitsOfDigits(d);
    assert LeadingDigits(Unsigned(TrimStart(d))) == d;
  }

  /** `parseInt` ignores a leading zero: "04" and "4" have the same canonical text. */
  lemma IntegerTextLeadingZero(d: string)
    requires d != [] && AllDigits(d)
    ensures IntegerText("0" + d) == IntegerText(d)
  {
    assert AllDigits("0" + d);
    ParseDigits("0" + d);
    ParseDigits(d);
    DigitsValueLeadingZero(d);
  }

  /** Canonicalising a number's text twice changes nothing more than once. */
  lemma IntegerTextIdempotent(s: string)
    ensures IntegerText(IntegerText(s)) == IntegerText(s)
  {
    ParseIntToText(ParseInt(s));
  }
}
