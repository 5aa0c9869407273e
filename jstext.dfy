/**
 * The JavaScript string semantics the site relies on, on strings taken as
 * sequences of characters: the whitespace set shared by `trim` and the regex
 * escape `\s`, `String.prototype.trim`, `replace` with a one-character string
 * pattern, `parseInt(s, 10)`, the decimal text of an integral number and the
 * truthiness of an optional string. The first and last position of a
 * character are helpers for the email matcher.
 */
module JsText {
  import opened Wrappers

  /** An optional string used as a condition (`x && …`): it is truthy
      exactly when present and non-empty. */
  function Truthy(v: Option<string>): (r: Option<string>)
    ensures r.Some? <==> v.Some? && v.value != ""
    ensures r.Some? ==> r == v
  {
    if v.Some? && v.value != "" then v else None
  }

  /** ECMAScript LineTerminator: LF, CR, LINE SEPARATOR, PARAGRAPH SEPARATOR. */
  predicate IsLineTerminator(c: char) {
    c == '\n' || c == '\r' || c == '\U{2028}' || c == '\U{2029}'
  }

  /** ECMAScript WhiteSpace: TAB, VT, FF, SPACE, NO-BREAK SPACE, ZWNBSP and the Zs category. */
  predicate IsWhiteSpace(c: char) {
    || c == '\t' || c == '\U{000B}' || c == '\U{000C}' || c == ' '
    || c == '\U{00A0}' || c == '\U{FEFF}' || c == '\U{1680}'
    || ('\U{2000}' <= c <= '\U{200A}')
    || c == '\U{202F}' || c == '\U{205F}' || c == '\U{3000}'
  }

  /** The set `trim` removes, `parseInt` skips and the regex escape `\s` matches. */
  predicate IsSpace(c: char) {
    IsWhiteSpace(c) || IsLineTerminator(c)
  }

  predicate IsAsciiLetter(c: char) {
    ('a' <= c <= 'z') || ('A' <= c <= 'Z')
  }

  predicate IsDigit(c: char) {
    '0' <= c <= '9'
  }

  predicate AllSpace(s: string) {
    forall i :: 0 <= i < |s| ==> IsSpace(s[i])
  }

  predicate AllDigits(s: string) {
    forall i :: 0 <= i < |s| ==> IsDigit(s[i])
  }

  /** `s` has no space at either end (the shape of a trimmed string). */
  predicate SpaceFreeEnds(s: string) {
    s != [] ==> !IsSpace(s[0]) && !IsSpace(s[|s| - 1])
  }

  // ---------------------------------------------------------------- trim

  /** Drops the leading spaces (the "start" half of TrimString). */
  function TrimStart(s: string): (r: string)
    ensures |r| <= |s| && r == s[|s| - |r|..]
    ensures AllSpace(s[..|s| - |r|])
    ensures r != [] ==> !IsSpace(r[0])
  {
    if s != [] && IsSpace(s[0]) then TrimStart(s[1..]) else s
  }

  /** TrimStart drops exactly a leading run of spaces. */
  lemma {:induction false} TrimStartSplit(a: string, m: string)
    requires AllSpace(a)
    requires m != [] ==> !IsSpace(m[0])
    ensures TrimStart(a + m) == m
    decreases |a|
  {
    var x := a + m;
    if a == [] {
      assert x == m;
    } else {
      assert x[0] == a[0] && IsSpace(a[0]);
      assert x[1..] == a[1..] + m;
      TrimStartSplit(a[1..], m);
    }
  }

  /** Drops the trailing spaces (the "end" half of TrimString). */
  function TrimEnd(s: string): (r: string)
    ensures |r| <= |s| && r == s[..|r|]
    ensures AllSpace(s[|r|..])
    ensures r != [] ==> !IsSpace(r[|r| - 1])
  {
    if s != [] && IsSpace(s[|s| - 1]) then TrimEnd(s[..|s| - 1]) else s
  }

  /** `String.prototype.trim`: the leading and the trailing spaces removed. */
  function Trim(s: string): (r: string)
    ensures SpaceFreeEnds(r)
    ensures r == [] <==> AllSpace(s)
  {
    if s != [] && IsSpace(s[0]) then
      var r := Trim(s[1..]);
      assert AllSpace(s[1..]) ==> AllSpace(s) by {
        if AllSpace(s[1..]) {
          forall i | 0 < i < |s| ensures IsSpace(s[i]) { assert s[i] == s[1..][i - 1]; }
        }
      }
      r
    else if s != [] && IsSpace(s[|s| - 1]) then
      var r := Trim(s[..|s| - 1]);
      assert |s| >= 2;
      assert !AllSpace(s[..|s| - 1]) by { assert s[..|s| - 1][0] == s[0]; }
      r
    else
      s
  }

  /** Trim is TrimString with both ends: the start trimmed, then the end. */
  lemma {:induction false} TrimIsStartThenEnd(s: string)
    ensures Trim(s) == TrimEnd(TrimStart(s))
  {
    var t := TrimStart(s);
    var r := TrimEnd(t);
    var a, b := s[..|s| - |t|], t[|r|..];
    StartEndShape(s, t, r);
    assert AllSpace(a) && AllSpace(b);
    if r == [] {
      AllSpaceAppend(a, b);
      assert s == a + b;
    } else {
      TrimSplit(a, r, b);
    }
  }

  /** Stripping the start and then the end splits `s` into a space prefix,
      a middle with space-free ends and a space suffix (stated for any `t`
      and `r` with the shapes TrimStart and TrimEnd promise). */
  lemma StartEndShape(s: string, t: string, r: string)
    requires |t| <= |s| && t == s[|s| - |t|..] && (t != [] ==> !IsSpace(t[0]))
    requires |r| <= |t| && r == t[..|r|] && (r != [] ==> !IsSpace(r[|r| - 1]))
    ensures s == s[..|s| - |t|] + r + t[|r|..]
    ensures SpaceFreeEnds(r)
  {
    var a, b := s[..|s| - |t|], t[|r|..];
    SplitAt(s, |s| - |t|);
    SplitAt(t, |r|);
    AppendAssoc(a, r, b);
    if r != [] {
      assert r[0] == t[0];
    }
  }

  lemma SplitAt(x: string, k: nat)
    requires k <= |x|
    ensures x == x[..k] + x[k..]
  {
  }

  lemma AppendAssoc(x: string, y: string, z: string)
    ensures x + (y + z) == x + y + z
  {
  }

  lemma AllSpaceAppend(a: string, b: string)
    requires AllSpace(a) && AllSpace(b)
    ensures AllSpace(a + b)
  {
    forall i | 0 <= i < |a + b| ensures IsSpace((a + b)[i]) {
      if i < |a| { assert (a + b)[i] == a[i]; } else { assert (a + b)[i] == b[i - |a|]; }
    }
  }

  /** Trim peels exactly the space run off each end: any split of `s` into a
      space prefix, a middle with space-free ends and a space suffix yields
      the middle. */
  lemma {:induction false} TrimSplit(a: string, m: string, b: string)
    requires AllSpace(a) && AllSpace(b) && SpaceFreeEnds(m)
    requires m != []
    ensures Trim(a + m + b) == m
    decreases |a| + |b|
  {
    var s := a + m + b;
    if a != [] {
      var a' := a[1..];
      assert a == [a[0]] + a';
      assert s == [a[0]] + (a' + m + b);
      assert s[0] == a[0] && IsSpace(s[0]);
      assert s[1..] == a' + m + b;
      assert AllSpace(a') by {
        forall i | 0 <= i < |a'| ensures IsSpace(a'[i]) { assert a'[i] == a[i + 1]; }
      }
      TrimSplit(a', m, b);
    } else if b != [] {
      var b' := b[..|b| - 1];
      assert b == b' + [b[|b| - 1]];
      assert s == (m + b') + [b[|b| - 1]];
      assert s[0] == m[0] && !IsSpace(s[0]);
      assert s[|s| - 1] == b[|b| - 1] && IsSpace(s[|s| - 1]);
      assert s[..|s| - 1] == a + m + b';
      assert AllSpace(b') by {
        forall i | 0 <= i < |b'| ensures IsSpace(b'[i]) { assert b'[i] == b[i]; }
      }
      TrimSplit(a, m, b');
    } else {
      assert s == m;
    }
  }

  /** Trimming twice is trimming once: a trimmed text has nothing left to
      trim. */
  lemma TrimIdempotent(s: string)
    ensures Trim(Trim(s)) == Trim(s)
  {
    var t := Trim(s);
    if t != [] {
      assert [] + t + [] == t;
      TrimSplit([], t, []);
    }
  }

  // ------------------------------------------- character positions, replace

  /** The first position of `c`, or -1 (used by the email matcher). */
  function IndexOf(s: string, c: char): (r: int)
    ensures -1 <= r < |s|
    ensures r == -1 <==> c !in s
    ensures 0 <= r ==> s[r] == c && c !in s[..r]
  {
    if s == [] then -1
    else if s[0] == c then 0
    else
      var k := IndexOf(s[1..], c);
      if k == -1 then -1
      else
        assert s[..k + 1] == [s[0]] + s[1..][..k];
        k + 1
  }

  /** The last position of `c`, or -1 (used by the email matcher). */
  function LastIndexOf(s: string, c: char): (r: int)
    ensures -1 <= r < |s|
    ensures r == -1 <==> c !in s
    ensures 0 <= r ==> s[r] == c && c !in s[r + 1..]
  {
    if s == [] then -1
    else if s[|s| - 1] == c then |s| - 1
    else
      var k := LastIndexOf(s[..|s| - 1], c);
      if k == -1 then
        assert s == s[..|s| - 1] + [s[|s| - 1]];
        -1
      else
        assert s[k + 1..] == s[..|s| - 1][k + 1..] + [s[|s| - 1]];
        k
  }

  /** `s.replace(c, "")` with a one-character string pattern: only the
      first occurrence is removed. */
  function RemoveFirst(s: string, c: char): string {
    if s == [] then []
    else if s[0] == c then s[1..]
    else [s[0]] + RemoveFirst(s[1..], c)
  }

  /** Text without `c` is left alone; otherwise exactly one character goes. */
  lemma {:induction false} RemoveFirstLength(s: string, c: char)
    ensures c !in s ==> RemoveFirst(s, c) == s
    ensures c in s ==> |RemoveFirst(s, c)| == |s| - 1
    decreases |s|
  {
    if s != [] && s[0] != c {
      RemoveFirstLength(s[1..], c);
      assert s == [s[0]] + s[1..];
      assert c in s <==> c in s[1..];
    }
  }

  /** The removed occurrence is the first one: `c` is cut out between the
      text before it, which has no `c`, and everything after it. */
  lemma {:induction false} RemoveFirstSplit(a: string, c: char, b: string)
    requires c !in a
    ensures RemoveFirst(a + [c] + b, c) == a + b
  {
    if a == [] {
      var x := a + [c] + b;
      assert x == [c] + b;
      assert x[0] == c && x[1..] == b;
    } else {
      var h, t := a[0], a[1..];
      assert h in a;
      assert a == [h] + t;
      RemoveFirstSplit(t, c, b);
      RemoveFirstStep(h, t, c, b);
      AppendAssoc([h], t, b);
    }
  }

  /** One step of the recursion: a leading character other than `c` stays. */
  lemma RemoveFirstStep(h: char, t: string, c: char, b: string)
    requires h != c
    ensures RemoveFirst([h] + t + [c] + b, c) == [h] + RemoveFirst(t + [c] + b, c)
  {
    var x, rest := [h] + t + [c] + b, t + [c] + b;
    assert x == [h] + rest;
    assert x[0] == h && x[1..] == rest;
  }

  // ------------------------------------------------- numbers and parseInt

  function DigitValue(c: char): (d: nat)
    requires IsDigit(c)
    ensures d < 10
  {
    (c as int - '0' as int) as nat
  }

  function DigitChar(d: nat): (c: char)
    requires d < 10
    ensures IsDigit(c) && DigitValue(c) == d
  {
    ('0' as int + d) as char
  }

  /** The value of a run of decimal digits, most significant first. */
  function DecimalValue(z: string): nat
    requires AllDigits(z)
  {
    if z == [] then 0 else DecimalValue(z[..|z| - 1]) * 10 + DigitValue(z[|z| - 1])
  }

  /** The decimal text of a natural number, as `String(n)` writes it. */
  function NatToDecimal(n: nat): (r: string)
    ensures r != [] && AllDigits(r)
    ensures DecimalValue(r) == n
    ensures r[0] == '0' ==> r == "0"
    decreases n
  {
    if n < 10 then [DigitChar(n)]
    else
      var front := NatToDecimal(n / 10);
      var r := front + [DigitChar(n % 10)];
      assert r[..|r| - 1] == front;
      r
  }

  /** The text of an integral number, as a template literal `${i}` writes it. */
  function IntToString(i: int): (r: string)
    ensures r != []
    ensures i < 0 <==> r[0] == '-'
  {
    if i < 0 then "-" + NatToDecimal(-i) else NatToDecimal(i)
  }

  /** The leading run of decimal digits of `u`. */
  function DigitPrefix(u: string): (z: string)
    ensures |z| <= |u| && z == u[..|z|] && AllDigits(z)
    ensures |z| < |u| ==> !IsDigit(u[|z|])
  {
    if u != [] && IsDigit(u[0]) then
      var rest := DigitPrefix(u[1..]);
      assert [u[0]] + rest == u[..|rest| + 1];
      [u[0]] + rest
    else []
  }

  /** The result of `parseInt`: a number or NaN. Under `===`, NaN equals no
      number, and `-0` equals `0`, so the sign of a zero is not kept. */
  datatype ParsedInt = NaN | Int(value: int)

  /** `parseInt(s, 10)`: skip leading spaces, take an optional sign, then the
      longest run of decimal digits; none at all gives NaN. Anything after the
      digits is ignored. */
  function ParseInt10(s: string): ParsedInt {
    var t := TrimStart(s);
    var negative := t != [] && t[0] == '-';
    var u := if t != [] && (t[0] == '+' || t[0] == '-') then t[1..] else t;
    var z := DigitPrefix(u);
    if z == [] then NaN
    else if negative then Int(-(DecimalValue(z) as int))
    else Int(DecimalValue(z))
  }

  lemma {:induction false} DigitPrefixOfDigits(z: string, rest: string)
    requires AllDigits(z)
    requires rest != [] ==> !IsDigit(rest[0])
    ensures DigitPrefix(z + rest) == z
  {
    if z != [] {
      assert (z + rest)[1..] == z[1..] + rest;
      DigitPrefixOfDigits(z[1..], rest);
      assert [z[0]] + z[1..] == z;
    } else {
      assert z + rest == rest;
    }
  }

  /** `parseInt` reads back what numbers print, even with a non-digit tail:
      the text of an integer `i` followed by anything not starting with a
      digit parses to `i`. */
  lemma ParseIntOfIntToString(i: int, rest: string)
    requires rest != [] ==> !IsDigit(rest[0])
    ensures ParseInt10(IntToString(i) + rest) == Int(i)
  {
    var s := IntToString(i) + rest;
    var d := NatToDecimal(if i < 0 then -i else i);
    assert s[0] == IntToString(i)[0];
    assert TrimStart(s) == s by {
      assert !IsSpace(s[0]);
    }
    DigitPrefixOfDigits(d, rest);
    if i < 0 {
      assert s == "-" + (d + rest);
      assert s[1..] == d + rest;
    } else {
      assert s == d + rest;
      assert s[0] != '+' && s[0] != '-';
    }
  }

  /** Text with no digit at all is NaN. */
  lemma ParseIntNaN(s: string)
    requires forall i :: 0 <= i < |s| ==> !IsDigit(s[i])
    ensures ParseInt10(s) == NaN
  {
    var t := TrimStart(s);
    var u := if t != [] && (t[0] == '+' || t[0] == '-') then t[1..] else t;
    assert u != [] ==> u[0] in s;
  }
}
