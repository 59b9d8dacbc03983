/**
 * The handful of Python `str` operations the bot relies on, on Dafny `string`s
 * (sequences of Unicode scalar values, as Python's `str` is a sequence of code points).
 */
module Text {

  /** Python's `str.isspace()` for one character: the characters `str.strip()` and `str.split()` treat as blank. */
  predicate IsSpace(c: char) {
    || c == ' ' || c == '\t' || c == '\n' || c == '\r' || c == '\U{B}' || c == '\U{C}'
    || ('\U{1C}' <= c <= '\U{1F}')
    || c == '\U{85}' || c == '\U{A0}' || c == '\U{1680}'
    || ('\U{2000}' <= c <= '\U{200A}')
    || c == '\U{2028}' || c == '\U{2029}' || c == '\U{202F}' || c == '\U{205F}' || c == '\U{3000}'
  }

  /** `s.lstrip()`: drops the leading blank characters. */
  function TrimLeft(s: string): (r: string)
    ensures |r| <= |s|
  {
    if s != [] && IsSpace(s[0]) then TrimLeft(s[1..]) else s
  }

  /** What `lstrip` removes is blank, what it keeps is a suffix that starts with a non-blank character. */
  lemma {:induction false} TrimLeftSpec(s: string)
    ensures TrimLeft(s) == s[|s| - |TrimLeft(s)|..]
    ensures forall i :: 0 <= i < |s| - |TrimLeft(s)| ==> IsSpace(s[i])
    ensures TrimLeft(s) == [] || !IsSpace(TrimLeft(s)[0])
  {
    if s != [] && IsSpace(s[0]) {
      TrimLeftSpec(s[1..]);
      assert s[1..][|s| - 1 - |TrimLeft(s)|..] == s[|s| - |TrimLeft(s)|..];
    }
  }

  /** `s.rstrip()`: drops the trailing blank characters. */
  function TrimRight(s: string): (r: string)
    ensures |r| <= |s|
  {
    if s != [] && IsSpace(s[|s| - 1]) then TrimRight(s[..|s| - 1]) else s
  }

  /** What `rstrip` removes is blank, what it keeps is a prefix that ends with a non-blank character. */
  lemma {:induction false} TrimRightSpec(s: string)
    ensures TrimRight(s) == s[..|TrimRight(s)|]
    ensures forall i :: |TrimRight(s)| <= i < |s| ==> IsSpace(s[i])
    ensures TrimRight(s) == [] || !IsSpace(TrimRight(s)[|TrimRight(s)| - 1])
  {
    if s != [] && IsSpace(s[|s| - 1]) {
      TrimRightSpec(s[..|s| - 1]);
      assert s[..|s| - 1][..|TrimRight(s)|] == s[..|TrimRight(s)|];
    }
  }

  /** `s.strip()`. */
  function Strip(s: string): (r: string)
    ensures |r| <= |s|
  {
    TrimRight(TrimLeft(s))
  }

  /** The stripped text is empty exactly when every character is blank, and otherwise begins and ends with a non-blank one. */
  lemma StripSpec(s: string)
    ensures Strip(s) == [] <==> forall i :: 0 <= i < |s| ==> IsSpace(s[i])
    ensures Strip(s) == [] || (!IsSpace(Strip(s)[0]) && !IsSpace(Strip(s)[|Strip(s)| - 1]))
  {
    var t := TrimLeft(s);
    TrimLeftSpec(s);
    TrimRightSpec(t);
    assert t != [] ==> s[|s| - |t|] == t[0];
    if t != [] {
      assert TrimRight(t) != [];
      assert TrimRight(t)[0] == t[0];
    }
  }

  /** `s.startswith(p)`. */
  predicate StartsWith(s: string, p: string) {
    |p| <= |s| && s[..|p|] == p
  }

  /** Python's `sub in s` (true for the empty `sub`). */
  predicate Contains(s: string, sub: string)
    decreases |s|
  {
    StartsWith(s, sub) || (s != [] && Contains(s[1..], sub))
  }

  /** `sub` occurs in `s` starting at position `i`. */
  predicate OccursAt(s: string, sub: string, i: int) {
    0 <= i && i + |sub| <= |s| && s[i..i + |sub|] == sub
  }

  /** An occurrence at a known position is found by `Contains`. */
  lemma {:induction false} ContainsAt(s: string, sub: string, i: nat)
    requires OccursAt(s, sub, i)
    ensures Contains(s, sub)
    decreases i
  {
    if i == 0 {
      assert s[..|sub|] == s[0..0 + |sub|];
    } else {
      assert s[1..][i - 1..i - 1 + |sub|] == s[i..i + |sub|];
      ContainsAt(s[1..], sub, i - 1);
    }
  }

  /** Where `Contains` finds `sub`, it occurs at some position. */
  lemma {:induction false} ContainsWitness(s: string, sub: string) returns (i: nat)
    requires Contains(s, sub)
    ensures OccursAt(s, sub, i)
    decreases |s|
  {
    if StartsWith(s, sub) {
      i := 0;
      assert s[0..0 + |sub|] == s[..|sub|];
    } else {
      var j := ContainsWitness(s[1..], sub);
      i := j + 1;
      assert s[1..][j..j + |sub|] == s[i..i + |sub|];
    }
  }

  /** `Contains` is the substring test: `sub` occurs in `s` at some position. */
  lemma ContainsIff(s: string, sub: string)
    ensures Contains(s, sub) <==> exists i :: OccursAt(s, sub, i)
  {
    if Contains(s, sub) {
      var i := ContainsWitness(s, sub);
    }
    if exists i :: OccursAt(s, sub, i) {
      var i :| OccursAt(s, sub, i);
      ContainsAt(s, sub, i);
    }
  }

  /** An occurrence in a part is an occurrence in any string built around it. */
  lemma ContainsInMiddle(a: string, m: string, b: string, sub: string)
    requires Contains(m, sub)
    ensures Contains(a + m + b, sub)
  {
    ContainsIff(m, sub);
    var i :| OccursAt(m, sub, i);
    assert (a + m + b)[|a| + i..|a| + i + |sub|] == m[i..i + |sub|];
    ContainsAt(a + m + b, sub, |a| + i);
  }

  /** A piece of a concatenation occurs in it. */
  lemma ContainsPiece(a: string, m: string, b: string)
    ensures Contains(a + m + b, m)
  {
    ContainsAt(m, m, 0);
    ContainsInMiddle(a, m, b, m);
  }

  /** An occurrence inside an occurring string is an occurrence. */
  lemma ContainsTransitive(s: string, t: string, sub: string)
    requires Contains(s, t) && Contains(t, sub)
    ensures Contains(s, sub)
  {
    var i := ContainsWitness(s, t);
    var j := ContainsWitness(t, sub);
    assert OccursAt(s, t, i) && OccursAt(t, sub, j);
    var w := s[i..i + |t|];
    assert w == t;
    forall k | 0 <= k < |sub| ensures s[i + j + k] == sub[k] {
      assert w[j + k] == s[i + j + k];
      assert t[j..j + |sub|][k] == t[j + k];
    }
    assert s[i + j..i + j + |sub|] == sub;
    ContainsAt(s, sub, i + j);
  }

  /** An f-string whose literal pieces `labels` are each followed by the value in `values`: `labels[0] + values[0] + labels[1] + ...`. */
  function Fill(labels: seq<string>, values: seq<string>): string
    requires |labels| == |values|
    decreases |labels|
  {
    if labels == [] then "" else labels[0] + values[0] + Fill(labels[1..], values[1..])
  }

  /** Each label is followed by its value in the filled text, whatever comes after it. */
  lemma {:induction false} FillShows(labels: seq<string>, values: seq<string>, tail: string, i: nat)
    requires |labels| == |values| && i < |labels|
    ensures Contains(Fill(labels, values) + tail, labels[i] + values[i])
    decreases i
  {
    var f := Fill(labels[1..], values[1..]);
    var rest := f + tail;
    assert Fill(labels, values) == labels[0] + values[0] + f;
    assert Fill(labels, values) + tail == labels[0] + values[0] + rest;
    if i == 0 {
      ContainsPiece("", labels[0] + values[0], rest);
      assert "" + (labels[0] + values[0]) + rest == labels[0] + values[0] + rest;
    } else {
      FillShows(labels[1..], values[1..], tail, i - 1);
      ContainsInMiddle(labels[0] + values[0], rest, "", labels[i] + values[i]);
      assert labels[0] + values[0] + rest + "" == labels[0] + values[0] + rest;
    }
  }

  /** Python's `str.lower()` on one character, for the ASCII letters. */
  function LowerChar(c: char): char {
    if 'A' <= c <= 'Z' then (c as int - 'A' as int + 'a' as int) as char else c
  }

  /** `s.lower()`, restricted to ASCII letters. */
  function Lower(s: string): (r: string)
    ensures |r| == |s| && forall i :: 0 <= i < |s| ==> r[i] == LowerChar(s[i])
  {
    if s == [] then [] else [LowerChar(s[0])] + Lower(s[1..])
  }

  /** `s.replace(c, "")` for a one-character `c`: every other character is kept, in order. */
  function Remove(s: string, c: char): (r: string)
    ensures |r| <= |s| && c !in r
    ensures c !in s ==> r == s
  {
    if s == [] then [] else (if s[0] == c then [] else [s[0]]) + Remove(s[1..], c)
  }

  /** One ASCII decimal digit (Python's `str.isdigit()` is restricted to these here). */
  predicate IsDigit(c: char) {
    '0' <= c <= '9'
  }

  /** `s.isdigit()`: non-empty and made only of digits. */
  predicate IsDigitString(s: string) {
    |s| > 0 && forall i :: 0 <= i < |s| ==> IsDigit(s[i])
  }

  function DigitChar(d: nat): (c: char)
    requires d < 10
    ensures IsDigit(c) && c as int - '0' as int == d
  {
    ('0' as int + d) as char
  }

  /** The number a string of digits denotes. */
  function DigitsValue(s: string): nat
    requires forall i :: 0 <= i < |s| ==> IsDigit(s[i])
  {
    if s == [] then 0
    else
      var d := s[|s| - 1];
      assert IsDigit(d);
      DigitsValue(s[..|s| - 1]) * 10 + (d as int - '0' as int)
  }

  /** `str(n)` for a natural number: its decimal digits. */
  function NatToString(n: nat): (r: string)
    ensures IsDigitString(r)
    ensures |r| > 1 ==> r[0] != '0'
  {
    if n < 10 then [DigitChar(n)] else NatToString(n / 10) + [DigitChar(n % 10)]
  }

  /** Reading back the decimal text of `n` gives `n`. */
  lemma {:induction false} NatToStringRoundTrip(n: nat)
    ensures DigitsValue(NatToString(n)) == n
  {
    if n >= 10 {
      var s := NatToString(n);
      assert s[..|s| - 1] == NatToString(n / 10);
      NatToStringRoundTrip(n / 10);
    }
  }

  /** `s.split(sep)` for a one-character separator: always at least one piece, none holding `sep`. */
  function Split(s: string, sep: char): (r: seq<string>)
    ensures |r| >= 1
    ensures forall i :: 0 <= i < |r| ==> sep !in r[i]
  {
    if s == [] then [""]
    else
      var rest := Split(s[1..], sep);
      if s[0] == sep then [""] + rest else [[s[0]] + rest[0]] + rest[1..]
  }

  /** `sep.join(parts)`. */
  function Join(parts: seq<string>, sep: char): string
    requires |parts| >= 1
  {
    if |parts| == 1 then parts[0] else parts[0] + [sep] + Join(parts[1..], sep)
  }

  /** Splitting and joining again on the same separator gives the original string back. */
  lemma {:induction false} JoinSplit(s: string, sep: char)
    ensures Join(Split(s, sep), sep) == s
  {
    if s != [] {
      var rest := Split(s[1..], sep);
      JoinSplit(s[1..], sep);
      if s[0] != sep {
        if |rest| == 1 {
        } else {
          assert [s[0]] + rest[0] + [sep] + Join(rest[1..], sep) == [s[0]] + (rest[0] + [sep] + Join(rest[1..], sep));
        }
      }
    }
  }

  /** A separator-free piece followed by the separator splits off as the first piece. */
  lemma {:induction false} SplitAfterPiece(w: string, sep: char, rest: string)
    requires sep !in w
    ensures Split(w + [sep] + rest, sep) == [w] + Split(rest, sep)
  {
    var s := w + [sep] + rest;
    if w == [] {
      assert s[1..] == rest;
    } else {
      assert s[1..] == w[1..] + [sep] + rest;
      SplitAfterPiece(w[1..], sep, rest);
      assert [w[0]] + w[1..] == w;
    }
  }

  /** The characters of `s` up to its first blank character. */
  function TakeWord(s: string): (r: string)
    ensures |r| <= |s| && r == s[..|r|]
    ensures forall i :: 0 <= i < |r| ==> !IsSpace(r[i])
    ensures |r| == |s| || IsSpace(s[|r|])
  {
    if s == [] || IsSpace(s[0]) then [] else [s[0]] + TakeWord(s[1..])
  }

  /** `s.split()[0]`: the first run of non-blank characters. It is empty only for a blank `s`. */
  function FirstWord(s: string): (r: string)
    ensures forall i :: 0 <= i < |r| ==> !IsSpace(r[i])
    ensures r == [] <==> forall i :: 0 <= i < |s| ==> IsSpace(s[i])
  {
    var t := TrimLeft(s);
    TrimLeftSpec(s);
    assert t != [] ==> s[|s| - |t|] == t[0];
    TakeWord(t)
  }

  /**
   * The first word is the leading token: after the blank prefix that `split()` skips
   * come the word's characters, and then a blank or the end of the string.
   */
  lemma FirstWordSpec(s: string)
    ensures var k := |s| - |TrimLeft(s)|;
      var r := FirstWord(s);
      && (forall i :: 0 <= i < k ==> IsSpace(s[i]))
      && k + |r| <= |s| && s[k..k + |r|] == r
      && (k + |r| == |s| || IsSpace(s[k + |r|]))
      && (r == [] <==> k == |s|)
  {
    TrimLeftSpec(s);
    var t := TrimLeft(s);
    var k := |s| - |t|;
    var r := TakeWord(t);
    assert s[k..k + |r|] == t[..|r|];
    assert k + |r| < |s| ==> s[k + |r|] == t[|r|];
  }
}
