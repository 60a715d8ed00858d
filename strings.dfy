/** The JavaScript string operations the modelled code relies on, over `seq<char>`:
    `startsWith`, `includes`, `substring`, ASCII `toLowerCase`, `trim`, `split` on one
    character, `Number.prototype.toString` on integers and `parseInt`. */
module Strings {
  import opened Wrappers

  function Min(a: int, b: int): int { if a <= b then a else b }

  function Max(a: int, b: int): int { if a <= b then b else a }

  /** `s.startsWith(prefix)` */
  predicate StartsWith(s: string, prefix: string) {
    |prefix| <= |s| && s[..|prefix|] == prefix
  }

  /** `s.includes(sub)`: `sub` occurs somewhere in `s`. */
  predicate Contains(s: string, sub: string)
    decreases |s|
  {
    StartsWith(s, sub) || (|s| > 0 && Contains(s[1..], sub))
  }

  /** An occurrence at any position is found by `Contains`. */
  lemma {:induction false} ContainsAt(s: string, sub: string, k: nat)
    requires k + |sub| <= |s| && s[k..k + |sub|] == sub
    ensures Contains(s, sub)
  {
    if k > 0 {
      assert s[1..][k - 1..k - 1 + |sub|] == sub;
      ContainsAt(s[1..], sub, k - 1);
    }
  }

  /** `s.substring(from, to)` for `from <= to`: both ends are clamped to the length of `s`,
      so the result is the part of `s` between the two positions and never longer than
      `to - from`. */
  function Substring(s: string, from: nat, to: nat): (r: string)
    requires from <= to
    ensures |r| <= to - from
    ensures from <= |s| ==> |r| == Min(to, |s|) - from && forall i :: 0 <= i < |r| ==> r[i] == s[from + i]
    ensures from >= |s| ==> r == ""
  {
    s[Min(from, |s|)..Min(to, |s|)]
  }

  /** `toLowerCase` on one character, restricted to ASCII. */
  function LowerChar(c: char): char {
    if 'A' <= c <= 'Z' then (c as int + 32) as char else c
  }

  /** `s.toLowerCase()`, restricted to ASCII letters (see README for why this is exact where
      it is used). */
  function ToLower(s: string): (r: string)
    ensures |r| == |s| && forall i :: 0 <= i < |s| ==> r[i] == LowerChar(s[i])
  {
    seq(|s|, i requires 0 <= i < |s| => LowerChar(s[i]))
  }

  /** Lower-casing twice is lower-casing once. */
  lemma ToLowerIdempotent(s: string)
    ensures ToLower(ToLower(s)) == ToLower(s)
  {
  }

  /** The characters `String.prototype.trim` and `parseInt` skip: WhiteSpace and
      LineTerminator of the ECMAScript grammar. */
  predicate IsSpace(c: char) {
    c in {'\t', '\n', '\U{000B}', '\U{000C}', '\r', ' ', '\U{00A0}', '\U{1680}',
          '\U{2028}', '\U{2029}', '\U{202F}', '\U{205F}', '\U{3000}', '\U{FEFF}'}
    || ('\U{2000}' <= c <= '\U{200A}')
  }

  /** `s.trimStart()`: the longest suffix of `s` that does not start with a space, and
      everything cut off is space. */
  function TrimStart(s: string): (r: string)
    ensures |r| <= |s| && r == s[|s| - |r|..]
    ensures r == "" || !IsSpace(r[0])
    ensures forall i :: 0 <= i < |s| - |r| ==> IsSpace(s[i])
  {
    if |s| > 0 && IsSpace(s[0]) then TrimStart(s[1..]) else s
  }

  /** `s.trimEnd()`: the longest prefix of `s` that does not end with a space, and
      everything cut off is space. */
  function TrimEnd(s: string): (r: string)
    ensures |r| <= |s| && r == s[..|r|]
    ensures r == "" || !IsSpace(r[|r| - 1])
    ensures forall i :: |r| <= i < |s| ==> IsSpace(s[i])
  {
    if |s| > 0 && IsSpace(s[|s| - 1]) then TrimEnd(s[..|s| - 1]) else s
  }

  /** Number of spaces `trimStart` cuts from the front of `s`. */
  function LeadingSpaces(s: string): nat {
    |s| - |TrimStart(s)|
  }

  /** `s.trim()`: the part of `s` left once spaces are cut from both ends; everything cut
      is space and what is left neither starts nor ends with a space. */
  function Trim(s: string): (r: string)
    ensures LeadingSpaces(s) + |r| <= |s| && r == s[LeadingSpaces(s)..LeadingSpaces(s) + |r|]
    ensures forall i :: 0 <= i < LeadingSpaces(s) ==> IsSpace(s[i])
    ensures forall i :: LeadingSpaces(s) + |r| <= i < |s| ==> IsSpace(s[i])
    ensures r == "" || (!IsSpace(r[0]) && !IsSpace(r[|r| - 1]))
  {
    var t := TrimStart(s);
    var r := TrimEnd(t);
    assert r == s[|s| - |t|..|s| - |t| + |r|];
    assert forall i :: |s| - |t| + |r| <= i < |s| ==> s[i] == t[i - (|s| - |t|)];
    r
  }

  /** Trimming a string twice is trimming it once. */
  lemma TrimIdempotent(s: string)
    ensures Trim(Trim(s)) == Trim(s)
  {
    var r := Trim(s);
    if r != "" {
      assert TrimStart(r) == r;
      assert TrimEnd(r) == r;
    }
  }

  /** Number of occurrences of `c` in `s`. */
  function Count(s: string, c: char): nat {
    if |s| == 0 then 0 else (if s[0] == c then 1 else 0) + Count(s[1..], c)
  }

  /** `s.split(sep)` for a one-character separator: the maximal pieces between separators,
      one more piece than there are separators, none containing the separator. */
  function Split(s: string, sep: char): (parts: seq<string>)
    ensures |parts| == Count(s, sep) + 1
    ensures forall i :: 0 <= i < |parts| ==> sep !in parts[i]
  {
    if |s| == 0 then [""]
    else
      var rest := Split(s[1..], sep);
      if s[0] == sep then [""] + rest else [[s[0]] + rest[0]] + rest[1..]
  }

  /** `parts.join(sep)` */
  function Join(parts: seq<string>, sep: char): string
    requires |parts| >= 1
  {
    if |parts| == 1 then parts[0] else parts[0] + [sep] + Join(parts[1..], sep)
  }

  /** Splitting loses nothing: joining the pieces with the separator gives `s` back. */
  lemma {:induction false} JoinSplit(s: string, sep: char)
    ensures Join(Split(s, sep), sep) == s
  {
    if |s| > 0 {
      var rest := Split(s[1..], sep);
      JoinSplit(s[1..], sep);
      if s[0] == sep {
        assert Split(s, sep)[1..] == rest;
      } else {
        var parts := Split(s, sep);
        if |rest| == 1 {
          assert parts == [[s[0]] + rest[0]];
        } else {
          assert parts[1..] == rest[1..];
          assert Join(rest, sep) == rest[0] + [sep] + Join(rest[1..], sep);
        }
      }
    }
  }

  /** The JavaScript test `s.split('.').length === 3`. */
  predicate HasThreeDotParts(s: string) {
    |Split(s, '.')| == 3
  }

  /** Exactly two dots make three pieces. */
  lemma ThreePartsIffTwoDots(s: string)
    ensures HasThreeDotParts(s) <==> Count(s, '.') == 2
  {
  }

  predicate IsDecimalDigit(c: char) {
    '0' <= c <= '9'
  }

  /** A digit of radix 10 or 16, in either case for 16. */
  predicate IsDigit(c: char, hex: bool) {
    IsDecimalDigit(c) || (hex && (('a' <= c <= 'f') || ('A' <= c <= 'F')))
  }

  function DigitValue(c: char): nat {
    if '0' <= c <= '9' then c as int - '0' as int
    else if 'a' <= c <= 'f' then c as int - 'a' as int + 10
    else if 'A' <= c <= 'F' then c as int - 'A' as int + 10
    else 0
  }

  /** The number a string of digits denotes in radix `base`, most significant digit first. */
  function Value(digits: string, base: nat): nat {
    if |digits| == 0 then 0
    else Value(digits[..|digits| - 1], base) * base + DigitValue(digits[|digits| - 1])
  }

  function DigitChar(d: nat): (c: char)
    requires d < 10
    ensures IsDecimalDigit(c) && DigitValue(c) == d
  {
    ('0' as int + d) as char
  }

  /** Decimal notation of a natural number, without leading zeros: a non-empty run of
      digits whose value is `n`. */
  function NatToString(n: nat): (r: string)
    ensures |r| >= 1 && forall i :: 0 <= i < |r| ==> IsDecimalDigit(r[i])
    ensures Value(r, 10) == n
    ensures |r| > 1 ==> r[0] != '0'
  {
    if n < 10 then [DigitChar(n)]
    else
      var r := NatToString(n / 10) + [DigitChar(n % 10)];
      assert r[..|r| - 1] == NatToString(n / 10);
      r
  }

  /** `n.toString()` for an integer `n`. */
  function IntToString(n: int): (r: string)
    ensures |r| >= 1 && (IsDecimalDigit(r[0]) || r[0] == '-')
  {
    if n < 0 then "-" + NatToString(-n) else NatToString(n)
  }

  /** Length of the run of digits that starts `s`. */
  function DigitRun(s: string, hex: bool): (k: nat)
    ensures k <= |s|
    ensures forall i :: 0 <= i < k ==> IsDigit(s[i], hex)
    ensures k < |s| ==> !IsDigit(s[k], hex)
  {
    if |s| > 0 && IsDigit(s[0], hex) then 1 + DigitRun(s[1..], hex) else 0
  }

  /** JavaScript `parseInt(s, 10)` when `autoRadix` is false and `parseInt(s)` when it is
      true: leading spaces are skipped, one sign is read, then (only with `autoRadix`) a `0x`
      or `0X` prefix switches to radix 16, and the longest run of digits that follows is the
      value; no digits at all is `NaN` (None). */
  function ParseInt(s: string, autoRadix: bool): (r: Option<int>)
  {
    var t := TrimStart(s);
    var negative := |t| > 0 && t[0] == '-';
    var u := if |t| > 0 && (t[0] == '-' || t[0] == '+') then t[1..] else t;
    var hex := autoRadix && |u| >= 2 && u[0] == '0' && (u[1] == 'x' || u[1] == 'X');
    var body := if hex then u[2..] else u;
    var k := DigitRun(body, hex);
    if k == 0 then None
    else
      var v: int := Value(body[..k], if hex then 16 else 10);
      Some(if negative then -v else v)
  }

  /** A string that does not start with a space, a sign or a digit is `NaN`. */
  lemma ParseIntNoDigits(s: string, autoRadix: bool)
    requires |s| == 0 || (!IsSpace(s[0]) && s[0] != '-' && s[0] != '+' && !IsDecimalDigit(s[0]))
    ensures ParseInt(s, autoRadix) == None
  {
  }

  /** `parseInt` reads back what `toString` writes, in either radix mode. */
  lemma ParseIntOfDecimal(n: int, autoRadix: bool)
    ensures ParseInt(IntToString(n), autoRadix) == Some(n)
  {
    var s := IntToString(n);
    assert !IsSpace(s[0]);
    assert TrimStart(s) == s;
    var digits := NatToString(if n < 0 then -n else n);
    var u := if s[0] == '-' then s[1..] else s;
    assert u == digits;
    assert |u| >= 2 ==> u[1] != 'x' && u[1] != 'X';
    assert DigitRun(u, false) == |u|;
    assert u[..|u|] == u;
  }
}
