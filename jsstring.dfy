/**
 * The JavaScript string built-ins the front end relies on, written out over `seq<char>`:
 * `trim`, `toLowerCase`, `includes`, `split`, `padStart(2, '0')`, `String(n)`,
 * `parseInt`, `Number`, the `<` order on strings, and the character classes
 * `\d`, `\s` and `\w` of its regular expressions.
 */
module JsString {
  import opened Wrappers

  // ----- character classes -----

  /** `\d` */
  predicate IsDigit(c: char) { '0' <= c <= '9' }

  /** `[A-Z]` */
  predicate IsUpper(c: char) { 'A' <= c <= 'Z' }

  /** `\w`: ASCII letters, digits and the underscore. */
  predicate IsWordChar(c: char) {
    ('a' <= c <= 'z') || IsUpper(c) || IsDigit(c) || c == '_'
  }

  /** `\s`, the characters `trim` removes: ECMAScript WhiteSpace and LineTerminator. */
  predicate IsWhitespace(c: char) {
    c == ' ' || c == '\t' || c == '\n' || c == '\r' || c == '\U{000B}' || c == '\U{000C}'
    || c == '\U{00A0}' || c == '\U{1680}' || ('\U{2000}' <= c <= '\U{200A}')
    || c == '\U{2028}' || c == '\U{2029}' || c == '\U{202F}' || c == '\U{205F}'
    || c == '\U{3000}' || c == '\U{FEFF}'
  }

  predicate AllDigits(s: string) {
    forall k :: 0 <= k < |s| ==> IsDigit(s[k])
  }

  predicate NoWhitespace(s: string) {
    forall k :: 0 <= k < |s| ==> !IsWhitespace(s[k])
  }

  // ----- trim -----

  /** The index of the first character at or after `i` that is not white space. */
  function BlankPrefix(s: string, i: nat): (n: nat)
    requires i <= |s|
    ensures i <= n <= |s|
    decreases |s| - i
  {
    if i < |s| && IsWhitespace(s[i]) then BlankPrefix(s, i + 1) else i
  }

  /** The index just after the last character before `j` that is not white space. */
  function BlankSuffix(s: string, j: nat): (n: nat)
    requires j <= |s|
    ensures n <= j
  {
    if j > 0 && IsWhitespace(s[j - 1]) then BlankSuffix(s, j - 1) else j
  }

  lemma {:induction false} BlankPrefixSpec(s: string, i: nat)
    requires i <= |s|
    ensures forall k :: i <= k < BlankPrefix(s, i) ==> IsWhitespace(s[k])
    ensures BlankPrefix(s, i) < |s| ==> !IsWhitespace(s[BlankPrefix(s, i)])
    decreases |s| - i
  {
    if i < |s| && IsWhitespace(s[i]) {
      BlankPrefixSpec(s, i + 1);
    }
  }

  lemma {:induction false} BlankSuffixSpec(s: string, j: nat)
    requires j <= |s|
    ensures forall k :: BlankSuffix(s, j) <= k < j ==> IsWhitespace(s[k])
    ensures BlankSuffix(s, j) > 0 ==> !IsWhitespace(s[BlankSuffix(s, j) - 1])
  {
    if j > 0 && IsWhitespace(s[j - 1]) {
      BlankSuffixSpec(s, j - 1);
    }
  }

  /** `s.trimStart()` */
  function TrimStart(s: string): (r: string) {
    s[BlankPrefix(s, 0)..]
  }

  /** `s.trimEnd()` */
  function TrimEnd(s: string): (r: string) {
    s[..BlankSuffix(s, |s|)]
  }

  /** `TrimStart` drops exactly the leading white space. */
  lemma TrimStartDropsBlank(s: string)
    ensures |TrimStart(s)| <= |s| && TrimStart(s) == s[|s| - |TrimStart(s)|..]
    ensures forall k :: 0 <= k < |s| - |TrimStart(s)| ==> IsWhitespace(s[k])
    ensures TrimStart(s) != [] ==> !IsWhitespace(TrimStart(s)[0])
  {
    BlankPrefixSpec(s, 0);
  }

  /** `TrimEnd` drops exactly the trailing white space. */
  lemma TrimEndDropsBlank(s: string)
    ensures |TrimEnd(s)| <= |s| && TrimEnd(s) == s[..|TrimEnd(s)|]
    ensures forall k :: |TrimEnd(s)| <= k < |s| ==> IsWhitespace(s[k])
    ensures TrimEnd(s) != [] ==> !IsWhitespace(TrimEnd(s)[|TrimEnd(s)| - 1])
  {
    BlankSuffixSpec(s, |s|);
  }

  /** `s.trim()` */
  function Trim(s: string): string {
    TrimEnd(TrimStart(s))
  }

  /** White space only: what a required text field that `!s.trim()` rejects holds. */
  predicate Blank(s: string) {
    forall k :: 0 <= k < |s| ==> IsWhitespace(s[k])
  }

  /** `!s.trim()` holds exactly when every character of `s` is white space. */
  lemma TrimEmptyIffBlank(s: string)
    ensures Trim(s) == [] <==> Blank(s)
  {
    var t := TrimStart(s);
    TrimStartDropsBlank(s);
    TrimEndDropsBlank(t);
    if Trim(s) == [] {
      forall k | 0 <= k < |s| ensures IsWhitespace(s[k]) {
      }
    } else {
      var r := Trim(s);
      assert r[0] == t[0];
      assert t[0] == s[|s| - |t|];
    }
  }

  /** A string that neither starts nor ends with white space is its own trim. */
  lemma TrimUnpadded(s: string)
    requires s == [] || (!IsWhitespace(s[0]) && !IsWhitespace(s[|s| - 1]))
    ensures Trim(s) == s
  {
  }

  /**
   * A string that starts with a non-blank character, and is blank after a non-blank character
   * at `m - 1`, trims to its first `m` characters.
   */
  lemma TrimTrailingBlank(s: string, m: nat)
    requires 0 < m <= |s| && !IsWhitespace(s[0]) && !IsWhitespace(s[m - 1])
    requires forall k :: m <= k < |s| ==> IsWhitespace(s[k])
    ensures Trim(s) == s[..m]
  {
    TrimStartDropsBlank(s);
    assert IsWhitespace(s[0]) || |s| - |TrimStart(s)| == 0;
    assert TrimStart(s) == s;
    TrimEndDropsBlank(s);
    var n := |TrimEnd(s)|;
    // s[m - 1] is not blank, so it is kept: n >= m
    assert IsWhitespace(s[m - 1]) || m - 1 < n;
    // the last kept character is not blank, so it lies before m: n <= m
    assert TrimEnd(s)[n - 1] == s[n - 1];
    assert IsWhitespace(s[n - 1]) || n - 1 < m;
    assert n == m;
  }

  lemma TrimDigits(s: string)
    requires AllDigits(s)
    ensures Trim(s) == s
  {
    TrimUnpadded(s);
  }

  // ----- toLowerCase -----

  function LowerChar(c: char): char {
    if IsUpper(c) then (c as int + 32) as char else c
  }

  function UpperChar(c: char): char {
    if 'a' <= c <= 'z' then (c as int - 32) as char else c
  }

  /** `s.toUpperCase()` on ASCII letters; every other character is kept. */
  function ToUpper(s: string): (r: string)
    ensures |r| == |s|
    ensures forall k :: 0 <= k < |s| ==> r[k] == UpperChar(s[k])
  {
    seq(|s|, k requires 0 <= k < |s| => UpperChar(s[k]))
  }

  /** `s.toLowerCase()` on ASCII letters. */
  function ToLower(s: string): (r: string)
    ensures |r| == |s|
    ensures forall k :: 0 <= k < |s| ==> r[k] == LowerChar(s[k])
  {
    seq(|s|, k requires 0 <= k < |s| => LowerChar(s[k]))
  }

  // ----- includes -----

  ghost predicate OccursAt(s: string, q: string, i: int) {
    0 <= i && i + |q| <= |s| && s[i..i + |q|] == q
  }

  /** `s.includes(q)` */
  function Includes(s: string, q: string): (b: bool)
    ensures b <==> exists i :: OccursAt(s, q, i)
    decreases |s|
  {
    if |q| <= |s| && s[..|q|] == q then
      assert OccursAt(s, q, 0);
      true
    else if s == [] then
      assert forall i :: !OccursAt(s, q, i);
      false
    else
      var b := Includes(s[1..], q);
      if b then
        assert exists i :: OccursAt(s, q, i) by {
          var i :| OccursAt(s[1..], q, i);
          assert s[1..][i..i + |q|] == s[i + 1..i + 1 + |q|];
          assert OccursAt(s, q, i + 1);
        }
        b
      else
        assert forall i :: OccursAt(s, q, i) ==> i > 0 && OccursAt(s[1..], q, i - 1) by {
          forall i | OccursAt(s, q, i) ensures i > 0 && OccursAt(s[1..], q, i - 1) {
            if i > 0 {
              assert s[1..][i - 1..i - 1 + |q|] == s[i..i + |q|];
            }
          }
        }
        b
  }

  // ----- split and join -----

  /** `parts.join(sep)` */
  function Join(parts: seq<string>, sep: char): string
    requires |parts| >= 1
  {
    if |parts| == 1 then parts[0] else parts[0] + [sep] + Join(parts[1..], sep)
  }

  /** `s.split(sep)` for a one-character separator. */
  function Split(s: string, sep: char): (parts: seq<string>)
    ensures |parts| >= 1
    decreases |s|
  {
    if s == [] then [[]]
    else if s[0] == sep then [[]] + Split(s[1..], sep)
    else
      var rest := Split(s[1..], sep);
      [[s[0]] + rest[0]] + rest[1..]
  }

  /** The pieces of a split hold no separator, and joining them gives `s` back. */
  lemma {:induction false} SplitPieces(s: string, sep: char)
    ensures forall i :: 0 <= i < |Split(s, sep)| ==> sep !in Split(s, sep)[i]
    ensures Join(Split(s, sep), sep) == s
    decreases |s|
  {
    if s != [] {
      var rest := Split(s[1..], sep);
      SplitPieces(s[1..], sep);
      var parts := Split(s, sep);
      if s[0] == sep {
        assert parts == [[]] + rest;
        assert parts[1..] == rest;
        forall i | 0 <= i < |parts| ensures sep !in parts[i] {
          if i > 0 { assert parts[i] == rest[i - 1]; }
        }
        assert Join(parts, sep) == [] + [sep] + Join(rest, sep);
        assert [sep] + s[1..] == s;
      } else {
        assert parts == [[s[0]] + rest[0]] + rest[1..];
        assert parts[1..] == rest[1..];
        forall i | 0 <= i < |parts| ensures sep !in parts[i] {
          if i > 0 {
            assert parts[i] == rest[i];
          } else {
            assert forall c :: c in parts[0] ==> c == s[0] || c in rest[0];
          }
        }
        assert Join(parts, sep) == [s[0]] + Join(rest, sep) by {
          if |rest| > 1 {
            assert Join(rest, sep) == rest[0] + [sep] + Join(rest[1..], sep);
          }
        }
        assert [s[0]] + s[1..] == s;
      }
    }
  }

  /** The other half of the round trip: splitting a join of separator-free pieces gives the pieces. */
  lemma {:induction false} SplitJoin(parts: seq<string>, sep: char)
    requires |parts| >= 1
    requires forall i :: 0 <= i < |parts| ==> sep !in parts[i]
    ensures Split(Join(parts, sep), sep) == parts
    decreases |parts|, |parts[0]|
  {
    var p := parts[0];
    if |parts| == 1 {
      SplitNoSep(p, sep);
    } else if p == [] {
      SplitJoin(parts[1..], sep);
      assert Join(parts, sep) == [sep] + Join(parts[1..], sep);
      assert ([sep] + Join(parts[1..], sep))[1..] == Join(parts[1..], sep);
      assert [[]] + parts[1..] == parts;
    } else {
      var shorter := [p[1..]] + parts[1..];
      assert shorter[1..] == parts[1..];
      assert forall i :: 0 <= i < |shorter| ==> sep !in shorter[i] by {
        forall i | 0 <= i < |shorter| ensures sep !in shorter[i] {
          if i == 0 {
            assert forall c :: c in p[1..] ==> c in p;
          } else {
            assert shorter[i] == parts[i];
          }
        }
      }
      SplitJoin(shorter, sep);
      var s := Join(parts, sep);
      assert s == [p[0]] + Join(shorter, sep) by {
        if |parts| > 1 {
          assert Join(shorter, sep) == p[1..] + [sep] + Join(parts[1..], sep);
        }
        assert [p[0]] + p[1..] == p;
      }
      assert s[1..] == Join(shorter, sep);
      assert s[0] == p[0] && s[0] != sep;
      var rest := Split(s[1..], sep);
      assert rest == shorter;
      assert [[p[0]] + rest[0]] + rest[1..] == parts by {
        assert [p[0]] + p[1..] == p;
      }
    }
  }

  lemma {:induction false} SplitNoSep(s: string, sep: char)
    requires sep !in s
    ensures Split(s, sep) == [s]
    decreases |s|
  {
    if s != [] {
      assert sep !in s[1..] by { assert forall c :: c in s[1..] ==> c in s; }
      SplitNoSep(s[1..], sep);
      assert [s[0]] + s[1..] == s;
    }
  }

  /** `a + sep + b` splits into exactly `a` and `b` when neither holds the separator. */
  lemma SplitPair(a: string, b: string, sep: char)
    requires sep !in a && sep !in b
    ensures Split(a + [sep] + b, sep) == [a, b]
  {
    assert Join([a, b], sep) == a + [sep] + b by {
      assert [a, b][1..] == [b];
    }
    SplitJoin([a, b], sep);
  }

  /** The i-th piece of a split, or `undefined`. */
  function Part(parts: seq<string>, i: nat): Option<string> {
    if i < |parts| then Some(parts[i]) else None
  }

  // ----- padStart -----

  /** `s.padStart(2, '0')` */
  function PadStart2(s: string): (r: string)
    ensures |r| == if |s| >= 2 then |s| else 2
    ensures r[|r| - |s|..] == s
    ensures forall k :: 0 <= k < |r| - |s| ==> r[k] == '0'
  {
    if |s| >= 2 then s else if |s| == 1 then "0" + s else "00"
  }

  // ----- numbers rendered and parsed in base ten -----

  function DigitChar(d: nat): (c: char)
    requires d < 10
    ensures IsDigit(c)
  {
    ('0' as int + d) as char
  }

  function DigitValue(c: char): (d: nat)
    requires IsDigit(c)
    ensures d < 10 && DigitChar(d) == c
  {
    c as int - '0' as int
  }

  /** The number a string of decimal digits denotes. */
  function DigitsValue(s: string): nat
    requires AllDigits(s)
  {
    if s == [] then 0 else DigitsValue(s[..|s| - 1]) * 10 + DigitValue(s[|s| - 1])
  }

  /** `String(n)` for a natural number: decimal, no leading zero, and it denotes `n`. */
  function NatToString(n: nat): (r: string)
    ensures |r| >= 1 && AllDigits(r)
    ensures |r| > 1 ==> r[0] != '0'
    ensures DigitsValue(r) == n
  {
    if n < 10 then [DigitChar(n)]
    else
      var r := NatToString(n / 10) + [DigitChar(n % 10)];
      assert r[..|r| - 1] == NatToString(n / 10);
      r
  }

  /** `String(i)` for an integer. */
  function IntToString(i: int): string {
    if i < 0 then "-" + NatToString(-i) else NatToString(i)
  }

  /** `String(x)` for a number that may be `NaN`. */
  function NumberToString(x: Option<int>): string {
    match x
    case None => "NaN"
    case Some(i) => IntToString(i)
  }

  /** JavaScript's `a % b` for `b > 0`: the remainder takes the sign of `a`. */
  function JsRemainder(a: int, b: int): (r: int)
    requires b > 0
    ensures a >= 0 ==> r == a % b
    ensures a < 0 ==> -b < r <= 0 && r == -((-a) % b)
  {
    if a >= 0 then a % b else -((-a) % b)
  }

  lemma {:induction false} DigitsValuePositive(s: string)
    requires AllDigits(s) && |s| >= 1 && s[0] != '0'
    ensures DigitsValue(s) >= 1
    ensures |s| > 1 ==> DigitsValue(s) >= 10
    decreases |s|
  {
    if |s| > 1 {
      DigitsValuePositive(s[..|s| - 1]);
    }
  }

  /** `String` inverts the digit reading on canonical digit strings. */
  lemma {:induction false} NatToStringOfDigits(s: string)
    requires AllDigits(s) && |s| >= 1 && (|s| == 1 || s[0] != '0')
    ensures NatToString(DigitsValue(s)) == s
    decreases |s|
  {
    var n := DigitsValue(s);
    if |s| == 1 {
      assert s[..|s| - 1] == [];
      assert DigitsValue(s[..|s| - 1]) == 0;
      assert n == DigitValue(s[0]);
    } else {
      var p := s[..|s| - 1];
      DigitsValuePositive(s);
      var d := DigitValue(s[|s| - 1]);
      assert n == DigitsValue(p) * 10 + d;
      assert n / 10 == DigitsValue(p) && n % 10 == d;
      NatToStringOfDigits(p);
      assert p + [s[|s| - 1]] == s;
    }
  }

  /** The number two decimal digits denote. */
  function TwoDigits(a: char, b: char): (n: nat)
    requires IsDigit(a) && IsDigit(b)
    ensures n < 100
  {
    10 * DigitValue(a) + DigitValue(b)
  }

  /** The reading of a two-digit string. */
  lemma TwoDigitsValue(s: string)
    requires |s| == 2 && AllDigits(s)
    ensures DigitsValue(s) == 10 * DigitValue(s[0]) + DigitValue(s[1])
  {
    var p := s[..1];
    assert p[..0] == [] && p[0] == s[0];
    assert DigitsValue(p) == DigitsValue(p[..0]) * 10 + DigitValue(p[0]);
    assert DigitsValue(s) == DigitsValue(p) * 10 + DigitValue(s[1]);
  }

  /** A number below 100, rendered and padded to two characters, reads back as itself. */
  lemma PadStart2OfSmall(n: nat)
    requires n < 100
    ensures var r := PadStart2(NatToString(n));
      |r| == 2 && AllDigits(r) && DigitsValue(r) == n
  {
    var r := PadStart2(NatToString(n));
    if n < 10 {
      OneDigitString(n);
      assert r == ['0', DigitChar(n)];
    } else {
      TwoDigitString(n);
      assert r == [DigitChar(n / 10), DigitChar(n % 10)];
    }
    TwoDigitsValue(r);
  }

  lemma OneDigitString(n: nat)
    requires n < 10
    ensures NatToString(n) == [DigitChar(n)]
  {
  }

  lemma TwoDigitString(n: nat)
    requires 10 <= n < 100
    ensures NatToString(n) == [DigitChar(n / 10), DigitChar(n % 10)]
  {
    OneDigitString(n / 10);
  }

  /** The index of the first character at or after `i` that is not a decimal digit. */
  function DigitRun(s: string, i: nat): (n: nat)
    requires i <= |s|
    ensures i <= n <= |s|
    decreases |s| - i
  {
    if i < |s| && IsDigit(s[i]) then DigitRun(s, i + 1) else i
  }

  lemma {:induction false} DigitRunSpec(s: string, i: nat)
    requires i <= |s|
    ensures forall k :: i <= k < DigitRun(s, i) ==> IsDigit(s[k])
    ensures DigitRun(s, i) < |s| ==> !IsDigit(s[DigitRun(s, i)])
    ensures (forall k :: i <= k < |s| ==> IsDigit(s[k])) ==> DigitRun(s, i) == |s|
    decreases |s| - i
  {
    if i < |s| && IsDigit(s[i]) {
      DigitRunSpec(s, i + 1);
    }
  }

  /** The longest prefix of decimal digits. */
  function LeadingDigits(s: string): (r: string)
    ensures |r| <= |s| && AllDigits(r)
  {
    DigitRunSpec(s, 0);
    s[..DigitRun(s, 0)]
  }

  /** The prefix stops at the first character that is not a digit. */
  lemma LeadingDigitsStop(s: string)
    ensures LeadingDigits(s) == s[..|LeadingDigits(s)|]
    ensures |LeadingDigits(s)| < |s| ==> !IsDigit(s[|LeadingDigits(s)|])
  {
    DigitRunSpec(s, 0);
  }

  lemma LeadingDigitsAll(s: string)
    requires AllDigits(s)
    ensures LeadingDigits(s) == s
  {
    DigitRunSpec(s, 0);
  }

  /**
   * `parseInt(s, 10)`: skip leading white space, read an optional sign and the longest run of
   * decimal digits that follows; `NaN` (None) when there is no digit.
   */
  function ParseInt(s: string): (r: Option<int>)
  {
    var t := TrimStart(s);
    var ds := LeadingDigits(SignStripped(t));
    var v: int := if ds == [] then 0 else DigitsValue(ds);
    if ds == [] then None
    else if t[0] == '-' then Some(-v)
    else Some(v)
  }

  function SignStripped(t: string): string {
    if t != [] && (t[0] == '-' || t[0] == '+') then t[1..] else t
  }

  /** On a non-empty digit string `parseInt` is plain decimal reading. */
  lemma ParseIntOfDigits(s: string)
    requires AllDigits(s) && s != []
    ensures ParseInt(s) == Some(DigitsValue(s))
  {
    TrimStartOfDigit(s);
    SignStrippedOfDigit(s);
    LeadingDigitsAll(s);
  }

  lemma TrimStartOfDigit(s: string)
    requires s != [] && IsDigit(s[0])
    ensures TrimStart(s) == s
  {
    assert BlankPrefix(s, 0) == 0;
  }

  lemma SignStrippedOfDigit(s: string)
    requires s != [] && IsDigit(s[0])
    ensures SignStripped(s) == s
  {
  }

  /**
   * `Number(s)` restricted to what the forms produce: blank is 0, a digit string is its value,
   * anything else is `NaN` (None).
   */
  function ToNumber(s: string): (r: Option<int>)
  {
    var t := Trim(s);
    if AllDigits(t) then Some(DigitsValue(t)) else None
  }

  /** `parseInt(String(n))` is `n`. */
  lemma ParseIntOfNat(n: nat)
    ensures ParseInt(NatToString(n)) == Some(n)
  {
    ParseIntOfDigits(NatToString(n));
  }

  /** `Number` of two decimal digits. */
  lemma ToNumberOfTwoDigits(s: string)
    requires |s| == 2 && AllDigits(s)
    ensures ToNumber(s) == Some(TwoDigits(s[0], s[1]))
  {
    TwoDigitsValue(s);
    assert DigitsValue(s) == TwoDigits(s[0], s[1]);
    TrimDigits(s);
  }

  /** `parseInt` of two decimal digits. */
  lemma ParseIntOfTwoDigits(s: string)
    requires |s| == 2 && AllDigits(s)
    ensures ParseInt(s) == Some(TwoDigits(s[0], s[1]))
  {
    TwoDigitsValue(s);
    assert DigitsValue(s) == TwoDigits(s[0], s[1]);
    ParseIntOfDigits(s);
  }

  /** Two two-digit strings that read as the same number are the same string. */
  lemma TwoDigitStringsEqual(a: string, b: string)
    requires |a| == 2 && AllDigits(a) && |b| == 2 && AllDigits(b)
    requires DigitsValue(a) == DigitsValue(b)
    ensures a == b
  {
    TwoDigitsValue(a);
    TwoDigitsValue(b);
    assert DigitValue(a[0]) == DigitValue(b[0]);
    assert DigitValue(a[1]) == DigitValue(b[1]);
    assert DigitChar(DigitValue(a[0])) == a[0] && DigitChar(DigitValue(b[0])) == b[0];
    assert DigitChar(DigitValue(a[1])) == a[1] && DigitChar(DigitValue(b[1])) == b[1];
  }

  // ----- filters used by the input formatters -----

  /** `s.replace(/\D/g, '')` */
  function KeepDigits(s: string): (r: string)
    ensures AllDigits(r) && |r| <= |s|
    ensures AllDigits(s) ==> r == s
  {
    if s == [] then []
    else if IsDigit(s[0]) then [s[0]] + KeepDigits(s[1..])
    else KeepDigits(s[1..])
  }

  /** `s.replace(/\s/g, '')` */
  function RemoveWhitespace(s: string): (r: string)
    ensures NoWhitespace(r) && |r| <= |s|
    ensures NoWhitespace(s) ==> r == s
  {
    if s == [] then []
    else if IsWhitespace(s[0]) then RemoveWhitespace(s[1..])
    else [s[0]] + RemoveWhitespace(s[1..])
  }

  lemma RemoveWhitespaceAppend(a: string, b: string)
    ensures RemoveWhitespace(a + b) == RemoveWhitespace(a) + RemoveWhitespace(b)
  {
    if a != [] {
      assert (a + b)[0] == a[0];
      assert (a + b)[1..] == a[1..] + b;
      RemoveWhitespaceAppend(a[1..], b);
    } else {
      assert a + b == b;
    }
  }

  // ----- string order -----

  /** `a < b` on strings: lexicographic order on characters. */
  predicate LexLess(a: string, b: string) {
    if a == [] then b != []
    else if b == [] then false
    else if a[0] != b[0] then a[0] < b[0]
    else LexLess(a[1..], b[1..])
  }
}
