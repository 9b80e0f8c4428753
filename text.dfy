/** Character and string helpers the backend relies on through JavaScript's
    built-ins: `String(n)` for a natural number, `padStart`, `slice(-n)`,
    the whitespace that `String.prototype.trim` removes, and the binary
    (code point) order in which MongoDB sorts strings. */
module Text {

  predicate IsDigit(c: char) {
    '0' <= c <= '9'
  }

  predicate IsDigits(s: string) {
    forall i :: 0 <= i < |s| ==> IsDigit(s[i])
  }

  function DigitChar(d: nat): (c: char)
    requires d < 10
    ensures IsDigit(c) && c as int - '0' as int == d
  {
    ('0' as int + d) as char
  }

  lemma DigitsConcat(a: string, b: string)
    requires IsDigits(a) && IsDigits(b)
    ensures IsDigits(a + b)
  {
    assert forall i :: 0 <= i < |a + b| ==> (a + b)[i] == if i < |a| then a[i] else b[i - |a|];
  }

  /** `String(n)`: the decimal digits of `n`, without leading zeros. */
  function NatToDecimal(n: nat): (s: string)
    ensures |s| >= 1 && IsDigits(s)
    ensures s[|s| - 1] == DigitChar(n % 10)
    ensures (s[0] == '0') <==> n == 0
    decreases n
  {
    if n < 10 then [DigitChar(n)] else NatToDecimal(n / 10) + [DigitChar(n % 10)]
  }

  /** The number a string of decimal digits denotes; leading zeros are allowed. */
  function DecimalValue(s: string): nat
    requires IsDigits(s)
  {
    if s == [] then 0 else DecimalValue(s[..|s| - 1]) * 10 + (s[|s| - 1] as int - '0' as int)
  }

  /** Reading back what `NatToDecimal` wrote gives the number again, so two
      different numbers never render the same. */
  lemma {:induction false} DecimalRoundTrip(n: nat)
    ensures DecimalValue(NatToDecimal(n)) == n
    decreases n
  {
    if n >= 10 {
      var s := NatToDecimal(n);
      assert s[..|s| - 1] == NatToDecimal(n / 10);
      DecimalRoundTrip(n / 10);
    }
  }

  /** `s.padStart(width, pad)`: pads on the left up to `width` characters and
      never truncates a longer string. */
  function PadStart(s: string, width: nat, pad: char): (r: string)
    ensures |r| == if |s| >= width then |s| else width
    ensures r[|r| - |s|..] == s
    ensures forall i :: 0 <= i < |r| - |s| ==> r[i] == pad
  {
    if |s| >= width then s else seq(width - |s|, _ => pad) + s
  }

  lemma {:induction false} ZerosValue(z: string)
    requires forall i :: 0 <= i < |z| ==> z[i] == '0'
    ensures IsDigits(z) && DecimalValue(z) == 0
  {
    if z != [] {
      ZerosValue(z[..|z| - 1]);
    }
  }

  /** Zeros in front of a digit string do not change the number it denotes. */
  lemma {:induction false} LeadingZerosValue(z: string, s: string)
    requires forall i :: 0 <= i < |z| ==> z[i] == '0'
    requires IsDigits(s)
    ensures IsDigits(z + s) && DecimalValue(z + s) == DecimalValue(s)
    decreases |s|
  {
    ZerosValue(z);
    if s == [] {
      assert z + s == z;
    } else {
      var t := z + s;
      assert t[..|t| - 1] == z + s[..|s| - 1];
      LeadingZerosValue(z, s[..|s| - 1]);
    }
  }

  /** A zero-padded rendering of `n` still denotes `n`. */
  lemma PaddedDecimalValue(n: nat, width: nat)
    ensures IsDigits(PadStart(NatToDecimal(n), width, '0'))
    ensures DecimalValue(PadStart(NatToDecimal(n), width, '0')) == n
  {
    var s := NatToDecimal(n);
    var r := PadStart(s, width, '0');
    DecimalRoundTrip(n);
    if |s| < width {
      assert r == r[..|r| - |s|] + s;
      LeadingZerosValue(r[..|r| - |s|], s);
    }
  }

  function Pow10(n: nat): (r: nat)
    ensures r >= 1
  {
    if n == 0 then 1 else 10 * Pow10(n - 1)
  }

  /** A string of k digits denotes a number below 10^k. */
  lemma {:induction false} DecimalBelow(s: string)
    requires IsDigits(s)
    ensures DecimalValue(s) < Pow10(|s|)
    decreases |s|
  {
    if s != [] {
      DecimalBelow(s[..|s| - 1]);
    }
  }

  /** The first of k digits weighs 10^(k-1). */
  lemma {:induction false} DecimalLeading(s: string)
    requires IsDigits(s) && s != []
    ensures DecimalValue(s) == (s[0] as int - '0' as int) * Pow10(|s| - 1) + DecimalValue(s[1..])
    decreases |s|
  {
    var d0 := s[0] as int - '0' as int;
    if |s| == 1 {
      assert s[..0] == [] && s[1..] == [];
    } else {
      var p, t := s[..|s| - 1], s[1..];
      var last := s[|s| - 1] as int - '0' as int;
      DecimalLeading(p);
      assert p[0] == s[0];
      assert t[..|t| - 1] == p[1..] && t[|t| - 1] == s[|s| - 1];
      var w := Pow10(|s| - 2);
      calc {
        DecimalValue(s);
        DecimalValue(p) * 10 + last;
        (d0 * w + DecimalValue(p[1..])) * 10 + last;
        (d0 * w) * 10 + (DecimalValue(p[1..]) * 10 + last);
        { ScaleByTen(d0, w); }
        d0 * (10 * w) + DecimalValue(t);
      }
    }
  }

  lemma ScaleByTen(a: int, b: int)
    ensures (a * b) * 10 == a * (10 * b)
  {
  }

  /** A number below 10^k is written with at most k digits. */
  lemma {:induction false} DecimalLength(n: nat, k: nat)
    requires 1 <= k && n < Pow10(k)
    ensures |NatToDecimal(n)| <= k
    decreases k
  {
    if n >= 10 {
      assert Pow10(1) == 10;
      DecimalLength(n / 10, k - 1);
    }
  }

  /** `s.slice(-n)`: the last `n` characters, or all of `s` when it is shorter. */
  function TakeLast(s: string, n: nat): (r: string)
    ensures |r| == if |s| >= n then n else |s|
    ensures r == s[|s| - |r|..]
  {
    if |s| >= n then s[|s| - n..] else s
  }

  /** The characters `String.prototype.trim` removes: the ECMAScript
      WhiteSpace and LineTerminator code points. */
  predicate IsJsSpace(c: char) {
    c == ' ' || c == '\t' || c == '\n' || c == '\r' || c == '\U{000B}' || c == '\U{000C}'
    || c == '\U{00A0}' || c == '\U{FEFF}' || c == '\U{1680}' || ('\U{2000}' <= c <= '\U{200A}')
    || c == '\U{2028}' || c == '\U{2029}' || c == '\U{202F}' || c == '\U{205F}' || c == '\U{3000}'
  }

  predicate IsBlank(s: string) {
    forall i :: 0 <= i < |s| ==> IsJsSpace(s[i])
  }

  function TrimStart(s: string): (r: string)
    ensures |r| <= |s| && r == s[|s| - |r|..]
    ensures IsBlank(s[..|s| - |r|])
    ensures r != [] ==> !IsJsSpace(r[0])
  {
    if s != [] && IsJsSpace(s[0]) then
      var r := TrimStart(s[1..]);
      assert s[..|s| - |r|] == [s[0]] + s[1..][..|s[1..]| - |r|];
      r
    else s
  }

  function TrimEnd(s: string): (r: string)
    ensures |r| <= |s| && r == s[..|r|]
    ensures IsBlank(s[|r|..])
    ensures r != [] ==> !IsJsSpace(r[|r| - 1])
  {
    if s != [] && IsJsSpace(s[|s| - 1]) then
      var r := TrimEnd(s[..|s| - 1]);
      assert s[|r|..] == s[..|s| - 1][|r|..] + [s[|s| - 1]];
      r
    else s
  }

  lemma BlankConcat(a: string, b: string)
    requires IsBlank(a) && IsBlank(b)
    ensures IsBlank(a + b)
  {
    assert forall i :: 0 <= i < |a + b| ==> (a + b)[i] == if i < |a| then a[i] else b[i - |a|];
  }

  /** `r` is `s` with its leading and trailing whitespace cut off: a slice of
      `s` with only whitespace before and after it, and no whitespace at
      either of its own ends. */
  predicate TrimmedFrom(s: string, r: string) {
    exists i :: 0 <= i <= |s| && TrimmedAt(s, r, i)
  }

  /** The same, with the slice starting at offset `i`. */
  predicate TrimmedAt(s: string, r: string, i: int) {
    && 0 <= i <= |s| - |r|
    && s[i..i + |r|] == r && IsBlank(s[..i]) && IsBlank(s[i + |r|..])
    && (r != [] ==> !IsJsSpace(r[0]) && !IsJsSpace(r[|r| - 1]))
  }

  /** Where `trim()` cuts: after the leading whitespace. */
  function TrimOffset(s: string): nat {
    |s| - |TrimStart(s)|
  }

  /** `s.trim()`: `s` without its surrounding whitespace; it is empty
      exactly when `s` is all whitespace. */
  function Trim(s: string): (r: string)
    ensures TrimmedAt(s, r, TrimOffset(s))
    ensures r == [] <==> IsBlank(s)
  {
    TrimFacts(s, TrimStart(s), TrimEnd(TrimStart(s)));
    TrimEnd(TrimStart(s))
  }

  /** The facts about `TrimStart` and `TrimEnd` that make their composition
      a trim, taken from their postconditions. */
  lemma TrimFacts(s: string, front: string, r: string)
    requires |front| <= |s| && front == s[|s| - |front|..] && IsBlank(s[..|s| - |front|])
    requires front != [] ==> !IsJsSpace(front[0])
    requires |r| <= |front| && r == front[..|r|] && IsBlank(front[|r|..])
    requires r != [] ==> !IsJsSpace(r[|r| - 1])
    ensures TrimmedAt(s, r, |s| - |front|)
    ensures r == [] <==> IsBlank(s)
  {
    var i := |s| - |front|;
    assert s[i..i + |r|] == r;
    assert s[i + |r|..] == front[|r|..];
    if r == [] {
      assert s == s[..i] + front[|r|..];
      BlankConcat(s[..i], front[|r|..]);
    } else {
      assert r[0] == front[0] == s[i];
    }
  }

  /** Only one string is cut from `s` that way, so `TrimmedFrom` pins down
      what `trim()` returns. */
  lemma TrimmedFromUnique(s: string, r1: string, r2: string)
    requires TrimmedFrom(s, r1) && TrimmedFrom(s, r2)
    ensures r1 == r2
  {
    var i1 :| 0 <= i1 <= |s| && TrimmedAt(s, r1, i1);
    var i2 :| 0 <= i2 <= |s| && TrimmedAt(s, r2, i2);
    if r1 == [] && r2 != [] {
      BlankSplit(s, i1, i2);
    } else if r2 == [] && r1 != [] {
      BlankSplit(s, i2, i1);
    } else if r1 != [] && r2 != [] {
      SameStart(s, i1, i2, r1, r2);
      SameStart(s, i2, i1, r2, r1);
      SameEnd(s, i1, i2, r1, r2);
      SameEnd(s, i2, i1, r2, r1);
    }
  }

  /** A string blank on both sides of one cut has no non-blank character. */
  lemma BlankSplit(s: string, i: int, k: int)
    requires 0 <= i <= |s| && IsBlank(s[..i]) && IsBlank(s[i..]) && 0 <= k < |s|
    ensures IsJsSpace(s[k])
  {
    if k < i {
      assert s[..i][k] == s[k];
    } else {
      assert s[i..][k - i] == s[k];
    }
  }

  lemma SameStart(s: string, i1: int, i2: int, r1: string, r2: string)
    requires 0 <= i1 <= |s| - |r1| && s[i1..i1 + |r1|] == r1 && r1 != [] && !IsJsSpace(r1[0])
    requires 0 <= i2 <= |s| && IsBlank(s[..i2])
    ensures i2 <= i1
  {
  }

  lemma SameEnd(s: string, i1: int, i2: int, r1: string, r2: string)
    requires 0 <= i1 <= |s| - |r1| && s[i1..i1 + |r1|] == r1 && r1 != [] && !IsJsSpace(r1[|r1| - 1])
    requires 0 <= i2 <= |s| - |r2| && IsBlank(s[i2 + |r2|..])
    ensures i1 + |r1| <= i2 + |r2|
  {
  }

  /** `s.length`: the number of UTF-16 code units, two for every character
      above U+FFFF and one for the others. */
  function Utf16Length(s: string): (n: nat)
    ensures |s| <= n <= 2 * |s|
  {
    if s == [] then 0
    else (if s[0] > '\U{FFFF}' then 2 else 1) + Utf16Length(s[1..])
  }

  /** `length` counts characters exactly when none lies above U+FFFF. */
  lemma {:induction false} Utf16LengthIsLength(s: string)
    ensures Utf16Length(s) == |s| <==> forall i :: 0 <= i < |s| ==> s[i] <= '\U{FFFF}'
  {
    if s != [] {
      Utf16LengthIsLength(s[1..]);
      assert forall i :: 1 <= i < |s| ==> s[i] == s[1..][i - 1];
    }
  }

  /** Trimming twice is trimming once. */
  lemma TrimIdempotent(s: string)
    ensures Trim(Trim(s)) == Trim(s)
  {
    var r := Trim(s);
    if r != [] {
      assert TrimStart(r) == r;
      assert TrimEnd(r) == r;
    }
  }

  /** `a` sorts no later than `b` in the binary order MongoDB uses for
      strings: code point by code point, a proper prefix first. */
  predicate NameLe(a: string, b: string) {
    a == [] || (b != [] && (a[0] < b[0] || (a[0] == b[0] && NameLe(a[1..], b[1..]))))
  }

  /** Any two names are comparable. */
  lemma {:induction false} NameLeTotal(a: string, b: string)
    ensures NameLe(a, b) || NameLe(b, a)
  {
    if a != [] && b != [] && a[0] == b[0] {
      NameLeTotal(a[1..], b[1..]);
    }
  }
}
