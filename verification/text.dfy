/**
 * The pieces of JavaScript string behaviour that the client's logic relies on:
 * `String.prototype.trim`, `Number.prototype.toString(radix)` on naturals,
 * `String.prototype.padStart` and `Array.prototype.join`.
 */
module Text {

  /** The code points `trim` removes: ECMAScript WhiteSpace and LineTerminator. */
  predicate IsWhitespace(c: char) {
    var k := c as int;
    k == 0x09 || k == 0x0A || k == 0x0B || k == 0x0C || k == 0x0D || k == 0x20 ||
    k == 0xA0 || k == 0x1680 || (0x2000 <= k <= 0x200A) || k == 0x2028 || k == 0x2029 ||
    k == 0x202F || k == 0x205F || k == 0x3000 || k == 0xFEFF
  }

  predicate AllWhitespace(s: string) {
    forall i :: 0 <= i < |s| ==> IsWhitespace(s[i])
  }

  /** Every character of `s` from position `lo` up to (not including) `hi` is whitespace. */
  predicate WhitespaceBetween(s: string, lo: nat, hi: nat)
    requires lo <= hi <= |s|
  {
    forall k :: lo <= k < hi ==> IsWhitespace(s[k])
  }

  /** A string with no whitespace at either end, as `trim` leaves it. */
  predicate IsTrimmed(s: string) {
    s == [] || (!IsWhitespace(s[0]) && !IsWhitespace(s[|s| - 1]))
  }

  /** Skips the whitespace from position `i` on: the position of the first other character, or the end. */
  function SkipStart(s: string, i: nat): (j: nat)
    requires i <= |s|
    ensures i <= j <= |s| && WhitespaceBetween(s, i, j)
    ensures j == |s| || !IsWhitespace(s[j])
    decreases |s| - i
  {
    if i < |s| && IsWhitespace(s[i]) then SkipStart(s, i + 1) else i
  }

  /** Skips the whitespace before position `j`, stopping at `lo`: where the trailing whitespace begins. */
  function SkipEnd(s: string, lo: nat, j: nat): (k: nat)
    requires lo <= j <= |s|
    ensures lo <= k <= j && WhitespaceBetween(s, k, j)
    ensures k == lo || !IsWhitespace(s[k - 1])
  {
    if j > lo && IsWhitespace(s[j - 1]) then SkipEnd(s, lo, j - 1) else j
  }

  /**
   * `s.trim()`: the result is a contiguous piece of `s`, everything cut off on
   * either side is whitespace, and the result itself has no whitespace at its ends.
   */
  function Trim(s: string): (r: string)
    ensures |r| <= |s|
    ensures exists i :: 0 <= i <= |s| - |r| && r == s[i..i + |r|] &&
                        WhitespaceBetween(s, 0, i) && WhitespaceBetween(s, i + |r|, |s|)
    ensures IsTrimmed(r)
  {
    var i := SkipStart(s, 0);
    var j := SkipEnd(s, i, |s|);
    assert WhitespaceBetween(s, j, |s|);
    s[i..j]
  }

  /** JavaScript's `!s.trim()` / `s.trim() === ""`. */
  predicate IsBlank(s: string) {
    Trim(s) == ""
  }

  /** A string is blank exactly when every character in it is whitespace. */
  lemma BlankIffAllWhitespace(s: string)
    ensures IsBlank(s) <==> AllWhitespace(s)
  {
    if IsBlank(s) {
      var i :| 0 <= i <= |s| && WhitespaceBetween(s, 0, i) && WhitespaceBetween(s, i, |s|);
      assert forall k :: 0 <= k < |s| ==> IsWhitespace(s[k]) by {
        forall k | 0 <= k < |s|
          ensures IsWhitespace(s[k])
        {
          if k < i {
            assert WhitespaceBetween(s, 0, i);
          } else {
            assert WhitespaceBetween(s, i, |s|);
          }
        }
      }
    }
  }

  /** Trimming a string that is already trimmed changes nothing, so `trim` is idempotent. */
  lemma TrimOfTrimmed(s: string)
    requires IsTrimmed(s)
    ensures Trim(s) == s
  {
    assert SkipStart(s, 0) == 0;
    assert SkipEnd(s, 0, |s|) == |s|;
    assert s[0..|s|] == s;
  }

  lemma TrimIdempotent(s: string)
    ensures Trim(Trim(s)) == Trim(s)
  {
    TrimOfTrimmed(Trim(s));
  }

  /** The character `toString(radix)` uses for digit `d`: `0`-`9`, then lower-case `a`-`z`. */
  function DigitChar(d: nat): (c: char)
    requires d < 36
    ensures DigitValue(c) == d
  {
    if d < 10 then ('0' as int + d) as char else ('a' as int + d - 10) as char
  }

  /** The value of a digit character, or -1 for a character that is not a digit. */
  function DigitValue(c: char): int {
    if '0' <= c <= '9' then c as int - '0' as int
    else if 'a' <= c <= 'z' then c as int - 'a' as int + 10
    else -1
  }

  /** Every character of `s` is a digit of the given radix. */
  predicate IsNumeral(s: string, radix: nat) {
    forall i :: 0 <= i < |s| ==> 0 <= DigitValue(s[i]) < radix
  }

  /**
   * `n.toString(radix)` for a natural `n`: a non-empty numeral in the radix,
   * without leading zeros (except the numeral "0" itself).
   */
  function NatToString(n: nat, radix: nat): (s: string)
    requires 2 <= radix <= 36
    ensures |s| >= 1 && IsNumeral(s, radix)
    ensures |s| > 1 ==> s[0] != '0'
    decreases n
  {
    if n < radix then [DigitChar(n)]
    else
      DivModFacts(n, radix);
      NatToString(n / radix, radix) + [DigitChar(n % radix)]
  }

  /** Euclidean division by a radix: quotient and remainder rebuild `n`, and the quotient shrinks. */
  lemma DivModFacts(n: nat, b: nat)
    requires 2 <= b
    ensures n == (n / b) * b + n % b && 0 <= n % b < b
    ensures n >= b ==> 1 <= n / b < n
  {
  }

  /** `${n}` for a natural number: its decimal numeral. */
  function Decimal(n: nat): (s: string)
    ensures |s| >= 1 && IsNumeral(s, 10)
  {
    NatToString(n, 10)
  }

  /** Reading `${n}` back as a decimal numeral gives `n`. */
  lemma DecimalRoundTrip(n: nat)
    ensures NumeralValue(Decimal(n), 10) == n
  {
    NatToStringRoundTrip(n, 10);
  }

  /** The value of a numeral, most significant digit first. */
  function NumeralValue(s: string, radix: nat): (v: int)
    ensures IsNumeral(s, radix) ==> v >= 0
  {
    if s == [] then 0 else NumeralValue(s[..|s| - 1], radix) * radix + DigitValue(s[|s| - 1])
  }

  /** Reading back what `toString(radix)` wrote gives the number again. */
  lemma {:induction false} NatToStringRoundTrip(n: nat, radix: nat)
    requires 2 <= radix <= 36
    ensures NumeralValue(NatToString(n, radix), radix) == n
    decreases n
  {
    var s := NatToString(n, radix);
    if n >= radix {
      DivModFacts(n, radix);
      NatToStringRoundTrip(n / radix, radix);
      assert s[..|s| - 1] == NatToString(n / radix, radix);
    }
  }

  function Pow(b: nat, k: nat): nat {
    if k == 0 then 1 else b * Pow(b, k - 1)
  }

  /** A number below `radix^k` takes at most `k` digits. */
  lemma {:induction false} NatToStringLength(n: nat, radix: nat, k: nat)
    requires 2 <= radix <= 36 && 1 <= k && n < Pow(radix, k)
    ensures |NatToString(n, radix)| <= k
    decreases k
  {
    if n >= radix {
      DivModFacts(n, radix);
      assert n / radix < Pow(radix, k - 1) by {
        assert n < radix * Pow(radix, k - 1);
      }
      NatToStringLength(n / radix, radix, k - 1);
    }
  }

  function Repeat(c: char, k: nat): (r: string)
    ensures |r| == k && forall i :: 0 <= i < k ==> r[i] == c
  {
    if k == 0 then [] else Repeat(c, k - 1) + [c]
  }

  /** `s.padStart(width, fill)`: `s` preceded by as many fill characters as bring it to `width`. */
  function PadStart(s: string, width: nat, fill: char): (r: string)
    ensures |r| == if |s| >= width then |s| else width
    ensures r[|r| - |s|..] == s
    ensures forall i :: 0 <= i < |r| - |s| ==> r[i] == fill
  {
    if |s| >= width then s else Repeat(fill, width - |s|) + s
  }

  /** Leading zeros do not change the value of a numeral. */
  lemma {:induction false} LeadingZerosValue(k: nat, s: string, radix: nat)
    ensures NumeralValue(Repeat('0', k) + s, radix) == NumeralValue(s, radix)
    decreases |s|
  {
    if s == [] {
      assert Repeat('0', k) + s == Repeat('0', k);
      ZerosValue(k, radix);
    } else {
      var t := Repeat('0', k) + s;
      assert t[..|t| - 1] == Repeat('0', k) + s[..|s| - 1];
      LeadingZerosValue(k, s[..|s| - 1], radix);
    }
  }

  lemma {:induction false} ZerosValue(k: nat, radix: nat)
    ensures NumeralValue(Repeat('0', k), radix) == 0
  {
    if k > 0 {
      var z := Repeat('0', k);
      assert z[..|z| - 1] == Repeat('0', k - 1);
      assert DigitValue(z[|z| - 1]) == 0;
      ZerosValue(k - 1, radix);
      assert NumeralValue(z, radix) == NumeralValue(z[..|z| - 1], radix) * radix + 0;
    }
  }

  /** `parts.join(sep)`: the parts in order, separated by `sep`; the last part ends the result. */
  function Join(parts: seq<string>, sep: string): (r: string)
    ensures parts == [] ==> r == []
    ensures parts != [] ==> |r| >= |parts[|parts| - 1]| && r[|r| - |parts[|parts| - 1]|..] == parts[|parts| - 1]
  {
    if parts == [] then []
    else if |parts| == 1 then parts[0]
    else Join(parts[..|parts| - 1], sep) + sep + parts[|parts| - 1]
  }

  /** `s.split(sep)` for a one-character separator: the pieces between separators, at least one. */
  function Split(s: string, sep: char): (pieces: seq<string>)
    ensures |pieces| >= 1
  {
    if s == [] then [[]]
    else
      var init := Split(s[..|s| - 1], sep);
      var c := s[|s| - 1];
      if c == sep then init + [[]]
      else init[..|init| - 1] + [init[|init| - 1] + [c]]
  }

  /** Appending text without separators extends the last piece. */
  lemma {:induction false} SplitAppendPlain(x: string, b: string, sep: char)
    requires sep !in b
    ensures var pieces := Split(x, sep);
            Split(x + b, sep) == pieces[..|pieces| - 1] + [pieces[|pieces| - 1] + b]
    decreases |b|
  {
    var pieces := Split(x, sep);
    if b == [] {
      assert x + b == x;
      assert pieces[|pieces| - 1] + b == pieces[|pieces| - 1];
      assert pieces == pieces[..|pieces| - 1] + [pieces[|pieces| - 1]];
    } else {
      var b' := b[..|b| - 1];
      var c := b[|b| - 1];
      SplitAppendPlain(x, b', sep);
      assert x + b == (x + b') + [c];
      SplitSnocPlain(x + b', c, sep);
      var init := Split(x + b', sep);
      assert init == pieces[..|pieces| - 1] + [pieces[|pieces| - 1] + b'];
      assert init[..|init| - 1] == pieces[..|pieces| - 1];
      assert init[|init| - 1] + [c] == pieces[|pieces| - 1] + b;
    }
  }

  /** One more character that is not the separator extends the last piece. */
  lemma SplitSnocPlain(s: string, c: char, sep: char)
    requires c != sep
    ensures var init := Split(s, sep);
            Split(s + [c], sep) == init[..|init| - 1] + [init[|init| - 1] + [c]]
  {
    assert (s + [c])[..|s|] == s;
  }

  /** Splitting what `join` glued back together gives the parts, when no part holds the separator. */
  lemma {:induction false} SplitJoin(parts: seq<string>, sep: char)
    requires |parts| >= 1
    requires forall i :: 0 <= i < |parts| ==> sep !in parts[i]
    ensures Split(Join(parts, [sep]), sep) == parts
  {
    if |parts| == 1 {
      SplitJoinOne(parts, sep);
    } else {
      NoSeparatorInPrefix(parts, sep);
      SplitJoin(parts[..|parts| - 1], sep);
      SplitJoinStep(parts, sep);
    }
  }

  lemma NoSeparatorInPrefix(parts: seq<string>, sep: char)
    requires |parts| >= 1
    requires forall i :: 0 <= i < |parts| ==> sep !in parts[i]
    ensures var init := parts[..|parts| - 1]; forall i :: 0 <= i < |init| ==> sep !in init[i]
  {
  }

  lemma SplitJoinOne(parts: seq<string>, sep: char)
    requires |parts| == 1 && sep !in parts[0]
    ensures Split(Join(parts, [sep]), sep) == parts
  {
    SplitAppendPlain([], parts[0], sep);
    assert [] + parts[0] == parts[0];
    assert parts == [parts[0]];
  }

  lemma SplitJoinStep(parts: seq<string>, sep: char)
    requires |parts| >= 2 && sep !in parts[|parts| - 1]
    requires Split(Join(parts[..|parts| - 1], [sep]), sep) == parts[..|parts| - 1]
    ensures Split(Join(parts, [sep]), sep) == parts
  {
    var init, last := parts[..|parts| - 1], parts[|parts| - 1];
    var j := Join(init, [sep]);
    assert Join(parts, [sep]) == (j + [sep]) + last;
    SplitAppendSeparator(j, sep);
    var pieces := Split(j + [sep], sep);
    assert pieces == init + [[]];
    SplitAppendPlain(j + [sep], last, sep);
    assert pieces[..|pieces| - 1] == init;
    assert pieces[|pieces| - 1] == [];
    LastPieceReplaced(init, last, parts);
  }

  lemma LastPieceReplaced(init: seq<string>, last: string, parts: seq<string>)
    requires |parts| >= 1 && init == parts[..|parts| - 1] && last == parts[|parts| - 1]
    ensures init + [[] + last] == parts
  {
    assert [] + last == last;
  }

  lemma SplitAppendSeparator(x: string, sep: char)
    ensures Split(x + [sep], sep) == Split(x, sep) + [[]]
  {
    assert (x + [sep])[..|x + [sep]| - 1] == x;
  }

  predicate IsDecimalDigit(c: char) {
    '0' <= c <= '9'
  }

  /** The length of the run of decimal digits at the start of `s`. */
  function DigitRun(s: string): (k: nat)
    ensures k <= |s|
    ensures forall i :: 0 <= i < k ==> IsDecimalDigit(s[i])
    ensures k < |s| ==> !IsDecimalDigit(s[k])
  {
    if s == [] || !IsDecimalDigit(s[0]) then 0 else 1 + DigitRun(s[1..])
  }

  /** A decimal numeral followed by a word that starts with a non-digit: the run is the numeral. */
  lemma DigitRunOfNumeral(d: string, w: string)
    requires IsNumeral(d, 10) && w != [] && !IsDecimalDigit(w[0])
    ensures DigitRun(d + w) == |d|
    ensures (d + w)[..|d|] == d && (d + w)[|d|..] == w
  {
    var s := d + w;
    assert forall i :: 0 <= i < |d| ==> s[i] == d[i];
    assert s[|d|] == w[0];
  }
}
