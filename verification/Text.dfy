/**
 The part of Go's `strings` and `strconv` packages that the identifier codecs, the scope comparison
 and the version comparison rely on, together with the laws that make those codecs invertible.
 */
module Text {
  import opened Wrappers

  /** `strings.Split` for a one-character separator. */
  function Split(s: string, sep: char): (parts: seq<string>)
    ensures |parts| >= 1
  {
    if s == [] then [[]]
    else
      var rest := Split(s[1..], sep);
      if s[0] == sep then [[]] + rest
      else [[s[0]] + rest[0]] + rest[1..]
  }

  /** `strings.Join`. */
  function Join(parts: seq<string>, sep: string): string {
    if |parts| == 0 then []
    else if |parts| == 1 then parts[0]
    else parts[0] + sep + Join(parts[1..], sep)
  }

  /** `strings.ReplaceAll(s, c, "")`. */
  function RemoveAll(s: string, c: char): string {
    if s == [] then []
    else (if s[0] == c then [] else [s[0]]) + RemoveAll(s[1..], c)
  }

  /** No part contains the character c. */
  predicate FreeOf(parts: seq<string>, c: char) {
    forall i :: 0 <= i < |parts| ==> c !in parts[i]
  }

  /** Text before the first separator becomes the first part. */
  lemma {:induction false} SplitAtSeparator(x: string, y: string, sep: char)
    requires sep !in x
    ensures Split(x + [sep] + y, sep) == [x] + Split(y, sep)
  {
    if x == [] {
      assert x + [sep] + y == [sep] + y;
    } else {
      SplitAtSeparator(x[1..], y, sep);
      assert (x + [sep] + y)[1..] == x[1..] + [sep] + y;
      assert [x[0]] + x[1..] == x;
    }
  }

  /** Text without a separator is its own only part. */
  lemma {:induction false} SplitWhole(x: string, sep: char)
    requires sep !in x
    ensures Split(x, sep) == [x]
  {
    if x != [] {
      SplitWhole(x[1..], sep);
      assert [x[0]] + x[1..] == x;
    }
  }

  /** Splitting undoes joining, for any non-empty list of separator-free parts. */
  lemma {:induction false} SplitJoin(parts: seq<string>, sep: char)
    requires |parts| >= 1 && FreeOf(parts, sep)
    ensures Split(Join(parts, [sep]), sep) == parts
  {
    if |parts| == 1 {
      SplitWhole(parts[0], sep);
    } else {
      SplitJoin(parts[1..], sep);
      SplitAtSeparator(parts[0], Join(parts[1..], [sep]), sep);
    }
  }

  /** Joining undoes splitting, and the parts never contain the separator. */
  lemma {:induction false} JoinSplit(s: string, sep: char)
    ensures Join(Split(s, sep), [sep]) == s
    ensures FreeOf(Split(s, sep), sep)
  {
    if s != [] {
      JoinSplit(s[1..], sep);
      var rest := Split(s[1..], sep);
      if s[0] == sep {
        assert ([[]] + rest)[1..] == rest;
      } else {
        var parts := [[s[0]] + rest[0]] + rest[1..];
        assert parts[1..] == rest[1..];
        if |rest| > 1 {
          assert Join(parts, [sep]) == [s[0]] + (rest[0] + [sep] + Join(rest[1..], [sep]));
        }
      }
    }
  }

  /** A string splits into two parts exactly when it holds the separator once. */
  lemma SplitInTwo(s: string, sep: char, x: string, y: string)
    ensures Split(s, sep) == [x, y] <==> s == x + [sep] + y && sep !in x && sep !in y
  {
    JoinSplit(s, sep);
    if Split(s, sep) == [x, y] {
      assert FreeOf([x, y], sep) && Join([x, y], [sep]) == x + [sep] + y;
      assert sep !in [x, y][0] && sep !in [x, y][1];
    }
    if s == x + [sep] + y && sep !in x && sep !in y {
      SplitAtSeparator(x, y, sep);
      SplitWhole(y, sep);
    }
  }

  lemma {:induction false} RemoveAllAppend(x: string, y: string, c: char)
    ensures RemoveAll(x + y, c) == RemoveAll(x, c) + RemoveAll(y, c)
  {
    if x == [] {
      assert x + y == y;
    } else {
      var head := if x[0] == c then [] else [x[0]];
      calc {
        RemoveAll(x + y, c);
        { assert (x + y)[0] == x[0] && (x + y)[1..] == x[1..] + y; }
        head + RemoveAll(x[1..] + y, c);
        { RemoveAllAppend(x[1..], y, c); }
        head + (RemoveAll(x[1..], c) + RemoveAll(y, c));
        head + RemoveAll(x[1..], c) + RemoveAll(y, c);
      }
    }
  }

  lemma {:induction false} RemoveAllAbsent(x: string, c: char)
    ensures c !in RemoveAll(x, c)
    ensures c !in x ==> RemoveAll(x, c) == x
    ensures forall d :: d in RemoveAll(x, c) ==> d in x
  {
    if x != [] {
      RemoveAllAbsent(x[1..], c);
    }
  }

  function DigitChar(d: nat): char
    requires d < 10
  {
    ('0' as int + d) as char
  }

  predicate IsDigit(c: char) {
    '0' <= c <= '9'
  }

  function PrintNat(n: nat): string {
    if n < 10 then [DigitChar(n)] else PrintNat(n / 10) + [DigitChar(n % 10)]
  }

  /** `strconv.Itoa` and the `%d` verb. */
  function Itoa(n: GoInt): string {
    var value: int := n;
    if value < 0 then ['-'] + PrintNat(-value) else PrintNat(value)
  }

  function ParseNat(s: string): Option<nat> {
    if s == [] || !IsDigit(s[|s| - 1]) then None
    else
      var d := s[|s| - 1] as int - '0' as int;
      if |s| == 1 then Some(d)
      else match ParseNat(s[..|s| - 1])
        case None => None
        case Some(n) => Some(10 * n + d)
  }

  /** `strconv.Atoi`, and `strconv.ParseInt(s, 10, 64)`, on a 64-bit platform. */
  function Atoi(s: string): Option<GoInt> {
    if s == [] then None
    else
      var magnitude := ParseNat(if s[0] == '-' || s[0] == '+' then s[1..] else s);
      if magnitude.None? then None
      else
        var m: int := magnitude.value;
        var n := if s[0] == '-' then -m else m;
        if FitsGoInt(n) then Some(n) else None
  }

  lemma {:induction false} ParsePrintNat(n: nat)
    ensures ParseNat(PrintNat(n)) == Some(n)
    ensures PrintNat(n) != [] && forall c :: c in PrintNat(n) ==> IsDigit(c)
  {
    if n >= 10 {
      ParsePrintNat(n / 10);
      var s := PrintNat(n);
      assert s[..|s| - 1] == PrintNat(n / 10);
    }
  }

  /** A decimal numeral for n: its printed form, perhaps after leading zeros. */
  ghost predicate IsNumeral(s: string, n: nat) {
    exists zeros: string :: s == zeros + PrintNat(n) && forall i :: 0 <= i < |zeros| ==> zeros[i] == '0'
  }

  lemma {:induction false} ParseNumeral(zeros: string, n: nat)
    requires forall i :: 0 <= i < |zeros| ==> zeros[i] == '0'
    ensures ParseNat(zeros + PrintNat(n)) == Some(n)
    decreases n, |zeros|
  {
    var s := zeros + PrintNat(n);
    if n >= 10 {
      ParseNumeral(zeros, n / 10);
      assert s[..|s| - 1] == zeros + PrintNat(n / 10);
    } else if zeros != [] {
      ParseNumeral(zeros[1..], 0);
      assert s[..|s| - 1] == zeros == zeros[1..] + PrintNat(0);
    }
  }

  lemma DigitIsNumeral(d: nat)
    requires d < 10
    ensures IsNumeral([DigitChar(d)], d)
  {
    assert [DigitChar(d)] == [] + PrintNat(d);
  }

  lemma PrintOneMore(m: nat, d: nat)
    requires m > 0 && d < 10
    ensures PrintNat(10 * m + d) == PrintNat(m) + [DigitChar(d)]
  {
    assert (10 * m + d) / 10 == m && (10 * m + d) % 10 == d;
  }

  lemma NumeralOneMore(front: string, m: nat, d: nat)
    requires IsNumeral(front, m) && d < 10
    ensures IsNumeral(front + [DigitChar(d)], 10 * m + d)
  {
    var zeros :| front == zeros + PrintNat(m) && forall i :: 0 <= i < |zeros| ==> zeros[i] == '0';
    if m == 0 {
      assert front + [DigitChar(d)] == front + PrintNat(d);
    } else {
      PrintOneMore(m, d);
      assert front + [DigitChar(d)] == zeros + PrintNat(10 * m + d);
    }
  }

  lemma {:induction false} ParsedIsNumeral(s: string)
    requires ParseNat(s).Some?
    ensures IsNumeral(s, ParseNat(s).value)
  {
    var front, d := s[..|s| - 1], s[|s| - 1] as int - '0' as int;
    assert s == front + [DigitChar(d)];
    if |s| == 1 {
      DigitIsNumeral(d);
      assert s == [DigitChar(d)];
    } else {
      ParsedIsNumeral(front);
      NumeralOneMore(front, ParseNat(front).value, d);
    }
  }

  /** Parsing reads exactly the numerals, with the value they print. */
  lemma ParseNatIff(s: string, n: nat)
    ensures ParseNat(s) == Some(n) <==> IsNumeral(s, n)
  {
    if ParseNat(s) == Some(n) {
      ParsedIsNumeral(s);
    }
    if IsNumeral(s, n) {
      var zeros :| s == zeros + PrintNat(n) && forall i :: 0 <= i < |zeros| ==> zeros[i] == '0';
      ParseNumeral(zeros, n);
    }
  }

  lemma {:induction false} ParsedAreDigits(s: string)
    ensures ParseNat(s).Some? ==> s != [] && forall i :: 0 <= i < |s| ==> '0' <= s[i] <= '9'
  {
    if |s| > 1 {
      ParsedAreDigits(s[..|s| - 1]);
    }
  }

  /** `Atoi` reads the 64-bit integers, a sign allowed in front of the digits. */
  lemma AtoiIff(s: string, n: GoInt)
    ensures Atoi(s) == Some(n)
            <==> || (n >= 0 && ParseNat(s) == Some(n))
                 || (n >= 0 && s != [] && s[0] == '+' && ParseNat(s[1..]) == Some(n))
                 || (n <= 0 && s != [] && s[0] == '-' && ParseNat(s[1..]) == Some(-(n as int)))
  {
    ParsedAreDigits(s);
  }

  /** The 64-bit range, as `Atoi` enforces it on the printed form of any number. */
  lemma AtoiRange(n: nat)
    ensures Atoi(PrintNat(n)).Some? <==> n <= 9223372036854775807
    ensures Atoi(['-'] + PrintNat(n)).Some? <==> n <= 9223372036854775808
  {
    ParsePrintNat(n);
    assert IsDigit(PrintNat(n)[0]);
    assert (['-'] + PrintNat(n))[1..] == PrintNat(n);
  }

  lemma DecimalDigits(d: nat)
    requires d < 10
    ensures DigitChar(d) == "0123456789"[d]
  {
  }

  /** The printed form is the decimal one, and starts with a zero only for zero. */
  lemma {:induction false} PrintedDecimal(n: nat)
    ensures n < 10 ==> PrintNat(n) == ["0123456789"[n]]
    ensures n >= 10 ==> PrintNat(n) == PrintNat(n / 10) + ["0123456789"[n % 10]]
    ensures PrintNat(n) != [] && (PrintNat(n)[0] == '0' <==> n == 0)
  {
    DecimalDigits(n % 10);
    if n >= 10 {
      PrintedDecimal(n / 10);
    }
  }

  lemma PrintedExamples()
    ensures Itoa(0) == "0" && Itoa(80) == "80" && Itoa(-72) == "-72"
  {
    assert PrintNat(80) == PrintNat(8) + "0" && PrintNat(72) == PrintNat(7) + "2";
  }

  /** Parsing undoes printing for every 64-bit integer, and the printed form holds only a sign and digits. */
  lemma AtoiItoa(n: GoInt)
    ensures Atoi(Itoa(n)) == Some(n)
    ensures forall c :: c in Itoa(n) ==> c == '-' || IsDigit(c)
  {
    var value: int := n;
    var m := if value < 0 then -value else value;
    ParsePrintNat(m);
    var digits := PrintNat(m);
    if n < 0 {
      assert Itoa(n)[1..] == digits;
    } else {
      assert IsDigit(digits[0]);
    }
  }
}
