/**
 * The three pieces of Rust's standard library that the version codec relies
 * on: `str::split` on a character, `Display` for an unsigned integer, and
 * `<u8 as FromStr>::from_str`.
 */
module RustText {
  import opened Wrappers
  import opened Scalars

  // ---------------------------------------------------------------------
  // str::split(sep)
  // ---------------------------------------------------------------------

  /** Number of occurrences of `c` in `s`. */
  function Count(s: string, c: char): nat
  {
    if |s| == 0 then 0 else (if s[0] == c then 1 else 0) + Count(s[1..], c)
  }

  /** The parts re-joined with the separator between them. */
  function Join(parts: seq<string>, sep: char): string
    requires |parts| >= 1
  {
    if |parts| == 1 then parts[0] else parts[0] + [sep] + Join(parts[1..], sep)
  }

  /**
   * `s.split(sep).collect()`: one part per separator plus one, and no part
   * holding the separator.
   */
  function Split(s: string, sep: char): (parts: seq<string>)
    ensures |parts| == Count(s, sep) + 1
    ensures forall i :: 0 <= i < |parts| ==> sep !in parts[i]
  {
    if |s| == 0 then [""]
    else
      var rest := Split(s[1..], sep);
      if s[0] == sep then [""] + rest
      else [[s[0]] + rest[0]] + rest[1..]
  }

  /** Joining the parts back with the separator gives the original text. */
  lemma {:induction false} SplitJoin(s: string, sep: char)
    ensures Join(Split(s, sep), sep) == s
  {
    if |s| > 0 {
      var rest := Split(s[1..], sep);
      SplitJoin(s[1..], sep);
      var parts := Split(s, sep);
      if s[0] == sep {
        assert parts[1..] == rest;
      } else {
        assert parts[1..] == rest[1..];
        assert |rest| > 1 ==> Join(rest, sep) == rest[0] + [sep] + Join(rest[1..], sep);
      }
      assert s == [s[0]] + s[1..];
    }
  }

  /** Three parts joined with two separators. */
  lemma JoinThree(parts: seq<string>, sep: char)
    requires |parts| == 3
    ensures Join(parts, sep) == parts[0] + [sep] + parts[1] + [sep] + parts[2]
  {
    assert parts[1..][1..] == [parts[2]];
    assert Join(parts[1..], sep) == parts[1] + [sep] + parts[2];
    assert parts[0] + [sep] + (parts[1] + [sep] + parts[2]) == parts[0] + [sep] + parts[1] + [sep] + parts[2];
  }

  /** A string without the separator splits into itself alone. */
  lemma {:induction false} SplitNoSeparator(x: string, sep: char)
    requires sep !in x
    ensures Split(x, sep) == [x]
  {
    if |x| > 0 {
      SplitNoSeparator(x[1..], sep);
      assert [x[0]] + x[1..] == x;
    }
  }

  /** Splitting at the first separator peels off the part before it. */
  lemma {:induction false} SplitFirst(x: string, sep: char, y: string)
    requires sep !in x
    ensures Split(x + [sep] + y, sep) == [x] + Split(y, sep)
  {
    if |x| == 0 {
      assert x + [sep] + y == [sep] + y;
      assert ([sep] + y)[1..] == y;
    } else {
      SplitFirst(x[1..], sep, y);
      assert (x + [sep] + y)[1..] == x[1..] + [sep] + y;
      assert [x[0]] + x[1..] == x;
    }
  }

  /** Three separator-free parts joined with two separators split back into those parts. */
  lemma SplitThree(a: string, b: string, c: string, sep: char)
    requires sep !in a && sep !in b && sep !in c
    ensures Split(a + [sep] + b + [sep] + c, sep) == [a, b, c]
  {
    var bc := b + [sep] + c;
    SplitNoSeparator(c, sep);
    SplitFirst(b, sep, c);
    assert Split(bc, sep) == [b, c];
    SplitFirst(a, sep, bc);
    assert a + [sep] + b + [sep] + c == a + [sep] + bc;
  }

  // ---------------------------------------------------------------------
  // Decimal digits
  // ---------------------------------------------------------------------

  predicate IsDigit(c: char)
  {
    '0' <= c <= '9'
  }

  predicate AllDigits(s: string)
  {
    forall i :: 0 <= i < |s| ==> IsDigit(s[i])
  }

  function DigitChar(d: nat): (c: char)
    requires d < 10
    ensures IsDigit(c)
  {
    (d + '0' as int) as char
  }

  function DigitValue(c: char): (d: nat)
    requires IsDigit(c)
    ensures d < 10 && DigitChar(d) == c
  {
    c as int - '0' as int
  }

  /** The value of a digit string, most significant digit first (the accumulation `acc * 10 + d`). */
  function DigitsValue(s: string): nat
    requires AllDigits(s)
  {
    if |s| == 0 then 0 else DigitsValue(s[..|s| - 1]) * 10 + DigitValue(s[|s| - 1])
  }

  /**
   * `Display` for an unsigned integer: a non-empty digit string of value
   * `n` with no redundant leading zero.
   */
  function Decimal(n: nat): (r: string)
    ensures |r| >= 1 && AllDigits(r) && DigitsValue(r) == n
    ensures |r| > 1 ==> r[0] != '0'
  {
    if n < 10 then [DigitChar(n)]
    else
      var r := Decimal(n / 10) + [DigitChar(n % 10)];
      assert r[..|r| - 1] == Decimal(n / 10);
      r
  }

  lemma DecimalInjective(m: nat, n: nat)
    requires Decimal(m) == Decimal(n)
    ensures m == n
  {
  }

  /** A digit string with no redundant leading zero is the decimal form of its value. */
  lemma {:induction false} DecimalOfDigits(s: string)
    requires |s| >= 1 && AllDigits(s) && (|s| > 1 ==> s[0] != '0')
    ensures Decimal(DigitsValue(s)) == s
  {
    if |s| > 1 {
      var init := s[..|s| - 1];
      assert init[0] == s[0];
      DigitsValuePositive(init);
      DecimalOfDigits(init);
      var n := DigitsValue(s);
      assert n / 10 == DigitsValue(init) && n % 10 == DigitValue(s[|s| - 1]);
      assert s == init + [s[|s| - 1]];
    }
  }

  /** A digit string that starts with a non-zero digit has a positive value. */
  lemma {:induction false} DigitsValuePositive(s: string)
    requires |s| >= 1 && AllDigits(s) && s[0] != '0'
    ensures DigitsValue(s) >= 1
  {
    if |s| > 1 {
      assert s[..|s| - 1][0] == s[0];
      DigitsValuePositive(s[..|s| - 1]);
    }
  }

  /** A leading zero does not change the value of a digit string. */
  lemma {:induction false} LeadingZeroValue(s: string)
    requires AllDigits(s)
    ensures AllDigits("0" + s) && DigitsValue("0" + s) == DigitsValue(s)
  {
    if |s| > 0 {
      var t := "0" + s;
      assert t[..|t| - 1] == "0" + s[..|s| - 1];
      LeadingZeroValue(s[..|s| - 1]);
    }
  }

  // ---------------------------------------------------------------------
  // <u8 as FromStr>::from_str
  // ---------------------------------------------------------------------

  /** Leading zeros dropped, keeping at least one character. */
  function StripZeros(s: string): (r: string)
    ensures |r| <= |s|
    ensures AllDigits(s) ==> AllDigits(r)
    ensures |s| >= 1 ==> |r| >= 1
    ensures |r| > 1 ==> r[0] != '0'
  {
    if |s| > 1 && s[0] == '0' then StripZeros(s[1..]) else s
  }

  /** The text with an optional single `+` sign and redundant leading zeros removed. */
  function Canonical(s: string): string
  {
    StripZeros(if |s| > 0 && s[0] == '+' then s[1..] else s)
  }

  /** Stripping zeros only strips digits. */
  lemma {:induction false} StripZerosDigits(s: string)
    requires AllDigits(StripZeros(s))
    ensures AllDigits(s)
  {
    if |s| > 1 && s[0] == '0' {
      StripZerosDigits(s[1..]);
      forall i | 0 < i < |s|
        ensures IsDigit(s[i])
      {
        assert s[i] == s[1..][i - 1];
      }
    }
  }

  /** Stripping zeros keeps a digit string's value. */
  lemma {:induction false} StripZerosValue(s: string)
    requires AllDigits(s)
    ensures DigitsValue(StripZeros(s)) == DigitsValue(s)
  {
    if |s| > 1 && s[0] == '0' {
      var t := s[1..];
      assert AllDigits(t) by {
        forall i | 0 <= i < |t|
          ensures IsDigit(t[i])
        {
          assert t[i] == s[i + 1];
        }
      }
      assert s == "0" + t;
      StripZerosValue(t);
      LeadingZeroValue(t);
      calc {
        DigitsValue(StripZeros(s));
        DigitsValue(StripZeros(t));
        DigitsValue(t);
        DigitsValue("0" + t);
      }
    }
  }

  /** A digit string with its leading zeros stripped is the decimal form of its value. */
  lemma StripZerosDecimal(s: string)
    requires |s| >= 1 && AllDigits(s)
    ensures Decimal(DigitsValue(s)) == StripZeros(s)
  {
    var r := StripZeros(s);
    StripZerosValue(s);
    DecimalOfDigits(r);
  }

  /** Text that is empty or holds a non-digit strips to no decimal form. */
  lemma NotDigitsNoDecimal(s: string)
    requires |s| == 0 || !AllDigits(s)
    ensures forall n: nat {:trigger Decimal(n)} :: StripZeros(s) != Decimal(n)
  {
    forall n: nat
      ensures StripZeros(s) != Decimal(n)
    {
      if StripZeros(s) == Decimal(n) {
        StripZerosDigits(s);
      }
    }
  }

  /**
   * `str::parse::<u8>`: an optional `+`, then at least one ASCII digit and
   * nothing else, with value at most 255. (The library stops at the first
   * overflowing digit; since the running value never decreases, that is the
   * same as the whole value exceeding 255.)
   * A string parses to `n` exactly when, once the sign and leading zeros are
   * dropped, it is the decimal form of `n`.
   */
  function ParseU8(s: string): (r: Option<u8>)
    ensures r.Some? ==> Canonical(s) == Decimal(r.value)
    ensures r.None? ==> forall n: u8 {:trigger Decimal(n)} :: Canonical(s) != Decimal(n)
  {
    var digits := if |s| > 0 && s[0] == '+' then s[1..] else s;
    if |digits| == 0 || !AllDigits(digits) then
      NotDigitsNoDecimal(digits);
      None
    else
      var value := DigitsValue(digits);
      StripZerosDecimal(digits);
      if value <= 255 then Some(value) else None
  }

  /** Text whose canonical form is the decimal form of a byte parses to that byte. */
  lemma ParseCanonical(s: string, n: u8)
    requires Canonical(s) == Decimal(n)
    ensures ParseU8(s) == Some(n)
  {
    var r := ParseU8(s);
    if r.Some? {
      DecimalInjective(r.value, n);
    }
  }

  /** A `+` sign before a decimal form is accepted and dropped. */
  lemma SignedDecimal(n: nat)
    ensures Canonical("+" + Decimal(n)) == Decimal(n)
  {
    assert ("+" + Decimal(n))[1..] == Decimal(n);
  }

  /** A redundant leading zero before a decimal form is accepted and dropped. */
  lemma PaddedDecimal(n: nat)
    ensures Canonical("0" + Decimal(n)) == Decimal(n)
  {
    var t := "0" + Decimal(n);
    assert t[1..] == Decimal(n);
    assert StripZeros(Decimal(n)) == Decimal(n);
  }

  /** The decimal form of a byte parses back to it. */
  lemma ParseDecimal(n: u8)
    ensures ParseU8(Decimal(n)) == Some(n)
  {
    var d := Decimal(n);
    assert d[0] != '+';
    ParseCanonical(d, n);
  }
}
