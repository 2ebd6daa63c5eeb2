/**
 * The pieces of java.lang that the modelled code leans on: 32- and 64-bit integers,
 * Integer.parseInt / Long.parseLong / Integer.toString, String.split on a one-character
 * pattern, upper-casing, and the byte-wise string order the database applies to
 * identifiers.
 */
module JavaText {
  import opened Wrappers

  const MinInt32: int := -0x8000_0000
  const MaxInt32: int := 0x7fff_ffff
  const MinInt64: int := -0x8000_0000_0000_0000
  const MaxInt64: int := 0x7fff_ffff_ffff_ffff

  /** Java's `int`. */
  type Int32 = x: int | MinInt32 <= x <= MaxInt32

  /** Java's `int` arithmetic: the exact result folded back into 32 bits, two's complement. */
  function Wrap32(x: int): (r: Int32)
    ensures MinInt32 <= x <= MaxInt32 ==> r == x
    ensures x == MaxInt32 + 1 ==> r == MinInt32
  {
    (x - MinInt32) % 0x1_0000_0000 + MinInt32
  }

  // ---------------------------------------------------------------- decimal numbers

  predicate IsDigit(c: char) { '0' <= c <= '9' }

  predicate AllDigits(s: string) { forall i :: 0 <= i < |s| ==> IsDigit(s[i]) }

  function DigitValue(c: char): nat
    requires IsDigit(c)
  {
    c as int - '0' as int
  }

  function DigitChar(d: nat): char
    requires d < 10
  {
    ('0' as int + d) as char
  }

  /** The value of a run of ASCII digits, most significant first. */
  function DigitsValue(s: string): nat
    requires AllDigits(s)
  {
    if s == [] then 0 else DigitsValue(s[..|s| - 1]) * 10 + DigitValue(s[|s| - 1])
  }

  /** The shortest decimal notation of `n` (no leading zeros, "0" for zero). */
  function NatToDigits(n: nat): string
  {
    if n < 10 then [DigitChar(n)] else NatToDigits(n / 10) + [DigitChar(n % 10)]
  }

  /**
   * Java's decimal grammar without a range check: an optional '+' or '-' sign followed by
   * at least one digit; anything else is rejected.
   */
  function ParseDecimal(s: string): Option<int>
  {
    if |s| > 0 && (s[0] == '-' || s[0] == '+') then
      if |s| > 1 && AllDigits(s[1..]) then
        Some(if s[0] == '-' then 0 - DigitsValue(s[1..]) else DigitsValue(s[1..]))
      else None
    else if |s| > 0 && AllDigits(s) then Some(DigitsValue(s))
    else None
  }

  /** Integer.parseInt: a decimal number that fits in 32 bits, else NumberFormatException. */
  function ParseInt(s: string): (r: Option<Int32>)
    ensures r.Some? <==> ParseDecimal(s).Some? && MinInt32 <= ParseDecimal(s).value <= MaxInt32
    ensures r.Some? ==> r.value == ParseDecimal(s).value
  {
    match ParseDecimal(s)
    case Some(v) => if MinInt32 <= v <= MaxInt32 then Some(v) else None
    case None => None
  }

  /** Long.parseLong: a decimal number that fits in 64 bits, else NumberFormatException. */
  function ParseLong(s: string): (r: Option<int>)
    ensures r.Some? <==> ParseDecimal(s).Some? && MinInt64 <= ParseDecimal(s).value <= MaxInt64
    ensures r.Some? ==> r.value == ParseDecimal(s).value
  {
    match ParseDecimal(s)
    case Some(v) => if MinInt64 <= v <= MaxInt64 then Some(v) else None
    case None => None
  }

  /** Integer.toString and Long.toString: a '-' for negative numbers, then the digits. */
  function IntToString(n: int): string
  {
    if n < 0 then "-" + NatToDigits(-n) else NatToDigits(n)
  }

  lemma {:induction false} NatToDigitsRoundTrip(n: nat)
    ensures |NatToDigits(n)| > 0 && AllDigits(NatToDigits(n))
    ensures DigitsValue(NatToDigits(n)) == n
  {
    if n >= 10 {
      NatToDigitsRoundTrip(n / 10);
      var s := NatToDigits(n / 10) + [DigitChar(n % 10)];
      assert s[..|s| - 1] == NatToDigits(n / 10);
    }
  }

  /** Reading back what Integer.toString / Long.toString wrote gives the number again. */
  lemma ParseDecimalOfToString(n: int)
    ensures ParseDecimal(IntToString(n)) == Some(n)
  {
    if n < 0 {
      NatToDigitsRoundTrip(-n);
      assert IntToString(n)[1..] == NatToDigits(-n);
    } else {
      NatToDigitsRoundTrip(n);
    }
  }

  lemma ParseIntOfToString(n: Int32)
    ensures ParseInt(IntToString(n)) == Some(n)
  {
    ParseDecimalOfToString(n);
  }

  lemma ParseLongOfToString(n: int)
    requires MinInt64 <= n <= MaxInt64
    ensures ParseLong(IntToString(n)) == Some(n)
  {
    ParseDecimalOfToString(n);
  }

  // ---------------------------------------------------------------- case and order

  function UpperChar(c: char): char
  {
    if 'a' <= c <= 'z' then (c as int - 32) as char else c
  }

  /** String.toUpperCase and SQL UPPER, for ASCII letters. */
  function Upper(s: string): string
  {
    seq(|s|, i requires 0 <= i < |s| => UpperChar(s[i]))
  }

  /** String.equalsIgnoreCase, for ASCII letters. */
  predicate EqualsIgnoreCase(a: string, b: string)
  {
    Upper(a) == Upper(b)
  }

  /** The byte-wise order the database uses for `>` on identifiers and for ORDER BY. */
  predicate Less(a: string, b: string)
  {
    if b == [] then false
    else if a == [] then true
    else if a[0] != b[0] then a[0] < b[0]
    else Less(a[1..], b[1..])
  }

  lemma {:induction false} LessIrreflexive(a: string)
    ensures !Less(a, a)
  {
    if a != [] {
      LessIrreflexive(a[1..]);
    }
  }

  lemma {:induction false} LessTransitive(a: string, b: string, c: string)
    requires Less(a, b) && Less(b, c)
    ensures Less(a, c)
  {
    if a != [] && a[0] == b[0] && b[0] == c[0] {
      LessTransitive(a[1..], b[1..], c[1..]);
    }
  }

  lemma {:induction false} LessTotal(a: string, b: string)
    ensures a == b || Less(a, b) || Less(b, a)
  {
    if a != [] && b != [] && a[0] == b[0] {
      LessTotal(a[1..], b[1..]);
      if a[1..] == b[1..] {
        assert a == [a[0]] + a[1..] && b == [b[0]] + b[1..];
      }
    }
  }

  /** `<=` built from Less is transitive. */
  lemma LessEqTransitive(a: string, b: string, c: string)
    requires !Less(b, a) && !Less(c, b)
    ensures !Less(c, a)
  {
    if Less(c, a) {
      LessTotal(a, b);
      LessTotal(b, c);
      if a != b && b != c {
        LessTransitive(a, b, c);
        LessTransitive(c, a, c);
        LessIrreflexive(c);
      }
    }
  }

  /** Less and its converse never both hold. */
  lemma LessAsymmetric(a: string, b: string)
    requires Less(a, b)
    ensures !Less(b, a)
  {
    if Less(b, a) {
      LessTransitive(a, b, a);
      LessIrreflexive(a);
    }
  }

  // ---------------------------------------------------------------- split and join

  /** The pieces of `s` between occurrences of `c`, empty pieces included. */
  function RawSplit(s: string, c: char): (r: seq<string>)
    ensures |r| >= 1
  {
    if s == [] then [[]]
    else if s[0] == c then [[]] + RawSplit(s[1..], c)
    else
      var rest := RawSplit(s[1..], c);
      [[s[0]] + rest[0]] + rest[1..]
  }

  /** The pieces joined back together with `c` between them. */
  function Join(parts: seq<string>, c: char): string
    requires |parts| >= 1
  {
    if |parts| == 1 then parts[0] else parts[0] + [c] + Join(parts[1..], c)
  }

  function DropTrailingEmpty(parts: seq<string>): seq<string>
  {
    if parts != [] && parts[|parts| - 1] == [] then DropTrailingEmpty(parts[..|parts| - 1])
    else parts
  }

  /**
   * String.split on a one-character pattern: when `c` does not occur the result is `[s]`;
   * otherwise trailing empty pieces are dropped (so "a/" gives ["a"] and "/" gives []).
   */
  function JavaSplit(s: string, c: char): seq<string>
  {
    if c !in s then [s] else DropTrailingEmpty(RawSplit(s, c))
  }

  /** Splitting then joining gives the text back, and no piece contains the delimiter. */
  lemma {:induction false} SplitJoinRoundTrip(s: string, c: char)
    ensures Join(RawSplit(s, c), c) == s
    ensures forall i :: 0 <= i < |RawSplit(s, c)| ==> c !in RawSplit(s, c)[i]
  {
    if s != [] {
      SplitJoinRoundTrip(s[1..], c);
      var rest := RawSplit(s[1..], c);
      if s[0] == c {
        assert RawSplit(s, c)[1..] == rest;
      } else {
        var r := RawSplit(s, c);
        assert r[0] == [s[0]] + rest[0];
        if |rest| > 1 {
          assert r[1..] == rest[1..];
          assert Join(rest, c) == rest[0] + [c] + Join(rest[1..], c);
        }
        assert s == [s[0]] + s[1..];
        forall i | 0 <= i < |r| ensures c !in r[i] {
          if i > 0 {
            assert r[i] == rest[i];
          } else {
            assert c !in rest[0];
          }
        }
      }
    }
  }

  lemma {:induction false} DropTrailingEmptyIsPrefix(parts: seq<string>)
    ensures |DropTrailingEmpty(parts)| <= |parts|
    ensures DropTrailingEmpty(parts) == parts[..|DropTrailingEmpty(parts)|]
    ensures forall i :: |DropTrailingEmpty(parts)| <= i < |parts| ==> parts[i] == []
    ensures DropTrailingEmpty(parts) != [] ==> DropTrailingEmpty(parts)[|DropTrailingEmpty(parts)| - 1] != []
  {
    if parts != [] && parts[|parts| - 1] == [] {
      DropTrailingEmptyIsPrefix(parts[..|parts| - 1]);
    }
  }

  /**
   * What String.split returns: a prefix of the raw pieces with only empty pieces dropped,
   * none of which contains the delimiter.
   */
  lemma JavaSplitPieces(s: string, c: char)
    ensures var js, raw := JavaSplit(s, c), RawSplit(s, c);
      && |js| <= |raw| && js == raw[..|js|]
      && (forall i :: |js| <= i < |raw| ==> raw[i] == [])
      && (forall i :: 0 <= i < |js| ==> c !in js[i])
      && Join(raw, c) == s
  {
    SplitJoinRoundTrip(s, c);
    DropTrailingEmptyIsPrefix(RawSplit(s, c));
    if c !in s {
      RawSplitWithoutDelimiter(s, c);
    }
  }

  lemma {:induction false} RawSplitWithoutDelimiter(s: string, c: char)
    requires c !in s
    ensures RawSplit(s, c) == [s]
  {
    if s != [] {
      assert c !in s[1..] by {
        forall i | 0 <= i < |s[1..]| ensures s[1..][i] != c {
          assert s[1..][i] == s[i + 1];
        }
      }
      RawSplitWithoutDelimiter(s[1..], c);
      assert s == [s[0]] + s[1..];
    }
  }

  /** Splitting at the first delimiter: the text before it is the first piece. */
  lemma {:induction false} RawSplitAtFirst(a: string, b: string, c: char)
    requires c !in a
    ensures RawSplit(a + [c] + b, c) == [a] + RawSplit(b, c)
  {
    if a != [] {
      assert c !in a[1..] by {
        forall i | 0 <= i < |a[1..]| ensures a[1..][i] != c {
          assert a[1..][i] == a[i + 1];
        }
      }
      RawSplitAtFirst(a[1..], b, c);
      assert (a + [c] + b)[1..] == a[1..] + [c] + b;
      assert a == [a[0]] + a[1..];
    } else {
      assert a + [c] + b == [c] + b;
    }
  }
}
