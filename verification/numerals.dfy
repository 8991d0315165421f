// The decimal numerals written by `%d` and read by `atoi`.

module Numerals {
  predicate IsDigit(c: char) { '0' <= c <= '9' }

  function Digit(d: nat): char
    requires d < 10
  {
    '0' + d as char
  }

  function Value(c: char): int { c as int - '0' as int }

  function Numeral(n: nat): (s: string)
    ensures s != [] && forall k :: 0 <= k < |s| ==> IsDigit(s[k])
  {
    if n < 10 then [Digit(n)] else Numeral(n / 10) + [Digit(n % 10)]
  }

  // `%d`
  function Decimal(n: int): string {
    if n < 0 then "-" + Numeral(-n) else Numeral(n)
  }

  // The digits at the head of `s`, appended to `acc`.
  function Digits(s: string, acc: nat): nat {
    if s == [] || !IsDigit(s[0]) then acc else Digits(s[1..], 10 * acc + Value(s[0]))
  }

  predicate IsSpace(c: char) { c == ' ' || '\t' <= c <= '\r' }

  function SkipSpace(s: string): string {
    if s != [] && IsSpace(s[0]) then SkipSpace(s[1..]) else s
  }

  function Signed(s: string): int {
    if s != [] && s[0] == '-' then -(Digits(s[1..], 0) as int)
    else if s != [] && s[0] == '+' then Digits(s[1..], 0)
    else Digits(s, 0)
  }

  predicate IsInt32(n: int) { -0x8000_0000 <= n < 0x8000_0000 }

  // A number as `strtol` yields it, in 64 bits, ...
  function ToLong(n: int): int {
    if n < -0x8000_0000_0000_0000 then -0x8000_0000_0000_0000
    else if n > 0x7fff_ffff_ffff_ffff then 0x7fff_ffff_ffff_ffff
    else n
  }

  // ... and cut to 32.
  function ToInt(n: int): int {
    var low := n % 0x1_0000_0000;
    if low < 0x8000_0000 then low else low - 0x1_0000_0000
  }

  // `atoi` as the GNU library implements it; for numbers of more than 32 bits C leaves it open.
  function Atoi(s: string): int { ToInt(ToLong(Signed(SkipSpace(s)))) }

  lemma {:induction false} DigitsAppend(s: string, c: char, acc: nat)
    requires IsDigit(c) && forall k :: 0 <= k < |s| ==> IsDigit(s[k])
    ensures Digits(s + [c], acc) == 10 * Digits(s, acc) + Value(c)
  {
    if s == [] {
      assert (s + [c])[1..] == [];
    } else {
      assert (s + [c])[1..] == s[1..] + [c];
      DigitsAppend(s[1..], c, 10 * acc + Value(s[0]));
    }
  }

  lemma {:induction false} DigitsOfNumeral(n: nat)
    ensures Digits(Numeral(n), 0) == n
  {
    if n < 10 {
      assert Numeral(n)[1..] == [];
    } else {
      DigitsOfNumeral(n / 10);
      DigitsAppend(Numeral(n / 10), Digit(n % 10), 0);
    }
  }

  // Digits end at the first character that is none.
  lemma {:induction false} DigitsEnd(s: string, rest: string, acc: nat)
    requires (forall k :: 0 <= k < |s| ==> IsDigit(s[k])) && (rest == [] || !IsDigit(rest[0]))
    ensures Digits(s + rest, acc) == Digits(s, acc)
  {
    if s == [] {
      assert s + rest == rest;
    } else {
      assert (s + rest)[1..] == s[1..] + rest;
      DigitsEnd(s[1..], rest, 10 * acc + Value(s[0]));
    }
  }

  lemma {:induction false} SpaceIsSkipped(space: string, s: string)
    requires (forall k :: 0 <= k < |space| ==> IsSpace(space[k])) && (s == [] || !IsSpace(s[0]))
    ensures SkipSpace(space + s) == s
  {
    if space == [] {
      assert space + s == s;
    } else {
      assert (space + s)[1..] == space[1..] + s;
      SpaceIsSkipped(space[1..], s);
    }
  }

  // `r` is `v` in 32 bits: itself when it fits, else what is left of its 64-bit value.
  predicate Fits32(v: int, r: int) {
    && IsInt32(r)
    && (IsInt32(v) ==> r == v)
    && (-0x8000_0000_0000_0000 <= v <= 0x7fff_ffff_ffff_ffff ==> (v - r) % 0x1_0000_0000 == 0)
    && (v > 0x7fff_ffff_ffff_ffff ==> r == -1)
    && (v < -0x8000_0000_0000_0000 ==> r == 0)
  }

  lemma CutFits(v: int)
    ensures Fits32(v, ToInt(ToLong(v)))
  {
  }

  function WithSign(sign: string, n: nat): int { if sign == "-" then -(n as int) else n }

  lemma SignedReads(sign: string, n: nat, rest: string)
    requires (sign == "" || sign == "+" || sign == "-") && (rest == [] || !IsDigit(rest[0]))
    ensures Signed(sign + Numeral(n) + rest) == WithSign(sign, n)
    ensures !IsSpace((sign + Numeral(n) + rest)[0])
  {
    var s := sign + Numeral(n) + rest;
    DigitsOfNumeral(n);
    DigitsEnd(Numeral(n), rest, 0);
    if sign == "" {
      assert s == Numeral(n) + rest && IsDigit(s[0]);
    } else {
      assert s[1..] == Numeral(n) + rest && s[0] == sign[0];
    }
  }

  // White space, a sign and digits are read as the number they spell, whatever follows.
  lemma AtoiReads(space: string, sign: string, n: nat, rest: string)
    requires forall k :: 0 <= k < |space| ==> space[k] == ' ' || 9 <= space[k] as int <= 13
    requires (sign == "" || sign == "+" || sign == "-") && (rest == [] || !IsDigit(rest[0]))
    ensures Fits32(WithSign(sign, n), Atoi(space + (sign + Numeral(n) + rest)))
  {
    SignedReads(sign, n, rest);
    SpaceIsSkipped(space, sign + Numeral(n) + rest);
    CutFits(WithSign(sign, n));
  }

  // What `%d` prints, `atoi` reads back.
  lemma AtoiOfDecimal(n: int)
    requires IsInt32(n)
    ensures Atoi(Decimal(n)) == n
  {
    var sign, size: nat := if n < 0 then "-" else "", if n < 0 then -n else n;
    AtoiReads("", sign, size, "");
    assert "" + (sign + Numeral(size) + "") == Decimal(n);
  }

  function Pow10(k: nat): nat { if k == 0 then 1 else 10 * Pow10(k - 1) }

  lemma {:induction false} NumeralLength(n: nat, k: nat)
    requires k >= 1 && n < Pow10(k)
    ensures |Numeral(n)| <= k
    decreases k
  {
    if n >= 10 {
      assert k > 1;
      NumeralLength(n / 10, k - 1);
    }
  }

  lemma Int32Length(n: int)
    requires IsInt32(n)
    ensures |Decimal(n)| <= 11
  {
    assert Pow10(10) == 10_000_000_000 by {
      assert Pow10(2) == 100 && Pow10(4) == 10_000 && Pow10(6) == 1_000_000 && Pow10(8) == 100_000_000;
    }
    NumeralLength(if n < 0 then -n else n, 10);
  }

  lemma DecimalChars(n: int)
    ensures forall k :: 0 <= k < |Decimal(n)| ==> Decimal(n)[k] == '-' || IsDigit(Decimal(n)[k])
  {
  }
}
