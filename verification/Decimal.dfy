/** Decimal text of integers, as strconv.Itoa writes it and strconv.Atoi reads it. */
module Decimal {
  import opened Wrappers

  const MAX_INT: int := 0x7fff_ffff_ffff_ffff  // Go's int is 64 bits wide on the supported platforms

  predicate IsDigit(c: char) {
    '0' <= c <= '9'
  }

  function DigitChar(d: nat): (c: char)
    requires d < 10
    ensures IsDigit(c) && c as int == '0' as int + d
  {
    ('0' as int + d) as char
  }

  /** Itoa on the non-negative integers, the only ones the modelled code formats. */
  function Itoa(n: nat): (s: string)
    ensures s != [] && forall i | 0 <= i < |s| :: IsDigit(s[i])
  {
    if n < 10 then [DigitChar(n)] else Itoa(n / 10) + [DigitChar(n % 10)]
  }

  /** The value of a string of digits; None when some character is not a digit. */
  function ParseDigits(s: string): (r: Option<nat>)
    ensures r.Some? <==> forall i | 0 <= i < |s| :: IsDigit(s[i])
  {
    if s == [] then Some(0)
    else
      var last := s[|s| - 1];
      var init := ParseDigits(s[..|s| - 1]);
      if init.Some? && IsDigit(last) then Some(init.value * 10 + (last as int - '0' as int))
      else None
  }

  /** Atoi: an optional sign, then at least one digit, within the range of int. */
  function Atoi(s: string): (r: Option<int>)
    ensures r.Some? ==> -MAX_INT - 1 <= r.value <= MAX_INT
  {
    var signed := s != [] && (s[0] == '-' || s[0] == '+');
    var digits := if signed then s[1..] else s;
    if digits == [] then None
    else
      match ParseDigits(digits)
      case None => None
      case Some(v) =>
        var n: int := if signed && s[0] == '-' then -(v as int) else v;
        if -MAX_INT - 1 <= n <= MAX_INT then Some(n) else None
  }

  lemma {:induction false} ParseItoa(n: nat)
    ensures ParseDigits(Itoa(n)) == Some(n)
  {
    var s := Itoa(n);
    if n < 10 {
      assert s[..0] == [];
      assert ParseDigits(s[..0]) == Some(0);
    } else {
      ParseItoa(n / 10);
      assert s[..|s| - 1] == Itoa(n / 10);
    }
  }

  /** What Itoa writes, Atoi reads back. */
  lemma AtoiOfItoa(n: nat)
    requires n <= MAX_INT
    ensures Atoi(Itoa(n)) == Some(n)
  {
    ParseItoa(n);
    assert IsDigit(Itoa(n)[0]);
  }

  /** Different numbers have different decimal texts. */
  lemma ItoaIsInjective(m: nat, n: nat)
    requires Itoa(m) == Itoa(n)
    ensures m == n
  {
    ParseItoa(m);
    ParseItoa(n);
  }

  // ----- What the texts mean -----

  function Pow10(k: nat): nat {
    if k == 0 then 1 else 10 * Pow10(k - 1)
  }

  /** The value of decimal digits by their positions, the most significant first. */
  function Positional(s: string): int {
    if s == [] then 0 else (s[0] as int - '0' as int) * Pow10(|s| - 1) + Positional(s[1..])
  }

  lemma {:induction false} PositionalOneMore(s: string, c: char)
    ensures Positional(s + [c]) == Positional(s) * 10 + (c as int - '0' as int)
  {
    if s == [] {
      assert [c][1..] == [] && Pow10(0) == 1;
      assert s + [c] == [c];
    } else {
      PositionalOneMore(s[1..], c);
      assert (s + [c])[1..] == s[1..] + [c];
      var d := s[0] as int - '0' as int;
      assert d * Pow10(|s|) == d * Pow10(|s| - 1) * 10;
    }
  }

  lemma {:induction false} ParseIsPositional(s: string)
    requires forall i | 0 <= i < |s| :: '0' <= s[i] <= '9'
    ensures ParseDigits(s) == Some(Positional(s))
  {
    if s != [] {
      ParseIsPositional(s[..|s| - 1]);
      PositionalOneMore(s[..|s| - 1], s[|s| - 1]);
      assert s == s[..|s| - 1] + [s[|s| - 1]];
    }
  }

  /** Itoa writes the digits of n, without a leading zero. */
  lemma {:induction false} ItoaIsPositional(n: nat)
    ensures forall i | 0 <= i < |Itoa(n)| :: '0' <= Itoa(n)[i] <= '9'
    ensures Positional(Itoa(n)) == n
    ensures |Itoa(n)| > 1 ==> Itoa(n)[0] != '0'
  {
    ParseItoa(n);
    ParseIsPositional(Itoa(n));
    if n >= 10 { ItoaIsPositional(n / 10); }
  }

  ghost predicate IsDigits(s: string) {
    s != [] && forall i | 0 <= i < |s| :: '0' <= s[i] <= '9'
  }

  /** s is an optional sign and at least one digit, and n its value. */
  ghost predicate Reads(s: string, n: int) {
    || (IsDigits(s) && n == Positional(s))
    || (s != [] && s[0] == '+' && IsDigits(s[1..]) && n == Positional(s[1..]))
    || (s != [] && s[0] == '-' && IsDigits(s[1..]) && n == -Positional(s[1..]))
  }

  lemma ParseReads(s: string)
    requires s != []
    ensures ParseDigits(s).Some? <==> IsDigits(s)
    ensures IsDigits(s) ==> ParseDigits(s) == Some(Positional(s))
  {
    if IsDigits(s) { ParseIsPositional(s); }
  }

  /** Atoi accepts exactly these texts, as far as their values fit 64 bits. */
  lemma AtoiReads(s: string, n: int)
    ensures Atoi(s) == Some(n) <==> Reads(s, n) && -0x8000_0000_0000_0000 <= n <= 0x7fff_ffff_ffff_ffff
  {
    if s != [] {
      ParseReads(s);
      if |s| > 1 { ParseReads(s[1..]); }
    }
  }
}
