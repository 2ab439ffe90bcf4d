/** Go's `strconv.Atoi` on a 64-bit platform (where `int` has 64 bits), with
    `strconv.Itoa` as its reference inverse. */
module GoStrconv {
  import opened Wrappers

  const MinInt: int := -0x8000_0000_0000_0000
  const MaxInt: int := 0x7fff_ffff_ffff_ffff

  predicate IsDigit(c: char)
  {
    '0' <= c <= '9'
  }

  predicate AllDigits(s: string)
  {
    forall i :: 0 <= i < |s| ==> IsDigit(s[i])
  }

  function DigitValue(c: char): (d: nat)
    requires IsDigit(c)
    ensures d < 10
  {
    (c as int) - ('0' as int)
  }

  function DigitChar(d: nat): (c: char)
    requires d < 10
    ensures IsDigit(c) && DigitValue(c) == d
  {
    (('0' as int) + d) as char
  }

  /** The value of a string of decimal digits, most significant first. */
  function DecimalValue(s: string): nat
    requires AllDigits(s)
  {
    if s == [] then 0 else 10 * DecimalValue(s[..|s| - 1]) + DigitValue(s[|s| - 1])
  }

  /** The text after an optional leading '+' or '-'. */
  function Magnitude(s: string): string
  {
    if s != [] && (s[0] == '+' || s[0] == '-') then s[1..] else s
  }

  /** `strconv.Atoi`: an optional sign, then at least one decimal digit and
      nothing else; the value must fit a 64-bit int. Anything else is an
      error, here None. */
  function Atoi(s: string): (r: Option<int>)
    ensures r.Some? ==> MinInt <= r.value <= MaxInt
  {
    var m := Magnitude(s);
    if m == [] || !AllDigits(m) then None
    else
      var v: int := if s[0] == '-' then -(DecimalValue(m) as int) else DecimalValue(m);
      if MinInt <= v <= MaxInt then Some(v) else None
  }

  /** Decimal digits of a natural number, without leading zeros. */
  function NatDigits(n: nat): (s: string)
    ensures s != [] && AllDigits(s)
  {
    if n < 10 then [DigitChar(n)] else NatDigits(n / 10) + [DigitChar(n % 10)]
  }

  /** `strconv.Itoa`. */
  function Itoa(n: int): string
  {
    if n < 0 then "-" + NatDigits(-n) else NatDigits(n)
  }

  lemma {:induction false} DecimalValueOfNatDigits(n: nat)
    ensures DecimalValue(NatDigits(n)) == n
  {
    if n >= 10 {
      var s := NatDigits(n);
      assert s[..|s| - 1] == NatDigits(n / 10);
      DecimalValueOfNatDigits(n / 10);
    }
  }

  /** Atoi reads back every 64-bit integer that Itoa prints ... */
  lemma AtoiOfItoa(n: int)
    requires MinInt <= n <= MaxInt
    ensures Atoi(Itoa(n)) == Some(n)
  {
    if n < 0 {
      DecimalValueOfNatDigits(-n);
      assert Magnitude(Itoa(n)) == NatDigits(-n);
    } else {
      DecimalValueOfNatDigits(n);
      assert IsDigit(NatDigits(n)[0]);
    }
  }

  /** ... and rejects every printed integer that does not fit 64 bits. */
  lemma AtoiOfItoaOutOfRange(n: int)
    requires n < MinInt || MaxInt < n
    ensures Atoi(Itoa(n)) == None
  {
    if n < 0 {
      DecimalValueOfNatDigits(-n);
      assert Magnitude(Itoa(n)) == NatDigits(-n);
    } else {
      DecimalValueOfNatDigits(n);
      assert IsDigit(NatDigits(n)[0]);
    }
  }

  /** A string holding a character that is neither a digit nor a leading
      sign never converts; the words smbstatus prints in place of ids
      ("nobody", "nogroup") are such strings. */
  lemma AtoiRejectsNonDigit(s: string, i: nat)
    requires i < |s| && !IsDigit(s[i]) && !(i == 0 && (s[0] == '+' || s[0] == '-'))
    ensures Atoi(s) == None
  {
    if s[0] == '+' || s[0] == '-' {
      assert Magnitude(s)[i - 1] == s[i];
    }
  }
}
