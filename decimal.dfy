/** Decimal digit runs: Rust's `str::parse::<usize>` and the `Display` of a `usize`. */
module Decimal {
  import opened Outcomes

  /** The largest `usize` on a 64-bit target. */
  const USIZE_MAX: nat := 0xFFFF_FFFF_FFFF_FFFF

  /** The `kind` of Rust's `ParseIntError`, which `unwrap` prints when it panics. */
  datatype IntErrorKind = Empty | InvalidDigit | PosOverflow

  predicate IsDigit(c: char) {
    '0' <= c <= '9'
  }

  predicate AllDigits(s: string) {
    forall i :: 0 <= i < |s| ==> IsDigit(s[i])
  }

  function DigitValue(c: char): (d: nat)
    requires IsDigit(c)
    ensures d < 10
  {
    c as int - '0' as int
  }

  function DigitChar(d: nat): (c: char)
    requires d < 10
    ensures IsDigit(c) && DigitValue(c) == d
  {
    ('0' as int + d) as char
  }

  /** The number a run of decimal digits denotes, most significant digit first. */
  function DecimalValue(s: string): nat
    requires AllDigits(s)
    decreases |s|
  {
    if s == [] then 0 else DecimalValue(s[..|s| - 1]) * 10 + DigitValue(s[|s| - 1])
  }

  /**
   * The digit loop of `usize::from_str`: left to right, every character must be a
   * digit and every step `acc * 10 + d` is overflow-checked; the first failure wins.
   * Written as recursion on the prefix, so the prefix is consumed before the last digit.
   */
  function ParseDigits(s: string): (r: Result<nat, IntErrorKind>)
    ensures r.Ok? ==> r.value <= USIZE_MAX
    ensures r.Err? ==> r.error != Empty
    decreases |s|
  {
    if s == [] then Ok(0)
    else
      match ParseDigits(s[..|s| - 1])
      case Err(k) => Err(k)
      case Ok(acc) =>
        var c := s[|s| - 1];
        if !IsDigit(c) then Err(InvalidDigit)
        else if acc * 10 + DigitValue(c) > USIZE_MAX then Err(PosOverflow)
        else Ok(acc * 10 + DigitValue(c))
  }

  /** The characters `usize::from_str` reads as digits: an optional leading `+` is skipped. */
  function DigitRun(s: string): (t: string)
    ensures |t| <= |s|
  {
    if |s| > 0 && s[0] == '+' then s[1..] else s
  }

  /**
   * `s.parse::<usize>()`: the empty string is `Empty`, a lone sign is `InvalidDigit`,
   * otherwise the digit loop over the run after the optional `+`.
   */
  function ParseUsize(s: string): (r: Result<nat, IntErrorKind>)
    ensures r.Ok? ==> r.value <= USIZE_MAX
    ensures r == Err(Empty) <==> s == []
  {
    if s == [] then Err(Empty)
    else if s[0] == '+' then (if |s| == 1 then Err(InvalidDigit) else ParseDigits(s[1..]))
    else ParseDigits(s)
  }

  /** `format!("{}", n)` for a `usize`: shortest decimal form, no leading zeros. */
  function NatToDecimal(n: nat): (s: string)
    ensures s != [] && AllDigits(s) && DecimalValue(s) == n
    ensures s[0] == '0' ==> s == "0"
    decreases n
  {
    if n < 10 then [DigitChar(n)]
    else
      var front := NatToDecimal(n / 10);
      var s := front + [DigitChar(n % 10)];
      assert s[..|s| - 1] == front;
      s
  }

  /** The digit loop accepts exactly the digit runs whose value fits a `usize`, and yields that value. */
  lemma {:induction false} ParseDigitsValue(s: string)
    ensures ParseDigits(s).Ok? <==> AllDigits(s) && DecimalValue(s) <= USIZE_MAX
    ensures ParseDigits(s).Ok? ==> AllDigits(s) && ParseDigits(s).value == DecimalValue(s)
    ensures AllDigits(s) && ParseDigits(s).Err? ==> ParseDigits(s).error == PosOverflow
    decreases |s|
  {
    if s != [] {
      var p := s[..|s| - 1];
      ParseDigitsValue(p);
      assert AllDigits(s) ==> AllDigits(p) by {
        forall i | 0 <= i < |p| ensures AllDigits(s) ==> IsDigit(p[i]) {
          assert p[i] == s[i];
        }
      }
      assert AllDigits(p) && IsDigit(s[|s| - 1]) ==> AllDigits(s) by {
        if AllDigits(p) && IsDigit(s[|s| - 1]) {
          forall i | 0 <= i < |s| ensures IsDigit(s[i]) {
            if i < |p| { assert s[i] == p[i]; }
          }
        }
      }
    }
  }

  /**
   * `parse::<usize>` succeeds exactly on a nonempty digit run (after an optional `+`)
   * whose value fits a `usize`, and the value it yields is that run's decimal value.
   */
  lemma ParseUsizeValue(s: string)
    ensures ParseUsize(s).Ok? <==>
      DigitRun(s) != [] && AllDigits(DigitRun(s)) && DecimalValue(DigitRun(s)) <= USIZE_MAX
    ensures ParseUsize(s).Ok? ==> AllDigits(DigitRun(s)) && ParseUsize(s).value == DecimalValue(DigitRun(s))
  {
    ParseDigitsValue(DigitRun(s));
  }

  /** On a run of digits alone the parse fails only when the run is empty or too large. */
  lemma ParseDigitRun(s: string)
    requires AllDigits(s)
    ensures ParseUsize(s) == if s == [] then Err(Empty)
                             else if DecimalValue(s) > USIZE_MAX then Err(PosOverflow)
                             else Ok(DecimalValue(s))
  {
    if s != [] {
      assert IsDigit(s[0]);
      ParseDigitsValue(s);
    }
  }

  /** The decimal form of every `usize` parses back to the same value. */
  lemma UsizeRoundTrip(n: nat)
    requires n <= USIZE_MAX
    ensures ParseUsize(NatToDecimal(n)) == Ok(n)
  {
    ParseDigitRun(NatToDecimal(n));
  }
}
