/** The two Go `strconv` conversions the handlers apply to query and path
    parameters: `Atoi` (pagination and deal limits) and
    `ParseUint(s, 10, 32)` (ids in the path and in filters).  Both follow
    Go's `ParseUint` digit loop, which reports an overflow as soon as the
    accumulator leaves the range, before the rest of the text is read. */
module Strconv {
  import opened Wrappers
  import opened Text
  import opened Scopes

  const MaxUint64: nat := 0xFFFF_FFFF_FFFF_FFFF
  const MaxUint32: nat := 0xFFFF_FFFF

  predicate IsDigit(c: char) { '0' <= c <= '9' }

  predicate AllDigits(s: string) { forall i :: 0 <= i < |s| ==> IsDigit(s[i]) }

  function DigitValue(c: char): (d: nat)
    requires IsDigit(c)
    ensures d < 10
  {
    c as int - '0' as int
  }

  /** The number `acc` followed by the digits of `s` spells. */
  function Spell(s: string, acc: nat): nat
    requires AllDigits(s)
    decreases |s|
  {
    if |s| == 0 then acc else Spell(s[1..], acc * 10 + DigitValue(s[0]))
  }

  /** The number an all-digit string spells. */
  function DigitsValue(s: string): nat
    requires AllDigits(s)
  {
    Spell(s, 0)
  }

  /** The outcome of the digit loop: a syntax error, a range error, or a
      number. */
  datatype Scan = Syntax | Range | Num(n: nat)

  /** `ParseUint`'s loop for base 10 over `s` with accumulator `acc` and
      bound `maxVal`: a non-digit is a syntax error; a value that reaches
      the cut-off (`MaxUint64 / 10 + 1`) before a multiplication, or
      exceeds `maxVal` after an added digit, is a range error at once. */
  function ScanDigits(s: string, acc: nat, maxVal: nat): Scan
    decreases |s|
  {
    if |s| == 0 then Num(acc)
    else if !IsDigit(s[0]) then Syntax
    else if acc >= MaxUint64 / 10 + 1 then Range
    else
      var next := acc * 10 + DigitValue(s[0]);
      if next > maxVal then Range else ScanDigits(s[1..], next, maxVal)
  }

  /** `strconv.ParseUint(s, 10, bits)` for the bound `maxVal`. */
  function ParseUint(s: string, maxVal: nat): Scan
  {
    if s == "" then Syntax else ScanDigits(s, 0, maxVal)
  }

  // ---------------------------------------------------------------------
  // What the loop computes
  // ---------------------------------------------------------------------

  /** Appending digits never makes a number smaller. */
  lemma {:induction false} SpellGrows(s: string, acc: nat)
    requires AllDigits(s)
    ensures Spell(s, acc) >= acc
    ensures |s| > 0 ==> Spell(s, acc) >= acc * 10
    decreases |s|
  {
    if |s| > 0 {
      SpellGrows(s[1..], acc * 10 + DigitValue(s[0]));
    }
  }

  /** On all-digit text the loop answers the number spelled when it fits
      the bound and a range error when it does not; the early exits never
      change that answer. */
  lemma {:induction false} ScanDigitsSpells(s: string, acc: nat, maxVal: nat)
    requires AllDigits(s) && acc <= maxVal <= MaxUint64
    ensures ScanDigits(s, acc, maxVal) == if Spell(s, acc) <= maxVal then Num(Spell(s, acc)) else Range
    decreases |s|
  {
    if |s| > 0 {
      var next := acc * 10 + DigitValue(s[0]);
      SpellGrows(s, acc);
      SpellGrows(s[1..], next);
      if acc < MaxUint64 / 10 + 1 && next <= maxVal {
        ScanDigitsSpells(s[1..], next, maxVal);
      }
    }
  }

  /** Text with a non-digit is a syntax error unless a range error comes
      first. */
  lemma {:induction false} ScanDigitsNonDigit(s: string, acc: nat, maxVal: nat)
    requires !AllDigits(s)
    ensures !ScanDigits(s, acc, maxVal).Num?
    decreases |s|
  {
    if IsDigit(s[0]) {
      assert !AllDigits(s[1..]) by {
        var i :| 0 <= i < |s| && !IsDigit(s[i]);
        assert s[1..][i - 1] == s[i];
      }
      var next := acc * 10 + DigitValue(s[0]);
      if acc < MaxUint64 / 10 + 1 && next <= maxVal {
        ScanDigitsNonDigit(s[1..], next, maxVal);
      }
    }
  }

  /** The two lemmas above, by case. */
  lemma ScanAnswer(s: string, acc: nat, maxVal: nat)
    requires acc <= maxVal <= MaxUint64
    ensures AllDigits(s) ==>
              ScanDigits(s, acc, maxVal) == if Spell(s, acc) <= maxVal then Num(Spell(s, acc)) else Range
    ensures !AllDigits(s) ==> !ScanDigits(s, acc, maxVal).Num?
  {
    if AllDigits(s) {
      ScanDigitsSpells(s, acc, maxVal);
    } else {
      ScanDigitsNonDigit(s, acc, maxVal);
    }
  }

  /** `ParseUint(s, 10, 32)`, as the handlers use it for ids: the number, or
      `None` on a syntax or range error (both answer 400). */
  function ParseUint32(s: string): (r: Option<nat>)
    ensures r.Some? <==> s != "" && AllDigits(s) && DigitsValue(s) <= MaxUint32
    ensures r.Some? ==> r.value == DigitsValue(s) && r.value <= MaxUint32
  {
    ScanAnswer(s, 0, MaxUint32);
    match ParseUint(s, MaxUint32)
    case Num(n) => Some(n)
    case _ => None
  }

  // ---------------------------------------------------------------------
  // Atoi
  // ---------------------------------------------------------------------

  /** The digits after an optional sign. */
  function Unsigned(s: string): string
  {
    if |s| > 0 && (s[0] == '-' || s[0] == '+') then s[1..] else s
  }

  predicate IsNegative(s: string) { |s| > 0 && s[0] == '-' }

  /** Whether `s` is an optional sign followed by at least one digit. */
  predicate WellFormed(s: string)
  {
    Unsigned(s) != "" && AllDigits(Unsigned(s))
  }

  /** The value a well-formed `s` spells, sign included. */
  function SignedValue(s: string): int
    requires WellFormed(s)
  {
    if IsNegative(s) then -(DigitsValue(Unsigned(s)) as int) else DigitsValue(Unsigned(s))
  }

  /** `strconv.Atoi`: the value and whether the error was nil.  Malformed
      text gives 0; a value outside the 64-bit range is clamped to the
      nearer bound and reported as an error. */
  function Atoi(s: string): (r: (int, bool))
    ensures IsInt64(r.0)
    ensures r.1 <==> WellFormed(s) && IsInt64(SignedValue(s))
    ensures r.1 ==> r.0 == SignedValue(s)
    ensures !WellFormed(s) ==> r.0 == 0 || r.0 == MaxInt64 || r.0 == MinInt64
    ensures WellFormed(s) && SignedValue(s) > MaxInt64 ==> r.0 == MaxInt64
    ensures WellFormed(s) && SignedValue(s) < MinInt64 ==> r.0 == MinInt64
  {
    var neg := IsNegative(s);
    var body := Unsigned(s);
    if s == "" || body == "" then (0, false)
    else
      ScanAnswer(body, 0, MaxUint64);
      match ScanDigits(body, 0, MaxUint64)
      case Syntax => (0, false)
      case Range => (if neg then MinInt64 else MaxInt64, false)
      case Num(un) =>
        if !neg && un > MaxInt64 then (MaxInt64, false)
        else if neg && un > -MinInt64 then (MinInt64, false)
        else (if neg then -(un as int) else un as int, true)
  }

  // ---------------------------------------------------------------------
  // Round trips with the decimal rendering
  // ---------------------------------------------------------------------

  lemma {:induction false} NatToStringDigits(n: nat)
    ensures AllDigits(NatToString(n))
    decreases n
  {
    if n >= 10 {
      NatToStringDigits(n / 10);
    }
  }

  /** One more digit at the end multiplies by ten and adds it. */
  lemma {:induction false} SpellSnoc(s: string, c: char, acc: nat)
    requires AllDigits(s) && IsDigit(c)
    ensures AllDigits(s + [c])
    ensures Spell(s + [c], acc) == Spell(s, acc) * 10 + DigitValue(c)
    decreases |s|
  {
    if |s| > 0 {
      assert (s + [c])[1..] == s[1..] + [c];
      SpellSnoc(s[1..], c, acc * 10 + DigitValue(s[0]));
    }
  }

  /** The decimal rendering of `n` spells `n`. */
  lemma {:induction false} SpellNatToString(n: nat)
    ensures AllDigits(NatToString(n))
    ensures DigitsValue(NatToString(n)) == n
    decreases n
  {
    NatToStringDigits(n);
    if n >= 10 {
      SpellNatToString(n / 10);
      var c := DigitChar(n % 10);
      assert IsDigit(c) && DigitValue(c) == n % 10;
      SpellSnoc(NatToString(n / 10), c, 0);
    } else {
      var c := DigitChar(n);
      assert IsDigit(c) && DigitValue(c) == n;
      assert [c][1..] == [];
      assert Spell([c], 0) == Spell([], n);
    }
  }

  /** An id rendered in decimal parses back to itself. */
  lemma ParseUint32NatToString(n: nat)
    requires n <= MaxUint32
    ensures ParseUint32(NatToString(n)) == Some(n)
  {
    SpellNatToString(n);
  }

  /** Decimal rendering of a Go `int`, with a minus sign when negative. */
  function IntToString(n: int): (r: string)
    ensures |r| >= 1
  {
    if n < 0 then "-" + NatToString(-n) else NatToString(n)
  }

  /** Every 64-bit integer rendered in decimal parses back to itself. */
  lemma AtoiIntToString(n: int)
    requires IsInt64(n)
    ensures Atoi(IntToString(n)) == (n, true)
  {
    var s := IntToString(n);
    if n < 0 {
      assert Unsigned(s) == NatToString(-n);
      SpellNatToString(-n);
    } else {
      SpellNatToString(n);
      assert Unsigned(s) == s;
    }
  }

  /** The handlers' default query values parse as expected. */
  lemma DefaultsParse()
    ensures Atoi("1") == (1, true)
    ensures Atoi("10") == (10, true)
    ensures Atoi("20") == (20, true)
  {
    AtoiIntToString(1);
    assert IntToString(1) == "1";
    AtoiIntToString(10);
    assert IntToString(10) == "10";
    AtoiIntToString(20);
    assert IntToString(20) == "20";
  }

  /** Text that is not a plain unsigned decimal is no id. */
  lemma RejectedIds()
    ensures ParseUint32("") == None
    ensures ParseUint32("-1") == None
    ensures ParseUint32("+7") == None
    ensures ParseUint32("abc") == None
  {
    assert !IsDigit("-1"[0]);
    assert !IsDigit("+7"[0]);
    assert !IsDigit("abc"[0]);
  }
}
