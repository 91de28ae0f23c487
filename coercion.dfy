/**
 * The cell converters the row decoder applies to every JSON string cell:
 * `clean_string` (delete every ASCII space), `parse_u64` / `parse_i64`
 * (delete every ',' then parse with Rust's `from_str`).
 */
module Coercion {
  import opened Wrappers
  import opened Decimal

  const U64_MAX: int := 0xFFFF_FFFF_FFFF_FFFF
  const I64_MAX: int := 0x7FFF_FFFF_FFFF_FFFF
  const I64_MIN: int := -0x8000_0000_0000_0000

  type U64 = x: int | 0 <= x <= U64_MAX
  type I64 = x: int | I64_MIN <= x <= I64_MAX

  /** The kinds of Rust's `ParseIntError`. */
  datatype IntErrorKind = Empty | InvalidDigit | PosOverflow | NegOverflow

  /** `s.replace(x, "")` for a one-character pattern: every occurrence of x deleted. */
  function Remove(s: string, x: char): string {
    if |s| == 0 then [] else (if s[0] == x then [] else [s[0]]) + Remove(s[1..], x)
  }

  /** Remove leaves no x and keeps every other character, each as often as before. */
  lemma {:induction false} RemoveSpec(s: string, x: char)
    ensures x !in Remove(s, x)
    ensures multiset(Remove(s, x)) == multiset(s)[x := 0]
    ensures x !in s ==> Remove(s, x) == s
  {
    if |s| > 0 {
      var head: string := if s[0] == x then [] else [s[0]];
      RemoveSpec(s[1..], x);
      assert s == [s[0]] + s[1..];
      assert Remove(s, x) == head + Remove(s[1..], x);
      assert multiset(Remove(s, x)) == multiset(head) + multiset(Remove(s[1..], x));
    }
  }

  /** Deleting distributes over concatenation, so the characters kept stay in their order. */
  lemma {:induction false} RemoveAppend(a: string, b: string, x: char)
    ensures Remove(a + b, x) == Remove(a, x) + Remove(b, x)
  {
    if |a| > 0 {
      assert (a + b)[1..] == a[1..] + b;
      RemoveAppend(a[1..], b, x);
    } else {
      assert a + b == b;
    }
  }

  /** `clean_string`: the cell with every ' ' removed. */
  function CleanString(s: string): (r: string)
    ensures ' ' !in r
    ensures multiset(r) == multiset(s)[' ' := 0]
    ensures ' ' !in s ==> r == s
  {
    RemoveSpec(s, ' ');
    Remove(s, ' ')
  }

  /** Cleaning twice is cleaning once. */
  lemma CleanStringIdempotent(s: string)
    ensures CleanString(CleanString(s)) == CleanString(s)
  {
  }

  /** Cleaning keeps every other character in its order: it works piece by piece. */
  lemma {:induction false} CleanStringConcat(a: string, b: string)
    ensures CleanString(a + b) == CleanString(a) + CleanString(b)
  {
    RemoveAppend(a, b, ' ');
  }

  /** The digit loop of Rust's `from_str_radix` for radix 10: reads digits[i..] onto acc,
      failing at the first non-digit or as soon as the value passes limit. */
  function Accumulate(digits: string, i: nat, acc: nat, limit: nat, overflow: IntErrorKind)
    : Result<nat, IntErrorKind>
    requires i <= |digits|
    decreases |digits| - i
  {
    if i == |digits| then Ok(acc)
    else if !IsDigit(digits[i]) then Err(InvalidDigit)
    else
      var next := acc * 10 + DigitValue(digits[i]);
      if next > limit then Err(overflow) else Accumulate(digits, i + 1, next, limit, overflow)
  }

  lemma {:induction false} PrefixValueBound(s: string, i: nat)
    requires i <= |s| && AllDigits(s)
    ensures AllDigits(s[..i]) && ValueOf(s[..i]) <= ValueOf(s)
  {
    var p, q := s[..i], s[i..];
    assert AllDigits(p) && AllDigits(q);
    assert p + q == s;
    ValueOfAppend(p, q);
    NoLessThanMultiple(ValueOf(p), Pow10(|q|));
  }

  lemma NoLessThanMultiple(x: nat, k: nat)
    requires k >= 1
    ensures x <= x * k
  {
  }

  /** The digit loop succeeds exactly on an all-digit string whose value fits the limit. */
  lemma {:induction false} AccumulateCorrect(digits: string, i: nat, limit: nat, overflow: IntErrorKind)
    requires i <= |digits| && AllDigits(digits[..i]) && ValueOf(digits[..i]) <= limit
    ensures var r := Accumulate(digits, i, ValueOf(digits[..i]), limit, overflow);
      && (r.Ok? <==> AllDigits(digits) && ValueOf(digits) <= limit)
      && (r.Ok? ==> r.value == ValueOf(digits))
      && (r.Err? ==> r.error == InvalidDigit || r.error == overflow)
      && (AllDigits(digits) && ValueOf(digits) > limit ==> r == Err(overflow))
    decreases |digits| - i
  {
    if i == |digits| {
      assert digits[..i] == digits;
    } else if IsDigit(digits[i]) {
      var prefix := digits[..i + 1];
      assert prefix[..i] == digits[..i];
      assert AllDigits(prefix);
      var next := ValueOf(digits[..i]) * 10 + DigitValue(digits[i]);
      assert next == ValueOf(prefix);
      if next > limit {
        if AllDigits(digits) {
          PrefixValueBound(digits, i + 1);
        }
      } else {
        AccumulateCorrect(digits, i + 1, limit, overflow);
      }
    }
  }

  /** The first character that breaks the literal decides the error, whatever follows
      it: a non-digit reached while the value still fits gives InvalidDigit, and a
      digit that pushes the value past the limit gives the overflow kind. */
  lemma {:induction false} AccumulateFirstBad(digits: string, i: nat, j: nat, limit: nat, overflow: IntErrorKind)
    requires i <= j <= |digits| && AllDigits(digits[..j]) && AllDigits(digits[..i])
    requires ValueOf(digits[..i]) <= limit
    ensures ValueOf(digits[..j]) > limit
      ==> Accumulate(digits, i, ValueOf(digits[..i]), limit, overflow) == Err(overflow)
    ensures j < |digits| && !IsDigit(digits[j]) && ValueOf(digits[..j]) <= limit
      ==> Accumulate(digits, i, ValueOf(digits[..i]), limit, overflow) == Err(InvalidDigit)
    decreases j - i
  {
    if i < j {
      assert digits[..j][i] == digits[i];
      var prefix := digits[..i + 1];
      assert prefix[..i] == digits[..i];
      assert AllDigits(prefix);
      var next := ValueOf(digits[..i]) * 10 + DigitValue(digits[i]);
      assert next == ValueOf(prefix);
      if next > limit {
        PrefixValueBound(digits[..j], i + 1);
        assert digits[..j][..i + 1] == prefix;
      } else {
        AccumulateFirstBad(digits, i + 1, j, limit, overflow);
      }
    } else {
      assert digits[..i] == digits[..j];
    }
  }

  /** What follows the optional leading '+' of an unsigned literal. */
  function UnsignedBody(s: string): string {
    if |s| > 0 && s[0] == '+' then s[1..] else s
  }

  /** What follows the optional leading '+' or '-' of a signed literal. */
  function SignedBody(s: string): string {
    if |s| > 0 && (s[0] == '+' || s[0] == '-') then s[1..] else s
  }

  predicate IsNegativeLiteral(s: string) {
    |s| > 0 && s[0] == '-'
  }

  /** s is an optional sign and one or more digits whose signed value is an i64. */
  predicate SignedLiteralFits(s: string) {
    var body := SignedBody(s);
    && |body| > 0 && AllDigits(body)
    && (if IsNegativeLiteral(s) then ValueOf(body) <= -I64_MIN else ValueOf(body) <= I64_MAX)
  }

  /** The signed value of an optional sign followed by digits. */
  function SignedLiteralValue(s: string): int
    requires AllDigits(SignedBody(s))
  {
    if IsNegativeLiteral(s) then -(ValueOf(SignedBody(s)) as int) else ValueOf(SignedBody(s))
  }

  /** Rust's `u64::from_str`: an optional '+', then one or more ASCII digits
      denoting at most U64_MAX. */
  function FromStrU64(s: string): (r: Result<U64, IntErrorKind>)
    ensures r.Ok? <==> |UnsignedBody(s)| > 0 && AllDigits(UnsignedBody(s)) && ValueOf(UnsignedBody(s)) <= U64_MAX
    ensures r.Ok? ==> r.value == ValueOf(UnsignedBody(s))
    ensures r == Err(Empty) <==> s == []
    ensures |UnsignedBody(s)| > 0 && AllDigits(UnsignedBody(s)) && ValueOf(UnsignedBody(s)) > U64_MAX
      ==> r == Err(PosOverflow)
    ensures r.Err? && s != [] ==> r.error == InvalidDigit || r.error == PosOverflow
  {
    if s == [] then Err(Empty)
    else if s == "+" || s == "-" then Err(InvalidDigit)
    else
      var digits := UnsignedBody(s);
      assert digits[..0] == [];
      AccumulateCorrect(digits, 0, U64_MAX, PosOverflow);
      match Accumulate(digits, 0, 0, U64_MAX, PosOverflow)
      case Ok(v) => Ok(v)
      case Err(e) => Err(e)
  }

  /** Rust's `i64::from_str`: an optional '+' or '-', then one or more ASCII digits
      whose signed value lies in [I64_MIN, I64_MAX]. */
  function FromStrI64(s: string): (r: Result<I64, IntErrorKind>)
    ensures r.Ok? <==> SignedLiteralFits(s)
    ensures r.Ok? ==> r.value == SignedLiteralValue(s)
    ensures r == Err(Empty) <==> s == []
    ensures r.Err? && s != [] ==> r.error == InvalidDigit || r.error == PosOverflow || r.error == NegOverflow
  {
    if s == [] then Err(Empty)
    else if s == "+" || s == "-" then Err(InvalidDigit)
    else
      var digits := SignedBody(s);
      assert digits[..0] == [];
      if IsNegativeLiteral(s) then
        AccumulateCorrect(digits, 0, -I64_MIN, NegOverflow);
        match Accumulate(digits, 0, 0, -I64_MIN, NegOverflow)
        case Ok(v) => Ok(-(v as int))
        case Err(e) => Err(e)
      else
        AccumulateCorrect(digits, 0, I64_MAX, PosOverflow);
        match Accumulate(digits, 0, 0, I64_MAX, PosOverflow)
        case Ok(v) => Ok(v)
        case Err(e) => Err(e)
  }

  /** For a u64, a run of j digits after the optional '+' settles the error: past
      U64_MAX it is PosOverflow, and a non-digit right after it is InvalidDigit. */
  lemma {:induction false} FromStrU64FirstBad(s: string, j: nat)
    requires j <= |UnsignedBody(s)| && AllDigits(UnsignedBody(s)[..j])
    ensures ValueOf(UnsignedBody(s)[..j]) > U64_MAX ==> FromStrU64(s) == Err(PosOverflow)
    ensures j < |UnsignedBody(s)| && !IsDigit(UnsignedBody(s)[j]) && ValueOf(UnsignedBody(s)[..j]) <= U64_MAX
      ==> FromStrU64(s) == Err(InvalidDigit)
  {
    var digits := UnsignedBody(s);
    if s != [] && s != "+" && s != "-" {
      assert digits[..0] == [];
      AccumulateFirstBad(digits, 0, j, U64_MAX, PosOverflow);
    } else if s == "-" {
      assert digits[..j] == [];
    } else {
      assert digits == [];
    }
  }

  /** For an i64 the same holds with the limit and the overflow kind of the sign:
      2^63 and NegOverflow after '-', I64_MAX and PosOverflow otherwise. */
  lemma {:induction false} FromStrI64FirstBad(s: string, j: nat)
    requires j <= |SignedBody(s)| && AllDigits(SignedBody(s)[..j])
    ensures IsNegativeLiteral(s) && ValueOf(SignedBody(s)[..j]) > -I64_MIN ==> FromStrI64(s) == Err(NegOverflow)
    ensures !IsNegativeLiteral(s) && ValueOf(SignedBody(s)[..j]) > I64_MAX ==> FromStrI64(s) == Err(PosOverflow)
    ensures j < |SignedBody(s)| && !IsDigit(SignedBody(s)[j])
      && ValueOf(SignedBody(s)[..j]) <= (if IsNegativeLiteral(s) then -I64_MIN else I64_MAX)
      ==> FromStrI64(s) == Err(InvalidDigit)
  {
    var digits := SignedBody(s);
    if s != [] && s != "+" && s != "-" {
      assert digits[..0] == [];
      if IsNegativeLiteral(s) {
        AccumulateFirstBad(digits, 0, j, -I64_MIN, NegOverflow);
      } else {
        AccumulateFirstBad(digits, 0, j, I64_MAX, PosOverflow);
      }
    } else {
      assert digits == [];
    }
  }

  /** `parse_u64`: delete every ',' and parse the rest as a u64. */
  function ParseU64(cell: string): (r: Result<U64, IntErrorKind>)
    ensures var t := Remove(cell, ',');
      && (r.Ok? <==> |UnsignedBody(t)| > 0 && AllDigits(UnsignedBody(t)) && ValueOf(UnsignedBody(t)) <= U64_MAX)
      && (r.Ok? ==> r.value == ValueOf(UnsignedBody(t)))
      && (r == Err(Empty) <==> t == [])
  {
    FromStrU64(Remove(cell, ','))
  }

  /** `parse_i64`: delete every ',' and parse the rest as an i64. */
  function ParseI64(cell: string): (r: Result<I64, IntErrorKind>)
    ensures var t := Remove(cell, ',');
      && (r.Ok? <==> SignedLiteralFits(t))
      && (r.Ok? ==> r.value == SignedLiteralValue(t))
      && (r == Err(Empty) <==> t == [])
  {
    FromStrI64(Remove(cell, ','))
  }

  lemma {:induction false} DigitsHaveNoSeparator(s: string)
    requires AllDigits(s)
    ensures ',' !in s && ' ' !in s && '-' !in s
  {
  }

  /** Deleting the separators from a grouped rendering leaves the plain digits of n. */
  lemma {:induction false} UngroupedDigits(n: nat)
    ensures var t := Remove(Grouped(n), ',');
      |t| >= 1 && AllDigits(t) && ValueOf(t) == n
  {
    if n < 1000 {
      DigitsHaveNoSeparator(Digits(n));
      RemoveSpec(Digits(n), ',');
    } else {
      var head := Grouped(n / 1000);
      var tail := FixedDigits(n % 1000, 3);
      UngroupedDigits(n / 1000);
      var t := Remove(head, ',');
      DigitsHaveNoSeparator(tail);
      RemovedAround(head, tail);
      assert Remove(Grouped(n), ',') == t + tail;
      assert ValueOf(tail) == n % 1000 by {
        assert Pow10(3) == 1000;
      }
      ValueOfAppend(t, tail);
      assert Pow10(|tail|) == 1000;
    }
  }

  lemma {:induction false} RemovedAround(head: string, tail: string)
    requires ',' !in tail
    ensures Remove(head + "," + tail, ',') == Remove(head, ',') + tail
  {
    RemoveAppend(head + ",", tail, ',');
    RemoveAppend(head, ",", ',');
    RemoveSingle(',', ',');
    RemoveSpec(tail, ',');
  }

  lemma RemoveSingle(c: char, x: char)
    ensures Remove([c], x) == if c == x then [] else [c]
  {
    assert [c][1..] == [];
  }

  /** An amount rendered with ',' thousands separators, and a leading '-' when negative. */
  function SignedGrouped(n: int): (s: string)
    ensures (n < 0) == IsNegativeLiteral(s)
  {
    if n < 0 then "-" + Grouped(-n) else Grouped(n)
  }

  /** Round trip: `parse_u64` reads back every u64 written with thousands separators. */
  lemma {:induction false} ParseU64Grouped(n: nat)
    requires n <= U64_MAX
    ensures ParseU64(Grouped(n)) == Ok(n)
  {
    UngroupedDigits(n);
  }

  /** Round trip: `parse_i64` reads back every i64 written with thousands separators and sign. */
  lemma {:induction false} ParseI64Grouped(n: int)
    requires I64_MIN <= n <= I64_MAX
    ensures ParseI64(SignedGrouped(n)) == Ok(n)
  {
    var t := Remove(SignedGrouped(n), ',');
    if n < 0 {
      RemovedSign(-n, t);
    } else {
      UngroupedDigits(n);
      assert IsDigit(t[0]);
    }
  }

  /** Deleting separators from a negative rendering keeps its sign in front of the digits of m. */
  lemma {:induction false} RemovedSign(m: nat, t: string)
    requires m > 0 && t == Remove(SignedGrouped(-(m as int)), ',')
    ensures IsNegativeLiteral(t) && AllDigits(SignedBody(t)) && |SignedBody(t)| >= 1
    ensures ValueOf(SignedBody(t)) == m
  {
    var digits := Remove(Grouped(m), ',');
    UngroupedDigits(m);
    RemoveAppend("-", Grouped(m), ',');
    RemoveSingle('-', ',');
    assert t == "-" + digits;
    assert SignedBody(t) == digits;
  }

  /** `parse_u64` rejects a negative amount at its sign. */
  lemma {:induction false} ParseU64RejectsNegative(n: int)
    requires n < 0
    ensures ParseU64(SignedGrouped(n)) == Err(InvalidDigit)
  {
    RemovedSign(-n, Remove(SignedGrouped(n), ','));
  }
}
