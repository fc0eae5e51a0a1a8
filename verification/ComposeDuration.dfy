/** Compose durations. The expression is `(\d+(?:\.\d+)?)(us|ms|s|m|h)`, matched over and over; sums are exact here. */
module ComposeDuration {
  import opened Sequences
  import opened Json
  import opened ComposeText

  predicate IsDigit(c: char) { '0' <= c <= '9' }

  function Digits(s: string): (n: nat)
    ensures n <= |s| && (forall i | 0 <= i < n :: IsDigit(s[i])) && (n < |s| ==> !IsDigit(s[n]))
  {
    if s == "" || !IsDigit(s[0]) then 0 else 1 + Digits(s[1..])
  }

  function DigitValue(c: char): int { c as int - '0' as int }

  /** The value of a run of digits. */
  function Whole(digits: string): int {
    if digits == "" then 0 else 10 * Whole(digits[..|digits| - 1]) + DigitValue(digits[|digits| - 1])
  }

  /** The value of a run of digits after the point. */
  function Fraction(digits: string): real {
    if digits == "" then 0.0 else (DigitValue(digits[0]) as real + Fraction(digits[1..])) / 10.0
  }

  datatype Unit = Microseconds | Milliseconds | Seconds | Minutes | Hours

  function UnitText(u: Unit): string {
    match u
    case Microseconds => "us"
    case Milliseconds => "ms"
    case Seconds => "s"
    case Minutes => "m"
    case Hours => "h"
  }

  function UnitMs(u: Unit): real {
    match u
    case Microseconds => 0.001
    case Milliseconds => 1.0
    case Seconds => 1000.0
    case Minutes => 60000.0
    case Hours => 3600000.0
  }

  /** The first alternative that fits. */
  function MatchUnit(s: string): (r: Option<Unit>)
    ensures r.Some? ==> UnitText(r.value) <= s
  {
    if "us" <= s then Some(Microseconds)
    else if "ms" <= s then Some(Milliseconds)
    else if "s" <= s then Some(Seconds)
    else if "m" <= s then Some(Minutes)
    else if "h" <= s then Some(Hours)
    else None
  }

  datatype Term = Term(whole: string, fraction: string, unit: Unit)

  function TermMs(t: Term): real { (Whole(t.whole) as real + Fraction(t.fraction)) * UnitMs(t.unit) }

  function TermText(t: Term, rest: string): string {
    t.whole + ((if t.fraction == "" then "" else ".") + (t.fraction + (UnitText(t.unit) + rest)))
  }

  /** One match at the front of `s`, with what follows it. Giving digits back never helps: a digit is no unit. */
  function MatchTerm(s: string): (r: Option<(Term, string)>)
    ensures r.Some? ==> |r.value.1| < |s|
  {
    var n := Digits(s);
    var after := s[n..];
    var m := if after != "" && after[0] == '.' then Digits(after[1..]) else 0;
    var fraction := if m > 0 then after[1..][..m] else "";
    var tail := if m > 0 then after[1..][m..] else after;
    if n == 0 then None
    else match MatchUnit(tail)
         case None => None
         case Some(u) => Some((Term(s[..n], fraction, u), tail[|UnitText(u)|..]))
  }

  /** The next match anywhere in `s`. */
  function NextTerm(s: string): (r: Option<(Term, string)>)
    ensures r.Some? ==> |r.value.1| < |s|
  {
    if MatchTerm(s).Some? then MatchTerm(s) else if s == "" then None else NextTerm(s[1..])
  }

  function Terms(s: string): seq<Term>
    decreases |s|
  {
    match NextTerm(s) case None => [] case Some((t, rest)) => [t] + Terms(rest)
  }

  function Sum(terms: seq<Term>): real { if terms == [] then 0.0 else TermMs(terms[0]) + Sum(terms[1..]) }

  /** `Math.round`: halves go up. */
  function Round(x: real): int { (x + 0.5).Floor }

  function Duration(rt: Runtime, v: Json): Option<int> {
    match v
    case Num(x) => Some(Round(x * 1000.0))
    case Str(s) =>
      if Terms(s) != [] then Some(Round(Sum(Terms(s))))
      else (match rt.parse(s) case None => None case Some(x) => Some(Round(x * 1000.0)))
    case _ => None
  }

  lemma {:induction false} SumAppend(terms: seq<Term>, t: Term)
    ensures Sum(terms + [t]) == Sum(terms) + TermMs(t)
  {
    if terms != [] {
      assert (terms + [t])[1..] == terms[1..] + [t];
      SumAppend(terms[1..], t);
    }
  }

  lemma SumOfNothing()
    ensures Sum([]) == 0.0
  {
  }

  method ParseComposeDuration(rt: Runtime, value: Json) returns (ms: Option<int>)
    ensures ms == Duration(rt, value)
  {
    hide NextTerm, MatchTerm, Sum, TermMs, Round;
    SumOfNothing();
    if value.Num? { return Some(Round(value.number * 1000.0)); }
    if !value.Str? { return None; }
    var total, matched, rest := 0.0, false, value.text;
    ghost var seen: seq<Term> := [];
    var next := NextTerm(rest);
    while next.Some?
      invariant next == NextTerm(rest)
      invariant Terms(value.text) == seen + Terms(rest) && total == Sum(seen) && matched == (seen != [])
      decreases |rest|
    {
      var (term, tail) := next.value;
      SumAppend(seen, term);
      assert seen + ([term] + Terms(tail)) == seen + [term] + Terms(tail);
      seen := seen + [term];
      matched, total, rest := true, total + TermMs(term), tail;
      next := NextTerm(rest);
    }
    assert seen + [] == seen;
    if !matched {
      var n := rt.parse(value.text);
      return if n.Some? then Some(Round(n.value * 1000.0)) else None;
    }
    ms := Some(Round(total));
  }

  // Reading back what was written

  predicate AllDigits(s: string) { forall i | 0 <= i < |s| :: IsDigit(s[i]) }
  predicate TermOk(t: Term) { t.whole != "" && AllDigits(t.whole) && AllDigits(t.fraction) }

  function Written(terms: seq<Term>): string { if terms == [] then "" else TermText(terms[0], Written(terms[1..])) }

  lemma {:induction false} DigitsThen(digits: string, rest: string)
    requires AllDigits(digits) && (rest == "" || !IsDigit(rest[0]))
    ensures Digits(digits + rest) == |digits|
  {
    if digits == "" {
      assert digits + rest == rest;
    } else {
      assert (digits + rest)[1..] == digits[1..] + rest;
      DigitsThen(digits[1..], rest);
    }
  }

  /** No unit continues into a digit, so the text of a unit is read as that unit. */
  lemma UnitThen(u: Unit, rest: string)
    requires rest == "" || IsDigit(rest[0])
    ensures MatchUnit(UnitText(u) + rest) == Some(u) && (UnitText(u) + rest)[|UnitText(u)|..] == rest
    ensures (UnitText(u) + rest)[0] != '.' && !IsDigit((UnitText(u) + rest)[0])
  {
    var s := UnitText(u) + rest;
    assert UnitText(u) <= s;
    assert s[0] == UnitText(u)[0];
    if u.Minutes? && rest != "" { assert s[1] == rest[0]; }
    if u.Microseconds? || u.Milliseconds? { assert s[1] == 's'; }
  }

  lemma TermThen(t: Term, rest: string)
    requires TermOk(t) && (rest == "" || IsDigit(rest[0]))
    ensures MatchTerm(TermText(t, rest)) == Some((t, rest))
  {
    var s, tail := TermText(t, rest), UnitText(t.unit) + rest;
    var after := (if t.fraction == "" then "" else ".") + (t.fraction + tail);
    UnitThen(t.unit, rest);
    if t.fraction == "" {
      assert after == tail;
    } else {
      assert after[0] == '.' && after[1..] == t.fraction + tail;
      DigitsThen(t.fraction, tail);
    }
    DigitsThen(t.whole, after);
    assert s[..|t.whole|] == t.whole && s[|t.whole|..] == after;
  }

  lemma {:induction false} WrittenTerms(terms: seq<Term>)
    requires forall i | 0 <= i < |terms| :: TermOk(terms[i])
    ensures Terms(Written(terms)) == terms
    ensures Written(terms) == "" || IsDigit(Written(terms)[0])
  {
    if terms != [] {
      WrittenTerms(terms[1..]);
      TermThen(terms[0], Written(terms[1..]));
    }
  }

  /** A written duration is read as the sum of its terms, whatever number of digits, fractions and units it has. */
  lemma WrittenDuration(rt: Runtime, terms: seq<Term>)
    requires terms != [] && forall i | 0 <= i < |terms| :: TermOk(terms[i])
    ensures Duration(rt, Str(Written(terms))) == Some(Round(Sum(terms)))
  {
    hide Terms, Sum, Round, Written, TermOk;
    WrittenTerms(terms);
  }

  /** Rounding goes to the nearest whole number, halves upwards. */
  lemma RoundIsNearest(x: real)
    ensures x - 0.5 < Round(x) as real <= x + 0.5
  {
  }

  /** A whole number of any unit is as long as so many seconds as the unit has; a bare number counts seconds. */
  lemma UnitsInSeconds(rt: Runtime, digits: string, unit: Unit)
    requires digits != "" && AllDigits(digits)
    ensures var seconds := match unit
        case Hours => 3600.0 case Minutes => 60.0 case Seconds => 1.0
        case Milliseconds => 0.001 case Microseconds => 0.000001;
      Duration(rt, Str(digits + UnitText(unit))) == Duration(rt, Num(Whole(digits) as real * seconds))
  {
    hide Terms, Round, Written, Whole;
    var t := Term(digits, "", unit);
    OneTerm(t);
    WrittenDuration(rt, [t]);
  }

  lemma OneTerm(t: Term)
    requires t.fraction == ""
    ensures Written([t]) == t.whole + UnitText(t.unit) && Sum([t]) == Whole(t.whole) as real * UnitMs(t.unit)
  {
    assert [t][1..] == [];
    assert UnitText(t.unit) + "" == UnitText(t.unit) && "" + UnitText(t.unit) == UnitText(t.unit);
  }
}
