/** The few JavaScript value semantics the leads page relies on: the values a
    fetched lead record can hold, truthiness, property lookup on a record,
    `Array.prototype.slice`, and the decimal rendering of a number inside a
    template literal. */
module JsValues {

  datatype Option<T> = None | Some(value: T) {
    function GetOr(default: T): T {
      match this
      case Some(v) => v
      case None => default
    }
  }

  /** A JSON value as it arrives in a lead record. Numbers are integers here. */
  datatype JsValue = Undefined | Null | Bool(b: bool) | Num(n: int) | Str(s: string)

  /** The falsy values among them: undefined, null, false, 0 and the empty string. */
  predicate Falsy(v: JsValue)
    ensures Falsy(v) <==> v in {Undefined, Null, Bool(false), Num(0), Str("")}
  {
    match v
    case Undefined => true
    case Null => true
    case Bool(b) => !b
    case Num(n) => n == 0
    case Str(s) => s == ""
  }

  /** A lead record: field name to value. */
  type Lead = map<string, JsValue>

  /** `lead[name]`: a field the record lacks reads as undefined. */
  function Field(lead: Lead, name: string): JsValue {
    if name in lead then lead[name] else Undefined
  }

  function Min(a: int, b: int): int { if a <= b then a else b }

  /** How `slice` normalises one bound: a negative bound counts back from the
      end, and the result is clamped into [0, len]. */
  function SliceBound(k: int, len: nat): (r: nat)
    ensures r <= len
    ensures k >= 0 ==> r == Min(k, len)
    ensures k < 0 ==> r == if len + k < 0 then 0 else len + k
  {
    if k < 0 then (if len + k < 0 then 0 else len + k)
    else if k > len then len
    else k
  }

  /** `s.slice(begin, end)`. */
  function Slice<T>(s: seq<T>, begin: int, end: int): (r: seq<T>)
    ensures |r| <= |s|
    ensures 0 <= begin <= end ==> r == s[Min(begin, |s|)..Min(end, |s|)]
    ensures 0 <= end <= begin ==> r == []
  {
    var from, to := SliceBound(begin, |s|), SliceBound(end, |s|);
    if from < to then s[from..to] else []
  }

  predicate IsDigit(c: char) { '0' <= c <= '9' }

  predicate AllDigits(s: string) {
    forall i :: 0 <= i < |s| ==> IsDigit(s[i])
  }

  function DigitChar(d: nat): (c: char)
    requires d < 10
    ensures IsDigit(c) && DigitValue(c) == d
  {
    (d + '0' as int) as char
  }

  /** The decimal text of a non-negative number, as a template literal renders it. */
  function NatToString(n: nat): (r: string)
    ensures |r| >= 1
    ensures AllDigits(r)
    ensures |r| > 1 ==> r[0] != '0'
    decreases n
  {
    if n < 10 then [DigitChar(n)] else NatToString(n / 10) + [DigitChar(n % 10)]
  }

  function DigitValue(c: char): nat
    requires IsDigit(c)
  {
    c as int - '0' as int
  }

  /** The number a string of decimal digits denotes. */
  function DigitsValue(s: string): nat
    requires AllDigits(s)
  {
    if s == [] then 0
    else DigitsValue(s[..|s| - 1]) * 10 + DigitValue(s[|s| - 1])
  }

  /** Reading the digits back gives the number: the rendering loses nothing. */
  lemma {:induction false} NatToStringValue(n: nat)
    ensures DigitsValue(NatToString(n)) == n
    decreases n
  {
    var r := NatToString(n);
    if n >= 10 {
      NatToStringValue(n / 10);
      assert r[..|r| - 1] == NatToString(n / 10);
    }
  }

  /** Appending a decimal digit: division by ten takes it off again. */
  lemma DivModTen(q: nat, d: nat)
    requires d < 10
    ensures (q * 10 + d) / 10 == q && (q * 10 + d) % 10 == d
  {
  }

  /** The first digit's value is a lower bound of a digit string's value. */
  lemma {:induction false} LeadingDigitBound(s: string)
    requires |s| >= 1 && AllDigits(s)
    ensures DigitsValue(s) >= DigitValue(s[0])
  {
    if |s| > 1 {
      LeadingDigitBound(s[..|s| - 1]);
    }
  }

  /** A digit string without a leading zero is the text of the number it
      reads back as: NatToString is the only such rendering. */
  lemma {:induction false} CanonicalDigits(s: string)
    requires |s| >= 1 && AllDigits(s) && (|s| > 1 ==> s[0] != '0')
    ensures s == NatToString(DigitsValue(s))
  {
    var init, d := s[..|s| - 1], DigitValue(s[|s| - 1]);
    var n := DigitsValue(s);
    assert n == DigitsValue(init) * 10 + d;
    assert s == init + [DigitChar(d)];
    if |s| == 1 {
      assert init == [];
    } else {
      assert init[0] == s[0];
      LeadingDigitBound(init);
      CanonicalDigits(init);
      DivModTen(DigitsValue(init), d);
    }
  }

  lemma NatToStringInjective(m: nat, n: nat)
    requires NatToString(m) == NatToString(n)
    ensures m == n
  {
    NatToStringValue(m);
    NatToStringValue(n);
  }
}
