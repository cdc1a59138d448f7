/** The loosely typed records the store persists: what `JSON.parse` can give back.
    A record (document) is a map from field name to value; a field that is absent
    is what JavaScript reads as `undefined`. */
module JsValues {

  datatype Option<+T> = None | Some(value: T)

  /** A JSON value. Numbers are modelled as integers: every number the core
      stores is a millisecond timestamp or a counter. */
  datatype Value =
    | Null
    | Bool(b: bool)
    | Num(n: int)
    | Str(s: string)
    | Arr(items: seq<Value>)
    | Obj(fields: map<string, Value>)
  {
    predicate IsPrimitive() { !Arr? && !Obj? }
  }

  type Doc = map<string, Value>

  /** `doc.key`: `None` stands for `undefined`. */
  function Field(d: Doc, key: string): (r: Option<Value>)
    ensures r.Some? <==> key in d
    ensures r.Some? ==> r.value == d[key]
  {
    if key in d then Some(d[key]) else None
  }

  /** JavaScript truthiness of a field value (`if (x)`, `!x`, `x || y`). */
  predicate Truthy(v: Option<Value>)
  {
    match v
    case None => false
    case Some(Null) => false
    case Some(Bool(b)) => b
    case Some(Num(n)) => n != 0
    case Some(Str(s)) => s != ""
    case Some(Arr(_)) => true
    case Some(Obj(_)) => true
  }

  /** `a === b` (and `includes`' SameValueZero) on two field values. Arrays and
      objects are compared by reference, and every read of the store parses a
      fresh copy, so two of them are never identical. */
  predicate SameValue(a: Option<Value>, b: Option<Value>)
  {
    a == b && (a.None? || a.value.IsPrimitive())
  }

  /** `x.field === "text"` for a string literal or a string argument. */
  predicate FieldIs(d: Doc, key: string, text: string)
  {
    Field(d, key) == Some(Str(text))
  }

  /** `===` is symmetric and transitive but, unlike `==`, not reflexive: an
      array or object read from the store is never identical to itself. */
  lemma SameValueLaws(a: Option<Value>, b: Option<Value>, c: Option<Value>)
    ensures SameValue(a, b) ==> SameValue(b, a)
    ensures SameValue(a, b) && SameValue(b, c) ==> SameValue(a, c)
    ensures SameValue(a, a) <==> a.None? || (!a.value.Arr? && !a.value.Obj?)
  {
  }

  /** The falsy values are exactly `undefined`, `null`, `false`, `0` and `""`. */
  lemma FalsyValues(v: Option<Value>)
    ensures !Truthy(v) <==>
      v == None || v == Some(Null) || v == Some(Bool(false)) || v == Some(Num(0)) || v == Some(Str(""))
  {
  }

  /** `String.prototype.includes`: `needle` occurs as a contiguous part of `hay`. */
  predicate IsSubstring(needle: string, hay: string)
    decreases |hay|
  {
    |needle| <= |hay| && (hay[..|needle|] == needle || IsSubstring(needle, hay[1..]))
  }

  /** `needle` occurs in `hay` starting at offset `i`. */
  predicate OccursAt(needle: string, hay: string, i: int)
  {
    0 <= i && i + |needle| <= |hay| && hay[i..i + |needle|] == needle
  }

  /** `includes` finds `needle` exactly when it occurs at some offset of `hay`. */
  lemma {:induction false} IsSubstringAt(needle: string, hay: string)
    ensures IsSubstring(needle, hay) <==> exists i :: OccursAt(needle, hay, i)
    decreases |hay|
  {
    var n := |needle|;
    if n <= |hay| && hay[..n] == needle {
      assert OccursAt(needle, hay, 0);
    } else if n < |hay| {
      IsSubstringAt(needle, hay[1..]);
      if exists i :: OccursAt(needle, hay, i) {
        var i :| OccursAt(needle, hay, i);
        assert i != 0;
        assert hay[1..][i - 1..i - 1 + n] == hay[i..i + n];
        assert OccursAt(needle, hay[1..], i - 1);
      }
      if IsSubstring(needle, hay[1..]) {
        var i :| OccursAt(needle, hay[1..], i);
        assert hay[1..][i..i + n] == hay[i + 1..i + 1 + n];
        assert OccursAt(needle, hay, i + 1);
      }
    }
  }

  function DigitChar(d: nat): (c: char)
    requires d < 10
    ensures '0' <= c <= '9'
  {
    "0123456789"[d]
  }

  function DigitValue(c: char): (d: nat)
    requires IsDigit(c)
    ensures d < 10 && DigitChar(d) == c
  {
    if c == '0' then 0 else if c == '1' then 1 else if c == '2' then 2
    else if c == '3' then 3 else if c == '4' then 4 else if c == '5' then 5
    else if c == '6' then 6 else if c == '7' then 7 else if c == '8' then 8 else 9
  }

  predicate IsDigit(c: char) { '0' <= c <= '9' }

  /** How JavaScript writes a non-negative integer into a string
      (`'user' + Date.now()`, `${minutes}`). */
  function DecimalString(n: nat): (s: string)
    ensures |s| >= 1
    ensures forall i :: 0 <= i < |s| ==> IsDigit(s[i])
    ensures s[0] == '0' ==> n == 0
  {
    if n < 10 then [DigitChar(n)] else DecimalString(n / 10) + [DigitChar(n % 10)]
  }

  /** The value of a string of decimal digits: the inverse of `DecimalString`. */
  function DecimalValue(s: string): nat
    requires forall i :: 0 <= i < |s| ==> IsDigit(s[i])
  {
    if s == [] then 0 else DecimalValue(s[..|s| - 1]) * 10 + DigitValue(s[|s| - 1])
  }

  lemma {:induction false} DecimalRoundTrip(n: nat)
    ensures DecimalValue(DecimalString(n)) == n
  {
    var s := DecimalString(n);
    var q, r := n / 10, n % 10;
    if n >= 10 {
      DecimalRoundTrip(q);
      assert s == DecimalString(q) + [DigitChar(r)];
      assert s[..|s| - 1] == DecimalString(q) && s[|s| - 1] == DigitChar(r);
      assert DigitValue(DigitChar(r)) == r;
      assert n == q * 10 + r;
    } else {
      assert DigitValue(DigitChar(n)) == n;
    }
  }

  /** Different numbers give different strings: generated ids built from
      different clock readings differ. */
  lemma DecimalStringInjective(m: nat, n: nat)
    requires DecimalString(m) == DecimalString(n)
    ensures m == n
  {
    DecimalRoundTrip(m);
    DecimalRoundTrip(n);
  }
}
