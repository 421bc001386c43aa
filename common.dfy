/** Vocabulary shared by every part of the model: optional values, the JSON
    values a request body can carry, first-match search over table rows and
    the digit handling the validators and formatters rely on. */
module Common {

  datatype Option<+T> = None | Some(value: T)

  /** A JSON value as a handler reads it with `data.get(...)`; `Null` is a
      missing key or an explicit `null`. */
  datatype Value = Null | Str(s: string) | Num(n: int)

  /** Python truthiness of a JSON value: `None`, `""` and `0` are false. */
  predicate Truthy(v: Value) {
    match v
    case Null => false
    case Str(s) => s != ""
    case Num(n) => n != 0
  }

  /** Truthiness of an optional text field. */
  predicate Given(o: Option<string>) {
    o.Some? && o.value != ""
  }

  /** Truthiness of an optional integer field. */
  predicate GivenNumber(o: Option<int>) {
    o.Some? && o.value != 0
  }

  /** Index of the first element satisfying `p`: what `fetchone()` returns
      from a query over rows kept in insertion order. */
  function FirstIndex<T>(s: seq<T>, p: T -> bool): (r: Option<nat>)
    ensures r.Some? ==> r.value < |s| && p(s[r.value])
    ensures r.Some? ==> forall i :: 0 <= i < r.value ==> !p(s[i])
    ensures r.None? ==> forall i :: 0 <= i < |s| ==> !p(s[i])
  {
    if s == [] then None
    else if p(s[0]) then Some(0)
    else match FirstIndex(s[1..], p)
      case None => None
      case Some(k) => Some(k + 1)
  }

  /** The elements of `s` satisfying `p`, in order (a `WHERE` clause). */
  function Filter<T>(s: seq<T>, p: T -> bool): (r: seq<T>)
    ensures |r| <= |s|
    ensures forall i :: 0 <= i < |r| ==> p(r[i])
    ensures forall i :: 0 <= i < |r| ==> r[i] in s
    ensures forall i :: 0 <= i < |s| && p(s[i]) ==> s[i] in r
  {
    if s == [] then []
    else if p(s[0]) then [s[0]] + Filter(s[1..], p)
    else Filter(s[1..], p)
  }

  lemma {:induction false} FilterAppend<T>(a: seq<T>, b: seq<T>, p: T -> bool)
    ensures Filter(a + b, p) == Filter(a, p) + Filter(b, p)
  {
    if a == [] {
      assert a + b == b;
    } else {
      assert (a + b)[1..] == a[1..] + b;
      FilterAppend(a[1..], b, p);
    }
  }

  /** Filtering a sequence extended by one element. */
  lemma FilterSnoc<T>(s: seq<T>, x: T, p: T -> bool)
    ensures Filter(s + [x], p) == Filter(s, p) + (if p(x) then [x] else [])
  {
    FilterAppend(s, [x], p);
    assert [x][1..] == [];
  }

  predicate IsDigit(c: char) {
    '0' <= c <= '9'
  }

  predicate AllDigits(s: string) {
    forall i :: 0 <= i < |s| ==> IsDigit(s[i])
  }

  /** `num == num[0] * len(num)`: every character equals the first. */
  predicate AllSame(s: string) {
    forall i :: 0 <= i < |s| ==> s[i] == s[0]
  }

  /** The digits of `s` in order: what `re.sub(r'\D', '', s)` keeps. */
  function Digits(s: string): (d: string)
    ensures AllDigits(d) && |d| <= |s|
    ensures AllDigits(s) ==> d == s
  {
    if s == [] then []
    else if IsDigit(s[0]) then [s[0]] + Digits(s[1..])
    else Digits(s[1..])
  }

  lemma {:induction false} DigitsAppend(a: string, b: string)
    ensures Digits(a + b) == Digits(a) + Digits(b)
  {
    if a == [] {
      assert a + b == b;
    } else {
      assert (a + b)[0] == a[0];
      assert (a + b)[1..] == a[1..] + b;
      DigitsAppend(a[1..], b);
    }
  }

  /** Characters that are not digits, such as the punctuation of a mask,
      leave the digits unchanged. */
  lemma {:induction false} DigitsSkip(x: string, p: string, y: string)
    requires forall i :: 0 <= i < |p| ==> !IsDigit(p[i])
    ensures Digits(x + p + y) == Digits(x) + Digits(y)
  {
    NoDigits(p);
    DigitsAppend(x, p);
    DigitsAppend(x + p, y);
  }

  lemma {:induction false} NoDigits(p: string)
    requires forall i :: 0 <= i < |p| ==> !IsDigit(p[i])
    ensures Digits(p) == []
  {
    if p != [] {
      NoDigits(p[1..]);
    }
  }

  /** `int(d)` for one decimal digit. */
  function DigitValue(c: char): (n: int)
    requires IsDigit(c)
    ensures 0 <= n <= 9
  {
    c as int - '0' as int
  }

  /** `str(n)` for a number below ten. */
  function DigitChar(n: int): (c: char)
    requires 0 <= n <= 9
    ensures IsDigit(c) && DigitValue(c) == n
  {
    ('0' as int + n) as char
  }
}
