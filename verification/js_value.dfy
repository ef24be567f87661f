/** The slice of JavaScript value semantics the token record relies on: JSON
    values, truthiness (`!v`, `v || d`), property reads (`v?.key`), the
    conversions `String(v)` and `Number(v)`, the `+` operator with a number on
    its left, and object spread (`{...v}`).

    Numbers are exact integers: the record only ever holds whole seconds. */
module JsValue {
  import opened Wrappers

  /** A JSON value as `JSON.parse` or `r.json()` produces it. */
  datatype Value =
    | Null
    | Bool(b: bool)
    | Num(n: int)
    | Str(s: string)
    | Arr(items: seq<Value>)
    | Obj(fields: map<string, Value>)

  /** JavaScript truthiness: `!v` is `!Truthy(v)`. */
  predicate Truthy(v: Value) {
    match v
    case Null => false
    case Bool(b) => b
    case Num(n) => n != 0
    case Str(s) => s != ""
    case Arr(_) => true
    case Obj(_) => true
  }

  /** Truthiness of a property read, where `None` stands for `undefined`. */
  predicate TruthyField(o: Option<Value>) {
    o.Some? && Truthy(o.value)
  }

  /** `v?.key` for a data key such as `access_token`: an object's own
      property, and `undefined` for every other value (null, numbers,
      strings and arrays have no such property). */
  function Get(v: Value, key: string): Option<Value> {
    if v.Obj? && key in v.fields then Some(v.fields[key]) else None
  }

  // ---- Decimal digits ---------------------------------------------------------

  predicate AllDigits(s: string) {
    forall i :: 0 <= i < |s| ==> '0' <= s[i] <= '9'
  }

  function DigitChar(d: int): char
    requires 0 <= d < 10
  {
    ('0' as int + d) as char
  }

  function DigitValue(c: char): int {
    c as int - '0' as int
  }

  /** The shortest decimal numeral of a natural number. */
  function Digits(n: nat): (r: string)
    ensures |r| > 0 && AllDigits(r)
    ensures n >= 10 ==> |r| > 1
  {
    if n < 10 then [DigitChar(n)] else Digits(n / 10) + [DigitChar(n % 10)]
  }

  /** The value of a numeral, leading zeros allowed. */
  function Val(s: string): nat
    requires AllDigits(s)
  {
    if |s| == 0 then 0 else Val(s[..|s| - 1]) * 10 + DigitValue(s[|s| - 1])
  }

  function Pow10(k: nat): nat {
    if k == 0 then 1 else 10 * Pow10(k - 1)
  }

  /** `String(n)` for an integer (JavaScript's exponent form for magnitudes of
      10^21 and more is not modelled). */
  function Decimal(n: int): string {
    if n < 0 then "-" + Digits(-n) else Digits(n)
  }

  lemma {:induction false} ValOfDigits(n: nat)
    ensures Val(Digits(n)) == n
  {
    if n >= 10 {
      var s := Digits(n);
      assert s[..|s| - 1] == Digits(n / 10);
      ValOfDigits(n / 10);
    }
  }

  /** Reading a numeral written as two pieces. */
  lemma {:induction false} ValOfConcat(a: string, b: string)
    requires AllDigits(a) && AllDigits(b)
    ensures AllDigits(a + b)
    ensures Val(a + b) == Val(a) * Pow10(|b|) + Val(b)
    decreases |b|
  {
    if |b| == 0 {
      assert a + b == a;
    } else {
      var b' := b[..|b| - 1];
      var d := DigitValue(b[|b| - 1]);
      var p := Pow10(|b'|);
      ValOfConcat(a, b');
      assert (a + b)[..|a + b| - 1] == a + b';
      assert (a + b)[|a + b| - 1] == b[|b| - 1];
      assert Val(a + b) == Val(a + b') * 10 + d;
      assert Val(b) == Val(b') * 10 + d;
      assert Pow10(|b|) == 10 * p;
      assert (Val(a) * p) * 10 == Val(a) * (10 * p);
    }
  }

  lemma DigitsInjective(i: nat, j: nat)
    requires Digits(i) == Digits(j)
    ensures i == j
  {
    ValOfDigits(i);
    ValOfDigits(j);
  }

  // ---- Conversions -------------------------------------------------------------

  /** A JavaScript number: an integer or NaN. */
  datatype Number = NaN | Int(i: int)

  /** `Number(s)` for a string: "" is 0, an optionally signed run of decimal
      digits is its value, anything else is NaN. */
  function StringToNumber(s: string): Number {
    if |s| == 0 then Int(0)
    else if s[0] == '-' && |s| > 1 && AllDigits(s[1..]) then Int(-(Val(s[1..]) as int))
    else if s[0] == '+' && |s| > 1 && AllDigits(s[1..]) then Int(Val(s[1..]))
    else if AllDigits(s) then Int(Val(s))
    else NaN
  }

  /** `String(v)`, also what a template literal and `URLSearchParams` do to a
      value; an array joins its elements with commas, null elements as "". */
  function JsString(v: Value): string {
    match v
    case Null => "null"
    case Bool(b) => if b then "true" else "false"
    case Num(n) => Decimal(n)
    case Str(s) => s
    case Arr(items) =>
      JoinWithCommas(seq(|items|, i requires 0 <= i < |items| =>
                           if items[i].Null? then "" else JsString(items[i])))
    case Obj(_) => "[object Object]"
  }

  function JoinWithCommas(parts: seq<string>): string {
    if |parts| == 0 then ""
    else if |parts| == 1 then parts[0]
    else JoinWithCommas(parts[..|parts| - 1]) + "," + parts[|parts| - 1]
  }

  /** `String(v)` of a property read; `undefined` prints as "undefined". */
  function JsStringOf(o: Option<Value>): string {
    if o.Some? then JsString(o.value) else "undefined"
  }

  /** `Number(v)`; an array converts through its string form. */
  function JsNumber(v: Value): Number {
    match v
    case Null => Int(0)
    case Bool(b) => Int(if b then 1 else 0)
    case Num(n) => Int(n)
    case Str(s) => StringToNumber(s)
    case Arr(_) => StringToNumber(JsString(v))
    case Obj(_) => NaN
  }

  /** `Number(v)` of a property read; `Number(undefined)` is NaN. */
  function JsNumberOf(o: Option<Value>): Number {
    if o.Some? then JsNumber(o.value) else NaN
  }

  /** Printing an integer and reading it back gives the integer. */
  lemma DecimalRoundTrip(n: int)
    ensures StringToNumber(Decimal(n)) == Int(n)
  {
    if n < 0 {
      var s := Decimal(n);
      assert s[1..] == Digits(-n);
      ValOfDigits(-n);
    } else {
      ValOfDigits(n);
    }
  }

  /** `n + v` under JavaScript's `+` with a number on the left: `v` is first
      made primitive; a string primitive makes the sum a concatenation with
      the number's numeral, any other primitive is added as a number. */
  function AddToNumber(n: int, v: Value): (r: Value)
    ensures r.Str? <==> v.Str? || v.Arr? || v.Obj?
    ensures r.Str? ==> r.s == Decimal(n) + JsString(v)
    ensures !(v.Str? || v.Arr? || v.Obj?) ==> r.Num?
    ensures r.Num? ==> JsNumber(v).Int? && r.n == n + JsNumber(v).i
  {
    match v
    case Null => Num(n)
    case Bool(b) => Num(if b then n + 1 else n)
    case Num(m) => Num(n + m)
    case Str(_) => Str(Decimal(n) + JsString(v))
    case Arr(_) => Str(Decimal(n) + JsString(v))
    case Obj(_) => Str(Decimal(n) + JsString(v))
  }

  // ---- Object spread -----------------------------------------------------------

  /** The own enumerable properties `{...v}` copies: an object's fields, the
      numbered positions of an array or a string, nothing for null, booleans
      and numbers. */
  function Spread(v: Value): (r: map<string, Value>)
    ensures v.Obj? ==> r == v.fields
    ensures v.Arr? ==> forall i :: 0 <= i < |v.items| ==> Digits(i) in r && r[Digits(i)] == v.items[i]
    ensures v.Str? ==> forall i :: 0 <= i < |v.s| ==> Digits(i) in r && r[Digits(i)] == Str([v.s[i]])
    ensures v.Arr? ==> forall k :: k in r ==> exists i :: 0 <= i < |v.items| && k == Digits(i)
    ensures v.Str? ==> forall k :: k in r ==> exists i :: 0 <= i < |v.s| && k == Digits(i)
    ensures v.Null? || v.Bool? || v.Num? ==> r == map[]
  {
    match v
    case Obj(fields) => fields
    case Arr(items) => Indexed(items)
    case Str(s) => Indexed(seq(|s|, i requires 0 <= i < |s| => Str([s[i]])))
    case _ => map[]
  }

  /** The object whose key "i" holds the i-th element. */
  function Indexed(xs: seq<Value>): (r: map<string, Value>)
    ensures forall i :: 0 <= i < |xs| ==> Digits(i) in r && r[Digits(i)] == xs[i]
    ensures forall k :: k in r ==> exists i :: 0 <= i < |xs| && k == Digits(i)
  {
    if |xs| == 0 then map[]
    else
      var prefix := Indexed(xs[..|xs| - 1]);
      var last := |xs| - 1;
      assert forall i :: 0 <= i < last ==> Digits(i) != Digits(last) by {
        forall i | 0 <= i < last
          ensures Digits(i) != Digits(last)
        {
          if Digits(i) == Digits(last) {
            DigitsInjective(i, last);
          }
        }
      }
      prefix[Digits(last) := xs[last]]
  }
}
