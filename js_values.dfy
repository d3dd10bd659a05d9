/**
 * The values a JSON request body or a React state field can hold, with JavaScript's own
 * truthiness, `String(v)` and `Number(v)`. An object is its list of entries in key order, an
 * array its list of elements; non-integer numbers are not among the values.
 */
module JsValues {
  import opened Text

  datatype JsValue =
    | Undefined | Null | Bool(b: bool) | Num(n: int) | Str(s: string)
    | Obj(entries: seq<(string, JsValue)>) | Arr(items: seq<JsValue>)

  /** The entries of a plain object, in the order `Object.keys` lists them. */
  type Object = seq<(string, JsValue)>

  /** `o[key]`: the value of the first entry with that key, undefined when there is none. */
  function Prop(o: Object, key: string): JsValue
  {
    if o == [] then Undefined else if o[0].0 == key then o[0].1 else Prop(o[1..], key)
  }

  /** A defined value comes from an entry with that key; a key no entry has is undefined. */
  lemma {:induction false} PropShape(o: Object, key: string)
    ensures Prop(o, key) != Undefined ==> exists k | 0 <= k < |o| :: o[k] == (key, Prop(o, key))
    ensures (forall k | 0 <= k < |o| :: o[k].0 != key) ==> Prop(o, key) == Undefined
  {
    if o != [] && o[0].0 != key {
      PropShape(o[1..], key);
      if Prop(o, key) != Undefined {
        var k :| 0 <= k < |o[1..]| && o[1..][k] == (key, Prop(o, key));
        assert o[k + 1] == (key, Prop(o, key));
      }
    }
  }

  /** The value of a key is that of its first entry. */
  lemma {:induction false} PropAt(o: Object, i: nat)
    requires i < |o| && forall j | 0 <= j < i :: o[j].0 != o[i].0
    ensures Prop(o, o[i].0) == o[i].1
  {
    if i > 0 {
      PropAt(o[1..], i - 1);
    }
  }

  /** Adding a key the object does not have leaves every other key's value as it was. */
  lemma {:induction false} PropAppend(o: Object, key: string, v: JsValue, c: string)
    requires forall i | 0 <= i < |o| :: o[i].0 != key
    ensures Prop(o + [(key, v)], c) == if c == key && Prop(o, c) == Undefined then v else Prop(o, c)
  {
    if o != [] {
      assert (o + [(key, v)])[1..] == o[1..] + [(key, v)];
      PropAppend(o[1..], key, v, c);
    }
  }

  /** `Object.keys(o)`. */
  function Keys(o: Object): (ks: seq<string>)
    ensures |ks| == |o| && forall k | 0 <= k < |o| :: ks[k] == o[k].0
  {
    seq(|o|, k requires 0 <= k < |o| => o[k].0)
  }

  /** `o[key] = v`: an existing key keeps its place and takes the new value, a new key is appended. */
  function SetProp(o: Object, key: string, v: JsValue): (r: Object)
    ensures Prop(r, key) == v
    ensures forall k | k != key :: Prop(r, k) == Prop(o, k)
  {
    if o == [] then [(key, v)]
    else if o[0].0 == key then [(key, v)] + o[1..]
    else [o[0]] + SetProp(o[1..], key, v)
  }

  /** `{ ...a, ...b }`: the entries of b, in order, set over a copy of a. */
  function Spread(a: Object, b: Object): (r: Object)
    decreases |b|
  {
    if b == [] then a else Spread(SetProp(a, b[0].0, b[0].1), b[1..])
  }

  /** No key occurs twice, as in every object JavaScript builds. */
  predicate UniqueKeys(o: Object) {
    forall i, j | 0 <= i < j < |o| :: o[i].0 != o[j].0
  }

  /** A key the spread object lacks keeps the value it had. */
  lemma {:induction false} SpreadKeeps(a: Object, b: Object, k: string)
    requires k !in Keys(b)
    ensures Prop(Spread(a, b), k) == Prop(a, k)
    decreases |b|
  {
    if b != [] {
      assert Keys(b[1..]) == Keys(b)[1..];
      SpreadKeeps(SetProp(a, b[0].0, b[0].1), b[1..], k);
    }
  }

  /** A key the spread object has takes its value from there. */
  lemma {:induction false} SpreadOverrides(a: Object, b: Object, k: string)
    requires UniqueKeys(b) && k in Keys(b)
    ensures Prop(Spread(a, b), k) == Prop(b, k)
    decreases |b|
  {
    assert Keys(b[1..]) == Keys(b)[1..];
    assert UniqueKeys(b[1..]) by {
      forall i, j | 0 <= i < j < |b[1..]| ensures b[1..][i].0 != b[1..][j].0 {
        assert b[1..][i] == b[i + 1] && b[1..][j] == b[j + 1];
      }
    }
    if b[0].0 == k {
      assert k !in Keys(b[1..]) by {
        forall i | 0 <= i < |b[1..]| ensures b[1..][i].0 != k { assert b[1..][i] == b[i + 1]; }
      }
      SpreadKeeps(SetProp(a, k, b[0].1), b[1..], k);
    } else {
      SpreadOverrides(SetProp(a, b[0].0, b[0].1), b[1..], k);
    }
  }

  /** Every entry holds a defined value. */
  predicate AllDefined(o: Object) {
    forall k | 0 <= k < |o| :: o[k].1 != Undefined
  }

  /** Setting a defined value keeps every entry defined. */
  lemma {:induction false} SetPropDefined(o: Object, key: string, v: JsValue)
    requires AllDefined(o) && v != Undefined
    ensures AllDefined(SetProp(o, key, v))
  {
    if o != [] && o[0].0 != key {
      assert AllDefined(o[1..]) by {
        forall k | 0 <= k < |o[1..]| ensures o[1..][k].1 != Undefined { assert o[1..][k] == o[k + 1]; }
      }
      SetPropDefined(o[1..], key, v);
    }
  }

  /** The property of v, when v is an object; `undefined` for every other value. */
  function Field(v: JsValue, key: string): (r: JsValue)
  {
    if v.Obj? then Prop(v.entries, key) else Undefined
  }

  /**
   * `{ ...o, [outer]: { ...o[outer], [key]: value } }`: one key of a nested object is set. A
   * nested value that is not an object spreads as `{}`.
   */
  function SetNested(o: Object, outer: string, key: string, value: JsValue): Object {
    var current := Prop(o, outer);
    var entries := if current.Obj? then current.entries else [];
    Spread(o, [(outer, Obj(Spread(entries, [(key, value)])))])
  }

  /** The nested key takes the value; the nested object's other keys and the other outer keys stay. */
  lemma SetNestedOnlyThatKey(o: Object, outer: string, key: string, value: JsValue)
    ensures var nested := Prop(SetNested(o, outer, key, value), outer);
      && nested.Obj? && Prop(nested.entries, key) == value
      && (forall c | c != key :: Prop(nested.entries, c) == Field(Prop(o, outer), c))
    ensures forall s | s != outer :: Prop(SetNested(o, outer, key, value), s) == Prop(o, s)
  {
    var current := Prop(o, outer);
    var entries := if current.Obj? then current.entries else [];
    assert Spread(entries, [(key, value)]) == SetProp(entries, key, value);
    var inner := Obj(SetProp(entries, key, value));
    assert Spread(o, [(outer, inner)]) == SetProp(o, outer, inner);
  }

  /** `!!v`: false for undefined, null, false, 0 and the empty string. */
  predicate Truthy(v: JsValue) {
    match v
    case Undefined => false
    case Null => false
    case Bool(b) => b
    case Num(n) => n != 0
    case Str(s) => s != ""
    case Obj(_) => true
    case Arr(_) => true
  }

  function IntToString(n: int): (s: string) {
    if n < 0 then "-" + NatToString(-n) else NatToString(n)
  }

  /** `String(v)`. */
  function ToStr(v: JsValue): (s: string)
    decreases v, 1
  {
    if v.Str? then v.s else NonStringToStr(v)
  }

  /** `String(v)` for a value that is not a string; an array is its elements joined by ',', with '' for undefined and null. */
  function NonStringToStr(v: JsValue): (s: string)
    requires !v.Str?
    decreases v, 0
  {
    match v
    case Undefined => "undefined"
    case Null => "null"
    case Bool(b) => if b then "true" else "false"
    case Num(n) => IntToString(n)
    case Obj(_) => "[object Object]"
    case Arr(items) =>
      Join(seq(|items|, i requires 0 <= i < |items| =>
        if items[i].Undefined? || items[i].Null? then "" else ToStr(items[i])), ",")
  }

  /** `v || fallback`. */
  function Or(v: JsValue, fallback: JsValue): (r: JsValue)
    ensures Truthy(v) ==> r == v
    ensures !Truthy(v) ==> r == fallback
  {
    if Truthy(v) then v else fallback
  }

  /** A JavaScript number restricted to the integers, plus NaN. */
  datatype Number = NaN | Int(i: int)

  /** `Number(n)` is truthy: neither NaN nor zero. */
  predicate NumberTruthy(n: Number) {
    n.Int? && n.i != 0
  }

  /** `Number(s)` for a string: surrounding whitespace is ignored, the empty string is 0, and a
      decimal integer with an optional sign is its value; everything else is NaN here, including
      the notations `Number` also reads (a decimal point, an exponent, the 0x, 0b and 0o
      prefixes, and Infinity). */
  function StringToNumber(s: string): (r: Number)
    ensures Trim(s) == "" ==> r == Int(0)
    ensures r.NaN? <==> Trim(s) != "" && !SignedNumeral(Trim(s))
  {
    var t := Trim(s);
    if t == "" then Int(0)
    else if (t[0] == '-' || t[0] == '+') && |t| > 1 && AllDigits(t[1..]) then
      var magnitude: int := DigitsValue(t[1..]);
      Int(if t[0] == '-' then -magnitude else magnitude)
    else if AllDigits(t) then Int(DigitsValue(t))
    else NaN
  }

  /** A decimal integer with an optional sign and at least one digit. */
  predicate SignedNumeral(t: string) {
    if |t| > 0 && (t[0] == '-' || t[0] == '+') then |t| > 1 && AllDigits(t[1..])
    else |t| > 0 && AllDigits(t)
  }

  /** `Number(v)`. */
  function ToNumber(v: JsValue): (r: Number)
  {
    match v
    case Undefined => NaN
    case Null => Int(0)
    case Bool(b) => Int(if b then 1 else 0)
    case Num(n) => Int(n)
    case Str(s) => StringToNumber(s)
    case Obj(_) => NaN
    case Arr(_) => StringToNumber(ToStr(v))
  }

  lemma SignedDigitsHaveNoSpace(t: string)
    requires |t| > 0 && (t[0] == '-' || IsDigit(t[0])) && AllDigits(t[1..])
    ensures NoSpace(t)
  {
    forall k | 0 <= k < |t| ensures !IsSpace(t[k]) {
      if k > 0 { assert t[k] == t[1..][k - 1]; }
    }
  }

  /** `Number` ignores the whitespace around a text: the trimmed text reads the same. */
  lemma StringToNumberIgnoresSpace(s: string)
    ensures StringToNumber(Trim(s)) == StringToNumber(s)
  {
    TrimIdempotent(s);
  }

  /**
   * An id given as a number or as its decimal text reads as that number; text with spaces
   * around it too. A missing id is NaN, and null is 0.
   */
  lemma ToNumberOfId(n: int)
    ensures ToNumber(Num(n)) == Int(n)
    ensures ToNumber(Str(IntToString(n))) == Int(n)
    ensures ToNumber(Str(" " + IntToString(n) + " ")) == Int(n)
    ensures ToNumber(Undefined) == NaN && ToNumber(Null) == Int(0)
  {
    NumberOfIntToString(n);
    var t := IntToString(n);
    TrimOfPadded(t);
  }

  /** Printing an integer and converting it back with `Number` gives the integer. */
  lemma NumberOfIntToString(n: int)
    ensures StringToNumber(IntToString(n)) == Int(n)
    ensures IntToString(n) != "" && NoSpace(IntToString(n))
  {
    var m: nat := if n < 0 then -n else n;
    var d := NatToString(m);
    DigitsValueOfNatToString(m);
    var t := IntToString(n);
    if n < 0 {
      assert t[1..] == d;
    } else {
      assert t == d && AllDigits(t[1..]);
    }
    SignedDigitsHaveNoSpace(t);
    TrimOfNoSpace(t);
  }
}
