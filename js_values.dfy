/** The JavaScript values a form or a request body can carry, as far as the
    recipe schemas look at them, and the String(value) conversion the
    ingredient preprocessing applies. */
module JsValues {
  import opened JsStrings

  /** A JavaScript number. Doubles are not modelled bit for bit: a number is
      integer-valued, or it is not (a fraction or an infinity, known by its
      String() rendering such as "1.5" or "-Infinity"), or it is NaN. */
  datatype Number =
    | Int(i: int)
    | NonInteger(text: string)
    | NaN
  {
    /** Whether the number is below zero (NaN is not). */
    predicate IsNegative() {
      match this
      case Int(i) => i < 0
      case NonInteger(text) => |text| > 0 && text[0] == '-'
      case NaN => false
    }
  }

  /** A JavaScript value: undefined, null, a boolean, a number, a string, an
      array or a plain object. A key an object does not have reads as
      Undefined. */
  datatype Value =
    | Undefined
    | Null
    | Bool(b: bool)
    | Num(n: Number)
    | Str(s: string)
    | Arr(items: seq<Value>)
    | Obj(fields: map<string, Value>)

  /** obj[key]. */
  function Get(obj: map<string, Value>, key: string): Value {
    if key in obj then obj[key] else Undefined
  }

  /** String(n). Integers render in decimal (JavaScript switches to
      exponent notation from 1e21 on, which is not modelled). */
  function NumberToString(n: Number): (r: string)
    ensures n.Int? && n.i >= 0 ==> IsDecimal(r) && DecimalValue(r) == n.i
    ensures n.Int? && n.i < 0 ==> |r| > 1 && r[0] == '-' && IsDecimal(r[1..]) && DecimalValue(r[1..]) == -n.i
    ensures n.NaN? ==> r == "NaN"
  {
    match n
    case Int(i) => IntToString(i)
    case NonInteger(text) => text
    case NaN => "NaN"
  }

  /** String(v): an array renders as its elements joined by commas, with
      undefined and null elements rendered as nothing; a plain object renders
      as "[object Object]". */
  function ToJsString(v: Value): (r: string)
    ensures v.Undefined? ==> r == "undefined"
    ensures v.Str? ==> r == v.s
    ensures v.Arr? && |v.items| == 0 ==> r == ""
  {
    match v
    case Undefined => "undefined"
    case Null => "null"
    case Bool(b) => if b then "true" else "false"
    case Num(n) => NumberToString(n)
    case Str(s) => s
    case Arr(items) =>
      if |items| == 0 then ""
      else Join(seq(|items|, k requires 0 <= k < |items| =>
                      if items[k].Undefined? || items[k].Null? then "" else ToJsString(items[k])), ',')
    case Obj(_) => "[object Object]"
  }

  /** The texts of an array of strings. */
  function Texts(items: seq<Value>): (texts: seq<string>)
    requires forall k :: 0 <= k < |items| ==> items[k].Str?
    ensures |texts| == |items|
    ensures forall k :: 0 <= k < |items| ==> items[k] == Str(texts[k])
  {
    seq(|items|, k requires 0 <= k < |items| => items[k].s)
  }

  /** String() of a non-empty array of strings none of which holds a comma
      splits on ',' back into those strings: the rendering loses nothing. */
  lemma {:induction false} StringOfStringsSplits(items: seq<Value>)
    requires |items| > 0
    requires forall k :: 0 <= k < |items| ==> items[k].Str? && ',' !in items[k].s
    ensures Split(ToJsString(Arr(items)), ',') == Texts(items)
  {
    var texts := Texts(items);
    var rendered := seq(|items|, k requires 0 <= k < |items| =>
                          if items[k].Undefined? || items[k].Null? then "" else ToJsString(items[k]));
    assert rendered == texts;
    SplitJoin(texts, ',');
  }
}
