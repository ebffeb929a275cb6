/** The JavaScript values the extension handles: what the YAML decoder
    returns, what settings objects hold, and the three conversions the source
    applies to them (truthiness, property lookup, `String(v)`). */
module JsValue {
  import opened Wrappers
  import JsString

  /** A JavaScript value. Numbers are finite (`real`); objects are plain
      objects, keyed by property name. */
  datatype Value =
    | Undefined
    | Null
    | Bool(b: bool)
    | Num(n: real)
    | Str(s: string)
    | Array(items: seq<Value>)
    | Object(props: map<string, Value>)

  /** The host-provided conversions the model does not re-implement: the YAML
      1.2 decoder (`None` when it throws), `Number(s)` (`None` for `NaN`) and
      the decimal rendering used by `String(n)` for a number. */
  datatype Runtime = Runtime(
    decodeYaml: string -> Option<Value>,
    toNumber: string -> Option<real>,
    numberToString: real -> string)

  /** JavaScript truthiness. */
  predicate Truthy(v: Value) {
    match v
    case Undefined => false
    case Null => false
    case Bool(b) => b
    case Num(n) => n != 0.0
    case Str(s) => s != ""
    case Array(_) => true
    case Object(_) => true
  }

  /** The falsy values are exactly `undefined`, `null`, `false`, `0` and
      `''`; every array and object is truthy, even an empty one. */
  lemma FalsyValues(v: Value)
    ensures !Truthy(v) <==> v == Undefined || v == Null || v == Bool(false) || v == Num(0.0) || v == Str("")
  {
  }

  /** `v[key]` (and `v?.[key]`): an own property of a plain object, otherwise
      `undefined`. */
  function Get(v: Value, key: string): (r: Value)
    ensures v.Object? && key in v.props ==> r == v.props[key]
    ensures !(v.Object? && key in v.props) ==> r == Undefined
  {
    if v.Object? && key in v.props then v.props[key] else Undefined
  }

  /** `String(v)`. Inside an array, `undefined` and `null` elements render
      as the empty string, as `Array.prototype.join` does. */
  function ToStr(rt: Runtime, v: Value): (r: string)
    ensures v.Str? ==> r == v.s
    ensures v.Array? && |v.items| == 0 ==> r == ""
    ensures v.Array? && |v.items| == 1 && v.items[0].Str? ==> r == v.items[0].s
    decreases v, 1
  {
    match v
    case Undefined => "undefined"
    case Null => "null"
    case Bool(b) => if b then "true" else "false"
    case Num(n) => rt.numberToString(n)
    case Str(s) => s
    case Array(items) => JsString.Join(ItemStrs(rt, v, items), ",")
    case Object(_) => "[object Object]"
  }

  function ItemStrs(rt: Runtime, parent: Value, items: seq<Value>): (r: seq<string>)
    requires parent.Array? && items <= parent.items
    ensures |r| == |items|
    ensures forall k :: 0 <= k < |items| && (items[k].Undefined? || items[k].Null?) ==> r[k] == ""
    ensures forall k :: 0 <= k < |items| && items[k].Str? ==> r[k] == items[k].s
    decreases parent, 0, |items|
  {
    if |items| == 0 then []
    else
      var last := items[|items| - 1];
      assert last in parent.items;
      ItemStrs(rt, parent, items[..|items| - 1])
        + [if last.Undefined? || last.Null? then "" else ToStr(rt, last)]
  }

  /** An array of strings renders as the strings joined with commas. */
  lemma StringArrayToStr(rt: Runtime, ss: seq<string>)
    ensures ToStr(rt, Array(seq(|ss|, i requires 0 <= i < |ss| => Str(ss[i])))) == JsString.Join(ss, ",")
  {
    var v := Array(seq(|ss|, i requires 0 <= i < |ss| => Str(ss[i])));
    assert ItemStrs(rt, v, v.items) == ss;
  }

  /** A `null` element leaves an empty slot: `String(['a', null, 'b'])` is
      `'a,,b'`. */
  lemma NullElementRendersEmpty(rt: Runtime)
    ensures ToStr(rt, Array([Str("a"), Null, Str("b")])) == "a,,b"
  {
    var v := Array([Str("a"), Null, Str("b")]);
    var parts := ItemStrs(rt, v, v.items);
    assert parts == ["a", "", "b"];
    assert JsString.Join(parts[..2], ",") == "a,";
  }
}
