/**
 * The slice of JavaScript's value semantics the core depends on: parsed
 * JSON and environment values, truthiness (`if (x)`, `a || b`), nullish
 * coalescing (`a ?? b`), optional property access (`a?.b`), `String(x)`,
 * `Number(x)` and object spread (`{ ...a, ...b }`).
 */
module JsValue {
  import opened Strings

  /** A JavaScript value.  Numbers are integers or NaN; objects are property maps. */
  datatype JsVal =
    | Undefined
    | Null
    | Bool(b: bool)
    | Num(n: int)
    | NaN
    | Str(s: string)
    | Arr(elems: seq<JsVal>)
    | Obj(props: map<string, JsVal>)

  /** `Boolean(v)`: false exactly for undefined, null, false, 0, NaN and "". */
  predicate Truthy(v: JsVal) {
    match v
    case Undefined => false
    case Null => false
    case Bool(b) => b
    case Num(n) => n != 0
    case NaN => false
    case Str(s) => s != ""
    case Arr(_) => true
    case Obj(_) => true
  }

  /** `a || b` */
  function Or(a: JsVal, b: JsVal): (r: JsVal)
    ensures Truthy(a) ==> r == a
    ensures !Truthy(a) ==> r == b
  {
    if Truthy(a) then a else b
  }

  /** `a ?? b` */
  function Nullish(a: JsVal, b: JsVal): (r: JsVal)
    ensures r == (if a == Undefined || a == Null then b else a)
  {
    if a.Undefined? || a.Null? then b else a
  }

  /** `v?.[key]`: an own property of an object, undefined for anything else. */
  function Get(v: JsVal, key: string): JsVal {
    if v.Obj? && key in v.props then v.props[key] else Undefined
  }

  /** `String(v)`. */
  function ToStr(v: JsVal): string
    decreases v
  {
    match v
    case Undefined => "undefined"
    case Null => "null"
    case Bool(b) => if b then "true" else "false"
    case Num(n) => IntToString(n)
    case NaN => "NaN"
    case Str(s) => s
    case Arr(es) =>
      // Array.prototype.toString: elements joined by ",", null and undefined as ""
      Join(seq(|es|, i requires 0 <= i < |es| =>
             if es[i].Undefined? || es[i].Null? then "" else ToStr(es[i])), ',')
    case Obj(_) => "[object Object]"
  }

  /** `Number(s)` for a string: "" is 0, integer literals are read, anything else is NaN. */
  function StringToNumber(s: string): (r: JsVal)
    ensures r.Num? || r.NaN?
  {
    if s == "" then Num(0)
    else match ParseInt(s)
      case Some(n) => Num(n)
      case None => NaN
  }

  /** `Number(v)`; arrays and objects go through their string form, as JavaScript does. */
  function ToNumber(v: JsVal): (r: JsVal)
    ensures r.Num? || r.NaN?
  {
    match v
    case Undefined => NaN
    case Null => Num(0)
    case Bool(b) => Num(if b then 1 else 0)
    case Num(n) => Num(n)
    case NaN => NaN
    case Str(s) => StringToNumber(s)
    case Arr(_) => StringToNumber(ToStr(v))
    case Obj(_) => StringToNumber(ToStr(v))
  }

  /** `{ ...target, ...src }`: the own properties of an object source overwrite those of the target. */
  function Spread(target: map<string, JsVal>, src: JsVal): (r: map<string, JsVal>)
    ensures src.Obj? ==> r.Keys == target.Keys + src.props.Keys
    ensures forall k :: k in r && src.Obj? && k in src.props ==> r[k] == src.props[k]
    ensures forall k :: k in target && !(src.Obj? && k in src.props) ==> k in r && r[k] == target[k]
  {
    if src.Obj? then target + src.props else target
  }

  /** The process environment: variable names to their string values. */
  type Env = map<string, string>

  /** `process.env[key]`: undefined when the variable is not set. */
  function EnvVal(env: Env, key: string): JsVal {
    if key in env then Str(env[key]) else Undefined
  }

  /** `process.env[key] || ''`. */
  function EnvStr(env: Env, key: string): string {
    if key in env then env[key] else ""
  }

  /** Rendering an integer and reading it back gives the integer. */
  lemma NumberOfString(n: int)
    ensures ToNumber(Str(ToStr(Num(n)))) == Num(n)
  {
    ParseIntToString(n);
  }
}
