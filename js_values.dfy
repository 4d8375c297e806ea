/**
 * JSON and JavaScript values as locFunc.ts sees them, with the tests of the
 * `is` package it calls (`Is.defined`, `Is.undef`, `Is.string`, `Is.object`,
 * `Is.array`) and JavaScript truthiness.
 */
module JsValues {
  import opened Dicts

  datatype Option<T> = None | Some(value: T)
  {
    function GetOr(default: T): T
    {
      match this
      case Some(v) => v
      case None => default
    }
  }

  /** Numbers are integers here: the model has no floating point. */
  datatype Value =
    | Undefined
    | Null
    | Bool(b: bool)
    | Num(n: int)
    | Str(s: string)
    | Arr(items: seq<Value>)
    | Obj(fields: Dict<Value>)

  /** `Is.defined`: anything but `undefined`; `null` counts as defined. */
  predicate IsDefined(v: Value) { !v.Undefined? }

  /** `Is.undef`. */
  predicate IsUndef(v: Value) { v.Undefined? }

  /** `Is.string`. */
  predicate IsString(v: Value) { v.Str? }

  /** `Is.object`: a plain object only, so neither an array nor `null`. */
  predicate IsObject(v: Value) { v.Obj? }

  /** `Is.array`. */
  predicate IsArray(v: Value) { v.Arr? }

  /** The values an `if (v)` takes: all but undefined, null, false, 0 and "". */
  predicate Truthy(v: Value) {
    match v
    case Undefined => false
    case Null => false
    case Bool(b) => b
    case Num(n) => n != 0
    case Str(s) => s != ""
    case Arr(_) => true
    case Obj(_) => true
  }

  /** Reading `null` or `undefined` as an object throws a TypeError. */
  predicate Nullish(v: Value) { v.Undefined? || v.Null? }

  /**
   * Property read `v.name` / `v[name]` of an own data property; `undefined` when
   * there is none. The property names read in this model (`key`, `comment`,
   * `message`, `contents`) are not inherited members of strings, numbers,
   * booleans or arrays, so those read as `undefined`. The caller rules out
   * `Nullish(v)`, where JavaScript throws.
   */
  function Member(v: Value, name: string): Value
  {
    if v.Obj? && name in v.fields.values then v.fields.values[name] else Undefined
  }
}
