/**
 * The two shape tests of locFunc.ts: `LocalizeInfo.is` (a `{ key, comment }`
 * record) and `PackageJsonFormat.is` (the shape of a `package.nls.json`).
 */
module Validators {
  import opened Dicts
  import opened JsValues

  /** The outcome of evaluating a JavaScript boolean expression that may throw. */
  datatype Evaluation = Returns(b: bool) | ThrowsTypeError

  /** `items.every(element => Is.string(element))`. */
  predicate EveryString(items: seq<Value>)
  {
    items == [] || (IsString(items[0]) && EveryString(items[1..]))
  }

  lemma {:induction false} EveryStringIff(items: seq<Value>)
    ensures EveryString(items) <==> forall i :: 0 <= i < |items| ==> items[i].Str?
  {
    if items != [] {
      EveryStringIff(items[1..]);
      assert forall i :: 1 <= i < |items| ==> items[i] == items[1..][i - 1];
    }
  }

  /**
   * `LocalizeInfo.is` as written: `Is.defined(candidate)` lets `null` through,
   * and reading `candidate.key` on `null` then throws.
   */
  function LocalizeInfoIsAsWritten(value: Value): Evaluation
  {
    if !IsDefined(value) then Returns(false)
    else if value.Null? then ThrowsTypeError
    else
      var comment := Member(value, "comment");
      Returns(IsString(Member(value, "key")) && (IsUndef(comment) || (IsArray(comment) && EveryString(comment.items))))
  }

  /** The evaluation above throws on `null`. */
  lemma LocalizeInfoIsAsWrittenThrowsOnNull()
    ensures LocalizeInfoIsAsWritten(Null) == ThrowsTypeError
  {
  }

  /** `LocalizeInfo.is` as evidently intended: `null` is not a `LocalizeInfo`. */
  predicate LocalizeInfoIs(value: Value)
  {
    && IsDefined(value) && !value.Null?
    && IsString(Member(value, "key"))
    && var comment := Member(value, "comment");
       IsUndef(comment) || (IsArray(comment) && EveryString(comment.items))
  }

  /**
   * A `LocalizeInfo` is exactly an object with a string `key` whose `comment`
   * is missing or an array of strings; the corrected test agrees with the one
   * as written on every value except `null`, where only the latter throws.
   */
  lemma LocalizeInfoIsIff(value: Value)
    ensures LocalizeInfoIs(value) <==>
      && value.Obj?
      && Member(value, "key").Str?
      && (Member(value, "comment").Undefined?
          || (Member(value, "comment").Arr?
              && forall i :: 0 <= i < |Member(value, "comment").items| ==> Member(value, "comment").items[i].Str?))
    ensures value != Null ==> LocalizeInfoIsAsWritten(value) == Returns(LocalizeInfoIs(value))
    ensures value == Null <==> LocalizeInfoIsAsWritten(value) == ThrowsTypeError
  {
    var comment := Member(value, "comment");
    if comment.Arr? {
      EveryStringIff(comment.items);
    }
  }

  /** One value of a `package.nls.json`: a string, or an object with a defined `message` and `comment`. */
  predicate IsValueFormatEntry(element: Value)
  {
    IsString(element) || (IsObject(element) && IsDefined(Member(element, "message")) && IsDefined(Member(element, "comment")))
  }

  /** `keys.every(key => <entry test of value[key]>)`. */
  predicate EveryEntry(value: Value, keys: seq<string>)
  {
    keys == [] || (IsValueFormatEntry(Member(value, keys[0])) && EveryEntry(value, keys[1..]))
  }

  /** `PackageJsonFormat.is`. */
  predicate PackageJsonFormatIs(value: Value)
  {
    if IsUndef(value) || !IsObject(value) then false
    else EveryEntry(value, value.fields.keys)
  }

  lemma {:induction false} EveryEntryIff(value: Value, keys: seq<string>)
    ensures EveryEntry(value, keys) <==> forall k :: k in keys ==> IsValueFormatEntry(Member(value, k))
  {
    if keys != [] {
      EveryEntryIff(value, keys[1..]);
      assert forall k :: k in keys <==> k == keys[0] || k in keys[1..];
    }
  }

  /**
   * `PackageJsonFormat.is` is false for `undefined` and for everything that is
   * not a plain object (null, arrays, strings, numbers, booleans); for an
   * object it holds exactly when every own key holds a string or an object
   * with defined `message` and `comment`.
   */
  lemma PackageJsonFormatIsIff(value: Value)
    ensures !value.Obj? ==> !PackageJsonFormatIs(value)
    ensures value.Obj? ==>
      (PackageJsonFormatIs(value) <==> forall k :: k in value.fields.keys ==> IsValueFormatEntry(Member(value, k)))
  {
    if value.Obj? {
      EveryEntryIff(value, value.fields.keys);
    }
  }
}
