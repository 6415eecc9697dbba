/**
 * The slice of JavaScript value semantics the three route handlers rely on:
 * the values `request.json()` can produce (plus `undefined` for a missing
 * member), truthiness as used by `!x` and `x || y`, strict equality `===`,
 * member access, the `length` of strings and arrays, and object rest
 * destructuring (`const { k: _, ...rest } = o`).
 */
module Js {

  datatype Option<+T> = None | Some(value: T)

  /** The settled state of an awaited collaborator call. */
  datatype Outcome<+T> = Returned(value: T) | Threw

  /** An object's own members in insertion order. */
  type Entries = seq<(string, JsValue)>

  /**
   * A value as produced by JSON.parse, plus `undefined`. `Number` holds the
   * value a number literal denotes; rounding to a double, overflow to
   * Infinity and underflow to 0 are not modelled.
   */
  datatype JsValue =
    | Undefined
    | Null
    | Bool(b: bool)
    | Number(n: real)
    | Str(s: string)
    | Array(items: seq<JsValue>)
    | Object(entries: Entries)

  /** JavaScript truthiness: `undefined`, `null`, `false`, `0` and `""` are falsy. */
  predicate Truthy(v: JsValue) {
    match v
    case Undefined => false
    case Null => false
    case Bool(b) => b
    case Number(n) => n != 0.0
    case Str(s) => s != ""
    case Array(_) => true
    case Object(_) => true
  }

  lemma TruthyString(s: string)
    ensures Truthy(Str(s)) <==> |s| > 0
  {
  }

  /**
   * Strict equality `===` on the values a handler can compare. Arrays and
   * objects compare by identity; a value parsed from a request body is never
   * the same object as any other value, so they are never strictly equal here.
   */
  predicate StrictEquals(a: JsValue, b: JsValue) {
    match (a, b)
    case (Undefined, Undefined) => true
    case (Null, Null) => true
    case (Bool(x), Bool(y)) => x == y
    case (Number(x), Number(y)) => x == y
    case (Str(x), Str(y)) => x == y
    case _ => false
  }

  lemma StrictEqualsString(v: JsValue, s: string)
    ensures StrictEquals(v, Str(s)) <==> v == Str(s)
  {
  }

  /** Whether a key occurs among an object's members. */
  predicate HasKey(entries: Entries, key: string) {
    exists i :: 0 <= i < |entries| && entries[i].0 == key
  }

  /**
   * The value of member `key`. JSON.parse keeps the last of duplicate keys,
   * so the last entry with that key wins.
   */
  function Member(entries: Entries, key: string): (r: Option<JsValue>)
    ensures r.None? <==> !HasKey(entries, key)
    ensures r.Some? ==> exists i :: 0 <= i < |entries| && entries[i] == (key, r.value)
                                    && forall j :: i < j < |entries| ==> entries[j].0 != key
  {
    if |entries| == 0 then None
    else if entries[|entries| - 1].0 == key then
      assert entries[|entries| - 1] == (key, entries[|entries| - 1].1);
      Some(entries[|entries| - 1].1)
    else
      var r := Member(entries[..|entries| - 1], key);
      assert forall i :: 0 <= i < |entries| - 1 ==> entries[..|entries| - 1][i] == entries[i];
      r
  }

  /** Member access `v.key`: an object's own member, `undefined` otherwise. */
  function GetProperty(v: JsValue, key: string): (r: JsValue)
    ensures v.Object? && HasKey(v.entries, key) ==>
              exists i :: 0 <= i < |v.entries| && v.entries[i] == (key, r)
                          && forall j :: i < j < |v.entries| ==> v.entries[j].0 != key
    ensures !v.Object? || !HasKey(v.entries, key) ==> r == Undefined
  {
    match v
    case Object(entries) => (
      match Member(entries, key)
      case Some(x) => x
      case None => Undefined)
    case _ => Undefined
  }

  /**
   * Whether `const { a, b } = v` may run: destructuring `null` or `undefined`
   * throws a TypeError; any other value yields its members (or `undefined`).
   */
  predicate Destructurable(v: JsValue) {
    !v.Null? && !v.Undefined?
  }

  /** The number of UTF-16 code units of a code point: 2 beyond the BMP. */
  function CodeUnits(c: char): nat {
    if c as int > 0xFFFF then 2 else 1
  }

  /** `s.length`: JavaScript strings count UTF-16 code units, not code points. */
  function Utf16Length(s: string): nat {
    if s == [] then 0 else CodeUnits(s[0]) + Utf16Length(s[1..])
  }

  lemma {:induction false} Utf16LengthBounds(s: string)
    ensures |s| <= Utf16Length(s) <= 2 * |s|
    ensures Utf16Length(s) == |s| <==> forall i :: 0 <= i < |s| ==> s[i] as int <= 0xFFFF
  {
    if s != [] {
      Utf16LengthBounds(s[1..]);
      assert forall i :: 1 <= i < |s| ==> s[1..][i - 1] == s[i];
    }
  }

  /**
   * The `length` property: code units of a string, elements of an array, the
   * own `length` member of an object, `undefined` for any other value.
   */
  function Length(v: JsValue): (r: JsValue)
    ensures v.Str? ==> r.Number? && |v.s| as real <= r.n <= 2.0 * |v.s| as real
    ensures v.Array? ==> r == Number(|v.items| as real)
    ensures v.Undefined? || v.Null? || v.Bool? || v.Number? ==> r == Undefined
  {
    match v
    case Str(s) =>
      Utf16LengthBounds(s);
      Number(Utf16Length(s) as real)
    case Array(items) => Number(|items| as real)
    case Object(entries) => GetProperty(v, "length")
    case _ => Undefined
  }

  /**
   * `x < k` for a number `k`: `undefined` converts to NaN (false), `null` and
   * `false` to 0, `true` to 1. A string, array or object operand compares as
   * false in this model; JavaScript would convert it to a number first.
   */
  predicate LessThan(x: JsValue, k: real) {
    match x
    case Undefined => false
    case Null => 0.0 < k
    case Bool(b) => (if b then 1.0 else 0.0) < k
    case Number(n) => n < k
    case _ => false
  }

  /** The entries left by `const { key: _, ...rest } = o`, in order. */
  function Without(entries: Entries, key: string): (r: Entries)
    ensures |r| <= |entries|
    ensures forall i :: 0 <= i < |r| ==> r[i].0 != key && r[i] in entries
  {
    if entries == [] then []
    else if entries[0].0 == key then Without(entries[1..], key)
    else [entries[0]] + Without(entries[1..], key)
  }

  /** Rest destructuring keeps every other member's value and drops `key`. */
  lemma WithoutMember(entries: Entries, key: string, other: string)
    ensures Member(Without(entries, key), key) == None
    ensures other != key ==> Member(Without(entries, key), other) == Member(entries, other)
  {
    assert !HasKey(Without(entries, key), key);
    if other != key {
      WithoutKeepsOthers(entries, key, other);
    }
  }

  lemma {:induction false} WithoutKeepsOthers(entries: Entries, key: string, other: string)
    requires other != key
    ensures Member(Without(entries, key), other) == Member(entries, other)
    decreases |entries|
  {
    if entries != [] {
      var n := |entries|;
      var init, last := entries[..n - 1], entries[n - 1];
      assert entries == init + [last];
      WithoutSnoc(init, last, key);
      WithoutKeepsOthers(init, key, other);
      MemberSnoc(init, last, other);
      var w := Without(init, key);
      if last.0 == key {
        assert Without(entries, key) == w;
      } else {
        assert Without(entries, key) == w + [last];
        MemberSnoc(w, last, other);
      }
    }
  }

  /** The member of an object extended by one entry. */
  lemma MemberSnoc(init: Entries, last: (string, JsValue), key: string)
    ensures Member(init + [last], key) == if last.0 == key then Some(last.1) else Member(init, key)
  {
    assert (init + [last])[..|init|] == init;
  }

  lemma {:induction false} WithoutSnoc(init: Entries, last: (string, JsValue), key: string)
    ensures Without(init + [last], key) == Without(init, key) + (if last.0 == key then [] else [last])
  {
    if init == [] {
      assert [last][1..] == [];
    } else {
      assert (init + [last])[1..] == init[1..] + [last];
      WithoutSnoc(init[1..], last, key);
    }
  }
}
