/**
 * Parsed JSON request values and the JavaScript operators the route handlers
 * apply to them: truthiness, `typeof x === "number"`, the `!x || !x.trim()`
 * presence idiom, strict equality, `.length` (in UTF-16 code units) and the
 * conversion to a number that `<` applies to it.
 */
module Js {
  import opened Wrappers
  import opened Text
  import opened Numbers

  /** A value read from a parsed JSON body. `Undefined` is a missing key.
      Numbers are exact reals; NaN and the infinities are left out. */
  datatype Value =
    | Undefined
    | Null
    | Bool(b: bool)
    | Num(n: real)
    | Str(s: string)
    | Arr(items: seq<Value>)
    | Obj(fields: map<string, Value>)

  /** JavaScript's ToBoolean: the falsy JSON values are exactly `undefined`,
      `null`, `false`, `0` and the empty string. */
  predicate Truthy(v: Value)
    ensures !Truthy(v) <==> v == Undefined || v == Null || v == Bool(false) || v == Num(0.0) || v == Str("")
  {
    match v
    case Undefined => false
    case Null => false
    case Bool(b) => b
    case Num(n) => n != 0.0
    case Str(s) => s != []
    case Arr(_) => true
    case Obj(_) => true
  }

  /** Property read `o[key]` on a JSON object; a missing key reads as `undefined`. */
  function Get(fields: map<string, Value>, key: string): (v: Value)
    ensures key !in fields ==> v == Undefined
  {
    if key in fields then fields[key] else Undefined
  }

  /** What `!v || !v.trim()` decides about a field. */
  datatype TextField =
    | Text(trimmed: string)   // a string with a non-white-space character
    | Blank                   // the condition is true: the field is reported missing
    | NotText                 // `v.trim` is not a function: a TypeError is thrown

  /** A string with a character that is not white space: what passes the idiom. */
  predicate Filled(v: Value) {
    v.Str? && !AllSpace(v.s)
  }

  function ReadText(v: Value): (r: TextField)
    ensures r.Text? <==> Filled(v)
    ensures r.Blank? <==> !Truthy(v) || (v.Str? && AllSpace(v.s))
    ensures r.NotText? <==> Truthy(v) && !v.Str?
    ensures r.Text? ==> v.Str? && r.trimmed == Trim(v.s) && r.trimmed != []
  {
    if !Truthy(v) then Blank
    else if !v.Str? then NotText
    else if AllSpace(v.s) then Blank
    else Text(Trim(v.s))
  }

  /** `a === b` between a value from the request and one read back from the
      store: objects and arrays are distinct references, so never equal. */
  predicate StrictEquals(a: Value, b: Value)
    ensures StrictEquals(a, b) ==> a == b
    ensures a == b && !a.Arr? && !a.Obj? ==> StrictEquals(a, b)
    ensures a.Arr? || a.Obj? || b.Arr? || b.Obj? ==> !StrictEquals(a, b)
  {
    match (a, b)
    case (Undefined, Undefined) => true
    case (Null, Null) => true
    case (Bool(x), Bool(y)) => x == y
    case (Num(x), Num(y)) => x == y
    case (Str(x), Str(y)) => x == y
    case _ => false
  }

  /** A JavaScript string's `length`: UTF-16 code units, so a character
      outside the Basic Multilingual Plane (a surrogate pair) counts twice. */
  function Utf16Length(s: string): (n: nat)
    ensures |s| <= n <= 2 * |s|
    ensures (forall i :: 0 <= i < |s| ==> (s[i] as int) < 0x1_0000) ==> n == |s|
  {
    if s == [] then 0 else (if (s[0] as int) < 0x1_0000 then 1 else 2) + Utf16Length(s[1..])
  }

  /** Three emoji are six code units, so they are not shorter than six. */
  lemma {:induction false} AstralCharactersCountTwice()
    ensures Utf16Length("\U{1F600}\U{1F600}\U{1F600}") == 6
    ensures !ShorterThan(Str("\U{1F600}\U{1F600}\U{1F600}"), 6)
  {
    var e := "\U{1F600}\U{1F600}\U{1F600}";
    assert e[1..][1..][1..] == [];
  }

  /** ToNumber of section 7.1.4 of ECMA-262 on a JSON value, as `<` applies it.
      An array converts through the text `join(",")` gives it: the empty array
      reads as "", a single element as that element's text (empty for null and
      undefined, "true"/"false" for a boolean), and two or more elements hold a
      comma, which no number text does (`Numbers.CommaIsNaN`). An object
      converts through "[object Object]". */
  function ToNumber(v: Value): (r: Numeric)
    ensures v == Null || v == Bool(false) || v == Arr([]) ==> r == Finite(0.0)
    ensures v.Str? && AllSpace(v.s) ==> r == Finite(0.0)
    ensures v == Bool(true) ==> r == Finite(1.0)
    ensures v.Num? ==> r == Finite(v.n)
    ensures v.Undefined? || v.Obj? ==> r == NaN
    ensures v.Arr? && |v.items| == 1 && (v.items[0].Null? || v.items[0].Undefined?) ==> r == Finite(0.0)
    ensures v.Arr? && |v.items| == 1 && v.items[0].Num? ==> r == Finite(v.items[0].n)
    ensures v.Arr? && |v.items| == 1 && v.items[0].Str? ==> r == StringToNumber(v.items[0].s)
    ensures v.Arr? && |v.items| >= 2 ==> r == NaN
  {
    match v
    case Undefined => NaN
    case Null => Finite(0.0)
    case Bool(b) => Finite(if b then 1.0 else 0.0)
    case Num(n) => Finite(n)
    case Str(s) => StringToNumber(s)
    case Arr(items) =>
      if items == [] then Finite(0.0)
      else if |items| >= 2 then NaN
      else (
        match items[0]
        case Undefined => Finite(0.0)
        case Bool(_) => NaN
        case _ => ToNumber(items[0]))
    case Obj(_) => NaN
  }

  /** `v.length < bound`. A string or an array has a length. An object has
      whatever its `length` entry holds, converted by `ToNumber`, and with no
      entry reads `undefined`, which is NaN. For every other value `v.length`
      is `undefined`, and the comparison is false. */
  predicate ShorterThan(v: Value, bound: nat)
    ensures v.Str? && ShorterThan(v, bound) ==> |v.s| < bound
    ensures v.Str? && 2 * |v.s| < bound ==> ShorterThan(v, bound)
    ensures v.Arr? ==> (ShorterThan(v, bound) <==> |v.items| < bound)
    ensures v.Undefined? || v.Null? || v.Bool? || v.Num? ==> !ShorterThan(v, bound)
    ensures v.Obj? && "length" !in v.fields ==> !ShorterThan(v, bound)
    ensures v.Obj? && 0 < bound && "length" in v.fields && ToNumber(v.fields["length"]) == Finite(0.0) ==>
      ShorterThan(v, bound)
  {
    match v
    case Str(s) => Utf16Length(s) < bound
    case Arr(items) => |items| < bound
    case Obj(fields) => Below(ToNumber(Get(fields, "length")), bound as real)
    case _ => false
  }

  /** An object whose `length` entry is null, false, blank text or the empty
      array is shorter than any positive bound: all of these convert to 0. */
  lemma ZeroLikeLengthsAreShort(x: Value, bound: nat)
    requires x in {Null, Bool(false), Str(""), Str(" "), Arr([]), Arr([Null])}
    requires 0 < bound
    ensures ShorterThan(Obj(map["length" := x]), bound)
  {
    assert AllSpace(" ");
  }

  /** A `length` entry holding the decimal text of `n`, alone or as the one
      element of an array, or `n` inside an array, converts to `n`; so `true`,
      converting to 1, and "3", ["3"] and [3] make an object shorter than 6. */
  lemma NumeralLengthsConverted(n: nat, bound: nat)
    requires n < bound
    ensures ShorterThan(Obj(map["length" := Str(NatToString(n))]), bound)
    ensures ShorterThan(Obj(map["length" := Arr([Str(NatToString(n))])]), bound)
    ensures ShorterThan(Obj(map["length" := Arr([Num(n as real)])]), bound)
    ensures 1 < bound ==> ShorterThan(Obj(map["length" := Bool(true)]), bound)
  {
    var t := NatToString(n);
    NatTextToNumber(n);
    assert ToNumber(Str(t)) == Finite(n as real);
    assert ToNumber(Arr([Str(t)])) == Finite(n as real);
  }

  /** A `length` entry that converts to NaN ("abc", an array of two, an
      object) or no entry at all never makes an object short. */
  lemma NaNLengthsAreNotShort(bound: nat)
    ensures !ShorterThan(Obj(map["length" := Arr([Num(1.0), Num(2.0)])]), bound)
    ensures !ShorterThan(Obj(map["length" := Obj(map[])]), bound)
    ensures !ShorterThan(Obj(map["length" := Undefined]), bound)
    ensures !ShorterThan(Obj(map[]), bound)
  {
  }
}
