/** The part of PHP's value model and built-in functions that the Item model
    relies on: nullable values, `empty()` and the boolean cast, and
    `explode`/`end` on strings. */
module Php {

  /** A value that may be PHP `null`: a nullable column or a nullable result. */
  datatype Option<T> = None | Some(value: T)

  /** A PHP value as it arrives from a request or from `json_decode`. Only the
      kinds whose truthiness the model needs are distinguished. An array keeps
      its entries by key; an object (a `stdClass`) keeps its properties. */
  datatype Value =
    | Null
    | Bool(b: bool)
    | Int(n: int)
    | Str(s: string)
    | Arr(entries: map<string, Value>)
    | Obj(fields: map<string, Value>)

  /** PHP's `empty()` applied to a variable that exists: null, false, 0, "",
      "0" and the empty array are empty; every object is non-empty. */
  predicate Empty(v: Value)
    ensures Empty(v) <==> v in {Null, Bool(false), Int(0), Str(""), Str("0"), Arr(map[])}
  {
    match v
    case Null => true
    case Bool(b) => !b
    case Int(n) => n == 0
    case Str(s) => s == "" || s == "0"
    case Arr(entries) => |entries| == 0
    case Obj(_) => false
  }

  /** PHP's `(bool)` cast (and the test of an `if`): a value of an existing
      variable converts to false exactly when `empty()` holds of it. */
  predicate Truthy(v: Value)
    ensures v.Obj? ==> Truthy(v)
    ensures v.Str? ==> (Truthy(v) <==> v.s != "" && v.s != "0")
    ensures v.Int? ==> (Truthy(v) <==> v.n != 0)
    ensures v.Null? ==> !Truthy(v)
  {
    !Empty(v)
  }

  /** PHP's `isset()` on a value that was read: it holds unless the value is
      null. Every non-empty value is set, so `isset($x) && !empty($x)` is
      `!empty($x)`. */
  predicate IsSet(v: Value)
    ensures Truthy(v) ==> IsSet(v)
    ensures !IsSet(v) ==> Empty(v)
  {
    !v.Null?
  }

  /** Reading property `name` of an object with the given properties; a
      missing property reads as null. The property is set exactly when it is
      present with a non-null value. */
  function Property(fields: map<string, Value>, name: string): (v: Value)
    ensures name in fields ==> v == fields[name]
    ensures IsSet(v) <==> name in fields && fields[name] != Null
  {
    if name in fields then fields[name] else Null
  }

  /** The inverse of `explode`: the segments joined with `sep` between them. */
  function Implode(sep: char, parts: seq<string>): string
    requires |parts| >= 1
    decreases |parts|
  {
    if |parts| == 1 then parts[0] else parts[0] + [sep] + Implode(sep, parts[1..])
  }

  /** `explode(sep, s)` for a one-character separator: the maximal
      separator-free segments of `s`, in order. The empty string gives one
      empty segment, as in PHP. */
  function Explode(sep: char, s: string): (parts: seq<string>)
    ensures |parts| >= 1
    ensures forall i :: 0 <= i < |parts| ==> sep !in parts[i]
    ensures Implode(sep, parts) == s
    decreases |s|
  {
    if s == [] then [[]]
    else
      var rest := Explode(sep, s[1..]);
      if s[0] == sep then
        assert ([[]] + rest)[1..] == rest;
        [[]] + rest
      else
        var parts := [[s[0]] + rest[0]] + rest[1..];
        assert parts[1..] == rest[1..];
        assert s == [s[0]] + s[1..];
        parts
  }

  /** `end($array)` on a non-empty list: its last element. */
  function End(parts: seq<string>): (last: string)
    requires |parts| >= 1
    ensures parts == parts[..|parts| - 1] + [last]
  {
    parts[|parts| - 1]
  }

  /** Joining splits off the last segment after the last separator. */
  lemma {:induction false} ImplodeLast(sep: char, parts: seq<string>)
    requires |parts| >= 2
    ensures Implode(sep, parts) == Implode(sep, parts[..|parts| - 1]) + [sep] + End(parts)
    decreases |parts|
  {
    if |parts| > 2 {
      ImplodeLast(sep, parts[1..]);
      assert parts[1..][..|parts| - 2] == parts[..|parts| - 1][1..];
    }
  }

  /** A separator-free string is exploded into itself alone (a second
      segment would put a separator into the joined string). */
  lemma ExplodeSeparatorFree(sep: char, w: string)
    requires sep !in w
    ensures Explode(sep, w) == [w]
  {
  }

  /** A separator-free word followed by the separator is split off as the first segment. */
  lemma {:induction false} ExplodeFirstSegment(sep: char, w: string, rest: string)
    requires sep !in w
    ensures Explode(sep, w + [sep] + rest) == [w] + Explode(sep, rest)
    decreases |w|
  {
    var s := w + [sep] + rest;
    if w == [] {
      assert s[1..] == rest;
    } else {
      ExplodeFirstSegment(sep, w[1..], rest);
      assert s[1..] == w[1..] + [sep] + rest;
      assert w == [w[0]] + w[1..];
    }
  }

  /** `explode` undoes `implode` on separator-free segments: together with the
      contract of Explode, the two are inverse bijections. */
  lemma {:induction false} ExplodeImplode(sep: char, parts: seq<string>)
    requires |parts| >= 1
    requires forall i :: 0 <= i < |parts| ==> sep !in parts[i]
    ensures Explode(sep, Implode(sep, parts)) == parts
    decreases |parts|
  {
    if |parts| == 1 {
      ExplodeSeparatorFree(sep, parts[0]);
    } else {
      ExplodeImplode(sep, parts[1..]);
      ExplodeFirstSegment(sep, parts[0], Implode(sep, parts[1..]));
      assert parts == [parts[0]] + parts[1..];
    }
  }
}
