/** The pieces of the JavaScript runtime that the server's handlers rely on:
    `undefined`, JSON values and plain objects, property assignment, object
    spread, `String.prototype.split` with a one-character separator, and
    `Array.prototype.find` / `findIndex`. */
module Js {

  /** A value that may be `undefined`. */
  datatype Option<+T> = None | Some(value: T)

  /** Milliseconds since the epoch, as held by a `Date`. */
  type Time = nat

  /** The values the server's records and request bodies hold: JSON values
      plus the `Date` objects the handlers store. */
  datatype Value =
    | Null
    | Bool(b: bool)
    | Num(x: real)
    | Str(s: string)
    | Date(ms: Time)
    | Arr(elems: seq<Value>)
    | Obj(fields: map<string, Value>)

  /** A plain object: its own enumerable properties and their values. */
  type Object = map<string, Value>

  /** `o.key = v` on a plain object: the property is created or overwritten,
      every other property keeps its value. */
  function Assign(o: Object, key: string, v: Value): (r: Object)
    ensures r.Keys == o.Keys + {key}
    ensures r[key] == v
    ensures forall k :: k in o && k != key ==> r[k] == o[k]
  {
    o[key := v]
  }

  /** `{ ...first, ...second }`; spreading `undefined` copies nothing.
      Properties of `second` win over those of `first`. */
  function Spread(first: Object, second: Option<Object>): (r: Object)
    ensures second.None? ==> r == first
    ensures second.Some? ==> r.Keys == first.Keys + second.value.Keys
    ensures second.Some? ==> forall k :: k in second.value ==> r[k] == second.value[k]
    ensures forall k :: k in first && (second.None? || k !in second.value) ==> r[k] == first[k]
  {
    match second
    case None => first
    case Some(o) => first + o
  }

  // ---------------------------------------------------------------------
  // String.prototype.split with a single-character separator

  /** `s.split(sep)`: the maximal runs of characters between separators.
      There is always at least one field, and no field holds a separator. */
  function Split(s: string, sep: char): (fields: seq<string>)
    ensures |fields| >= 1
    ensures forall i :: 0 <= i < |fields| ==> sep !in fields[i]
    decreases |s|
  {
    if |s| == 0 then [""]
    else if s[0] == sep then [""] + Split(s[1..], sep)
    else
      var rest := Split(s[1..], sep);
      [[s[0]] + rest[0]] + rest[1..]
  }

  /** `fields.join(sep)`, the partner of `Split`. */
  function Join(fields: seq<string>, sep: char): (s: string)
  {
    if |fields| == 0 then ""
    else if |fields| == 1 then fields[0]
    else fields[0] + [sep] + Join(fields[1..], sep)
  }

  /** Joining the fields of a split gives back the string. */
  lemma {:induction false} JoinSplit(s: string, sep: char)
    ensures Join(Split(s, sep), sep) == s
    decreases |s|
  {
    if |s| == 0 {
    } else if s[0] == sep {
      JoinSplit(s[1..], sep);
      assert s == [sep] + s[1..];
    } else {
      var rest := Split(s[1..], sep);
      JoinSplit(s[1..], sep);
      if |rest| == 1 {
        assert s == [s[0]] + rest[0];
      } else {
        assert Join(rest, sep) == rest[0] + [sep] + Join(rest[1..], sep);
        var fields := [[s[0]] + rest[0]] + rest[1..];
        assert fields[1..] == rest[1..];
        assert s == [s[0]] + s[1..];
      }
    }
  }

  /** A string without the separator, followed by anything: its first field
      is that string and the other fields are those of the remainder. */
  lemma {:induction false} SplitPrefix(head: string, tail: string, sep: char)
    requires sep !in head
    ensures Split(head + tail, sep) == [head + Split(tail, sep)[0]] + Split(tail, sep)[1..]
    decreases |head|
  {
    if |head| == 0 {
      var fields := Split(tail, sep);
      assert head + tail == tail && head + fields[0] == fields[0];
      assert fields == [fields[0]] + fields[1..];
    } else {
      assert (head + tail)[0] == head[0];
      assert (head + tail)[1..] == head[1..] + tail;
      SplitPrefix(head[1..], tail, sep);
      assert [head[0]] + (head[1..] + Split(tail, sep)[0]) == head + Split(tail, sep)[0];
    }
  }

  /** Splitting fields joined by the separator gives back the fields, as
      long as no field holds the separator. */
  lemma {:induction false} SplitJoin(fields: seq<string>, sep: char)
    requires |fields| >= 1
    requires forall i :: 0 <= i < |fields| ==> sep !in fields[i]
    ensures Split(Join(fields, sep), sep) == fields
    decreases |fields|
  {
    if |fields| == 1 {
      SplitPrefix(fields[0], "", sep);
      assert fields[0] + "" == fields[0];
    } else {
      var tail := [sep] + Join(fields[1..], sep);
      assert Join(fields, sep) == fields[0] + tail;
      SplitPrefix(fields[0], tail, sep);
      SplitJoin(fields[1..], sep);
      assert tail[1..] == Join(fields[1..], sep);
      assert Split(tail, sep) == [""] + fields[1..];
      assert fields[0] + "" == fields[0];
      assert fields == [fields[0]] + fields[1..];
    }
  }

  // ---------------------------------------------------------------------
  // Array.prototype.findIndex and Array.prototype.find

  /** `xs.findIndex(p)`, with `undefined` for -1: the first position, in
      order, whose element satisfies `p`. */
  function FindIndex<T>(xs: seq<T>, p: T -> bool): (r: Option<nat>)
    ensures r.Some? ==> r.value < |xs| && p(xs[r.value])
    ensures r.Some? ==> forall j :: 0 <= j < r.value ==> !p(xs[j])
    ensures r.None? <==> forall j :: 0 <= j < |xs| ==> !p(xs[j])
  {
    if |xs| == 0 then None
    else if p(xs[0]) then Some(0)
    else
      match FindIndex(xs[1..], p)
      case None => None
      case Some(i) => Some(i + 1)
  }

  /** `xs.find(p)`: the first element satisfying `p`, or `undefined`. */
  function Find<T>(xs: seq<T>, p: T -> bool): (r: Option<T>)
    ensures r.Some? ==> r.value in xs && p(r.value)
    ensures r.Some? ==> exists i :: 0 <= i < |xs| && xs[i] == r.value && forall j :: 0 <= j < i ==> !p(xs[j])
    ensures r.None? <==> forall j :: 0 <= j < |xs| ==> !p(xs[j])
  {
    match FindIndex(xs, p)
    case None => None
    case Some(i) => Some(xs[i])
  }

  /** Appending an element never changes a match already found, and the new
      element is found only when nothing before it matches. */
  lemma {:induction false} FindIndexAppend<T>(xs: seq<T>, x: T, p: T -> bool)
    ensures FindIndex(xs + [x], p) ==
      if FindIndex(xs, p).Some? then FindIndex(xs, p)
      else if p(x) then Some(|xs|)
      else None
    decreases |xs|
  {
    if |xs| == 0 {
      assert xs + [x] == [x];
    } else {
      assert (xs + [x])[0] == xs[0];
      assert (xs + [x])[1..] == xs[1..] + [x];
      FindIndexAppend(xs[1..], x, p);
    }
  }

  /** The predicate `o => o.id === id` of the handlers' lookups, for an `id`
      taken from the request path (always a string). */
  function IdIs(id: string): (p: Object -> bool)
  {
    (o: Object) => "id" in o && o["id"] == Str(id)
  }
}
