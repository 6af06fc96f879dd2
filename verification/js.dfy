/**
 JSON values as `JSON.parse` produces them, and the fragment of JavaScript's
 dynamic semantics the hook applies to them: truthiness, `||`, property
 reads (plain and optional-chained), `in`, `includes`, array callbacks with
 short-circuit, `for..of` iteration and conversion to string. A read that
 JavaScript answers with a TypeError yields `Throw`.
 */
module Js {
  import opened Text

  datatype Option<+T> = None | Some(value: T)

  /** The outcome of evaluating an expression: a value, or a thrown exception. */
  datatype Completion<+T> = Normal(value: T) | Throw {
    predicate IsFailure() { Throw? }

    function PropagateFailure<U>(): Completion<U>
      requires Throw?
    {
      Throw
    }

    function Extract(): T
      requires Normal?
    {
      value
    }
  }

  /** Numbers are integers here; see README. */
  datatype Json =
    | JNull
    | JBool(b: bool)
    | JNum(n: int)
    | JStr(s: string)
    | JArr(items: seq<Json>)
    | JObj(fields: seq<(string, Json)>)

  /** A JavaScript value reachable from parsed JSON: `None` is `undefined`. */
  type Value = Option<Json>

  /** `undefined` or `null`: the values on which a property read throws. */
  predicate Nullish(v: Value) {
    v.None? || v.value.JNull?
  }

  /** JavaScript truthiness. */
  predicate Truthy(v: Value) {
    match v
    case None => false
    case Some(j) =>
      match j
      case JNull => false
      case JBool(b) => b
      case JNum(n) => n != 0
      case JStr(s) => |s| > 0
      case JArr(_) => true
      case JObj(_) => true
  }

  /** `a || b` returns its first operand when that is truthy, else its second. */
  function Or(a: Value, b: Value): (r: Value)
    ensures Truthy(a) ==> r == a
    ensures !Truthy(a) ==> r == b
  {
    if Truthy(a) then a else b
  }

  /** The keys of an object's members. */
  function Keys(fields: seq<(string, Json)>): set<string> {
    set i | 0 <= i < |fields| :: fields[i].0
  }

  lemma KeysAppend(a: seq<(string, Json)>, b: seq<(string, Json)>)
    ensures Keys(a + b) == Keys(a) + Keys(b)
  {
    forall k | k in Keys(a + b) ensures k in Keys(a) + Keys(b) {
      var i :| 0 <= i < |a + b| && (a + b)[i].0 == k;
      if i >= |a| {
        assert b[i - |a|].0 == k;
      }
    }
    forall k | k in Keys(a) ensures k in Keys(a + b) {
      var i :| 0 <= i < |a| && a[i].0 == k;
      assert (a + b)[i].0 == k;
    }
    forall k | k in Keys(b) ensures k in Keys(a + b) {
      var i :| 0 <= i < |b| && b[i].0 == k;
      assert (a + b)[|a| + i].0 == k;
    }
  }

  /** The value `JSON.parse` keeps for `key`: the last member with that key. */
  function Lookup(fields: seq<(string, Json)>, key: string): (r: Value)
    ensures r.Some? <==> key in Keys(fields)
  {
    if |fields| == 0 then None
    else if fields[|fields| - 1].0 == key then Some(fields[|fields| - 1].1)
    else
      var r := Lookup(fields[..|fields| - 1], key);
      assert Keys(fields) == Keys(fields[..|fields| - 1]) + {fields[|fields| - 1].0};
      r
  }

  /**
   `j.key` on a value that is neither null nor undefined, for a key that is
   not an array index: an object's member, the `length` of an array or a
   string, and `undefined` otherwise.
   */
  function Member(j: Json, key: string): Value {
    match j
    case JObj(fields) => Lookup(fields, key)
    case JArr(items) => if key == "length" then Some(JNum(|items|)) else None
    case JStr(s) => if key == "length" then Some(JNum(|s|)) else None
    case _ => None
  }

  /** `j[i]`: an array element, a one-character string, or an object member named by the index. */
  function Index(j: Json, i: int): Value {
    match j
    case JArr(items) => if 0 <= i < |items| then Some(items[i]) else None
    case JStr(s) => if 0 <= i < |s| then Some(JStr([s[i]])) else None
    case JObj(fields) => Lookup(fields, IntToString(i))
    case _ => None
  }

  /** `v.key`: throws on null and undefined. */
  function Get(v: Value, key: string): (r: Completion<Value>)
    ensures r.Throw? <==> Nullish(v)
  {
    if Nullish(v) then Throw else Normal(Member(v.value, key))
  }

  /** `v?.key`: undefined on null and undefined. */
  function GetOpt(v: Value, key: string): Value {
    if Nullish(v) then None else Member(v.value, key)
  }

  /** `v?.[i]`. */
  function IndexOpt(v: Value, i: int): Value {
    if Nullish(v) then None else Index(v.value, i)
  }

  /** `o.key = v` on an object: every member named `key` takes `v`, or a member is appended. */
  function SetMember(fields: seq<(string, Json)>, key: string, v: Json): (r: seq<(string, Json)>)
    ensures Lookup(r, key) == Some(v)
    ensures Keys(r) == Keys(fields) + {key}
    ensures forall k :: k != key ==> Lookup(r, k) == Lookup(fields, k)
  {
    if key in Keys(fields) then Replace(fields, key, v)
    else
      KeysAppend(fields, [(key, v)]);
      assert [(key, v)][0].0 == key;
      fields + [(key, v)]
  }

  function Replace(fields: seq<(string, Json)>, key: string, v: Json): (r: seq<(string, Json)>)
    ensures |r| == |fields|
    ensures forall i :: 0 <= i < |r| ==> r[i].0 == fields[i].0
    ensures forall i :: 0 <= i < |r| ==> r[i].1 == if fields[i].0 == key then v else fields[i].1
    ensures Keys(r) == Keys(fields)
    ensures key in Keys(fields) ==> Lookup(r, key) == Some(v)
    ensures forall k :: k != key ==> Lookup(r, k) == Lookup(fields, k)
  {
    if |fields| == 0 then []
    else
      var init := fields[..|fields| - 1];
      var last := fields[|fields| - 1];
      var front := Replace(init, key, v);
      var tail := [(last.0, if last.0 == key then v else last.1)];
      var r := front + tail;
      assert Keys(fields) == Keys(init) + {last.0};
      assert Keys(r) == Keys(fields) by {
        KeysAppend(front, tail);
        assert tail[0].0 == last.0;
        assert Keys(tail) == {last.0};
      }
      assert r[..|r| - 1] == front;
      r
  }

  /** `key in v`: throws unless `v` is an object (arrays answer for their own `length`). */
  function HasKey(v: Value, key: string): (r: Completion<bool>)
    ensures r.Throw? <==> !(v.Some? && (v.value.JObj? || v.value.JArr?))
    ensures v.Some? && v.value.JObj? ==> r == Normal(key in Keys(v.value.fields))
  {
    match v
    case Some(JObj(fields)) => Normal(key in Keys(fields))
    case Some(JArr(_)) => Normal(key == "length")
    case _ => Throw
  }

  /** `v.includes(needle)`: substring test on strings, element test on arrays, TypeError otherwise. */
  function Includes(v: Value, needle: string): (r: Completion<bool>)
    ensures r.Throw? <==> !(v.Some? && (v.value.JStr? || v.value.JArr?))
    ensures v.Some? && v.value.JStr? ==> r == Normal(Contains(v.value.s, needle))
    ensures v.Some? && v.value.JArr? ==> r == Normal(JStr(needle) in v.value.items)
  {
    match v
    case Some(JStr(s)) => Normal(Contains(s, needle))
    case Some(JArr(items)) => Normal(JStr(needle) in items)
    case _ => Throw
  }

  /** The receiver of `.some`, `.map` or `.filter`: only arrays have those methods. */
  function AsArray(v: Value): (r: Completion<seq<Json>>)
    ensures r.Normal? <==> v.Some? && v.value.JArr?
  {
    match v
    case Some(JArr(items)) => Normal(items)
    case _ => Throw
  }

  /** The elements `for (const x of j)` visits: array elements or the characters of a string. */
  function Iterate(j: Json): (r: Completion<seq<Json>>)
    ensures r.Normal? <==> j.JArr? || j.JStr?
    ensures j.JArr? ==> r == Normal(j.items)
    ensures j.JStr? ==> r.Normal? && |r.value| == |j.s| && forall i :: 0 <= i < |j.s| ==> r.value[i] == JStr([j.s[i]])
  {
    match j
    case JArr(items) => Normal(items)
    case JStr(s) => Normal(seq(|s|, i requires 0 <= i < |s| => JStr([s[i]])))
    case _ => Throw
  }

  /** `items.some(pred)`: stops at the first element the predicate accepts. */
  function AnyOf(items: seq<Json>, pred: Json -> Completion<bool>): (r: Completion<bool>)
    ensures (forall i :: 0 <= i < |items| ==> pred(items[i]).Normal?) ==>
              r == Normal(exists i :: 0 <= i < |items| && pred(items[i]).value)
    ensures r == Normal(false) ==> forall i :: 0 <= i < |items| ==> pred(items[i]) == Normal(false)
  {
    if |items| == 0 then Normal(false)
    else
      var hit :- pred(items[0]);
      if hit then Normal(true)
      else
        var rest := AnyOf(items[1..], pred);
        assert forall i :: 1 <= i < |items| ==> items[i] == items[1..][i - 1];
        rest
  }

  /** How many elements of `items` the predicate accepts, counted from the end. */
  function Accepted(items: seq<Json>, pred: Json -> Completion<bool>): nat {
    if |items| == 0 then 0
    else Accepted(items[..|items| - 1], pred) + (if pred(items[|items| - 1]) == Normal(true) then 1 else 0)
  }

  lemma {:induction false} AcceptedCons(x: Json, items: seq<Json>, pred: Json -> Completion<bool>)
    ensures Accepted([x] + items, pred) == (if pred(x) == Normal(true) then 1 else 0) + Accepted(items, pred)
    decreases |items|
  {
    if |items| > 0 {
      assert ([x] + items)[..|[x] + items| - 1] == [x] + items[..|items| - 1];
      AcceptedCons(x, items[..|items| - 1], pred);
    } else {
      assert ([x] + items)[..0] == [];
    }
  }

  /** The accepted elements of `items`, each at its rank among the accepted ones. */
  ghost predicate Ranked(items: seq<Json>, pred: Json -> Completion<bool>, kept: seq<Json>) {
    && |kept| == Accepted(items, pred)
    && forall i :: 0 <= i < |items| && pred(items[i]) == Normal(true) ==>
         Accepted(items[..i], pred) < |kept| && kept[Accepted(items[..i], pred)] == items[i]
  }

  /** Ranking survives putting an element in front, kept exactly when it is accepted. */
  lemma RankedCons(items: seq<Json>, pred: Json -> Completion<bool>, rest: seq<Json>)
    requires |items| > 0 && Ranked(items[1..], pred, rest)
    ensures Ranked(items, pred, (if pred(items[0]) == Normal(true) then [items[0]] else []) + rest)
  {
    var head := if pred(items[0]) == Normal(true) then [items[0]] else [];
    assert Accepted(items, pred) == |head| + Accepted(items[1..], pred) by {
      assert items == [items[0]] + items[1..];
      AcceptedCons(items[0], items[1..], pred);
    }
    forall i | 0 <= i < |items| && pred(items[i]) == Normal(true)
      ensures Accepted(items[..i], pred) < |head + rest| && (head + rest)[Accepted(items[..i], pred)] == items[i]
    {
      if i == 0 {
        assert items[..0] == [];
      } else {
        assert items[..i] == [items[0]] + items[1..][..i - 1];
        AcceptedCons(items[0], items[1..][..i - 1], pred);
        assert items[1..][i - 1] == items[i];
      }
    }
  }

  /**
   `items.filter(pred)`: consults the predicate on every element and keeps
   exactly the accepted ones, in order: the accepted element at index `i`
   lands at its rank among the accepted elements before it.
   */
  function Filter(items: seq<Json>, pred: Json -> Completion<bool>): (r: Completion<seq<Json>>)
    ensures r.Normal? <==> forall i :: 0 <= i < |items| ==> pred(items[i]).Normal?
    ensures r.Normal? ==> forall x :: x in r.value ==> x in items && pred(x) == Normal(true)
    ensures r.Normal? ==> Ranked(items, pred, r.value)
  {
    if |items| == 0 then Normal([])
    else
      var keep :- pred(items[0]);
      var rest :- Filter(items[1..], pred);
      assert forall i :: 1 <= i < |items| ==> items[i] == items[1..][i - 1];
      var head := if keep then [items[0]] else [];
      RankedCons(items, pred, rest);
      Normal(head + rest)
  }

  /** One step of `filter`: the first element, kept when accepted, in front of the filtered rest. */
  lemma FilterCons(items: seq<Json>, pred: Json -> Completion<bool>)
    requires |items| > 0 && pred(items[0]).Normal? && Filter(items[1..], pred).Normal?
    ensures Filter(items, pred) == Normal((if pred(items[0]).value then [items[0]] else []) + Filter(items[1..], pred).value)
  {
  }

  /** `items.map(f)` with a callback that may throw. */
  function MapValues(items: seq<Json>, f: Json -> Completion<Value>): (r: Completion<seq<Value>>)
    ensures r.Normal? <==> forall i :: 0 <= i < |items| ==> f(items[i]).Normal?
    ensures r.Normal? ==> |r.value| == |items| && forall i :: 0 <= i < |items| ==> r.value[i] == f(items[i]).value
  {
    if |items| == 0 then Normal([])
    else
      var head :- f(items[0]);
      var rest :- MapValues(items[1..], f);
      assert forall i :: 1 <= i < |items| ==> items[i] == items[1..][i - 1];
      Normal([head] + rest)
  }

  /** `String(j)`, also what `+` and template literals produce. */
  function ToJsString(j: Json): string {
    match j
    case JNull => "null"
    case JBool(b) => if b then "true" else "false"
    case JNum(n) => IntToString(n)
    case JStr(s) => s
    case JArr(items) =>
      Join(seq(|items|, i requires 0 <= i < |items| => if items[i].JNull? then "" else ToJsString(items[i])), ",")
    case JObj(_) => "[object Object]"
  }

  /** `String(v)` where `v` may be undefined. */
  function Display(v: Value): string {
    match v
    case None => "undefined"
    case Some(j) => ToJsString(j)
  }

  /** `vs.join(sep)`: undefined and null elements render as the empty string. */
  function JoinValues(vs: seq<Value>, sep: string): string {
    Join(seq(|vs|, i requires 0 <= i < |vs| => if Nullish(vs[i]) then "" else Display(vs[i])), sep)
  }

  /**
   The number a relational comparison such as `v > 0` converts `v` to, or
   `None` for NaN. Strings, arrays and objects are taken as NaN (see README).
   */
  function NumericValue(v: Value): Option<int> {
    match v
    case Some(JNull) => Some(0)
    case Some(JBool(b)) => Some(if b then 1 else 0)
    case Some(JNum(n)) => Some(n)
    case _ => None
  }

  /** `v?.length > 0`. */
  predicate HasPositiveLength(v: Value) {
    !Nullish(v) && var n := NumericValue(Member(v.value, "length")); n.Some? && n.value > 0
  }

  /** `Object.keys(j).length`. */
  function KeyCount(j: Json): nat {
    match j
    case JObj(fields) => |Keys(fields)|
    case JArr(items) => |items|
    case JStr(s) => |s|
    case _ => 0
  }

  /** `j.request || j`, `j.response || j`: the payload under an optional wrapper member. */
  function Unwrap(j: Json, wrapper: string): (r: Json)
    ensures Truthy(Member(j, wrapper)) ==> r == Member(j, wrapper).value
    ensures !Truthy(Member(j, wrapper)) ==> r == j
  {
    Or(Member(j, wrapper), Some(j)).value
  }
}
