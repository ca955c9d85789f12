/**
 * The JSON values a request body can hold once `request.json()` has parsed
 * it, with the three JavaScript operations the gateway applies to them:
 * reading a named property, truthiness (`!v`) and default string
 * conversion (`String(v)`, a template hole `${v}`).
 */
module Json {
  import opened Wrappers
  import opened Text

  /**
   * A JavaScript number is opaque here: the model keeps only what the
   * gateway observes of it, namely whether it is NaN or zero (both falsy),
   * its `String(n)` form and its `n.toFixed(3)` form.
   */
  datatype Number = Number(isNaN: bool, isZero: bool, text: string, fixed3: string)

  /** A JSON value; an object keeps its members in insertion order. */
  datatype Json =
    | JNull
    | JBool(b: bool)
    | JNumber(n: Number)
    | JString(s: string)
    | JArray(items: seq<Json>)
    | JObject(fields: seq<(string, Json)>)

  /**
   * `v.key` for a key that is neither an array index nor `length`: only an
   * object has such a property, and when a key was given twice the later
   * value is the one `JSON.parse` keeps. `None` is `undefined`.
   */
  function Get(v: Json, key: string): (r: Option<Json>)
    ensures r.Some? ==> v.JObject?
    ensures r.Some? <==> v.JObject? && exists i :: 0 <= i < |v.fields| && v.fields[i].0 == key
    ensures v.JObject? ==> r == Field(v.fields, key)
  {
    match v
    case JObject(fields) => Field(fields, key)
    case _ => None
  }

  /** The value of the last member named `key`, as `JSON.parse` keeps it. */
  function Field(fields: seq<(string, Json)>, key: string): (r: Option<Json>)
    ensures r.Some? <==> exists i :: 0 <= i < |fields| && fields[i].0 == key
    ensures r.Some? ==>
      exists i :: 0 <= i < |fields| && fields[i] == (key, r.value) && forall j :: i < j < |fields| ==> fields[j].0 != key
  {
    if fields == [] then None
    else if fields[|fields| - 1].0 == key then Some(fields[|fields| - 1].1)
    else Field(fields[..|fields| - 1], key)
  }

  /** A member given twice: the later value is the one found. */
  lemma LastMemberWins()
    ensures Get(JObject([("a", JNull), ("a", JBool(true))]), "a") == Some(JBool(true))
  {
  }

  /**
   * The members `JSON.parse` gives an object written with `fields`: a key
   * given again keeps the place where it first appeared and takes the later
   * value, so every key is one member.
   */
  function Members(fields: seq<(string, Json)>): (r: seq<(string, Json)>)
    ensures |r| <= |fields|
    ensures fields == [] <==> r == []
  {
    if fields == [] then []
    else
      var last := fields[|fields| - 1];
      Put(Members(fields[..|fields| - 1]), last.0, last.1)
  }

  /** Setting `key` to `value`: in place where the key already is, else at the end. */
  function Put(members: seq<(string, Json)>, key: string, value: Json): (r: seq<(string, Json)>)
    ensures |members| <= |r| <= |members| + 1
  {
    var at := Position(members, key);
    if at < |members| then members[at := (key, value)] else members + [(key, value)]
  }

  /** No two members share a key. */
  predicate DistinctKeys(members: seq<(string, Json)>) {
    forall i, j :: 0 <= i < j < |members| ==> members[i].0 != members[j].0
  }

  /** The keys that occur among `members`. */
  function KeySet(members: seq<(string, Json)>): set<string> {
    set i | 0 <= i < |members| :: members[i].0
  }

  /** The index of the first member named `key`, or `|fields|` when there is none. */
  function Position(fields: seq<(string, Json)>, key: string): (r: nat)
    ensures r <= |fields|
    ensures r < |fields| ==> fields[r].0 == key
    ensures forall i :: 0 <= i < r ==> fields[i].0 != key
  {
    if fields == [] then 0
    else if fields[0].0 == key then 0
    else 1 + Position(fields[1..], key)
  }

  /** A key occurs exactly when its first position is inside the sequence. */
  lemma PositionFound(fields: seq<(string, Json)>, key: string)
    ensures key in KeySet(fields) <==> Position(fields, key) < |fields|
  {
    if key in KeySet(fields) {
      var i :| 0 <= i < |fields| && fields[i].0 == key;
    }
  }

  /**
   * Setting a key in a table with distinct keys keeps them distinct and
   * every other member as it is: a key already there keeps its place and
   * takes the new value, a new key goes last.
   */
  lemma PutSpec(members: seq<(string, Json)>, key: string, value: Json)
    requires DistinctKeys(members)
    ensures var r := Put(members, key, value);
      && DistinctKeys(r)
      && KeySet(r) == KeySet(members) + {key}
      && |r| == (if key in KeySet(members) then |members| else |members| + 1)
      && (forall i :: 0 <= i < |members| ==> r[i].0 == members[i].0)
      && (forall i :: 0 <= i < |r| ==> r[i] == (if r[i].0 == key then (key, value) else members[i]))
  {
    PositionFound(members, key);
    var r := Put(members, key, value);
    if key in KeySet(members) {
      assert KeySet(r) == KeySet(members) by {
        forall k | k in KeySet(r) ensures k in KeySet(members) {
          var i :| 0 <= i < |r| && r[i].0 == k;
          assert members[i].0 == k;
        }
        forall k | k in KeySet(members) ensures k in KeySet(r) {
          var i :| 0 <= i < |members| && members[i].0 == k;
          assert r[i].0 == k;
        }
      }
    } else {
      assert KeySet(r) == KeySet(members) + {key} by {
        forall k | k in KeySet(r) ensures k in KeySet(members) + {key} {
          var i :| 0 <= i < |r| && r[i].0 == k;
          if i < |members| {
            assert members[i].0 == k;
          }
        }
        assert r[|members|].0 == key;
        forall k | k in KeySet(members) ensures k in KeySet(r) {
          var i :| 0 <= i < |members| && members[i].0 == k;
          assert r[i].0 == k;
        }
      }
      assert DistinctKeys(r) by {
        forall i, j | 0 <= i < j < |r| ensures r[i].0 != r[j].0 {
          if j == |members| {
            assert members[i].0 in KeySet(members);
          }
        }
      }
    }
  }

  /** The keys of a sequence with one more member. */
  lemma KeySetSnoc(fields: seq<(string, Json)>)
    requires fields != []
    ensures KeySet(fields) == KeySet(fields[..|fields| - 1]) + {fields[|fields| - 1].0}
  {
    var p := fields[..|fields| - 1];
    forall k | k in KeySet(fields) ensures k in KeySet(p) + {fields[|fields| - 1].0} {
      var i :| 0 <= i < |fields| && fields[i].0 == k;
      if i < |p| {
        assert p[i] == fields[i];
      }
    }
    forall k | k in KeySet(p) ensures k in KeySet(fields) {
      var i :| 0 <= i < |p| && p[i].0 == k;
      assert fields[i] == p[i];
    }
  }

  /** Where a key first appears, once one more member is written. */
  lemma PositionSnoc(fields: seq<(string, Json)>, key: string)
    requires fields != []
    ensures var p := fields[..|fields| - 1];
      && (key in KeySet(p) ==> Position(fields, key) == Position(p, key) < |p|)
      && (key !in KeySet(p) && key == fields[|fields| - 1].0 ==> Position(fields, key) == |p|)
  {
    var p := fields[..|fields| - 1];
    PositionFound(p, key);
    if key in KeySet(p) {
      var q := Position(p, key);
      assert fields[q] == p[q];
      forall j | 0 <= j < q ensures fields[j].0 != key {
        assert fields[j] == p[j];
      }
    } else if key == fields[|fields| - 1].0 {
      forall j | 0 <= j < |p| ensures fields[j].0 != key {
        assert fields[j] == p[j];
        assert p[j].0 in KeySet(p);
      }
    }
  }

  /**
   * The members of a parsed object: one per key that occurs, at the place
   * where the key first appears, holding the value `Field` finds (the last).
   */
  lemma {:induction false} MembersSpec(fields: seq<(string, Json)>)
    ensures var r := Members(fields);
      && DistinctKeys(r)
      && KeySet(r) == KeySet(fields)
      && (forall i :: 0 <= i < |r| ==> Field(fields, r[i].0) == Some(r[i].1))
      && (forall i, j :: 0 <= i < j < |r| ==> Position(fields, r[i].0) < Position(fields, r[j].0))
  {
    if fields != [] {
      var p := fields[..|fields| - 1];
      var k, v := fields[|fields| - 1].0, fields[|fields| - 1].1;
      var m := Members(p);
      MembersSpec(p);
      PutSpec(m, k, v);
      KeySetSnoc(fields);
      var r := Members(fields);
      assert r == Put(m, k, v);
      forall i | 0 <= i < |r| ensures Field(fields, r[i].0) == Some(r[i].1) {
        if r[i].0 != k {
          assert r[i] == m[i];
        }
      }
      forall i, j | 0 <= i < j < |r| ensures Position(fields, r[i].0) < Position(fields, r[j].0) {
        assert r[i].0 == m[i].0 && m[i].0 in KeySet(m);
        PositionSnoc(fields, r[i].0);
        PositionSnoc(fields, r[j].0);
        if j < |m| {
          assert r[j].0 == m[j].0 && m[j].0 in KeySet(m);
        } else {
          assert r[j].0 == k;
        }
      }
    }
  }

  /** A key written twice is one member, in its first place, with its second value. */
  lemma RepeatedKey()
    ensures Members([("a", JNull), ("b", JNull), ("a", JBool(true))]) == [("a", JBool(true)), ("b", JNull)]
  {
    var fields := [("a", JNull), ("b", JNull), ("a", JBool(true))];
    assert fields[..2][..1] == [("a", JNull)] && fields[..2] == [("a", JNull), ("b", JNull)];
    assert "a"[0] != "b"[0];
    assert Members([("a", JNull)]) == [("a", JNull)];
    assert Members(fields[..2]) == [("a", JNull), ("b", JNull)];
  }

  /** JavaScript truthiness; `None` stands for `undefined`. */
  predicate Truthy(v: Option<Json>) {
    match v
    case None => false
    case Some(JNull) => false
    case Some(JBool(b)) => b
    case Some(JNumber(n)) => !n.isNaN && !n.isZero
    case Some(JString(s)) => s != []
    case Some(_) => true
  }

  /** `typeof v === "object"`: true of null, arrays and objects. */
  predicate IsObjectType(v: Option<Json>) {
    v.Some? && (v.value.JNull? || v.value.JArray? || v.value.JObject?)
  }

  /** `typeof v === "string"`. */
  predicate IsString(v: Option<Json>) {
    v.Some? && v.value.JString?
  }

  /** `String(v)`; `None` is `undefined`. */
  function Display(v: Option<Json>): string {
    match v
    case None => "undefined"
    case Some(j) => Show(j)
  }

  /**
   * Whether `String(j)` throws a TypeError. JSON cannot give a member a
   * function value, so an object with its own `toString` member has no
   * callable `toString`, and its `valueOf` gives back the object itself:
   * the conversion finds no primitive. An array throws when one of its
   * elements does, since `join` converts every element that is not null.
   */
  predicate Throws(j: Json)
    decreases j
  {
    match j
    case JObject(fields) => Field(fields, "toString").Some?
    case JArray(items) => exists i :: 0 <= i < |items| && Throws(items[i])
    case _ => false
  }

  /**
   * Only an own `toString` member makes an object's conversion throw, also
   * inside an array; an own `valueOf` member does not.
   */
  lemma ToStringMemberThrows()
    ensures Throws(JObject([("toString", JString("x"))]))
    ensures !Throws(JObject([("valueOf", JString("x"))]))
    ensures Throws(JArray([JNull, JObject([("toString", JNull)])]))
  {
    assert Throws(JArray([JNull, JObject([("toString", JNull)])]).items[1]);
  }

  /**
   * `String(j)` when it does not throw (see `Throws`): an array shows its
   * elements joined by ",", any other object shows `[object Object]`.
   */
  function Show(j: Json): string
    decreases j, 0
  {
    match j
    case JNull => "null"
    case JBool(b) => if b then "true" else "false"
    case JNumber(n) => n.text
    case JString(s) => s
    case JArray(items) => JoinShown(items, ",")
    case JObject(_) => "[object Object]"
  }

  /** `items.join(sep)`: every element in its `ElementText` form, separated by `sep`. */
  function JoinShown(items: seq<Json>, sep: string): string
    decreases items, 1
  {
    if |items| == 0 then ""
    else if |items| == 1 then ElementText(items[0])
    else ElementText(items[0]) + sep + JoinShown(items[1..], sep)
  }

  /** How `Array.prototype.join` writes one element: null as the empty string, anything else as `String` does. */
  function ElementText(j: Json): string
    decreases j, 1
  {
    if j.JNull? then "" else Show(j)
  }

  /** The texts `join` writes for the elements of an array, in order. */
  function ElementTexts(items: seq<Json>): (r: seq<string>)
    ensures |r| == |items| && forall i :: 0 <= i < |items| ==> r[i] == ElementText(items[i])
  {
    seq(|items|, i requires 0 <= i < |items| => ElementText(items[i]))
  }

  /** `items.join(sep)` is the join of the elements' texts. */
  lemma {:induction false} JoinShownIsJoin(items: seq<Json>, sep: string)
    ensures JoinShown(items, sep) == Text.Join(ElementTexts(items), sep)
  {
    if |items| > 1 {
      JoinShownIsJoin(items[1..], sep);
      assert ElementTexts(items)[1..] == ElementTexts(items[1..]);
    }
  }
}
