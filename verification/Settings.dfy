/** Merging a patch into the settings. A scalar stands for a boolean, a number, a string or an array. */
module Settings {
  import opened Wrappers

  datatype Value = Null | Scalar(text: string) | Object(fields: map<string, Value>)

  function Field(fields: map<string, Value>, key: string): (v: Value)
    ensures key in fields ==> v == fields[key]
  {
    if key in fields then fields[key] else Null
  }

  /** Objects merge key by key; anything else replaces */
  function Merge(into: Value, patch: Value): Value
    decreases patch
  {
    if into.Object? && patch.Object? then
      Object(map key | key in into.fields.Keys + patch.fields.Keys ::
        if key in patch.fields then Merge(Field(into.fields, key), patch.fields[key]) else into.fields[key])
    else patch
  }

  /** The fields once all keys of the patch but those in `left` are merged */
  ghost predicate Merging(into: map<string, Value>, patch: map<string, Value>, left: set<string>,
                          fields: map<string, Value>) {
    && fields.Keys == into.Keys + (patch.Keys - left)
    && (forall key :: key in fields && key in patch && key !in left ==>
      fields[key] == Merge(Field(into, key), patch[key]))
    && (forall key :: key in fields && (key !in patch || key in left) ==> fields[key] == into[key])
  }

  lemma OneKey(into: map<string, Value>, patch: map<string, Value>, left: set<string>, fields: map<string,
               Value>, key: string)
    requires left <= patch.Keys && key in left && Merging(into, patch, left, fields)
    ensures Field(fields, key) == Field(into, key)
    ensures Merging(into, patch, left - {key}, fields[key := Merge(Field(into, key), patch[key])])
  {}

  lemma {:induction false} AllKeys(into: Value, patch: Value, fields: map<string, Value>)
    requires into.Object? && patch.Object?
    ensures Merging(into.fields, patch.fields, patch.fields.Keys, into.fields)
    ensures Merging(into.fields, patch.fields, {}, fields) ==> Object(fields) == Merge(into, patch)
  {
    if Merging(into.fields, patch.fields, {}, fields) { assert fields == Merge(into, patch).fields; }
  }

  /** Key by key, each into the value that is there, which is null for a new one */
  method MergeInto(into: Value, patch: Value) returns (r: Value)
    ensures r == Merge(into, patch)
    decreases patch
  {
    if !(into.Object? && patch.Object?) { return patch; }
    var fields, left := into.fields, patch.fields.Keys;
    AllKeys(into, patch, fields);
    while left != {}
      invariant left <= patch.fields.Keys && Merging(into.fields, patch.fields, left, fields)
      decreases |left|
    {
      var key :| key in left;
      OneKey(into.fields, patch.fields, left, fields, key);
      var value := MergeInto(Field(fields, key), patch.fields[key]);
      fields, left := fields[key := value], left - {key};
    }
    AllKeys(into, patch, fields);
    return Object(fields);
  }

  // ----- a second merge changes nothing

  lemma {:induction false} MergeSelf(v: Value)
    ensures Merge(v, v) == v
    decreases v
  {
    if v.Object? {
      forall key | key in v.fields ensures Merge(v, v).fields[key] == v.fields[key] { MergeSelf(v.fields[key]); }
      assert Merge(v, v).fields == v.fields;
    }
  }

  lemma {:induction false} MergeIsIdempotent(into: Value, patch: Value)
    ensures Merge(Merge(into, patch), patch) == Merge(into, patch)
    decreases patch
  {
    if into.Object? && patch.Object? {
      var once := Merge(into, patch);
      forall key | key in once.fields ensures Merge(once, patch).fields[key] == once.fields[key] {
        if key in patch.fields { MergeIsIdempotent(Field(into.fields, key), patch.fields[key]); }
      }
      assert Merge(once, patch).fields == once.fields;
    } else {
      MergeSelf(patch);
    }
  }

  // ----- paths

  function Get(v: Value, path: seq<string>): Option<Value>
    decreases |path|
  {
    if path == [] then Some(v)
    else if v.Object? && path[0] in v.fields then Get(v.fields[path[0]], path[1..])
    else None
  }

  /** A patch reaches a path when following it never leaves the patch, or ends at something that replaces */
  predicate Reaches(patch: Value, path: seq<string>)
    decreases |path|
  {
    !patch.Object? || path == [] || (path[0] in patch.fields && Reaches(patch.fields[path[0]], path[1..]))
  }

  lemma {:induction false} NotReachedIsAbsent(patch: Value, path: seq<string>)
    requires !Reaches(patch, path)
    ensures Get(patch, path) == None
    decreases |path|
  {
    if path[0] in patch.fields { NotReachedIsAbsent(patch.fields[path[0]], path[1..]); }
  }

  /** What the patch does not reach stays as it was, there or not */
  lemma {:induction false} UnreachedIsUntouched(into: Value, patch: Value, path: seq<string>)
    requires !Reaches(patch, path)
    ensures Get(Merge(into, patch), path) == Get(into, path)
    decreases |path|
  {
    if !into.Object? {
      NotReachedIsAbsent(patch, path);
    } else {
      var key := path[0];
      if key in patch.fields {
        UnreachedIsUntouched(Field(into.fields, key), patch.fields[key], path[1..]);
        if key !in into.fields { NullHasNoPaths(patch.fields[key], path[1..]); }
      }
    }
  }

  lemma {:induction false} NullHasNoPaths(patch: Value, path: seq<string>)
    requires !Reaches(patch, path)
    ensures Get(Null, path) == None
  {}

  /** What the patch sets is set */
  lemma {:induction false} SetIsSet(into: Value, patch: Value, path: seq<string>)
    requires Get(patch, path).Some? && !Get(patch, path).value.Object?
    ensures Get(Merge(into, patch), path) == Get(patch, path)
    decreases |path|
  {
    if path != [] && into.Object? {
      SetIsSet(Field(into.fields, path[0]), patch.fields[path[0]], path[1..]);
    }
  }

  // ----- two patches as one

  /** Wherever the second patch holds an object the first holds one too, or nothing */
  predicate Compatible(p: Value, q: Value)
    decreases q
  {
    q.Object? ==> p.Object? && forall key :: key in q.fields && key in p.fields ==>
      Compatible(p.fields[key], q.fields[key])
  }

  lemma {:induction false} MergesCompose(a: Value, p: Value, q: Value)
    requires Compatible(p, q)
    ensures Merge(Merge(a, p), q) == Merge(a, Merge(p, q))
    decreases q
  {
    if q.Object? && a.Object? {
      var l, r := Merge(Merge(a, p), q), Merge(a, Merge(p, q));
      assert l.fields.Keys == r.fields.Keys;
      forall key | key in l.fields ensures l.fields[key] == r.fields[key] {
        if key in q.fields && key in p.fields {
          MergesCompose(Field(a.fields, key), p.fields[key], q.fields[key]);
        } else if key in q.fields {
          assert Merge(Null, q.fields[key]) == q.fields[key];
        }
      }
      assert l.fields == r.fields;
    }
  }

  // ----- and when they do not

  function Long(n: nat): string { seq(n, _ => 'x') }

  lemma {:induction false} LengthBound(keys: set<string>) returns (n: nat)
    ensures forall k :: k in keys ==> |k| < n
    decreases |keys|
  {
    n := 0;
    if keys != {} {
      var k :| k in keys;
      var m := LengthBound(keys - {k});
      n := if m <= |k| then |k| + 1 else m;
      forall x | x in keys ensures |x| < n { assert x == k || x in keys - {k}; }
    }
  }

  lemma {:induction false} DoNotCompose(p: Value, q: Value) returns (a: Value)
    requires !Compatible(p, q)
    ensures Merge(Merge(a, p), q) != Merge(a, Merge(p, q))
    decreases q
  {
    if !p.Object? {
      var n := LengthBound(q.fields.Keys);
      a := Object(map[Long(n) := Null]);
      assert Long(n) !in q.fields;
      assert Long(n) in Merge(a, Merge(p, q)).fields;
    } else {
      var key :| key in q.fields && key in p.fields && !Compatible(p.fields[key], q.fields[key]);
      var b := DoNotCompose(p.fields[key], q.fields[key]);
      a := Object(map[key := b]);
      assert Merge(Merge(a, p), q).fields[key] == Merge(Merge(b, p.fields[key]), q.fields[key]);
      assert Merge(a, Merge(p, q)).fields[key] == Merge(b, Merge(p.fields[key], q.fields[key]));
    }
  }

  /** One merge of two patches does what the two merges do, whatever the settings are, exactly if wherever the
      second holds an object the first holds one or nothing */
  lemma {:induction false} ComposeExactly(p: Value, q: Value)
    ensures (forall a :: Merge(Merge(a, p), q) == Merge(a, Merge(p, q))) <==> Compatible(p, q)
  {
    if Compatible(p, q) {
      forall a ensures Merge(Merge(a, p), q) == Merge(a, Merge(p, q)) { MergesCompose(a, p, q); }
    } else {
      var a := DoNotCompose(p, q);
    }
  }

  function One(key: string, value: Value): Value { Object(map[key := value]) }

  lemma {:induction false} MergeOne(key: string, into: Value, value: Value)
    ensures Merge(One(key, into), One(key, value)) == One(key, Merge(into, value))
  {
    assert Merge(One(key, into), One(key, value)).fields == One(key, Merge(into, value)).fields;
  }

  /** The first patch replaces an object by a scalar and the second puts an object there: what was in the first object
      is gone after two merges, and still there after one of the merged patches */
  lemma ReplacedObjectComesBack(key: string, x: string, y: string)
    requires x != y
    ensures var settings := One(key, One(x, Null));
      var p, q := One(key, Scalar("")), One(key, One(y, Null));
      Merge(Merge(settings, p), q) == q && Get(Merge(settings, Merge(p, q)), [key, x]) == Some(Null)
  {
    var p, q, both := One(key, Scalar("")), One(key, One(y, Null)), Merge(One(x, Null), One(y, Null));
    MergeOne(key, One(x, Null), Scalar(""));
    MergeOne(key, Scalar(""), One(y, Null));
    MergeOne(key, One(x, Null), One(y, Null));
    assert both.Object? && x in both.fields && both.fields[x] == Null;
    GetOne(key, both, x);
  }

  lemma GetOne(key: string, value: Value, x: string)
    ensures Get(One(key, value), [key, x]) == if value.Object? && x in value.fields then Some(value.fields[x]) else None
  {
    var path, last := [key, x], [x];
    assert path[1..] == last && |last[1..]| == 0;
    assert Get(value, last) == if value.Object? && x in value.fields then Some(value.fields[x]) else None;
  }
}
