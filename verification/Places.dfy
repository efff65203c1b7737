/** The values inside a JSON value, and what is said of all of them. */
module Places {
  import opened Json
  import opened Wrappers

  /** The value that is reached by going to the given child of each container on the way. */
  function Inside(v: Value, path: seq<nat>): Option<Value>
    decreases |path|
  {
    if path == [] then Some(v)
    else
      match v
      case Array(items) => if path[0] < |items| then Inside(items[path[0]], path[1..]) else None
      case Object(members) => if path[0] < |members| then Inside(members[path[0]].value, path[1..]) else None
      case _ => None
  }

  predicate Lacks(v: Option<Value>, key: string) {
    v.Some? && v.value.Object? ==> !HasKey(v.value.members, key)
  }

  /** No object inside the value, at any depth, has a member of this name. */
  ghost predicate Nowhere(v: Value, key: string) {
    forall path :: Lacks(Inside(v, path), key)
  }

  lemma NowhereInScalar(v: Value, key: string)
    requires IsScalar(v)
    ensures Nowhere(v, key)
  {
    forall path ensures Lacks(Inside(v, path), key) {
    }
  }

  lemma NowhereInArray(items: seq<Value>, key: string)
    ensures Nowhere(Array(items), key) <==> forall i :: 0 <= i < |items| ==> Nowhere(items[i], key)
  {
    if Nowhere(Array(items), key) {
      forall i, path | 0 <= i < |items| ensures Lacks(Inside(items[i], path), key) {
        assert ([i] + path)[1..] == path;
        assert Inside(Array(items), [i] + path) == Inside(items[i], path);
      }
    } else {
      var path :| !Lacks(Inside(Array(items), path), key);
      assert !Lacks(Inside(items[path[0]], path[1..]), key);
    }
  }

  lemma NowhereInObject(members: seq<Member>, key: string)
    ensures Nowhere(Object(members), key)
      <==> !HasKey(members, key) && forall i :: 0 <= i < |members| ==> Nowhere(members[i].value, key)
  {
    if Nowhere(Object(members), key) {
      assert Lacks(Inside(Object(members), []), key);
      forall i, path | 0 <= i < |members| ensures Lacks(Inside(members[i].value, path), key) {
        assert ([i] + path)[1..] == path;
        assert Inside(Object(members), [i] + path) == Inside(members[i].value, path);
      }
    } else {
      var path :| !Lacks(Inside(Object(members), path), key);
      assert path != [] ==> !Lacks(Inside(members[path[0]].value, path[1..]), key);
    }
  }
}
