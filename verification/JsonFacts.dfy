/** How lookups, insertions and removals on object members interact. */
module JsonFacts {
  import opened Json
  import opened Wrappers

  lemma {:induction false} RemoveMembers(ms: seq<Member>, key: string)
    ensures forall m :: m in Remove(ms, key) <==> m in ms && m.key != key
  {
    if ms != [] {
      var n := |ms| - 1;
      RemoveMembers(ms[..n], key);
      assert forall m :: m in ms <==> m in ms[..n] || m == ms[n];
    }
  }

  lemma {:induction false} RemoveDistinct(ms: seq<Member>, key: string)
    requires DistinctKeys(ms)
    ensures DistinctKeys(Remove(ms, key))
  {
    if ms != [] {
      var n := |ms| - 1;
      RemoveDistinct(ms[..n], key);
      RemoveMembers(ms[..n], key);
      var r := Remove(ms[..n], key);
      forall i | 0 <= i < |r| ensures r[i].key != ms[n].key {
        assert r[i] in ms[..n];
      }
    }
  }

  lemma {:induction false} RemoveAbsent(ms: seq<Member>, key: string)
    requires !HasKey(ms, key)
    ensures Remove(ms, key) == ms
  {
    if ms != [] {
      var n := |ms| - 1;
      KeyInFrontOrLast(ms, key);
      RemoveAbsent(ms[..n], key);
      assert ms == ms[..n] + [ms[n]];
    }
  }

  lemma {:induction false} FindDistinct(ms: seq<Member>, m: Member)
    requires DistinctKeys(ms) && m in ms
    ensures Find(ms, m.key) == Some(m.value)
  {
    var n := |ms| - 1;
    if ms[n] != m {
      assert m in ms[..n];
      FindDistinct(ms[..n], m);
      var i :| 0 <= i < |ms| && ms[i] == m;
      assert ms[i].key != ms[n].key;
    }
  }

  lemma {:induction false} FindAppend(a: seq<Member>, b: seq<Member>, key: string)
    ensures Find(a + b, key) == if HasKey(b, key) then Find(b, key) else Find(a, key)
  {
    if b == [] {
      assert a + b == a;
    } else {
      var n := |b| - 1;
      assert (a + b)[..|a + b| - 1] == a + b[..n];
      FindAppend(a, b[..n], key);
      if b[n].key != key {
        if HasKey(b, key) {
          var i :| 0 <= i < |b| && b[i].key == key;
          assert b[..n][i].key == key;
        }
        if HasKey(b[..n], key) {
          var i :| 0 <= i < n && b[..n][i].key == key;
          assert b[i].key == key;
        }
      }
    }
  }

  lemma {:induction false} ReplaceFind(ms: seq<Member>, key: string, v: Value, k: string)
    ensures Find(Replace(ms, key, v), k) == if k == key && HasKey(ms, key) then Some(v) else Find(ms, k)
  {
    if ms != [] {
      var n := |ms| - 1;
      ReplaceFind(ms[..n], key, v, k);
      assert Replace(ms, key, v)[..n] == Replace(ms[..n], key, v);
      KeyInFrontOrLast(ms, key);
    }
  }

  lemma KeyInFrontOrLast(ms: seq<Member>, key: string)
    requires ms != []
    ensures HasKey(ms, key) <==> HasKey(ms[..|ms| - 1], key) || ms[|ms| - 1].key == key
  {
    var n := |ms| - 1;
    if HasKey(ms, key) && ms[n].key != key {
      var i :| 0 <= i < |ms| && ms[i].key == key;
      assert ms[..n][i].key == key;
    }
    if HasKey(ms[..n], key) {
      var i :| 0 <= i < n && ms[..n][i].key == key;
      assert ms[i].key == key;
    }
  }

  lemma PutFind(ms: seq<Member>, key: string, v: Value, k: string)
    ensures Find(Put(ms, key, v), k) == if k == key then Some(v) else Find(ms, k)
  {
    if HasKey(ms, key) {
      ReplaceFind(ms, key, v, k);
    } else {
      var last := [Member(key, v)];
      FindAppend(ms, last, k);
      assert last[0].key == key;
      assert last[..0] == [];
    }
  }
}
