/** Count-by-key histograms, as the pages build them with
    `acc[key] = (acc[key] || 0) + 1`: one entry per distinct key, in the order the keys first
    appear, each holding how often its key occurs. */
module Tally {

  datatype Entry<K> = Entry(key: K, count: nat)

  predicate HasKey<K(==)>(t: seq<Entry<K>>, k: K) {
    exists i | 0 <= i < |t| :: t[i].key == k
  }

  predicate DistinctKeys<K(==)>(t: seq<Entry<K>>) {
    forall i, j :: 0 <= i < j < |t| ==> t[i].key != t[j].key
  }

  /** `acc[k] || 0`: the count stored for `k`, or 0 when there is none. */
  function Lookup<K(==)>(t: seq<Entry<K>>, k: K): (n: nat)
    ensures !HasKey(t, k) ==> n == 0
    ensures DistinctKeys(t) ==> forall i :: 0 <= i < |t| && t[i].key == k ==> n == t[i].count
  {
    if |t| == 0 then 0
    else if t[0].key == k then t[0].count
    else
      assert forall i :: 1 <= i < |t| ==> t[i] == t[1..][i - 1];
      Lookup(t[1..], k)
  }

  /** The sum of all counts. */
  function Total<K>(t: seq<Entry<K>>): nat {
    if |t| == 0 then 0 else t[0].count + Total(t[1..])
  }

  /** Records one more occurrence of `k`: its entry grows by one, or a new entry with count 1 is
      appended when `k` is new. */
  function Bump<K(==)>(t: seq<Entry<K>>, k: K): (r: seq<Entry<K>>)
    requires DistinctKeys(t)
    ensures DistinctKeys(r)
    ensures HasKey(t, k) ==> (|r| == |t|
      && forall i :: 0 <= i < |t| ==>
        r[i].key == t[i].key && r[i].count == t[i].count + (if t[i].key == k then 1 else 0))
    ensures !HasKey(t, k) ==> r == t + [Entry(k, 1)]
  {
    if HasKey(t, k) then
      seq(|t|, i requires 0 <= i < |t| => if t[i].key == k then Entry(k, t[i].count + 1) else t[i])
    else
      t + [Entry(k, 1)]
  }

  /** The histogram of `ks`, built front to back. */
  function Build<K(==)>(ks: seq<K>): (r: seq<Entry<K>>)
    ensures DistinctKeys(r)
    ensures forall i :: 0 <= i < |r| ==> r[i].count > 0
  {
    if |ks| == 0 then [] else Bump(Build(ks[..|ks| - 1]), ks[|ks| - 1])
  }

  lemma {:induction false} TotalAppend<K>(t: seq<Entry<K>>, e: Entry<K>)
    ensures Total(t + [e]) == Total(t) + e.count
  {
    if |t| > 0 {
      assert (t + [e])[1..] == t[1..] + [e];
      TotalAppend(t[1..], e);
    }
  }

  lemma {:induction false} TotalBump<K>(t: seq<Entry<K>>, k: K)
    requires DistinctKeys(t)
    ensures Total(Bump(t, k)) == Total(t) + 1
  {
    var r := Bump(t, k);
    if !HasKey(t, k) {
      TotalAppend(t, Entry(k, 1));
    } else if t[0].key == k {
      assert forall i :: 1 <= i < |t| ==> t[i].key != k;
      assert r[1..] == t[1..];
    } else {
      var i :| 0 <= i < |t| && t[i].key == k;
      assert t[1..][i - 1].key == k;
      TotalBump(t[1..], k);
      var r' := Bump(t[1..], k);
      forall j | 0 <= j < |t| - 1
        ensures r[1..][j] == r'[j]
      {
        assert r[1..][j] == r[j + 1] && t[1..][j] == t[j + 1];
      }
      assert r[1..] == r';
    }
  }

  /** After a bump the keys are the old keys plus the bumped one. */
  lemma BumpKeys<K>(t: seq<Entry<K>>, k: K, x: K)
    requires DistinctKeys(t)
    ensures HasKey(Bump(t, k), x) <==> HasKey(t, x) || x == k
  {
    var r := Bump(t, k);
    if HasKey(t, k) {
      if HasKey(r, x) {
        var i :| 0 <= i < |r| && r[i].key == x;
        assert t[i].key == x;
      }
      if HasKey(t, x) {
        var i :| 0 <= i < |t| && t[i].key == x;
        assert r[i].key == x;
      }
      if x == k {
        var i :| 0 <= i < |t| && t[i].key == k;
        assert r[i].key == x;
      }
    } else {
      assert r[|t|].key == k;
      if HasKey(r, x) && x != k {
        var i :| 0 <= i < |r| && r[i].key == x;
        assert t[i].key == x;
      }
      if HasKey(t, x) {
        var i :| 0 <= i < |t| && t[i].key == x;
        assert r[i].key == x;
      }
    }
  }

  /** A bump adds one to the count of the bumped key and leaves every other count alone. */
  lemma BumpLookup<K>(t: seq<Entry<K>>, k: K, x: K)
    requires DistinctKeys(t)
    ensures Lookup(Bump(t, k), x) == Lookup(t, x) + (if x == k then 1 else 0)
  {
    var r := Bump(t, k);
    BumpKeys(t, k, x);
    if HasKey(t, x) {
      var i :| 0 <= i < |t| && t[i].key == x;
      assert r[i].key == x;
    } else if x == k {
      assert r[|t|].key == x;
    }
  }

  /** The histogram has one entry per distinct key of the input, and the count stored for any
      key is the number of times it occurs; so the counts add up to the length of the input. */
  lemma {:induction false} BuildCounts<K>(ks: seq<K>)
    ensures DistinctKeys(Build(ks))
    ensures forall k :: HasKey(Build(ks), k) <==> k in ks
    ensures forall k :: Lookup(Build(ks), k) == multiset(ks)[k]
    ensures Total(Build(ks)) == |ks|
  {
    if |ks| > 0 {
      var init := ks[..|ks| - 1];
      var last := ks[|ks| - 1];
      var t := Build(init);
      BuildCounts(init);
      assert ks == init + [last];
      assert multiset(ks) == multiset(init) + multiset{last};
      TotalBump(t, last);
      forall k
        ensures HasKey(Build(ks), k) <==> k in ks
        ensures Lookup(Build(ks), k) == multiset(ks)[k]
      {
        BumpKeys(t, last, k);
        BumpLookup(t, last, k);
      }
    }
  }
}
