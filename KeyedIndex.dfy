/**
 * A dictionary filled from an array, as every loader of the game does:
 * each element is stored under its own key, elements whose key is empty are
 * skipped, and when two elements share a key the later one wins.
 *
 * `order` lists the keys in the order they were first inserted, which is the
 * order in which a .NET `Dictionary` that is only ever added to enumerates
 * them; the game's `foreach` loops over the catalog follow it.
 */
module KeyedIndex {

  datatype Index<T> = Index(order: seq<string>, entries: map<string, T>)

  function Empty<T>(): Index<T> {
    Index([], map[])
  }

  ghost predicate Distinct(s: seq<string>) {
    forall i, j :: 0 <= i < j < |s| ==> s[i] != s[j]
  }

  lemma DistinctSnoc(s: seq<string>, x: string)
    requires Distinct(s) && x !in s
    ensures Distinct(s + [x])
  {
    forall i, j | 0 <= i < j < |s| + 1
      ensures (s + [x])[i] != (s + [x])[j]
    {
      if j == |s| {
        assert (s + [x])[i] == s[i];
      }
    }
  }

  /** Index consistency: no empty key, every entry under its own key, `order` lists each key once. */
  ghost predicate Valid<T>(idx: Index<T>, key: T -> string) {
    && Distinct(idx.order)
    && (forall k :: k in idx.order <==> k in idx.entries)
    && (forall k :: k in idx.entries ==> k != "" && key(idx.entries[k]) == k)
  }

  /** The dictionary indexer `d[k] = v`: overwrites in place, or appends a new key. */
  function Assign<T>(idx: Index<T>, k: string, v: T): Index<T> {
    if k in idx.entries then idx.(entries := idx.entries[k := v])
    else Index(idx.order + [k], idx.entries[k := v])
  }

  /** One iteration of a loader's loop: index `item` unless its key is empty. */
  function Put<T>(idx: Index<T>, item: T, key: T -> string): Index<T> {
    if key(item) == "" then idx else Assign(idx, key(item), item)
  }

  /** The dictionary a loader's loop builds from `items`. */
  function IndexByKey<T>(items: seq<T>, key: T -> string): Index<T>
    decreases |items|
  {
    if items == [] then Empty()
    else Put(IndexByKey(items[..|items| - 1], key), items[|items| - 1], key)
  }

  /** `items[i]` is the last element of `items` with its key. */
  ghost predicate LastWithKey<T>(items: seq<T>, key: T -> string, i: int) {
    0 <= i < |items| && forall j :: i < j < |items| ==> key(items[j]) != key(items[i])
  }

  /** The loop that fills the dictionary; it builds exactly `IndexByKey`. */
  method BuildIndex<T>(items: seq<T>, key: T -> string) returns (idx: Index<T>)
    ensures idx == IndexByKey(items, key)
  {
    idx := Empty();
    for i := 0 to |items|
      invariant idx == IndexByKey(items[..i], key)
    {
      assert items[..i + 1][..i] == items[..i];
      var k := key(items[i]);
      if k != "" {
        idx := Assign(idx, k, items[i]);
      }
    }
    assert items[..|items|] == items;
  }

  lemma PutValid<T>(idx: Index<T>, item: T, key: T -> string)
    requires Valid(idx, key)
    ensures Valid(Put(idx, item, key), key)
  {
  }

  /** Whatever the array holds, the dictionary a loader builds is consistent. */
  lemma {:induction false} IndexByKeyValid<T>(items: seq<T>, key: T -> string)
    ensures Valid(IndexByKey(items, key), key)
  {
    if items != [] {
      IndexByKeyValid(items[..|items| - 1], key);
      PutValid(IndexByKey(items[..|items| - 1], key), items[|items| - 1], key);
    }
  }

  /** Some element of `items` carries key `k`. */
  ghost predicate HasKey<T>(items: seq<T>, key: T -> string, k: string) {
    exists i :: 0 <= i < |items| && key(items[i]) == k
  }

  /** The keys indexed are exactly the non-empty keys of the array. */
  lemma {:induction false} IndexByKeyKeys<T>(items: seq<T>, key: T -> string)
    ensures forall k :: k in IndexByKey(items, key).entries <==> k != "" && HasKey(items, key, k)
  {
    if items != [] {
      var n := |items| - 1;
      var front := items[..n];
      IndexByKeyKeys(front, key);
      assert IndexByKey(items, key) == Put(IndexByKey(front, key), items[n], key);
      forall k | k in IndexByKey(items, key).entries
        ensures HasKey(items, key, k)
      {
        if k != key(items[n]) {
          var i :| 0 <= i < |front| && key(front[i]) == k;
          assert key(items[i]) == k;
        }
      }
      forall k | k != "" && HasKey(items, key, k)
        ensures k in IndexByKey(items, key).entries
      {
        var i :| 0 <= i < |items| && key(items[i]) == k;
        if i < n {
          assert key(front[i]) == k;
        }
      }
    }
  }

  /** Each key is stored with the last element that carries it. */
  lemma {:induction false} IndexByKeyLast<T>(items: seq<T>, key: T -> string)
    ensures forall i :: LastWithKey(items, key, i) && key(items[i]) != "" ==>
      key(items[i]) in IndexByKey(items, key).entries &&
      IndexByKey(items, key).entries[key(items[i])] == items[i]
  {
    if items != [] {
      var n := |items| - 1;
      var front := items[..n];
      IndexByKeyLast(front, key);
      assert IndexByKey(items, key) == Put(IndexByKey(front, key), items[n], key);
      forall i | LastWithKey(items, key, i) && key(items[i]) != ""
        ensures key(items[i]) in IndexByKey(items, key).entries
        ensures IndexByKey(items, key).entries[key(items[i])] == items[i]
      {
        if i < n {
          assert LastWithKey(front, key, i);
          assert key(front[i]) == key(items[i]);
        }
      }
    }
  }

  /** When no two elements share a key, every element with a non-empty key is found under it. */
  lemma IndexByKeyDistinct<T>(items: seq<T>, key: T -> string)
    requires forall i, j :: 0 <= i < j < |items| ==> key(items[i]) != key(items[j])
    ensures forall i :: 0 <= i < |items| && key(items[i]) != "" ==>
      key(items[i]) in IndexByKey(items, key).entries &&
      IndexByKey(items, key).entries[key(items[i])] == items[i]
  {
    IndexByKeyLast(items, key);
    forall i | 0 <= i < |items| && key(items[i]) != ""
      ensures key(items[i]) in IndexByKey(items, key).entries
      ensures IndexByKey(items, key).entries[key(items[i])] == items[i]
    {
      assert LastWithKey(items, key, i);
    }
  }
}
