/**
 * HashMap<TKey, TData>: a chained hash table. mBuckets holds one vector of
 * (key, data) pairs per bucket, and the hash functor, given a key and the number
 * of buckets, picks the bucket a key lives in. The map the table stands for is
 * Contents(), built from the buckets by AllMap.
 */
module HashMaps {
  import opened Prelude

  /** defaultHashMapSize: the number of buckets when none is given. */
  const DEFAULT_HASH_MAP_SIZE: uint32 := 13

  /** A position in the table, or end(): its bucket, its index there and a copy of the pair (mPair). */
  datatype Iterator<K, V> = End | At(bucket: nat, index: nat, pair: (K, V))

  /** The first index of a bucket whose pair has key k. */
  function IndexOfKey<K(==), V>(bucket: seq<(K, V)>, k: K): (r: Option<nat>)
    ensures r.Some? ==> r.value < |bucket| && bucket[r.value].0 == k
    ensures r.Some? ==> forall i :: 0 <= i < r.value ==> bucket[i].0 != k
    ensures r.None? <==> forall i :: 0 <= i < |bucket| ==> bucket[i].0 != k
    decreases |bucket|
  {
    if bucket == [] then None
    else if bucket[0].0 == k then Some(0)
    else match IndexOfKey(bucket[1..], k)
      case None => None
      case Some(i) => Some(i + 1)
  }

  /** The map one bucket stands for: each key to the data of its first pair. */
  function BucketMap<K(==), V>(bucket: seq<(K, V)>): map<K, V>
    decreases |bucket|
  {
    if bucket == [] then map[] else BucketMap(bucket[1..])[bucket[0].0 := bucket[0].1]
  }

  /** The map a whole table stands for: the union of its buckets' maps. */
  function AllMap<K(==), V>(buckets: seq<seq<(K, V)>>): map<K, V>
    decreases |buckets|
  {
    if buckets == [] then map[] else AllMap(buckets[..|buckets| - 1]) + BucketMap(buckets[|buckets| - 1])
  }

  /** No two pairs of a bucket share a key. */
  ghost predicate UniqueKeys<K, V>(bucket: seq<(K, V)>)
  {
    forall i, j :: 0 <= i < j < |bucket| ==> bucket[i].0 != bucket[j].0
  }

  /** Every pair lives in the bucket the functor selects for its key and the bucket count n. */
  ghost predicate Placed<K, V>(buckets: seq<seq<(K, V)>>, f: (K, uint32) -> uint32, n: uint32)
  {
    forall b, i :: 0 <= b < |buckets| && 0 <= i < |buckets[b]| ==> f(buckets[b][i].0, n) == b
  }

  /** A bucket's map holds k exactly when the bucket has a pair with key k, with that pair's data. */
  lemma {:induction false} BucketMapLookup<K, V>(bucket: seq<(K, V)>, k: K)
    ensures k in BucketMap(bucket) <==> IndexOfKey(bucket, k).Some?
    ensures IndexOfKey(bucket, k).Some? ==> BucketMap(bucket)[k] == bucket[IndexOfKey(bucket, k).value].1
    decreases |bucket|
  {
    if bucket != [] && bucket[0].0 != k {
      BucketMapLookup(bucket[1..], k);
    }
  }

  /** A key's entry in the table's map is decided by the bucket the functor selects for it alone. */
  lemma {:induction false} AllMapAt<K, V>(buckets: seq<seq<(K, V)>>, f: (K, uint32) -> uint32, n: uint32, k: K)
    requires Placed(buckets, f, n)
    ensures k in AllMap(buckets) <==> f(k, n) < |buckets| && IndexOfKey(buckets[f(k, n)], k).Some?
    ensures k in AllMap(buckets) ==>
              AllMap(buckets)[k] == buckets[f(k, n)][IndexOfKey(buckets[f(k, n)], k).value].1
    decreases |buckets|
  {
    if buckets != [] {
      var init: seq<seq<(K, V)>> := buckets[..|buckets| - 1];
      var last: seq<(K, V)> := buckets[|buckets| - 1];
      assert Placed(init, f, n) by {
        forall b, i | 0 <= b < |init| && 0 <= i < |init[b]| ensures f(init[b][i].0, n) == b {
          assert init[b] == buckets[b];
        }
      }
      AllMapAt(init, f, n, k);
      BucketMapLookup(last, k);
      if f(k, n) != |buckets| - 1 {
        if f(k, n) < |init| {
          assert init[f(k, n)] == buckets[f(k, n)];
        }
      }
    }
  }

  /** Two buckets with the same keys at the same positions find every key at the same index. */
  lemma {:induction false} SameKeysSameIndex<K, V>(b1: seq<(K, V)>, b2: seq<(K, V)>, k: K)
    requires |b1| == |b2| && forall i :: 0 <= i < |b1| ==> b1[i].0 == b2[i].0
    ensures IndexOfKey(b1, k) == IndexOfKey(b2, k)
    decreases |b1|
  {
    if b1 != [] && b1[0].0 != k {
      SameKeysSameIndex(b1[1..], b2[1..], k);
    }
  }

  /** Appending a pair with a new key finds it at the end and every other key where it was. */
  lemma {:induction false} IndexOfKeyAppend<K, V>(bucket: seq<(K, V)>, entry: (K, V), k: K)
    requires IndexOfKey(bucket, entry.0).None?
    ensures IndexOfKey(bucket + [entry], k) == if k == entry.0 then Some(|bucket|) else IndexOfKey(bucket, k)
    decreases |bucket|
  {
    if bucket != [] {
      assert (bucket + [entry])[1..] == bucket[1..] + [entry];
      if bucket[0].0 != k {
        IndexOfKeyAppend(bucket[1..], entry, k);
      }
    }
  }

  /**
   * Writing a new bucket nb for the entry's bucket b, where nb finds the entry's
   * key at a pair holding the entry and every other key as the old bucket did,
   * changes the table's map at that key alone.
   */
  lemma UpdateBucket<K, V>(buckets: seq<seq<(K, V)>>, f: (K, uint32) -> uint32, n: uint32,
                               b: nat, nb: seq<(K, V)>, entry: (K, V))
    requires Placed(buckets, f, n) && b < |buckets| && f(entry.0, n) == b
    requires Placed(buckets[b := nb], f, n)
    requires IndexOfKey(nb, entry.0).Some? && nb[IndexOfKey(nb, entry.0).value] == entry
    requires forall k :: k != entry.0 ==>
               && IndexOfKey(nb, k) == IndexOfKey(buckets[b], k)
               && (IndexOfKey(nb, k).Some? ==> nb[IndexOfKey(nb, k).value] == buckets[b][IndexOfKey(nb, k).value])
    ensures AllMap(buckets[b := nb]) == AllMap(buckets)[entry.0 := entry.1]
  {
    var after := buckets[b := nb];
    var expected := AllMap(buckets)[entry.0 := entry.1];
    forall k ensures k in AllMap(after) <==> k in expected
      ensures k in AllMap(after) ==> AllMap(after)[k] == expected[k]
    {
      AllMapAt(buckets, f, n, k);
      AllMapAt(after, f, n, k);
      if f(k, n) < |buckets| && f(k, n) != b {
        assert after[f(k, n)] == buckets[f(k, n)];
      }
    }
    MapsEqual(AllMap(after), expected);
  }

  /** Two maps with the same keys and the same data at each key are equal. */
  lemma MapsEqual<K, V>(m1: map<K, V>, m2: map<K, V>)
    requires forall k :: (k in m1 <==> k in m2) && (k in m1 ==> m1[k] == m2[k])
    ensures m1 == m2
  {
  }

  class HashMap<K(==), V> {
    var hashMapSize: uint32                         // mHashMapSize
    var hashFunctor: (K, uint32) -> uint32          // mHashFunctor
    var buckets: seq<seq<(K, V)>>                   // mBuckets

    /** One bucket per slot, every pair in its key's bucket, no key twice in a bucket. */
    ghost predicate Valid()
      reads this
    {
      && |buckets| == hashMapSize
      && Placed(buckets, hashFunctor, hashMapSize)
      && forall b :: 0 <= b < |buckets| ==> UniqueKeys(buckets[b])
    }

    /** The map the table stands for. */
    ghost function Contents(): map<K, V>
      reads this
    {
      AllMap(buckets)
    }

    /** The functor picks an existing bucket for this key (the table indexes mBuckets with it). */
    predicate Hashable(key: K)
      reads this
    {
      hashFunctor(key, hashMapSize) < hashMapSize
    }

    /** HashMap(): 13 empty buckets; the default functor is passed in (see README). */
    constructor Default(defaultHashFunctor: (K, uint32) -> uint32)
      ensures Valid() && hashMapSize == DEFAULT_HASH_MAP_SIZE && hashFunctor == defaultHashFunctor
      ensures |buckets| == 13 && (forall b :: 0 <= b < |buckets| ==> buckets[b] == [])
      ensures Contents() == map[]
    {
      hashMapSize := DEFAULT_HASH_MAP_SIZE;
      hashFunctor := defaultHashFunctor;
      buckets := [];
      new;
      InitializeBuckets();
    }

    /** HashMap(hashMapSize, hashFunctor): exactly hashMapSize empty buckets. */
    constructor (size: uint32, functor: (K, uint32) -> uint32)
      ensures Valid() && hashMapSize == size && hashFunctor == functor
      ensures |buckets| == size && (forall b :: 0 <= b < |buckets| ==> buckets[b] == [])
      ensures Contents() == map[]
    {
      hashMapSize := size;
      hashFunctor := functor;
      buckets := [];
      new;
      InitializeBuckets();
    }

    /** HashMap(const HashMap&): a deep copy; the buckets are values, so nothing is shared. */
    constructor Copy(rhs: HashMap<K, V>)
      requires rhs.Valid()
      ensures Valid() && buckets == rhs.buckets && hashMapSize == rhs.hashMapSize
      ensures hashFunctor == rhs.hashFunctor && Contents() == rhs.Contents()
    {
      hashMapSize := rhs.hashMapSize;
      hashFunctor := rhs.hashFunctor;
      buckets := rhs.buckets;
    }

    /** operator=(const HashMap&): this becomes a deep copy of rhs. */
    method Assign(rhs: HashMap<K, V>)
      requires rhs.Valid()
      modifies this
      ensures Valid() && buckets == old(rhs.buckets) && hashMapSize == old(rhs.hashMapSize)
      ensures hashFunctor == old(rhs.hashFunctor) && Contents() == old(rhs.Contents())
    {
      hashMapSize, hashFunctor, buckets := rhs.hashMapSize, rhs.hashFunctor, rhs.buckets;
    }

    /** initializeBuckets: one empty vector per bucket. */
    method InitializeBuckets()
      modifies this`buckets
      ensures hashMapSize == old(hashMapSize) && hashFunctor == old(hashFunctor)
      ensures |buckets| == hashMapSize && forall b :: 0 <= b < |buckets| ==> buckets[b] == []
      ensures Valid() && Contents() == map[]
    {
      buckets := [];
      while |buckets| < hashMapSize
        invariant |buckets| <= hashMapSize
        invariant forall b :: 0 <= b < |buckets| ==> buckets[b] == []
      {
        buckets := buckets + [[]];
      }
      EmptyBucketsMap(buckets);
    }

    /** find(key): the pair for a present key, end() for an absent one. */
    method Find(key: K) returns (it: Iterator<K, V>)
      requires Valid() && Hashable(key)
      ensures it.End? <==> key !in Contents()
      ensures it.At? ==> && it.pair == (key, Contents()[key])
                         && it.bucket < |buckets| && it.index < |buckets[it.bucket]|
                         && buckets[it.bucket][it.index] == it.pair
    {
      var b := hashFunctor(key, hashMapSize);
      var bucket := buckets[b];
      var i := 0;
      while i < |bucket|
        invariant 0 <= i <= |bucket|
        invariant forall j :: 0 <= j < i ==> bucket[j].0 != key
      {
        if bucket[i].0 == key {
          AllMapAt(buckets, hashFunctor, hashMapSize, key);
          return At(b, i, bucket[i]);
        }
        i := i + 1;
      }
      AllMapAt(buckets, hashFunctor, hashMapSize, key);
      it := End;
    }

    /** insert(entry): afterwards the key maps to the entry's data; the iterator refers to the pair. */
    method Insert(entry: (K, V)) returns (it: Iterator<K, V>)
      requires Valid() && Hashable(entry.0)
      modifies this
      ensures Valid() && hashMapSize == old(hashMapSize) && hashFunctor == old(hashFunctor)
      ensures Contents() == old(Contents())[entry.0 := entry.1]
      ensures it.At? && it.pair == entry && it.bucket < |buckets| && it.index < |buckets[it.bucket]|
      ensures buckets[it.bucket][it.index] == entry
    {
      var b := hashFunctor(entry.0, hashMapSize);
      var bucket := buckets[b];
      var found := IndexOfKey(bucket, entry.0);
      var nb: seq<(K, V)>;
      var index: nat;
      if found.Some? {
        index := found.value;
        nb := bucket[index := entry];
        forall k | k != entry.0 ensures IndexOfKey(nb, k) == IndexOfKey(bucket, k) {
          SameKeysSameIndex(nb, bucket, k);
        }
        SameKeysSameIndex(nb, bucket, entry.0);
      } else {
        index := |bucket|;
        nb := bucket + [entry];
        forall k ensures IndexOfKey(nb, k) == if k == entry.0 then Some(|bucket|) else IndexOfKey(bucket, k) {
          IndexOfKeyAppend(bucket, entry, k);
        }
      }
      assert Placed(buckets[b := nb], hashFunctor, hashMapSize);
      UpdateBucket(buckets, hashFunctor, hashMapSize, b, nb, entry);
      buckets := buckets[b := nb];
      it := At(b, index, entry);
    }

    /**
     * operator[](key): the data associated with key; an absent key is first
     * inserted with the default-constructed data TData().
     */
    method Index(key: K, defaultData: V) returns (data: V)
      requires Valid() && Hashable(key)
      modifies this
      ensures Valid() && hashMapSize == old(hashMapSize) && hashFunctor == old(hashFunctor)
      ensures key in old(Contents()) ==> data == old(Contents())[key] && Contents() == old(Contents())
      ensures key !in old(Contents()) ==> data == defaultData && Contents() == old(Contents())[key := defaultData]
      ensures key in Contents() && Contents()[key] == data
    {
      var it := Find(key);
      if it.At? {
        data := it.pair.1;
      } else {
        it := Insert((key, defaultData));
        data := defaultData;
      }
    }

    /** clear(): every bucket emptied, so the map has no entries; the bucket count stays. */
    method Clear()
      requires Valid()
      modifies this
      ensures Valid() && hashMapSize == old(hashMapSize) && hashFunctor == old(hashFunctor)
      ensures |buckets| == old(|buckets|) && forall b :: 0 <= b < |buckets| ==> buckets[b] == []
      ensures Contents() == map[]
    {
      var i := 0;
      while i < |buckets|
        invariant 0 <= i <= |buckets| == hashMapSize
        invariant hashMapSize == old(hashMapSize) && hashFunctor == old(hashFunctor)
        invariant forall b :: 0 <= b < i ==> buckets[b] == []
      {
        buckets := buckets[i := []];
        i := i + 1;
      }
      EmptyBucketsMap(buckets);
    }
  }

  /** A table of empty buckets stands for the empty map. */
  lemma {:induction false} EmptyBucketsMap<K, V>(buckets: seq<seq<(K, V)>>)
    requires forall b :: 0 <= b < |buckets| ==> buckets[b] == []
    ensures AllMap(buckets) == map[]
    decreases |buckets|
  {
    if buckets != [] {
      EmptyBucketsMap(buckets[..|buckets| - 1]);
    }
  }

  /** Inserting into a copy leaves the original's contents as they were. */
  method CopyIsIndependent<K(==), V>(source: HashMap<K, V>, entry: (K, V)) returns (copy: HashMap<K, V>)
    requires source.Valid() && source.Hashable(entry.0)
    ensures copy != source && copy.Valid()
    ensures copy.Contents() == source.Contents()[entry.0 := entry.1]
    ensures source.Contents() == old(source.Contents())
  {
    copy := new HashMap.Copy(source);
    var it := copy.Insert(entry);
  }
}
