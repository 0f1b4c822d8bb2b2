/**
 Buckets of the key-value store. The items stand in byte order of their keys, which is
 the order in which a cursor visits them; the sequence counter feeds new keys.
 */
module Buckets {
  import opened Keys
  import opened Options

  datatype Item<V> = Item(key: Key, val: V)

  datatype Bucket<V> = Bucket(sequence: nat, items: seq<Item<V>>) {

    /** The position of the first item whose key is not before k. */
    function Seek(k: Key): (n: nat)
      ensures n <= |items|
    {
      SeekFrom(items, k)
    }

    function Get(k: Key): Option<V> {
      var n := Seek(k);
      if n < |items| && items[n].key == k then Some(items[n].val) else None
    }

    function Put(k: Key, v: V): Bucket<V> {
      var n := Seek(k);
      if n < |items| && items[n].key == k then
        this.(items := items[n := Item(k, v)])
      else
        this.(items := items[..n] + [Item(k, v)] + items[n..])
    }

    /** Advances the counter; the new value is the field sequence of the result. */
    function NextSequence(): Bucket<V> {
      this.(sequence := sequence + 1)
    }
  }

  function SeekFrom<V>(items: seq<Item<V>>, k: Key): (n: nat)
    ensures n <= |items|
  {
    if items == [] || !Less(items[0].key, k) then 0 else 1 + SeekFrom(items[1..], k)
  }

  function Empty<V>(): Bucket<V> {
    Bucket(0, [])
  }

  /** The first k values under the keys 1, 2, ..., k. */
  function ItemsUpTo<V>(vs: seq<V>, k: nat): (items: seq<Item<V>>)
    requires k <= |vs|
    ensures |items| == k
  {
    if k == 0 then [] else ItemsUpTo(vs, k - 1) + [Item(Itob(k), vs[k - 1])]
  }

  lemma {:induction false} ItemsAt<V>(vs: seq<V>, k: nat)
    requires k <= |vs|
    ensures forall i :: 0 <= i < k ==> ItemsUpTo(vs, k)[i] == Item(Itob(i + 1), vs[i])
  {
    if k == 0 {
    } else {
      ItemsAt(vs, k - 1);
    }
  }

  function NumberedItems<V>(vs: seq<V>): (items: seq<Item<V>>)
    ensures |items| == |vs|
  {
    ItemsUpTo(vs, |vs|)
  }

  /** A bucket that holds exactly the keys 1 to its counter, as NextSequence and Put leave it. */
  function Numbered<V>(vs: seq<V>): Bucket<V> {
    Bucket(|vs|, NumberedItems(vs))
  }

  /** The value numbered by key k, if the key is one of those issued. */
  function Lookup<V>(vs: seq<V>, k: Key): Option<V> {
    match KeyNumber(k)
    case Some(n) => if 1 <= n <= |vs| then Some(vs[n - 1]) else None
    case None => None
  }

  lemma {:induction false} SeekIs<V>(items: seq<Item<V>>, k: Key, n: nat)
    requires n <= |items|
    requires forall i :: 0 <= i < n ==> Less(items[i].key, k)
    requires n < |items| ==> !Less(items[n].key, k)
    ensures SeekFrom(items, k) == n
  {
    if n == 0 {
    } else {
      assert items[0 := items[0]] == items;
      SeekIs(items[1..], k, n - 1);
    }
  }

  lemma SeekNumbered<V>(vs: seq<V>, n: nat)
    requires n <= |vs| < LIMIT - 1
    ensures SeekFrom(NumberedItems(vs), Itob(n + 1)) == n
  {
    var items := NumberedItems(vs);
    ItemsAt(vs, |vs|);
    forall i | 0 <= i < n ensures Less(items[i].key, Itob(n + 1)) {
      KeyOrder(i + 1, n + 1);
    }
    if n < |items| {
      KeyOrder(n + 1, n + 1);
    }
    SeekIs(items, Itob(n + 1), n);
  }

  lemma GetFound<V>(b: Bucket<V>, vs: seq<V>, n: nat)
    requires b.items == NumberedItems(vs)
    requires 1 <= n <= |vs| < LIMIT - 1
    ensures b.Get(Itob(n)) == Some(vs[n - 1])
  {
    SeekNumbered(vs, n - 1);
    ItemsAt(vs, |vs|);
  }

  /** A lookup finds exactly the keys that were issued, and the next key is still free. */
  lemma GetNumbered<V>(b: Bucket<V>, vs: seq<V>, k: Key)
    requires b.items == NumberedItems(vs)
    requires |vs| < LIMIT - 1
    ensures b.Get(k) == Lookup(vs, k)
  {
    ItemsAt(vs, |vs|);
    if b.Get(k).Some? {
      var n := b.Seek(k) + 1;
      KeyRoundTrip(n);
      GetFound(b, vs, n);
    } else if Lookup(vs, k).Some? {
      GetFound(b, vs, KeyNumber(k).value);
    }
  }

  /** NextSequence followed by Put of the new key appends and overwrites nothing. */
  lemma PutNext<V>(b: Bucket<V>, vs: seq<V>, v: V)
    requires b.items == NumberedItems(vs)
    requires |vs| < LIMIT - 1
    ensures b.Put(Itob(|vs| + 1), v) == b.(items := NumberedItems(vs + [v]))
  {
    hide Itob, SeekFrom;
    SeekNumbered(vs, |vs|);
    ItemsAt(vs, |vs|);
    ItemsAt(vs + [v], |vs| + 1);
    hide ItemsUpTo;
    assert b.items[..|vs|] == b.items && b.items[|vs|..] == [];
    assert NumberedItems(vs) + [Item(Itob(|vs| + 1), v)] == NumberedItems(vs + [v]);
  }

  /** Put under an issued key replaces that value and nothing else. */
  lemma PutExisting<V>(b: Bucket<V>, vs: seq<V>, n: nat, v: V)
    requires b.items == NumberedItems(vs)
    requires 1 <= n <= |vs| < LIMIT - 1
    ensures b.Put(Itob(n), v) == b.(items := NumberedItems(vs[n - 1 := v]))
  {
    SeekNumbered(vs, n - 1);
    ItemsAt(vs, |vs|);
    ItemsAt(vs[n - 1 := v], |vs|);
    assert NumberedItems(vs)[n - 1 := Item(Itob(n), v)] == NumberedItems(vs[n - 1 := v]);
  }

  // ---------- Steps of a transaction ----------

  /** NextSequence and Put under the new key, which CreateBucket never finds in use. */
  method Append<V>(b: Bucket<V>, v: V, ghost vs: seq<V>) returns (b': Bucket<V>, n: nat)
    requires b == Numbered(vs) && |vs| < LIMIT - 1
    ensures b.Get(Itob(n)).None?
    ensures n == |vs| + 1 && b' == Numbered(vs + [v])
  {
    b' := b.NextSequence();
    n := b'.sequence;
    GetNumbered(b, vs, Itob(n));
    KeyRoundTrip(n);
    PutNext(b', vs, v);
    b' := b'.Put(Itob(n), v);
  }

  /** Put of the next key in a bucket whose own counter is not used. */
  method AppendItem<V>(b: Bucket<V>, k: Key, v: V, ghost vs: seq<V>) returns (b': Bucket<V>)
    requires b == Bucket(0, NumberedItems(vs)) && |vs| < LIMIT - 1 && k == Itob(|vs| + 1)
    ensures b' == Bucket(0, NumberedItems(vs + [v]))
  {
    PutNext(b, vs, v);
    b' := b.Put(k, v);
  }

  /** Put under a key that was issued. */
  method Replace<V>(b: Bucket<V>, k: Key, v: V, ghost vs: seq<V>, ghost n: nat) returns (b': Bucket<V>)
    requires b == Numbered(vs) && 1 <= n <= |vs| < LIMIT - 1 && k == Itob(n)
    ensures b' == Numbered(vs[n - 1 := v])
  {
    PutExisting(b, vs, n, v);
    b' := b.Put(k, v);
  }

  method Find<V>(b: Bucket<V>, k: Key, ghost vs: seq<V>) returns (r: Option<V>)
    requires b == Numbered(vs) && |vs| < LIMIT - 1
    ensures r == Lookup(vs, k)
  {
    GetNumbered(b, vs, k);
    r := b.Get(k);
  }
}
