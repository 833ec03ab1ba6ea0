/** The chained hash table of the C helpers (src/shared/helper/hashtable.c).
    The bucket array is fixed at creation (resizing is a stub); each bucket
    is a singly linked chain, modelled as the sequence of its items front to
    back. Keys are compared with the table's compare function, modelled as
    equality of keys. */
module HashTable {
  import opened Wrappers

  /** HASHTABLE_DEFAULT_CAPACITY. */
  const DEFAULT_CAPACITY: nat := 64

  /** One hashtable_item: its key and value (the next pointer is the chain's
      order). */
  datatype Item<K, V> = Item(key: K, value: V)

  /** The items of `chains`, bucket after bucket, each chain front to back. */
  ghost function Flatten<T>(chains: seq<seq<T>>): (r: seq<T>)
    decreases |chains|
  {
    if chains == [] then [] else Flatten(chains[..|chains| - 1]) + chains[|chains| - 1]
  }

  /** The items of the first buckets are a prefix of the items of all. */
  lemma {:induction false} FlattenPrefix<T>(chains: seq<seq<T>>, b: nat)
    requires b <= |chains|
    ensures |Flatten(chains[..b])| <= |Flatten(chains)|
    ensures Flatten(chains)[..|Flatten(chains[..b])|] == Flatten(chains[..b])
    decreases |chains| - b
  {
    if b < |chains| {
      FlattenPrefix(chains, b + 1);
      assert chains[..b + 1][..b] == chains[..b];
    } else {
      assert chains[..b] == chains;
    }
  }

  /** Item j of bucket b sits at the number of items before bucket b, plus j. */
  lemma {:induction false} FlattenAt<T>(chains: seq<seq<T>>, b: nat, j: nat)
    requires b < |chains| && j < |chains[b]|
    ensures |Flatten(chains[..b])| + j < |Flatten(chains)|
    ensures Flatten(chains)[|Flatten(chains[..b])| + j] == chains[b][j]
  {
    FlattenPrefix(chains, b + 1);
    assert chains[..b + 1][..b] == chains[..b];
  }

  /** Adding bucket b to the buckets before it adds its items. */
  lemma FlattenStep<T>(chains: seq<seq<T>>, b: nat)
    requires b < |chains|
    ensures |Flatten(chains[..b + 1])| == |Flatten(chains[..b])| + |chains[b]|
  {
    assert chains[..b + 1][..b] == chains[..b];
  }

  /** Every item of the flattened buckets comes from some bucket. */
  lemma {:induction false} FlattenFrom<T>(chains: seq<seq<T>>, n: nat)
    requires n < |Flatten(chains)|
    ensures exists b, i :: 0 <= b < |chains| && 0 <= i < |chains[b]| && Flatten(chains)[n] == chains[b][i]
    decreases |chains|
  {
    var last := |chains| - 1;
    var front := chains[..last];
    if n < |Flatten(front)| {
      FlattenFrom(front, n);
      var b, i :| 0 <= b < |front| && 0 <= i < |front[b]| && Flatten(front)[n] == front[b][i];
      assert Flatten(chains)[n] == chains[b][i];
    } else {
      assert Flatten(chains)[n] == chains[last][n - |Flatten(front)|];
    }
  }

  /** Replacing one bucket changes the item count by the difference. */
  lemma {:induction false} FlattenUpdate<T>(chains: seq<seq<T>>, b: nat, chain: seq<T>)
    requires b < |chains|
    ensures |Flatten(chains[b := chain])| == |Flatten(chains)| - |chains[b]| + |chain|
    decreases |chains|
  {
    var last := |chains| - 1;
    if b < last {
      FlattenUpdate(chains[..last], b, chain);
      assert chains[b := chain][..last] == chains[..last][b := chain];
    } else {
      assert chains[b := chain][..last] == chains[..last];
    }
  }

  /** The position of the first item of `chain` holding `key`: the walk
      down a chain that set, has, get and remove all make. */
  function KeyIndex<K(==), V>(chain: seq<Item<K, V>>, key: K): (r: Option<nat>)
    ensures r.Some? ==> r.value < |chain| && chain[r.value].key == key
    ensures r.Some? ==> forall i :: 0 <= i < r.value ==> chain[i].key != key
    ensures r.None? ==> forall i :: 0 <= i < |chain| ==> chain[i].key != key
    decreases |chain|
  {
    if chain == [] then None
    else if chain[0].key == key then Some(0)
    else match KeyIndex(chain[1..], key)
      case None => None
      case Some(i) => Some(i + 1)
  }

  /** The value stored under `key` in one chain, if any. */
  function Lookup<K(==), V>(chain: seq<Item<K, V>>, key: K): Option<V>
  {
    match KeyIndex(chain, key)
    case None => None
    case Some(j) => Some(chain[j].value)
  }

  /** In a chain of distinct keys, each item is the one found for its key. */
  lemma LookupAt<K, V>(chain: seq<Item<K, V>>, j: nat)
    requires j < |chain|
    requires forall a, b :: 0 <= a < b < |chain| ==> chain[a].key != chain[b].key
    ensures KeyIndex(chain, chain[j].key) == Some(j)
    ensures Lookup(chain, chain[j].key) == Some(chain[j].value)
  {
  }

  /** A chain of the table: every item's key hashes to bucket `b`, and no key
      occurs twice. */
  ghost predicate ChainOk<K, V>(chain: seq<Item<K, V>>, hash: (K, nat) -> nat, bucketCount: nat, b: nat)
  {
    && (forall j :: 0 <= j < |chain| ==> hash(chain[j].key, bucketCount) == b)
    && (forall i, j :: 0 <= i < j < |chain| ==> chain[i].key != chain[j].key)
  }

  /** struct hashtable: the hash function, the fixed bucket array and the
      item count. The compare and destroy callbacks and the load factor
      (stored, never read) are not part of this model. */
  class Table<K(==,!new), V> {
    const hash: (K, nat) -> nat
    const bucketCount: nat
    const buckets: array<seq<Item<K, V>>>
    var size: nat

    /** The table's invariant: every chain is well formed and `size` counts
        the chained items. */
    ghost predicate Valid()
      reads this, buckets
    {
      && buckets.Length == bucketCount
      && (forall b :: 0 <= b < bucketCount ==> ChainOk(buckets[b], hash, bucketCount, b))
      && size == |Flatten(buckets[..])|
    }

    /** The value a lookup of `key` finds: none when its hash is out of range
        or its chain lacks it. */
    ghost function Find(key: K): (r: Option<V>)
      reads this, buckets
      requires Valid()
    {
      var h := hash(key, bucketCount);
      if h < bucketCount then Lookup(buckets[h], key) else None
    }

    /** Every item the table's iteration order lists is what a lookup of
        its key finds. */
    lemma ItemsFound()
      requires Valid()
      ensures forall n :: 0 <= n < |Flatten(buckets[..])| ==>
        Find(Flatten(buckets[..])[n].key) == Some(Flatten(buckets[..])[n].value)
    {
      forall n | 0 <= n < |Flatten(buckets[..])|
        ensures Find(Flatten(buckets[..])[n].key) == Some(Flatten(buckets[..])[n].value)
      {
        FlattenFrom(buckets[..], n);
        var b, i :| 0 <= b < bucketCount && 0 <= i < |buckets[b]| && Flatten(buckets[..])[n] == buckets[b][i];
        LookupAt(buckets[b], i);
      }
    }

    /** hashtable_create (with HASHTABLE_DEFAULT_CAPACITY buckets) and
        hashtable_create_sized: all buckets empty, size 0. */
    constructor (hash: (K, nat) -> nat, bucketCount: nat)
      ensures Valid() && fresh(buckets)
      ensures this.hash == hash && this.bucketCount == bucketCount && size == 0
      ensures forall key :: Find(key) == None
    {
      this.hash := hash;
      this.bucketCount := bucketCount;
      buckets := new seq<Item<K, V>>[bucketCount](_ => []);
      size := 0;
      new;
      assert forall b :: 0 <= b < bucketCount ==> buckets[b] == [];
      EmptyChains(buckets[..]);
    }

    /** hashtable_set: a present key has its item replaced where it stands;
        an absent key gets a new item at the tail of its chain and size grows
        by one. A hash out of range changes nothing. */
    method Set(key: K, value: V)
      requires Valid()
      modifies this`size, buckets
      ensures Valid()
      ensures var h := hash(key, bucketCount);
        h < bucketCount ==> buckets[..] == old(buckets[..])[h := Updated(old(buckets[h]), key, value)]
      ensures hash(key, bucketCount) >= bucketCount ==> buckets[..] == old(buckets[..]) && size == old(size)
      ensures hash(key, bucketCount) < bucketCount ==> Find(key) == Some(value)
      ensures forall k :: k != key ==> Find(k) == old(Find(k))
      ensures size == if hash(key, bucketCount) < bucketCount && old(Find(key)).None? then old(size) + 1 else old(size)
    {
      var h := hash(key, bucketCount);
      if h >= bucketCount {
        return;
      }
      var chain := buckets[h];
      var i := 0;
      while i < |chain|
        invariant 0 <= i <= |chain|
        invariant forall j :: 0 <= j < i ==> chain[j].key != key
      {
        if chain[i].key == key {
          SetStep(h, chain[i := Item(key, value)], key, value);
          buckets[h] := chain[i := Item(key, value)];
          return;
        }
        i := i + 1;
      }
      SetStep(h, chain + [Item(key, value)], key, value);
      buckets[h] := chain + [Item(key, value)];
      size := size + 1;
    }

    /** What Set writes into bucket h keeps the table valid and answers
        lookups as a map updated at `key`. */
    lemma SetStep(h: nat, chain: seq<Item<K, V>>, key: K, value: V)
      requires Valid() && h == hash(key, bucketCount) && h < bucketCount
      requires chain == Updated(buckets[h], key, value)
      ensures ChainOk(chain, hash, bucketCount, h)
      ensures Lookup(chain, key) == Some(value)
      ensures forall k :: k != key ==> Lookup(chain, k) == Lookup(buckets[h], k)
      ensures |chain| == if Lookup(buckets[h], key).None? then |buckets[h]| + 1 else |buckets[h]|
      ensures |Flatten(buckets[..][h := chain])| == |Flatten(buckets[..])| - |buckets[h]| + |chain|
    {
      UpdatedChain(buckets[h], hash, bucketCount, h, key, value);
      FlattenUpdate(buckets[..], h, chain);
    }

    /** hashtable_has. */
    method Has(key: K) returns (r: bool)
      requires Valid()
      ensures r <==> Find(key).Some?
    {
      var found := Get(key);
      r := found.Some?;
    }

    /** hashtable_get: the value stored under `key`, or NULL. */
    method Get(key: K) returns (r: Option<V>)
      requires Valid()
      ensures r == Find(key)
    {
      var h := hash(key, bucketCount);
      if h >= bucketCount {
        return None;
      }
      var chain := buckets[h];
      var i := 0;
      while i < |chain|
        invariant 0 <= i <= |chain|
        invariant forall j :: 0 <= j < i ==> chain[j].key != key
      {
        if chain[i].key == key {
          return Some(chain[i].value);
        }
        i := i + 1;
      }
      return None;
    }

    /** hashtable_remove: true and one item fewer iff the key was present;
        the other items keep their chains and order. */
    method Remove(key: K) returns (r: bool)
      requires Valid()
      modifies this`size, buckets
      ensures Valid()
      ensures r <==> old(Find(key)).Some?
      ensures Find(key) == None
      ensures forall k :: k != key ==> Find(k) == old(Find(k))
      ensures size == if r then old(size) - 1 else old(size)
      ensures var h := hash(key, bucketCount);
        h < bucketCount ==> buckets[..] == old(buckets[..])[h := Removed(old(buckets[h]), key)]
      ensures hash(key, bucketCount) >= bucketCount ==> buckets[..] == old(buckets[..])
    {
      var h := hash(key, bucketCount);
      if h >= bucketCount {
        return false;
      }
      var chain := buckets[h];
      var i := 0;
      while i < |chain|
        invariant 0 <= i <= |chain|
        invariant forall j :: 0 <= j < i ==> chain[j].key != key
      {
        if chain[i].key == key {
          RemoveStep(h, key);
          buckets[h] := chain[..i] + chain[i + 1..];
          size := size - 1;
          return true;
        }
        i := i + 1;
      }
      RemoveStep(h, key);
      return false;
    }

    /** What Remove leaves in bucket h keeps the table valid and answers
        lookups as a map without `key`. */
    lemma RemoveStep(h: nat, key: K)
      requires Valid() && h == hash(key, bucketCount) && h < bucketCount
      ensures var chain := Removed(buckets[h], key);
        && ChainOk(chain, hash, bucketCount, h)
        && Lookup(chain, key) == None
        && (forall k :: k != key ==> Lookup(chain, k) == Lookup(buckets[h], k))
        && |chain| == (if Lookup(buckets[h], key).Some? then |buckets[h]| - 1 else |buckets[h]|)
        && |Flatten(buckets[..][h := chain])| == |Flatten(buckets[..])| - |buckets[h]| + |chain|
    {
      RemovedChain(buckets[h], hash, bucketCount, h, key);
      FlattenUpdate(buckets[..], h, Removed(buckets[h], key));
    }
  }

  /** A bucket array of empty chains holds no items. */
  lemma {:induction false} EmptyChains<T>(chains: seq<seq<T>>)
    requires forall b :: 0 <= b < |chains| ==> chains[b] == []
    ensures Flatten(chains) == []
    decreases |chains|
  {
    if chains != [] {
      EmptyChains(chains[..|chains| - 1]);
    }
  }

  /** The chain hashtable_set leaves: the item with `key` replaced where it
      stands, or a new item at the tail. */
  function Updated<K(==), V>(chain: seq<Item<K, V>>, key: K, value: V): seq<Item<K, V>>
  {
    match KeyIndex(chain, key)
    case Some(j) => chain[j := Item(key, value)]
    case None => chain + [Item(key, value)]
  }

  /** Updated keeps a chain well formed, stores the value under `key` and
      leaves every other key's value alone. */
  lemma {:induction false} UpdatedChain<K, V>(chain: seq<Item<K, V>>, hash: (K, nat) -> nat, bucketCount: nat,
                                              b: nat, key: K, value: V)
    requires ChainOk(chain, hash, bucketCount, b) && hash(key, bucketCount) == b
    ensures ChainOk(Updated(chain, key, value), hash, bucketCount, b)
    ensures Lookup(Updated(chain, key, value), key) == Some(value)
    ensures forall k :: k != key ==> Lookup(Updated(chain, key, value), k) == Lookup(chain, k)
    ensures |Updated(chain, key, value)| == if Lookup(chain, key).None? then |chain| + 1 else |chain|
  {
    var r := Updated(chain, key, value);
    var at := if KeyIndex(chain, key).Some? then KeyIndex(chain, key).value else |chain|;
    assert forall i :: 0 <= i < |r| && i != at ==> r[i] == chain[i];
    assert at < |r| && r[at] == Item(key, value);
    assert ChainOk(r, hash, bucketCount, b);
    LookupAt(r, at);
    forall k | k != key
      ensures Lookup(r, k) == Lookup(chain, k)
    {
      match KeyIndex(chain, k)
      case Some(i) =>
        LookupAt(chain, i);
        LookupAt(r, i);
      case None =>
        assert forall i :: 0 <= i < |r| ==> r[i].key != k;
    }
  }

  /** The chain hashtable_remove leaves: the item with `key` unlinked. */
  function Removed<K(==), V>(chain: seq<Item<K, V>>, key: K): seq<Item<K, V>>
  {
    match KeyIndex(chain, key)
    case Some(j) => chain[..j] + chain[j + 1..]
    case None => chain
  }

  /** Removed keeps a chain well formed, drops `key` and leaves every other
      key's value alone. */
  lemma {:induction false} RemovedChain<K, V>(chain: seq<Item<K, V>>, hash: (K, nat) -> nat, bucketCount: nat,
                                              b: nat, key: K)
    requires ChainOk(chain, hash, bucketCount, b)
    ensures ChainOk(Removed(chain, key), hash, bucketCount, b)
    ensures Lookup(Removed(chain, key), key) == None
    ensures forall k :: k != key ==> Lookup(Removed(chain, key), k) == Lookup(chain, k)
    ensures |Removed(chain, key)| == if Lookup(chain, key).Some? then |chain| - 1 else |chain|
  {
    var r := Removed(chain, key);
    if KeyIndex(chain, key).Some? {
      var at := KeyIndex(chain, key).value;
      assert forall i :: 0 <= i < at ==> r[i] == chain[i];
      assert forall i :: at <= i < |r| ==> r[i] == chain[i + 1];
      assert ChainOk(r, hash, bucketCount, b);
      assert forall i :: 0 <= i < |r| ==> r[i].key != key;
      forall k | k != key
        ensures Lookup(r, k) == Lookup(chain, k)
      {
        match KeyIndex(chain, k)
        case Some(i) =>
          LookupAt(chain, i);
          if i < at {
            LookupAt(r, i);
          } else {
            LookupAt(r, i - 1);
          }
        case None =>
          assert forall i :: 0 <= i < |r| ==> r[i].key != k;
      }
    }
  }

  /** struct hashtable_iterator: the table, the current bucket index and the
      current item (NULL once the last bucket is passed), modelled as the
      item's position in its chain. */
  class Iterator<K(==,!new), V> {
    const table: Table<K, V>
    var bucketIndex: nat
    var item: Option<nat>

    /** The iterator stands on an item of the table, or past its last
        bucket. */
    ghost predicate Valid()
      reads this, table, table.buckets
    {
      && table.Valid() && table.bucketCount > 0
      && (item.Some? ==> bucketIndex < table.bucketCount && item.value < |table.buckets[bucketIndex]|)
      && (item.None? ==> bucketIndex == table.bucketCount)
    }

    /** The table's items in iteration order. */
    ghost function Items(): seq<Item<K, V>>
      reads this, table, table.buckets
    {
      Flatten(table.buckets[..])
    }

    /** How many items lie before the iterator. */
    ghost function Position(): nat
      reads this, table, table.buckets
      requires Valid()
    {
      if item.Some? then |Flatten(table.buckets[..][..bucketIndex])| + item.value else |Items()|
    }

    /** hashtable_iterator_init: positioned on the table's first item, if
        any (bucket 0 is read unconditionally, so the table needs a
        bucket). */
    constructor (table: Table<K, V>)
      requires table.Valid() && table.bucketCount > 0
      ensures Valid() && this.table == table && Position() == 0
    {
      this.table := table;
      var chain := table.buckets[0];
      bucketIndex := 0;
      item := if chain != [] then Some(0) else None;
      new;
      assert table.buckets[..][..0] == [];
      if item.None? {
        Skip(0);
      }
    }

    /** The search loop shared by init and next: from the empty bucket at
        bucketIndex, move to the next non-empty bucket or past the last. */
    method Skip(ghost start: nat)
      requires table.Valid() && table.bucketCount > 0
      requires bucketIndex < table.bucketCount && item.None? && table.buckets[bucketIndex] == []
      requires start <= bucketIndex
      requires |Flatten(table.buckets[..][..bucketIndex])| == |Flatten(table.buckets[..][..start])|
      modifies this`bucketIndex, this`item
      ensures Valid() && Position() == |Flatten(table.buckets[..][..start])|
    {
      ghost var chains := table.buckets[..];
      while item.None?
        invariant chains == table.buckets[..]
        invariant bucketIndex <= table.bucketCount
        invariant item.None? ==> bucketIndex < table.bucketCount && chains[bucketIndex] == []
        invariant item.Some? ==> bucketIndex < table.bucketCount && item.value == 0 < |chains[bucketIndex]|
        invariant |Flatten(chains[..bucketIndex])| == |Flatten(chains[..start])|
        decreases table.bucketCount - bucketIndex, if item.None? then 1 else 0
      {
        FlattenStep(chains, bucketIndex);
        bucketIndex := bucketIndex + 1;
        if bucketIndex >= table.bucketCount {
          assert chains[..bucketIndex] == chains;
          break;
        }
        var chain := table.buckets[bucketIndex];
        item := if chain != [] then Some(0) else None;
      }
    }

    /** hashtable_iterator_next: on to the following item; nothing once
        finished. */
    method Next()
      requires Valid()
      modifies this`bucketIndex, this`item
      ensures Valid()
      ensures old(Position()) < |Items()| ==> Position() == old(Position()) + 1
      ensures old(Position()) == |Items()| ==> Position() == |Items()|
    {
      if item.None? {
        return;
      }
      ghost var chains := table.buckets[..];
      ghost var was := Position();
      FlattenAt(chains, bucketIndex, item.value);
      var chain := table.buckets[bucketIndex];
      if item.value + 1 < |chain| {
        item := Some(item.value + 1);
        return;
      }
      FlattenStep(chains, bucketIndex);
      item := None;
      if bucketIndex + 1 >= table.bucketCount {
        bucketIndex := bucketIndex + 1;
        assert chains[..bucketIndex] == chains;
        return;
      }
      bucketIndex := bucketIndex + 1;
      var next := table.buckets[bucketIndex];
      if next != [] {
        item := Some(0);
      } else {
        Skip(bucketIndex);
      }
    }

    /** hashtable_iterator_finished. */
    method Finished() returns (r: bool)
      requires Valid()
      ensures r <==> Position() == |Items()|
    {
      r := item.None?;
      if item.Some? {
        FlattenAt(table.buckets[..], bucketIndex, item.value);
      }
    }

    /** hashtable_iterator_value: the value of the item at the iterator's
        position, or NULL once finished. */
    method Value() returns (r: Option<V>)
      requires Valid()
      ensures Position() < |Items()| ==> r == Some(Items()[Position()].value)
      ensures Position() == |Items()| ==> r == None
    {
      if item.None? {
        return None;
      }
      FlattenAt(table.buckets[..], bucketIndex, item.value);
      r := Some(table.buckets[bucketIndex][item.value].value);
    }
  }

  /** The position always lies within the table's items. */
  lemma PositionBound<K(!new), V>(it: Iterator<K, V>)
    requires it.Valid()
    ensures it.Position() <= |it.Items()|
  {
    if it.item.Some? {
      FlattenAt(it.table.buckets[..], it.bucketIndex, it.item.value);
    }
  }

  /** 2^32: uint32_t arithmetic wraps modulo this. */
  const MOD32: nat := 0x1_0000_0000

  /** A uint32_t, kept as an integer below 2^32 so that each wrap-around is
      written out. */
  type UInt32 = x: nat | x < MOD32

  /** One byte of a C string. */
  type Char = x: nat | x < 0x100

  function Pow2(n: nat): (r: nat)
    ensures r >= 1
  {
    if n == 0 then 1 else 2 * Pow2(n - 1)
  }

  /** Eight more bits multiply the range by 256. */
  lemma {:induction false} Pow2Eight(n: nat)
    ensures Pow2(n + 8) == 256 * Pow2(n)
  {
    assert Pow2(n + 8) == 2 * Pow2(n + 7) == 4 * Pow2(n + 6) == 8 * Pow2(n + 5) == 16 * Pow2(n + 4)
      == 32 * Pow2(n + 3) == 64 * Pow2(n + 2) == 128 * Pow2(n + 1) == 256 * Pow2(n);
  }

  /** Thirty-two bits span exactly the uint32 range. */
  lemma Pow2ThirtyTwo()
    ensures Pow2(32) == MOD32
  {
    Pow2Eight(0);
    Pow2Eight(8);
    Pow2Eight(16);
    Pow2Eight(24);
  }

  /** The exclusive or of the low n bits of a and b. */
  function XorBits(a: nat, b: nat, n: nat): (r: nat)
    ensures r < Pow2(n)
  {
    if n == 0 then 0 else (a % 2 + b % 2) % 2 + 2 * XorBits(a / 2, b / 2, n - 1)
  }

  /** The ^ operator on uint32_t. */
  function Xor(a: nat, b: nat): nat
  {
    XorBits(a, b, 32)
  }

  /** The exclusive or of two uint32_t values is a uint32_t. */
  lemma XorRange(a: nat, b: nat)
    ensures Xor(a, b) < MOD32
  {
    Pow2ThirtyTwo();
  }

  /** One char of the key, as the (signed) char the loop adds to the
      uint32_t accumulator: a byte of 0x80 or more is negative and wraps. */
  function CharValue(c: Char): nat
  {
    if c < 0x80 then c else c + 0xFFFF_FF00
  }

  /** The mixing of one character into the accumulator: h += c;
      h += h << 10; h ^= h >> 6, each wrapping modulo 2^32. */
  function MixStep(h: nat, c: Char): nat
  {
    var h := (h + CharValue(c)) % MOD32;
    var h := (h + h * 1024 % MOD32) % MOD32;
    Xor(h, h / 64)
  }

  /** The per-character mixing of Jenkins' one-at-a-time hash, over the
      characters of `key` in order. */
  function Mix(key: seq<Char>): nat
    decreases |key|
  {
    if key == [] then 0 else MixStep(Mix(key[..|key| - 1]), key[|key| - 1])
  }

  /** The final avalanche of the one-at-a-time hash: h += h << 3;
      h ^= h >> 11; h += h << 15. */
  function Finish(h: nat): nat
  {
    var h := (h + h * 8 % MOD32) % MOD32;
    var h := Xor(h, h / 2048);
    (h + h * 32768 % MOD32) % MOD32
  }

  /** The accumulator stays a uint32_t: every mixing step and the final
      avalanche end in a value below 2^32. */
  lemma HashRange(key: seq<Char>)
    ensures Mix(key) < MOD32 && Finish(Mix(key)) < MOD32
  {
    if key != [] {
      MixStepRange(Mix(key[..|key| - 1]), key[|key| - 1]);
    }
    FinishRange(Mix(key));
  }

  /** One mixing step ends in a uint32_t. */
  lemma MixStepRange(h: nat, c: Char)
    ensures MixStep(h, c) < MOD32
  {
    var h1 := (h + CharValue(c)) % MOD32;
    var h2 := (h1 + h1 * 1024 % MOD32) % MOD32;
    XorRange(h2, h2 / 64);
  }

  /** The final avalanche ends in a uint32_t. */
  lemma FinishRange(h: nat)
    ensures Finish(h) < MOD32
  {
  }

  /** hashtable_hash_string over the characters before the terminating NUL:
      the one-at-a-time hash reduced modulo the bucket count, so always a
      bucket of the table. */
  method HashString(key: seq<Char>, bucketCount: nat) returns (r: nat)
    requires bucketCount > 0
    requires forall k :: 0 <= k < |key| ==> key[k] != 0
    ensures r == Finish(Mix(key)) % bucketCount
    ensures r < bucketCount
  {
    var hash := 0;
    var i := 0;
    while i < |key|
      invariant 0 <= i <= |key|
      invariant hash == Mix(key[..i])
    {
      assert key[..i + 1][..i] == key[..i];
      hash := MixStep(hash, key[i]);
      i := i + 1;
    }
    assert key[..i] == key;
    hash := Finish(hash);
    r := hash % bucketCount;
  }
}
