/** Operations on an ordered dictionary, kept as its slots in order: the oldest first. */
module OrderedStore {
  import opened Basics

  datatype Slot<+K, +E> = Slot(key: K, entry: E)

  function Find<K(==), E>(s: seq<Slot<K, E>>, k: K): Option<E> {
    if s == [] then None else if s[0].key == k then Some(s[0].entry) else Find(s[1..], k)
  }

  /** The slots with other keys, in order. */
  function Without<K(==), E>(s: seq<Slot<K, E>>, k: K): seq<Slot<K, E>> {
    if s == [] then [] else (if s[0].key == k then [] else [s[0]]) + Without(s[1..], k)
  }

  predicate Unique<K(==), E>(s: seq<Slot<K, E>>) {
    s == [] || (Find(s[1..], s[0].key) == None && Unique(s[1..]))
  }

  /** Assignment to a key: in place when it is present, else at the end. */
  function Assign<K(==), E>(s: seq<Slot<K, E>>, k: K, e: E): seq<Slot<K, E>> {
    if s == [] then [Slot(k, e)] else if s[0].key == k then [Slot(k, e)] + s[1..] else [s[0]] + Assign(s[1..], k, e)
  }

  function MoveToEnd<K(==), E>(s: seq<Slot<K, E>>, k: K): seq<Slot<K, E>> {
    match Find(s, k)
    case None => s
    case Some(e) => Without(s, k) + [Slot(k, e)]
  }

  lemma {:induction false} FindConcat<K, E>(a: seq<Slot<K, E>>, b: seq<Slot<K, E>>, k: K)
    ensures Find(a + b, k) == if Find(a, k).Some? then Find(a, k) else Find(b, k)
    ensures Without(a + b, k) == Without(a, k) + Without(b, k)
  {
    if a == [] {
      assert a + b == b;
    } else {
      assert (a + b)[1..] == a[1..] + b;
      FindConcat(a[1..], b, k);
      Associate(if a[0].key == k then [] else [a[0]], Without(a[1..], k), Without(b, k));
    }
  }

  lemma {:induction false} WithoutMissing<K, E>(s: seq<Slot<K, E>>, k: K)
    ensures |Without(s, k)| <= |s|
    ensures Find(s, k) == None ==> Without(s, k) == s
    ensures Find(Without(s, k), k) == None
  {
    if s != [] {
      WithoutMissing(s[1..], k);
      FindConcat(if s[0].key == k then [] else [s[0]], Without(s[1..], k), k);
    }
  }

  lemma {:induction false} FindIsPart<K, E>(s: seq<Slot<K, E>>, k: K)
    ensures Find(s, k).Some? ==> Slot(k, Find(s, k).value) in s
    ensures forall slot :: slot in Without(s, k) ==> slot in s
  {
    if s != [] {
      FindIsPart(s[1..], k);
    }
  }

  lemma {:induction false} FindWithout<K, E>(s: seq<Slot<K, E>>, k: K, other: K)
    requires k != other
    ensures Find(Without(s, k), other) == Find(s, other)
  {
    if s != [] {
      FindWithout(s[1..], k, other);
      FindConcat(if s[0].key == k then [] else [s[0]], Without(s[1..], k), other);
    }
  }

  lemma {:induction false} WithoutIsUnique<K, E>(s: seq<Slot<K, E>>, k: K)
    requires Unique(s)
    ensures Unique(Without(s, k))
    ensures Find(s, k).Some? ==> |Without(s, k)| == |s| - 1
  {
    if s != [] {
      WithoutIsUnique(s[1..], k);
      var rest := Without(s[1..], k);
      if s[0].key == k {
        WithoutMissing(s[1..], k);
        assert [] + rest == rest;
      } else {
        FindWithout(s[1..], k, s[0].key);
        assert ([s[0]] + rest)[1..] == rest;
      }
    }
  }

  lemma {:induction false} UniqueConcat<K, E>(a: seq<Slot<K, E>>, b: seq<Slot<K, E>>)
    requires Unique(a + b)
    ensures Unique(a) && Unique(b)
    ensures forall k :: Find(b, k).Some? ==> Find(a, k) == None
  {
    if a == [] {
      assert a + b == b;
    } else {
      assert (a + b)[1..] == a[1..] + b;
      UniqueConcat(a[1..], b);
      FindConcat(a[1..], b, a[0].key);
    }
  }

  lemma {:induction false} AppendIsUnique<K, E>(s: seq<Slot<K, E>>, k: K, e: E)
    requires Unique(s) && Find(s, k) == None
    ensures Unique(s + [Slot(k, e)])
    ensures Find(s + [Slot(k, e)], k) == Some(e)
  {
    FindConcat(s, [Slot(k, e)], k);
    if s != [] {
      AppendIsUnique(s[1..], k, e);
      assert (s + [Slot(k, e)])[1..] == s[1..] + [Slot(k, e)];
      FindConcat(s[1..], [Slot(k, e)], s[0].key);
    }
  }

  /** Assigning a key and moving it to the end leaves it last, and the others as they were. */
  lemma {:induction false} AssignThenMove<K, E>(s: seq<Slot<K, E>>, k: K, e: E)
    requires Unique(s)
    ensures Find(Assign(s, k, e), k) == Some(e)
    ensures Without(Assign(s, k, e), k) == Without(s, k)
    ensures MoveToEnd(Assign(s, k, e), k) == Without(s, k) + [Slot(k, e)]
  {
    if s != [] && s[0].key != k {
      AssignThenMove(s[1..], k, e);
      assert Assign(s, k, e)[1..] == Assign(s[1..], k, e);
    } else if s != [] {
      assert Assign(s, k, e)[1..] == s[1..];
    }
  }

  lemma {:induction false} SuffixIsUnique<K, E>(s: seq<Slot<K, E>>, n: nat)
    requires Unique(s) && n <= |s|
    ensures Unique(s[n..])
  {
    assert s == s[..n] + s[n..];
    UniqueConcat(s[..n], s[n..]);
  }
}

/** The translation-unit cache of one session, called by one thread at a time. */
module TuCache {
  import opened Basics
  import opened OrderedStore

  /** Real paths, and the flags themselves for their hash. */
  datatype Key = Key(file: string, build: string, flags: seq<string>)

  datatype Entry<+T> = Entry(tu: T, mtime: int)

  type Store<+T> = seq<Slot<Key, Entry<T>>>

  datatype Cache<+T> = Cache(capacity: nat, store: Store<T>, hits: nat, misses: nat, evictions: nat)
  {
    ghost predicate Valid() { 0 < capacity && |store| <= capacity && Unique(store) }
  }

  datatype CacheStats = CacheStats(size: nat, capacity: nat, hits: nat, misses: nat, evictions: nat, hitRate: real)

  /** The stamp compared on lookup: no file has a time of -1. */
  function StampNow(mtime: Option<int>): int {
    if mtime.Some? then mtime.value else -1
  }

  /** The stamp recorded after a parse. */
  function StampAfter(mtime: Option<int>): int {
    if mtime.Some? then mtime.value else 0
  }

  /** The first critical section: a hit, or a counted miss with a stale entry dropped. */
  function LookUp<T>(c: Cache<T>, key: Key, mtime: Option<int>): (Cache<T>, Option<T>) {
    match Find(c.store, key)
    case Some(entry) =>
      if StampNow(mtime) == entry.mtime then
        (c.(store := MoveToEnd(c.store, key), hits := c.hits + 1), Some(entry.tu))
      else
        (c.(store := Without(c.store, key), evictions := c.evictions + 1, misses := c.misses + 1), None)
    case None => (c.(misses := c.misses + 1), None)
  }

  /** How many of the oldest entries are evicted to make room. */
  function Overflow(size: nat, capacity: nat): nat
    requires 0 < capacity
  {
    if size >= capacity then size - capacity + 1 else 0
  }

  /** The second critical section. */
  function Insert<T>(c: Cache<T>, key: Key, entry: Entry<T>): Cache<T>
    requires 0 < c.capacity
  {
    var n := Overflow(|c.store|, c.capacity);
    c.(store := Without(c.store[n..], key) + [Slot(key, entry)], evictions := c.evictions + n)
  }

  /** A whole request: `parsed` is None when the parser raises. */
  function Request<T>(c: Cache<T>, key: Key, before: Option<int>, parsed: Option<T>, after: Option<int>)
    : (Cache<T>, Result<(T, bool), ()>)
    requires 0 < c.capacity
  {
    var (looked, found) := LookUp(c, key, before);
    match found
    case Some(tu) => (looked, Ok((tu, true)))
    case None =>
      match parsed
      case None => (looked, Err(()))
      case Some(tu) => (Insert(looked, key, Entry(tu, StampAfter(after))), Ok((tu, false)))
  }

  predicate Matches(key: Key, file: string, build: Option<string>) {
    key.file == file && (build.Some? ==> key.build == build.value)
  }

  /** The slots whose keys do not match, in order. */
  function Purge<E>(s: seq<Slot<Key, E>>, file: string, build: Option<string>): seq<Slot<Key, E>> {
    if s == [] then [] else (if Matches(s[0].key, file, build) then [] else [s[0]]) + Purge(s[1..], file, build)
  }

  function Invalidated<T>(c: Cache<T>, file: string, build: Option<string>): Cache<T> {
    var purged := Purge(c.store, file, build);
    c.(store := purged, evictions := c.evictions + if |purged| <= |c.store| then |c.store| - |purged| else 0)
  }

  function Cleared<T>(c: Cache<T>): Cache<T> {
    c.(store := [])
  }

  lemma {:induction false} LookUpValid<T>(c: Cache<T>, key: Key, mtime: Option<int>)
    requires c.Valid()
    ensures LookUp(c, key, mtime).0.Valid()
    ensures LookUp(c, key, mtime).1 == None ==> Find(LookUp(c, key, mtime).0.store, key) == None
  {
    WithoutIsUnique(c.store, key);
    WithoutMissing(c.store, key);
    if Find(c.store, key).Some? {
      AppendIsUnique(Without(c.store, key), key, Find(c.store, key).value);
    }
  }

  lemma {:induction false} InsertValid<T>(c: Cache<T>, key: Key, entry: Entry<T>)
    requires c.Valid()
    ensures Insert(c, key, entry).Valid()
  {
    var kept := c.store[Overflow(|c.store|, c.capacity)..];
    SuffixIsUnique(c.store, Overflow(|c.store|, c.capacity));
    WithoutIsUnique(kept, key);
    WithoutMissing(kept, key);
    AppendIsUnique(Without(kept, key), key, entry);
  }

  lemma {:induction false} RequestValid<T>(c: Cache<T>, key: Key, before: Option<int>, parsed: Option<T>,
                                           after: Option<int>)
    requires c.Valid()
    ensures Request(c, key, before, parsed, after).0.Valid()
  {
    LookUpValid(c, key, before);
    var looked := LookUp(c, key, before).0;
    if parsed.Some? {
      InsertValid(looked, key, Entry(parsed.value, StampAfter(after)));
    }
  }

  /** Whether the cache holds a unit for a key with its source's present time; a missing source has
      none. */
  predicate IsCurrent<T>(c: Cache<T>, key: Key, mtime: Option<int>) {
    var stored := Find(c.store, key);
    stored.Some? && stored.value.mtime == if mtime == None then -1 else mtime.value
  }

  /** What a request returns: the stored unit exactly if it is current, flagged as a hit; else the
      parser's, flagged as none, or the parser's failure. Either way the unit returned is the one
      stored afterwards, after a parse with the time the source has then. */
  lemma {:induction false} RequestAnswer<T>(c: Cache<T>, key: Key, before: Option<int>, parsed: Option<T>,
                                            after: Option<int>)
    requires 0 < c.capacity
    ensures
      var next, r := Request(c, key, before, parsed, after).0, Request(c, key, before, parsed, after).1;
      var current := IsCurrent(c, key, before);
      && (r.Ok? && r.value.1 <==> current)
      && (current ==> r.value.0 == Find(c.store, key).value.tu)
      && (r.Err? <==> !current && parsed == None)
      && (r.Ok? && !r.value.1 ==> parsed == Some(r.value.0))
      && (r.Ok? ==> Find(next.store, key).Some? && Find(next.store, key).value.tu == r.value.0)
      && (r.Ok? && !r.value.1 ==> Find(next.store, key).value.mtime == if after == None then 0 else after.value)
      && next.hits == c.hits + (if current then 1 else 0)
      && next.misses == c.misses + (if current then 0 else 1)
  {
    var looked := LookUp(c, key, before).0;
    WithoutMissing(c.store, key);
    if Find(c.store, key).Some? {
      FindConcat(Without(c.store, key), [Slot(key, Find(c.store, key).value)], key);
    }
    if parsed.Some? {
      var kept := looked.store[Overflow(|looked.store|, c.capacity)..];
      WithoutMissing(kept, key);
      FindConcat(Without(kept, key), [Slot(key, Entry(parsed.value, StampAfter(after)))], key);
    }
  }

  /** An insertion evicts no more than it must: the store grows by the new slot until it is full,
      and then loses just its oldest one. */
  lemma {:induction false} InsertKeeps<T>(c: Cache<T>, key: Key, entry: Entry<T>)
    requires c.Valid() && Find(c.store, key) == None
    ensures
      var kept := if |c.store| < c.capacity then c.store else c.store[1..];
      && Insert(c, key, entry).store == kept + [Slot(key, entry)]
      && Insert(c, key, entry).evictions == c.evictions + (if |c.store| < c.capacity then 0 else 1)
  {
    var n := Overflow(|c.store|, c.capacity);
    assert c.store == c.store[..n] + c.store[n..];
    FindConcat(c.store[..n], c.store[n..], key);
    WithoutMissing(c.store[n..], key);
  }

  lemma {:induction false} PurgeValid<E>(s: seq<Slot<Key, E>>, file: string, build: Option<string>)
    requires Unique(s)
    ensures Unique(Purge(s, file, build)) && |Purge(s, file, build)| <= |s|
    ensures forall k: Key :: k.file == file && (build == None || build == Some(k.build)) ==>
      Find(Purge(s, file, build), k) == None
    ensures forall k: Key :: k.file != file || (build != None && build != Some(k.build)) ==>
      Find(Purge(s, file, build), k) == Find(s, k)
  {
    if s != [] {
      PurgeValid(s[1..], file, build);
      var rest := Purge(s[1..], file, build);
      assert [] + rest == rest && ([s[0]] + rest)[1..] == rest;
      forall k ensures Find(Purge(s, file, build), k) == if Matches(k, file, build) then None else Find(s, k) {
        FindConcat(if Matches(s[0].key, file, build) then [] else [s[0]], Purge(s[1..], file, build), k);
      }
    }
  }

  lemma {:induction false} PurgeIsPart<E>(s: seq<Slot<Key, E>>, file: string, build: Option<string>)
    ensures forall slot :: slot in Purge(s, file, build) ==> slot in s
  {
    if s != [] {
      PurgeIsPart(s[1..], file, build);
    }
  }

  lemma {:induction false} PurgeConcat<T>(a: Store<T>, b: Store<T>, file: string, build: Option<string>)
    ensures Purge(a + b, file, build) == Purge(a, file, build) + Purge(b, file, build)
  {
    if a == [] {
      assert a + b == b;
    } else {
      assert (a + b)[1..] == a[1..] + b;
      PurgeConcat(a[1..], b, file, build);
      Associate(if Matches(a[0].key, file, build) then [] else [a[0]],
                Purge(a[1..], file, build), Purge(b, file, build));
    }
  }

  class TUCache<T> {
    const capacity: nat
    var store: Store<T>
    var hits: nat
    var misses: nat
    var evictions: nat

    /** The program raises ValueError for a capacity that is not positive: see `Create`. */
    constructor (capacity: nat)
      requires 0 < capacity
      ensures Contents() == Cache(capacity, [], 0, 0, 0)
    {
      this.capacity := capacity;
      store, hits, misses, evictions := [], 0, 0, 0;
    }

    static method Create(capacity: int) returns (cache: Result<TUCache<T>, ()>)
      ensures cache.Ok? <==> 0 < capacity
      ensures cache.Ok? ==> fresh(cache.value) && cache.value.Contents() == Cache(capacity, [], 0, 0, 0)
    {
      if capacity <= 0 {
        return Err(());
      }
      var c := new TUCache(capacity);
      return Ok(c);
    }

    function Contents(): Cache<T>
      reads this
    {
      Cache(capacity, store, hits, misses, evictions)
    }

    /** `before` and `after` are what stat returns at the two points, `parsed` what the parser does. */
    method GetOrParse(key: Key, before: Option<int>, parsed: Option<T>, after: Option<int>)
      returns (result: Result<(T, bool), ()>)
      requires Contents().Valid()
      modifies this
      ensures (Contents(), result) == Request(old(Contents()), key, before, parsed, after)
      ensures Contents().Valid()
    {
      RequestValid(Contents(), key, before, parsed, after);
      var entry := Find(store, key);
      if entry.Some? {
        var currentMtime := if before.Some? then before.value else -1;
        if currentMtime == entry.value.mtime {
          store := MoveToEnd(store, key);
          hits := hits + 1;
          return Ok((entry.value.tu, true));
        }
        store := Without(store, key);
        evictions := evictions + 1;
      }
      misses := misses + 1;
      if parsed.None? {
        return Err(());
      }
      var newMtime := if after.Some? then after.value else 0;
      assert Contents() == LookUp(old(Contents()), key, before).0;
      LookUpValid(old(Contents()), key, before);
      AddEntry(key, Entry(parsed.value, newMtime));
      return Ok((parsed.value, false));
    }

    /** The insertion: evict the oldest entries until there is room. */
    method AddEntry(key: Key, entry: Entry<T>)
      requires Contents().Valid()
      modifies this
      ensures Contents() == Insert(old(Contents()), key, entry)
    {
      hide Assign, MoveToEnd, Without, Find, Unique;
      ghost var was, n := store, Overflow(|store|, capacity);
      SuffixIsUnique(was, n);
      ghost var popped: nat := 0;
      while |store| >= capacity
        invariant popped <= n && store == was[popped..]
        invariant evictions == old(evictions) + popped
        invariant hits == old(hits) && misses == old(misses)
      {
        assert was[popped..][1..] == was[popped + 1..];
        store := store[1..];
        evictions := evictions + 1;
        popped := popped + 1;
      }
      AssignThenMove(store, key, entry);
      store := Assign(store, key, entry);
      store := MoveToEnd(store, key);
    }

    method Invalidate(file: string, build: Option<string>) returns (removed: nat)
      requires Contents().Valid()
      modifies this
      ensures Contents() == Invalidated(old(Contents()), file, build)
      ensures removed == |old(store)| - |store|
      ensures Contents().Valid()
    {
      hide MatchingKeys, Dropping, Purge, Without, Unique, Find;
      var before, toRemove: seq<Key> := store, [];
      assert before[..0] == [] && MatchingKeys<T>([], file, build) == [] by { NothingMatches<T>(file, build); }
      for i := 0 to |before|
        invariant toRemove == MatchingKeys(before[..i], file, build)
        invariant Contents() == old(Contents())
      {
        assert before[..i + 1] == before[..i] + [before[i]];
        MatchingAppend(before[..i], before[i], file, build);
        if Matches(before[i].key, file, build) {
          toRemove := toRemove + [before[i].key];
        }
      }
      assert before[..|before|] == before;
      PurgeValid(before, file, build);
      PurgeByKeys(before, file, build);
      assert toRemove[..0] == [];
      DroppingOneMore(before, [], Key("", "", []));
      for j := 0 to |toRemove|
        invariant store == Dropping(before, toRemove[..j])
        invariant evictions == old(evictions) + j && hits == old(hits) && misses == old(misses)
      {
        assert toRemove[..j + 1] == toRemove[..j] + [toRemove[j]];
        DroppingOneMore(before, toRemove[..j], toRemove[j]);
        store := Without(store, toRemove[j]);
        evictions := evictions + 1;
      }
      assert toRemove[..|toRemove|] == toRemove;
      return |toRemove|;
    }

    method Stats() returns (stats: CacheStats)
      ensures stats.size == |store| && stats.capacity == capacity
      ensures stats.hits == hits && stats.misses == misses && stats.evictions == evictions
      ensures stats.hitRate * (hits + misses) as real == hits as real
      ensures hits + misses == 0 ==> stats.hitRate == 0.0
    {
      var total := hits + misses;
      var hitRate := if total > 0 then hits as real / total as real else 0.0;
      return CacheStats(|store|, capacity, hits, misses, evictions, hitRate);
    }

    method Clear()
      modifies this
      ensures Contents() == Cleared(old(Contents()))
    {
      store := [];
    }
  }

  function MatchingKeys<T>(s: Store<T>, file: string, build: Option<string>): seq<Key> {
    if s == [] then
      []
    else
      (if Matches(s[0].key, file, build) then [s[0].key] else []) + MatchingKeys(s[1..], file, build)
  }

  function Dropping<T>(s: Store<T>, keys: seq<Key>): Store<T> {
    if s == [] then [] else (if s[0].key in keys then [] else [s[0]]) + Dropping(s[1..], keys)
  }

  lemma {:induction false} MatchingAppend<T>(s: Store<T>, slot: Slot<Key, Entry<T>>, file: string,
                                             build: Option<string>)
    ensures MatchingKeys(s + [slot], file, build)
         == MatchingKeys(s, file, build) + if Matches(slot.key, file, build) then [slot.key] else []
  {
    if s == [] {
      assert s + [slot] == [slot];
    } else {
      assert (s + [slot])[1..] == s[1..] + [slot];
      MatchingAppend(s[1..], slot, file, build);
      Associate(if Matches(s[0].key, file, build) then [s[0].key] else [], MatchingKeys(s[1..], file, build),
                if Matches(slot.key, file, build) then [slot.key] else []);
    }
  }

  lemma {:induction false} MatchingAreDistinct<T>(s: Store<T>, file: string, build: Option<string>)
    ensures |MatchingKeys(s, file, build)| == |s| - |Purge(s, file, build)|
    ensures forall k :: k in MatchingKeys(s, file, build) ==> Matches(k, file, build)
    ensures forall i :: 0 <= i < |s| && Matches(s[i].key, file, build) ==> s[i].key in MatchingKeys(s, file, build)
  {
    if s != [] {
      MatchingAreDistinct(s[1..], file, build);
      forall i | 0 <= i < |s| && Matches(s[i].key, file, build)
        ensures s[i].key in MatchingKeys(s, file, build)
      {
        assert i > 0 ==> s[i] == s[1..][i - 1];
      }
    }
  }

  lemma NothingMatches<T>(file: string, build: Option<string>)
    ensures MatchingKeys<T>([], file, build) == []
  {
  }

  /** Deleting the matching keys one by one leaves the slots with other keys. */
  lemma {:induction false} PurgeByKeys<T>(s: Store<T>, file: string, build: Option<string>)
    ensures Dropping(s, MatchingKeys(s, file, build)) == Purge(s, file, build)
    ensures |MatchingKeys(s, file, build)| == |s| - |Purge(s, file, build)|
  {
    MatchingAreDistinct(s, file, build);
    DroppingMatches(s, file, build, MatchingKeys(s, file, build));
  }

  lemma {:induction false} DroppingOneMore<T>(s: Store<T>, keys: seq<Key>, k: Key)
    ensures Without(Dropping(s, keys), k) == Dropping(s, keys + [k])
    ensures Dropping(s, []) == s
  {
    if s != [] {
      DroppingOneMore(s[1..], keys, k);
      FindConcat(if s[0].key in keys then [] else [s[0]], Dropping(s[1..], keys), k);
    }
  }

  lemma {:induction false} DroppingMatches<T>(s: Store<T>, file: string, build: Option<string>, keys: seq<Key>)
    requires forall i :: 0 <= i < |s| ==> (s[i].key in keys <==> Matches(s[i].key, file, build))
    ensures Dropping(s, keys) == Purge(s, file, build)
  {
    if s != [] {
      DroppingMatches(s[1..], file, build, keys);
    }
  }
}
