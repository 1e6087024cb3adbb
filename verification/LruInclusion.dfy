/** Two translation-unit caches of different capacities, driven by the same requests. */
module LruInclusion {
  import opened Basics
  import opened OrderedStore
  import opened TuCache

  /** An operation and the source time it sees throughout (None: the file is missing). */
  datatype Op =
    | Get(key: Key, mtime: Option<int>)
    | Invalidate(file: string, build: Option<string>)
    | Clear

  /** What the parser makes of a source as it was at a time; None when it raises. */
  type Parser<!T> = (Key, Option<int>) -> Option<T>

  /** The cache after an operation, and whether it was a hit. */
  function Apply<T>(c: Cache<T>, op: Op, parse: Parser<T>): (Cache<T>, bool)
    requires 0 < c.capacity
  {
    match op
    case Get(key, mtime) =>
      var (c', result) := Request(c, key, mtime, parse(key, mtime), mtime);
      (c', result.Ok? && result.value.1)
    case Invalidate(file, build) => (Invalidated(c, file, build), false)
    case Clear => (Cleared(c), false)
  }

  function Run<T>(c: Cache<T>, ops: seq<Op>, parse: Parser<T>): (Cache<T>, seq<bool>)
    requires 0 < c.capacity
    decreases |ops|
  {
    if ops == [] then
      (c, [])
    else
      var (next, hit) := Apply(c, ops[0], parse);
      var (end, hits) := Run(next, ops[1..], parse);
      (end, [hit] + hits)
  }

  /** Files that exist have positive times. */
  predicate PositiveTimes(ops: seq<Op>) {
    forall op :: op in ops ==> op.Get? && op.mtime.Some? ==> op.mtime.value > 0
  }

  /** A slot holds what parsing its source at its time gives. */
  predicate Faithful<T(==)>(slot: Slot<Key, Entry<T>>, parse: Parser<T>) {
    if slot.entry.mtime > 0 then
      parse(slot.key, Some(slot.entry.mtime)) == Some(slot.entry.tu)
    else
      slot.entry.mtime == 0 && parse(slot.key, None) == Some(slot.entry.tu)
  }

  ghost predicate AllFaithful<T>(s: Store<T>, parse: Parser<T>) {
    forall slot :: slot in s ==> Faithful(slot, parse)
  }

  /** `small` is the most recently used part of `large`. */
  predicate Segment<T(==)>(small: Store<T>, large: Store<T>) {
    |small| <= |large| && small == large[|large| - |small|..]
  }

  ghost predicate Included<T>(small: Cache<T>, large: Cache<T>, parse: Parser<T>) {
    && small.Valid() && large.Valid()
    && small.capacity <= large.capacity
    && Segment(small.store, large.store)
    && AllFaithful(large.store, parse)
    && small.hits <= large.hits
    && small.hits + small.misses == large.hits + large.misses
  }

  lemma SegmentOf<T>(rest: Store<T>, small: Store<T>)
    ensures Segment(small, rest + small)
  {
  }

  /** Where the large cache keeps a key that the small one may have dropped. */
  lemma {:induction false} FindInBoth<T>(small: Store<T>, large: Store<T>, k: Key)
    requires Segment(small, large) && Unique(large)
    ensures Find(small, k).Some? ==> Find(large, k) == Find(small, k)
    ensures Find(large, k) == None ==> Find(small, k) == None
    ensures Segment(Without(small, k), Without(large, k))
  {
    var rest := large[..|large| - |small|];
    assert large == rest + small;
    FindConcat(rest, small, k);
    UniqueConcat(rest, small);
    SegmentOf(Without(rest, k), Without(small, k));
  }

  lemma SegmentAppend<T>(small: Store<T>, large: Store<T>, slot: Slot<Key, Entry<T>>)
    requires Segment(small, large)
    ensures Segment(small + [slot], large + [slot])
  {
  }

  /** The ends of a store and of a segment of it, when at least as much is kept of the former. */
  lemma SegmentTails<T>(small: Store<T>, large: Store<T>, i: nat, j: nat)
    requires Segment(small, large)
    requires i <= |small| && j <= |large| && |small| - i <= |large| - j
    ensures Segment(small[i..], large[j..])
  {
  }

  lemma {:induction false} TailWithout<T>(s: Store<T>, n: nat, k: Key)
    requires n <= |s| && Find(s, k) == None
    ensures Without(s[n..], k) == s[n..]
  {
    assert s == s[..n] + s[n..];
    FindConcat(s[..n], s[n..], k);
    WithoutMissing(s[n..], k);
  }

  lemma {:induction false} InsertBoth<T>(small: Cache<T>, large: Cache<T>, k: Key, e: Entry<T>)
    requires small.Valid() && large.Valid() && small.capacity <= large.capacity
    requires Segment(small.store, large.store)
    requires Find(small.store, k) == None && Find(large.store, k) == None
    ensures Segment(Insert(small, k, e).store, Insert(large, k, e).store)
  {
    hide Find, Without, Unique, Segment;
    assert |small.store| <= |large.store| by { SegmentSize(small.store, large.store); }
    var i, j := Overflow(|small.store|, small.capacity), Overflow(|large.store|, large.capacity);
    TailWithout(small.store, i, k);
    TailWithout(large.store, j, k);
    SegmentTails(small.store, large.store, i, j);
    SegmentAppend(small.store[i..], large.store[j..], Slot(k, e));
  }

  lemma SegmentSize<T>(small: Store<T>, large: Store<T>)
    requires Segment(small, large)
    ensures |small| <= |large|
  {
  }

  lemma {:induction false} InsertIsPart<T>(c: Cache<T>, k: Key, e: Entry<T>)
    requires 0 < c.capacity
    ensures forall slot :: slot in Insert(c, k, e).store ==> slot in c.store || slot == Slot(k, e)
  {
    FindIsPart(c.store[Overflow(|c.store|, c.capacity)..], k);
  }

  lemma {:induction false} LookUpBoth<T>(small: Cache<T>, large: Cache<T>, key: Key, mtime: Option<int>,
                                         parse: Parser<T>)
    requires Included(small, large, parse)
    requires mtime.Some? ==> mtime.value > 0
    ensures
      var (small', found) := LookUp(small, key, mtime);
      var (large', found') := LookUp(large, key, mtime);
      && small'.Valid() && large'.Valid()
      && (found.Some? ==> found == found' && Segment(small'.store, large'.store))
      && (found.None? && found'.None? ==> Segment(small'.store, large'.store))
      && (found.None? ==> Find(small'.store, key) == None)
      && (found'.None? ==> Find(large'.store, key) == None)
      && (found.None? && found'.Some? ==> small'.store == small.store && mtime.Some? && parse(key, mtime) == found')
      && AllFaithful(large'.store, parse)
  {
    hide Find, Without, Unique, Segment, Faithful;
    FindInBoth(small.store, large.store, key);
    LookUpValid(small, key, mtime);
    LookUpValid(large, key, mtime);
    FindIsPart(large.store, key);
    WithoutMissing(small.store, key);
    if Find(small.store, key).Some? {
      SegmentAppend(Without(small.store, key), Without(large.store, key), Slot(key, Find(small.store, key).value));
    } else if Find(large.store, key).Some? {
      FaithfulHit(Slot(key, Find(large.store, key).value), mtime, parse);
    }
  }

  /** What a faithful slot whose time is the present one holds. */
  lemma FaithfulHit<T>(slot: Slot<Key, Entry<T>>, mtime: Option<int>, parse: Parser<T>)
    requires Faithful(slot, parse) && (mtime.Some? ==> mtime.value > 0)
    ensures StampNow(mtime) == slot.entry.mtime ==> mtime.Some? && parse(slot.key, mtime) == Some(slot.entry.tu)
  {
  }

  /** The small cache parses what the large one still holds: both end up with the same slot. */
  lemma {:induction false} RefillBoth<T>(small: Cache<T>, large: Cache<T>, key: Key, e: Entry<T>)
    requires small.Valid() && large.Valid() && small.capacity <= large.capacity
    requires Segment(small.store, large.store)
    requires Find(small.store, key) == None && Find(large.store, key) == Some(e)
    ensures Segment(Insert(small, key, e).store, MoveToEnd(large.store, key))
  {
    hide Find, Without, Unique, Segment;
    SegmentSize(small.store, large.store);
    var i := Overflow(|small.store|, small.capacity);
    TailWithout(small.store, i, key);
    SegmentTails(small.store, large.store, i, 0);
    assert large.store[0..] == large.store;
    FindInBoth(small.store[i..], large.store, key);
    SegmentAppend(small.store[i..], Without(large.store, key), Slot(key, e));
  }

  /** Both caches miss, or the small one alone does, and the parser succeeds. */
  lemma {:induction false} ParseKeepsInclusion<T>(small: Cache<T>, large: Cache<T>, key: Key, mtime: Option<int>, tu: T,
                                                  parse: Parser<T>)
    requires Included(small, large, parse)
    requires mtime.Some? ==> mtime.value > 0
    requires parse(key, mtime) == Some(tu)
    requires LookUp(small, key, mtime).1 == None
    ensures
      var e := Entry(tu, StampAfter(mtime));
      var (large', found) := LookUp(large, key, mtime);
      var end := if found.Some? then large' else Insert(large', key, e);
      && Segment(Insert(LookUp(small, key, mtime).0, key, e).store, end.store)
      && AllFaithful(end.store, parse)
  {
    LookUpBoth(small, large, key, mtime, parse);
    var e := Entry(tu, StampAfter(mtime));
    var small' := LookUp(small, key, mtime).0;
    var (large', found) := LookUp(large, key, mtime);
    if found.None? {
      InsertBoth(small', large', key, e);
      InsertIsPart(large', key, e);
      assert Faithful(Slot(key, e), parse);
    } else {
      RefillBoth(small', large, key, e);
    }
  }

  lemma {:induction false} GetKeepsInclusion<T>(small: Cache<T>, large: Cache<T>, key: Key, mtime: Option<int>,
                                                parse: Parser<T>)
    requires Included(small, large, parse)
    requires mtime.Some? ==> mtime.value > 0
    ensures
      var op := Get(key, mtime);
      && Included(Apply(small, op, parse).0, Apply(large, op, parse).0, parse)
      && (Apply(small, op, parse).1 ==> Apply(large, op, parse).1)
  {
    hide Find, Without, Unique, Segment, AllFaithful, Cache.Valid;
    var parsed := parse(key, mtime);
    LookUpBoth(small, large, key, mtime, parse);
    RequestValid(small, key, mtime, parsed, mtime);
    RequestValid(large, key, mtime, parsed, mtime);
    if LookUp(small, key, mtime).1 == None && parsed.Some? {
      ParseKeepsInclusion(small, large, key, mtime, parsed.value, parse);
    }
  }

  lemma {:induction false} PurgeBoth<T>(small: Store<T>, large: Store<T>, file: string, build: Option<string>)
    requires Segment(small, large)
    ensures Segment(Purge(small, file, build), Purge(large, file, build))
  {
    var rest := large[..|large| - |small|];
    assert large == rest + small;
    PurgeConcat(rest, small, file, build);
    SegmentOf(Purge(rest, file, build), Purge(small, file, build));
  }

  lemma {:induction false} PurgeFaithful<T>(s: Store<T>, file: string, build: Option<string>, parse: Parser<T>)
    requires AllFaithful(s, parse)
    ensures AllFaithful(Purge(s, file, build), parse)
  {
    hide Purge, Faithful;
    PurgeIsPart(s, file, build);
  }

  lemma {:induction false} InvalidateKeepsInclusion<T>(small: Cache<T>, large: Cache<T>, file: string,
                                                       build: Option<string>, parse: Parser<T>)
    requires Included(small, large, parse)
    ensures Included(Invalidated(small, file, build), Invalidated(large, file, build), parse)
  {
    hide Find, Unique, Purge, Segment, AllFaithful;
    PurgeBoth(small.store, large.store, file, build);
    PurgeFaithful(large.store, file, build, parse);
    PurgeValid(small.store, file, build);
    PurgeValid(large.store, file, build);
  }

  lemma ClearKeepsInclusion<T>(small: Cache<T>, large: Cache<T>, parse: Parser<T>)
    requires Included(small, large, parse)
    ensures Included(Cleared(small), Cleared(large), parse)
  {
  }

  lemma {:induction false} StepKeepsInclusion<T>(small: Cache<T>, large: Cache<T>, op: Op, parse: Parser<T>)
    requires Included(small, large, parse)
    requires op.Get? && op.mtime.Some? ==> op.mtime.value > 0
    ensures Included(Apply(small, op, parse).0, Apply(large, op, parse).0, parse)
    ensures Apply(small, op, parse).1 ==> Apply(large, op, parse).1
  {
    hide Included, Request, Invalidated;
    IncludedCapacities(small, large, parse);
    match op
    case Get(key, mtime) => GetKeepsInclusion(small, large, key, mtime, parse);
    case Invalidate(file, build) => InvalidateKeepsInclusion(small, large, file, build, parse);
    case Clear => ClearKeepsInclusion(small, large, parse);
  }

  lemma IncludedCapacities<T>(small: Cache<T>, large: Cache<T>, parse: Parser<T>)
    requires Included(small, large, parse)
    ensures 0 < small.capacity <= large.capacity
  {
  }

  lemma ApplyKeepsCapacity<T>(c: Cache<T>, op: Op, parse: Parser<T>)
    requires 0 < c.capacity
    ensures Apply(c, op, parse).0.capacity == c.capacity
  {
  }

  lemma {:induction false} RunKeepsInclusion<T>(small: Cache<T>, large: Cache<T>, ops: seq<Op>, parse: Parser<T>)
    requires Included(small, large, parse) && PositiveTimes(ops)
    ensures
      var (small', hits) := Run(small, ops, parse);
      var (large', hits') := Run(large, ops, parse);
      && Included(small', large', parse)
      && small'.capacity == small.capacity && large'.capacity == large.capacity
      && |hits| == |hits'| == |ops|
      && (forall i :: 0 <= i < |ops| && hits[i] ==> hits'[i])
    decreases |ops|
  {
    hide Included, Apply;
    IncludedCapacities(small, large, parse);
    if ops != [] {
      StepKeepsInclusion(small, large, ops[0], parse);
      ApplyKeepsCapacity(small, ops[0], parse);
      ApplyKeepsCapacity(large, ops[0], parse);
      RunKeepsInclusion(Apply(small, ops[0], parse).0, Apply(large, ops[0], parse).0, ops[1..], parse);
    }
  }

  /** From empty caches, after any operations the smaller store is the most recently used part of
      the larger, every hit of the smaller is one of the larger, and misses only shrink. */
  lemma {:induction false} InclusionTheorem<T>(c1: nat, c2: nat, ops: seq<Op>, parse: Parser<T>)
    requires 0 < c1 <= c2 && PositiveTimes(ops)
    ensures
      var (small, hits) := Run(Cache<T>.Cache(c1, [], 0, 0, 0), ops, parse);
      var (large, hits') := Run(Cache<T>.Cache(c2, [], 0, 0, 0), ops, parse);
      && Segment(small.store, large.store)
      && |hits| == |hits'| == |ops|
      && (forall i :: 0 <= i < |ops| && hits[i] ==> hits'[i])
      && small.hits <= large.hits && large.misses <= small.misses
      && |small.store| <= c1 && |large.store| <= c2
  {
    RunKeepsInclusion(Cache<T>.Cache(c1, [], 0, 0, 0), Cache<T>.Cache(c2, [], 0, 0, 0), ops, parse);
  }
}
