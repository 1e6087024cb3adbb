/** The translation-unit cache shared by many threads, as a step system. A request looks its key
    up, parses, stats its source and inserts, in four steps; any thread, and any change to the
    files, may come between them. */
module TuCacheThreads {
  import opened Basics
  import opened OrderedStore
  import opened ParseOptions
  import TuCache

  type Key = TuCache.Key

  datatype Req = Req(file: string, build: string, flags: seq<string>, options: int)

  function KeyOf(r: Req): Key {
    TuCache.Key(r.file, r.build, Effective(r.flags, r.options))
  }

  datatype File = File(content: string, mtime: int)

  /** What libclang makes of a file with this content (None: missing), flags and options; None
      when it raises. */
  type Parser<!T> = (string, Option<string>, seq<string>, int) -> Option<T>

  /** A stored entry. Of its fields the program keeps `tu` and `mtime`; the others record where it
      came from: the request, the time its file had when it was parsed (None: it was missing), and
      when the entry was last used. */
  datatype Held<+T> = Held(tu: T, mtime: int, req: Req, seen: Option<int>, touched: nat)

  type Store<+T> = seq<Slot<Key, Held<T>>>

  /** How far a thread's request has come after its miss. */
  datatype Phase<+T> =
    | Missed(req: Req)
    | Parsed(req: Req, tu: T, seen: Option<int>)
    | Stamped(req: Req, tu: T, seen: Option<int>, mtime: int)

  /** Beside the cache and its counters: the files, all the contents they ever had by time, the
      threads in flight, and counts the program does not keep. */
  datatype State<+T> = State(
    files: map<string, File>,
    past: map<(string, int), string>,
    threads: map<nat, Phase<T>>,
    capacity: nat,
    store: Store<T>,
    hits: nat,
    misses: nat,
    evictions: nat,
    clock: nat,
    failed: nat,
    overwritten: nat,
    cleared: nat)

  datatype Event =
    | LookUp(thread: nat, req: Req)
    | Parse(thread: nat)
    | Stat(thread: nat)
    | Insert(thread: nat)
    | Invalidate(file: string, build: Option<string>)
    | Clear
    | Write(file: string, content: string, mtime: int)
    | Delete(file: string)

  function Init<T>(capacity: nat): State<T> {
    State(map[], map[], map[], capacity, [], 0, 0, 0, 0, 0, 0, 0)
  }

  function MtimeOf(files: map<string, File>, file: string): Option<int> {
    if file in files then Some(files[file].mtime) else None
  }

  function ContentOf(files: map<string, File>, file: string): Option<string> {
    if file in files then Some(files[file].content) else None
  }

  /** A write gives its file a positive time the file never had before. */
  predicate Enabled<T>(s: State<T>, e: Event) {
    match e
    case LookUp(t, _) => t !in s.threads
    case Parse(t) => t in s.threads && s.threads[t].Missed?
    case Stat(t) => t in s.threads && s.threads[t].Parsed?
    case Insert(t) => t in s.threads && s.threads[t].Stamped?
    case Invalidate(_, _) => true
    case Clear => true
    case Write(file, _, mtime) => 0 < mtime && (file, mtime) !in s.past
    case Delete(file) => file in s.files
  }

  /** What the parser returns for a request over a content. */
  function ParseReq<T>(parse: Parser<T>, req: Req, read: Option<string>): Option<T> {
    parse(req.file, read, Strip(Effective(req.flags, req.options)), req.options)
  }

  /** The entry a lookup would return. */
  function Hit<T>(s: State<T>, req: Req): Option<Held<T>> {
    match Find(s.store, KeyOf(req))
    case None => None
    case Some(held) =>
      if TuCache.StampNow(MtimeOf(s.files, req.file)) == held.mtime then Some(held) else None
  }

  function StepLookUp<T>(s: State<T>, t: nat, req: Req): State<T> {
    var key := KeyOf(req);
    match Hit(s, req)
    case Some(held) =>
      s.(store := Without(s.store, key) + [Slot(key, held.(touched := s.clock))],
         hits := s.hits + 1,
         clock := s.clock + 1)
    case None =>
      var missed := s.(misses := s.misses + 1, threads := s.threads[t := Missed(req)]);
      if Find(s.store, key).Some? then
        missed.(store := Without(s.store, key), evictions := s.evictions + 1)
      else
        missed
  }

  function StepParse<T>(s: State<T>, t: nat, parse: Parser<T>): State<T>
    requires Enabled(s, Parse(t))
  {
    var req := s.threads[t].req;
    match ParseReq(parse, req, ContentOf(s.files, req.file))
    case None => s.(threads := s.threads - {t}, failed := s.failed + 1)
    case Some(tu) => s.(threads := s.threads[t := Parsed(req, tu, MtimeOf(s.files, req.file))])
  }

  function StepStat<T>(s: State<T>, t: nat): State<T>
    requires Enabled(s, Stat(t))
  {
    var p := s.threads[t];
    var mtime := TuCache.StampAfter(MtimeOf(s.files, p.req.file));
    s.(threads := s.threads[t := Stamped(p.req, p.tu, p.seen, mtime)])
  }

  function StepInsert<T>(s: State<T>, t: nat): State<T>
    requires 0 < s.capacity && Enabled(s, Insert(t))
  {
    var p := s.threads[t];
    var key := KeyOf(p.req);
    var n := TuCache.Overflow(|s.store|, s.capacity);
    var kept := s.store[n..];
    s.(threads := s.threads - {t},
       store := Without(kept, key) + [Slot(key, Held(p.tu, p.mtime, p.req, p.seen, s.clock))],
       clock := s.clock + 1,
       evictions := s.evictions + n,
       overwritten := s.overwritten + if Find(kept, key).Some? then 1 else 0)
  }

  function StepInvalidate<T>(s: State<T>, file: string, build: Option<string>): State<T> {
    var purged := TuCache.Purge(s.store, file, build);
    s.(store := purged, evictions := s.evictions + if |purged| <= |s.store| then |s.store| - |purged| else 0)
  }

  function Step<T>(s: State<T>, e: Event, parse: Parser<T>): State<T>
    requires 0 < s.capacity && Enabled(s, e)
  {
    match e
    case LookUp(t, req) => StepLookUp(s, t, req)
    case Parse(t) => StepParse(s, t, parse)
    case Stat(t) => StepStat(s, t)
    case Insert(t) => StepInsert(s, t)
    case Invalidate(file, build) => StepInvalidate(s, file, build)
    case Clear => s.(store := [], cleared := s.cleared + |s.store|)
    case Write(file, content, mtime) =>
      s.(files := s.files[file := File(content, mtime)], past := s.past[(file, mtime) := content])
    case Delete(file) => s.(files := s.files - {file})
  }

  /** `es` can happen one after the other from `s` and lead to `end`. */
  ghost predicate Runs<T>(s: State<T>, es: seq<Event>, end: State<T>, parse: Parser<T>)
    decreases |es|
  {
    if es == [] then
      s == end
    else
      0 < s.capacity && Enabled(s, es[0]) && Runs(Step(s, es[0], parse), es[1..], end, parse)
  }

  // ------------------------------------------------------------------
  // Safety and conservation, over every run
  // ------------------------------------------------------------------

  /** Entries are in the order of their last use, all before `clock`. */
  ghost predicate InUseOrder<T>(s: Store<T>, clock: nat) {
    && (forall i :: 0 <= i < |s| ==> s[i].entry.touched < clock)
    && (forall i, j :: 0 <= i < j < |s| ==> s[i].entry.touched < s[j].entry.touched)
  }

  ghost predicate Safe<T>(s: State<T>) {
    && 0 < s.capacity && |s.store| <= s.capacity
    && Unique(s.store)
    && InUseOrder(s.store, s.clock)
  }

  /** Every miss is in flight, failed to parse, is stored, or left the store. */
  predicate Conserved<T>(s: State<T>) {
    s.misses == |s.threads| + s.failed + |s.store| + s.evictions + s.overwritten + s.cleared
  }

  lemma ConsInUseOrder<T>(first: Slot<Key, Held<T>>, rest: Store<T>, clock: nat)
    requires InUseOrder(rest, clock) && first.entry.touched < clock
    requires forall slot :: slot in rest ==> first.entry.touched < slot.entry.touched
    ensures InUseOrder([first] + rest, clock)
  {
  }

  /** Keeping some slots in order keeps the order of use. */
  lemma {:induction false} WithoutInUseOrder<T>(s: Store<T>, k: Key, clock: nat)
    requires InUseOrder(s, clock)
    ensures InUseOrder(Without(s, k), clock)
  {
    if s != [] {
      var rest := s[1..];
      WithoutInUseOrder(rest, k, clock);
      FindIsPart(rest, k);
      forall slot | slot in rest ensures s[0].entry.touched < slot.entry.touched && slot in s {
      }
      ConsInUseOrder(s[0], Without(rest, k), clock);
    }
  }

  lemma {:induction false} PurgeInUseOrder<T>(s: Store<T>, file: string, build: Option<string>, clock: nat)
    requires InUseOrder(s, clock)
    ensures InUseOrder(TuCache.Purge(s, file, build), clock)
  {
    if s != [] {
      var rest := s[1..];
      PurgeInUseOrder(rest, file, build, clock);
      TuCache.PurgeIsPart(rest, file, build);
      forall slot | slot in rest ensures s[0].entry.touched < slot.entry.touched && slot in s {
      }
      ConsInUseOrder(s[0], TuCache.Purge(rest, file, build), clock);
    }
  }

  /** Touching a key moves it to the end, after all others. */
  lemma {:induction false} TouchIsSafe<T>(s: Store<T>, k: Key, held: Held<T>, clock: nat)
    requires Unique(s) && InUseOrder(s, clock)
    ensures
      var s' := Without(s, k) + [Slot(k, held.(touched := clock))];
      && Unique(s') && InUseOrder(s', clock + 1)
      && |s'| == if Find(s, k).Some? then |s| else |s| + 1
  {
    WithoutIsUnique(s, k);
    WithoutMissing(s, k);
    WithoutInUseOrder(s, k, clock);
    AppendIsUnique(Without(s, k), k, held.(touched := clock));
  }

  lemma SuffixInUseOrder<T>(s: Store<T>, n: nat, clock: nat)
    requires InUseOrder(s, clock) && n <= |s|
    ensures InUseOrder(s[n..], clock)
  {
  }

  lemma ThreadCount<P>(m: map<nat, P>, t: nat, p: P)
    ensures |m[t := p]| == if t in m then |m| else |m| + 1
    ensures |m - {t}| == if t in m then |m| - 1 else |m|
  {
    assert m[t := p].Keys == m.Keys + {t};
    assert (m - {t}).Keys == m.Keys - {t};
  }

  lemma {:induction false} InsertIsSafe<T>(s: State<T>, t: nat)
    requires Safe(s) && Conserved(s) && Enabled(s, Insert(t))
    ensures Safe(StepInsert(s, t)) && Conserved(StepInsert(s, t))
  {
    hide Unique, InUseOrder, Find, Without, KeyOf;
    var p := s.threads[t];
    var n := TuCache.Overflow(|s.store|, s.capacity);
    ThreadCount(s.threads, t, p);
    SuffixIsUnique(s.store, n);
    SuffixInUseOrder(s.store, n, s.clock);
    TouchIsSafe(s.store[n..], KeyOf(p.req), Held(p.tu, p.mtime, p.req, p.seen, s.clock), s.clock);
  }

  lemma {:induction false} LookUpIsSafe<T>(s: State<T>, t: nat, req: Req)
    requires Safe(s) && Conserved(s) && t !in s.threads
    ensures Safe(StepLookUp(s, t, req)) && Conserved(StepLookUp(s, t, req))
  {
    hide Safe, Conserved, StepLookUp, Hit;
    if Hit(s, req).Some? {
      HitIsSafe(s, t, req);
    } else {
      MissIsSafe(s, t, req);
    }
  }

  lemma {:induction false} HitIsSafe<T>(s: State<T>, t: nat, req: Req)
    requires Safe(s) && Conserved(s) && Hit(s, req).Some?
    ensures Safe(StepLookUp(s, t, req)) && Conserved(StepLookUp(s, t, req))
  {
    hide Unique, InUseOrder, Find, Without, KeyOf;
    TouchIsSafe(s.store, KeyOf(req), Hit(s, req).value, s.clock);
  }

  lemma {:induction false} MissIsSafe<T>(s: State<T>, t: nat, req: Req)
    requires Safe(s) && Conserved(s) && t !in s.threads && Hit(s, req).None?
    ensures Safe(StepLookUp(s, t, req)) && Conserved(StepLookUp(s, t, req))
  {
    hide Unique, InUseOrder, Find, Without, KeyOf;
    ThreadCount(s.threads, t, Missed(req));
    WithoutIsUnique(s.store, KeyOf(req));
    WithoutInUseOrder(s.store, KeyOf(req), s.clock);
  }

  lemma {:induction false} ParseIsSafe<T>(s: State<T>, t: nat, parse: Parser<T>)
    requires Safe(s) && Conserved(s) && Enabled(s, Parse(t))
    ensures Safe(StepParse(s, t, parse)) && Conserved(StepParse(s, t, parse))
  {
    hide Unique, InUseOrder, ParseReq;
    var req := s.threads[t].req;
    match ParseReq(parse, req, ContentOf(s.files, req.file))
    case None => ThreadCount(s.threads, t, Missed(req));
    case Some(tu) => ThreadCount(s.threads, t, Parsed(req, tu, MtimeOf(s.files, req.file)));
  }

  lemma {:induction false} StatIsSafe<T>(s: State<T>, t: nat)
    requires Safe(s) && Conserved(s) && Enabled(s, Stat(t))
    ensures Safe(StepStat(s, t)) && Conserved(StepStat(s, t))
  {
    hide Unique, InUseOrder;
    ThreadCount(s.threads, t, StepStat(s, t).threads[t]);
  }

  lemma {:induction false} InvalidateIsSafe<T>(s: State<T>, file: string, build: Option<string>)
    requires Safe(s) && Conserved(s)
    ensures Safe(StepInvalidate(s, file, build)) && Conserved(StepInvalidate(s, file, build))
  {
    hide Unique, InUseOrder, Find, TuCache.Purge;
    TuCache.PurgeValid(s.store, file, build);
    PurgeInUseOrder(s.store, file, build, s.clock);
  }

  lemma ClearIsSafe<T>(s: State<T>, parse: Parser<T>)
    requires Safe(s) && Conserved(s)
    ensures Safe(Step(s, Clear, parse)) && Conserved(Step(s, Clear, parse))
  {
  }

  lemma FileStepIsSafe<T>(s: State<T>, e: Event, parse: Parser<T>)
    requires Safe(s) && Conserved(s) && Enabled(s, e) && (e.Write? || e.Delete?)
    ensures Safe(Step(s, e, parse)) && Conserved(Step(s, e, parse))
  {
    hide Unique, InUseOrder;
  }

  /** Every step keeps the store unique, within capacity and in order of use, and balances the
      counters. */
  lemma {:induction false} StepIsSafe<T>(s: State<T>, e: Event, parse: Parser<T>)
    requires Safe(s) && Conserved(s) && Enabled(s, e)
    ensures Safe(Step(s, e, parse)) && Conserved(Step(s, e, parse))
  {
    assert 0 < s.capacity;
    hide Safe, Conserved;
    match e
    case LookUp(t, req) => LookUpIsSafe(s, t, req);
    case Parse(t) => ParseIsSafe(s, t, parse);
    case Stat(t) => StatIsSafe(s, t);
    case Insert(t) => InsertIsSafe(s, t);
    case Invalidate(file, build) => InvalidateIsSafe(s, file, build);
    case Clear => ClearIsSafe(s, parse);
    case Write(_, _, _) => FileStepIsSafe(s, e, parse);
    case Delete(_) => FileStepIsSafe(s, e, parse);
  }

  lemma {:induction false} RunIsSafe<T>(s: State<T>, es: seq<Event>, end: State<T>, parse: Parser<T>)
    requires Safe(s) && Conserved(s) && Runs(s, es, end, parse)
    ensures Safe(end) && Conserved(end)
    decreases |es|
  {
    if es != [] {
      StepIsSafe(s, es[0], parse);
      RunIsSafe(Step(s, es[0], parse), es[1..], end, parse);
    }
  }

  lemma {:induction false} SafetyTheorem<T>(capacity: nat, es: seq<Event>, end: State<T>, parse: Parser<T>)
    requires 0 < capacity && Runs(Init(capacity), es, end, parse)
    ensures Safe(end) && Conserved(end)
  {
    RunIsSafe(Init(capacity), es, end, parse);
  }

  /** What an insertion evicts was used before everything it keeps. */
  lemma {:induction false} EvictsLeastRecentlyUsed<T>(s: State<T>, t: nat, i: nat, j: nat)
    requires Safe(s) && Enabled(s, Insert(t))
    requires i < TuCache.Overflow(|s.store|, s.capacity) <= j < |s.store|
    ensures s.store[i].entry.touched < s.store[j].entry.touched
    ensures s.store[i] !in StepInsert(s, t).store
  {
    hide Unique, Find, Without, KeyOf;
    var n := TuCache.Overflow(|s.store|, s.capacity);
    FindIsPart(s.store[n..], KeyOf(s.threads[t].req));
    assert forall l :: n <= l < |s.store| ==> s.store[i].entry.touched < s.store[l].entry.touched;
  }

  // ------------------------------------------------------------------
  // Freshness, over every run
  // ------------------------------------------------------------------

  /** Every time a file has had is remembered with the content it had then. */
  ghost predicate Remembered<T>(s: State<T>) {
    && (forall f :: f in s.files ==>
          (f, s.files[f].mtime) in s.past && s.past[(f, s.files[f].mtime)] == s.files[f].content)
    && (forall f, m :: (f, m) in s.past ==> 0 < m)
  }

  /** A stamp is 0, or a time the file has had. */
  predicate KnownStamp<T>(s: State<T>, file: string, mtime: int) {
    mtime == 0 || (file, mtime) in s.past
  }

  /** The content a file had at a time, if it was there. */
  function ContentAt<T>(s: State<T>, file: string, time: Option<int>): Option<string> {
    if time.Some? && (file, time.value) in s.past then Some(s.past[(file, time.value)]) else None
  }

  /** A unit is what its request's parse made of its file as it was at the time seen. */
  predicate FromParse<T(==)>(s: State<T>, tu: T, req: Req, seen: Option<int>, parse: Parser<T>) {
    && (seen.Some? ==> (req.file, seen.value) in s.past)
    && ParseReq(parse, req, ContentAt(s, req.file, seen)) == Some(tu)
  }

  ghost predicate PhaseOk<T>(s: State<T>, p: Phase<T>, parse: Parser<T>) {
    match p
    case Missed(_) => true
    case Parsed(req, tu, seen) => FromParse(s, tu, req, seen, parse)
    case Stamped(req, tu, seen, mtime) => FromParse(s, tu, req, seen, parse) && KnownStamp(s, req.file, mtime)
  }

  ghost predicate SlotOk<T>(s: State<T>, slot: Slot<Key, Held<T>>, parse: Parser<T>) {
    var held := slot.entry;
    && slot.key == KeyOf(held.req)
    && FromParse(s, held.tu, held.req, held.seen, parse)
    && KnownStamp(s, held.req.file, held.mtime)
  }

  ghost predicate Traced<T>(s: State<T>, parse: Parser<T>) {
    && Remembered(s)
    && (forall t :: t in s.threads ==> PhaseOk(s, s.threads[t], parse))
    && (forall slot :: slot in s.store ==> SlotOk(s, slot, parse))
  }

  /** No thread is between reading `file` and taking its stamp. */
  ghost predicate NotBeingParsed<T>(s: State<T>, file: string) {
    forall t :: t in s.threads && s.threads[t].Parsed? ==> s.threads[t].req.file != file
  }

  /** Files change only when no thread is between reading them and taking their stamp. */
  ghost predicate Quiet<T>(s: State<T>, e: Event) {
    match e
    case Write(file, _, _) => NotBeingParsed(s, file)
    case Delete(file) => NotBeingParsed(s, file)
    case _ => true
  }

  /** A stamp that is a time of the file is the time seen at the parse. */
  predicate StampIsSeen<T>(s: State<T>, file: string, seen: Option<int>, mtime: int) {
    (file, mtime) in s.past ==> seen == Some(mtime)
  }

  predicate PhaseUnraced<T>(s: State<T>, p: Phase<T>) {
    match p
    case Missed(_) => true
    case Parsed(req, _, seen) => seen == MtimeOf(s.files, req.file)
    case Stamped(req, _, seen, mtime) => StampIsSeen(s, req.file, seen, mtime)
  }

  predicate SlotUnraced<T>(s: State<T>, slot: Slot<Key, Held<T>>) {
    StampIsSeen(s, slot.entry.req.file, slot.entry.seen, slot.entry.mtime)
  }

  ghost predicate Unraced<T>(s: State<T>) {
    && (forall t :: t in s.threads ==> PhaseUnraced(s, s.threads[t]))
    && (forall slot :: slot in s.store ==> SlotUnraced(s, slot))
  }

  predicate SameButUse<T(==)>(a: Slot<Key, Held<T>>, b: Slot<Key, Held<T>>) {
    a.key == b.key && a.entry == b.entry.(touched := a.entry.touched)
  }

  /** A slot of the store, but for the time of its last use. */
  ghost predicate WasStored<T>(s: State<T>, slot: Slot<Key, Held<T>>) {
    exists was :: was in s.store && SameButUse(was, slot)
  }

  /** A thread that `s'` has as `s` had it. */
  predicate SameThread<T(==)>(s: State<T>, s': State<T>, t: nat) {
    t in s'.threads && t in s.threads && s.threads[t] == s'.threads[t]
  }

  /** The files are as they were, and what is new is traced. */
  lemma {:induction false} TraceKept<T>(s: State<T>, s': State<T>, parse: Parser<T>)
    requires Traced(s, parse)
    requires s'.files == s.files && s'.past == s.past
    requires forall t :: t in s'.threads ==> SameThread(s, s', t) || PhaseOk(s', s'.threads[t], parse)
    requires forall slot :: slot in s'.store ==> WasStored(s, slot) || SlotOk(s', slot, parse)
    ensures Traced(s', parse)
  {
    forall t | t in s'.threads ensures PhaseOk(s', s'.threads[t], parse) {
      assert t in s.threads ==> PhaseOk(s, s.threads[t], parse);
    }
    forall slot | slot in s'.store ensures SlotOk(s', slot, parse) {
      if WasStored(s, slot) {
        var was :| was in s.store && SameButUse(was, slot);
        assert SlotOk(s, was, parse);
      }
    }
  }

  lemma {:induction false} UnracedKept<T>(s: State<T>, s': State<T>)
    requires Unraced(s)
    requires s'.files == s.files && s'.past == s.past
    requires forall t :: t in s'.threads ==> SameThread(s, s', t) || PhaseUnraced(s', s'.threads[t])
    requires forall slot :: slot in s'.store ==> WasStored(s, slot) || SlotUnraced(s', slot)
    ensures Unraced(s')
  {
    forall t | t in s'.threads ensures PhaseUnraced(s', s'.threads[t]) {
      assert t in s.threads ==> PhaseUnraced(s, s.threads[t]);
    }
    forall slot | slot in s'.store ensures SlotUnraced(s', slot) {
      if WasStored(s, slot) {
        var was :| was in s.store && SameButUse(was, slot);
        assert SlotUnraced(s, was);
      }
    }
  }

  /** After a lookup the store holds old slots, one of them perhaps with a new time of use. */
  lemma {:induction false} LookUpStore<T>(s: State<T>, t: nat, req: Req)
    ensures forall slot :: slot in StepLookUp(s, t, req).store ==> WasStored(s, slot)
  {
    FindIsPart(s.store, KeyOf(req));
    var s' := StepLookUp(s, t, req);
    forall slot | slot in s'.store ensures WasStored(s, slot) {
      if slot !in s.store {
        var was := Slot(KeyOf(req), Hit(s, req).value);
        assert was in s.store && SameButUse(was, slot);
      }
    }
  }

  lemma {:induction false} LookUpIsTraced<T>(s: State<T>, t: nat, req: Req, parse: Parser<T>)
    requires Traced(s, parse) && Enabled(s, LookUp(t, req))
    ensures Traced(StepLookUp(s, t, req), parse)
    ensures Unraced(s) ==> Unraced(StepLookUp(s, t, req))
  {
    hide Traced, Unraced, WasStored;
    var s' := StepLookUp(s, t, req);
    LookUpStore(s, t, req);
    assert forall t' :: t' in s'.threads ==> SameThread(s, s', t') || s'.threads[t'] == Missed(req);
    TraceKept(s, s', parse);
    if Unraced(s) {
      UnracedKept(s, s');
    }
  }

  /** A thread reads its file at its present time. */
  lemma {:induction false} ParseIsTraced<T>(s: State<T>, t: nat, parse: Parser<T>)
    requires Traced(s, parse) && Enabled(s, Parse(t))
    ensures Traced(StepParse(s, t, parse), parse)
    ensures Unraced(s) ==> Unraced(StepParse(s, t, parse))
  {
    hide Unraced, ParseReq;
    var s' := StepParse(s, t, parse);
    var req := s.threads[t].req;
    assert ContentAt(s, req.file, MtimeOf(s.files, req.file)) == ContentOf(s.files, req.file);
    StoreIsSame(s, s');
    TraceKept(s, s', parse);
    if Unraced(s) {
      UnracedKept(s, s');
    }
  }

  lemma StoreIsSame<T>(s: State<T>, s': State<T>)
    requires s'.store == s.store
    ensures forall slot :: slot in s'.store ==> WasStored(s, slot)
  {
  }

  lemma {:induction false} StatIsTraced<T>(s: State<T>, t: nat, parse: Parser<T>)
    requires Traced(s, parse) && Enabled(s, Stat(t))
    ensures Traced(StepStat(s, t), parse)
    ensures Unraced(s) ==> Unraced(StepStat(s, t))
  {
    hide ParseReq;
    var s' := StepStat(s, t);
    assert PhaseOk(s, s.threads[t], parse);
    StoreIsSame(s, s');
    TraceKept(s, s', parse);
    if Unraced(s) {
      assert PhaseUnraced(s, s.threads[t]);
      UnracedKept(s, s');
    }
  }

  lemma {:induction false} InsertIsTraced<T>(s: State<T>, t: nat, parse: Parser<T>)
    requires 0 < s.capacity && Traced(s, parse) && Enabled(s, Insert(t))
    ensures Traced(StepInsert(s, t), parse)
    ensures Unraced(s) ==> Unraced(StepInsert(s, t))
  {
    hide ParseReq;
    var p := s.threads[t];
    var s' := StepInsert(s, t);
    assert PhaseOk(s, p, parse);
    InsertedStore(s, t);
    TraceKept(s, s', parse);
    if Unraced(s) {
      assert PhaseUnraced(s, p);
      UnracedKept(s, s');
    }
  }

  lemma {:induction false} InsertedStore<T>(s: State<T>, t: nat)
    requires 0 < s.capacity && Enabled(s, Insert(t))
    ensures
      var p := s.threads[t];
      var own := Slot(KeyOf(p.req), Held(p.tu, p.mtime, p.req, p.seen, s.clock));
      forall slot :: slot in StepInsert(s, t).store ==> slot == own || WasStored(s, slot)
  {
    hide KeyOf, Find;
    var kept := s.store[TuCache.Overflow(|s.store|, s.capacity)..];
    FindIsPart(kept, KeyOf(s.threads[t].req));
    forall slot | slot in Without(kept, KeyOf(s.threads[t].req)) ensures WasStored(s, slot) {
      assert slot in s.store && SameButUse(slot, slot);
    }
  }

  lemma {:induction false} InvalidateIsTraced<T>(s: State<T>, file: string, build: Option<string>, parse: Parser<T>)
    requires Safe(s) && Traced(s, parse)
    ensures Traced(StepInvalidate(s, file, build), parse)
    ensures Unraced(s) ==> Unraced(StepInvalidate(s, file, build))
  {
    hide Traced, Unraced;
    var s' := StepInvalidate(s, file, build);
    TuCache.PurgeIsPart(s.store, file, build);
    StoreIsPart(s, s');
    TraceKept(s, s', parse);
    if Unraced(s) {
      UnracedKept(s, s');
    }
  }

  lemma StoreIsPart<T>(s: State<T>, s': State<T>)
    requires forall slot :: slot in s'.store ==> slot in s.store
    ensures forall slot :: slot in s'.store ==> WasStored(s, slot)
  {
  }

  lemma {:induction false} ClearIsTraced<T>(s: State<T>, parse: Parser<T>)
    requires 0 < s.capacity && Traced(s, parse)
    ensures Traced(Step(s, Clear, parse), parse)
    ensures Unraced(s) ==> Unraced(Step(s, Clear, parse))
  {
    hide Traced, Unraced;
    var s' := Step(s, Clear, parse);
    StoreIsPart(s, s');
    TraceKept(s, s', parse);
    if Unraced(s) {
      UnracedKept(s, s');
    }
  }

  /** The files change, and no past is forgotten. */
  lemma {:induction false} FilesTraced<T>(s: State<T>, s': State<T>, parse: Parser<T>)
    requires Traced(s, parse) && Remembered(s')
    requires s'.threads == s.threads && s'.store == s.store
    requires forall k :: k in s.past ==> k in s'.past && s'.past[k] == s.past[k]
    ensures Traced(s', parse)
  {
    hide ParseReq;
    forall t | t in s'.threads ensures PhaseOk(s', s'.threads[t], parse) {
      assert PhaseOk(s, s.threads[t], parse);
    }
    forall slot | slot in s'.store ensures SlotOk(s', slot, parse) {
      assert SlotOk(s, slot, parse);
    }
  }

  /** One file changes, that no thread is parsing, and any new time is no one's stamp. */
  lemma {:induction false} FilesUnraced<T>(s: State<T>, s': State<T>, file: string, parse: Parser<T>)
    requires Traced(s, parse) && Unraced(s) && NotBeingParsed(s, file)
    requires s'.threads == s.threads && s'.store == s.store
    requires forall f :: f != file ==> MtimeOf(s'.files, f) == MtimeOf(s.files, f)
    requires forall k :: k in s'.past && k !in s.past ==> k.1 != 0
    ensures Unraced(s')
  {
    hide ParseReq;
    forall t | t in s'.threads ensures PhaseUnraced(s', s'.threads[t]) {
      assert PhaseOk(s, s.threads[t], parse) && PhaseUnraced(s, s.threads[t]);
    }
    forall slot | slot in s'.store ensures SlotUnraced(s', slot) {
      assert SlotOk(s, slot, parse) && SlotUnraced(s, slot);
    }
  }

  lemma {:induction false} FileStepIsTraced<T>(s: State<T>, e: Event, parse: Parser<T>)
    requires 0 < s.capacity && Traced(s, parse) && Enabled(s, e) && (e.Write? || e.Delete?)
    ensures Traced(Step(s, e, parse), parse)
    ensures Unraced(s) && Quiet(s, e) ==> Unraced(Step(s, e, parse))
  {
    hide PhaseOk, SlotOk, Unraced, NotBeingParsed;
    var s' := Step(s, e, parse);
    FilesTraced(s, s', parse);
    if Unraced(s) && Quiet(s, e) {
      FilesUnraced(s, s', e.file, parse);
    }
  }

  lemma {:induction false} StepIsTraced<T>(s: State<T>, e: Event, parse: Parser<T>)
    requires Safe(s) && Traced(s, parse) && Enabled(s, e)
    ensures Traced(Step(s, e, parse), parse)
    ensures Unraced(s) && Quiet(s, e) ==> Unraced(Step(s, e, parse))
  {
    hide Traced, Unraced, Safe, Quiet;
    assert 0 < s.capacity by { SafeCapacity(s); }
    match e
    case LookUp(t, req) => LookUpIsTraced(s, t, req, parse);
    case Parse(t) => ParseIsTraced(s, t, parse);
    case Stat(t) => StatIsTraced(s, t, parse);
    case Insert(t) => InsertIsTraced(s, t, parse);
    case Invalidate(file, build) => InvalidateIsTraced(s, file, build, parse);
    case Clear => ClearIsTraced(s, parse);
    case Write(_, _, _) => FileStepIsTraced(s, e, parse);
    case Delete(_) => FileStepIsTraced(s, e, parse);
  }

  lemma SafeCapacity<T>(s: State<T>)
    requires Safe(s)
    ensures 0 < s.capacity
  {
  }

  /** A run in which files change only quietly and no caller passes a marker flag. */
  ghost predicate QuietRun<T>(s: State<T>, es: seq<Event>, parse: Parser<T>)
    decreases |es|
  {
    es == [] || (0 < s.capacity && Enabled(s, es[0]) && Quiet(s, es[0])
                 && QuietRun(Step(s, es[0], parse), es[1..], parse))
  }

  predicate CleanCallers(es: seq<Event>) {
    forall e :: e in es ==> e.LookUp? ==> Clean(e.req.flags)
  }

  ghost predicate CleanState<T>(s: State<T>) {
    && (forall t :: t in s.threads ==> Clean(s.threads[t].req.flags))
    && (forall slot :: slot in s.store ==> Clean(slot.entry.req.flags))
  }

  lemma {:induction false} StepIsClean<T>(s: State<T>, e: Event, parse: Parser<T>)
    requires Safe(s) && Enabled(s, e) && CleanState(s) && (e.LookUp? ==> Clean(e.req.flags))
    ensures CleanState(Step(s, e, parse))
  {
    hide Clean, Find, Without, KeyOf, ParseReq, TuCache.Purge, Unique, InUseOrder;
    var s' := Step(s, e, parse);
    match e
    case LookUp(t, req) =>
      LookUpStore(s, t, req);
      OldSlotsClean(s, s');
    case Insert(t) =>
      InsertedStore(s, t);
      assert forall slot :: slot in s.store ==> Clean(slot.entry.req.flags);
    case Invalidate(file, build) => TuCache.PurgeIsPart(s.store, file, build);
    case _ =>
  }

  lemma OldSlotsClean<T>(s: State<T>, s': State<T>)
    requires CleanState(s) && forall slot :: slot in s'.store ==> WasStored(s, slot)
    ensures forall slot :: slot in s'.store ==> Clean(slot.entry.req.flags)
  {
    hide Clean;
  }

  lemma {:induction false} RunIsTraced<T>(s: State<T>, es: seq<Event>, end: State<T>, parse: Parser<T>)
    requires Safe(s) && Conserved(s) && Traced(s, parse) && Runs(s, es, end, parse)
    ensures Safe(end) && Traced(end, parse)
    ensures Unraced(s) && QuietRun(s, es, parse) ==> Unraced(end)
    ensures CleanState(s) && CleanCallers(es) ==> CleanState(end)
    decreases |es|
  {
    hide Traced, Unraced, Safe, Conserved, CleanState, Quiet, Step;
    if es != [] {
      var next := Step(s, es[0], parse);
      StepIsSafe(s, es[0], parse);
      StepIsTraced(s, es[0], parse);
      if CleanState(s) && CleanCallers(es) {
        StepIsClean(s, es[0], parse);
      }
      RunIsTraced(next, es[1..], end, parse);
    }
  }

  /** In any run, whatever changes when: the source of a hit is there at the recorded time, and the
      unit is what the parser made of it as it was at the time seen, for a request with the same
      key. It is what the parser makes of the present source if the time seen is the recorded one. */
  lemma {:induction false} HitTheorem<T>(capacity: nat, es: seq<Event>, s: State<T>, req: Req, parse: Parser<T>)
    requires 0 < capacity && Runs(Init(capacity), es, s, parse)
    requires Hit(s, req).Some?
    ensures
      var held := Hit(s, req).value;
      && req.file in s.files && held.mtime == s.files[req.file].mtime && 0 < held.mtime
      && KeyOf(held.req) == KeyOf(req)
      && (held.seen.Some? ==> (req.file, held.seen.value) in s.past)
      && ParseReq(parse, held.req, ContentAt(s, req.file, held.seen)) == Some(held.tu)
      && (held.seen == Some(held.mtime) ==>
            ParseReq(parse, held.req, Some(s.files[req.file].content)) == Some(held.tu))
  {
    RunIsTraced(Init(capacity), es, s, parse);
    HitIsTraced(s, req, parse);
  }

  lemma {:induction false} HitIsTraced<T>(s: State<T>, req: Req, parse: Parser<T>)
    requires Traced(s, parse) && Hit(s, req).Some?
    ensures
      var held := Hit(s, req).value;
      && Slot(KeyOf(req), held) in s.store
      && req.file in s.files && held.mtime == s.files[req.file].mtime && 0 < held.mtime
      && ContentAt(s, req.file, Some(held.mtime)) == Some(s.files[req.file].content)
      && KeyOf(held.req) == KeyOf(req)
      && FromParse(s, held.tu, held.req, held.seen, parse)
  {
    FindIsPart(s.store, KeyOf(req));
    assert SlotOk(s, Slot(KeyOf(req), Hit(s, req).value), parse);
  }

  /** A parser whose units, for a request, tell contents apart. */
  ghost predicate TellsApart<T(!new)>(parse: Parser<T>, req: Req) {
    forall c, c' ::
      parse(req.file, c, req.flags, req.options).Some?
      && parse(req.file, c, req.flags, req.options) == parse(req.file, c', req.flags, req.options)
      ==> c == c'
  }

  /** No two versions of a file have the same content. */
  ghost predicate NeverRepeats<T>(s: State<T>, file: string) {
    forall m, m' :: (file, m) in s.past && (file, m') in s.past && m != m' ==> s.past[(file, m)] != s.past[(file, m')]
  }

  predicate Fresh<T(==)>(s: State<T>, req: Req, tu: T, parse: Parser<T>) {
    req.file in s.files && parse(req.file, Some(s.files[req.file].content), req.flags, req.options) == Some(tu)
  }

  /** After any run without marker flags, races included: a hit is fresh if its source had the same
      time at the parse as at the stat that followed. A parser that tells contents apart gives a
      fresh hit exactly if the two versions have the same content; when versions never do, exactly
      if the two times are the same. */
  lemma {:induction false} FreshExactly<T(!new)>(capacity: nat, es: seq<Event>, s: State<T>, req: Req, parse: Parser<T>)
    requires 0 < capacity && Runs(Init(capacity), es, s, parse)
    requires CleanCallers(es) && Clean(req.flags)
    requires Hit(s, req).Some?
    ensures
      var held := Hit(s, req).value;
      && (held.seen == Some(held.mtime) ==> Fresh(s, req, held.tu, parse))
      && (TellsApart(parse, req) ==>
            (Fresh(s, req, held.tu, parse)
             <==> ContentAt(s, req.file, held.seen) == ContentAt(s, req.file, Some(held.mtime))))
      && (TellsApart(parse, req) && NeverRepeats(s, req.file) ==>
            (Fresh(s, req, held.tu, parse) <==> held.seen == Some(held.mtime)))
  {
    hide Runs, Unraced, KeyOf, Safe;
    HitIsOwn(capacity, es, s, req, parse);
    var held := Hit(s, req).value;
    var before, now := ContentAt(s, req.file, held.seen), ContentAt(s, req.file, Some(held.mtime));
    assert parse(req.file, before, req.flags, req.options) == Some(held.tu);
    assert now == Some(s.files[req.file].content);
    assert (req.file, held.mtime) in s.past;
    if NeverRepeats(s, req.file) && held.seen.Some? && held.seen.value != held.mtime {
      assert s.past[(req.file, held.seen.value)] != s.past[(req.file, held.mtime)];
    }
  }

  /** Without marker flags a hit's entry was parsed for the very same request. */
  lemma {:induction false} HitIsOwn<T>(capacity: nat, es: seq<Event>, s: State<T>, req: Req, parse: Parser<T>)
    requires 0 < capacity && Runs(Init(capacity), es, s, parse)
    requires CleanCallers(es) && Clean(req.flags)
    requires Hit(s, req).Some?
    ensures
      var held := Hit(s, req).value;
      && held.req == req && Slot(KeyOf(req), held) in s.store
      && req.file in s.files && held.mtime == s.files[req.file].mtime
      && ContentAt(s, req.file, Some(held.mtime)) == Some(s.files[req.file].content)
      && (held.seen.Some? ==> (req.file, held.seen.value) in s.past)
      && parse(req.file, ContentAt(s, req.file, held.seen), req.flags, req.options) == Some(held.tu)
  {
    hide Effective, Strip, Runs;
    RunIsTraced(Init(capacity), es, s, parse);
    HitIsTraced(s, req, parse);
    var held := Hit(s, req).value;
    assert Clean(Slot(KeyOf(req), held).entry.req.flags);
    EffectiveInjective(req.flags, req.options, held.req.flags, held.req.options);
    StripUndoesEffective(req.flags, req.options);
  }

  /** When files change only quietly and callers pass no marker flags, every hit returns what
      parsing the present source with the caller's own flags and options would. */
  lemma {:induction false} FreshnessTheorem<T>(capacity: nat, es: seq<Event>, s: State<T>, req: Req, parse: Parser<T>)
    requires 0 < capacity && Runs(Init(capacity), es, s, parse)
    requires QuietRun(Init(capacity), es, parse) && CleanCallers(es) && Clean(req.flags)
    requires Hit(s, req).Some?
    ensures req.file in s.files
    ensures parse(req.file, Some(s.files[req.file].content), req.flags, req.options) == Some(Hit(s, req).value.tu)
  {
    hide QuietRun, Runs, KeyOf;
    RunIsTraced(Init(capacity), es, s, parse);
    HitIsOwn(capacity, es, s, req, parse);
    var slot := Slot(KeyOf(req), Hit(s, req).value);
    assert SlotUnraced(s, slot);
  }

  predicate Changes(e: Event, file: string) {
    (e.Write? || e.Delete?) && e.file == file
  }

  /** The stamp a thread takes is the time it saw exactly if no event since then changed its file:
      changes to other files, and anything other threads do, are harmless. */
  lemma {:induction false} StampedAsSeen<T>(s: State<T>, es: seq<Event>, end: State<T>, t: nat, parse: Parser<T>)
    requires Traced(s, parse) && Runs(s, es, end, parse)
    requires Enabled(s, Stat(t)) && s.threads[t].seen == MtimeOf(s.files, s.threads[t].req.file) != None
    requires Enabled(end, Stat(t)) && end.threads[t] == s.threads[t]
    ensures Some(StepStat(end, t).threads[t].mtime) == s.threads[t].seen
       <==> forall e :: e in es ==> !Changes(e, s.threads[t].req.file)
  {
    var p := s.threads[t];
    assert PhaseOk(s, p, parse);
    TimeKept(s, es, end, p.req.file, p.seen.value, parse);
  }

  /** A version that has been replaced or removed never comes back. */
  lemma {:induction false} TimeKept<T>(s: State<T>, es: seq<Event>, end: State<T>, file: string, m: int,
                                       parse: Parser<T>)
    requires (file, m) in s.past && Runs(s, es, end, parse)
    ensures (file, m) in end.past
    ensures MtimeOf(end.files, file) == Some(m)
       <==> MtimeOf(s.files, file) == Some(m) && forall e :: e in es ==> !Changes(e, file)
    decreases |es|
  {
    if es != [] {
      var next := Step(s, es[0], parse);
      TimeKeptOnce(s, es[0], file, m, parse);
      TimeKept(next, es[1..], end, file, m, parse);
      assert forall e :: e in es <==> e == es[0] || e in es[1..];
    }
  }

  lemma TimeKeptOnce<T>(s: State<T>, e: Event, file: string, m: int, parse: Parser<T>)
    requires 0 < s.capacity && Enabled(s, e) && (file, m) in s.past
    ensures
      var next := Step(s, e, parse);
      && (file, m) in next.past
      && (MtimeOf(next.files, file) == Some(m) <==> MtimeOf(s.files, file) == Some(m) && !Changes(e, file))
  {
  }

  // ------------------------------------------------------------------
  // One worker
  // ------------------------------------------------------------------

  /** A run in which a request starts only when none is in flight. */
  ghost predicate SingleWorker<T>(s: State<T>, es: seq<Event>, parse: Parser<T>)
    decreases |es|
  {
    es == [] || (0 < s.capacity && Enabled(s, es[0]) && (es[0].LookUp? ==> s.threads == map[])
                 && SingleWorker(Step(s, es[0], parse), es[1..], parse))
  }

  ghost predicate Alone<T>(s: State<T>) {
    && (forall t, t' :: t in s.threads && t' in s.threads ==> t == t')
    && (forall t :: t in s.threads ==> Find(s.store, KeyOf(s.threads[t].req)) == None)
    && s.overwritten == 0
  }

  lemma {:induction false} StepIsAlone<T>(s: State<T>, e: Event, parse: Parser<T>)
    requires Safe(s) && Alone(s) && Enabled(s, e) && (e.LookUp? ==> s.threads == map[])
    ensures Alone(Step(s, e, parse))
  {
    hide Unique, InUseOrder, Find, Without, KeyOf, ParseReq, TuCache.Purge;
    match e
    case LookUp(t, req) => WithoutMissing(s.store, KeyOf(req));
    case Insert(t) =>
      var n := TuCache.Overflow(|s.store|, s.capacity);
      assert s.store == s.store[..n] + s.store[n..];
      FindConcat(s.store[..n], s.store[n..], KeyOf(s.threads[t].req));
    case Invalidate(file, build) => TuCache.PurgeValid(s.store, file, build);
    case Clear => NothingFound<T>();
    case _ =>
  }

  lemma NothingFound<T>()
    ensures forall k: Key :: Find<Key, Held<T>>([], k) == None
  {
  }

  /** With one worker no insertion overwrites an entry: the cache never parses a source while a
      unit for the same key is stored. */
  lemma {:induction false} SingleWorkerTheorem<T>(s: State<T>, es: seq<Event>, end: State<T>, parse: Parser<T>)
    requires Safe(s) && Conserved(s) && Alone(s)
    requires Runs(s, es, end, parse) && SingleWorker(s, es, parse)
    ensures Alone(end) && end.overwritten == 0
    decreases |es|
  {
    if es != [] {
      StepIsSafe(s, es[0], parse);
      StepIsAlone(s, es[0], parse);
      SingleWorkerTheorem(Step(s, es[0], parse), es[1..], end, parse);
    }
  }

  // ------------------------------------------------------------------
  // The race, and the sequential cache
  // ------------------------------------------------------------------

  const RACED := Req("f", "", [], 0)

  function Echo(file: string, content: Option<string>, flags: seq<string>, options: int): Option<string> {
    content
  }

  /** A write between a parse and its stat: the next request hits and gets the old unit. */
  lemma {:induction false} RacedHitIsStale() returns (es: seq<Event>, end: State<string>)
    ensures Runs(Init(1), es, end, Echo)
    ensures "f" in end.files && end.files["f"].content == "new"
    ensures Hit(end, RACED).Some? && Hit(end, RACED).value.tu == "old"
  {
    hide Step, Hit;
    var parsed := RacedParse();
    end := RacedInsert(parsed);
    es := [Write("f", "new", 2), Stat(0), Insert(0)];
    Concatenate(Init(1), [Write("f", "old", 1), LookUp(0, RACED), Parse(0)], parsed, es, end);
    es := [Write("f", "old", 1), LookUp(0, RACED), Parse(0)] + es;
  }

  lemma {:induction false} RacedParse() returns (end: State<string>)
    ensures Runs(Init(1), [Write("f", "old", 1), LookUp(0, RACED), Parse(0)], end, Echo)
    ensures end == State(map["f" := File("old", 1)], map[("f", 1) := "old"],
                         map[0 := Parsed(RACED, "old", Some(1))], 1, [], 0, 1, 0, 0, 0, 0, 0)
  {
    var s0: State<string> := Init(1);
    var s1: State<string> :=
      State(map["f" := File("old", 1)], map[("f", 1) := "old"], map[], 1, [], 0, 0, 0, 0, 0, 0, 0);
    var s2 := s1.(threads := map[0 := Missed(RACED)], misses := 1);
    end := s1.(threads := map[0 := Parsed(RACED, "old", Some(1))], misses := 1);
    assert s1 == Step(s0, Write("f", "old", 1), Echo);
    assert s2 == Step(s1, LookUp(0, RACED), Echo);
    assert end == Step(s2, Parse(0), Echo);
    RunOne(s2, Parse(0), [], end, end, Echo);
    RunOne(s1, LookUp(0, RACED), [Parse(0)], s2, end, Echo);
    RunOne(s0, Write("f", "old", 1), [LookUp(0, RACED), Parse(0)], s1, end, Echo);
  }

  lemma {:induction false} RacedInsert(s3: State<string>) returns (end: State<string>)
    requires s3 == State(map["f" := File("old", 1)], map[("f", 1) := "old"],
                         map[0 := Parsed(RACED, "old", Some(1))], 1, [], 0, 1, 0, 0, 0, 0, 0)
    ensures Runs(s3, [Write("f", "new", 2), Stat(0), Insert(0)], end, Echo)
    ensures "f" in end.files && end.files["f"].content == "new"
    ensures Hit(end, RACED).Some? && Hit(end, RACED).value.tu == "old"
  {
    hide StepInsert, Find, KeyOf, ParseReq, StepParse, StepLookUp;
    var s4 := s3.(files := map["f" := File("new", 2)], past := s3.past[("f", 2) := "new"]);
    var s5 := s4.(threads := map[0 := Stamped(RACED, "old", Some(1), 2)]);
    var slot := Slot(KeyOf(RACED), Held("old", 2, RACED, Some(1), 0));
    end := s5.(threads := map[], store := [slot], clock := 1);
    assert s4 == Step(s3, Write("f", "new", 2), Echo);
    assert s5 == Step(s4, Stat(0), Echo);
    assert end == Step(s5, Insert(0), Echo) by { InsertIntoEmpty(s5, 0); }
    OnlySlot(slot);
    RunOne(s5, Insert(0), [], end, end, Echo);
    RunOne(s4, Stat(0), [Insert(0)], s5, end, Echo);
    RunOne(s3, Write("f", "new", 2), [Stat(0), Insert(0)], s4, end, Echo);
  }

  lemma InsertIntoEmpty<T>(s: State<T>, t: nat)
    requires 0 < s.capacity && Enabled(s, Insert(t)) && s.store == []
    ensures
      var p := s.threads[t];
      StepInsert(s, t)
      == s.(threads := s.threads - {t},
            store := [Slot(KeyOf(p.req), Held(p.tu, p.mtime, p.req, p.seen, s.clock))],
            clock := s.clock + 1)
  {
  }

  lemma OnlySlot<T>(slot: Slot<Key, Held<T>>)
    ensures Find([slot], slot.key) == Some(slot.entry)
  {
  }

  lemma {:induction false} Concatenate(s: State<string>, a: seq<Event>, mid: State<string>, b: seq<Event>,
                                       end: State<string>)
    requires Runs(s, a, mid, Echo) && Runs(mid, b, end, Echo)
    ensures Runs(s, a + b, end, Echo)
    decreases |a|
  {
    hide Step, Enabled;
    if a == [] {
      assert a + b == b;
    } else {
      Concatenate(Step(s, a[0], Echo), a[1..], mid, b, end);
      assert (a + b)[1..] == a[1..] + b;
    }
  }

  lemma {:induction false} RunOne<T>(s: State<T>, e: Event, rest: seq<Event>, next: State<T>, end: State<T>,
                                     parse: Parser<T>)
    requires 0 < s.capacity && Enabled(s, e) && next == Step(s, e, parse) && Runs(next, rest, end, parse)
    ensures Runs(s, [e] + rest, end, parse)
  {
  }

  /** The store as the sequential cache keeps it. */
  function Erase<T>(s: Store<T>): TuCache.Store<T> {
    seq(|s|, i requires 0 <= i < |s| => Slot(s[i].key, TuCache.Entry(s[i].entry.tu, s[i].entry.mtime)))
  }

  function CacheOf<T>(s: State<T>): TuCache.Cache<T> {
    TuCache.Cache(s.capacity, Erase(s.store), s.hits, s.misses, s.evictions)
  }

  lemma {:induction false} EraseFind<T>(s: Store<T>, k: Key)
    ensures Find(Erase(s), k) ==
      match Find(s, k) case None => None case Some(held) => Some(TuCache.Entry(held.tu, held.mtime))
    ensures Without(Erase(s), k) == Erase(Without(s, k))
  {
    if s != [] {
      EraseFind(s[1..], k);
      assert Erase(s)[1..] == Erase(s[1..]);
      EraseConcat(if s[0].key == k then [] else [s[0]], Without(s[1..], k));
    }
  }

  lemma EraseConcat<T>(a: Store<T>, b: Store<T>)
    ensures Erase(a + b) == Erase(a) + Erase(b)
  {
  }

  lemma {:induction false} LookUpRefines<T>(s: State<T>, t: nat, req: Req)
    ensures
      var looked := TuCache.LookUp(CacheOf(s), KeyOf(req), MtimeOf(s.files, req.file));
      && CacheOf(StepLookUp(s, t, req)) == looked.0
      && looked.1 == (match Hit(s, req) case None => None case Some(held) => Some(held.tu))
  {
    var key := KeyOf(req);
    EraseFind(s.store, key);
    if Hit(s, req).Some? {
      var slot := Slot(key, Hit(s, req).value.(touched := s.clock));
      EraseConcat(Without(s.store, key), [slot]);
    }
  }

  lemma {:induction false} InsertRefines<T>(s: State<T>, t: nat)
    requires 0 < s.capacity && Enabled(s, Insert(t))
    ensures
      var p := s.threads[t];
      CacheOf(StepInsert(s, t)) == TuCache.Insert(CacheOf(s), KeyOf(p.req), TuCache.Entry(p.tu, p.mtime))
  {
    var p := s.threads[t];
    var n := TuCache.Overflow(|s.store|, s.capacity);
    var kept := s.store[n..];
    assert Erase(s.store)[n..] == Erase(kept);
    EraseFind(kept, KeyOf(p.req));
    var slot := Slot(KeyOf(p.req), Held(p.tu, p.mtime, p.req, p.seen, s.clock));
    EraseConcat(Without(kept, KeyOf(p.req)), [slot]);
  }

  lemma {:induction false} ErasePurge<T>(s: Store<T>, file: string, build: Option<string>)
    ensures TuCache.Purge(Erase(s), file, build) == Erase(TuCache.Purge(s, file, build))
  {
    if s != [] {
      ErasePurge(s[1..], file, build);
      assert Erase(s)[1..] == Erase(s[1..]);
      EraseConcat(if TuCache.Matches(s[0].key, file, build) then [] else [s[0]], TuCache.Purge(s[1..], file, build));
    }
  }

  /** Invalidating and clearing are the sequential cache's: every entry removed by the one counts as
      evicted, none removed by the other. */
  lemma {:induction false} InvalidateRefines<T>(s: State<T>, file: string, build: Option<string>, parse: Parser<T>)
    requires 0 < s.capacity
    ensures CacheOf(StepInvalidate(s, file, build)) == TuCache.Invalidated(CacheOf(s), file, build)
    ensures CacheOf(Step(s, Clear, parse)) == TuCache.Cleared(CacheOf(s))
  {
    ErasePurge(s.store, file, build);
  }

  /** A request with nothing in between is the sequential cache's request: it leaves the same cache,
      and its answer is a hit's unit, or the unit parsed and then stored, or the parser's failure. */
  lemma {:induction false} RequestRefines<T>(s: State<T>, t: nat, req: Req, parse: Parser<T>)
    returns (es: seq<Event>, end: State<T>)
    requires 0 < s.capacity && t !in s.threads
    ensures Runs(s, es, end, parse)
    ensures end.threads == s.threads && end.files == s.files
    ensures
      var mtime := MtimeOf(s.files, req.file);
      var parsed := ParseReq(parse, req, ContentOf(s.files, req.file));
      var (cache, answer) := TuCache.Request(CacheOf(s), KeyOf(req), mtime, parsed, mtime);
      && CacheOf(end) == cache
      && answer == (if Hit(s, req).Some? then Ok((Hit(s, req).value.tu, true))
                    else if parsed.Some? then Ok((parsed.value, false))
                    else Err(()))
  {
    hide KeyOf, ParseReq, Hit, StepLookUp, CacheOf, TuCache.LookUp, TuCache.Insert;
    var missed := StepLookUp(s, t, req);
    LookUpRefines(s, t, req);
    LookUpFrame(s, t, req);
    if Hit(s, req).Some? {
      es, end := [], missed;
    } else {
      es, end := MissRefines(missed, t, req, parse);
      assert s.threads[t := Missed(req)] - {t} == s.threads;
    }
    RunOne(s, LookUp(t, req), es, missed, end, parse);
    es := [LookUp(t, req)] + es;
  }

  lemma LookUpFrame<T>(s: State<T>, t: nat, req: Req)
    ensures
      var next := StepLookUp(s, t, req);
      && next.files == s.files && next.capacity == s.capacity
      && next.threads == if Hit(s, req).Some? then s.threads else s.threads[t := Missed(req)]
  {
  }

  lemma {:induction false} MissRefines<T>(s: State<T>, t: nat, req: Req, parse: Parser<T>)
    returns (es: seq<Event>, end: State<T>)
    requires 0 < s.capacity && t in s.threads && s.threads[t] == Missed(req)
    ensures Runs(s, es, end, parse)
    ensures end.threads == s.threads - {t} && end.files == s.files
    ensures
      match ParseReq(parse, req, ContentOf(s.files, req.file))
      case None => CacheOf(end) == CacheOf(s)
      case Some(tu) =>
        var entry := TuCache.Entry(tu, TuCache.StampAfter(MtimeOf(s.files, req.file)));
        CacheOf(end) == TuCache.Insert(CacheOf(s), KeyOf(req), entry)
  {
    hide KeyOf, ParseReq, TuCache.Insert, Find, Without, Erase;
    var s2 := StepParse(s, t, parse);
    match ParseReq(parse, req, ContentOf(s.files, req.file))
    case None =>
      es, end := [Parse(t)], s2;
      RunOne(s, Parse(t), [], s2, end, parse);
    case Some(tu) =>
      assert s2.threads[t] == Parsed(req, tu, MtimeOf(s.files, req.file));
      var s3 := StepStat(s2, t);
      end := StepInsert(s3, t);
      InsertRefines(s3, t);
      RunOne(s3, Insert(t), [], end, end, parse);
      RunOne(s2, Stat(t), [Insert(t)], s3, end, parse);
      RunOne(s, Parse(t), [Stat(t), Insert(t)], s2, end, parse);
      es := [Parse(t)] + [Stat(t), Insert(t)];
  }
}
