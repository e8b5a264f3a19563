/** The env string caches: three LRU caches filled in two phases, with the build step outside the
    lock, whose entries own slots of one shared root slab.

    A caller is a program counter through `get_or_insert` or `set_authority_env`. One action is one
    critical section of a cache lock, one slab insert or one slab release, so callers interleave
    between the unlocked build and the second lock, and the three caches root strings in parallel. */
module EnvCache {
  import opened Options
  import Scan
  import PinSlabs

  const HOST_CACHE_CAP: nat := 256
  const ADDR_CACHE_CAP: nat := 1024
  const VALUE_CACHE_CAP: nat := 512

  const CACHE_SLAB_CAPACITY: nat :=
    (HOST_CACHE_CAP + 1) * 3 + (ADDR_CACHE_CAP + 1) + (VALUE_CACHE_CAP + 1)

  type Str = string

  /** What a host lookup's build closes over besides the key: the local port, and whether the key came as the
      authority of the request's URI or as its Host header. */
  datatype Source = Source(port: nat, authority: bool)

  type Pid = nat

  datatype CacheId = Hosts | Addrs | Values

  /** The uncached builders. Only the host builder sees more than the key. */
  datatype Make = Make(
    name: (Str, Source) -> Str,
    port: (Str, Source) -> Str,
    addr: Str -> Str,
    text: Str -> Str)

  function Cap(c: CacheId): nat {
    match c
    case Hosts => HOST_CACHE_CAP
    case Addrs => ADDR_CACHE_CAP
    case Values => VALUE_CACHE_CAP
  }

  /** Strings of an entry without the lazily filled authority. */
  function Arity(c: CacheId): nat {
    if c == Hosts then 2 else 1
  }

  /** Most strings an entry of this cache can own. */
  function Width(c: CacheId): nat {
    if c == Hosts then 3 else 1
  }

  function Built(make: Make, c: CacheId, key: Str, src: Source): (strs: seq<Str>)
    ensures |strs| == Arity(c)
  {
    match c
    case Hosts => [make.name(key, src), make.port(key, src)]
    case Addrs => [make.addr(key)]
    case Values => [make.text(key)]
  }

  /** What the caller must put in its env: the built strings, and for an authority the authority itself. */
  function Uncached(make: Make, c: CacheId, key: Str, src: Source, authority: bool): seq<Str> {
    Built(make, c, key, src) + if authority then [key] else []
  }

  /** A cache entry: the built strings, the lazily filled authority, the slab slot rooting each of
      them in order, and whose build it came from. */
  datatype Item = Item(key: Str, src: Source, built: seq<Str>, host: Option<Str>, roots: seq<nat>)

  function Strs(item: Item): seq<Str> {
    item.built + if item.host.Some? then [item.host.value] else []
  }

  /** What the lock holder is in the middle of. */
  datatype Work =
    | Rooting(item: Item)           // a fresh entry; `roots` grows string by string
    | Filling                       // the authority of the entry already cached
    | Releasing(roots: seq<nat>)    // an entry being dropped

  datatype Lock = Free | Held(pid: Pid, work: Work)

  /** Items in recency order, most recent first. */
  datatype Cache = Cache(items: seq<Item>, lock: Lock)

  datatype Pc =
    | Looking                                         // before the first lock
    | Building                                        // missed; builds with the lock released
    | Adopting(from: Source, pair: seq<Str>)          // hit an entry without authority
    | Committing(from: Source, result: seq<Str>)      // inside the second lock
    | Returned(from: Source, result: seq<Str>)

  datatype Caller = Caller(cache: CacheId, key: Str, src: Source, authority: bool, pc: Pc)

  datatype State = State(hosts: Cache, addrs: Cache, values: Cache, slab: map<nat, Str>, callers: map<Pid, Caller>)

  datatype Action =
    | Call(p: Pid, cache: CacheId, key: Str, src: Source, authority: bool)
    | Lookup(p: Pid)
    | Second(p: Pid)
    | Root(p: Pid, slot: nat)
    | RootFails(p: Pid)
    | Commit(p: Pid)
    | Release(c: CacheId)

  function Start(): State {
    var empty := Cache([], Free);
    State(empty, empty, empty, map[], map[])
  }

  function Get(s: State, c: CacheId): Cache {
    match c
    case Hosts => s.hosts
    case Addrs => s.addrs
    case Values => s.values
  }

  function Set(s: State, c: CacheId, cache: Cache): State {
    match c
    case Hosts => s.(hosts := cache)
    case Addrs => s.(addrs := cache)
    case Values => s.(values := cache)
  }

  function SetPc(s: State, p: Pid, pc: Pc): State
    requires p in s.callers
  {
    s.(callers := s.callers[p := s.callers[p].(pc := pc)])
  }

  /** Position of the entry for `key`, or the number of items. */
  function Find(items: seq<Item>, key: Str): (i: nat)
    ensures i <= |items| && (i < |items| ==> items[i].key == key)
  {
    if items == [] then 0 else if items[0].key == key then 0 else 1 + Find(items[1..], key)
  }

  /** A hit makes the entry the most recent one. */
  function Touched(items: seq<Item>, i: nat): seq<Item>
    requires i < |items|
  {
    [items[i]] + items[..i] + items[i + 1..]
  }

  function FreeSlots(s: State): set<nat> {
    set i | 0 <= i < CACHE_SLAB_CAPACITY && i !in s.slab
  }

  predicate HoldsLock(s: State, p: Pid) {
    && p in s.callers
    && var lock := Get(s, s.callers[p].cache).lock;
       lock.Held? && lock.pid == p && !lock.work.Releasing?
  }

  /** The strings the holder still has to root. */
  function Todo(s: State, p: Pid): seq<Str>
    requires HoldsLock(s, p)
  {
    match Get(s, s.callers[p].cache).lock.work
    case Rooting(item) => if |item.roots| < |Strs(item)| then Strs(item)[|item.roots|..] else []
    case Filling => [s.callers[p].key]
  }

  predicate CanLookup(s: State, p: Pid) {
    p in s.callers && s.callers[p].pc.Looking? && Get(s, s.callers[p].cache).lock.Free?
  }

  predicate CanSecond(s: State, p: Pid) {
    && p in s.callers && (s.callers[p].pc.Building? || s.callers[p].pc.Adopting?)
    && Get(s, s.callers[p].cache).lock.Free?
  }

  predicate MustRoot(s: State, p: Pid) {
    HoldsLock(s, p) && Todo(s, p) != [] && s.callers[p].pc.Committing?
  }

  predicate CanRoot(s: State, p: Pid, slot: nat) {
    && MustRoot(s, p) && slot in FreeSlots(s)
    && (Get(s, s.callers[p].cache).items == [] ==> Get(s, s.callers[p].cache).lock.work.Rooting?)
  }

  /** An insert may be refused: on a full slab, or with room left when its scan misses the free slots. */
  predicate CanFail(s: State, p: Pid) {
    MustRoot(s, p)
  }

  predicate CanCommit(s: State, p: Pid) {
    HoldsLock(s, p) && Todo(s, p) == [] && s.callers[p].pc.Committing?
  }

  predicate CanRelease(s: State, c: CacheId) {
    Get(s, c).lock.Held? && Get(s, c).lock.work.Releasing?
  }

  predicate Enabled(s: State, a: Action) {
    match a
    case Call(p, c, _, src, authority) => p !in s.callers && authority == (c == Hosts && src.authority)
    case Lookup(p) => CanLookup(s, p)
    case Second(p) => CanSecond(s, p)
    case Root(p, slot) => CanRoot(s, p, slot)
    case RootFails(p) => CanFail(s, p)
    case Commit(p) => CanCommit(s, p)
    case Release(c) => CanRelease(s, c)
  }

  /** First lock, entry present: copy its strings out. */
  function FirstHit(caller: Caller, item: Item): Pc {
    if !caller.authority then Returned(item.src, item.built)
    else if item.host.Some? then Returned(item.src, item.built + [item.host.value])
    else Adopting(item.src, item.built)
  }

  function DoLookup(s: State, p: Pid): State
    requires CanLookup(s, p)
  {
    var caller := s.callers[p];
    var cache := Get(s, caller.cache);
    var i := Find(cache.items, caller.key);
    if i == |cache.items| then SetPc(s, p, Building)
    else SetPc(Set(s, caller.cache, cache.(items := Touched(cache.items, i))), p, FirstHit(caller, cache.items[i]))
  }

  /** Second lock, entry present: a racing caller's entry wins over what this one has built; strings it
      read before stay valid. Without an authority the entry adopts this caller's. */
  function SecondHit(caller: Caller, item: Item): Pc {
    var from := if caller.pc.Adopting? then caller.pc.from else item.src;
    var base := if caller.pc.Adopting? then caller.pc.pair else item.built;
    if !caller.authority then Returned(from, base)
    else if item.host.Some? then Returned(from, base + [item.host.value])
    else Committing(from, base + [caller.key])
  }

  /** The entry a caller that found none starts to root. */
  function FreshItem(make: Make, caller: Caller): Item {
    Item(caller.key, caller.src, Built(make, caller.cache, caller.key, caller.src),
         if caller.authority then Some(caller.key) else None, [])
  }

  /** Second lock: the key may have been inserted, filled or evicted since the first. */
  function DoSecond(make: Make, s: State, p: Pid): State
    requires CanSecond(s, p)
  {
    var caller := s.callers[p];
    var c := caller.cache;
    var cache := Get(s, c);
    var i := Find(cache.items, caller.key);
    if i < |cache.items| then
      var pc := SecondHit(caller, cache.items[i]);
      var touched := cache.(items := Touched(cache.items, i));
      var t := SetPc(Set(s, c, touched), p, pc);
      if pc.Committing? then Set(t, c, touched.(lock := Held(p, Filling))) else t
    else if caller.pc.Adopting? then // evicted meanwhile
      SetPc(s, p, Returned(caller.pc.from, caller.pc.pair + [caller.key]))
    else
      var item := FreshItem(make, caller);
      Set(SetPc(s, p, Committing(caller.src, Strs(item))), c, cache.(lock := Held(p, Rooting(item))))
  }

  /** One slab insert: the next string of a fresh entry, or the authority of the cached one (which the
      holder has just touched, so it leads the list). */
  function DoRoot(s: State, p: Pid, slot: nat): State
    requires CanRoot(s, p, slot)
  {
    var caller := s.callers[p];
    var cache := Get(s, caller.cache);
    var t := s.(slab := s.slab[slot := Todo(s, p)[0]]);
    match cache.lock.work
    case Rooting(item) =>
      Set(t, caller.cache, cache.(lock := Held(p, Rooting(item.(roots := item.roots + [slot])))))
    case Filling =>
      var item := cache.items[0];
      var filled := item.(host := Some(caller.key), roots := item.roots + [slot]);
      SetPc(Set(t, caller.cache, Cache([filled] + cache.items[1..], Free)), p, Returned(caller.pc.from,
          caller.pc.result))
  }

  /** Insert refused: drop what was rooted so far and use the strings uncached. */
  function DoRootFails(s: State, p: Pid): State
    requires CanFail(s, p)
  {
    var caller := s.callers[p];
    var cache := Get(s, caller.cache);
    var roots := if cache.lock.work.Rooting? then cache.lock.work.item.roots else [];
    SetPc(Set(s, caller.cache, cache.(lock := Held(p, Releasing(roots)))), p, Returned(caller.pc.from,
        caller.pc.result))
  }

  /** `put`: the new entry leads; over capacity the least recent one is dropped. */
  function AfterPut(c: CacheId, cache: Cache, p: Pid, item: Item): Cache {
    var n := |cache.items|;
    if n >= Cap(c) then Cache([item] + cache.items[..n - 1], Held(p, Releasing(cache.items[n - 1].roots)))
    else Cache([item] + cache.items, Free)
  }

  function DoCommit(s: State, p: Pid): State
    requires CanCommit(s, p)
  {
    var caller := s.callers[p];
    var cache := Get(s, caller.cache);
    var next := AfterPut(caller.cache, cache, p, cache.lock.work.item);
    SetPc(Set(s, caller.cache, next), p, Returned(caller.pc.from, caller.pc.result))
  }

  /** One slot of a dropped entry is cleared; after the last one the lock is released. */
  function DoRelease(s: State, c: CacheId): State
    requires CanRelease(s, c)
  {
    var cache := Get(s, c);
    var roots := cache.lock.work.roots;
    if roots == [] then Set(s, c, cache.(lock := Free))
    else Set(s.(slab := s.slab - {roots[0]}), c, cache.(lock := cache.lock.(work := Releasing(roots[1..]))))
  }

  function Apply(make: Make, s: State, a: Action): State
    requires Enabled(s, a)
  {
    match a
    case Call(p, c, key, src, authority) => s.(callers := s.callers[p := Caller(c, key, src, authority, Looking)])
    case Lookup(p) => DoLookup(s, p)
    case Second(p) => DoSecond(make, s, p)
    case Root(p, slot) => DoRoot(s, p, slot)
    case RootFails(p) => DoRootFails(s, p)
    case Commit(p) => DoCommit(s, p)
    case Release(c) => DoRelease(s, c)
  }

  predicate Legal(make: Make, s: State, run: seq<Action>)
    decreases |run|
  {
    run == [] || (Enabled(s, run[0]) && Legal(make, Apply(make, s, run[0]), run[1..]))
  }

  function Exec(make: Make, s: State, run: seq<Action>): State
    requires Legal(make, s, run)
    decreases |run|
  {
    if run == [] then s else Exec(make, Apply(make, s, run[0]), run[1..])
  }

  // ----- which slab slots the caches own

  function ItemsCount(items: seq<Item>, i: nat): nat {
    if items == [] then 0 else multiset(items[0].roots)[i] + ItemsCount(items[1..], i)
  }

  function ItemsTotal(items: seq<Item>): nat {
    if items == [] then 0 else |items[0].roots| + ItemsTotal(items[1..])
  }

  /** Slots owned by the entry under construction or being dropped. */
  function LockRoots(lock: Lock): seq<nat> {
    match lock
    case Held(_, Rooting(item)) => item.roots
    case Held(_, Releasing(roots)) => roots
    case _ => []
  }

  function CacheCount(cache: Cache, i: nat): nat {
    ItemsCount(cache.items, i) + multiset(LockRoots(cache.lock))[i]
  }

  function CacheTotal(cache: Cache): nat {
    ItemsTotal(cache.items) + |LockRoots(cache.lock)|
  }

  /** How many owners slab slot `i` has. */
  function Owners(s: State, i: nat): nat {
    CacheCount(s.hosts, i) + CacheCount(s.addrs, i) + CacheCount(s.values, i)
  }

  function OwnedTotal(s: State): nat {
    CacheTotal(s.hosts) + CacheTotal(s.addrs) + CacheTotal(s.values)
  }

  /** The occupied slots are the disjoint union of the slots of live entries and of the entries being
      rooted or dropped: each occupied slot has one owner, each empty slot none. */
  ghost predicate SlabOk(s: State) {
    OneOwnerEach(s) && |s.slab| == OwnedTotal(s) && (forall i :: i in s.slab ==> i < CACHE_SLAB_CAPACITY)
  }

  ghost predicate OneOwnerEach(s: State) {
    forall i: nat :: Owners(s, i) == if i in s.slab then 1 else 0
  }

  /** Every string of the entry is what its slot keeps alive. */
  predicate Rooted(slab: map<nat, Str>, item: Item) {
    && |item.roots| <= |Strs(item)|
    && forall k :: 0 <= k < |item.roots| ==> item.roots[k] in slab && slab[item.roots[k]] == Strs(item)[k]
  }

  predicate Faithful(make: Make, c: CacheId, item: Item) {
    && item.built == Built(make, c, item.key, item.src)
    && (item.host.Some? ==> c == Hosts && item.host.value == item.key)
  }

  predicate ItemOk(make: Make, s: State, c: CacheId, item: Item) {
    Faithful(make, c, item) && |item.roots| == |Strs(item)| && Rooted(s.slab, item)
  }

  predicate ItemsOk(make: Make, s: State, c: CacheId) {
    && |Get(s, c).items| <= Cap(c)
    && forall k :: 0 <= k < |Get(s, c).items| ==> ItemOk(make, s, c, Get(s, c).items[k])
  }

  predicate LockOk(make: Make, s: State, c: CacheId) {
    var cache := Get(s, c);
    match cache.lock
    case Free => true
    case Held(p, Rooting(item)) =>
      && p in s.callers && s.callers[p].cache == c && s.callers[p].pc == Committing(item.src, Strs(item))
      && Faithful(make, c, item) && Rooted(s.slab, item)
    case Held(p, Filling) =>
      && p in s.callers && s.callers[p].cache == c == Hosts && s.callers[p].pc.Committing? && s.callers[p].authority
      && cache.items != [] && cache.items[0].key == s.callers[p].key && cache.items[0].host.None?
    case Held(p, Releasing(roots)) => |roots| <= Width(c)
  }

  predicate CallerOk(make: Make, caller: Caller) {
    && (caller.authority ==> caller.cache == Hosts)
    && match caller.pc
       case Looking => true
       case Building => true
       case Adopting(from, pair) => caller.authority && pair == Built(make, caller.cache, caller.key, from)
       case Committing(from, result) => result == Uncached(make, caller.cache, caller.key, from, caller.authority)
       case Returned(from, result) => result == Uncached(make, caller.cache, caller.key, from, caller.authority)
  }

  predicate CallersOk(make: Make, s: State) {
    forall p :: p in s.callers ==> CallerOk(make, s.callers[p])
  }

  ghost predicate Inv(make: Make, s: State) {
    && SlabOk(s) && CallersOk(make, s)
    && forall c: CacheId :: ItemsOk(make, s, c) && LockOk(make, s, c)
  }

  // ----- accounting

  lemma {:induction false} CountConcat(a: seq<Item>, b: seq<Item>, i: nat)
    ensures ItemsCount(a + b, i) == ItemsCount(a, i) + ItemsCount(b, i)
  {
    if a == [] {
      assert a + b == b;
    } else {
      CountConcat(a[1..], b, i);
      assert (a + b)[1..] == a[1..] + b;
    }
  }

  lemma {:induction false} TotalConcat(a: seq<Item>, b: seq<Item>)
    ensures ItemsTotal(a + b) == ItemsTotal(a) + ItemsTotal(b)
  {
    if a == [] {
      assert a + b == b;
    } else {
      TotalConcat(a[1..], b);
      assert (a + b)[1..] == a[1..] + b;
    }
  }

  lemma TouchedCount(items: seq<Item>, k: nat, i: nat)
    requires k < |items|
    ensures ItemsCount(Touched(items, k), i) == ItemsCount(items, i)
    ensures ItemsTotal(Touched(items, k)) == ItemsTotal(items)
  {
    var a, x, b := items[..k], [items[k]], items[k + 1..];
    assert items == a + (x + b) && Touched(items, k) == x + a + b;
    CountConcat(a, x + b, i);
    CountConcat(x, b, i);
    CountConcat(x + a, b, i);
    CountConcat(x, a, i);
    TotalConcat(a, x + b);
    TotalConcat(x, b);
    TotalConcat(x + a, b);
    TotalConcat(x, a);
  }

  /** Replacing one cache moves the sums by that cache's difference. */
  lemma SetOwners(s: State, c: CacheId, cache: Cache, i: nat)
    ensures Owners(Set(s, c, cache), i) + CacheCount(Get(s, c), i) == Owners(s, i) + CacheCount(cache, i)
    ensures OwnedTotal(Set(s, c, cache)) + CacheTotal(Get(s, c)) == OwnedTotal(s) + CacheTotal(cache)
  {
  }

  /** A root that appears in an entry under way has an owner. */
  lemma LockOwner(s: State, c: CacheId, i: nat)
    requires i in LockRoots(Get(s, c).lock)
    ensures Owners(s, i) >= 1
  {
  }

  lemma {:induction false} ItemOwner(items: seq<Item>, k: nat, i: nat)
    requires k < |items| && i in items[k].roots
    ensures ItemsCount(items, i) >= multiset(items[k].roots)[i] >= 1
  {
    if k > 0 {
      ItemOwner(items[1..], k - 1, i);
    }
  }

  // ----- what every action keeps

  predicate Extends(old': map<nat, Str>, new': map<nat, Str>) {
    forall i :: i in old' ==> i in new' && new'[i] == old'[i]
  }

  lemma RootedExtends(a: map<nat, Str>, b: map<nat, Str>, item: Item)
    requires Rooted(a, item) && Extends(a, b)
    ensures Rooted(b, item)
  {
  }

  /** A cache that an action on another cache leaves alone stays good. */
  lemma Untouched(make: Make, s: State, t: State, c: CacheId)
    requires ItemsOk(make, s, c) && LockOk(make, s, c) && Get(t, c) == Get(s, c) && Extends(s.slab, t.slab)
    requires Get(s, c).lock.Held? && !Get(s, c).lock.work.Releasing? ==>
      Get(s, c).lock.pid in t.callers && t.callers[Get(s, c).lock.pid] == s.callers[Get(s, c).lock.pid]
    ensures ItemsOk(make, t, c) && LockOk(make, t, c)
  {
    forall k | 0 <= k < |Get(t, c).items| ensures ItemOk(make, t, c, Get(t, c).items[k]) {
      RootedExtends(s.slab, t.slab, Get(s, c).items[k]);
    }
    if Get(s, c).lock.Held? && Get(s, c).lock.work.Rooting? {
      RootedExtends(s.slab, t.slab, Get(s, c).lock.work.item);
    }
  }

  lemma {:induction false} FindFinds(items: seq<Item>, key: Str)
    ensures Find(items, key) < |items| ==> items[Find(items, key)].key == key
    ensures Find(items, key) == |items| ==> forall k :: 0 <= k < |items| ==> items[k].key != key
  {
    if items != [] && items[0].key != key {
      FindFinds(items[1..], key);
    }
  }

  /** Moving an entry to the front keeps every owner. */
  lemma TouchSlab(s: State, c: CacheId, k: nat)
    requires SlabOk(s) && k < |Get(s, c).items|
    ensures SlabOk(Set(s, c, Get(s, c).(items := Touched(Get(s, c).items, k))))
  {
    var cache := Get(s, c);
    var touched := cache.(items := Touched(cache.items, k));
    var t := Set(s, c, touched);
    forall i: nat ensures Owners(t, i) == Owners(s, i) && OwnedTotal(t) == OwnedTotal(s) {
      TouchedCount(cache.items, k, i);
      SetOwners(s, c, touched, i);
    }
    assert Owners(t, 0) == Owners(s, 0);
  }

  /** At most cache `c` differs, and nothing left the slab. */
  ghost predicate Local(s: State, t: State, c: CacheId) {
    && t.callers == s.callers && Extends(s.slab, t.slab)
    && forall d: CacheId :: d != c ==> Get(t, d) == Get(s, d)
  }

  lemma SetIsLocal(s: State, c: CacheId, cache: Cache, slab: map<nat, Str>)
    requires Extends(s.slab, slab)
    ensures Local(s, Set(s.(slab := slab), c, cache), c) && Get(Set(s.(slab := slab), c, cache), c) == cache
    ensures Set(s.(slab := s.slab), c, cache) == Set(s, c, cache)
  {
  }

  /** Replacing cache `c` alone: only that cache has to be checked again. */
  lemma OneCache(make: Make, s: State, c: CacheId, t: State)
    requires Inv(make, s) && Local(s, t, c)
    requires SlabOk(t) && ItemsOk(make, t, c) && LockOk(make, t, c)
    ensures Inv(make, t)
  {
    forall d: CacheId ensures ItemsOk(make, t, d) && LockOk(make, t, d) {
      if d != c {
        Untouched(make, s, t, d);
      }
    }
  }

  lemma TouchItems(make: Make, s: State, t: State, c: CacheId, k: nat)
    requires ItemsOk(make, s, c) && k < |Get(s, c).items| && t.slab == s.slab
    requires Get(t, c).items == Touched(Get(s, c).items, k)
    ensures ItemsOk(make, t, c)
  {
    var items, touched := Get(s, c).items, Get(t, c).items;
    forall j | 0 <= j < |touched| ensures ItemOk(make, t, c, touched[j]) {
      var was := if j == 0 then k else if j <= k then j - 1 else j;
      assert touched[j] == items[was];
    }
  }

  lemma TouchKeeps(make: Make, s: State, c: CacheId, k: nat)
    requires Inv(make, s) && Get(s, c).lock.Free? && k < |Get(s, c).items|
    ensures Inv(make, Set(s, c, Get(s, c).(items := Touched(Get(s, c).items, k))))
  {
    var cache := Get(s, c);
    var touched := cache.(items := Touched(cache.items, k));
    var t := Set(s, c, touched);
    TouchSlab(s, c, k);
    assert ItemsOk(make, s, c);
    TouchItems(make, s, t, c, k);
    SetIsLocal(s, c, Get(t, c), s.slab);
    OneCache(make, s, c, t);
  }

  /** The caller owns no lock work that depends on its program counter. */
  predicate Bystander(s: State, p: Pid) {
    forall c: CacheId :: Get(s, c).lock.Held? && !Get(s, c).lock.work.Releasing? ==> Get(s, c).lock.pid != p
  }

  lemma SetPcKeeps(make: Make, s: State, p: Pid, pc: Pc)
    requires Inv(make, s) && p in s.callers && Bystander(s, p) && CallerOk(make, s.callers[p].(pc := pc))
    ensures Inv(make, SetPc(s, p, pc))
  {
    var t := SetPc(s, p, pc);
    assert forall i: nat :: Owners(t, i) == Owners(s, i);
    forall d: CacheId ensures ItemsOk(make, t, d) && LockOk(make, t, d) {
      Untouched(make, s, t, d);
    }
  }

  /** A caller outside the second lock is a bystander. */
  lemma OutsideLock(make: Make, s: State, p: Pid)
    requires Inv(make, s) && p in s.callers && !s.callers[p].pc.Committing?
    ensures Bystander(s, p)
  {
    forall c: CacheId | Get(s, c).lock.Held? && !Get(s, c).lock.work.Releasing? ensures Get(s, c).lock.pid != p {
      assert LockOk(make, s, c);
    }
  }

  lemma LookupKeeps(make: Make, s: State, p: Pid)
    requires Inv(make, s) && CanLookup(s, p)
    ensures Inv(make, DoLookup(s, p))
  {
    var caller := s.callers[p];
    var cache := Get(s, caller.cache);
    var i := Find(cache.items, caller.key);
    OutsideLock(make, s, p);
    assert CallerOk(make, caller);
    if i == |cache.items| {
      SetPcKeeps(make, s, p, Building);
    } else {
      var item := cache.items[i];
      assert ItemsOk(make, s, caller.cache) && ItemOk(make, s, caller.cache, item);
      TouchKeeps(make, s, caller.cache, i);
      var t := Set(s, caller.cache, cache.(items := Touched(cache.items, i)));
      OutsideLock(make, t, p);
      HitPc(make, caller, item);
      SetPcKeeps(make, t, p, FirstHit(caller, item));
    }
  }

  /** Changing only what the lock holds, with no slab slot gained or lost. */
  lemma LockChange(make: Make, s: State, c: CacheId, lock: Lock)
    requires Inv(make, s) && LockRoots(lock) == LockRoots(Get(s, c).lock)
    requires LockOk(make, Set(s, c, Get(s, c).(lock := lock)), c)
    ensures Inv(make, Set(s, c, Get(s, c).(lock := lock)))
  {
    var cache := Get(s, c).(lock := lock);
    var t := Set(s, c, cache);
    assert SlabOk(t) by {
      forall i: nat ensures Owners(t, i) == Owners(s, i) && OwnedTotal(t) == OwnedTotal(s) {
        SetOwners(s, c, cache, i);
      }
      assert Owners(t, 0) == Owners(s, 0);
    }
    assert ItemsOk(make, t, c) by {
      assert ItemsOk(make, s, c);
      Same(make, s, t, c);
    }
    SetIsLocal(s, c, Get(t, c), s.slab);
    OneCache(make, s, c, t);
  }

  lemma Same(make: Make, s: State, t: State, c: CacheId)
    requires ItemsOk(make, s, c) && Get(t, c).items == Get(s, c).items && Extends(s.slab, t.slab)
    ensures ItemsOk(make, t, c)
  {
    forall k | 0 <= k < |Get(t, c).items| ensures ItemOk(make, t, c, Get(t, c).items[k]) {
      RootedExtends(s.slab, t.slab, Get(s, c).items[k]);
    }
  }

  lemma SecondMissKeeps(make: Make, s: State, p: Pid)
    requires Inv(make, s) && CanSecond(s, p)
    requires var cache := Get(s, s.callers[p].cache); Find(cache.items, s.callers[p].key) == |cache.items|
    ensures Inv(make, DoSecond(make, s, p))
  {
    var caller := s.callers[p];
    OutsideLock(make, s, p);
    assert CallerOk(make, caller);
    if caller.pc.Adopting? {
      SetPcKeeps(make, s, p, Returned(caller.pc.from, caller.pc.pair + [caller.key]));
    } else {
      var item := FreshItem(make, caller);
      SetPcKeeps(make, s, p, Committing(caller.src, Strs(item)));
      LockChange(make, SetPc(s, p, Committing(caller.src, Strs(item))), caller.cache, Held(p, Rooting(item)));
    }
  }

  lemma HitPc(make: Make, caller: Caller, item: Item)
    requires CallerOk(make, caller) && Faithful(make, caller.cache, item) && item.key == caller.key
    ensures CallerOk(make, caller.(pc := SecondHit(caller, item)))
    ensures CallerOk(make, caller.(pc := FirstHit(caller, item)))
  {
  }

  lemma SecondHitKeeps(make: Make, s: State, p: Pid)
    requires Inv(make, s) && CanSecond(s, p)
    requires var cache := Get(s, s.callers[p].cache); Find(cache.items, s.callers[p].key) < |cache.items|
    ensures Inv(make, DoSecond(make, s, p))
  {
    var caller := s.callers[p];
    var c := caller.cache;
    var cache := Get(s, c);
    var i := Find(cache.items, caller.key);
    var item := cache.items[i];
    assert ItemOk(make, s, c, item) by { assert ItemsOk(make, s, c); }
    assert CallerOk(make, caller);
    HitPc(make, caller, item);
    TouchKeeps(make, s, c, i);
    var t := Set(s, c, cache.(items := Touched(cache.items, i)));
    OutsideLock(make, t, p);
    var pc := SecondHit(caller, item);
    SetPcKeeps(make, t, p, pc);
    if pc.Committing? {
      var u := SetPc(t, p, pc);
      assert Get(u, c) == cache.(items := Touched(cache.items, i));
      LockChange(make, u, c, Held(p, Filling));
    }
  }

  lemma PlusOne(roots: seq<nat>, slot: nat, i: nat)
    ensures multiset(roots + [slot])[i] == multiset(roots)[i] + if i == slot then 1 else 0
  {
  }

  /** The change from one cache to another gives slot `slot` `d` more owners and no other slot any. */
  ghost predicate Shifts(was: Cache, now: Cache, slot: nat, d: int) {
    && (forall i: nat :: CacheCount(now, i) == CacheCount(was, i) + if i == slot then d else 0)
    && CacheTotal(now) == CacheTotal(was) + d
  }

  lemma ShiftOwners(s: State, c: CacheId, now: Cache, slot: nat, d: int, slab: map<nat, Str>, i: nat)
    requires Shifts(Get(s, c), now, slot, d)
    ensures var t := Set(s.(slab := slab), c, now);
      && Owners(t, i) == Owners(s, i) + (if i == slot then d else 0)
      && OwnedTotal(t) == OwnedTotal(s) + d
  {
    SetOwners(s, c, now, i);
  }

  /** Each slot keeps one owner when the owners move with the slab. */
  lemma MovedOwners(s: State, c: CacheId, now: Cache, slot: nat, d: int, slab: map<nat, Str>)
    requires OneOwnerEach(s) && Shifts(Get(s, c), now, slot, d)
    requires forall i: nat :: (if i in slab then 1 else 0) == (if i in s.slab then 1 else 0) + if i ==
             slot then d else 0
    ensures OneOwnerEach(Set(s.(slab := slab), c, now))
  {
    var t := Set(s.(slab := slab), c, now);
    forall i: nat ensures Owners(t, i) == if i in t.slab then 1 else 0 {
      ShiftOwners(s, c, now, slot, d, slab, i);
    }
  }

  /** A cache change that gains slot `slot` keeps the slab exact. */
  lemma GainSlot(s: State, c: CacheId, now: Cache, slot: nat, str: Str)
    requires SlabOk(s) && slot in FreeSlots(s) && Shifts(Get(s, c), now, slot, 1)
    ensures SlabOk(Set(s.(slab := s.slab[slot := str]), c, now))
  {
    var slab := s.slab[slot := str];
    assert |slab| == |s.slab| + 1;
    MovedOwners(s, c, now, slot, 1, slab);
    ShiftOwners(s, c, now, slot, 1, slab, 0);
  }

  lemma LoseSlot(s: State, c: CacheId, now: Cache, slot: nat)
    requires SlabOk(s) && slot in s.slab && Shifts(Get(s, c), now, slot, -1)
    ensures SlabOk(Set(s.(slab := s.slab - {slot}), c, now))
  {
    var slab := s.slab - {slot};
    assert |slab| == |s.slab| - 1 by { assert s.slab.Keys == slab.Keys + {slot}; }
    MovedOwners(s, c, now, slot, -1, slab);
    ShiftOwners(s, c, now, slot, -1, slab, 0);
  }

  lemma RegroupSlots(s: State, c: CacheId, now: Cache)
    requires SlabOk(s) && Shifts(Get(s, c), now, 0, 0)
    ensures SlabOk(Set(s.(slab := s.slab), c, now))
  {
    MovedOwners(s, c, now, 0, 0, s.slab);
    ShiftOwners(s, c, now, 0, 0, s.slab, 0);
  }

  lemma GrownShift(cache: Cache, p: Pid, item: Item, slot: nat)
    requires cache.lock == Held(p, Rooting(item))
    ensures Shifts(cache, cache.(lock := Held(p, Rooting(item.(roots := item.roots + [slot])))), slot, 1)
  {
    forall i: nat ensures multiset(item.roots + [slot])[i] == multiset(item.roots)[i] + if i == slot then 1 else 0 {
      PlusOne(item.roots, slot, i);
    }
  }

  lemma RootFreshLock(make: Make, s: State, p: Pid, slot: nat)
    requires CanRoot(s, p, slot) && Get(s, s.callers[p].cache).lock.work.Rooting?
    requires LockOk(make, s, s.callers[p].cache)
    ensures LockOk(make, DoRoot(s, p, slot), s.callers[p].cache)
  {
    var item := Get(s, s.callers[p].cache).lock.work.item;
    var slab := s.slab[slot := Todo(s, p)[0]];
    RootedExtends(s.slab, slab, item);
    assert Strs(item.(roots := item.roots + [slot])) == Strs(item);
  }

  lemma RootFreshSlab(s: State, p: Pid, slot: nat)
    requires SlabOk(s) && CanRoot(s, p, slot) && Get(s, s.callers[p].cache).lock.work.Rooting?
    ensures SlabOk(DoRoot(s, p, slot))
  {
    var cache := Get(s, s.callers[p].cache);
    var item := cache.lock.work.item;
    GrownShift(cache, p, item, slot);
    GainSlot(s, s.callers[p].cache, cache.(lock := Held(p, Rooting(item.(roots := item.roots + [slot])))), slot,
        Todo(s, p)[0]);
  }

  lemma RootFreshIsLocal(s: State, p: Pid, slot: nat)
    requires CanRoot(s, p, slot) && Get(s, s.callers[p].cache).lock.work.Rooting?
    ensures Local(s, DoRoot(s, p, slot), s.callers[p].cache)
    ensures Get(DoRoot(s, p, slot), s.callers[p].cache).items == Get(s, s.callers[p].cache).items
  {
  }

  lemma RootFreshKeeps(make: Make, s: State, p: Pid, slot: nat)
    requires Inv(make, s) && CanRoot(s, p, slot) && Get(s, s.callers[p].cache).lock.work.Rooting?
    ensures Inv(make, DoRoot(s, p, slot))
  {
    var c := s.callers[p].cache;
    RootFreshSlab(s, p, slot);
    RootFreshIsLocal(s, p, slot);
    assert LockOk(make, s, c) && ItemsOk(make, s, c);
    RootFreshLock(make, s, p, slot);
    Same(make, s, DoRoot(s, p, slot), c);
    OneCache(make, s, c, DoRoot(s, p, slot));
  }

  lemma FilledShift(cache: Cache, p: Pid, filled: Item, slot: nat)
    requires cache.lock == Held(p, Filling) && cache.items != [] && filled.roots == cache.items[0].roots + [slot]
    ensures Shifts(cache, Cache([filled] + cache.items[1..], Free), slot, 1)
  {
    var next := [filled] + cache.items[1..];
    assert next[1..] == cache.items[1..];
    forall i: nat ensures multiset(filled.roots)[i] == multiset(cache.items[0].roots)[i] + if i == slot then 1 else 0 {
      PlusOne(cache.items[0].roots, slot, i);
    }
  }

  lemma FilledSlab(s: State, c: CacheId, p: Pid, filled: Item, slot: nat, str: Str)
    requires SlabOk(s) && slot in FreeSlots(s) && Get(s, c).lock == Held(p, Filling)
    requires Get(s, c).items != [] && filled.roots == Get(s, c).items[0].roots + [slot]
    ensures SlabOk(Set(s.(slab := s.slab[slot := str]), c, Cache([filled] + Get(s, c).items[1..], Free)))
  {
    FilledShift(Get(s, c), p, filled, slot);
    GainSlot(s, c, Cache([filled] + Get(s, c).items[1..], Free), slot, str);
  }

  /** Nobody else's lock work depends on `p`: a caller works in one cache. */
  lemma OnlyOwnCache(make: Make, s: State, p: Pid, t: State)
    requires Inv(make, s) && p in s.callers
    requires forall d: CacheId :: d != s.callers[p].cache ==> Get(t, d) == Get(s, d)
    requires var lock := Get(t, s.callers[p].cache).lock; lock.Free? || lock.work.Releasing?
    ensures Bystander(t, p)
  {
    forall d: CacheId | Get(t, d).lock.Held? && !Get(t, d).lock.work.Releasing? ensures Get(t, d).lock.pid != p {
      assert LockOk(make, s, d);
    }
  }

  /** A holder that lets go of its cache and returns. */
  lemma ReturnKeeps(make: Make, s: State, p: Pid, now: Cache, slab: map<nat, Str>)
    requires Inv(make, s) && p in s.callers && s.callers[p].pc.Committing? && Extends(s.slab, slab)
    requires now.lock.Free? || now.lock.work.Releasing?
    requires var t := Set(s.(slab := slab), s.callers[p].cache, now);
      SlabOk(t) && ItemsOk(make, t, s.callers[p].cache) && LockOk(make, t, s.callers[p].cache)
    ensures var t := Set(s.(slab := slab), s.callers[p].cache, now);
      Inv(make, SetPc(t, p, Returned(s.callers[p].pc.from, s.callers[p].pc.result)))
  {
    var caller := s.callers[p];
    var t := Set(s.(slab := slab), caller.cache, now);
    SetIsLocal(s, caller.cache, now, slab);
    OneCache(make, s, caller.cache, t);
    OnlyOwnCache(make, s, p, t);
    assert CallerOk(make, caller);
    SetPcKeeps(make, t, p, Returned(caller.pc.from, caller.pc.result));
  }

  /** The cache once the entry in front has its authority, rooted in `slot`. */
  function WithHost(cache: Cache, key: Str, slot: nat): Cache
    requires cache.items != []
  {
    var item := cache.items[0];
    Cache([item.(host := Some(key), roots := item.roots + [slot])] + cache.items[1..], Free)
  }

  lemma WithHostItems(make: Make, s: State, p: Pid, slot: nat)
    requires CanRoot(s, p, slot) && Get(s, s.callers[p].cache).lock.work.Filling?
    requires LockOk(make, s, s.callers[p].cache) && ItemsOk(make, s, s.callers[p].cache)
    ensures var c, key := s.callers[p].cache, s.callers[p].key;
      ItemsOk(make, Set(s.(slab := s.slab[slot := key]), c, WithHost(Get(s, c), key, slot)), c)
  {
    var c, key := s.callers[p].cache, s.callers[p].key;
    var t := Set(s.(slab := s.slab[slot := key]), c, WithHost(Get(s, c), key, slot));
    FillItems(make, s, t, c, Get(t, c).items[0]);
  }

  lemma RootFillKeeps(make: Make, s: State, p: Pid, slot: nat)
    requires Inv(make, s) && CanRoot(s, p, slot) && Get(s, s.callers[p].cache).lock.work.Filling?
    ensures Inv(make, DoRoot(s, p, slot))
  {
    var c, key := s.callers[p].cache, s.callers[p].key;
    var cache := Get(s, c);
    assert LockOk(make, s, c) && ItemsOk(make, s, c);
    FilledSlab(s, c, p, WithHost(cache, key, slot).items[0], slot, key);
    WithHostItems(make, s, p, slot);
    ReturnKeeps(make, s, p, WithHost(cache, key, slot), s.slab[slot := key]);
  }

  lemma FillItems(make: Make, s: State, t: State, c: CacheId, filled: Item)
    requires ItemsOk(make, s, c) && Get(s, c).items != [] && Extends(s.slab, t.slab) && c == Hosts
    requires var item := Get(s, c).items[0];
      && item.host.None? && filled.key == item.key && filled.src == item.src && filled.built == item.built
      && filled.host == Some(item.key) && |filled.roots| == |item.roots| + 1 && item.roots <= filled.roots
      && filled.roots[|item.roots|] in t.slab && t.slab[filled.roots[|item.roots|]] == item.key
    requires Get(t, c).items == [filled] + Get(s, c).items[1..]
    ensures ItemsOk(make, t, c)
  {
    forall k | 0 <= k < |Get(t, c).items| ensures ItemOk(make, t, c, Get(t, c).items[k]) {
      assert ItemOk(make, s, c, Get(s, c).items[k]);
      RootedExtends(s.slab, t.slab, Get(s, c).items[k]);
    }
  }

  lemma StrsWidth(make: Make, c: CacheId, item: Item)
    requires Faithful(make, c, item)
    ensures |Strs(item)| <= Width(c)
  {
  }

  /** `put` hands the rooted entry to the list and the evicted entry's slots to the releasing lock. */
  lemma PutShift(c: CacheId, cache: Cache, p: Pid, item: Item)
    requires cache.lock == Held(p, Rooting(item))
    ensures Shifts(cache, AfterPut(c, cache, p, item), 0, 0)
  {
    var now, items := AfterPut(c, cache, p, item), cache.items;
    if |items| < Cap(c) {
      forall i: nat ensures CacheCount(now, i) == CacheCount(cache, i) {
        CountConcat([item], items, i);
      }
      TotalConcat([item], items);
    } else {
      var kept, last := items[..|items| - 1], [items[|items| - 1]];
      assert items == kept + last;
      forall i: nat ensures CacheCount(now, i) == CacheCount(cache, i) {
        CountConcat(kept, last, i);
        CountConcat([item], kept, i);
      }
      TotalConcat(kept, last);
      TotalConcat([item], kept);
    }
  }

  lemma PutItems(make: Make, s: State, t: State, c: CacheId, p: Pid, item: Item)
    requires ItemsOk(make, s, c) && ItemOk(make, s, c, item) && t.slab == s.slab
    requires Get(t, c) == AfterPut(c, Get(s, c), p, item)
    ensures ItemsOk(make, t, c) && LockOk(make, t, c)
  {
    var items, now := Get(s, c).items, Get(t, c).items;
    forall k | 0 <= k < |now| ensures ItemOk(make, t, c, now[k]) {
      assert k > 0 ==> now[k] == items[k - 1];
    }
    if |items| >= Cap(c) {
      assert ItemOk(make, s, c, items[|items| - 1]);
      StrsWidth(make, c, items[|items| - 1]);
    }
  }

  lemma FullyRooted(make: Make, s: State, p: Pid)
    requires CanCommit(s, p) && LockOk(make, s, s.callers[p].cache)
    ensures Get(s, s.callers[p].cache).lock.work.Rooting?
    ensures ItemOk(make, s, s.callers[p].cache, Get(s, s.callers[p].cache).lock.work.item)
  {
  }

  lemma CommitKeeps(make: Make, s: State, p: Pid)
    requires Inv(make, s) && CanCommit(s, p)
    ensures Inv(make, DoCommit(s, p))
  {
    var caller := s.callers[p];
    var c := caller.cache;
    var cache := Get(s, c);
    var item := cache.lock.work.item;
    var now := AfterPut(c, cache, p, item);
    assert ItemsOk(make, s, c) && LockOk(make, s, c);
    FullyRooted(make, s, p);
    PutShift(c, cache, p, item);
    RegroupSlots(s, c, now);
    var t := Set(s.(slab := s.slab), c, now);
    PutItems(make, s, t, c, p, item);
    ReturnKeeps(make, s, p, now, s.slab);
  }

  /** The slots of an entry that could not be rooted go to the releasing lock. */
  lemma DroppedShift(cache: Cache, p: Pid)
    requires cache.lock.Held? && !cache.lock.work.Releasing?
    ensures Shifts(cache, cache.(lock := Held(p, Releasing(LockRoots(cache.lock)))), 0, 0)
  {
  }

  lemma RootFailsKeeps(make: Make, s: State, p: Pid)
    requires Inv(make, s) && CanFail(s, p)
    ensures Inv(make, DoRootFails(s, p))
  {
    var c := s.callers[p].cache;
    var cache := Get(s, c);
    var now := cache.(lock := Held(p, Releasing(LockRoots(cache.lock))));
    assert ItemsOk(make, s, c) && LockOk(make, s, c);
    DroppedShift(cache, p);
    RegroupSlots(s, c, now);
    var t := Set(s.(slab := s.slab), c, now);
    Same(make, s, t, c);
    if cache.lock.work.Rooting? {
      StrsWidth(make, c, cache.lock.work.item);
    }
    ReturnKeeps(make, s, p, now, s.slab);
  }

  /** A slot being cleared is in no live entry. */
  lemma NotLive(s: State, c: CacheId, slot: nat, d: CacheId, k: nat)
    requires OneOwnerEach(s) && slot in LockRoots(Get(s, c).lock) && k < |Get(s, d).items|
    ensures slot !in Get(s, d).items[k].roots
  {
    if slot in Get(s, d).items[k].roots {
      ItemOwner(Get(s, d).items, k, slot);
      TwoOwners(s, c, d, slot);
    }
  }

  lemma ReleaseItem(make: Make, s: State, d: CacheId, item: Item, slot: nat)
    requires ItemOk(make, s, d, item) && slot !in item.roots
    ensures ItemOk(make, s.(slab := s.slab - {slot}), d, item)
  {
  }

  /** Clearing a slot of a dropped entry: no live entry shares it. */
  lemma ReleaseItems(make: Make, s: State, c: CacheId, slot: nat, d: CacheId)
    requires SlabOk(s) && ItemsOk(make, s, d) && slot in LockRoots(Get(s, c).lock)
    ensures ItemsOk(make, s.(slab := s.slab - {slot}), d)
  {
    var t := s.(slab := s.slab - {slot});
    forall k | 0 <= k < |Get(t, d).items| ensures ItemOk(make, t, d, Get(t, d).items[k]) {
      NotLive(s, c, slot, d, k);
      ReleaseItem(make, s, d, Get(s, d).items[k], slot);
    }
  }

  /** A slot in a lock's hands is in no live entry. */
  lemma TwoOwners(s: State, c: CacheId, d: CacheId, slot: nat)
    requires slot in LockRoots(Get(s, c).lock) && ItemsCount(Get(s, d).items, slot) >= 1
    ensures Owners(s, slot) >= 2
  {
  }

  lemma TwoLocks(s: State, c: CacheId, d: CacheId, slot: nat)
    requires c != d && slot in LockRoots(Get(s, c).lock) && slot in LockRoots(Get(s, d).lock)
    ensures Owners(s, slot) >= 2
  {
  }

  lemma ReleaseLock(make: Make, s: State, c: CacheId, slot: nat, d: CacheId)
    requires SlabOk(s) && LockOk(make, s, d) && slot in LockRoots(Get(s, c).lock) && c != d
    ensures LockOk(make, s.(slab := s.slab - {slot}), d)
  {
    if slot in LockRoots(Get(s, d).lock) {
      TwoLocks(s, c, d, slot);
    }
  }

  lemma ReleasedShift(cache: Cache)
    requires cache.lock.Held? && cache.lock.work.Releasing? && cache.lock.work.roots != []
    ensures var roots := cache.lock.work.roots;
      Shifts(cache, cache.(lock := cache.lock.(work := Releasing(roots[1..]))), roots[0], -1)
  {
    var roots := cache.lock.work.roots;
    assert roots == [roots[0]] + roots[1..];
  }

  lemma ReleaseCache(make: Make, s: State, c: CacheId, d: CacheId)
    requires Inv(make, s) && CanRelease(s, c) && Get(s, c).lock.work.roots != []
    ensures ItemsOk(make, DoRelease(s, c), d) && LockOk(make, DoRelease(s, c), d)
  {
    var slot := Get(s, c).lock.work.roots[0];
    var u, t := s.(slab := s.slab - {slot}), DoRelease(s, c);
    assert ItemsOk(make, s, d) && LockOk(make, s, d);
    ReleaseItems(make, s, c, slot, d);
    Same(make, u, t, d);
    if d != c {
      ReleaseLock(make, s, c, slot, d);
    }
  }

  lemma ReleaseKeeps(make: Make, s: State, c: CacheId)
    requires Inv(make, s) && CanRelease(s, c)
    ensures Inv(make, DoRelease(s, c))
  {
    var cache := Get(s, c);
    var roots := cache.lock.work.roots;
    assert LockOk(make, s, c);
    if roots == [] {
      LockChange(make, s, c, Free);
    } else {
      var slot := roots[0];
      var now := cache.(lock := cache.lock.(work := Releasing(roots[1..])));
      var t := DoRelease(s, c);
      LockOwner(s, c, slot);
      assert slot in s.slab by { assert OneOwnerEach(s); }
      ReleasedShift(cache);
      LoseSlot(s, c, now, slot);
      forall d: CacheId ensures ItemsOk(make, t, d) && LockOk(make, t, d) {
        ReleaseCache(make, s, c, d);
      }
    }
  }

  lemma CallKeeps(make: Make, s: State, p: Pid, caller: Caller)
    requires Inv(make, s) && p !in s.callers && caller.pc.Looking? && (caller.authority ==> caller.cache == Hosts)
    ensures Inv(make, s.(callers := s.callers[p := caller]))
  {
    var t := s.(callers := s.callers[p := caller]);
    assert OneOwnerEach(t) by {
      assert OneOwnerEach(s);
      assert forall i: nat :: Owners(t, i) == Owners(s, i);
    }
    forall d: CacheId ensures ItemsOk(make, t, d) && LockOk(make, t, d) {
      assert LockOk(make, s, d);
      Untouched(make, s, t, d);
    }
  }

  // ----- the slab never runs out

  lemma {:induction false} ItemsWidth(make: Make, s: State, c: CacheId, items: seq<Item>)
    requires forall k :: 0 <= k < |items| ==> ItemOk(make, s, c, items[k])
    ensures ItemsTotal(items) <= Width(c) * |items|
  {
    if items != [] {
      assert ItemOk(make, s, c, items[0]);
      StrsWidth(make, c, items[0]);
      ItemsWidth(make, s, c, items[1..]);
      assert Width(c) * |items| == Width(c) + Width(c) * |items[1..]|;
    }
  }

  lemma LiveBound(make: Make, s: State, c: CacheId)
    requires ItemsOk(make, s, c)
    ensures ItemsTotal(Get(s, c).items) <= Cap(c) * Width(c)
  {
    ItemsWidth(make, s, c, Get(s, c).items);
    match c {
      case Hosts =>
      case Addrs =>
      case Values =>
    }
  }

  /** No cache ever owns more than its full entries plus one entry under way. */
  lemma CacheBound(make: Make, s: State, c: CacheId)
    requires ItemsOk(make, s, c) && LockOk(make, s, c)
    ensures CacheTotal(Get(s, c)) <= (Cap(c) + 1) * Width(c)
  {
    LiveBound(make, s, c);
    if Get(s, c).lock.Held? && Get(s, c).lock.work.Rooting? {
      StrsWidth(make, c, Get(s, c).lock.work.item);
    }
  }

  /** And while it still has a string to root, strictly fewer. */
  lemma CacheRoom(make: Make, s: State, p: Pid)
    requires MustRoot(s, p) && ItemsOk(make, s, s.callers[p].cache) && LockOk(make, s, s.callers[p].cache)
    ensures var c := s.callers[p].cache; CacheTotal(Get(s, c)) < (Cap(c) + 1) * Width(c)
  {
    var c := s.callers[p].cache;
    LiveBound(make, s, c);
    if Get(s, c).lock.work.Rooting? {
      StrsWidth(make, c, Get(s, c).lock.work.item);
    }
  }

  lemma SlabRoom(make: Make, s: State, p: Pid)
    requires Inv(make, s) && MustRoot(s, p)
    ensures |s.slab| < CACHE_SLAB_CAPACITY
  {
    forall c: CacheId ensures CacheTotal(Get(s, c)) <= (Cap(c) + 1) * Width(c) {
      assert ItemsOk(make, s, c) && LockOk(make, s, c);
      CacheBound(make, s, c);
    }
    CacheRoom(make, s, p);
    assert CacheTotal(Get(s, Hosts)) <= (Cap(Hosts) + 1) * 3;
    assert CacheTotal(Get(s, Addrs)) <= Cap(Addrs) + 1;
    assert CacheTotal(Get(s, Values)) <= Cap(Values) + 1;
  }

  lemma {:induction false} Pigeonhole(used: set<nat>, n: nat)
    requires |used| < n
    ensures exists i :: 0 <= i < n && i !in used
  {
    if n - 1 in used {
      Pigeonhole(used - {n - 1}, n - 1);
    }
  }

  /** Whenever a string is to be rooted the slab has room for it. */
  lemma RoomToRoot(make: Make, s: State, p: Pid)
    requires Inv(make, s) && MustRoot(s, p)
    ensures exists slot :: CanRoot(s, p, slot)
  {
    SlabRoom(make, s, p);
    Pigeonhole(s.slab.Keys, CACHE_SLAB_CAPACITY);
    var slot :| 0 <= slot < CACHE_SLAB_CAPACITY && slot !in s.slab.Keys;
    assert slot in FreeSlots(s);
    assert LockOk(make, s, s.callers[p].cache);
    assert CanRoot(s, p, slot);
  }

  /** The slab as the array that an insert scans: zero where nothing is rooted. */
  predicate Mirrors(slots: seq<nat>, slab: map<nat, Str>) {
    |slots| == CACHE_SLAB_CAPACITY && forall i: nat :: i < |slots| ==> (slots[i] == 0 <==> i !in slab)
  }

  /** The insert's scan finds such a slot, from every cursor value at least a slab's length before the wrap. */
  lemma ScanFindsSlot(make: Make, s: State, p: Pid, start: nat, slots: seq<nat>) returns (k: nat)
    requires Inv(make, s) && MustRoot(s, p) && Mirrors(slots, s.slab) && start + CACHE_SLAB_CAPACITY <= Scan.WORD
    ensures !PinSlabs.NoneFree(slots, start) && PinSlabs.FirstFree(slots, start, k)
    ensures CanRoot(s, p, Scan.Probe(start, k, CACHE_SLAB_CAPACITY))
  {
    RoomToRoot(make, s, p);
    var slot :| CanRoot(s, p, slot);
    Scan.CoversExactly(start, CACHE_SLAB_CAPACITY);
    assert Scan.Reaches(start, CACHE_SLAB_CAPACITY, slot);
    var j: nat :| j < CACHE_SLAB_CAPACITY && Scan.Probe(start, j, CACHE_SLAB_CAPACITY) == slot;
    k := PinSlabs.MeetsFirst(slots, start, j);
  }

  // ----- every run

  lemma StepKeepsInv(make: Make, s: State, a: Action)
    requires Inv(make, s) && Enabled(s, a)
    ensures Inv(make, Apply(make, s, a))
  {
    match a {
      case Call(p, c, key, src, authority) => CallKeeps(make, s, p, Caller(c, key, src, authority, Looking));
      case Lookup(p) => LookupKeeps(make, s, p);
      case Second(p) =>
        var cache := Get(s, s.callers[p].cache);
        if Find(cache.items, s.callers[p].key) == |cache.items| {
          SecondMissKeeps(make, s, p);
        } else {
          SecondHitKeeps(make, s, p);
        }
      case Root(p, slot) =>
        if Get(s, s.callers[p].cache).lock.work.Rooting? {
          RootFreshKeeps(make, s, p, slot);
        } else {
          RootFillKeeps(make, s, p, slot);
        }
      case RootFails(p) => RootFailsKeeps(make, s, p);
      case Commit(p) => CommitKeeps(make, s, p);
      case Release(c) => ReleaseKeeps(make, s, c);
    }
  }

  lemma {:induction false} RunKeepsInv(make: Make, s: State, run: seq<Action>)
    requires Inv(make, s) && Legal(make, s, run)
    ensures Inv(make, Exec(make, s, run))
    decreases |run|
  {
    if run != [] {
      StepKeepsInv(make, s, run[0]);
      RunKeepsInv(make, Apply(make, s, run[0]), run[1..]);
    }
  }

  ghost predicate Reached(make: Make, s: State, run: seq<Action>) {
    Legal(make, Start(), run) && s == Exec(make, Start(), run)
  }

  lemma ReachedInv(make: Make, s: State, run: seq<Action>)
    requires Reached(make, s, run)
    ensures Inv(make, s)
  {
    var start := Start();
    assert OneOwnerEach(start);
    assert forall c: CacheId :: ItemsOk(make, start, c) && LockOk(make, start, c);
    RunKeepsInv(make, start, run);
  }

  lemma SlabBound(make: Make, s: State)
    requires Inv(make, s)
    ensures OwnedTotal(s) <= CACHE_SLAB_CAPACITY
  {
    forall c: CacheId ensures CacheTotal(Get(s, c)) <= (Cap(c) + 1) * Width(c) {
      assert ItemsOk(make, s, c) && LockOk(make, s, c);
      CacheBound(make, s, c);
    }
    assert CacheTotal(Get(s, Hosts)) <= (Cap(Hosts) + 1) * 3;
    assert CacheTotal(Get(s, Addrs)) <= Cap(Addrs) + 1;
    assert CacheTotal(Get(s, Values)) <= Cap(Values) + 1;
  }

  /** In every interleaving of callers: each occupied slab slot belongs to exactly one entry and each
      empty one to none, every live entry's strings sit in its own slots, and whenever a string is to be rooted
      there is a slot for it, which the insert's scan finds unless its cursor is about to wrap. */
  lemma SlabIsPartitioned(make: Make, s: State, run: seq<Action>)
    requires Reached(make, s, run)
    ensures OneOwnerEach(s) && |s.slab| == OwnedTotal(s) <= CACHE_SLAB_CAPACITY
    ensures forall c: CacheId, item :: item in Get(s, c).items ==> |item.roots| == |Strs(item)| && Rooted(s.slab, item)
    ensures forall p :: MustRoot(s, p) ==> exists slot :: CanRoot(s, p, slot)
    ensures forall p, start: nat, slots ::
              MustRoot(s, p) && Mirrors(slots, s.slab) && start + CACHE_SLAB_CAPACITY <= Scan.WORD ==>
                !PinSlabs.NoneFree(slots, start)
  {
    ReachedInv(make, s, run);
    forall p, start: nat, slots | MustRoot(s, p) && Mirrors(slots, s.slab) && start + CACHE_SLAB_CAPACITY <= Scan.WORD
      ensures !PinSlabs.NoneFree(slots, start)
    {
      var k := ScanFindsSlot(make, s, p, start, slots);
    }
    forall c: CacheId, item | item in Get(s, c).items ensures |item.roots| == |Strs(item)| && Rooted(s.slab, item) {
      assert ItemsOk(make, s, c);
    }
    forall p | MustRoot(s, p) ensures exists slot :: CanRoot(s, p, slot) {
      RoomToRoot(make, s, p);
    }
    SlabBound(make, s);
  }

  /** In every interleaving the address and value caches return exactly the uncached string, and an
      authority lookup always yields the authority itself as HTTP_HOST. The host name and port are those
      of some caller's build of the same key. */
  lemma CachesReturnTheBuild(make: Make, s: State, run: seq<Action>, p: Pid)
    requires Reached(make, s, run) && p in s.callers && s.callers[p].pc.Returned?
    ensures var caller := s.callers[p];
      && (caller.cache != Hosts ==> caller.pc.result == Uncached(make, caller.cache, caller.key, caller.src, false))
      && (caller.authority ==> |caller.pc.result| == 3 && caller.pc.result[2] == caller.key)
      && caller.pc.result == Uncached(make, caller.cache, caller.key, caller.pc.from, caller.authority)
  {
    ReachedInv(make, s, run);
    assert CallerOk(make, s.callers[p]);
  }
}
