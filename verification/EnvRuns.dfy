/** What runs of the env string caches do: a cache is a map and drops the least recent entry, no caller is stuck,
    and when the hosts cache is as good as none. */
module EnvRuns {
  import opened Options
  import opened EnvCache

  // ----- a cache is a map

  predicate Lacks(items: seq<Item>, key: Str) {
    forall k :: 0 <= k < |items| ==> items[k].key != key
  }

  /** One entry per key, also counting the one under construction. */
  predicate KeysOk(cache: Cache) {
    && (forall i, j :: 0 <= i < j < |cache.items| ==> cache.items[i].key != cache.items[j].key)
    && (cache.lock.Held? && cache.lock.work.Rooting? ==> Lacks(cache.items, cache.lock.work.item.key))
  }

  lemma TouchedKeys(items: seq<Item>, k: nat)
    requires k < |items| && KeysOk(Cache(items, Free))
    ensures KeysOk(Cache(Touched(items, k), Free))
  {
    var touched := Touched(items, k);
    forall i, j | 0 <= i < j < |touched| ensures touched[i].key != touched[j].key {
      var a := if i == 0 then k else if i <= k then i - 1 else i;
      var b := if j <= k then j - 1 else j;
      assert touched[i] == items[a] && touched[j] == items[b];
    }
  }

  /** The second lookup is what keeps racing callers from inserting a key twice. */
  lemma SecondKeys(make: Make, s: State, p: Pid)
    requires CanSecond(s, p) && KeysOk(Get(s, s.callers[p].cache))
    ensures KeysOk(Get(DoSecond(make, s, p), s.callers[p].cache))
  {
    var cache := Get(s, s.callers[p].cache);
    var i := Find(cache.items, s.callers[p].key);
    FindFinds(cache.items, s.callers[p].key);
    if i < |cache.items| {
      TouchedKeys(cache.items, i);
    }
  }

  lemma RootKeys(s: State, p: Pid, slot: nat)
    requires CanRoot(s, p, slot) && KeysOk(Get(s, s.callers[p].cache))
    ensures KeysOk(Get(DoRoot(s, p, slot), s.callers[p].cache))
  {
  }

  lemma CommitKeys(s: State, p: Pid)
    requires CanCommit(s, p) && KeysOk(Get(s, s.callers[p].cache))
    ensures KeysOk(Get(DoCommit(s, p), s.callers[p].cache))
  {
  }

  /** Every action works in one cache. */
  function Touches(s: State, a: Action): CacheId
    requires Enabled(s, a)
  {
    if a.Call? then a.cache else if a.Release? then a.c else s.callers[a.p].cache
  }

  lemma ElsewhereSame(make: Make, s: State, a: Action, c: CacheId)
    requires Enabled(s, a) && c != Touches(s, a)
    ensures Get(Apply(make, s, a), c) == Get(s, c)
  {
  }

  lemma StepKeys(make: Make, s: State, a: Action)
    requires Enabled(s, a) && KeysOk(Get(s, Touches(s, a)))
    ensures KeysOk(Get(Apply(make, s, a), Touches(s, a)))
  {
    match a {
      case Lookup(p) =>
        var cache := Get(s, s.callers[p].cache);
        var i := Find(cache.items, s.callers[p].key);
        if i < |cache.items| {
          TouchedKeys(cache.items, i);
        }
      case Second(p) => SecondKeys(make, s, p);
      case Root(p, slot) => RootKeys(s, p, slot);
      case Commit(p) => CommitKeys(s, p);
      case _ =>
    }
  }

  lemma StepKeysIn(make: Make, s: State, a: Action, c: CacheId)
    requires Enabled(s, a) && forall d: CacheId :: KeysOk(Get(s, d))
    ensures KeysOk(Get(Apply(make, s, a), c))
  {
    if c == Touches(s, a) {
      StepKeys(make, s, a);
    } else {
      ElsewhereSame(make, s, a, c);
    }
  }

  lemma {:induction false} RunKeys(make: Make, s: State, run: seq<Action>, c: CacheId)
    requires Legal(make, s, run) && forall d: CacheId :: KeysOk(Get(s, d))
    ensures KeysOk(Get(Exec(make, s, run), c))
    decreases |run|
  {
    if run != [] {
      var t := Apply(make, s, run[0]);
      forall d: CacheId ensures KeysOk(Get(t, d)) {
        StepKeysIn(make, s, run[0], d);
      }
      RunKeys(make, t, run[1..], c);
    }
  }

  /** However callers race between the unlocked build and the second lock, no key is ever cached twice, so a
      lookup finds the one entry of its key exactly if there is one. */
  lemma OneEntryPerKey(make: Make, s: State, run: seq<Action>, c: CacheId, i: nat)
    requires Reached(make, s, run) && i < |Get(s, c).items|
    ensures Find(Get(s, c).items, Get(s, c).items[i].key) == i
  {
    RunKeys(make, Start(), run, c);
    FindFinds(Get(s, c).items, Get(s, c).items[i].key);
  }

  // ----- nobody waits for ever

  /** A caller inside the second lock holds it. */
  predicate InsideHolds(s: State, p: Pid) {
    p in s.callers && s.callers[p].pc.Committing? ==> HoldsLock(s, p)
  }

  lemma SecondHolds(make: Make, s: State, q: Pid, p: Pid)
    requires CanSecond(s, q) && InsideHolds(s, p)
    ensures InsideHolds(DoSecond(make, s, q), p)
  {
  }

  lemma RootHolds(s: State, q: Pid, slot: nat, p: Pid)
    requires CanRoot(s, q, slot) && InsideHolds(s, p)
    ensures InsideHolds(DoRoot(s, q, slot), p)
  {
  }

  lemma StepHolds(make: Make, s: State, a: Action, p: Pid)
    requires Enabled(s, a) && InsideHolds(s, p)
    ensures InsideHolds(Apply(make, s, a), p)
  {
    match a {
      case Second(q) => SecondHolds(make, s, q, p);
      case Root(q, slot) => RootHolds(s, q, slot, p);
      case _ =>
    }
  }

  lemma {:induction false} RunHolds(make: Make, s: State, run: seq<Action>, p: Pid)
    requires Legal(make, s, run) && InsideHolds(s, p)
    ensures InsideHolds(Exec(make, s, run), p)
    decreases |run|
  {
    if run != [] {
      StepHolds(make, s, run[0], p);
      RunHolds(make, Apply(make, s, run[0]), run[1..], p);
    }
  }

  /** What gets a cache's lock, or the caller that wants it, further. */
  lemma LockMoves(make: Make, s: State, c: CacheId) returns (a: Action)
    requires Inv(make, s) && Get(s, c).lock.Held?
    ensures Enabled(s, a) && !a.Call? && Touches(s, a) == c
  {
    assert LockOk(make, s, c);
    var lock := Get(s, c).lock;
    if lock.work.Releasing? {
      a := Release(c);
    } else if Todo(s, lock.pid) == [] {
      a := Commit(lock.pid);
    } else {
      RoomToRoot(make, s, lock.pid);
      var slot :| CanRoot(s, lock.pid, slot);
      a := Root(lock.pid, slot);
    }
  }

  /** In every run a caller that has not returned can be got further: its own step is enabled, or one of whoever holds
      its cache. */
  lemma NobodyIsStuck(make: Make, s: State, run: seq<Action>, p: Pid) returns (a: Action)
    requires Reached(make, s, run) && p in s.callers && !s.callers[p].pc.Returned?
    ensures Enabled(s, a) && !a.Call? && Touches(s, a) == s.callers[p].cache
  {
    ReachedInv(make, s, run);
    RunHolds(make, Start(), run, p);
    var c := s.callers[p].cache;
    if Get(s, c).lock.Held? {
      a := LockMoves(make, s, c);
    } else if s.callers[p].pc.Looking? {
      a := Lookup(p);
    } else {
      a := Second(p);
    }
  }

  // ----- what a full cache drops

  /** The key whose entry in cache `c` the action uses: a hit, or an entry put in. */
  function Used(s: State, a: Action, c: CacheId): seq<Str>
    requires Enabled(s, a)
  {
    if Touches(s, a) != c then []
    else
      match a
      case Lookup(p) => if Find(Get(s, c).items, s.callers[p].key) < |Get(s, c).items| then [s.callers[p].key] else []
      case Second(p) => if Find(Get(s, c).items, s.callers[p].key) < |Get(s, c).items| then [s.callers[p].key] else []
      case Commit(p) => [Get(s, c).lock.work.item.key]
      case _ => []
  }

  /** The keys a run uses, in order. */
  function Uses(make: Make, s: State, run: seq<Action>, c: CacheId): seq<Str>
    requires Legal(make, s, run)
    decreases |run|
  {
    if run == [] then [] else Used(s, run[0], c) + Uses(make, Apply(make, s, run[0]), run[1..], c)
  }

  /** When a key was used last; 0 for never. */
  function LastUse(uses: seq<Str>, key: Str): (t: nat)
    ensures t <= |uses|
  {
    if uses == [] then 0
    else if uses[|uses| - 1] == key then |uses|
    else LastUse(uses[..|uses| - 1], key)
  }

  lemma LastUseOn(uses: seq<Str>, key: Str, k: Str)
    ensures LastUse(uses + [key], k) == if k == key then |uses| + 1 else LastUse(uses, k)
  {
    assert (uses + [key])[..|uses|] == uses;
  }

  /** The entries stand in the order of their last use. */
  predicate ByRecency(items: seq<Item>, uses: seq<Str>) {
    forall i, j :: 0 <= i < j < |items| ==> LastUse(uses, items[i].key) > LastUse(uses, items[j].key)
  }

  lemma TouchedRecency(items: seq<Item>, k: nat, uses: seq<Str>)
    requires k < |items| && ByRecency(items, uses) && KeysOk(Cache(items, Free))
    ensures ByRecency(Touched(items, k), uses + [items[k].key])
  {
    var touched, key := Touched(items, k), items[k].key;
    forall i, j | 0 <= i < j < |touched|
      ensures LastUse(uses + [key], touched[i].key) > LastUse(uses + [key], touched[j].key)
    {
      LastUseOn(uses, key, touched[i].key);
      LastUseOn(uses, key, touched[j].key);
      var b := if j <= k then j - 1 else j;
      assert touched[j] == items[b];
      if i > 0 {
        var a := if i <= k then i - 1 else i;
        assert touched[i] == items[a];
      }
    }
  }

  lemma PutRecency(items: seq<Item>, item: Item, uses: seq<Str>)
    requires ByRecency(items, uses) && Lacks(items, item.key)
    ensures ByRecency([item] + items, uses + [item.key])
    ensures items != [] ==> ByRecency([item] + items[..|items| - 1], uses + [item.key])
  {
    forall i, j | 0 <= i < j < |items| + 1
      ensures LastUse(uses + [item.key], ([item] + items)[i].key) > LastUse(uses + [item.key], ([item] + items)[j].key)
    {
      LastUseOn(uses, item.key, ([item] + items)[i].key);
      LastUseOn(uses, item.key, ([item] + items)[j].key);
    }
    if items != [] {
      assert [item] + items[..|items| - 1] == ([item] + items)[..|items|];
    }
  }

  lemma HitRecency(make: Make, s: State, a: Action, uses: seq<Str>)
    requires Enabled(s, a) && (a.Lookup? || a.Second?)
    requires KeysOk(Get(s, Touches(s, a))) && ByRecency(Get(s, Touches(s, a)).items, uses)
    ensures ByRecency(Get(Apply(make, s, a), Touches(s, a)).items, uses + Used(s, a, Touches(s, a)))
  {
    var cache := Get(s, Touches(s, a));
    var i := Find(cache.items, s.callers[a.p].key);
    if i < |cache.items| {
      TouchedRecency(cache.items, i, uses);
    } else {
      assert uses + [] == uses;
    }
  }

  lemma CommitRecency(make: Make, s: State, p: Pid, uses: seq<Str>)
    requires CanCommit(s, p) && KeysOk(Get(s, s.callers[p].cache)) && ByRecency(Get(s, s.callers[p].cache).items, uses)
    ensures ByRecency(Get(DoCommit(s, p), s.callers[p].cache).items, uses + [Get(s,
            s.callers[p].cache).lock.work.item.key])
  {
    var cache := Get(s, s.callers[p].cache);
    PutRecency(cache.items, cache.lock.work.item, uses);
  }

  lemma StepRecency(make: Make, s: State, a: Action, c: CacheId, uses: seq<Str>)
    requires Enabled(s, a) && KeysOk(Get(s, c)) && ByRecency(Get(s, c).items, uses)
    ensures ByRecency(Get(Apply(make, s, a), c).items, uses + Used(s, a, c))
  {
    assert uses + [] == uses;
    if c != Touches(s, a) {
      ElsewhereSame(make, s, a, c);
    } else if a.Lookup? || a.Second? {
      HitRecency(make, s, a, uses);
    } else if a.Commit? {
      CommitRecency(make, s, a.p, uses);
    } else if a.Root? {
      RootKeepsKeys(s, a.p, a.slot);
    }
  }

  lemma RootKeepsKeys(s: State, p: Pid, slot: nat)
    requires CanRoot(s, p, slot)
    ensures var c := s.callers[p].cache; var was, now := Get(s, c).items, Get(DoRoot(s, p, slot), c).items;
      |now| == |was| && forall i :: 0 <= i < |was| ==> now[i].key == was[i].key
  {
  }

  lemma {:induction false} RunRecency(make: Make, s: State, run: seq<Action>, c: CacheId, uses: seq<Str>)
    requires Legal(make, s, run) && (forall d: CacheId :: KeysOk(Get(s, d))) && ByRecency(Get(s, c).items, uses)
    ensures ByRecency(Get(Exec(make, s, run), c).items, uses + Uses(make, s, run, c))
    decreases |run|
  {
    if run == [] {
      assert uses + [] == uses;
    } else {
      var t := Apply(make, s, run[0]);
      forall d: CacheId ensures KeysOk(Get(t, d)) {
        StepKeysIn(make, s, run[0], d);
      }
      StepRecency(make, s, run[0], c, uses);
      RunRecency(make, t, run[1..], c, uses + Used(s, run[0], c));
      assert uses + Used(s, run[0], c) + Uses(make, t, run[1..], c) == uses + Uses(make, s, run, c);
    }
  }

  lemma LastIsOldest(items: seq<Item>, uses: seq<Str>, item: Item)
    requires ByRecency(items, uses) && item in items && item != items[|items| - 1]
    ensures LastUse(uses, items[|items| - 1].key) < LastUse(uses, item.key)
  {
  }

  lemma LastUsedOldest(make: Make, s: State, run: seq<Action>, c: CacheId, item: Item)
    requires Reached(make, s, run) && item in Get(s, c).items && item != Get(s, c).items[|Get(s, c).items| - 1]
    ensures var uses := Uses(make, Start(), run, c);
      LastUse(uses, Get(s, c).items[|Get(s, c).items| - 1].key) < LastUse(uses, item.key)
  {
    RunRecency(make, Start(), run, c, []);
    assert [] + Uses(make, Start(), run, c) == Uses(make, Start(), run, c);
    LastIsOldest(Get(s, c).items, Uses(make, Start(), run, c), item);
  }

  lemma PutKeepsOthers(c: CacheId, cache: Cache, p: Pid, item: Item, other: Item)
    requires other in cache.items && (|cache.items| < Cap(c) || other != cache.items[|cache.items| - 1])
    ensures other in AfterPut(c, cache, p, item).items
  {
    var k :| 0 <= k < |cache.items| && cache.items[k] == other;
    assert AfterPut(c, cache, p, item).items[k + 1] == other;
  }

  /** In every run: while a cache has room, putting an entry in drops none; a full one drops at most the entry whose
      last use lies furthest back. */
  lemma LeastRecentGoes(make: Make, s: State, run: seq<Action>, p: Pid, other: Item)
    requires Reached(make, s, run) && CanCommit(s, p) && other in Get(s, s.callers[p].cache).items
    ensures var c := s.callers[p].cache; var was, now := Get(s, c).items, Get(DoCommit(s, p), c).items;
      && Get(s, c).lock.work.item in now
      && (|was| < Cap(c) ==> other in now)
      && (other != was[|was| - 1] ==>
            && other in now
            && LastUse(Uses(make, Start(), run, c), was[|was| - 1].key) < LastUse(Uses(make, Start(), run, c),
               other.key))
  {
    var c := s.callers[p].cache;
    var cache := Get(s, c);
    if |cache.items| < Cap(c) || other != cache.items[|cache.items| - 1] {
      PutKeepsOthers(c, cache, p, cache.lock.work.item, other);
    }
    if other != cache.items[|cache.items| - 1] {
      LastUsedOldest(make, s, run, c, other);
    }
  }

  // ----- when the host cache is transparent

  /** Whether lookups from this source are among those considered: all of them, or only Host headers. */
  predicate Among(both: bool, src: Source) {
    both || !src.authority
  }

  predicate RunAmong(both: bool, key: Str, run: seq<Action>) {
    forall i :: 0 <= i < |run| && run[i].Call? && run[i].cache == Hosts && run[i].key == key ==> Among(both, run[i].src)
  }

  /** In this run, caller `p`, if it looked up host `key` and has returned, holds its own build. */
  ghost predicate OwnAnswer(make: Make, key: Str, run: seq<Action>, p: Pid) {
    Legal(make, Start(), run) ==>
      var s := Exec(make, Start(), run);
      p in s.callers && s.callers[p].cache == Hosts && s.callers[p].key == key && s.callers[p].pc.Returned? ==>
        s.callers[p].pc.result == Uncached(make, Hosts, key, s.callers[p].src, s.callers[p].authority)
  }

  /** Every caller does, in every run in which `key` is looked up only from the sources considered. */
  ghost predicate Transparent(make: Make, key: Str, both: bool) {
    forall run: seq<Action>, p: Pid :: RunAmong(both, key, run) ==> OwnAnswer(make, key, run, p)
  }

  predicate SameBuild(make: Make, key: Str, a: Source, b: Source) {
    Built(make, Hosts, key, a) == Built(make, Hosts, key, b)
  }

  predicate ItemsAmong(both: bool, items: seq<Item>, key: Str) {
    forall k :: 0 <= k < |items| && items[k].key == key ==> Among(both, items[k].src)
  }

  predicate CacheAmong(both: bool, cache: Cache, key: Str) {
    && ItemsAmong(both, cache.items, key)
    && (cache.lock.Held? && cache.lock.work.Rooting? && cache.lock.work.item.key == key ==>
          Among(both, cache.lock.work.item.src))
  }

  predicate CallerAmong(both: bool, caller: Caller, key: Str) {
    caller.cache == Hosts && caller.key == key ==>
      && Among(both, caller.src)
      && match caller.pc
         case Adopting(from, _) => Among(both, from)
         case Committing(from, _) => Among(both, from)
         case Returned(from, _) => Among(both, from)
         case _ => true
  }

  /** Everything known about `key` comes from the sources considered. */
  predicate AllAmong(both: bool, s: State, key: Str) {
    CacheAmong(both, s.hosts, key) && forall p :: p in s.callers ==> CallerAmong(both, s.callers[p], key)
  }

  lemma LookupAmong(both: bool, s: State, p: Pid, key: Str)
    requires AllAmong(both, s, key) && CanLookup(s, p)
    ensures AllAmong(both, DoLookup(s, p), key)
  {
    assert CallerAmong(both, s.callers[p], key);
  }

  lemma SecondAmong(make: Make, both: bool, s: State, p: Pid, key: Str)
    requires AllAmong(both, s, key) && CanSecond(s, p)
    ensures AllAmong(both, DoSecond(make, s, p), key)
  {
    var caller := s.callers[p];
    var cache := Get(s, caller.cache);
    var i := Find(cache.items, caller.key);
    assert CallerAmong(both, caller, key);
    if i < |cache.items| {
      SecondHitAmong(both, s, p, key);
    }
  }

  lemma SecondHitAmong(both: bool, s: State, p: Pid, key: Str)
    requires AllAmong(both, s, key) && CanSecond(s, p)
    requires Find(Get(s, s.callers[p].cache).items, s.callers[p].key) < |Get(s, s.callers[p].cache).items|
    ensures var cache := Get(s, s.callers[p].cache); var i := Find(cache.items, s.callers[p].key);
      && CallerAmong(both, s.callers[p].(pc := SecondHit(s.callers[p], cache.items[i])), key)
      && (s.callers[p].cache == Hosts ==> ItemsAmong(both, Touched(cache.items, i), key))
  {
    assert CallerAmong(both, s.callers[p], key);
  }

  lemma RootAmong(both: bool, s: State, p: Pid, slot: nat, key: Str)
    requires AllAmong(both, s, key) && CanRoot(s, p, slot)
    ensures AllAmong(both, DoRoot(s, p, slot), key)
  {
    assert CallerAmong(both, s.callers[p], key);
  }

  lemma ReturnAmong(both: bool, s: State, p: Pid, key: Str)
    requires AllAmong(both, s, key)
    ensures CanFail(s, p) ==> AllAmong(both, DoRootFails(s, p), key)
    ensures CanCommit(s, p) ==> AllAmong(both, DoCommit(s, p), key)
  {
    if CanFail(s, p) || CanCommit(s, p) {
      assert CallerAmong(both, s.callers[p], key);
    }
  }

  lemma StepAmong(make: Make, both: bool, s: State, a: Action, key: Str)
    requires AllAmong(both, s, key) && Enabled(s, a) && RunAmong(both, key, [a])
    ensures AllAmong(both, Apply(make, s, a), key)
  {
    match a {
      case Call(_, _, _, _, _) => assert [a][0] == a;
      case Lookup(p) => LookupAmong(both, s, p, key);
      case Second(p) => SecondAmong(make, both, s, p, key);
      case Root(p, slot) => RootAmong(both, s, p, slot, key);
      case RootFails(p) => ReturnAmong(both, s, p, key);
      case Commit(p) => ReturnAmong(both, s, p, key);
      case Release(_) =>
    }
  }

  lemma {:induction false} RunKeepsAmong(make: Make, both: bool, s: State, run: seq<Action>, key: Str)
    requires AllAmong(both, s, key) && Legal(make, s, run) && RunAmong(both, key, run)
    ensures AllAmong(both, Exec(make, s, run), key)
    decreases |run|
  {
    if run != [] {
      assert [run[0]][0] == run[0];
      StepAmong(make, both, s, run[0], key);
      RunKeepsAmong(make, both, Apply(make, s, run[0]), run[1..], key);
    }
  }

  /** Source `a` fills the cache, source `b` hits it. */
  function Witness(key: Str, a: Source, b: Source): seq<Action> {
    WitnessBuild(key, a) + (WitnessRoot(a) + WitnessHit(key, a, b))
  }

  function WitnessBuild(key: Str, a: Source): seq<Action> {
    [Call(0, Hosts, key, a, a.authority), Lookup(0), Second(0)]
  }

  function WitnessRoot(a: Source): seq<Action> {
    RootFrom(0, if a.authority then 3 else 2)
  }

  /** The strings from the n-th on, each in the slot of its number, and then `put`. */
  function RootFrom(n: nat, total: nat): seq<Action>
    requires n <= total
    decreases total - n
  {
    if n == total then [Commit(0)] else [Root(0, n)] + RootFrom(n + 1, total)
  }

  function WitnessHit(key: Str, a: Source, b: Source): seq<Action> {
    if b.authority && !a.authority then [Call(1, Hosts, key, b, true), Lookup(1), Second(1), RootFails(1)]
    else [Call(1, Hosts, key, b, b.authority), Lookup(1)]
  }

  function WitnessItem(make: Make, key: Str, a: Source): Item {
    Item(key, a, Built(make, Hosts, key, a), if a.authority then Some(key) else None, [])
  }

  /** Before the first string is rooted. */
  function Unrooted(make: Make, key: Str, a: Source): State {
    var strs := Uncached(make, Hosts, key, a, a.authority);
    State(Cache([], Held(0, Rooting(WitnessItem(make, key, a)))), Cache([], Free), Cache([], Free), map[],
          map[0 := Caller(Hosts, key, a, a.authority, Committing(a, strs))])
  }

  /** After the entry is cached. */
  function Filled(make: Make, key: Str, a: Source): State {
    var strs := Uncached(make, Hosts, key, a, a.authority);
    State(Cache([WitnessItem(make, key, a).(roots := if a.authority then [0, 1, 2] else [0, 1])], Free),
          Cache([], Free), Cache([], Free),
          if a.authority then map[0 := strs[0], 1 := strs[1], 2 := strs[2]] else map[0 := strs[0], 1 := strs[1]],
          map[0 := Caller(Hosts, key, a, a.authority, Returned(a, strs))])
  }

  lemma BuildRuns(make: Make, key: Str, a: Source)
    ensures var run := WitnessBuild(key, a);
      Legal(make, Start(), run) && Exec(make, Start(), run) == Unrooted(make, key, a)
  {
    var run := WitnessBuild(key, a);
    var s1 := Apply(make, Start(), run[0]);
    var s2 := Apply(make, s1, run[1]);
    assert Strs(WitnessItem(make, key, a)) == Uncached(make, Hosts, key, a, a.authority);
    assert Apply(make, s2, run[2]).callers == Unrooted(make, key, a).callers;
    Chain(make, s2, run[2..], Unrooted(make, key, a));
    Chain(make, s1, run[1..], Unrooted(make, key, a));
    Chain(make, Start(), run, Unrooted(make, key, a));
  }

  /** Part of the entry's strings rooted, in slots 0 and on. */
  function UnderWay(make: Make, key: Str, a: Source, roots: seq<nat>, slab: map<nat, Str>): State {
    var u := Unrooted(make, key, a);
    u.(slab := slab, hosts := Cache([], Held(0, Rooting(WitnessItem(make, key, a).(roots := roots)))))
  }

  /** One more string rooted. */
  lemma RootsOne(make: Make, key: Str, a: Source, roots: seq<nat>, slab: map<nat, Str>)
    requires var strs := Uncached(make, Hosts, key, a, a.authority);
      |roots| < |strs| && |roots| < CACHE_SLAB_CAPACITY && |roots| !in slab
    ensures var s, i := UnderWay(make, key, a, roots, slab), |roots|;
      && CanRoot(s, 0, i)
      && Apply(make, s, Root(0, i))
         == UnderWay(make, key, a, roots + [i], slab[i := Uncached(make, Hosts, key, a, a.authority)[i]])
  {
    var s := UnderWay(make, key, a, roots, slab);
    var strs := Uncached(make, Hosts, key, a, a.authority);
    assert Strs(WitnessItem(make, key, a).(roots := roots)) == strs;
    assert Todo(s, 0) == strs[|roots|..] && |roots| in FreeSlots(s);
  }

  lemma CommitsLast(make: Make, key: Str, a: Source, roots: seq<nat>, slab: map<nat, Str>)
    requires |roots| == |Uncached(make, Hosts, key, a, a.authority)|
    ensures var s := UnderWay(make, key, a, roots, slab);
      && CanCommit(s, 0)
      && Apply(make, s, Commit(0)) == Filled(make, key, a).(slab := slab, hosts := Cache([WitnessItem(make, key,
         a).(roots := roots)], Free))
  {
    var s := UnderWay(make, key, a, roots, slab);
    assert Strs(WitnessItem(make, key, a).(roots := roots)) == Uncached(make, Hosts, key, a, a.authority);
    assert Apply(make, s, Commit(0)).callers == Filled(make, key, a).callers;
  }

  /** The slab with the first `n` of the entry's strings in it. */
  function FirstSlots(strs: seq<Str>, n: nat): map<nat, Str>
    requires n <= |strs|
  {
    map i | 0 <= i < n :: strs[i]
  }

  lemma FirstSlotsOn(strs: seq<Str>, n: nat)
    requires n < |strs|
    ensures n !in FirstSlots(strs, n) && FirstSlots(strs, n)[n := strs[n]] == FirstSlots(strs, n + 1)
    ensures Count(n) + [n] == Count(n + 1)
  {
  }

  function Count(n: nat): seq<nat> {
    seq(n, i => i)
  }

  /** The entry with its first `n` strings rooted. */
  function Partly(make: Make, key: Str, a: Source, n: nat): State
    requires n <= |Uncached(make, Hosts, key, a, a.authority)|
  {
    UnderWay(make, key, a, Count(n), FirstSlots(Uncached(make, Hosts, key, a, a.authority), n))
  }

  lemma PartlyOn(make: Make, key: Str, a: Source, n: nat)
    requires n < |Uncached(make, Hosts, key, a, a.authority)|
    ensures CanRoot(Partly(make, key, a, n), 0, n)
    ensures Apply(make, Partly(make, key, a, n), Root(0, n)) == Partly(make, key, a, n + 1)
  {
    var strs := Uncached(make, Hosts, key, a, a.authority);
    RootsOne(make, key, a, Count(n), FirstSlots(strs, n));
    FirstSlotsOn(strs, n);
  }

  lemma PartlyEnds(make: Make, key: Str, a: Source)
    ensures Partly(make, key, a, 0) == Unrooted(make, key, a)
    ensures var n := |Uncached(make, Hosts, key, a, a.authority)|;
      CanCommit(Partly(make, key, a, n), 0) && Apply(make, Partly(make, key, a, n), Commit(0)) == Filled(make, key, a)
  {
    var strs := Uncached(make, Hosts, key, a, a.authority);
    var n := |strs|;
    assert FirstSlots(strs, 0) == map[] && Count(0) == [];
    CommitsLast(make, key, a, Count(n), FirstSlots(strs, n));
    assert Count(n) == if a.authority then [0, 1, 2] else [0, 1];
    assert FirstSlots(strs, n) == Filled(make, key, a).slab;
  }

  lemma {:induction false} RootFromRuns(make: Make, key: Str, a: Source, n: nat)
    requires n <= |Uncached(make, Hosts, key, a, a.authority)|
    ensures var run := RootFrom(n, |Uncached(make, Hosts, key, a, a.authority)|);
      Legal(make, Partly(make, key, a, n), run) && Exec(make, Partly(make, key, a, n), run) == Filled(make, key, a)
    decreases |Uncached(make, Hosts, key, a, a.authority)| - n
  {
    var total := |Uncached(make, Hosts, key, a, a.authority)|;
    var run := RootFrom(n, total);
    if n == total {
      PartlyEnds(make, key, a);
      assert run[1..] == [];
    } else {
      PartlyOn(make, key, a, n);
      RootFromRuns(make, key, a, n + 1);
      assert run[1..] == RootFrom(n + 1, total);
    }
    Chain(make, Partly(make, key, a, n), run, Filled(make, key, a));
  }

  lemma RootRuns(make: Make, key: Str, a: Source)
    ensures var s := Unrooted(make, key, a);
      Legal(make, s, WitnessRoot(a)) && Exec(make, s, WitnessRoot(a)) == Filled(make, key, a)
  {
    RootFromRuns(make, key, a, 0);
    PartlyEnds(make, key, a);
  }

  /** Caller 1, from source `b`, has returned with the build of source `a`. */
  predicate GotBuildOf(make: Make, s: State, key: Str, a: Source, b: Source) {
    1 in s.callers && s.callers[1] == Caller(Hosts, key, b, b.authority, Returned(a, Uncached(make, Hosts, key, a,
        b.authority)))
  }

  lemma HitRuns(make: Make, key: Str, a: Source, b: Source)
    ensures var s, run := Filled(make, key, a), WitnessHit(key, a, b);
      Legal(make, s, run) && GotBuildOf(make, Exec(make, s, run), key, a, b)
  {
    var run, s := WitnessHit(key, a, b), Filled(make, key, a);
    var s1 := Apply(make, s, run[0]);
    assert Uncached(make, Hosts, key, a, false) == Built(make, Hosts, key, a);
    if b.authority && !a.authority {
      AdoptRuns(make, key, a, b);
    } else {
      var s2 := Apply(make, s1, run[1]);
      Chain(make, s1, run[1..], s2);
      Chain(make, s, run, s2);
    }
  }

  /** An authority lookup of an entry that a Host header made, whose own string then finds no slot. */
  lemma AdoptRuns(make: Make, key: Str, a: Source, b: Source)
    requires b.authority && !a.authority
    ensures var s, run := Filled(make, key, a), WitnessHit(key, a, b);
      Legal(make, s, run) && GotBuildOf(make, Exec(make, s, run), key, a, b)
  {
    var run, s := WitnessHit(key, a, b), Filled(make, key, a);
    var s1 := Apply(make, s, run[0]);
    var s2 := Apply(make, s1, run[1]);
    var s3 := Apply(make, s2, run[2]);
    var s4 := Apply(make, s3, run[3]);
    Chain(make, s3, run[3..], s4);
    Chain(make, s2, run[2..], s4);
    Chain(make, s1, run[1..], s4);
    Chain(make, s, run, s4);
  }

  lemma WitnessRuns(make: Make, key: Str, a: Source, b: Source)
    ensures Legal(make, Start(), Witness(key, a, b))
    ensures GotBuildOf(make, Exec(make, Start(), Witness(key, a, b)), key, a, b)
  {
    BuildRuns(make, key, a);
    RootRuns(make, key, a);
    HitRuns(make, key, a, b);
    Joined(make, Unrooted(make, key, a), WitnessRoot(a), WitnessHit(key, a, b));
    Joined(make, Start(), WitnessBuild(key, a), WitnessRoot(a) + WitnessHit(key, a, b));
  }

  /** One more action in front of a run. */
  lemma Chain(make: Make, s: State, run: seq<Action>, end: State)
    requires run != [] && Enabled(s, run[0])
    requires Legal(make, Apply(make, s, run[0]), run[1..]) && Exec(make, Apply(make, s, run[0]), run[1..]) == end
    ensures Legal(make, s, run) && Exec(make, s, run) == end
  {
  }

  /** One run after another. */
  lemma {:induction false} Joined(make: Make, s: State, first: seq<Action>, second: seq<Action>)
    requires Legal(make, s, first) && Legal(make, Exec(make, s, first), second)
    ensures Legal(make, s, first + second)
    ensures Exec(make, s, first + second) == Exec(make, Exec(make, s, first), second)
    decreases |first|
  {
    if first == [] {
      assert first + second == second;
    } else {
      assert (first + second)[1..] == first[1..] + second;
      Joined(make, Apply(make, s, first[0]), first[1..], second);
    }
  }

  lemma TransparentThenSame(make: Make, key: Str, both: bool, a: Source, b: Source)
    requires Transparent(make, key, both) && Among(both, a) && Among(both, b)
    ensures SameBuild(make, key, a, b)
  {
    var run := Witness(key, a, b);
    WitnessRuns(make, key, a, b);
    assert RunAmong(both, key, run);
    assert OwnAnswer(make, key, run, 1);
    var mine, got := Uncached(make, Hosts, key, b, b.authority), Uncached(make, Hosts, key, a, b.authority);
    assert mine == got;
    assert Built(make, Hosts, key, a) == got[..2] && Built(make, Hosts, key, b) == mine[..2];
  }

  lemma SameThenOwn(make: Make, key: Str, both: bool, run: seq<Action>, p: Pid)
    requires forall a: Source, b: Source :: Among(both, a) && Among(both, b) ==> SameBuild(make, key, a, b)
    requires RunAmong(both, key, run)
    ensures OwnAnswer(make, key, run, p)
  {
    if Legal(make, Start(), run) {
      var s := Exec(make, Start(), run);
      ReachedInv(make, s, run);
      RunKeepsAmong(make, both, Start(), run, key);
      if p in s.callers && s.callers[p].cache == Hosts && s.callers[p].key == key && s.callers[p].pc.Returned? {
        assert CallerOk(make, s.callers[p]) && CallerAmong(both, s.callers[p], key);
        assert SameBuild(make, key, s.callers[p].pc.from, s.callers[p].src);
      }
    }
  }

  /** The host cache hands every caller of `key` its own build, in every run from the sources considered, exactly
      when their builds of the key are all the same. */
  lemma TransparentExactly(make: Make, key: Str, both: bool)
    ensures Transparent(make, key, both) <==>
            forall a: Source, b: Source :: Among(both, a) && Among(both, b) ==> SameBuild(make, key, a, b)
  {
    if Transparent(make, key, both) {
      forall a: Source, b: Source | Among(both, a) && Among(both, b) ensures SameBuild(make, key, a, b) {
        TransparentThenSame(make, key, both, a, b);
      }
    }
    if forall a: Source, b: Source :: Among(both, a) && Among(both, b) ==> SameBuild(make, key, a, b) {
      forall run: seq<Action>, p: Pid | RunAmong(both, key, run) ensures OwnAnswer(make, key, run, p) {
        SameThenOwn(make, key, both, run, p);
      }
    }
  }
}
