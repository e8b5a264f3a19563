/** The sharded accept loop: one acceptor hands connections to I/O shards, under a connection limit.

    One action is one permit operation, one channel operation or one counter update. A connection's permit
    is released before its shard's load goes down, and a shard that dies drops what it had queued without
    touching its load. */
module Shards {
  import opened Options

  type Conn = nat

  datatype Shard = Shard(
    load: int,             // the counter the acceptor reads
    live: bool,            // what the acceptor believes
    alive: bool,           // the receiving end still exists
    queue: seq<Conn>,      // handed over, not yet picked up
    open: seq<Conn>,       // being served
    closing: nat,          // permit back, counter not yet down
    lost: nat)             // counted, but dropped with the queue of a dead shard

  datatype Acceptor =
    | Idle
    | HasPermit
    | Carrying(conn: Conn)
    | Sending(conn: Conn, to: nat)
    | Stopped

  datatype State = State(
    max: nat,
    permits: nat,
    acceptor: Acceptor,
    shards: seq<Shard>,
    next: Conn,            // connections accepted so far are those below
    finished: seq<Conn>,
    draining: bool)

  datatype Action =
    | Acquire
    | AcceptFails
    | Accept
    | Choose
    | Send
    | Stop
    | Start(i: nat)
    | Close(i: nat, k: nat)
    | Settle(i: nat)
    | Die(i: nat)

  function Init(max: nat, shards: nat): State {
    State(max, max, Idle, seq(shards, _ => Shard(0, true, true, [], [], 0, 0)), 0, [], false)
  }

  /** `least_loaded`: among the shards believed live, the first with the smallest load. */
  function LeastLoaded(shards: seq<Shard>): (r: Option<nat>)
    ensures r.Some? ==> r.value < |shards| && shards[r.value].live
    ensures r.Some? ==> forall k :: 0 <= k < |shards| && shards[k].live ==> shards[r.value].load <= shards[k].load
    ensures r.Some? ==> forall k :: 0 <= k < r.value && shards[k].live ==> shards[r.value].load < shards[k].load
    ensures r.None? ==> forall k :: 0 <= k < |shards| ==> !shards[k].live
  {
    if shards == [] then None
    else
      var last := |shards| - 1;
      var r := LeastLoaded(shards[..last]);
      if shards[last].live && (r.None? || shards[last].load < shards[r.value].load) then Some(last) else r
  }

  predicate Enabled(s: State, a: Action) {
    match a
    case Acquire => s.acceptor.Idle? && s.permits > 0
    case AcceptFails => s.acceptor.HasPermit?
    case Accept => s.acceptor.HasPermit?
    case Choose => s.acceptor.Carrying?
    case Send => s.acceptor.Sending? && s.acceptor.to < |s.shards|
    case Stop => s.acceptor.Idle? || s.acceptor.HasPermit?
    case Start(i) => i < |s.shards| && s.shards[i].alive && s.shards[i].queue != []
    case Close(i, k) => i < |s.shards| && k < |s.shards[i].open|
    case Settle(i) => i < |s.shards| && s.shards[i].closing > 0
    case Die(i) => i < |s.shards| && s.shards[i].alive
  }

  function Apply(s: State, a: Action): State
    requires Enabled(s, a)
  {
    match a
    case Acquire => s.(permits := s.permits - 1, acceptor := HasPermit)
    case AcceptFails => s.(permits := s.permits + 1, acceptor := Idle)
    case Accept => s.(acceptor := Carrying(s.next), next := s.next + 1)
    case Choose => ChooseShard(s)
    case Send => HandOver(s)
    case Stop => s.(permits := s.permits + (if s.acceptor.HasPermit? then 1 else 0), acceptor := Stopped)
    case Start(i) =>
      var h := s.shards[i];
      s.(shards := s.shards[i := h.(queue := h.queue[1..], open := h.open + [h.queue[0]])])
    case Close(i, k) =>
      var h := s.shards[i];
      s.(permits := s.permits + 1, finished := s.finished + [h.open[k]],
         shards := s.shards[i := h.(open := h.open[..k] + h.open[k + 1..], closing := h.closing + 1)])
    case Settle(i) =>
      var h := s.shards[i];
      s.(shards := s.shards[i := h.(closing := h.closing - 1, load := h.load - 1)])
    case Die(i) =>
      var h := s.shards[i];
      s.(permits := s.permits + |h.queue|, finished := s.finished + h.queue,
         shards := s.shards[i := h.(alive := false, queue := [], lost := h.lost + |h.queue|)])
  }

  function ChooseShard(s: State): State
    requires s.acceptor.Carrying?
  {
    var r := LeastLoaded(s.shards);
    if r.None? then
      s.(permits := s.permits + 1, finished := s.finished + [s.acceptor.conn], acceptor := Stopped, draining := true)
    else
      var h := s.shards[r.value];
      s.(acceptor := Sending(s.acceptor.conn, r.value), shards := s.shards[r.value := h.(load := h.load + 1)])
  }

  function HandOver(s: State): State
    requires s.acceptor.Sending? && s.acceptor.to < |s.shards|
  {
    var i, c := s.acceptor.to, s.acceptor.conn;
    var h := s.shards[i];
    if h.alive then s.(acceptor := Idle, shards := s.shards[i := h.(queue := h.queue + [c])])
    else s.(acceptor := Carrying(c), shards := s.shards[i := h.(load := h.load - 1, live := false)])
  }

  predicate Legal(s: State, run: seq<Action>)
    decreases |run|
  {
    run == [] || (Enabled(s, run[0]) && Legal(Apply(s, run[0]), run[1..]))
  }

  function Exec(s: State, run: seq<Action>): State
    requires Legal(s, run)
    decreases |run|
  {
    if run == [] then s else Exec(Apply(s, run[0]), run[1..])
  }

  // ---- accounting ----

  function Transit(a: Acceptor): nat {
    if a.HasPermit? || a.Carrying? || a.Sending? then 1 else 0
  }

  /** Permits out with the shards. */
  function Busy(shards: seq<Shard>): nat {
    if shards == [] then 0 else |shards[0].queue| + |shards[0].open| + Busy(shards[1..])
  }

  function Count(s: seq<Conn>, c: Conn): nat {
    if s == [] then 0 else (if s[0] == c then 1 else 0) + Count(s[1..], c)
  }

  /** How often a connection is found with the shards. */
  function Found(shards: seq<Shard>, c: Conn): nat {
    if shards == [] then 0 else Count(shards[0].queue, c) + Count(shards[0].open, c) + Found(shards[1..], c)
  }

  function Carried(a: Acceptor, c: Conn): nat {
    if (a.Carrying? || a.Sending?) && a.conn == c then 1 else 0
  }

  function Places(s: State, c: Conn): nat {
    Carried(s.acceptor, c) + Found(s.shards, c) + Count(s.finished, c)
  }

  ghost predicate LoadOk(h: Shard, arriving: nat) {
    && h.load == |h.queue| + |h.open| + h.closing + h.lost + arriving
    && (h.alive ==> h.lost == 0) && (!h.alive ==> h.queue == []) && (!h.live ==> !h.alive)
  }

  function Arriving(a: Acceptor, i: nat): nat {
    if a.Sending? && a.to == i then 1 else 0
  }

  ghost predicate Inv(s: State) {
    && s.permits + Transit(s.acceptor) + Busy(s.shards) == s.max
    && (forall i :: 0 <= i < |s.shards| ==> LoadOk(s.shards[i], Arriving(s.acceptor, i)))
    && (s.acceptor.Sending? ==> s.acceptor.to < |s.shards| && s.shards[s.acceptor.to].live)
    && (s.draining ==> s.acceptor.Stopped?)
  }

  ghost predicate Whole(s: State) {
    forall c: Conn :: Places(s, c) == if c < s.next then 1 else 0
  }

  lemma {:induction false} BusyUpdate(shards: seq<Shard>, i: nat, h: Shard)
    requires i < |shards|
    ensures Busy(shards[i := h]) == Busy(shards) - |shards[i].queue| - |shards[i].open| + |h.queue| + |h.open|
  {
    if i == 0 {
      assert shards[i := h][1..] == shards[1..];
    } else {
      assert shards[i := h][1..] == shards[1..][i - 1 := h];
      BusyUpdate(shards[1..], i - 1, h);
    }
  }

  lemma {:induction false} FoundUpdate(shards: seq<Shard>, i: nat, h: Shard, c: Conn)
    requires i < |shards|
    ensures Found(shards[i := h], c) == Found(shards, c) - Count(shards[i].queue, c) - Count(shards[i].open, c)
                                        + Count(h.queue, c) + Count(h.open, c)
  {
    if i == 0 {
      assert shards[i := h][1..] == shards[1..];
    } else {
      assert shards[i := h][1..] == shards[1..][i - 1 := h];
      FoundUpdate(shards[1..], i - 1, h, c);
    }
  }

  lemma {:induction false} CountConcat(s: seq<Conn>, t: seq<Conn>, c: Conn)
    ensures Count(s + t, c) == Count(s, c) + Count(t, c)
  {
    if s == [] {
      assert s + t == t;
    } else {
      assert (s + t)[1..] == s[1..] + t;
      CountConcat(s[1..], t, c);
    }
  }

  lemma CountWithout(s: seq<Conn>, k: nat, c: Conn)
    requires k < |s|
    ensures Count(s[..k] + s[k + 1..], c) + Count([s[k]], c) == Count(s, c)
  {
    assert s == s[..k] + ([s[k]] + s[k + 1..]);
    CountConcat(s[..k], [s[k]] + s[k + 1..], c);
    CountConcat([s[k]], s[k + 1..], c);
    CountConcat(s[..k], s[k + 1..], c);
  }

  /** Steps that change one shard, and perhaps what the acceptor carries. */
  lemma ShardStep(s: State, i: nat, h: Shard, t: State)
    requires Inv(s) && i < |s.shards| && t.shards == s.shards[i := h] && t.max == s.max
    requires forall k :: 0 <= k < |s.shards| && k != i ==> Arriving(t.acceptor, k) == Arriving(s.acceptor, k)
    requires LoadOk(h, Arriving(t.acceptor, i)) && (t.draining ==> t.acceptor.Stopped?)
    requires t.acceptor.Sending? ==> t.acceptor.to < |s.shards| && t.shards[t.acceptor.to].live
    requires t.permits + Transit(t.acceptor) + |h.queue| + |h.open|
             == s.permits + Transit(s.acceptor) + |s.shards[i].queue| + |s.shards[i].open|
    ensures Inv(t)
  {
    BusyUpdate(s.shards, i, h);
    forall k | 0 <= k < |t.shards| ensures LoadOk(t.shards[k], Arriving(t.acceptor, k)) {
      assert LoadOk(s.shards[k], Arriving(s.acceptor, k));
    }
  }

  lemma AcceptorKeepsInv(s: State, a: Action)
    requires Inv(s) && Enabled(s, a) && (a.Choose? || a.Send?)
    ensures Inv(Apply(s, a))
  {
    var t := Apply(s, a);
    var r := LeastLoaded(s.shards);
    if a.Send? {
      ShardStep(s, s.acceptor.to, t.shards[s.acceptor.to], t);
    } else if r.Some? {
      ShardStep(s, r.value, t.shards[r.value], t);
    }
  }

  lemma StepKeepsInv(s: State, a: Action)
    requires Inv(s) && Enabled(s, a)
    ensures Inv(Apply(s, a))
  {
    if a.Choose? || a.Send? {
      AcceptorKeepsInv(s, a);
    } else if a.Start? || a.Close? || a.Settle? || a.Die? {
      ShardStep(s, a.i, Apply(s, a).shards[a.i], Apply(s, a));
    }
  }

  lemma AcceptorPlaces(s: State, a: Action, c: Conn)
    requires Inv(s) && Enabled(s, a) && (a.Choose? || a.Send?)
    ensures Places(Apply(s, a), c) == Places(s, c)
  {
    var t := Apply(s, a);
    var r := LeastLoaded(s.shards);
    if a.Send? {
      FoundUpdate(s.shards, s.acceptor.to, t.shards[s.acceptor.to], c);
      CountConcat(s.shards[s.acceptor.to].queue, [s.acceptor.conn], c);
    } else if r.Some? {
      FoundUpdate(s.shards, r.value, t.shards[r.value], c);
    } else {
      CountConcat(s.finished, [s.acceptor.conn], c);
    }
  }

  lemma ShardPlaces(s: State, a: Action, c: Conn)
    requires Enabled(s, a) && (a.Start? || a.Close? || a.Settle? || a.Die?)
    ensures Places(Apply(s, a), c) == Places(s, c)
  {
    var h := s.shards[a.i];
    FoundUpdate(s.shards, a.i, Apply(s, a).shards[a.i], c);
    if a.Start? {
      CountConcat(h.open, [h.queue[0]], c);
    } else if a.Close? {
      CountWithout(h.open, a.k, c);
      CountConcat(s.finished, [h.open[a.k]], c);
    } else if a.Die? {
      CountConcat(s.finished, h.queue, c);
    }
  }

  lemma StepKeepsPlaces(s: State, a: Action, c: Conn)
    requires Inv(s) && Enabled(s, a)
    ensures Places(Apply(s, a), c) == Places(s, c) + if a.Accept? && c == s.next then 1 else 0
  {
    if a.Choose? || a.Send? {
      AcceptorPlaces(s, a, c);
    } else if a.Start? || a.Close? || a.Settle? || a.Die? {
      ShardPlaces(s, a, c);
    }
  }

  // ---- every run ----

  lemma {:induction false} InitOk(max: nat, n: nat)
    ensures Inv(Init(max, n)) && Whole(Init(max, n)) && LiveCount(Init(max, n).shards) == n
  {
    var s := Init(max, n).shards;
    if n > 0 {
      assert s[1..] == Init(max, n - 1).shards;
      InitOk(max, n - 1);
    }
    forall c: Conn ensures Found(s, c) == 0 {
      if n > 0 {
        assert Places(Init(max, n - 1), c) == 0;
      }
    }
  }

  lemma {:induction false} RunKeeps(s: State, run: seq<Action>)
    requires Inv(s) && Whole(s) && Legal(s, run)
    ensures Inv(Exec(s, run)) && Whole(Exec(s, run))
    ensures Exec(s, run).max == s.max && |Exec(s, run).shards| == |s.shards|
    ensures Bounces(s, run) + LiveCount(Exec(s, run).shards) == LiveCount(s.shards)
    decreases |run|
  {
    if run != [] {
      var t := Apply(s, run[0]);
      StepKeepsInv(s, run[0]);
      forall c: Conn ensures Places(t, c) == if c < t.next then 1 else 0 {
        StepKeepsPlaces(s, run[0], c);
      }
      StepLive(s, run[0]);
      RunKeeps(t, run[1..]);
    }
  }

  function LiveCount(shards: seq<Shard>): nat {
    if shards == [] then 0 else (if shards[0].live then 1 else 0) + LiveCount(shards[1..])
  }

  /** A send that comes back because the shard is gone. */
  predicate Bounced(s: State, a: Action)
    requires Enabled(s, a)
  {
    a.Send? && !s.shards[s.acceptor.to].alive
  }

  function Bounces(s: State, run: seq<Action>): nat
    requires Legal(s, run)
    decreases |run|
  {
    if run == [] then 0 else (if Bounced(s, run[0]) then 1 else 0) + Bounces(Apply(s, run[0]), run[1..])
  }

  lemma {:induction false} LiveUpdate(shards: seq<Shard>, i: nat, h: Shard)
    requires i < |shards|
    ensures LiveCount(shards[i := h]) == LiveCount(shards) - (if shards[i].live then 1 else 0) + if h.live then 1 else 0
  {
    if i == 0 {
      assert shards[i := h][1..] == shards[1..];
    } else {
      assert shards[i := h][1..] == shards[1..][i - 1 := h];
      LiveUpdate(shards[1..], i - 1, h);
    }
  }

  lemma StepLive(s: State, a: Action)
    requires Inv(s) && Enabled(s, a)
    ensures LiveCount(Apply(s, a).shards) == LiveCount(s.shards) - if Bounced(s, a) then 1 else 0
    ensures Apply(s, a).max == s.max && |Apply(s, a).shards| == |s.shards|
  {
    var t := Apply(s, a);
    var r := LeastLoaded(s.shards);
    if a.Send? {
      LiveUpdate(s.shards, s.acceptor.to, t.shards[s.acceptor.to]);
    } else if a.Choose? && r.Some? {
      LiveUpdate(s.shards, r.value, t.shards[r.value]);
    } else if a.Start? || a.Close? || a.Settle? || a.Die? {
      LiveUpdate(s.shards, a.i, t.shards[a.i]);
    }
  }

  /** In every run: connections in transit, queued or open never exceed the limit; a shard that still
      receives has a load of exactly its queued, open and just closed connections and the one on its way;
      every accepted connection is in one place; and no more sends bounce than there are shards. */
  lemma EveryRun(max: nat, n: nat, run: seq<Action>)
    requires Legal(Init(max, n), run)
    ensures var s := Exec(Init(max, n), run);
            && Transit(s.acceptor) + Busy(s.shards) <= max
            && (forall i :: 0 <= i < |s.shards| && s.shards[i].alive ==>
                 s.shards[i].load == |s.shards[i].queue| + |s.shards[i].open| + s.shards[i].closing +
                     Arriving(s.acceptor, i))
            && (forall c: Conn :: Places(s, c) == if c < s.next then 1 else 0)
            && Bounces(Init(max, n), run) <= n
  {
    InitOk(max, n);
    RunKeeps(Init(max, n), run);
    var s := Exec(Init(max, n), run);
    forall i | 0 <= i < |s.shards| && s.shards[i].alive
      ensures s.shards[i].load == |s.shards[i].queue| + |s.shards[i].open| + s.shards[i].closing +
              Arriving(s.acceptor, i)
    {
      assert LoadOk(s.shards[i], Arriving(s.acceptor, i));
    }
  }

  /** Nobody is left behind: once the acceptor has stopped and the shards hold nothing, all permits are back
      and every connection ever accepted is finished, once. */
  lemma NothingLeftBehind(max: nat, n: nat, run: seq<Action>)
    requires Legal(Init(max, n), run)
    requires Exec(Init(max, n), run).acceptor.Stopped? && Busy(Exec(Init(max, n), run).shards) == 0
    ensures var s := Exec(Init(max, n), run);
            s.permits == max && forall c: Conn :: Count(s.finished, c) == if c < s.next then 1 else 0
  {
    InitOk(max, n);
    RunKeeps(Init(max, n), run);
    var s := Exec(Init(max, n), run);
    forall c: Conn ensures Found(s.shards, c) == 0 {
      NoneBusy(s.shards, c);
    }
    forall c: Conn ensures Count(s.finished, c) == if c < s.next then 1 else 0 {
      assert Places(s, c) == Count(s.finished, c);
    }
  }

  lemma {:induction false} NoneBusy(shards: seq<Shard>, c: Conn)
    requires Busy(shards) == 0
    ensures Found(shards, c) == 0
  {
    if shards != [] {
      NoneBusy(shards[1..], c);
    }
  }

  /** In every run the acceptor chooses, of the shards it believes live, one with the least load, for the connection
      it carries; and only that shard's load changes, by one. */
  lemma ChoiceIsLeast(max: nat, n: nat, run: seq<Action>)
    requires Legal(Init(max, n), run) && Exec(Init(max, n), run).acceptor.Carrying?
    ensures var s := Exec(Init(max, n), run); var t := Apply(s, Choose);
      t.acceptor.Sending? ==>
        var to := t.acceptor.to;
        && t.acceptor.conn == s.acceptor.conn && to < |s.shards| && s.shards[to].live
        && (forall k :: 0 <= k < |s.shards| && s.shards[k].live ==> s.shards[to].load <= s.shards[k].load)
        && t.shards == s.shards[to := s.shards[to].(load := s.shards[to].load + 1)]
  {
  }

  /** A send reaches the chosen shard's queue exactly if the shard still receives; otherwise the connection comes back
      and the shard is chosen no more. */
  lemma SendReachesExactly(max: nat, n: nat, run: seq<Action>)
    requires Legal(Init(max, n), run) && Exec(Init(max, n), run).acceptor.Sending?
    ensures var s := Exec(Init(max, n), run);
      && Enabled(s, Send)
      && var t := Apply(s, Send); var to, c := s.acceptor.to, s.acceptor.conn;
         && (s.shards[to].alive ==> t.acceptor.Idle? && t.shards[to].queue == s.shards[to].queue + [c])
         && (!s.shards[to].alive ==> t.acceptor == Carrying(c) && !t.shards[to].live)
  {
    InitOk(max, n);
    RunKeeps(Init(max, n), run);
  }

  /** The acceptor gives up exactly when it believes no shard live, and then none is. */
  lemma GivesUpExactly(max: nat, n: nat, run: seq<Action>)
    requires Legal(Init(max, n), run) && Exec(Init(max, n), run).acceptor.Carrying?
    ensures var s := Exec(Init(max, n), run);
            && (Apply(s, Choose).draining <==> forall i :: 0 <= i < |s.shards| ==> !s.shards[i].live)
            && (Apply(s, Choose).draining ==> forall i :: 0 <= i < |s.shards| ==> !s.shards[i].alive)
  {
    InitOk(max, n);
    RunKeeps(Init(max, n), run);
    var s := Exec(Init(max, n), run);
    forall i | 0 <= i < |s.shards| ensures LoadOk(s.shards[i], Arriving(s.acceptor, i)) {}
  }

  // ---- a shard's queue ----

  /** What the acceptor hands to shard `i` in this action. */
  function Handed(s: State, a: Action, i: nat): seq<Conn>
    requires Enabled(s, a)
  {
    if a.Send? && s.acceptor.to == i && s.shards[i].alive then [s.acceptor.conn] else []
  }

  function HandedIn(s: State, run: seq<Action>, i: nat): seq<Conn>
    requires Legal(s, run)
    decreases |run|
  {
    if run == [] then [] else Handed(s, run[0], i) + HandedIn(Apply(s, run[0]), run[1..], i)
  }

  function Started(run: seq<Action>, i: nat): nat {
    if run == [] then 0 else (if run[0] == Start(i) then 1 else 0) + Started(run[1..], i)
  }

  lemma QueueStep(s: State, a: Action, i: nat)
    requires Enabled(s, a) && i < |s.shards| && a != Die(i)
    ensures i < |Apply(s, a).shards|
    ensures var k := if a == Start(i) then 1 else 0;
      && k <= |s.shards[i].queue + Handed(s, a, i)|
      && Apply(s, a).shards[i].queue == (s.shards[i].queue + Handed(s, a, i))[k..]
  {
  }

  lemma QueueOn(queue: seq<Conn>, now: seq<Conn>, more: seq<Conn>, j: nat, k: nat)
    requires j <= |queue + now| && k <= |(queue + now)[j..] + more|
    ensures j + k <= |queue + (now + more)| && ((queue + now)[j..] + more)[k..] == (queue + (now + more))[j + k..]
  {
    assert queue + (now + more) == (queue + now) + more;
  }

  /** A shard that does not die picks up its connections in the order they were handed to it. */
  lemma {:induction false} ShardIsAQueue(s: State, run: seq<Action>, i: nat)
    requires Legal(s, run) && i < |s.shards| && Die(i) !in run
    ensures i < |Exec(s, run).shards| && Started(run, i) <= |s.shards[i].queue + HandedIn(s, run, i)|
    ensures Exec(s, run).shards[i].queue == (s.shards[i].queue + HandedIn(s, run, i))[Started(run, i)..]
    decreases |run|
  {
    if run != [] {
      var t := Apply(s, run[0]);
      QueueStep(s, run[0], i);
      ShardIsAQueue(t, run[1..], i);
      QueueOn(s.shards[i].queue, Handed(s, run[0], i), HandedIn(t, run[1..], i),
              if run[0] == Start(i) then 1 else 0, Started(run[1..], i));
    }
  }

  /** The re-route loop for one accepted connection, with the shards otherwise at rest. */
  method Route(c: Conn, before: seq<Shard>) returns (to: Option<nat>, shards: seq<Shard>)
    ensures |shards| == |before|
    ensures to.None? <==> forall i :: 0 <= i < |before| && before[i].live ==> !before[i].alive
    ensures to.Some? ==> to.value < |before| && before[to.value].live && before[to.value].alive
    ensures to.Some? ==> forall i :: 0 <= i < |before| && before[i].live && before[i].alive ==>
              before[to.value].load <= before[i].load
    ensures forall i :: 0 <= i < |before| && to != Some(i) ==>
              shards[i] == before[i] || (!before[i].alive && shards[i] == before[i].(live := false))
    ensures to.Some? ==> var h := before[to.value]; shards[to.value] == h.(load := h.load + 1, queue := h.queue + [c])
  {
    shards := before;
    while true
      invariant |shards| == |before|
      invariant forall i :: 0 <= i < |before| ==>
        shards[i] == before[i] || (!before[i].alive && shards[i] == before[i].(live := false))
      decreases LiveCount(shards)
    {
      to := LeastLoaded(shards);
      if to.None? {
        assert forall i :: 0 <= i < |before| ==> !shards[i].live;
        return;
      }
      var i := to.value;
      var h := shards[i];
      if h.alive {
        shards := shards[i := h.(load := h.load + 1, queue := h.queue + [c])];
        return;
      }
      LiveUpdate(shards, i, h.(live := false));
      shards := shards[i := h.(live := false)];
    }
  }

  /** Once the acceptor has stopped, by shutdown or for want of shards, it accepts and hands over nothing more. */
  lemma {:induction false} StoppedStays(s: State, run: seq<Action>)
    requires s.acceptor.Stopped? && Legal(s, run)
    ensures Exec(s, run).acceptor.Stopped? && Exec(s, run).next == s.next
    ensures Acquire !in run && Accept !in run && Send !in run
    decreases |run|
  {
    if run != [] {
      StoppedStays(Apply(s, run[0]), run[1..]);
      assert run == [run[0]] + run[1..];
    }
  }

  /** So after `Stop` itself, which gives back a permit that was held. */
  lemma StopStops(s: State, run: seq<Action>)
    requires Inv(s) && Legal(s, [Stop] + run)
    ensures Exec(s, [Stop] + run).acceptor.Stopped? && Exec(s, [Stop] + run).next == s.next
    ensures Accept !in run && Apply(s, Stop).permits + Busy(s.shards) == s.max
  {
    assert ([Stop] + run)[1..] == run;
    StepKeepsInv(s, Stop);
    StoppedStays(Apply(s, Stop), run);
  }

  /** The acceptor goes on whatever fails: it has stopped exactly if it was told to or gave up for want of shards. */
  lemma {:induction false} StoppedExactly(s: State, run: seq<Action>)
    requires Inv(s) && Legal(s, run) && (s.draining <==> s.acceptor.Stopped?)
    ensures Exec(s, run).acceptor.Stopped? <==> Stop in run || Exec(s, run).draining
    decreases |run|
  {
    if run != [] {
      assert run == [run[0]] + run[1..];
      StepKeepsInv(s, run[0]);
      if Apply(s, run[0]).acceptor.Stopped? {
        StoppedStays(Apply(s, run[0]), run[1..]);
        StoppedDrains(Apply(s, run[0]), run[1..]);
      } else {
        StoppedExactly(Apply(s, run[0]), run[1..]);
      }
    }
  }

  lemma {:induction false} StoppedDrains(s: State, run: seq<Action>)
    requires s.acceptor.Stopped? && Legal(s, run)
    ensures Exec(s, run).draining == s.draining && Stop !in run
    decreases |run|
  {
    if run != [] {
      StoppedDrains(Apply(s, run[0]), run[1..]);
      assert run == [run[0]] + run[1..];
    }
  }
}
