/** The request loop of a worker: take, serve, respond fused with the next take. The app is an
    arbitrary oracle; every outcome below a hard crash is covered. */
module WorkerLoop {
  import opened Options

  type Id = nat

  /** How a response head goes out. */
  datatype HeadResult =
    | HeadOk
    | BadHeaders    // raises before the claim
    | BadBody       // raises after the claim; the head sender is dropped

  /** What the app makes of one request. */
  datatype Outcome =
    | CallRaises                                                    // app.call or to_ary raises
    | Complete(headValid: bool, closeRaises: bool)                  // an Array body
    | Callable(head: HeadResult, raises: bool)                      // a Rack 3 streaming body
    | Enumerable(head: HeadResult, raises: bool, closeRaises: bool) // a body with `each`

  /** What has become of the response head: not sent, the app's own, the canned 500, or dropped unsent. */
  datatype HeadSent = NoHead | OwnHead | Canned500 | DroppedHead

  /** The responder of one request: claimed, frame channel open, cut by an error frame. */
  datatype Responder = Responder(claimed: bool, open: bool, cut: bool, head: HeadSent)

  predicate Settled(r: Responder) {
    r.claimed && !r.open
  }

  function Unclaimed(): Responder {
    Responder(false, false, false, NoHead)
  }

  /** `send_response` */
  function SendResponse(r: Responder): Responder {
    r.(claimed := true, head := OwnHead)
  }

  /** `send_stream_head`; a second claimant changes nothing. */
  function SendStreamHead(r: Responder, head: HeadResult): Responder {
    if head.BadHeaders? || r.claimed then r
    else Responder(true, head.HeadOk?, false, if head.HeadOk? then OwnHead else DroppedHead)
  }

  function FinishStream(r: Responder): Responder {
    r.(open := false)
  }

  /** `respond_500_if_unsent` */
  function Abort(r: Responder): Responder {
    if !r.claimed then r.(claimed := true, head := Canned500)
    else if r.open then r.(open := false, cut := true)
    else r
  }

  /** `deliver_streaming` and serve()'s rescue: where a streamed response ends up. */
  function Streamed(r: Responder, outcome: Outcome): Responder
    requires outcome.Callable? || outcome.Enumerable?
  {
    var started := SendStreamHead(r, outcome.head);
    if !outcome.head.HeadOk? then Abort(started)
    else if outcome.Callable? then
      // stream.close runs in an ensure: the stream is finished before any raise is rescued
      if outcome.raises then Abort(FinishStream(started)) else FinishStream(started)
    else if outcome.raises then Abort(started)
    else if outcome.closeRaises then Abort(FinishStream(started))
    else FinishStream(started)
  }

  /** Whatever the app does, a streamed request ends up claimed with its frame channel closed. It is cut
      with an error frame exactly when an enumerable body raised: a callable body's `ensure` closes the
      stream cleanly even then. */
  lemma StreamedEnds(outcome: Outcome)
    requires outcome.Callable? || outcome.Enumerable?
    ensures Settled(Streamed(Unclaimed(), outcome))
    ensures Streamed(Unclaimed(), outcome).cut <==> outcome.Enumerable? && outcome.head.HeadOk? && outcome.raises
  {
  }

  /** serve()'s return value: NOT_FUSED, or what the fused take yielded. */
  datatype Served = NotFused | Fused(next: Option<seq<Id>>)

  predicate Distinct(ids: seq<Id>) {
    forall i, j :: 0 <= i < j < |ids| ==> ids[i] != ids[j]
  }

  lemma DistinctParts(a: seq<Id>, b: seq<Id>)
    requires Distinct(a + b)
    ensures Distinct(a) && Distinct(b) && forall x :: x in a ==> x !in b
  {
    var ab := a + b;
    forall i, j | 0 <= i < |a| && 0 <= j < |b| ensures a[i] != b[j] {
      assert ab[i] == a[i] && ab[|a| + j] == b[j];
    }
    forall i, j | 0 <= i < j < |a| ensures a[i] != a[j] {
      assert ab[i] == a[i] && ab[j] == a[j];
    }
    forall i, j | 0 <= i < j < |b| ensures b[i] != b[j] {
      assert ab[|a| + i] == b[i] && ab[|a| + j] == b[j];
    }
  }

  function Elements(ids: seq<Id>): set<Id> {
    set id | id in ids
  }

  lemma RestOf(ids: seq<Id>, i: nat)
    requires Distinct(ids) && i < |ids|
    ensures Elements(ids[i..]) == Elements(ids[i + 1..]) + {ids[i]} && ids[i] !in Elements(ids[i + 1..])
    ensures i == |ids| - 1 ==> Elements(ids[i..]) == {ids[i]}
  {
    assert ids[i..] == [ids[i]] + ids[i + 1..];
  }

  lemma ElementsConcat(a: seq<Id>, b: seq<Id>)
    ensures Elements(a + b) == Elements(a) + Elements(b)
  {
  }

  function Flatten(batches: seq<seq<Id>>): seq<Id> {
    if batches == [] then [] else Flatten(batches[..|batches| - 1]) + batches[|batches| - 1]
  }

  lemma FlattenOn(batches: seq<seq<Id>>, batch: seq<Id>, rest: seq<Id>)
    ensures Flatten(batches + [batch]) + rest == Flatten(batches) + (batch + rest)
  {
    assert (batches + [batch])[..|batches|] == batches;
  }

  /** Batches of at least one request and at most `max`. */
  predicate Sized(batches: seq<seq<Id>>, max: nat) {
    forall i :: 0 <= i < |batches| ==> 0 < |batches[i]| <= if max == 0 then 1 else max
  }

  function Unanswered(responders: map<Id, Responder>, forgotten: set<Id>): set<Id> {
    set id | id in responders && !Settled(responders[id]) && id !in forgotten
  }

  function Admitted(responders: map<Id, Responder>, taken: seq<Id>): map<Id, Responder> {
    responders + map id | id in taken :: Unclaimed()
  }

  lemma AdmittedUnanswered(responders: map<Id, Responder>, forgotten: set<Id>, taken: seq<Id>)
    requires forgotten <= responders.Keys && forall id :: id in taken ==> id !in responders
    ensures Unanswered(Admitted(responders, taken), forgotten) == Unanswered(responders, forgotten) + Elements(taken)
  {
    var now := Admitted(responders, taken);
    forall id | id in taken ensures id in Unanswered(now, forgotten) {
      assert now[id] == Unclaimed() && id !in forgotten;
    }
    forall id | id in responders ensures id in now && now[id] == responders[id] {
    }
  }

  class Worker {
    const app: Id -> Outcome
    const hook: bool                    // after_request_complete is set: nothing is fused
    var incoming: seq<Id>               // everything the takes will receive before the queue closes
    var responders: map<Id, Responder>  // every request admitted so far
    var current: seq<Id>                // the slot's in-flight list
    ghost var takes: seq<seq<Id>>       // what each take has yielded
    ghost var forgotten: set<Id>        // cleared from `current` without an answer

    constructor (app: Id -> Outcome, hook: bool, incoming: seq<Id>)
      requires Distinct(incoming)
      ensures this.app == app && this.hook == hook && this.incoming == incoming
      ensures Valid() && current == [] && responders == map[] && forgotten == {} && takes == []
    {
      this.app, this.hook, this.incoming := app, hook, incoming;
      responders, current, forgotten, takes := map[], [], {}, [];
    }

    ghost predicate Valid()
      reads this
    {
      && Distinct(incoming) && (forall id :: id in incoming ==> id !in responders)
      && (forall id :: id in current ==> id in responders)
      && Pending() <= Elements(current)
      && (forall id :: id in Pending() ==> responders[id] == Unclaimed())
      && forgotten <= responders.Keys
      && (forall id :: id in current ==> id !in forgotten)
      && (forall id :: id in responders ==> AnsweredRight(id, responders[id]))
    }

    /** An answered request got the app's own head exactly if the app made one that builds, and its stream was cut by
        an error frame exactly if its body is an enumerable one that was started and raised. A head whose body turns
        out bad is dropped unsent; anything else is a 500. */
    predicate AnsweredRight(id: Id, r: Responder) {
      Settled(r) ==>
        && (r.cut <==> app(id).Enumerable? && app(id).head.HeadOk? && app(id).raises)
        && r.head == match app(id)
                     case CallRaises => Canned500
                     case Complete(valid, _) => if valid then OwnHead else Canned500
                     case Callable(head, _) => HeadFor(head)
                     case Enumerable(head, _, _) => HeadFor(head)
    }

    function HeadFor(head: HeadResult): HeadSent {
      match head
      case HeadOk => OwnHead
      case BadHeaders => Canned500
      case BadBody => DroppedHead
    }

    /** Requests admitted, not answered and not forgotten. */
    ghost function Pending(): set<Id>
      reads this
    {
      Unanswered(responders, forgotten)
    }

    /** Everything taken or still to be taken. */
    ghost function Known(): set<Id>
      reads this
    {
      responders.Keys + Elements(incoming)
    }

    /** `checkout`'s bookkeeping: the previous batch is taken to be answered. */
    method ClearCurrent()
      requires Valid()
      modifies this`current, this`forgotten
      ensures Valid() && current == [] && forgotten == old(forgotten) + old(Pending()) && Pending() == {}
    {
      forgotten := forgotten + Pending();
      current := [];
    }

    /** `take_one` / `take_batch`: checkout, then as many requests as are queued already, up to `max`;
        nil once the queue is closed. */
    method Take(max: nat) returns (batch: Option<seq<Id>>)
      requires Valid()
      modifies this
      ensures Valid() && forgotten == old(forgotten) + old(Pending()) && Known() == old(Known())
      ensures batch.None? ==>
        && Pending() == {} && current == [] && responders == old(responders) && incoming == [] == old(incoming)
        && takes == old(takes)
      ensures batch.Some? ==>
        && batch.value != [] && |batch.value| <= (if max == 0 then 1 else max) && Distinct(batch.value)
        && current == batch.value && Pending() == Elements(current)
        && batch.value + incoming == old(incoming) && takes == old(takes) + [batch.value]
        && (forall id :: id in old(responders) ==> id in responders && responders[id] == old(responders)[id])
    {
      ClearCurrent();
      if incoming == [] {
        return None;
      }
      var n :| 0 < n <= |incoming| && n <= if max == 0 then 1 else max;
      var taken := incoming[..n];
      ElementsConcat(taken, incoming[n..]);
      assert taken + incoming[n..] == incoming;
      Admit(taken, incoming[n..]);
      takes := takes + [taken];
      return Some(taken);
    }

    /** `admit` for each request of the batch. */
    method Admit(taken: seq<Id>, rest: seq<Id>)
      requires Valid() && current == [] && Pending() == {} && incoming == taken + rest
      modifies this`incoming, this`responders, this`current
      ensures Valid() && current == taken && incoming == rest && Distinct(taken) && Pending() == Elements(taken)
      ensures responders.Keys == old(responders).Keys + Elements(taken)
      ensures forall id :: id in old(responders) ==> responders[id] == old(responders)[id]
    {
      DistinctParts(taken, rest);
      AdmittedUnanswered(responders, forgotten, taken);
      responders := Admitted(responders, taken);
      current := taken;
      incoming := rest;
    }

    /** The app answers with an Array whose `close` raises, and nothing keeps the response from being fused. */
    predicate Spoils(id: Id) {
      !hook && app(id) == Complete(true, true)
    }

    /** A batch ends in such a request. */
    predicate EndsSpoiling(batch: seq<Id>) {
      batch != [] && Spoils(batch[|batch| - 1])
    }

    /** A take is lost when it rode on the answer of a spoiling request that was served. */
    predicate IsLost(batches: seq<seq<Id>>, i: nat)
      requires i < |batches|
    {
      i > 0 && EndsSpoiling(batches[i - 1]) && !IsLost(batches, i - 1)
    }

    lemma {:induction false} LostSame(batches: seq<seq<Id>>, batch: seq<Id>, i: nat)
      requires i < |batches|
      ensures IsLost(batches + [batch], i) == IsLost(batches, i)
    {
      if i > 0 {
        LostSame(batches, batch, i - 1);
      }
    }

    function LostIds(batches: seq<seq<Id>>): set<Id> {
      if batches == [] then {}
      else
        var n := |batches| - 1;
        LostIds(batches[..n]) + if IsLost(batches, n) then Elements(batches[n]) else {}
    }

    lemma LostOn(batches: seq<seq<Id>>, batch: seq<Id>)
      requires batches != []
      ensures var n := |batches|; IsLost(batches + [batch], n) <==>
              EndsSpoiling(batches[n - 1]) && !IsLost(batches, n - 1)
      ensures LostIds(batches + [batch]) == LostIds(batches) + if IsLost(batches + [batch],
              |batches|) then Elements(batch) else {}
    {
      LostSame(batches, batch, |batches| - 1);
      assert (batches + [batch])[..|batches|] == batches;
    }

    /** Something is lost exactly if a batch other than the last one taken ends in a spoiling request. */
    lemma {:induction false} LostExactly(batches: seq<seq<Id>>)
      requires forall i :: 0 <= i < |batches| ==> batches[i] != []
      ensures LostIds(batches) != {} <==> exists i :: 0 <= i < |batches| - 1 && EndsSpoiling(batches[i])
    {
      if |batches| > 1 {
        var n := |batches| - 1;
        var rest := batches[..n];
        assert batches == rest + [batches[n]];
        LostExactly(rest);
        LostOn(rest, batches[n]);
        assert batches[n][0] in Elements(batches[n]);
        assert IsLost(rest, n - 1) ==> EndsSpoiling(rest[n - 2]);
        assert forall i :: 0 <= i < n ==> rest[i] == batches[i];
      } else if |batches| == 1 {
        assert batches[..0] == [];
      }
    }

    /** The last take is being served, and so far exactly the lost takes were forgotten. */
    ghost predicate Serving(batch: seq<Id>)
      reads this
    {
      && Valid() && takes != [] && takes[|takes| - 1] == batch != [] && !IsLost(takes, |takes| - 1)
      && forgotten == LostIds(takes)
    }

    /** One responder call for request `id`. */
    method Settle(id: Id, r: Responder)
      requires Valid() && id in current && Settled(r) && AnsweredRight(id, r)
      modifies this`responders
      ensures Valid() && Pending() == old(Pending()) - {id}
      ensures responders == old(responders)[id := r]
    {
      responders := responders[id := r];
    }

    /** `serve` for a request whose complete response is not fused. */
    method ServePlain(id: Id)
      requires Valid() && id in current && id in Pending()
      modifies this`responders
      ensures Valid() && Pending() == old(Pending()) - {id}
      ensures responders.Keys == old(responders).Keys && responders == old(responders)[id := responders[id]]
      ensures responders[id].cut <==> app(id).Enumerable? && app(id).head.HeadOk? && app(id).raises
    {
      var r := responders[id];
      match app(id) {
        case CallRaises => Settle(id, Abort(r));
        case Complete(headValid, closeRaises) =>
          // a head that does not build raises before the claim; a raising close is rescued after it
          Settle(id,
            if !headValid || closeRaises then Abort(if headValid then SendResponse(r) else r) else SendResponse(r));
        case Callable(_, _) => Settle(id, Streamed(r, app(id)));
        case Enumerable(_, _, _) => Settle(id, Streamed(r, app(id)));
      }
    }

    /** `serve` for the last request of a batch: a complete response rides the fused respond-and-take. */
    method ServeLast(id: Id, max: nat) returns (served: Served)
      requires Valid() && id in current && Pending() == {id}
      modifies this
      ensures Valid() && forgotten == old(forgotten) && Known() == old(Known())
      ensures served.Fused? ==> !Spoils(id)
      ensures served.Fused? ==> (served.next.None? <==> old(incoming) == [])
      ensures served.Fused? && served.next.Some? ==> served.next.value == current
      ensures if old(incoming) != [] && (served.Fused? || Spoils(id)) then Took(old(takes), old(incoming), max)
              else takes == old(takes) && Pending() == {} && incoming == old(incoming)
    {
      if hook || !app(id).Complete? || !app(id).headValid {
        ServePlain(id);
        return NotFused;
      }
      Settle(id, SendResponse(responders[id]));
      var next := Take(max);
      if app(id).closeRaises {
        // the rescue aborts the request just answered, a no-op, and drops what the take yielded
        assert Abort(responders[id]) == responders[id];
        return NotFused;
      }
      return Fused(next);
    }

    /** The latest take got the requests now in flight, from the front of the queue. */
    ghost predicate Took(before: seq<seq<Id>>, queue: seq<Id>, max: nat)
      reads this
    {
      && 0 < |current| <= (if max == 0 then 1 else max) && Distinct(current)
      && Pending() == Elements(current) && current + incoming == queue && takes == before + [current]
    }

    /** Before a take whose checkout forgets just what is lost, and which will not be lost itself. */
    ghost predicate Ready()
      reads this
    {
      && Valid() && takes != [] && forgotten + Pending() == LostIds(takes)
      && (incoming == [] || !EndsSpoiling(takes[|takes| - 1]) || IsLost(takes, |takes| - 1))
    }

    /** What may be served next: nothing, or the batch just taken. */
    ghost predicate Follows(next: Option<seq<Id>>)
      reads this
    {
      if next.None? then Valid() && Pending() == {} && incoming == [] && forgotten == LostIds(takes)
      else Serving(next.value) && Distinct(next.value) && current == next.value && Pending() == Elements(next.value)
    }

    /** The last request of a batch: answered and the next take good, or the next take still to be made. */
    method ServeEnd(ghost batch: seq<Id>, id: Id, max: nat) returns (served: Served)
      requires Serving(batch) && id == batch[|batch| - 1] && id in current && Pending() == {id}
      modifies this
      ensures if served.Fused? then Follows(served.next) else Ready()
      ensures served.Fused? && served.next.Some? ==> |incoming| < |old(incoming)|
      ensures Known() == old(Known()) && Flatten(takes) + incoming == old(Flatten(takes) + incoming)
      ensures |incoming| <= |old(incoming)| && (old(Sized(takes, max)) ==> Sized(takes, max))
    {
      ghost var was, queue := takes, incoming;
      served := ServeLast(id, max);
      if queue != [] && (served.Fused? || Spoils(id)) {
        LostOn(was, current);
        FlattenOn(was, current, incoming);
      }
    }

    method TakeNext(max: nat) returns (next: Option<seq<Id>>)
      requires Ready()
      modifies this
      ensures Follows(next) && (next.Some? ==> |incoming| < |old(incoming)|)
      ensures Known() == old(Known()) && Flatten(takes) + incoming == old(Flatten(takes) + incoming)
      ensures old(Sized(takes, max)) ==> Sized(takes, max)
    {
      ghost var was := takes;
      next := Take(max);
      if next.Some? {
        LostOn(was, next.value);
        FlattenOn(was, next.value, incoming);
      }
    }

    /** `handle_one`: one request, and the env to handle next. */
    method HandleOne(id: Id) returns (next: Option<Id>)
      requires Serving([id]) && id in current && Pending() == {id} && Sized(takes, 1)
      modifies this
      ensures next.None? ==> Follows(None)
      ensures next.Some? ==> Follows(Some([next.value])) && |incoming| < |old(incoming)|
      ensures Known() == old(Known()) && Flatten(takes) + incoming == old(Flatten(takes) + incoming)
      ensures Sized(takes, 1)
    {
      var served := ServeEnd([id], id, 1);
      var batch: Option<seq<Id>>;
      if served.NotFused? {
        batch := TakeNext(1);
      } else {
        batch := served.next;
      }
      if batch.None? {
        return None;
      }
      assert batch.value == [batch.value[0]];
      return Some(batch.value[0]);
    }

    /** The batch up to its last request, none of them fused. */
    method ServeAllBut(batch: seq<Id>, last: nat)
      requires Valid() && last == |batch| - 1 && Distinct(batch) && current == batch && Pending() == Elements(batch)
      modifies this`responders
      ensures Valid() && Pending() == {batch[last]} && responders.Keys == old(responders).Keys
    {
      for index := 0 to last
        invariant Valid() && Pending() == Elements(batch[index..])
        invariant responders.Keys == old(responders).Keys
      {
        RestOf(batch, index);
        ServePlain(batch[index]);
      }
      RestOf(batch, last);
    }

    /** `process`: every request of the batch in order, and the batch to process next. */
    method Process(batch: seq<Id>, max: nat) returns (next: Option<seq<Id>>)
      requires Serving(batch) && Distinct(batch) && current == batch && Pending() == Elements(batch)
      modifies this
      ensures Follows(next) && (next.Some? ==> |incoming| < |old(incoming)|)
      ensures Known() == old(Known()) && Flatten(takes) + incoming == old(Flatten(takes) + incoming)
      ensures old(Sized(takes, max)) ==> Sized(takes, max)
    {
      var last := |batch| - 1;
      ServeAllBut(batch, last);
      var served := ServeEnd(batch, batch[last], max);
      if served.Fused? {
        return served.next;
      }
      next := TakeNext(max);
    }

    /** `run`: the whole life of a worker, for every app. Every queued request is taken, in order, and in the
        end each is answered with its stream closed, but for the lost takes: those that rode on the answer of
        a served request with an Array body whose `close` raised. Exactly they are forgotten, and there are
        some exactly if a batch other than the last ends in such a request. */
    method Run(batchSize: nat)
      requires Valid() && current == [] && responders == map[] && forgotten == {} && takes == []
      modifies this
      ensures Valid() && Flatten(takes) == old(incoming) && Sized(takes, batchSize)
      ensures forgotten == LostIds(takes) && responders.Keys == Elements(old(incoming))
      ensures forall id :: id in responders ==>
              id in forgotten || (Settled(responders[id]) && AnsweredRight(id, responders[id]))
      ensures forgotten != {} <==> exists i :: 0 <= i < |takes| - 1 && EndsSpoiling(takes[i])
      ensures batchSize <= 1 ==>
        (forgotten != {} <==> exists i :: 0 <= i < |old(incoming)| - 1 && Spoils(old(incoming)[i]))
    {
      if batchSize <= 1 {
        RunSingly();
        SinglesExactly(takes);
      } else {
        RunBatches(batchSize);
      }
      LostExactly(takes);
      assert Pending() == {};
    }

    /** The start of both loops. */
    method FirstTake(max: nat) returns (batch: Option<seq<Id>>)
      requires Valid() && current == [] && responders == map[] && forgotten == {} && takes == []
      modifies this
      ensures Follows(batch) && Known() == old(Known())
      ensures Flatten(takes) + incoming == old(incoming) && Sized(takes, max)
    {
      batch := Take(max);
      assert takes[..0] == [];
      if batch.Some? {
        assert takes == [batch.value];
      }
    }

    method RunSingly()
      requires Valid() && current == [] && responders == map[] && forgotten == {} && takes == []
      modifies this
      ensures Follows(None) && Flatten(takes) == old(incoming) && Sized(takes, 1) && Known() == old(Known())
    {
      var taken := FirstTake(1);
      var env := if taken.Some? then Some(taken.value[0]) else None;
      assert taken.Some? ==> taken.value == [taken.value[0]];
      while env.Some?
        invariant Follows(if env.Some? then Some([env.value]) else None)
        invariant Known() == old(Known()) && Flatten(takes) + incoming == old(incoming) && Sized(takes, 1)
        decreases env.Some?, |incoming|
      {
        env := HandleOne(env.value);
      }
    }

    method RunBatches(batchSize: nat)
      requires Valid() && current == [] && responders == map[] && forgotten == {} && takes == []
      modifies this
      ensures Follows(None) && Flatten(takes) == old(incoming) && Sized(takes, batchSize) && Known() == old(Known())
    {
      var batch := FirstTake(batchSize);
      while batch.Some?
        invariant Follows(batch)
        invariant Known() == old(Known()) && Flatten(takes) + incoming == old(incoming) && Sized(takes, batchSize)
        decreases batch.Some?, |incoming|
      {
        batch := Process(batch.value, batchSize);
      }
    }

    /** One request at a time: something is forgotten exactly if such a body has a successor in the queue. */
    lemma SinglesExactly(batches: seq<seq<Id>>)
      requires Sized(batches, 1)
      ensures LostIds(batches) != {} <==>
              exists i :: 0 <= i < |Flatten(batches)| - 1 && Spoils(Flatten(batches)[i])
    {
      FlattenSingles(batches);
      LostExactly(batches);
      assert forall i :: 0 <= i < |batches| ==> (EndsSpoiling(batches[i]) <==> Spoils(Flatten(batches)[i]));
    }
  }

  lemma {:induction false} FlattenSingles(batches: seq<seq<Id>>)
    requires Sized(batches, 1)
    ensures |Flatten(batches)| == |batches|
    ensures forall i :: 0 <= i < |batches| ==> batches[i] == [Flatten(batches)[i]]
  {
    if batches != [] {
      FlattenSingles(batches[..|batches| - 1]);
    }
  }
}
