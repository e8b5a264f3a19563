/** The request body on its way to the app: hyper frames, the forwarder task, the bounded channel and
    `read_body`, interleaved step by step. */
module BodyPipe {
  import opened Options

  newtype Byte = b: int | 0 <= b < 256
  type Bytes = seq<Byte>

  const CHANNEL_DEPTH: nat := 8

  datatype Frame = Data(data: Bytes) | Trailers

  datatype Abandon = Oversize | TimedOut

  /** The forwarder task, between two of its awaits. */
  datatype Forwarder =
    | Pulling
    | Sending(data: Bytes)
    | Abandoning(why: Abandon)     // about to store the flag
    | Dropping(why: Abandon)       // flag stored, sender not dropped yet
    | AtEof                        // sender dropped from here on
    | AtError                      // the transport failed mid-body
    | GaveUp(why: Abandon)
    | ReaderGone(lost: Bytes)

  /** `read_body` between channel operations. */
  datatype Reader = Idle | Assembling(maxLen: nat, sofar: Bytes)

  datatype Result = Fresh | Chunk(bytes: Bytes, maxLen: nat) | Nil | TooLarge | ReadTimeout | Interrupted

  datatype State = State(
    frames: seq<Frame>,        // what the client's connection yields
    endsClean: bool,           // and how it ends: EOF, or a transport error
    maxBody: nat,              // 0 = unlimited
    pos: nat,
    total: nat,
    forwarder: Forwarder,
    channel: seq<Bytes>,
    abandoned: Option<Abandon>,
    leftover: Option<Bytes>,
    reader: Reader,
    dropped: bool,             // the request handle is gone
    delivered: Bytes,          // everything `read_body` has returned
    last: Result)

  datatype Action =
    | Pull
    | PullEnd
    | Stall
    | Push
    | PushFails
    | StoreFlag
    | DropSender
    | ReadLeftover(maxLen: nat)
    | ReadChannel(maxLen: nat)
    | ReadEnd
    | ReadInterrupted
    | DrainMore
    | Return
    | DropHandle

  function Start(frames: seq<Frame>, endsClean: bool, maxBody: nat): State {
    State(frames, endsClean, maxBody, 0, 0, Pulling, [], None, None, Idle, false, [], Fresh)
  }

  /** The sender is gone: an empty channel reads as Disconnected. */
  predicate Closed(f: Forwarder) {
    f.AtEof? || f.AtError? || f.GaveUp? || f.ReaderGone?
  }

  predicate Enabled(s: State, a: Action) {
    match a
    case Pull => s.forwarder.Pulling? && s.pos < |s.frames|
    case PullEnd => s.forwarder.Pulling? && s.pos == |s.frames|
    case Stall => s.forwarder.Pulling?
    case Push => s.forwarder.Sending? && |s.channel| < CHANNEL_DEPTH
    case PushFails => s.forwarder.Sending? && s.dropped
    case StoreFlag => s.forwarder.Abandoning?
    case DropSender => s.forwarder.Dropping?
    case ReadLeftover(_) => s.reader.Idle? && !s.dropped && s.leftover.Some?
    case ReadChannel(_) => s.reader.Idle? && !s.dropped && s.leftover.None? && s.channel != []
    case ReadEnd => s.reader.Idle? && !s.dropped && s.leftover.None? && s.channel == [] && Closed(s.forwarder)
    case ReadInterrupted => s.reader.Idle? && !s.dropped && s.leftover.None?
    case DrainMore => s.reader.Assembling? && |s.reader.sofar| < s.reader.maxLen && s.channel != []
    case Return => s.reader.Assembling? && (|s.reader.sofar| >= s.reader.maxLen || s.channel == [])
    case DropHandle => s.reader.Idle? && !s.dropped
  }

  function AtLeastOne(n: nat): nat {
    if n == 0 then 1 else n
  }

  /** The first chunk of a read: over-long ones are split and returned at once. */
  function TakeChunk(s: State, chunk: Bytes, maxLen: nat): State {
    var m := AtLeastOne(maxLen);
    if |chunk| > m then
      s.(leftover := Some(chunk[m..]), delivered := s.delivered + chunk[..m], last := Chunk(chunk[..m], m))
    else s.(reader := Assembling(m, chunk))
  }

  function DoPull(s: State): State
    requires Enabled(s, Pull)
  {
    match s.frames[s.pos]
    case Trailers => s.(pos := s.pos + 1)
    case Data(data) =>
      var total := s.total + |data|;
      var next := if s.maxBody > 0 && total > s.maxBody then Abandoning(Oversize) else Sending(data);
      s.(pos := s.pos + 1, total := total, forwarder := next)
  }

  /** One greedy `try_recv`, taking no more than still fits. */
  function DoDrain(s: State): State
    requires Enabled(s, DrainMore)
  {
    var more, room := s.channel[0], s.reader.maxLen - |s.reader.sofar|;
    var t := s.(channel := s.channel[1..]);
    if |more| > room then
      t.(leftover := Some(more[room..]), reader := s.reader.(sofar := s.reader.sofar + more[..room]))
    else t.(reader := s.reader.(sofar := s.reader.sofar + more))
  }

  function Apply(s: State, a: Action): State
    requires Enabled(s, a)
  {
    match a
    case Pull => DoPull(s)
    case PullEnd => s.(forwarder := if s.endsClean then AtEof else AtError)
    case Stall => s.(forwarder := Abandoning(TimedOut))
    case Push => s.(channel := s.channel + [s.forwarder.data], forwarder := Pulling)
    case PushFails => s.(forwarder := ReaderGone(s.forwarder.data))
    case StoreFlag => s.(abandoned := Some(s.forwarder.why), forwarder := Dropping(s.forwarder.why))
    case DropSender => s.(forwarder := GaveUp(s.forwarder.why))
    case ReadLeftover(maxLen) => TakeChunk(s.(leftover := None), s.leftover.value, maxLen)
    case ReadChannel(maxLen) => TakeChunk(s.(channel := s.channel[1..]), s.channel[0], maxLen)
    case ReadEnd =>
      s.(last := match s.abandoned case None => Nil case Some(Oversize) => TooLarge case Some(TimedOut) => ReadTimeout)
    case ReadInterrupted => s.(last := Interrupted)
    case DrainMore => DoDrain(s)
    case Return =>
      s.(reader := Idle, delivered := s.delivered + s.reader.sofar, last := Chunk(s.reader.sofar, s.reader.maxLen))
    case DropHandle => s.(dropped := true)
  }

  predicate Legal(s: State, run: seq<Action>)
    decreases |run|
  {
    run == [] || (Enabled(s, run[0]) && Legal(Apply(s, run[0]), run[1..]))
  }

  function Exec(s: State, run: seq<Action>): State
    requires Legal(s, run)
    decreases |run|
  {
    if run == [] then s else Exec(Apply(s, run[0]), run[1..])
  }

  // ----- specification

  /** The bytes of the first `k` frames. */
  function Taken(frames: seq<Frame>, k: nat): Bytes
    requires k <= |frames|
  {
    if k == 0 then [] else Taken(frames, k - 1) + (if frames[k - 1].Data? then frames[k - 1].data else [])
  }

  function Body(frames: seq<Frame>): Bytes {
    Taken(frames, |frames|)
  }

  function Concat(chunks: seq<Bytes>): Bytes {
    if chunks == [] then [] else chunks[0] + Concat(chunks[1..])
  }

  predicate Fits(frames: seq<Frame>, maxBody: nat, k: nat)
    requires k <= |frames|
  {
    maxBody == 0 || |Taken(frames, k)| <= maxBody
  }

  /** Frames `[..k]` are the longest prefix of whole frames whose data fits `maxBody`. */
  predicate Longest(frames: seq<Frame>, maxBody: nat, k: nat) {
    k <= |frames| && Fits(frames, maxBody, k) && (k < |frames| ==> !Fits(frames, maxBody, k + 1))
  }

  /** The forwarder has met a frame that went over the limit. */
  predicate Over(s: State) {
    (s.forwarder.Abandoning? || s.forwarder.Dropping? || s.forwarder.GaveUp?) && s.forwarder.why.Oversize?
  }

  /** How many frames were let through. */
  function Kept(s: State): int {
    if Over(s) then s.pos - 1 else s.pos
  }

  function InForwarder(f: Forwarder): Bytes {
    match f
    case Sending(data) => data
    case ReaderGone(lost) => lost
    case _ => []
  }

  function InReader(r: Reader): Bytes {
    if r.Assembling? then r.sofar else []
  }

  function Leftover(o: Option<Bytes>): Bytes {
    if o.Some? then o.value else []
  }

  /** Everything let through, in order: returned, being assembled, left over, queued, in the forwarder. */
  function Flow(s: State): Bytes {
    s.delivered + InReader(s.reader) + Leftover(s.leftover) + Concat(s.channel) + InForwarder(s.forwarder)
  }

  predicate ForwarderOk(s: State) {
    && s.pos <= |s.frames| && s.total == |Taken(s.frames, s.pos)|
    && (Over(s) ==> s.pos > 0 && s.frames[s.pos - 1].Data? && !Fits(s.frames, s.maxBody, s.pos))
    && 0 <= Kept(s) && Fits(s.frames, s.maxBody, Kept(s))
    && (s.forwarder.AtEof? ==> s.pos == |s.frames| && s.endsClean)
    && (s.forwarder.AtError? ==> s.pos == |s.frames| && !s.endsClean)
    && (s.forwarder.ReaderGone? ==> s.dropped)
    && s.abandoned == (if s.forwarder.Dropping? || s.forwarder.GaveUp? then Some(s.forwarder.why) else None)
  }

  predicate ReaderOk(s: State) {
    && |s.channel| <= CHANNEL_DEPTH
    && (s.reader.Assembling? ==> |s.reader.sofar| <= s.reader.maxLen && !s.dropped)
    && (s.reader.Assembling? && s.leftover.Some? ==> |s.reader.sofar| == s.reader.maxLen)
    && (s.last.Chunk? ==> |s.last.bytes| <= s.last.maxLen)
  }

  ghost predicate Inv(s: State) {
    ForwarderOk(s) && ReaderOk(s) && Flow(s) == Taken(s.frames, Kept(s))
  }

  lemma {:induction false} ConcatAppend(chunks: seq<Bytes>, chunk: Bytes)
    ensures Concat(chunks + [chunk]) == Concat(chunks) + chunk
  {
    if chunks == [] {
      assert chunks + [chunk] == [chunk];
    } else {
      ConcatAppend(chunks[1..], chunk);
      assert (chunks + [chunk])[1..] == chunks[1..] + [chunk];
    }
  }

  lemma PullKeeps(s: State)
    requires Inv(s) && Enabled(s, Pull)
    ensures Inv(DoPull(s))
  {
    var t := DoPull(s);
    assert Taken(s.frames, t.pos) == Taken(s.frames,
           s.pos) + if s.frames[s.pos].Data? then s.frames[s.pos].data else [];
  }

  lemma PushKeeps(s: State)
    requires Inv(s) && Enabled(s, Push)
    ensures Inv(Apply(s, Push))
  {
    ConcatAppend(s.channel, s.forwarder.data);
    var head := s.delivered + InReader(s.reader) + Leftover(s.leftover);
    assert Flow(Apply(s, Push)) == head + (Concat(s.channel) + s.forwarder.data) + [];
    assert Flow(s) == head + Concat(s.channel) + s.forwarder.data;
  }

  /** The chunk a read begins with came from the front of the flow. */
  lemma TakeChunkFlow(s: State, chunk: Bytes, maxLen: nat)
    requires s.reader.Idle? && s.leftover.None?
    ensures Flow(TakeChunk(s, chunk, maxLen)) == s.delivered + chunk + Concat(s.channel) + InForwarder(s.forwarder)
  {
    var m := AtLeastOne(maxLen);
    if |chunk| > m {
      assert chunk == chunk[..m] + chunk[m..];
    }
  }

  lemma ReadLeftoverFlow(s: State, maxLen: nat)
    requires Enabled(s, ReadLeftover(maxLen))
    ensures Flow(TakeChunk(s.(leftover := None), s.leftover.value, maxLen)) == Flow(s)
  {
    TakeChunkFlow(s.(leftover := None), s.leftover.value, maxLen);
  }

  lemma ReadChannelFlow(s: State, maxLen: nat)
    requires Enabled(s, ReadChannel(maxLen))
    ensures Flow(TakeChunk(s.(channel := s.channel[1..]), s.channel[0], maxLen)) == Flow(s)
  {
    TakeChunkFlow(s.(channel := s.channel[1..]), s.channel[0], maxLen);
    HeadOut(s.delivered, s.channel, InForwarder(s.forwarder));
  }

  /** The queue's head, taken out in front of it. */
  lemma HeadOut(delivered: Bytes, channel: seq<Bytes>, held: Bytes)
    requires channel != []
    ensures delivered + channel[0] + Concat(channel[1..]) + held == delivered + [] + [] + Concat(channel) + held
  {
    var rest := Concat(channel[1..]);
    assert delivered + channel[0] + rest == delivered + (channel[0] + rest);
    assert delivered + [] + [] == delivered;
  }

  /** What a read's first chunk does besides moving bytes. */
  lemma TakeChunkOk(s: State, chunk: Bytes, maxLen: nat)
    requires ForwarderOk(s) && ReaderOk(s) && s.reader.Idle? && !s.dropped && s.leftover.None?
    ensures var t := TakeChunk(s, chunk, maxLen);
      ForwarderOk(t) && ReaderOk(t) && Kept(t) == Kept(s) && t.frames == s.frames
  {
  }

  lemma ReadLeftoverKeeps(s: State, maxLen: nat)
    requires Inv(s) && Enabled(s, ReadLeftover(maxLen))
    ensures Inv(TakeChunk(s.(leftover := None), s.leftover.value, maxLen))
  {
    TakeChunkOk(s.(leftover := None), s.leftover.value, maxLen);
    ReadLeftoverFlow(s, maxLen);
  }

  lemma ReadChannelKeeps(s: State, maxLen: nat)
    requires Inv(s) && Enabled(s, ReadChannel(maxLen))
    ensures Inv(TakeChunk(s.(channel := s.channel[1..]), s.channel[0], maxLen))
  {
    TakeChunkOk(s.(channel := s.channel[1..]), s.channel[0], maxLen);
    ReadChannelFlow(s, maxLen);
  }

  /** Splitting the head of the queue between the read and the leftover keeps the order. */
  lemma Regroup(delivered: Bytes, sofar: Bytes, more: Bytes, rest: Bytes, held: Bytes, room: nat)
    requires room <= |more|
    ensures delivered + (sofar + more[..room]) + more[room..] + rest + held
         == delivered + sofar + [] + (more + rest) + held
  {
    assert more == more[..room] + more[room..];
  }

  lemma DrainFlow(s: State)
    requires Enabled(s, DrainMore) && s.leftover.None?
    ensures Flow(DoDrain(s)) == Flow(s)
  {
    var more, room := s.channel[0], s.reader.maxLen - |s.reader.sofar|;
    var cut := if |more| > room then room else |more|;
    Regroup(s.delivered, s.reader.sofar, more, Concat(s.channel[1..]), InForwarder(s.forwarder), cut);
    assert |more| <= room ==> more[..cut] == more && more[cut..] == [];
  }

  /** Nothing the forwarder's side depends on has changed. */
  lemma ForwarderSame(s: State, t: State)
    requires ForwarderOk(s) && t.frames == s.frames && t.pos == s.pos && t.total == s.total && t.maxBody == s.maxBody
    requires t.forwarder == s.forwarder && t.endsClean == s.endsClean && t.abandoned == s.abandoned && (s.dropped ==>
             t.dropped)
    ensures ForwarderOk(t) && Kept(t) == Kept(s)
  {
  }

  lemma DrainOk(s: State)
    requires ForwarderOk(s) && ReaderOk(s) && Enabled(s, DrainMore)
    ensures var t := DoDrain(s); ForwarderOk(t) && ReaderOk(t) && Kept(t) == Kept(s) && t.frames == s.frames
  {
    ForwarderSame(s, DoDrain(s));
  }

  lemma DrainKeeps(s: State)
    requires Inv(s) && Enabled(s, DrainMore)
    ensures Inv(DoDrain(s))
  {
    DrainOk(s);
    DrainFlow(s);
  }

  lemma ReturnKeeps(s: State)
    requires Inv(s) && Enabled(s, Return)
    ensures Inv(Apply(s, Return))
  {
    ForwarderSame(s, Apply(s, Return));
    assert Flow(Apply(s, Return)) == Flow(s);
  }

  /** Nothing the flow is made of has changed. */
  lemma FlowSame(s: State, t: State)
    requires t.delivered == s.delivered && t.reader == s.reader && t.leftover == s.leftover && t.channel == s.channel
    requires InForwarder(t.forwarder) == InForwarder(s.forwarder)
    ensures Flow(t) == Flow(s)
  {
  }

  /** The forwarder's steps that move no byte. */
  lemma ForwarderKeeps(s: State, a: Action)
    requires Inv(s) && Enabled(s, a) && (a.PullEnd? || a.Stall? || a.PushFails? || a.StoreFlag? || a.DropSender?)
    ensures Inv(Apply(s, a))
  {
    FlowSame(s, Apply(s, a));
  }

  /** The reader's. */
  lemma ReaderKeeps(s: State, a: Action)
    requires Inv(s) && Enabled(s, a) && (a.ReadEnd? || a.ReadInterrupted? || a.DropHandle?)
    ensures Inv(Apply(s, a))
  {
    FlowSame(s, Apply(s, a));
    ForwarderSame(s, Apply(s, a));
  }

  lemma StepKeepsInv(s: State, a: Action)
    requires Inv(s) && Enabled(s, a)
    ensures Inv(Apply(s, a))
  {
    match a {
      case Pull => PullKeeps(s);
      case Push => PushKeeps(s);
      case ReadLeftover(maxLen) => ReadLeftoverKeeps(s, maxLen);
      case ReadChannel(maxLen) => ReadChannelKeeps(s, maxLen);
      case DrainMore => DrainKeeps(s);
      case Return => ReturnKeeps(s);
      case ReadEnd => ReaderKeeps(s, a);
      case ReadInterrupted => ReaderKeeps(s, a);
      case DropHandle => ReaderKeeps(s, a);
      case _ => ForwarderKeeps(s, a);
    }
  }

  lemma {:induction false} RunKeepsInv(s: State, run: seq<Action>)
    requires Inv(s) && Legal(s, run)
    ensures Inv(Exec(s, run)) && Exec(s, run).frames == s.frames && Exec(s, run).maxBody == s.maxBody
    ensures Exec(s, run).endsClean == s.endsClean
    decreases |run|
  {
    if run != [] {
      StepKeepsInv(s, run[0]);
      StepKeepsClient(s, run[0]);
      RunKeepsInv(Apply(s, run[0]), run[1..]);
    }
  }

  lemma StepKeepsClient(s: State, a: Action)
    requires Enabled(s, a)
    ensures var t := Apply(s, a); t.frames == s.frames && t.maxBody == s.maxBody && t.endsClean == s.endsClean
  {
  }

  /** `s` is reached from the arrival of a body of these frames. */
  ghost predicate Reached(s: State, frames: seq<Frame>, endsClean: bool, maxBody: nat, run: seq<Action>) {
    Legal(Start(frames, endsClean, maxBody), run) && s == Exec(Start(frames, endsClean, maxBody), run)
  }

  lemma ReachedInv(s: State, frames: seq<Frame>, endsClean: bool, maxBody: nat, run: seq<Action>)
    requires Reached(s, frames, endsClean, maxBody, run)
    ensures Inv(s) && s.frames == frames && s.maxBody == maxBody && s.endsClean == endsClean
  {
    var start := Start(frames, endsClean, maxBody);
    assert Flow(start) == [];
    RunKeepsInv(start, run);
  }

  lemma {:induction false} TakenMonotone(frames: seq<Frame>, j: nat, k: nat)
    requires j <= k <= |frames|
    ensures Taken(frames, j) <= Taken(frames, k)
    decreases k
  {
    if j < k {
      TakenMonotone(frames, j, k - 1);
    }
  }

  /** There is one longest fitting prefix, and every fitting prefix is part of it. */
  lemma {:induction false} FitsInLongest(frames: seq<Frame>, maxBody: nat, j: nat, k: nat)
    requires Longest(frames, maxBody, k) && j <= |frames| && Fits(frames, maxBody, j)
    ensures Taken(frames, j) <= Taken(frames, k)
  {
    if j <= k {
      TakenMonotone(frames, j, k);
    } else {
      TakenMonotone(frames, k + 1, j);
      assert false;
    }
  }

  /** In every interleaving of forwarder and reader, whatever the framing: what was returned, what is
      left over and what is queued make up, in order, a prefix of whole frames within the limit; no read
      returns more than it was asked for. */
  lemma NothingLostOrReordered(s: State, frames: seq<Frame>, endsClean: bool, maxBody: nat, run: seq<Action>, k: nat)
    requires Reached(s, frames, endsClean, maxBody, run) && Longest(frames, maxBody, k)
    ensures Flow(s) <= Taken(frames, k) && s.delivered <= Taken(frames, k)
    ensures s.forwarder.AtEof? || Over(s) ==> Flow(s) == Taken(frames, k)
    ensures s.last.Chunk? ==> |s.last.bytes| <= s.last.maxLen
    ensures |s.channel| <= CHANNEL_DEPTH
  {
    ReachedInv(s, frames, endsClean, maxBody, run);
    FitsInLongest(frames, maxBody, Kept(s), k);
    DeliveredFirst(s);
    if s.forwarder.AtEof? || Over(s) {
      AllLetThrough(s, k);
    }
  }

  lemma DeliveredFirst(s: State)
    ensures s.delivered <= Flow(s)
  {
    var rest := InReader(s.reader) + Leftover(s.leftover) + Concat(s.channel) + InForwarder(s.forwarder);
    assert Flow(s) == s.delivered + rest;
  }

  /** At the end of the body, or once over the limit, the longest fitting prefix has been let through. */
  lemma AllLetThrough(s: State, k: nat)
    requires Inv(s) && (s.forwarder.AtEof? || Over(s)) && Longest(s.frames, s.maxBody, k)
    ensures Flow(s) == Taken(s.frames, k)
  {
    assert Longest(s.frames, s.maxBody, Kept(s));
    FitsInLongest(s.frames, s.maxBody, k, Kept(s));
    FitsInLongest(s.frames, s.maxBody, Kept(s), k);
  }

  /** What the end of a read means: nil only after every byte that arrived was delivered (the whole
      body, unless the transport failed); a body over the limit raises, with exactly the longest fitting
      prefix delivered; a stalled client raises. */
  lemma EndOfBody(s: State, frames: seq<Frame>, endsClean: bool, maxBody: nat, run: seq<Action>)
    requires Reached(s, frames, endsClean, maxBody, run) && Enabled(s, ReadEnd)
    ensures match Apply(s, ReadEnd).last
      case Nil => s.delivered == Body(frames) && Fits(frames, maxBody, |frames|) && (s.forwarder.AtEof? <==> endsClean)
      case TooLarge => maxBody > 0 && |Body(frames)| > maxBody && 0 <= Kept(s) <= |frames|
                       && Longest(frames, maxBody, Kept(s)) && s.delivered == Taken(frames, Kept(s))
      case ReadTimeout => s.pos <= |frames| && s.delivered == Taken(frames, s.pos) && Fits(frames, maxBody, s.pos)
      case _ => false
  {
    ReachedInv(s, frames, endsClean, maxBody, run);
    assert Flow(s) == s.delivered;
    if Over(s) {
      TakenMonotone(frames, s.pos, |frames|);
    }
  }

  /** What the app has been given is a prefix of the body. */
  lemma DeliveredPrefix(s: State, frames: seq<Frame>, endsClean: bool, maxBody: nat, run: seq<Action>)
    requires Reached(s, frames, endsClean, maxBody, run)
    ensures s.delivered <= Body(frames)
  {
    ReachedInv(s, frames, endsClean, maxBody, run);
    TakenMonotone(frames, Kept(s), |frames|);
  }

  /** The app sees the same bytes however the client framed them and however the tasks interleaved: at any two
      moments of any two runs over the same bytes one app has been given a prefix of what the other has, and at
      the end of the body both have all of it. */
  lemma FramingInvisible(s: State, sFrames: seq<Frame>, sClean: bool, sMax: nat, sRun: seq<Action>,
                         t: State, tFrames: seq<Frame>, tClean: bool, tMax: nat, tRun: seq<Action>)
    requires Reached(s, sFrames, sClean, sMax, sRun) && Reached(t, tFrames, tClean, tMax, tRun)
    requires Body(sFrames) == Body(tFrames)
    ensures s.delivered <= t.delivered || t.delivered <= s.delivered
    ensures Enabled(s, ReadEnd) && Apply(s, ReadEnd).last == Nil ==>
            s.delivered == Body(tFrames) && t.delivered <= s.delivered
    ensures Enabled(t, ReadEnd) && Apply(t, ReadEnd).last == Nil ==>
            t.delivered == Body(sFrames) && s.delivered <= t.delivered
  {
    DeliveredPrefix(s, sFrames, sClean, sMax, sRun);
    DeliveredPrefix(t, tFrames, tClean, tMax, tRun);
    if Enabled(s, ReadEnd) {
      EndOfBody(s, sFrames, sClean, sMax, sRun);
    }
    if Enabled(t, ReadEnd) {
      EndOfBody(t, tFrames, tClean, tMax, tRun);
    }
  }

  /** A transport error raises no flag: after the first frame of a cut-off upload the reader sees nil. */
  lemma CutOffReadsAsEof(frame: Bytes)
    ensures var start := Start([Data(frame)], false, 0);
      && Legal(start, [Pull, Push, PullEnd, ReadChannel(|frame|), Return, ReadEnd])
      && var s := Exec(start, [Pull, Push, PullEnd, ReadChannel(|frame|), Return, ReadEnd]);
         s.last == Nil && s.delivered == frame && s.abandoned == None
  {
    var run := [Pull, Push, PullEnd, ReadChannel(|frame|), Return, ReadEnd];
    var s0 := Start([Data(frame)], false, 0);
    var s1 := s0.(pos := 1, total := |frame|, forwarder := Sending(frame));
    var s2 := s1.(channel := [frame], forwarder := Pulling);
    var s3 := s2.(forwarder := AtError);
    var s6 := ReadsOneChunk(s3, frame);
    assert run[3..] == [ReadChannel(|frame|), Return, ReadEnd];
    Chain(s2, run[2..], s6);
    Chain(s1, run[1..], s6);
    Chain(s0, run, s6);
  }

  /** The reader's half: the one queued chunk, then the end. */
  lemma ReadsOneChunk(s: State, frame: Bytes) returns (end: State)
    requires s.reader.Idle? && !s.dropped && s.leftover.None? && s.channel == [frame] && s.delivered == []
    requires s.forwarder.AtError? && s.abandoned.None?
    ensures Legal(s, [ReadChannel(|frame|), Return, ReadEnd]) && end == Exec(s, [ReadChannel(|frame|), Return, ReadEnd])
    ensures end.last == Nil && end.delivered == frame && end.abandoned == None
  {
    var run := [ReadChannel(|frame|), Return, ReadEnd];
    var m := AtLeastOne(|frame|);
    var s1 := s.(channel := [], reader := Assembling(m, frame));
    var s2 := s1.(reader := Idle, delivered := frame, last := Chunk(frame, m));
    end := s2.(last := Nil);
    Chain(s2, run[2..], end);
    Chain(s1, run[1..], end);
    Chain(s, run, end);
  }

  lemma Chain(s: State, run: seq<Action>, end: State)
    requires run != [] && Enabled(s, run[0])
    requires Legal(Apply(s, run[0]), run[1..]) && Exec(Apply(s, run[0]), run[1..]) == end
    ensures Legal(s, run) && Exec(s, run) == end
  {
  }

  // ----- what each read returns

  /** A read that returned now: how much it was asked for and what it gave. */
  datatype Reply = Reply(asked: nat, bytes: Bytes)

  predicate Begins(a: Action) {
    a.ReadLeftover? || a.ReadChannel?
  }

  /** What the read under way, or begun by the action, was asked for. */
  function Asked(a: Action, before: nat): nat {
    if Begins(a) then a.maxLen else before
  }

  /** The reply the action brings to its end, if any. */
  function Replies(s: State, a: Action, asked: nat): seq<Reply>
    requires Enabled(s, a)
  {
    var t := Apply(s, a);
    if (Begins(a) || a.Return?) && t.reader.Idle? && t.last.Chunk? then [Reply(asked, t.last.bytes)] else []
  }

  /** What the reads of a run returned, in order; `asked` is the argument of the one under way at its start. */
  function Returns(s: State, run: seq<Action>, asked: nat): seq<Reply>
    requires Legal(s, run)
    decreases |run|
  {
    if run == [] then []
    else
      var n := Asked(run[0], asked);
      Replies(s, run[0], n) + Returns(Apply(s, run[0]), run[1..], n)
  }

  function AllBytes(replies: seq<Reply>): Bytes {
    if replies == [] then [] else replies[0].bytes + AllBytes(replies[1..])
  }

  /** Each has at most as many bytes as asked for, one if asked for none. */
  predicate WithinAsked(replies: seq<Reply>) {
    forall k :: 0 <= k < |replies| ==> |replies[k].bytes| <= if replies[k].asked == 0 then 1 else replies[k].asked
  }

  /** The read under way keeps to what it was asked for. */
  predicate Asks(s: State, asked: nat) {
    s.reader.Assembling? ==>
      s.reader.maxLen == (if asked == 0 then 1 else asked) && |s.reader.sofar| <= s.reader.maxLen
  }

  lemma StepAsks(s: State, a: Action, asked: nat)
    requires Enabled(s, a) && Asks(s, asked)
    ensures Asks(Apply(s, a), Asked(a, asked)) && WithinAsked(Replies(s, a, Asked(a, asked)))
  {
  }

  lemma StepDelivers(s: State, a: Action, asked: nat)
    requires Enabled(s, a)
    ensures Apply(s, a).delivered == s.delivered + AllBytes(Replies(s, a, asked))
  {
  }

  /** A read returns less than it was asked for only if there is nothing more to return at that moment. */
  lemma ShortMeansEmpty(s: State, a: Action, asked: nat)
    requires Inv(s) && Enabled(s, a) && Asks(s, asked) && Replies(s, a, Asked(a, asked)) != []
    ensures var t := Apply(s, a); var r := Replies(s, a, Asked(a, asked))[0];
      |r.bytes| < r.asked || r.bytes == [] ==> t.leftover.None? && t.channel == []
  {
  }

  lemma {:induction false} AllBytesOn(a: seq<Reply>, b: seq<Reply>)
    ensures AllBytes(a + b) == AllBytes(a) + AllBytes(b)
    ensures WithinAsked(a) && WithinAsked(b) ==> WithinAsked(a + b)
  {
    if a == [] {
      assert a + b == b;
    } else {
      assert (a + b)[1..] == a[1..] + b;
      AllBytesOn(a[1..], b);
    }
  }

  /** What the app has been given is what its reads returned, one after the other, and no read ever returned more
      than it was asked for. */
  lemma {:induction false} ReadsDeliver(s: State, run: seq<Action>, asked: nat)
    requires Legal(s, run) && Asks(s, asked)
    ensures Exec(s, run).delivered == s.delivered + AllBytes(Returns(s, run, asked))
    ensures WithinAsked(Returns(s, run, asked))
    decreases |run|
  {
    if run != [] {
      var n := Asked(run[0], asked);
      StepAsks(s, run[0], asked);
      StepDelivers(s, run[0], n);
      ReadsDeliver(Apply(s, run[0]), run[1..], n);
      AllBytesOn(Replies(s, run[0], n), Returns(Apply(s, run[0]), run[1..], n));
    }
  }

  // ----- a body within the limit can be read to its end

  /** Between two frames, with nothing under way. */
  predicate AtRest(s: State) {
    && s.forwarder.Pulling? && s.reader.Idle? && !s.dropped && s.leftover.None? && s.channel == [] && s.abandoned.None?
    && s.pos <= |s.frames| && s.total == |Taken(s.frames, s.pos)| && s.delivered == Taken(s.frames, s.pos)
  }

  /** One action before a run. */
  lemma Before(s: State, first: Action, rest: seq<Action>)
    requires Enabled(s, first) && Legal(Apply(s, first), rest)
    ensures Legal(s, [first] + rest) && Exec(s, [first] + rest) == Exec(Apply(s, first), rest)
  {
    assert ([first] + rest)[1..] == rest;
  }

  /** One frame through to the app. */
  lemma FrameThrough(s: State) returns (run: seq<Action>, t: State)
    requires AtRest(s) && s.pos < |s.frames| && Fits(s.frames, s.maxBody, s.pos + 1)
    ensures Legal(s, run) && t == Exec(s, run) && AtRest(t)
    ensures t.pos == s.pos + 1 && t.frames == s.frames && t.maxBody == s.maxBody && t.endsClean == s.endsClean
  {
    var s1 := Apply(s, Pull);
    if s.frames[s.pos].Trailers? {
      run, t := [Pull] + [], s1;
      Before(s, Pull, []);
    } else {
      var data := s.frames[s.pos].data;
      var s2 := Apply(s1, Push);
      var s3 := Apply(s2, ReadChannel(|data|));
      t := Apply(s3, Return);
      Before(s3, Return, []);
      Before(s2, ReadChannel(|data|), [Return] + []);
      Before(s1, Push, [ReadChannel(|data|)] + ([Return] + []));
      Before(s, Pull, [Push] + ([ReadChannel(|data|)] + ([Return] + [])));
      run := [Pull] + ([Push] + ([ReadChannel(|data|)] + ([Return] + [])));
    }
  }

  lemma {:induction false} Joined(s: State, first: seq<Action>, second: seq<Action>)
    requires Legal(s, first) && Legal(Exec(s, first), second)
    ensures Legal(s, first + second) && Exec(s, first + second) == Exec(Exec(s, first), second)
    decreases |first|
  {
    if first == [] {
      assert first + second == second;
    } else {
      assert (first + second)[1..] == first[1..] + second;
      Joined(Apply(s, first[0]), first[1..], second);
    }
  }

  lemma {:induction false} RestThrough(s: State) returns (run: seq<Action>)
    requires AtRest(s) && s.endsClean && Fits(s.frames, s.maxBody, |s.frames|)
    ensures Legal(s, run) && Exec(s, run).last == Nil && Exec(s, run).delivered == Body(s.frames)
    decreases |s.frames| - s.pos
  {
    if s.pos == |s.frames| {
      var s1 := Apply(s, PullEnd);
      Before(s1, ReadEnd, []);
      Before(s, PullEnd, [ReadEnd] + []);
      run := [PullEnd] + ([ReadEnd] + []);
    } else {
      TakenMonotone(s.frames, s.pos + 1, |s.frames|);
      var first, t := FrameThrough(s);
      var rest := RestThrough(t);
      Joined(s, first, rest);
      run := first + rest;
    }
  }

  /** Nothing in the pipe can keep a body within the limit from being read to its end. */
  lemma WholeBodyCanArrive(frames: seq<Frame>, maxBody: nat) returns (run: seq<Action>)
    requires Fits(frames, maxBody, |frames|)
    ensures Legal(Start(frames, true, maxBody), run)
    ensures var s := Exec(Start(frames, true, maxBody), run); s.last == Nil && s.delivered == Body(frames)
  {
    run := RestThrough(Start(frames, true, maxBody));
  }

  // ----- nil, and the end of the handle

  /** After a nil there is nothing more to come. */
  predicate NilOk(s: State) {
    s.last.Nil? ==>
      (s.forwarder.AtEof? || s.forwarder.AtError?) && s.channel == [] && s.leftover.None? && s.reader.Idle?
  }

  lemma NilStep(s: State, a: Action)
    requires Inv(s) && NilOk(s) && Enabled(s, a)
    ensures NilOk(Apply(s, a))
  {
  }

  lemma {:induction false} NilRun(s: State, run: seq<Action>)
    requires Inv(s) && NilOk(s) && Legal(s, run)
    ensures NilOk(Exec(s, run))
    decreases |run|
  {
    if run != [] {
      NilStep(s, run[0]);
      StepKeepsInv(s, run[0]);
      NilRun(Apply(s, run[0]), run[1..]);
    }
  }

  /** In every run: when the last thing a read answered is nil, every byte that arrived has been delivered, the body was
      within the limit, and it ended cleanly unless the transport failed. No interrupt,
          stall or oversize reads as nil. */
  lemma NilMeansDelivered(s: State, frames: seq<Frame>, endsClean: bool, maxBody: nat, run: seq<Action>)
    requires Reached(s, frames, endsClean, maxBody, run) && s.last.Nil?
    ensures s.delivered == Body(frames) && Fits(frames, maxBody, |frames|) && (s.forwarder.AtEof? <==> endsClean)
  {
    ReachedInv(s, frames, endsClean, maxBody, run);
    StartOk(frames, endsClean, maxBody);
    NilRun(Start(frames, endsClean, maxBody), run);
    assert Flow(s) == s.delivered;
  }

  lemma StartOk(frames: seq<Frame>, endsClean: bool, maxBody: nat)
    ensures Inv(Start(frames, endsClean, maxBody))
  {
  }

  /** Once the handle is dropped nothing more is read, and a forwarder with a frame in hand can give up. */
  lemma {:induction false} DroppedReadsNothing(s: State, run: seq<Action>)
    requires s.dropped && s.reader.Idle? && Legal(s, run)
    ensures Exec(s, run).dropped && Exec(s, run).delivered == s.delivered && Exec(s, run).reader.Idle?
    ensures Exec(s, run).forwarder.Sending? ==> Enabled(Exec(s, run), PushFails)
    decreases |run|
  {
    if run != [] {
      DroppedReadsNothing(Apply(s, run[0]), run[1..]);
    }
  }

  lemma DropHandleDrops(s: State, run: seq<Action>)
    requires Legal(s, [DropHandle] + run)
    ensures Exec(s, [DropHandle] + run).delivered == s.delivered
    ensures forall n: nat :: ReadLeftover(n) !in run && ReadChannel(n) !in run
  {
    assert ([DropHandle] + run)[1..] == run;
    DroppedReadsNothing(Apply(s, DropHandle), run);
    NoReads(Apply(s, DropHandle), run);
  }

  lemma {:induction false} NoReads(s: State, run: seq<Action>)
    requires s.dropped && s.reader.Idle? && Legal(s, run)
    ensures forall n: nat :: ReadLeftover(n) !in run && ReadChannel(n) !in run
    decreases |run|
  {
    if run != [] {
      NoReads(Apply(s, run[0]), run[1..]);
      assert run == [run[0]] + run[1..];
    }
  }
}
