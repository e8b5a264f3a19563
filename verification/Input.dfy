/** `read_body` as one uninterrupted call, and the rack.input objects built on top of it. */
module Input {
  import opened Options
  import opened BodyPipe

  const CHUNK_SIZE: nat := 65_536

  /** The first `n` bytes, or all if there are no more, and what follows them. */
  predicate Splits(all: Bytes, n: nat, first: Bytes, rest: Bytes) {
    var k := if n < |all| then n else |all|;
    first == all[..k] && rest == all[k..]
  }

  lemma SplitsAt(all: Bytes, n: nat, first: Bytes, rest: Bytes)
    requires all == first + rest && |first| <= n && (|first| < n ==> rest == [])
    ensures Splits(all, n, first, rest)
  {
  }

  /** The reading half of a request context: what the forwarder has queued, and how it ended. */
  class RequestCtx {
    var leftover: Option<Bytes>
    var channel: seq<Bytes>
    var closed: bool
    var abandoned: Option<Abandon>

    ghost function Pending(): Bytes
      reads this
    {
      Leftover(leftover) + Concat(channel)
    }

    /** `read_body` with nothing else moving. An open, empty channel is only left by an interrupt. */
    method ReadBody(maxLen: nat) returns (r: Result)
      modifies this`leftover, this`channel
      ensures r.Chunk? ==> Splits(old(Pending()), if maxLen == 0 then 1 else maxLen, r.bytes, Pending())
      ensures !r.Chunk? ==> old(leftover == None && channel == []) && leftover == None && channel == []
      ensures r.Chunk? || r == if !closed then Interrupted else if abandoned.None? then Nil
                               else if abandoned.value.Oversize? then TooLarge else ReadTimeout
    {
      ghost var all := Pending();
      var chunk := Front();
      if chunk.None? {
        if !closed {
          return Interrupted;
        }
        return match abandoned case None => Nil case Some(Oversize) => TooLarge case Some(TimedOut) => ReadTimeout;
      }
      var m := AtLeastOne(maxLen);
      var out := Fit(chunk.value, m);
      SplitsAt(all, m, out, Pending());
      return Chunk(out, m);
    }

    /** What a read begins with: the leftover of the last one, or the chunk at the head of the queue. */
    method Front() returns (chunk: Option<Bytes>)
      modifies this`leftover, this`channel
      ensures leftover == None && (chunk.Some? ==> chunk.value + Pending() == old(Pending()))
      ensures chunk.None? ==> old(leftover == None && channel == []) && channel == []
    {
      if leftover.Some? {
        chunk := leftover;
        leftover := None;
      } else if channel != [] {
        chunk := Some(channel[0]);
        channel := channel[1..];
      } else {
        chunk := None;
      }
    }

    /** An over-long chunk is split; a shorter one leaves room for more. */
    method Fit(chunk: Bytes, m: nat) returns (out: Bytes)
      requires leftover == None
      modifies this`leftover, this`channel
      ensures |out| <= m && out + Pending() == chunk + old(Pending())
      ensures |out| < m ==> leftover == None && channel == []
    {
      if |chunk| > m {
        leftover := Some(chunk[m..]);
        SplitHead([], chunk, Concat(channel), m);
        return chunk[..m];
      }
      out := Drain(chunk, m);
    }

    /** The greedy drain: whatever is already queued rides out in the same call. */
    method Drain(chunk: Bytes, m: nat) returns (out: Bytes)
      requires |chunk| <= m && leftover == None
      modifies this`leftover, this`channel
      ensures |out| <= m && out + Pending() == chunk + old(Pending())
      ensures |out| < m ==> leftover == None && channel == []
    {
      out := chunk;
      while |out| < m && channel != []
        invariant |out| <= m && (|out| < m ==> leftover == None)
        invariant out + Pending() == chunk + old(Pending())
        decreases |channel|
      {
        var more := channel[0];
        var cut := if |more| > m - |out| then m - |out| else |more|;
        SplitHead(out, more, Concat(channel[1..]), cut);
        channel := channel[1..];
        if cut < |more| {
          leftover := Some(more[cut..]);
        }
        assert Leftover(leftover) == more[cut..];
        out := out + more[..cut];
      }
    }
  }

  /** Cutting the head of the queue between the result and the leftover keeps the order. */
  lemma SplitHead(out: Bytes, more: Bytes, rest: Bytes, cut: nat)
    requires cut <= |more|
    ensures (out + more[..cut]) + (more[cut..] + rest) == out + ([] + (more + rest))
  {
    assert more == more[..cut] + more[cut..];
  }

  // ----- rack.input

  const NEWLINE: Byte := 10

  /** What one `read_body` call of the app's ractor yields: bytes (any number, also none) or an error. */
  datatype Pulled = Got(bytes: Bytes) | Failed

  /** What a call answers: a string, nil, an error; or the chunks it yielded. */
  datatype Out = Str(bytes: Bytes) | NilOut | Raised | TypeError | Yielded(chunks: seq<Bytes>)

  function PulledBytes(pulls: seq<Pulled>): Bytes {
    if pulls == [] then [] else (if pulls[0].Got? then pulls[0].bytes else []) + PulledBytes(pulls[1..])
  }

  /** The request handle: an arbitrary finite sequence of pulls, then nil for ever. */
  class Request {
    var pulls: seq<Pulled>

    method ReadBody(maxLen: nat) returns (chunk: Option<Pulled>)
      modifies this
      ensures old(pulls) == [] ==> chunk.None? && pulls == []
      ensures old(pulls) != [] ==> chunk == Some(old(pulls)[0]) && pulls == old(pulls)[1..]
    {
      if pulls == [] {
        return None;
      }
      chunk := Some(pulls[0]);
      pulls := pulls[1..];
    }
  }

  /** Length of the first line, newline included; everything when there is none. */
  function LineLength(rest: Bytes): (n: nat)
    ensures n <= |rest|
    ensures NEWLINE in rest <==> n > 0 && rest[n - 1] == NEWLINE
    ensures NEWLINE in rest ==> NEWLINE !in rest[..n - 1]
    ensures NEWLINE !in rest ==> n == |rest|
  {
    if rest == [] then 0
    else if rest[0] == NEWLINE then 1
    else
      assert rest == [rest[0]] + rest[1..];
      var n := LineLength(rest[1..]);
      assert n > 0 ==> rest[..n] == [rest[0]] + rest[1..][..n - 1];
      1 + n
  }

  /** Up to and including the first newline, or everything if there is none. */
  predicate FirstLine(line: Bytes, rest: Bytes) {
    && line != [] && NEWLINE !in line[..|line| - 1]
    && (line[|line| - 1] == NEWLINE || rest == [])
  }

  datatype Call = Read(length: Option<int>) | Gets | Each

  /** The chunks `each` yields: full ones, but for the last. */
  function ChunksOf(rest: Bytes): (chunks: seq<Bytes>)
    ensures Concat(chunks) == rest && (chunks == [] <==> rest == [])
    ensures forall i :: 0 <= i < |chunks| ==> 0 < |chunks[i]| <= CHUNK_SIZE
    ensures forall i :: 0 <= i < |chunks| - 1 ==> |chunks[i]| == CHUNK_SIZE
  {
    if rest == [] then []
    else
      var n := if |rest| < CHUNK_SIZE then |rest| else CHUNK_SIZE;
      var more := ChunksOf(rest[n..]);
      assert ([rest[..n]] + more)[1..] == more && rest[..n] + rest[n..] == rest;
      assert more != [] ==> n == CHUNK_SIZE;
      [rest[..n]] + more
  }

  /** How many bytes of the remaining body a call consumes when no pull fails. */
  function Consumes(rest: Bytes, call: Call): (n: nat)
    ensures n <= |rest|
  {
    match call
    case Read(None) => |rest|
    case Read(Some(n)) => if n < 0 then 0 else if n < |rest| then n else |rest|
    case Gets => LineLength(rest)
    case Each => |rest|
  }

  function Answer(rest: Bytes, call: Call): Out {
    var n := Consumes(rest, call);
    match call
    case Read(None) => Str(rest[..n])
    case Read(Some(k)) => if k < 0 then TypeError else if k > 0 && rest == [] then NilOut else Str(rest[..n])
    case Gets => if rest == [] then NilOut else Str(rest[..n])
    case Each => Yielded(ChunksOf(rest))
  }

  /** The bytes an answer gives to the app. */
  function Given(out: Out): Bytes {
    match out
    case Str(bytes) => bytes
    case Yielded(chunks) => Concat(chunks)
    case _ => []
  }

  lemma {:induction false} LineInPrefix(prefix: Bytes, more: Bytes)
    requires NEWLINE in prefix
    ensures LineLength(prefix + more) == LineLength(prefix)
  {
    if prefix[0] != NEWLINE {
      assert prefix == [prefix[0]] + prefix[1..];
      assert (prefix + more)[1..] == prefix[1..] + more;
      LineInPrefix(prefix[1..], more);
    }
  }

  /** What a caller of `gets` may rely on: the first line, and what follows it is left; nil only at the end. */
  predicate GetsRight(all: Bytes, r: Out, left: Bytes) {
    if all == [] then r == NilOut && left == []
    else r.Str? && FirstLine(r.bytes, left) && r.bytes + left == all
  }

  /** And of `read`: exactly as many bytes as asked for, or all there are; nil only at the end, when asked for some. */
  predicate ReadRight(all: Bytes, length: Option<int>, r: Out, left: Bytes) {
    match length
    case None => r == Str(all) && left == []
    case Some(n) =>
      if n < 0 then r == TypeError && left == all
      else if n > 0 && all == [] then r == NilOut && left == []
      else r.Str? && Splits(all, n, r.bytes, left)
  }

  lemma GetsAnswers(all: Bytes)
    ensures GetsRight(all, Answer(all, Call.Gets), all[Consumes(all, Call.Gets)..])
  {
    if all != [] {
      var n := LineLength(all);
      assert all[..n][..n - 1] == all[..n - 1];
      assert all[..n] + all[n..] == all;
    }
  }

  lemma ReadAnswers(all: Bytes, length: Option<int>)
    ensures ReadRight(all, length, Answer(all, Call.Read(length)), all[Consumes(all, Call.Read(length))..])
  {
  }

  lemma Shift(a: Bytes, b: Bytes, c: Bytes)
    ensures (a + b) + c == a + (b + c)
  {
  }

  class RackInput {
    const request: Request
    var buffer: Bytes
    var eof: bool

    constructor (request: Request)
      ensures this.request == request && buffer == [] && !eof
    {
      this.request := request;
      buffer := [];
      eof := false;
    }

    ghost predicate Valid()
      reads this, request
    {
      eof ==> request.pulls == []
    }

    /** The body bytes the app has not been given yet. */
    ghost function Rest(): Bytes
      reads this, request
    {
      buffer + PulledBytes(request.pulls)
    }

    method Pull() returns (raised: bool)
      requires Valid() && !eof
      modifies this`buffer, this`eof, request
      ensures Valid() && Rest() == old(Rest()) && old(buffer) <= buffer
      ensures |request.pulls| < |old(request.pulls)| || eof
      ensures eof ==> request.pulls == [] && !raised
      ensures raised ==> buffer == old(buffer)
    {
      var chunk := request.ReadBody(CHUNK_SIZE);
      match chunk {
        case None =>
          eof := true;
          return false;
        case Some(Failed) =>
          return true;
        case Some(Got(bytes)) =>
          buffer := buffer + bytes;
          return false;
      }
    }

    /** `fill`: pull until `length` bytes are buffered or the body ends. */
    method Fill(length: int) returns (raised: bool)
      requires Valid()
      modifies this`buffer, this`eof, request
      ensures Valid() && Rest() == old(Rest())
      ensures !raised ==> |buffer| >= length || (eof && request.pulls == [])
    {
      while |buffer| < length && !eof
        invariant Valid() && Rest() == old(Rest())
        decreases !eof, |request.pulls|
      {
        raised := Pull();
        if raised {
          return true;
        }
      }
      return false;
    }

    method FillAll() returns (raised: bool)
      requires Valid()
      modifies this`buffer, this`eof, request
      ensures Valid() && Rest() == old(Rest())
      ensures !raised ==> eof && buffer == old(Rest())
    {
      while !eof
        invariant Valid() && Rest() == old(Rest())
        decreases !eof, |request.pulls|
      {
        raised := Pull();
        if raised {
          return true;
        }
      }
      return false;
    }

    method FillUntilNewline() returns (raised: bool)
      requires Valid()
      modifies this`buffer, this`eof, request
      ensures Valid() && Rest() == old(Rest())
      ensures !raised ==> NEWLINE in buffer || (eof && request.pulls == [])
    {
      while NEWLINE !in buffer && !eof
        invariant Valid() && Rest() == old(Rest())
        decreases !eof, |request.pulls|
      {
        raised := Pull();
        if raised {
          return true;
        }
      }
      return false;
    }

    /** `read(length, target)`: the answer, and what a caller's buffer holds afterwards. */
    method Read(length: Option<int>) returns (r: Out, target: Bytes)
      requires Valid()
      modifies this`buffer, this`eof, request
      ensures Valid()
      ensures r.Raised? ==> Rest() == old(Rest())
      ensures !r.Raised? ==>
        r == Answer(old(Rest()), Call.Read(length)) && Rest() == old(Rest())[Consumes(old(Rest()), Call.Read(length))..]
      ensures target == if r.Str? then r.bytes else []
      ensures !r.Raised? ==> ReadRight(old(Rest()), length, r, Rest())
    {
      ReadAnswers(Rest(), length);
      target := [];
      if length.None? {
        var raised := FillAll();
        if raised {
          return Raised, target;
        }
        target := buffer;
        buffer := [];
        return Str(target), target;
      }
      var n := length.value;
      var raised := Fill(n);
      if raised {
        return Raised, target;
      }
      if buffer == [] && n > 0 {
        return NilOut, target;
      }
      if n < 0 {
        return TypeError, target;
      }
      var k := if n < |buffer| then n else |buffer|;
      target := buffer[..k];
      assert old(Rest()) == buffer + PulledBytes(request.pulls);
      assert target == old(Rest())[..k] && old(Rest())[k..] == buffer[k..] + PulledBytes(request.pulls);
      buffer := buffer[k..];
      return Str(target), target;
    }

    method Gets() returns (r: Out)
      requires Valid()
      modifies this`buffer, this`eof, request
      ensures Valid()
      ensures r.Raised? ==> Rest() == old(Rest())
      ensures !r.Raised? ==>
        r == Answer(old(Rest()), Call.Gets) && Rest() == old(Rest())[Consumes(old(Rest()), Call.Gets)..]
      ensures !r.Raised? ==> GetsRight(old(Rest()), r, Rest())
    {
      var raised := FillUntilNewline();
      if raised {
        return Raised;
      }
      if buffer == [] {
        GetsAnswers(old(Rest()));
        return NilOut;
      }
      var n := LineLength(buffer);
      if NEWLINE in buffer {
        LineInPrefix(buffer, PulledBytes(request.pulls));
      } else {
        assert buffer + PulledBytes(request.pulls) == buffer;
      }
      var line := buffer[..n];
      assert line == old(Rest())[..n] && old(Rest())[n..] == buffer[n..] + PulledBytes(request.pulls);
      GetsAnswers(old(Rest()));
      buffer := buffer[n..];
      return Str(line);
    }

    /** The next chunk of `each`: as much as there is, up to a full one. */
    method NextChunk() returns (r: Option<Bytes>, raised: bool)
      requires Valid()
      modifies this`buffer, this`eof, request
      ensures Valid()
      ensures Chunked(old(Rest()), r, raised, Rest())
    {
      ReadsFirstChunk(Rest());
      var out, _ := Read(Some(CHUNK_SIZE));
      if out.NilOut? || out.Raised? {
        return None, out.Raised?;
      }
      return Some(out.bytes), false;
    }

    /** `each`: the chunks yielded, in order; if a pull raised, the first of them, with the rest still to come. */
    method Each() returns (chunks: seq<Bytes>, raised: bool)
      requires Valid()
      modifies this`buffer, this`eof, request
      ensures Valid() && Yields(chunks, Rest(), ChunksOf(old(Rest())))
      ensures !raised ==> Yielded(chunks) == Answer(old(Rest()), Call.Each) && Rest() == []
    {
      chunks := [];
      ghost var all := ChunksOf(Rest());
      YieldsNone(Rest());
      var r;
      r, raised := NextChunk();
      ghost var rest := old(Rest());
      while r.Some?
        invariant Valid() && Yields(chunks, rest, all) && Chunked(rest, r, raised, Rest())
        decreases |Rest()|, r.Some?
      {
        YieldsOn(chunks, rest, all);
        chunks := chunks + [r.value];
        rest := Rest();
        r, raised := NextChunk();
      }
      YieldsAll(chunks, rest, all);
    }
  }

  function FirstChunk(rest: Bytes): nat {
    if |rest| < CHUNK_SIZE then |rest| else CHUNK_SIZE
  }

  lemma ReadsFirstChunk(rest: Bytes)
    ensures Consumes(rest, Call.Read(Some(CHUNK_SIZE))) == FirstChunk(rest)
    ensures Answer(rest, Call.Read(Some(CHUNK_SIZE))) == if rest == [] then NilOut else Str(rest[..FirstChunk(rest)])
  {
  }

  /** These chunks and then those of the rest make up all of them. */
  predicate Yields(chunks: seq<Bytes>, rest: Bytes, all: seq<Bytes>) {
    chunks + ChunksOf(rest) == all
  }

  /** The next chunk, if there is one and no pull raised, and what is left then. */
  predicate Chunked(rest: Bytes, r: Option<Bytes>, raised: bool, left: Bytes) {
    && (raised ==> r.None? && left == rest)
    && (!raised ==> r.Some? == (rest != []) && left == rest[FirstChunk(rest)..])
    && (r.Some? ==> r.value == rest[..FirstChunk(rest)])
  }

  lemma YieldsNone(rest: Bytes)
    ensures Yields([], rest, ChunksOf(rest))
  {
  }

  lemma YieldsAll(chunks: seq<Bytes>, rest: Bytes, all: seq<Bytes>)
    requires Yields(chunks, rest, all)
    ensures rest == [] ==> chunks == all
  {
  }

  lemma YieldsOn(chunks: seq<Bytes>, rest: Bytes, all: seq<Bytes>)
    requires Yields(chunks, rest, all) && rest != []
    ensures var n := FirstChunk(rest); 0 < n <= |rest| && Yields(chunks + [rest[..n]], rest[n..], all)
  {
  }

  // ----- any mix of calls

  function Produced(rest: Bytes, calls: seq<Call>): Bytes {
    if calls == [] then []
    else Given(Answer(rest, calls[0])) + Produced(rest[Consumes(rest, calls[0])..], calls[1..])
  }

  function LeftAfter(rest: Bytes, calls: seq<Call>): Bytes {
    if calls == [] then rest else LeftAfter(rest[Consumes(rest, calls[0])..], calls[1..])
  }

  lemma AnswerConserves(rest: Bytes, call: Call)
    ensures Given(Answer(rest, call)) + rest[Consumes(rest, call)..] == rest
  {
  }

  /** For every mix of `read(n)`, `read`, `gets` and `each`, what the app is given followed by what is left is
      the body: the results are a prefix of it. */
  lemma {:induction false} CallsConserve(rest: Bytes, calls: seq<Call>)
    ensures Produced(rest, calls) + LeftAfter(rest, calls) == rest
  {
    if calls != [] {
      var n := Consumes(rest, calls[0]);
      AnswerConserves(rest, calls[0]);
      CallsConserve(rest[n..], calls[1..]);
      Shift(Given(Answer(rest, calls[0])), Produced(rest[n..], calls[1..]), LeftAfter(rest[n..], calls[1..]));
    }
  }

  /** nil is EOF: the first time a call answers nil the app has been given the whole body. */
  lemma NilMeansAllRead(body: Bytes, calls: seq<Call>, last: Call)
    requires Answer(LeftAfter(body, calls), last) == NilOut
    ensures Produced(body, calls) == body
  {
    CallsConserve(body, calls);
  }

  // ----- NullInput

  /** `NullInput#read`, `#gets` and `#each`. */
  function NullAnswer(call: Call): Out {
    match call
    case Read(None) => Str([])
    case Read(Some(n)) => if n == 0 then Str([]) else NilOut
    case Gets => NilOut
    case Each => Yielded([])
  }

  /** The native layer swaps the two classes invisibly on an empty body: they answer alike exactly for
      the calls that do not pass a negative length. */
  lemma NullInputAgrees(call: Call)
    ensures Answer([], call) == NullAnswer(call) <==> !(call.Read? && call.length.Some? && call.length.value < 0)
    ensures Consumes([], call) == 0
  {
  }
}
