/**
 Reading lines off a connection (internal/server/connection.go:119-345,
 internal/server/lifecycle.go:181-197): a refillable buffer over a source that may split its data
 anywhere and may return data and an error together. The bulk line scanner is proved equal to the
 byte-at-a-time one, and both to a function of the source's events that does not see the splitting.
 */
module LineReader {
  import opened Wrappers

  newtype byte = x: int | 0 <= x < 256

  const NEWLINE: byte := 10

  datatype IOError = EOF | ClosedPipe | ShortBuffer | Other(id: int)

  /** One answer of the source: some bytes and possibly an error. */
  datatype Chunk = Chunk(data: seq<byte>, err: Option<IOError>)

  /** Everything the reader and its source hold. */
  datatype State = State(
    buf: seq<byte>,
    rpos: nat,
    wpos: nat,
    err: Option<IOError>,
    closed: bool,
    script: seq<Chunk>)

  predicate Fits(st: State) {
    st.rpos <= st.wpos <= |st.buf| && |st.buf| > 0
  }

  // ---- the source --------------------------------------------------------------------------

  /** The source's answer when it may give at most `cap` bytes: what does not fit comes next time. */
  function ReadFrom(script: seq<Chunk>, cap: nat): (r: (seq<byte>, Option<IOError>, seq<Chunk>))
    ensures |r.0| <= cap
  {
    if script == [] then ([], Some(EOF), [])
    else if |script[0].data| <= cap then (script[0].data, script[0].err, script[1..])
    else (script[0].data[..cap], None, [Chunk(script[0].data[cap..], script[0].err)] + script[1..])
  }

  // ---- one byte at a time ------------------------------------------------------------------

  /** Make sure a byte is buffered, or say why there is none. */
  function Refill(st: State): (r: (State, Option<IOError>))
    requires Fits(st)
    ensures Fits(r.0) && |r.0.buf| == |st.buf| && r.0.closed == st.closed
    ensures r.1.None? ==> r.0.rpos < r.0.wpos
  {
    if st.rpos < st.wpos then (st, None)
    else if st.err.Some? then (st.(err := None), st.err)
    else
      var (data, err, rest) := ReadFrom(st.script, |st.buf|);
      if data == [] then (st.(script := rest), if err.Some? then err else Some(EOF))
      else (st.(script := rest, buf := data + st.buf[|data|..], rpos := 0, wpos := |data|, err := err), None)
  }

  function NextByte(st: State): (r: (State, Result<byte, IOError>))
    requires Fits(st)
    ensures Fits(r.0) && r.0.closed == st.closed
  {
    if st.closed then (st, Err(ClosedPipe))
    else
      var (full, err) := Refill(st);
      if err.Some? then (full, Err(err.value))
      else (full.(rpos := full.rpos + 1), Ok(full.buf[full.rpos]))
  }

  datatype Line = Line(text: seq<byte>, err: Option<IOError>)

  /** Read on, having read `text`, through the byte `stop` but not beyond `limit` bytes in all. */
  function RestOfLine(st: State, stop: byte, limit: nat, text: seq<byte>): (r: (State, Line))
    requires Fits(st)
    ensures Fits(r.0)
    decreases limit - |text|
  {
    if |text| >= limit then (st, Line(text, Some(ShortBuffer)))
    else
      var (next, b) := NextByte(st);
      match b
      case Err(e) => (next, Line(text, Some(e)))
      case Ok(b) => if b == stop then (next, Line(text + [b], None)) else RestOfLine(next, stop, limit, text + [b])
  }

  lemma NextBuffered(st: State)
    requires Fits(st) && !st.closed && st.rpos < st.wpos
    ensures NextByte(st) == (st.(rpos := st.rpos + 1), Ok(st.buf[st.rpos]))
  {
  }

  /** A whole buffered run without the stop byte may be taken at once. */
  lemma {:induction false} TakeRun(st: State, stop: byte, limit: nat, text: seq<byte>, k: nat)
    requires Fits(st) && !st.closed && st.rpos + k <= st.wpos && |text| + k <= limit
    requires stop !in st.buf[st.rpos..st.rpos + k]
    ensures RestOfLine(st, stop, limit, text) ==
            RestOfLine(st.(rpos := st.rpos + k), stop, limit, text + st.buf[st.rpos..st.rpos + k])
    decreases k
  {
    if k == 0 {
      assert text + st.buf[st.rpos..st.rpos + k] == text;
    } else {
      var run, first := st.buf[st.rpos..st.rpos + k], st.buf[st.rpos];
      assert run[0] == first && run[1..] == st.buf[st.rpos + 1..st.rpos + k];
      var next := st.(rpos := st.rpos + 1);
      NextBuffered(st);
      hide NextByte;
      TakeRun(next, stop, limit, text + [first], k - 1);
      assert text + [first] + run[1..] == text + run;
    }
  }

  // ---- events ------------------------------------------------------------------------------

  /** What the reader meets, however the source splits it. After the last event comes EOF for ever. */
  datatype Event = Got(b: byte) | Failed(e: IOError)

  function Bytes(s: seq<byte>): (r: seq<Event>)
    ensures |r| == |s| && forall i | 0 <= i < |s| :: r[i] == Got(s[i])
  {
    seq(|s|, i requires 0 <= i < |s| => Got(s[i]))
  }

  function Failure(err: Option<IOError>): seq<Event> {
    if err.Some? then [Failed(err.value)] else []
  }

  /** An empty answer without an error reads as EOF. */
  function ChunkEvents(c: Chunk): seq<Event> {
    if c.data == [] then [Failed(if c.err.Some? then c.err.value else EOF)] else Bytes(c.data) + Failure(c.err)
  }

  function ScriptEvents(script: seq<Chunk>): seq<Event> {
    if script == [] then [] else ChunkEvents(script[0]) + ScriptEvents(script[1..])
  }

  function Events(st: State): seq<Event>
    requires Fits(st)
  {
    Bytes(st.buf[st.rpos..st.wpos]) + Failure(st.err) + ScriptEvents(st.script)
  }

  /** The next event of a list, and what is left. */
  function NextEvent(events: seq<Event>): (seq<Event>, Result<byte, IOError>) {
    if events == [] then ([], Err(EOF))
    else (events[1..], match events[0] case Got(b) => Ok(b) case Failed(e) => Err(e))
  }

  lemma BytesSplit(s: seq<byte>, k: nat)
    requires k <= |s|
    ensures Bytes(s) == Bytes(s[..k]) + Bytes(s[k..])
  {
  }

  lemma JoinAgain(a: seq<Event>, b: seq<Event>, c: seq<Event>, d: seq<Event>)
    ensures ((a + b) + c) + d == (a + []) + ((b + c) + d)
    ensures ((a + b) + c) + d == a + ((b + c) + d)
  {
  }

  lemma ReadFromEvents(script: seq<Chunk>, cap: nat)
    requires cap > 0 && script != []
    ensures var (data, err, rest) := ReadFrom(script, cap);
      ScriptEvents(script) == (if data == [] then [Failed(if err.Some? then err.value else EOF)]
                               else Bytes(data) + Failure(err)) + ScriptEvents(rest)
  {
    var c := script[0];
    if |c.data| > cap {
      var (data, err, rest) := ReadFrom(script, cap);
      BytesSplit(c.data, cap);
      assert rest == [Chunk(c.data[cap..], c.err)] + script[1..] && rest[1..] == script[1..];
      hide Bytes, Failure;
      JoinAgain(Bytes(data), Bytes(c.data[cap..]), Failure(c.err), ScriptEvents(script[1..]));
    }
  }

  /** Filling the buffer moves no event, unless there is only a failure to report. */
  lemma RefillEvents(st: State)
    requires Fits(st)
    ensures var (full, err) := Refill(st);
      if err.None? then Events(full) == Events(st)
      else NextEvent(Events(st)) == (Events(full), Err(err.value))
  {
    if st.rpos == st.wpos {
      assert Bytes(st.buf[st.rpos..st.wpos]) == [];
      if st.err.Some? {
        assert Events(st) == [Failed(st.err.value)] + ScriptEvents(st.script);
        assert Events(st.(err := None)) == ScriptEvents(st.script);
      } else {
        assert Events(st) == ScriptEvents(st.script);
        var (data, err, rest) := ReadFrom(st.script, |st.buf|);
        if st.script != [] {
          ReadFromEvents(st.script, |st.buf|);
        }
        if data == [] {
          assert Events(st.(script := rest)) == ScriptEvents(rest);
        } else {
          var full := Refill(st).0;
          assert full.buf[0..|data|] == data;
        }
      }
    }
  }

  lemma NextByteIsNextEvent(st: State)
    requires Fits(st) && !st.closed
    ensures NextEvent(Events(st)) == (Events(NextByte(st).0), NextByte(st).1)
  {
    RefillEvents(st);
    var (full, err) := Refill(st);
    if err.None? {
      var b := full.buf[full.rpos];
      var after := full.(rpos := full.rpos + 1);
      BytesSplit(full.buf[full.rpos..full.wpos], 1);
      assert full.buf[full.rpos..full.wpos][1..] == after.buf[after.rpos..after.wpos];
      assert Bytes(full.buf[full.rpos..full.wpos][..1]) == [Got(b)];
      hide Bytes, Failure, Refill, ScriptEvents;
      JoinAgain([Got(b)], Bytes(after.buf[after.rpos..after.wpos]), Failure(full.err), ScriptEvents(full.script));
    }
  }

  /** The line a list of events holds, and the events left. */
  function LineOf(events: seq<Event>, stop: byte, limit: nat, text: seq<byte>): (seq<Event>, Line)
    decreases limit - |text|
  {
    if |text| >= limit then (events, Line(text, Some(ShortBuffer)))
    else
      var (rest, b) := NextEvent(events);
      match b
      case Err(e) => (rest, Line(text, Some(e)))
      case Ok(b) => if b == stop then (rest, Line(text + [b], None)) else LineOf(rest, stop, limit, text + [b])
  }

  /** The reader sees the events and nothing else of the buffer, the chunks, and where errors are attached. */
  lemma {:induction false} LineSeesOnlyEvents(st: State, stop: byte, limit: nat, text: seq<byte>)
    requires Fits(st) && !st.closed
    ensures var (after, line) := RestOfLine(st, stop, limit, text);
      (Events(after), line) == LineOf(Events(st), stop, limit, text)
    decreases limit - |text|
  {
    hide Events, NextByte;
    if |text| < limit {
      NextByteIsNextEvent(st);
      var (next, b) := NextByte(st);
      if b.Ok? && b.value != stop {
        LineSeesOnlyEvents(next, stop, limit, text + [b.value]);
      }
    }
  }

  /**
   What a line is. Its text is the bytes met first, in order; at most `limit` of them are consumed;
   the stop byte ends it and stands nowhere else; it ends early only for the limit or at a failure,
   which is consumed with it.
   */
  ghost predicate IsLineOf(events: seq<Event>, stop: byte, limit: nat, rest: seq<Event>, line: Line) {
    var n := |line.text|;
    && n <= limit && n <= |events|
    && events[..n] == Bytes(line.text)
    && (line.err == None ==> n > 0 && line.text[n - 1] == stop && stop !in line.text[..n - 1] && rest == events[n..])
    && (line.err != None ==> stop !in line.text)
    && (line.err != None && n < limit ==> (rest, Err(line.err.value)) == NextEvent(events[n..]))
    && (line.err != None && n == limit ==> line.err == Some(ShortBuffer) && rest == events[n..])
  }

  lemma {:induction false} LineIsCorrect(events: seq<Event>, stop: byte, limit: nat, text: seq<byte>, at: nat)
    requires |text| == at <= |events| && at <= limit && events[..at] == Bytes(text) && stop !in text
    ensures var (rest, line) := LineOf(events[at..], stop, limit, text);
      IsLineOf(events, stop, limit, rest, line)
    decreases limit - at
  {
    if at < limit && at < |events| && events[at].Got? {
      var more := text + [events[at].b];
      assert events[..at + 1] == Bytes(more) by {
        assert forall i | 0 <= i < at :: events[i] == events[..at][i];
      }
      assert events[at..][1..] == events[at + 1..];
      if events[at].b == stop {
        assert more[..at] == text;
      } else {
        LineIsCorrect(events, stop, limit, more, at + 1);
      }
    }
  }

  // ---- the operations ----------------------------------------------------------------------

  /** readBoundedLineBytes: the limit is checked first. */
  function BytewiseLine(st: State, limit: int): (State, Line)
    requires Fits(st)
  {
    if limit <= 0 then (st, Line([], Some(ShortBuffer))) else RestOfLine(st, NEWLINE, limit, [])
  }

  /** How much of the buffered data belongs to the line: through the stop byte, or all of it. */
  function Segment(buffered: seq<byte>, stop: byte): (k: nat)
    requires buffered != []
    ensures 0 < k <= |buffered| && stop !in buffered[..k - 1]
    ensures buffered[k - 1] == stop || (k == |buffered| && stop !in buffered)
  {
    if buffered[0] == stop || |buffered| == 1 then 1 else 1 + Segment(buffered[1..], stop)
  }

  /** The bulk scan: refill, take a whole segment or what the limit leaves of it, and go on. */
  function BulkRest(st: State, stop: byte, limit: nat, text: seq<byte>): (State, Line)
    requires Fits(st) && |text| < limit
    decreases limit - |text|
  {
    var (full, err) := Refill(st);
    if err.Some? then (full, Line(text, err))
    else
      var buffered := full.buf[full.rpos..full.wpos];
      var k, remaining := Segment(buffered, stop), limit - |text|;
      if k > remaining then
        (full.(rpos := full.rpos + remaining), Line(text + buffered[..remaining], Some(ShortBuffer)))
      else
        var after, more := full.(rpos := full.rpos + k), text + buffered[..k];
        if k < |buffered| || buffered[k - 1] == stop then (after, Line(more, None))
        else if |more| == limit then (after, Line(more, Some(ShortBuffer)))
        else BulkRest(after, stop, limit, more)
  }

  /** ReadBoundedLine: a closed buffer is noticed first. */
  function BulkLine(st: State, limit: int): (State, Line)
    requires Fits(st)
  {
    if st.closed then (st, Line([], Some(ClosedPipe)))
    else if limit <= 0 then (st, Line([], Some(ShortBuffer)))
    else BulkRest(st, NEWLINE, limit, [])
  }

  /** Reading on may begin by filling the buffer. */
  lemma FillFirst(st: State, stop: byte, limit: nat, text: seq<byte>)
    requires Fits(st) && !st.closed && |text| < limit
    ensures var (full, err) := Refill(st);
      if err.Some? then RestOfLine(st, stop, limit, text) == (full, Line(text, err))
      else RestOfLine(st, stop, limit, text) == RestOfLine(full, stop, limit, text)
  {
  }

  lemma TakeOne(st: State, stop: byte, limit: nat, text: seq<byte>)
    requires Fits(st) && !st.closed && st.rpos < st.wpos && |text| < limit
    ensures var after, more := st.(rpos := st.rpos + 1), text + [st.buf[st.rpos]];
      if st.buf[st.rpos] == stop then RestOfLine(st, stop, limit, text) == (after, Line(more, None))
      else RestOfLine(st, stop, limit, text) == RestOfLine(after, stop, limit, more)
  {
  }

  /** Taking a segment that ends with the stop byte ends the line; one without it is just read past. */
  lemma TakeSegment(st: State, stop: byte, limit: nat, text: seq<byte>, k: nat)
    requires Fits(st) && !st.closed && 0 < k <= st.wpos - st.rpos && |text| + k <= limit
    requires stop !in st.buf[st.rpos..st.rpos + k - 1]
    ensures var after, more := st.(rpos := st.rpos + k), text + st.buf[st.rpos..st.rpos + k];
      if st.buf[st.rpos + k - 1] == stop then RestOfLine(st, stop, limit, text) == (after, Line(more, None))
      else RestOfLine(st, stop, limit, text) == RestOfLine(after, stop, limit, more)
  {
    hide RestOfLine;
    TakeRun(st, stop, limit, text, k - 1);
    TakeOne(st.(rpos := st.rpos + k - 1), stop, limit, text + st.buf[st.rpos..st.rpos + k - 1]);
    var last := st.(rpos := st.rpos + k - 1);
    assert st.buf[st.rpos..st.rpos + k] == st.buf[st.rpos..st.rpos + k - 1] + [st.buf[st.rpos + k - 1]];
    assert text + st.buf[st.rpos..st.rpos + k - 1] + [st.buf[st.rpos + k - 1]] == text + st.buf[st.rpos..st.rpos + k];
  }

  lemma AtLimit(st: State, stop: byte, limit: nat, text: seq<byte>)
    requires Fits(st) && |text| == limit
    ensures RestOfLine(st, stop, limit, text) == (st, Line(text, Some(ShortBuffer)))
  {
  }

  /** A segment too long for the limit is cut, and the line ends there. */
  lemma TakeToLimit(st: State, stop: byte, limit: nat, text: seq<byte>, k: nat)
    requires Fits(st) && !st.closed && |text| <= limit < |text| + k && st.rpos + k <= st.wpos
    requires stop !in st.buf[st.rpos..st.rpos + k - 1]
    ensures var n := limit - |text|;
      RestOfLine(st, stop, limit, text) ==
      (st.(rpos := st.rpos + n), Line(text + st.buf[st.rpos..st.rpos + n], Some(ShortBuffer)))
  {
    var n := limit - |text|;
    assert st.buf[st.rpos..st.rpos + n] == st.buf[st.rpos..st.rpos + k - 1][..n];
    TakeRun(st, stop, limit, text, n);
    AtLimit(st.(rpos := st.rpos + n), stop, limit, text + st.buf[st.rpos..st.rpos + n]);
  }

  /** Scanning in segments is reading byte by byte. */
  lemma {:induction false} SegmentsAreBytes(st: State, stop: byte, limit: nat, text: seq<byte>)
    requires Fits(st) && !st.closed && |text| < limit
    ensures BulkRest(st, stop, limit, text) == RestOfLine(st, stop, limit, text)
    decreases limit - |text|
  {
    hide RestOfLine, Refill;
    FillFirst(st, stop, limit, text);
    var (full, err) := Refill(st);
    if err.None? {
      var buffered := full.buf[full.rpos..full.wpos];
      var k, remaining := Segment(buffered, stop), limit - |text|;
      assert full.buf[full.rpos..full.rpos + k - 1] == buffered[..k - 1];
      assert full.buf[full.rpos..full.rpos + k] == buffered[..k];
      if k > remaining {
        assert full.buf[full.rpos..full.rpos + remaining] == buffered[..remaining];
        TakeToLimit(full, stop, limit, text, k);
      } else {
        TakeSegment(full, stop, limit, text, k);
        var after, more := full.(rpos := full.rpos + k), text + buffered[..k];
        if buffered[k - 1] != stop {
          if |more| == limit {
            AtLimit(after, stop, limit, more);
          } else {
            SegmentsAreBytes(after, stop, limit, more);
          }
        }
      }
    }
  }

  /** The two readers agree, in line, error and all they leave behind, except on a closed buffer with no room. */
  lemma BulkIsBytewise(st: State, limit: int)
    requires Fits(st)
    ensures BulkLine(st, limit) == BytewiseLine(st, limit) <==> !(st.closed && limit <= 0)
  {
    if !st.closed && limit > 0 {
      SegmentsAreBytes(st, NEWLINE, limit, []);
    } else if st.closed && limit > 0 {
      ClosedReadsNothing(st, limit);
    }
  }

  lemma ClosedReadsNothing(st: State, limit: nat)
    requires Fits(st) && st.closed && limit > 0
    ensures RestOfLine(st, NEWLINE, limit, []) == (st, Line([], Some(ClosedPipe)))
  {
  }

  /** The bulk reader returns the line of the source's events, whatever the chunks and the buffer size. */
  lemma BulkLineIsLineOfEvents(st: State, limit: int)
    requires Fits(st) && !st.closed && limit > 0
    ensures Fits(BulkLine(st, limit).0)
    ensures var (after, line) := BulkLine(st, limit); IsLineOf(Events(st), 10, limit, Events(after), line)
  {
    hide BulkRest, RestOfLine, Events, IsLineOf;
    SegmentsAreBytes(st, NEWLINE, limit, []);
    LineSeesOnlyEvents(st, NEWLINE, limit, []);
    LineIsCorrect(Events(st), NEWLINE, limit, [], 0);
    assert Events(st)[0..] == Events(st);
  }

  /** A source that splits its data differently gives the same lines. */
  lemma SplittingDoesNotMatter(st1: State, st2: State, limit: int)
    requires Fits(st1) && Fits(st2) && st1.closed == st2.closed && Events(st1) == Events(st2)
    ensures BulkLine(st1, limit).1 == BulkLine(st2, limit).1
    ensures Fits(BulkLine(st1, limit).0) && Fits(BulkLine(st2, limit).0)
    ensures Events(BulkLine(st1, limit).0) == Events(BulkLine(st2, limit).0)
  {
    if !st1.closed && limit > 0 {
      hide BulkRest, RestOfLine, Events;
      SegmentsAreBytes(st1, NEWLINE, limit, []);
      SegmentsAreBytes(st2, NEWLINE, limit, []);
      LineSeesOnlyEvents(st1, NEWLINE, limit, []);
      LineSeesOnlyEvents(st2, NEWLINE, limit, []);
    }
  }

  // ---- the buffer on the heap --------------------------------------------------------------

  /** The connection: it answers each read from its script. */
  class Source {
    var script: seq<Chunk>

    method Read(p: array<byte>) returns (n: nat, err: Option<IOError>)
      modifies this, p
      ensures n <= p.Length
      ensures (p[..n], err, script) == ReadFrom(old(script), p.Length)
      ensures p[n..] == old(p[n..])
    {
      if script == [] {
        return 0, Some(EOF);
      }
      var c := script[0];
      n := if |c.data| <= p.Length then |c.data| else p.Length;
      forall i | 0 <= i < n { p[i] := c.data[i]; }
      if |c.data| <= p.Length {
        script, err := script[1..], c.err;
        assert p[..n] == c.data;
      } else {
        script, err := [Chunk(c.data[n..], c.err)] + script[1..], None;
        assert p[..n] == c.data[..n];
      }
    }
  }

  class PooledBuffer {
    const rw: Source
    const buf: array<byte>
    var rpos: nat
    var wpos: nat
    var err: Option<IOError>
    var closed: bool

    ghost predicate Valid()
      reads `rpos, `wpos
    {
      rpos <= wpos <= buf.Length && buf.Length > 0
    }

    ghost function Model(): (st: State)
      reads this, rw, buf
    {
      State(buf[..], rpos, wpos, err, closed, rw.script)
    }

    constructor (rw: Source, size: nat)
      requires size > 0
      ensures Valid() && fresh(buf) && this.rw == rw
      ensures Model() == State(buf[..], 0, 0, None, false, rw.script)
      ensures Events(Model()) == ScriptEvents(rw.script)
    {
      this.rw, buf := rw, new byte[size];
      rpos, wpos, err, closed := 0, 0, None, false;
    }

    /** The refill step every reader starts with. */
    method Fill() returns (failure: Option<IOError>)
      requires Valid()
      modifies `rpos, `wpos, `err, rw, buf
      ensures Valid() && (Model(), failure) == Refill(old(Model()))
    {
      failure := None;
      if rpos >= wpos {
        if err != None {
          failure := err;
          err := None;
          return;
        }
        ghost var was := buf[..];
        var n, e := rw.Read(buf);
        assert buf[..] == buf[..n] + buf[n..] && buf[n..] == was[n..];
        if n > 0 {
          wpos, rpos := n, 0;
        }
        if e != None {
          if n == 0 {
            return e;
          }
          err := e;
        } else if n == 0 {
          return Some(EOF);
        }
      }
    }

    method ReadByte() returns (b: Result<byte, IOError>)
      requires Valid()
      modifies `rpos, `wpos, `err, rw, buf
      ensures Valid() && (Model(), b) == NextByte(old(Model()))
    {
      if closed {
        return Err(ClosedPipe);
      }
      var failure := Fill();
      if failure != None {
        return Err(failure.value);
      }
      b := Ok(buf[rpos]);
      rpos := rpos + 1;
    }

    /** How much of the buffered data to take: through the stop byte if it is there. */
    method SegmentLength(stop: byte) returns (k: nat)
      requires Valid() && rpos < wpos
      ensures 0 < k <= wpos - rpos && stop !in buf[rpos..rpos + k - 1]
      ensures buf[rpos + k - 1] == stop || (k == wpos - rpos && stop !in buf[rpos..rpos + k])
    {
      k := 0;
      while k < wpos - rpos
        invariant k <= wpos - rpos && stop !in buf[rpos..rpos + k]
      {
        assert buf[rpos..rpos + k + 1] == buf[rpos..rpos + k] + [buf[rpos + k]];
        k := k + 1;
        if buf[rpos + k - 1] == stop {
          return;
        }
      }
    }

    /** One turn of the bulk reader's loop, after the refill: take what is buffered of the line. */
    method TakeBuffered(limit: nat, text: seq<byte>) returns (more: seq<byte>, err: Option<IOError>, ended: bool)
      requires Valid() && !closed && rpos < wpos && |text| < limit
      modifies `rpos
      ensures Valid()
      ensures ended ==> RestOfLine(old(Model()), NEWLINE, limit, text) == (Model(), Line(more, err))
      ensures !ended ==> |text| < |more| < limit
      ensures !ended ==> RestOfLine(old(Model()), NEWLINE, limit, text) == RestOfLine(Model(), NEWLINE, limit, more)
    {
      hide RestOfLine;
      ghost var full := Model();
      var k := SegmentLength(NEWLINE);
      var remaining := limit - |text|;
      assert full.buf[full.rpos..full.rpos + k] == buf[rpos..rpos + k];
      assert full.buf[full.rpos..full.rpos + k - 1] == buf[rpos..rpos + k - 1];
      if k > remaining {
        TakeToLimit(full, NEWLINE, limit, text, k);
        assert full.buf[full.rpos..full.rpos + remaining] == buf[rpos..rpos + remaining];
        more := text + buf[rpos..rpos + remaining];
        rpos := rpos + remaining;
        return more, Some(ShortBuffer), true;
      }
      TakeSegment(full, NEWLINE, limit, text, k);
      more := text + buf[rpos..rpos + k];
      ended := k < wpos - rpos || buf[rpos + k - 1] == NEWLINE;
      rpos := rpos + k;
      if ended {
        return more, None, true;
      }
      if |more| == limit {
        AtLimit(Model(), NEWLINE, limit, more);
        return more, Some(ShortBuffer), true;
      }
      err := None;
    }

    /** The bulk reader. */
    method ReadBoundedLine(limit: int) returns (line: Line)
      requires Valid()
      modifies `rpos, `wpos, `err, rw, buf
      ensures Valid() && (Model(), line) == BulkLine(old(Model()), limit)
    {
      if closed {
        return Line([], Some(ClosedPipe));
      }
      if limit <= 0 {
        return Line([], Some(ShortBuffer));
      }
      SegmentsAreBytes(Model(), NEWLINE, limit, []);
      hide RestOfLine, BulkRest;
      var text: seq<byte> := [];
      while true
        invariant Valid() && !closed && |text| < limit
        invariant RestOfLine(Model(), NEWLINE, limit, text) == BulkLine(old(Model()), limit)
        decreases limit - |text|
      {
        FillFirst(Model(), NEWLINE, limit, text);
        var failure := Fill();
        if failure != None {
          return Line(text, failure);
        }
        var more, e, ended := TakeBuffered(limit, text);
        if ended {
          return Line(more, e);
        }
        text := more;
      }
    }

    /** One turn of the loop of the reader without a limit. */
    method TakeUnbounded(delim: byte, ghost limit: nat, text: seq<byte>) returns (more: seq<byte>, ended: bool)
      requires Valid() && !closed && rpos < wpos && |text| + |Events(Model())| < limit
      modifies `rpos
      ensures Valid() && |more| + |Events(Model())| < limit && |Events(Model())| < old(|Events(Model())|)
      ensures RestOfLine(old(Model()), delim, limit, text) ==
              if ended then (Model(), Line(more, None)) else RestOfLine(Model(), delim, limit, more)
    {
      hide RestOfLine, Events;
      ghost var full := Model();
      var k := SegmentLength(delim);
      BufferedAreEvents(full, k);
      assert full.buf[full.rpos..full.rpos + k] == buf[rpos..rpos + k];
      assert full.buf[full.rpos..full.rpos + k - 1] == buf[rpos..rpos + k - 1];
      TakeSegment(full, delim, limit, text, k);
      more := text + buf[rpos..rpos + k];
      rpos := rpos + k;
      ended := buf[rpos - 1] == delim;
    }

    /** The reader without a limit: it reads as with any limit larger than what there is to read. */
    method ReadBytes(delim: byte) returns (line: Line)
      requires Valid()
      modifies `rpos, `wpos, `err, rw, buf
      ensures Valid()
      ensures (Model(), line) ==
        if old(closed) then (old(Model()), Line([], Some(ClosedPipe)))
        else RestOfLine(old(Model()), delim, old(|Events(Model())|) + 1, [])
    {
      if closed {
        return Line([], Some(ClosedPipe));
      }
      hide RestOfLine, Events;
      ghost var limit := |Events(Model())| + 1;
      var text: seq<byte> := [];
      while true
        invariant Valid() && !closed && |text| + |Events(Model())| < limit
        invariant RestOfLine(Model(), delim, limit, text) == RestOfLine(old(Model()), delim, limit, [])
        decreases |Events(Model())|
      {
        FillFirst(Model(), delim, limit, text);
        RefillEvents(Model());
        var failure := Fill();
        if failure != None {
          return Line(text, failure);
        }
        var more, ended := TakeUnbounded(delim, limit, text);
        if ended {
          return Line(more, None);
        }
        text := more;
      }
    }
  }

  lemma BufferedAreEvents(st: State, k: nat)
    requires Fits(st) && k <= st.wpos - st.rpos
    ensures |Events(st)| == k + |Events(st.(rpos := st.rpos + k))|
  {
    hide Failure, ScriptEvents;
  }

  /** The byte-at-a-time reader. */
  method ReadBoundedLineBytes(reader: PooledBuffer, limit: int) returns (line: Line)
    requires reader.Valid()
    modifies reader, reader.rw, reader.buf
    ensures reader.Valid() && (reader.Model(), line) == BytewiseLine(old(reader.Model()), limit)
  {
    if limit <= 0 {
      return Line([], Some(ShortBuffer));
    }
    var text: seq<byte> := [];
    while |text| < limit
      invariant reader.Valid() && |text| <= limit
      invariant RestOfLine(reader.Model(), NEWLINE, limit, text) == BytewiseLine(old(reader.Model()), limit)
    {
      var b := reader.ReadByte();
      if b.Err? {
        return Line(text, Some(b.error));
      }
      text := text + [b.value];
      if b.value == NEWLINE {
        return Line(text, None);
      }
    }
    line := Line(text, Some(ShortBuffer));
  }
}
