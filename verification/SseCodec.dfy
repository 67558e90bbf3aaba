/**
 The Scanner, which pulls lines off a reader, and the FrameWriter. The Scanner looks
 one byte past a CR and holds back an error seen beside a last line; it reads exactly
 what the reference reader of SseFormat reads.
 */
module SseCodec {
  import opened SseFormat
  import opened Wrappers

  // ---- one line ----

  /** The next line of rest, or the error met instead; ended says that the error that
      ends the stream was met too, and is held back. */
  datatype Cut = Line(text: Bytes, rest: Bytes, ended: bool) | TooLong(rest: Bytes) | Nothing

  ghost function CutLine(buf: Bytes, rest: Bytes, max: nat): Cut
    decreases rest
  {
    if rest == [] then (if buf == [] then Nothing else Line(buf, [], true))
    else if rest[0] == LF then Line(buf, rest[1..], false)
    else if rest[0] == CR then
      if |rest| == 1 then Line(buf, [], true)
      else Line(buf, if rest[1] == LF then rest[2..] else rest[1..], false)
    else if |buf| + 1 > max then TooLong(rest[1..])
    else CutLine(buf + [rest[0]], rest[1..], max)
  }

  lemma {:induction false} CutShrinks(buf: Bytes, rest: Bytes, max: nat)
    ensures var c := CutLine(buf, rest, max);
            c.Line? ==> |c.rest| <= |rest| && (c.ended ==> c.rest == []) && (buf == [] ==> |c.rest| < |rest|)
    decreases rest
  {
    if rest != [] && rest[0] != LF && rest[0] != CR && |buf| + 1 <= max {
      CutShrinks(buf + [rest[0]], rest[1..], max);
    }
  }

  /** The reader at the start of a line, with block k. */
  function Stand(k: Block): Reader {
    Reader([], false, k, [], false)
  }

  ghost function From(k: Block, rest: Bytes, end: Ending, max: nat): Outcome {
    Finish(FeedAll(Stand(k), rest, max), end)
  }

  /** After a CR the reference reader skips one LF; the Scanner has taken it already. */
  lemma SkipsLF(r: Reader, rest: Bytes, end: Ending, max: nat)
    requires r.afterCR && !r.failed
    ensures var on := if rest != [] && rest[0] == LF then rest[1..] else rest;
            Finish(FeedAll(r, rest, max), end) == Finish(FeedAll(r.(afterCR := false), on, max), end)
  {
    if rest != [] && rest[0] != LF && rest[0] != CR && |r.line| + 1 > max {
      FailSticks(Feed(r, rest[0], max), rest[1..], max);
      FailSticks(Feed(r.(afterCR := false), rest[0], max), rest[1..], max);
    }
  }

  /** What is read once a line was cut: the line is taken whole. */
  ghost function AfterCut(k: Block, c: Cut, end: Ending, max: nat): Outcome {
    match c
    case Line(text, more, _) => Finish(FeedAll(EndLine(Stand(k).(line := text)), more, max), end)
    case TooLong(_) => Outcome([], LineTooLong)
    case Nothing => Finish(Stand(k), end)
  }

  /** Cutting a line and taking it whole is what the reference reader does by bytes. */
  lemma {:induction false} CutIsRead(buf: Bytes, k: Block, rest: Bytes, end: Ending, max: nat)
    requires end != LineTooLong
    ensures Finish(FeedAll(Stand(k).(line := buf), rest, max), end) == AfterCut(k, CutLine(buf, rest, max), end, max)
    decreases rest
  {
    var r := Stand(k).(line := buf);
    if rest == [] {
    } else if rest[0] == LF {
    } else if rest[0] == CR {
      assert Feed(r, CR, max) == EndLine(r).(afterCR := true);
      assert EndLine(r).(afterCR := true).(afterCR := false) == EndLine(r);
      SkipsLF(EndLine(r).(afterCR := true), rest[1..], end, max);
      assert |rest| > 1 ==> rest[1..][1..] == rest[2..];
    } else if |buf| + 1 > max {
      FailSticks(Feed(r, rest[0], max), rest[1..], max);
    } else {
      CutIsRead(buf + [rest[0]], k, rest[1..], end, max);
    }
  }

  /** Frames dispatched earlier only stand in front. */
  lemma {:induction false} FramesBefore(r: Reader, fs: seq<Frame>, s: Bytes, max: nat)
    ensures FeedAll(r.(frames := fs + r.frames), s, max)
         == var q := FeedAll(r, s, max); q.(frames := fs + q.frames)
    decreases s
  {
    if s != [] {
      var f := Frame(r.block.event, r.block.data);
      assert fs + (r.frames + [f]) == fs + r.frames + [f];
      FramesBefore(Feed(r, s[0], max), fs, s[1..], max);
    }
  }

  /** After a blank line, the frame dispatched comes before all that remains. */
  lemma DispatchedFirst(k: Block, rest: Bytes, end: Ending, max: nat)
    requires k.haveData
    ensures var all := Finish(FeedAll(EndLine(Stand(k)), rest, max), end);
            var more := From(EMPTY, rest, end, max);
            all == Outcome([Frame(k.event, k.data)] + more.frames, more.ending)
  {
    var f := [Frame(k.event, k.data)];
    assert EndLine(Stand(k)) == Stand(EMPTY).(frames := f + Stand(EMPTY).frames);
    FramesBefore(Stand(EMPTY), f, rest, max);
    var q := FeedAll(Stand(EMPTY), rest, max);
    var last := [Frame(LastBlock(q).event, LastBlock(q).data)];
    assert f + q.frames + last == f + (q.frames + last);
  }

  // ---- the scanner ----

  class Scanner {
    var rest: Bytes      // what the underlying reader has not delivered yet
    const end: Ending    // what it returns after that: Eof or Fault
    var maxLine: nat
    var frame: Frame
    var pending: bool    // the end error was seen beside the last line
    var err: Option<Ending>
    var done: bool

    ghost predicate Valid()
      reads this
    {
      && end != LineTooLong
      && (pending ==> rest == [])
      && (!done ==> err == None)
      && err != Some(Eof)
    }

    /** Everything still to be read. */
    ghost function Remaining(): Outcome
      reads this
    {
      if done then Outcome([], if err.Some? then err.value else Eof)
      else From(EMPTY, rest, end, maxLine)
    }

    constructor (stream: Bytes, end: Ending, maxLine: nat)
      requires end != LineTooLong
      ensures Valid() && Remaining() == Read(stream, end, maxLine) && !done && err == None
    {
      rest, this.end, this.maxLine := stream, end, maxLine;
      frame, pending, err, done := Frame([], []), false, None, false;
    }

    method ReadLine() returns (line: Bytes, e: Option<Ending>)
      requires Valid()
      modifies this`rest, this`pending
      ensures Valid()
      ensures var c := CutLine([], old(rest), maxLine);
              match c
              case Line(text, more, _) => e == None && line == text && rest == more
              case TooLong(_) => e == Some(LineTooLong)
              case Nothing => e == Some(end) && rest == []
    {
      if pending {
        pending := false;
        return [], Some(end);
      }
      line := [];
      while true
        invariant Valid() && !pending
        invariant CutLine([], old(rest), maxLine) == CutLine(line, rest, maxLine)
        decreases |rest|
      {
        if rest == [] {
          if |line| > 0 {
            pending := true;
            return line, None;
          }
          return [], Some(end);
        }
        var b := rest[0];
        rest := rest[1..];
        if b == LF {
          return line, None;
        } else if b == CR {
          if rest == [] {
            pending := true;
          } else if rest[0] == LF {
            rest := rest[1..];
          }
          return line, None;
        }
        line := line + [b];
        if |line| > maxLine {
          return [], Some(LineTooLong);
        }
      }
    }

    /** Advances to the next frame: it is the first of what remained, and the rest
        still remains. Without one, nothing remained, and err says how it ended. */
    method Scan() returns (ok: bool)
      requires Valid()
      modifies this`rest, this`pending, this`frame, this`err, this`done
      ensures Valid()
      ensures ok ==> old(Remaining()) == Outcome([frame] + Remaining().frames, Remaining().ending)
      ensures ok ==> err == None && !old(done) && (done || |rest| < |old(rest)|)
      ensures !ok ==> old(Remaining()) == Outcome([], if err == None then Eof else err.value) && done
    {
      if done {
        return false;
      }
      var event, data, haveData := [], [], false;
      while true
        invariant Valid() && !done && |rest| <= |old(rest)|
        invariant old(Remaining()) == From(Block(event, data, haveData), rest, end, maxLine)
        decreases |rest|
      {
        ghost var k := Block(event, data, haveData);
        CutIsRead([], k, rest, end, maxLine);
        CutShrinks([], rest, maxLine);
        var line, e := ReadLine();
        if e != None {
          done := true;
          if e.value == Eof {
            if haveData {
              frame := Frame(event, data);
              assert Stand(k).frames + [frame] == [frame] + Remaining().frames;
              return true;
            }
            return false;
          }
          err := e;
          return false;
        }
        if |line| == 0 {
          if haveData {
            frame := Frame(event, data);
            DispatchedFirst(k, rest, end, maxLine);
            return true;
          }
          continue;
        }
        if line[0] == COLON {
          continue;
        }
        var f := SplitField(line);
        if f.name == EVENT {
          event := f.value;
        } else if f.name == DATA {
          if haveData {
            data := data + [LF];
          }
          data := data + f.value;
          haveData := true;
        }
      }
    }

    /** Scans to the end, as every caller does. */
    method Drain() returns (frames: seq<Frame>)
      requires Valid() && err == None && !done
      modifies this
      ensures Valid()
      ensures Outcome(frames, if err == None then Eof else err.value) == old(Remaining())
    {
      frames := [];
      var ok := true;
      while ok
        invariant Valid() && (ok ==> err == None)
        invariant old(Remaining()) == Outcome(frames + Remaining().frames, Remaining().ending)
        invariant !ok ==> done
        decreases ok, !done, |rest|
      {
        ok := Scan();
        if ok {
          frames := frames + [frame];
        }
      }
    }
  }

  // ---- the writer ----

  /** A sink that takes room bytes before its first error, which is sticky. */
  datatype Sink = Sink(out: Bytes, room: nat, failed: bool)

  function Accept(k: Sink, bs: Bytes): Sink {
    if k.failed then k
    else if |bs| <= k.room then Sink(k.out + bs, k.room - |bs|, false)
    else Sink(k.out + bs[..k.room], 0, true)
  }

  /** Writing in parts or at once leaves the same bytes and the same error. */
  lemma AcceptConcat(k: Sink, a: Bytes, b: Bytes)
    ensures Accept(Accept(k, a), b) == Accept(k, a + b)
  {
    if !k.failed && |a| <= k.room {
      assert k.out + a + b == k.out + (a + b);
      if k.room < |a + b| {
        assert (a + b)[..k.room] == a + b[..k.room - |a|];
      }
    } else if !k.failed {
      assert (a + b)[..k.room] == a[..k.room];
    }
  }

  /** data[start..i] is the segment being passed over, and all is what the sink holds
      once the data lines of data[start..] are written. */
  ghost predicate Owes(k: Sink, data: Bytes, start: nat, i: nat, all: Sink) {
    && start <= i <= |data|
    && (forall j :: start <= j < i ==> data[j] != LF)
    && Accept(k, DataLines(data[start..])) == all
  }

  lemma OwesSegment(k: Sink, data: Bytes, start: nat, i: nat, all: Sink)
    requires i < |data| && data[i] == LF && Owes(k, data, start, i, all)
    ensures Owes(Accept(k, FieldLine(DATA, data[start..i])), data, i + 1, i + 1, all)
  {
    SegmentFirst(data, start, i);
    AcceptConcat(k, FieldLine(DATA, data[start..i]), DataLines(data[i + 1..]));
  }

  lemma SegmentFirst(data: Bytes, start: nat, i: nat)
    requires start <= i < |data| && data[i] == LF && forall j :: start <= j < i ==> data[j] != LF
    ensures DataLines(data[start..]) == FieldLine(DATA, data[start..i]) + DataLines(data[i + 1..])
  {
    var d, k := data[start..], i - start;
    SegmentIndex(data, start, i);
    SegmentSlices(data, start, i);
    LinesByIndex(d, k);
  }

  lemma SegmentIndex(data: Bytes, start: nat, i: nat)
    requires start <= i < |data| && data[i] == LF && forall j :: start <= j < i ==> data[j] != LF
    ensures IndexOf(data[start..], LF) == i - start
  {
    var d, k := data[start..], i - start;
    NotAmong(data, start, i);
    assert d[k] == LF && d[..k] == data[start..i];
    IndexAt(d, LF, k);
  }

  lemma LinesByIndex(d: Bytes, i: nat)
    requires i == IndexOf(d, LF) && i < |d|
    ensures DataLines(d) == FieldLine(DATA, d[..i]) + DataLines(d[i + 1..])
  {
  }

  lemma NotAmong(data: Bytes, start: nat, i: nat)
    requires start <= i <= |data| && forall j :: start <= j < i ==> data[j] != LF
    ensures LF !in data[start..i]
  {
  }

  lemma SegmentSlices(data: Bytes, start: nat, i: nat)
    requires start <= i < |data|
    ensures data[start..][..i - start] == data[start..i] && data[start..][i - start + 1..] == data[i + 1..]
  {
  }

  lemma OwesOn(k: Sink, data: Bytes, start: nat, i: nat, all: Sink)
    requires i < |data| && data[i] != LF && Owes(k, data, start, i, all)
    ensures Owes(k, data, start, i + 1, all)
  {
  }

  lemma OwesLast(k: Sink, data: Bytes, start: nat, all: Sink)
    requires Owes(k, data, start, |data|, all)
    ensures all == Accept(k, FieldLine(DATA, data[start..]))
  {
    var d := data[start..];
    assert d[..|d|] == d && FieldLine(DATA, d) + [] == FieldLine(DATA, d);
  }

  class FrameWriter {
    var sink: Sink

    constructor (sink: Sink)
      ensures this.sink == sink
    {
      this.sink := sink;
    }

    method Write(bs: Bytes)
      modifies this
      ensures sink == Accept(old(sink), bs)
    {
      if !sink.failed {
        if |bs| <= sink.room {
          sink := Sink(sink.out + bs, sink.room - |bs|, false);
        } else {
          sink := Sink(sink.out + bs[..sink.room], 0, true);
        }
      }
    }

    method WriteField(name: Bytes, value: Bytes)
      modifies this
      ensures sink == Accept(old(sink), FieldLine(name, value))
    {
      Write(name + [COLON, SPACE]);
      Write(value);
      Write([LF]);
      AcceptConcat(old(sink), name + [COLON, SPACE], value);
      AcceptConcat(old(sink), name + [COLON, SPACE] + value, [LF]);
    }

    /** The data lines of one frame. */
    method WriteLines(data: Bytes)
      modifies this
      ensures sink == Accept(old(sink), DataLines(data))
    {
      ghost var all := Accept(sink, DataLines(data));
      var start: nat := 0;
      var i: nat := 0;
      assert data[0..] == data;
      while i < |data|
        invariant start <= i <= |data| && Owes(sink, data, start, i, all)
      {
        if data[i] == LF {
          OwesSegment(sink, data, start, i, all);
          WriteField(DATA, data[start..i]);
          start := i + 1;
        } else {
          OwesOn(sink, data, start, i, all);
        }
        i := i + 1;
      }
      OwesLast(sink, data, start, all);
      WriteField(DATA, data[start..]);
    }

    /** Writes one frame: all of its bytes, or as many as the sink took before failing. */
    method WriteFrame(event: Bytes, data: Bytes) returns (ok: bool)
      modifies this
      ensures sink == Accept(old(sink), Encode(Frame(event, data)))
      ensures ok == !sink.failed
    {
      if sink.failed {
        return false;
      }
      AcceptConcat(sink, EventLine(event), DataLines(data));
      AcceptConcat(sink, EventLine(event) + DataLines(data), [LF]);
      if event != [] {
        WriteField(EVENT, event);
      } else {
        assert sink.out + [] == sink.out;
      }
      WriteLines(data);
      Write([LF]);
      return !sink.failed;
    }
  }

  /** Writes each frame in turn. */
  method WriteAll(w: FrameWriter, fs: seq<Frame>)
    modifies w
    ensures w.sink == Accept(old(w.sink), EncodeAll(fs))
    decreases fs
  {
    if fs == [] {
      return;
    }
    var _ := w.WriteFrame(fs[0].event, fs[0].data);
    WriteAll(w, fs[1..]);
    AcceptConcat(old(w.sink), Encode(fs[0]), EncodeAll(fs[1..]));
  }

  /** Writes frames to a sink with room for them and scans the bytes back: exactly the
      frames come back, and no error, just when they are clean and fit the bound. */
  method WriteThenScan(fs: seq<Frame>, room: nat, maxLine: nat) returns (back: seq<Frame>, err: Option<Ending>)
    requires |EncodeAll(fs)| <= room
    ensures (back == fs && err == None) <==> forall f :: f in fs ==> Clean(f) && Fits(f, maxLine)
  {
    var w := new FrameWriter(Sink([], room, false));
    WriteAll(w, fs);
    assert [] + EncodeAll(fs) == EncodeAll(fs);
    var s := new Scanner(w.sink.out, Eof, maxLine);
    assert s.Remaining() == Read(EncodeAll(fs), Eof, maxLine);
    back := s.Drain();
    err := s.err;
    RoundTrip(fs, maxLine);
  }
}
