/**
 Event streams as sections 9.2.5 and 9.2.6 of the HTML Standard read them, line by line and
 on their own terms, and exactly when the reader of SseFormat agrees.
 */
module SseStandard {
  import opened SseFormat
  import opened SseCodec
  import opened Wrappers

  // ---- the standard ----

  /** The event type buffer and the data buffer. */
  datatype Buffers = Buffers(event: Bytes, data: Bytes)

  const CLEAR := Buffers([], [])

  /** Where the first line ends: at a CR, an LF or the end of the stream. */
  function LineEnd(s: Bytes): (i: nat)
    ensures i <= |s| && LF !in s[..i] && CR !in s[..i] && (i < |s| ==> s[i] == LF || s[i] == CR)
  {
    if s == [] || s[0] == LF || s[0] == CR then 0
    else
      var j := LineEnd(s[1..]);
      assert s[..j + 1] == [s[0]] + s[1..][..j];
      j + 1
  }

  /** What follows the terminator at i; CR and LF together are one. */
  function Following(s: Bytes, i: nat): Bytes
    requires i < |s|
  {
    if s[i] == CR && i + 1 < |s| && s[i + 1] == LF then s[i + 2..] else s[i + 1..]
  }

  /** A line that is not blank. */
  function ProcessLine(b: Buffers, line: Bytes): Buffers
    requires line != []
  {
    if line[0] == COLON then b
    else
      var i := IndexOf(line, COLON);
      var value := if i == |line| then [] else line[i + 1..];
      ProcessField(b, line[..i], if value != [] && value[0] == SPACE then value[1..] else value)
  }

  function ProcessField(b: Buffers, name: Bytes, value: Bytes): Buffers {
    if name == EVENT then b.(event := value)
    else if name == DATA then b.(data := b.data + value + [LF])
    else b
  }

  /** A blank line: with data the event is dispatched, without its last LF. */
  function Dispatched(b: Buffers): seq<Frame> {
    if b.data == [] then [] else [Frame(b.event, b.data[..|b.data| - 1])]
  }

  /** The frames of a stream whose lines keep to the bound, up to the first that does not;
      what is pending at the end is discarded. */
  function StandardFrames(b: Buffers, s: Bytes, max: nat): seq<Frame>
    decreases |s|
  {
    var i := LineEnd(s);
    if i == |s| || i > max then []
    else if i == 0 then Dispatched(b) + StandardFrames(CLEAR, Following(s, 0), max)
    else StandardFrames(ProcessLine(b, s[..i]), Following(s, i), max)
  }

  // ---- the reader, line by line ----

  lemma {:induction false} CutAtEnd(buf: Bytes, s: Bytes, max: nat)
    requires |buf| <= max
    ensures var i, c := LineEnd(s), CutLine(buf, s, max);
            if |buf| + i > max then c.TooLong?
            else if i == |s| then c == (if buf + s == [] then Nothing else Line(buf + s, [], true))
            else c.Line? && c.text == buf + s[..i] && c.rest == Following(s, i)
    decreases s
  {
    if s == [] {
      assert buf + s == buf;
    } else if s[0] == LF || s[0] == CR {
      assert buf + s[..0] == buf;
    } else if |buf| + 1 <= max {
      CutAtEnd(buf + [s[0]], s[1..], max);
      assert buf + [s[0]] + s[1..] == buf + s;
      var i := LineEnd(s);
      assert s[..i] == [s[0]] + s[1..][..i - 1];
      assert buf + [s[0]] + s[1..][..i - 1] == buf + s[..i];
      assert i < |s| ==> Following(s, i) == Following(s[1..], i - 1);
    }
  }

  /** The code's reader takes the first line and goes on with the rest. */
  lemma ReadByLines(k: Block, s: Bytes, max: nat)
    ensures var i, o := LineEnd(s), From(k, s, Eof, max);
            if i > max then o == Outcome([], LineTooLong)
            else if i == |s| then o == Finish(Stand(k).(line := s), Eof)
            else if i == 0 && k.haveData then
              o.frames == [Frame(k.event, k.data)] + From(EMPTY, Following(s, 0), Eof, max).frames
            else o == From(if i == 0 then k else TakeLine(k, s[..i]), Following(s, i), Eof, max)
  {
    var i := LineEnd(s);
    CutIsRead([], k, s, Eof, max);
    CutAtEnd([], s, max);
    assert [] + s == s && [] + s[..i] == s[..i];
    if i == |s| && s != [] {
      assert EndLine(Stand(k).(line := s)) == Stand(TakeLine(k, s));
    } else if i < |s| && i <= max && i == 0 && k.haveData {
      DispatchedFirst(k, Following(s, 0), Eof, max);
    }
  }

  // ---- side by side ----

  predicate IsEventLine(line: Bytes) {
    line != [] && line[0] != COLON && FieldName(line) == EVENT
  }

  /** Somewhere in s a blank line dispatches a frame under a name kept, by block k, past an
      earlier blank line that found no data; an event line or a dispatch ends the keeping. */
  predicate TakesKept(k: Block, kept: bool, s: Bytes, max: nat)
    decreases |s|
  {
    var i := LineEnd(s);
    if i == |s| || i > max then false
    else if i > 0 then TakesKept(TakeLine(k, s[..i]), kept && !IsEventLine(s[..i]), Following(s, i), max)
    else if k.haveData then kept || TakesKept(EMPTY, false, Following(s, 0), max)
    else TakesKept(k, k.event != [], Following(s, 0), max)
  }

  /** At the end of s, its last line counted, data is waiting for a blank line. */
  predicate LeavesData(k: Block, s: Bytes, max: nat)
    decreases |s|
  {
    var i := LineEnd(s);
    if i > max then false
    else if i == |s| then (if s == [] then k else TakeLine(k, s)).haveData
    else if i > 0 then LeavesData(TakeLine(k, s[..i]), Following(s, i), max)
    else LeavesData(if k.haveData then EMPTY else k, Following(s, 0), max)
  }

  /** The code's block and the standard's buffers: they differ only in a kept name. */
  ghost predicate Beside(k: Block, b: Buffers, kept: bool) {
    && (if k.haveData then b.data == k.data + [LF] else b.data == [] == k.data)
    && if kept then b.event == [] && k.event != [] else b.event == k.event
  }

  lemma LineBeside(k: Block, b: Buffers, kept: bool, line: Bytes)
    requires Beside(k, b, kept) && line != []
    ensures Beside(TakeLine(k, line), ProcessLine(b, line), kept && !IsEventLine(line))
  {
    if line[0] != COLON {
      LineIsField(k, b, line);
      FieldBeside(k, b, kept, SplitField(line));
    }
  }

  lemma LineIsField(k: Block, b: Buffers, line: Bytes)
    requires line != [] && line[0] != COLON
    ensures var f := SplitField(line);
            && TakeLine(k, line) == TakeField(k, f) && ProcessLine(b, line) == ProcessField(b, f.name, f.value)
            && (IsEventLine(line) <==> f.name == EVENT)
  {
    NameOfField(line);
    ValueOfField(line);
  }

  /** What the code does with a field. */
  function TakeField(k: Block, f: Field): Block {
    if f.name == EVENT then k.(event := f.value)
    else if f.name == DATA then
      k.(data := (if k.haveData then k.data + [LF] else k.data) + f.value, haveData := true)
    else k
  }

  lemma FieldBeside(k: Block, b: Buffers, kept: bool, f: Field)
    requires Beside(k, b, kept)
    ensures Beside(TakeField(k, f), ProcessField(b, f.name, f.value), kept && f.name != EVENT)
  {
    Names();
    if f.name == DATA {
      if k.haveData {
        Regrouped(k.data, [LF], f.value, [LF]);
      } else {
        assert [] + f.value == f.value;
      }
    }
  }

  lemma Regrouped(a: Bytes, b: Bytes, c: Bytes, d: Bytes)
    ensures ((a + b) + c) + d == a + (b + (c + d))
  {
  }

  lemma ValueOfField(line: Bytes)
    ensures var i := IndexOf(line, COLON);
            var value := if i == |line| then [] else line[i + 1..];
            SplitField(line).value == if value != [] && value[0] == SPACE then value[1..] else value
  {
  }

  lemma FirstOf(f: Frame, xs: seq<Frame>, g: Frame, ys: seq<Frame>)
    ensures [f] + xs == [g] + ys <==> f == g && xs == ys
  {
    assert ([f] + xs)[0] == f && ([g] + ys)[0] == g && ([f] + xs)[1..] == xs && ([g] + ys)[1..] == ys;
  }

  /** From side-by-side states the rest of a stream has the standard's frames, and one more
      when it leaves data; they are the same unless a kept name is taken. */
  lemma {:induction false} SideBySide(k: Block, b: Buffers, kept: bool, s: Bytes, max: nat)
    requires Beside(k, b, kept)
    ensures var mine, theirs := From(k, s, Eof, max).frames, StandardFrames(b, s, max);
            && |mine| == |theirs| + (if LeavesData(k, s, max) then 1 else 0)
            && (mine == theirs <==> !TakesKept(k, kept, s, max) && !LeavesData(k, s, max))
    decreases |s|
  {
    var i := LineEnd(s);
    ReadByLines(k, s, max);
    if i < |s| && i <= max {
      var rest := Following(s, i);
      if i > 0 {
        LineBeside(k, b, kept, s[..i]);
        SideBySide(TakeLine(k, s[..i]), ProcessLine(b, s[..i]), kept && !IsEventLine(s[..i]), rest, max);
      } else if k.haveData {
        SideBySide(EMPTY, CLEAR, false, rest, max);
        assert (k.data + [LF])[..|k.data|] == k.data;
        FirstOf(Frame(k.event, k.data), From(EMPTY, rest, Eof, max).frames,
          Frame(b.event, k.data), StandardFrames(CLEAR, rest, max));
      } else {
        SideBySide(k, CLEAR, k.event != [], rest, max);
        assert [] + StandardFrames(CLEAR, rest, max) == StandardFrames(CLEAR, rest, max);
      }
    }
  }

  /** Read to its end, a stream has the standard's frames if and only if no frame takes a kept
      name and no data is left pending. */
  lemma AgreesWithStandard(s: Bytes, max: nat)
    ensures Read(s, Eof, max).frames == StandardFrames(CLEAR, s, max) <==>
            !TakesKept(EMPTY, false, s, max) && !LeavesData(EMPTY, s, max)
  {
    SideBySide(EMPTY, CLEAR, false, s, max);
  }

  // ---- where they differ ----

  /** A whole line at the head of a stream. */
  lemma LineFirst(b: Buffers, line: Bytes, t: Bytes, max: nat)
    requires line != [] && LF !in line && CR !in line && |line| <= max
    ensures StandardFrames(b, (line + [LF]) + t, max) == StandardFrames(ProcessLine(b, line), t, max)
  {
    var s := (line + [LF]) + t;
    EndsAt(line, t);
    assert s[..|line|] == line && s[|line| + 1..] == t;
  }

  lemma {:induction false} EndsAt(line: Bytes, t: Bytes)
    requires LF !in line && CR !in line
    ensures LineEnd((line + [LF]) + t) == |line|
  {
    var s := (line + [LF]) + t;
    if line != [] {
      assert s[1..] == (line[1..] + [LF]) + t && s[0] == line[0];
      EndsAt(line[1..], t);
    }
  }

  lemma FieldFirst(b: Buffers, name: Bytes, v: Bytes, t: Bytes, max: nat)
    requires IsName(name) && LF !in v && CR !in v && |name| + 2 + |v| <= max
    ensures StandardFrames(b, FieldLine(name, v) + t, max) == StandardFrames(ProcessField(b, name, v), t, max)
  {
    var line := name + [COLON, SPACE] + v;
    LineFirst(b, line, t, max);
    assert line[..|name|] == name;
    IndexAt(line, COLON, |name|);
    assert line[|name| + 1..] == [SPACE] + v && ([SPACE] + v)[1..] == v;
  }

  /** The data lines of a payload put it, and an LF, into the data buffer. */
  lemma {:induction false} DataFirst(b: Buffers, d: Bytes, t: Bytes, max: nat)
    requires CR !in d && DataFits(d, max)
    ensures StandardFrames(b, DataLines(d) + t, max) == StandardFrames(b.(data := b.data + d + [LF]), t, max)
    decreases |d|
  {
    var i := IndexOf(d, LF);
    Names();
    if i == |d| {
      assert d[..i] == d;
      FieldFirst(b, DATA, d, t, max);
    } else {
      var first, rest := d[..i], d[i + 1..];
      LinesFirst(d, i, t);
      FieldFirst(b, DATA, first, DataLines(rest) + t, max);
      DataFirst(b.(data := b.data + first + [LF]), rest, t, max);
      DataJoined(b.data, d, i);
    }
  }

  lemma LinesFirst(d: Bytes, i: nat, t: Bytes)
    requires i == IndexOf(d, LF) && i < |d|
    ensures DataLines(d) + t == FieldLine(DATA, d[..i]) + (DataLines(d[i + 1..]) + t)
  {
    LinesByIndex(d, i);
    Joined(FieldLine(DATA, d[..i]), DataLines(d[i + 1..]), t);
  }

  lemma Joined(a: Bytes, b: Bytes, c: Bytes)
    ensures (a + b) + c == a + (b + c)
  {
  }

  lemma DataJoined(data: Bytes, d: Bytes, i: nat)
    requires i < |d| && d[i] == LF
    ensures data + d[..i] + [LF] + d[i + 1..] + [LF] == data + d + [LF]
  {
    assert d == d[..i] + [LF] + d[i + 1..];
  }

  /** An event line and a blank line, then a frame without a name: the code dispatches it
      under the name from before the blank line, the standard under none. */
  lemma KeptName(e: Bytes, d: Bytes, max: nat)
    requires e != [] && Clean(Frame(e, d)) && Fits(Frame(e, d), max)
    ensures var s := EventLine(e) + ([LF] + (DataLines(d) + [LF]));
            && Read(s, Eof, max).frames == [Frame(e, d)]
            && StandardFrames(CLEAR, s, max) == [Frame([], d)]
  {
    KeptRead(e, d, max);
    Names();
    FieldFirst(CLEAR, EVENT, e, [LF] + (DataLines(d) + [LF]), max);
    BlankFirst(Buffers(e, []), DataLines(d) + [LF], max);
    OneFrame(d, max);
  }

  lemma BlankFirst(b: Buffers, t: Bytes, max: nat)
    ensures StandardFrames(b, [LF] + t, max) == Dispatched(b) + StandardFrames(CLEAR, t, max)
  {
    assert LineEnd([LF] + t) == 0 && Following([LF] + t, 0) == t;
  }

  lemma OneFrame(d: Bytes, max: nat)
    requires CR !in d && DataFits(d, max)
    ensures StandardFrames(CLEAR, DataLines(d) + [LF], max) == [Frame([], d)]
  {
    DataFirst(CLEAR, d, [LF], max);
    assert [] + d + [LF] == d + [LF] && (d + [LF])[..|d|] == d;
    BlankLast(Buffers([], d + [LF]), max);
  }

  lemma BlankLast(b: Buffers, max: nat)
    ensures StandardFrames(b, [LF], max) == Dispatched(b)
  {
    assert LineEnd([LF]) == 0 && Following([LF], 0) == [];
    assert StandardFrames(CLEAR, [], max) == [];
  }

  lemma KeptRead(e: Bytes, d: Bytes, max: nat)
    requires e != [] && Clean(Frame(e, d)) && Fits(Frame(e, d), max)
    ensures Read(EventLine(e) + ([LF] + (DataLines(d) + [LF])), Eof, max).frames == [Frame(e, d)]
  {
    var s1, s2 := DataLines(d) + [LF], [LF] + (DataLines(d) + [LF]);
    Names();
    SplitPrefixed(EVENT, e);
    var k := START.(block := Block(e, [], false));
    assert [] + d == d;
    FieldFed(START, EVENT, e, max);
    FeedConcat(START, EventLine(e), s2, max);
    FeedOne(k, LF, max);
    FeedConcat(k, [LF], s1, max);
    FeedConcat(k, DataLines(d), [LF], max);
    DataFed(k, d, max);
    FeedOne(FeedAll(k, DataLines(d), max), LF, max);
  }

  /** Data lines without their blank line: the code dispatches the frame, deliberately, and
      the standard does not. */
  lemma PendingIsRead(d: Bytes, max: nat)
    requires CR !in d && DataFits(d, max)
    ensures Read(DataLines(d), Eof, max).frames == [Frame([], d)] && StandardFrames(CLEAR, DataLines(d), max) == []
  {
    DataFed(START, d, max);
    assert [] + d == d && DataLines(d) + [] == DataLines(d);
    DataFirst(CLEAR, d, [], max);
  }
}
