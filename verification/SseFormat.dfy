/**
 The event-stream format: a byte-at-a-time reader as the reference for what a stream
 means, the bytes a frame is written as, and the laws that tie the two together.
 */
module SseFormat {
  newtype byte = x: int | 0 <= x < 256
  type Bytes = seq<byte>

  const LF: byte := 10
  const CR: byte := 13
  const SPACE: byte := 32
  const COLON: byte := 58
  const EVENT: Bytes := [101, 118, 101, 110, 116]
  const DATA: Bytes := [100, 97, 116, 97]

  datatype Frame = Frame(event: Bytes, data: Bytes)

  /** How a stream ends: cleanly, with a read error, or with a line over the bound. */
  datatype Ending = Eof | Fault | LineTooLong

  datatype Field = Field(name: Bytes, value: Bytes)

  function IndexOf(s: Bytes, b: byte): (i: nat)
    ensures i <= |s| && b !in s[..i] && (i < |s| ==> s[i] == b)
  {
    if s == [] || s[0] == b then 0
    else
      var j := IndexOf(s[1..], b);
      assert s[..j + 1] == [s[0]] + s[1..][..j];
      j + 1
  }

  /** Splits at the first colon and strips one space from the value. */
  function SplitField(line: Bytes): (f: Field)
    ensures COLON !in f.name
    ensures COLON !in line ==> f == Field(line, [])
    ensures COLON in line ==>
      || (line == f.name + [COLON] + f.value && (f.value == [] || f.value[0] != SPACE))
      || line == f.name + [COLON, SPACE] + f.value
  {
    var i := IndexOf(line, COLON);
    if i == |line| then
      assert line[..i] == line;
      Field(line, [])
    else
      var v := line[i + 1..];
      assert line == line[..i] + [COLON] + v;
      Field(line[..i], if v != [] && v[0] == SPACE then v[1..] else v)
  }

  // ---- the reference reader ----

  /** The frame being accumulated. */
  datatype Block = Block(event: Bytes, data: Bytes, haveData: bool)

  const EMPTY := Block([], [], false)

  datatype Reader = Reader(line: Bytes, afterCR: bool, block: Block, frames: seq<Frame>, failed: bool)

  const START := Reader([], false, EMPTY, [], false)

  /** What a line that is not blank does to the block. */
  function TakeLine(k: Block, line: Bytes): Block {
    var f := SplitField(line);
    if line != [] && line[0] == COLON then k
    else if f.name == EVENT then k.(event := f.value)
    else if f.name == DATA then
      k.(data := (if k.haveData then k.data + [LF] else k.data) + f.value, haveData := true)
    else k
  }

  /** A blank line dispatches a block with data; a block without is kept as it is. */
  function EndLine(r: Reader): Reader {
    if r.line != [] then r.(line := [], block := TakeLine(r.block, r.line))
    else if r.block.haveData then
      r.(block := EMPTY, frames := r.frames + [Frame(r.block.event, r.block.data)])
    else r
  }

  function Feed(r: Reader, b: byte, max: nat): Reader {
    if r.failed then r
    else if b == LF && r.afterCR then r.(afterCR := false)
    else if b == LF then EndLine(r)
    else if b == CR then EndLine(r).(afterCR := true)
    else if |r.line| + 1 > max then r.(failed := true)
    else r.(line := r.line + [b], afterCR := false)
  }

  function FeedAll(r: Reader, s: Bytes, max: nat): Reader
    decreases s
  {
    if s == [] then r else FeedAll(Feed(r, s[0], max), s[1..], max)
  }

  datatype Outcome = Outcome(frames: seq<Frame>, ending: Ending)

  /** The block once the stream has ended: a last line without its terminator counts. */
  function LastBlock(r: Reader): Block {
    if r.line != [] then TakeLine(r.block, r.line) else r.block
  }

  /** At a clean end a block with data is dispatched; after an error nothing more is. */
  function Finish(r: Reader, end: Ending): Outcome {
    var k := LastBlock(r);
    if r.failed then Outcome(r.frames, LineTooLong)
    else if end == Eof && k.haveData then Outcome(r.frames + [Frame(k.event, k.data)], Eof)
    else Outcome(r.frames, end)
  }

  function Read(s: Bytes, end: Ending, max: nat): Outcome {
    Finish(FeedAll(START, s, max), end)
  }

  // ---- laws of the reader ----

  lemma {:induction false} FeedConcat(r: Reader, s: Bytes, t: Bytes, max: nat)
    ensures FeedAll(r, s + t, max) == FeedAll(FeedAll(r, s, max), t, max)
    decreases s
  {
    if s == [] {
      assert s + t == t;
    } else {
      assert (s + t)[1..] == s[1..] + t;
      FeedConcat(Feed(r, s[0], max), s[1..], t, max);
    }
  }

  /** The frames already dispatched never change. */
  lemma {:induction false} FramesGrow(r: Reader, s: Bytes, max: nat)
    ensures r.frames <= FeedAll(r, s, max).frames
    decreases s
  {
    if s != [] {
      FramesGrow(Feed(r, s[0], max), s[1..], max);
    }
  }

  /** Truncation: a stream cut anywhere yields the frames dispatched before the cut,
      which the whole stream yields too, and one more if and only if the block pending
      at the cut had a data line. One that breaks off with an error yields no more. */
  lemma Truncation(s: Bytes, t: Bytes, end: Ending, max: nat)
    ensures var r := FeedAll(START, s, max);
            && r.frames <= Read(s + t, end, max).frames
            && Read(s, Eof, max).frames ==
               (if !r.failed && LastBlock(r).haveData then r.frames + [Frame(LastBlock(r).event, LastBlock(r).data)]
                else r.frames)
            && Read(s, Fault, max) == Outcome(r.frames, if r.failed then LineTooLong else Fault)
  {
    FeedConcat(START, s, t, max);
    FramesGrow(FeedAll(START, s, max), t, max);
  }

  // ---- the written form ----

  function FieldLine(name: Bytes, value: Bytes): Bytes {
    name + [COLON, SPACE] + value + [LF]
  }

  /** One data line for each segment of d between newlines. */
  function DataLines(d: Bytes): Bytes
    decreases |d|
  {
    var i := IndexOf(d, LF);
    if i == |d| then FieldLine(DATA, d) else FieldLine(DATA, d[..i]) + DataLines(d[i + 1..])
  }

  function EventLine(e: Bytes): Bytes {
    if e == [] then [] else FieldLine(EVENT, e)
  }

  function Encode(f: Frame): Bytes {
    EventLine(f.event) + DataLines(f.data) + [LF]
  }

  function EncodeAll(fs: seq<Frame>): Bytes {
    if fs == [] then [] else Encode(fs[0]) + EncodeAll(fs[1..])
  }

  /** What the line structure can carry. */
  ghost predicate Clean(f: Frame) {
    LF !in f.event && CR !in f.event && CR !in f.data
  }

  ghost predicate DataFits(d: Bytes, max: nat)
    decreases |d|
  {
    var i := IndexOf(d, LF);
    |DATA| + 2 + i <= max && (i < |d| ==> DataFits(d[i + 1..], max))
  }

  ghost predicate Fits(f: Frame, max: nat) {
    (f.event != [] ==> |EVENT| + 2 + |f.event| <= max) && DataFits(f.data, max)
  }

  // ---- reading back what was written ----

  lemma {:induction false} IndexAt(s: Bytes, b: byte, k: nat)
    requires k < |s| && s[k] == b && b !in s[..k]
    ensures IndexOf(s, b) == k
  {
    if 0 < k {
      assert s[0] == s[..k][0];
      assert s[1..][..k - 1] == s[..k][1..];
      IndexAt(s[1..], b, k - 1);
    }
  }

  /** A field name as the writer spells it. */
  ghost predicate IsName(name: Bytes) {
    name != [] && COLON !in name && LF !in name && CR !in name
  }

  lemma SplitPrefixed(name: Bytes, v: Bytes)
    requires IsName(name)
    ensures SplitField(name + [COLON, SPACE] + v) == Field(name, v)
  {
    var line := name + [COLON, SPACE] + v;
    assert line[..|name|] == name;
    IndexAt(line, COLON, |name|);
    assert line[|name| + 1..] == [SPACE] + v && ([SPACE] + v)[1..] == v;
  }

  /** Bytes of one line, none of them a terminator, accumulate up to the bound. */
  lemma {:induction false} LineFed(r: Reader, l: Bytes, max: nat)
    requires LF !in l && CR !in l && !r.failed && !r.afterCR
    ensures |r.line| + |l| <= max ==> FeedAll(r, l, max) == r.(line := r.line + l)
    ensures |r.line| + |l| > max ==> |r.line| <= max ==> FeedAll(r, l, max).failed
    decreases l
  {
    if l == [] {
      assert r.line + l == r.line;
    } else {
      var q := Feed(r, l[0], max);
      if q.failed {
        FailSticks(q, l[1..], max);
      } else {
        assert r.line + [l[0]] + l[1..] == r.line + l;
        LineFed(q, l[1..], max);
      }
    }
  }

  lemma {:induction false} FailSticks(r: Reader, s: Bytes, max: nat)
    requires r.failed
    ensures FeedAll(r, s, max) == r
    decreases s
  {
    if s != [] {
      FailSticks(r, s[1..], max);
    }
  }

  /** The reader stands at the start of a line. */
  ghost predicate AtLine(r: Reader) {
    r.line == [] && !r.failed && !r.afterCR
  }

  /** A whole field line: it changes the block, or fails the scan if it is too long. */
  lemma FieldFed(r: Reader, name: Bytes, v: Bytes, max: nat)
    requires AtLine(r) && LF !in v && CR !in v && IsName(name)
    ensures var l := name + [COLON, SPACE] + v;
            var q := FeedAll(r, FieldLine(name, v), max);
            if |l| <= max then q == r.(block := TakeLine(r.block, l)) else q.failed
  {
    var l := name + [COLON, SPACE] + v;
    LineFed(r, l, max);
    FeedConcat(r, l, [LF], max);
    FeedOne(FeedAll(r, l, max), LF, max);
    assert [] + l == l;
  }

  lemma FeedOne(r: Reader, b: byte, max: nat)
    ensures FeedAll(r, [b], max) == Feed(r, b, max)
  {
    assert [b][1..] == [];
  }

  lemma Names()
    ensures IsName(EVENT) && IsName(DATA) && EVENT != DATA
  {
    assert |EVENT| != |DATA|;
  }

  function AddData(k: Block, d: Bytes): Block {
    k.(data := (if k.haveData then k.data + [LF] else k.data) + d, haveData := true)
  }

  lemma DataLineFed(r: Reader, d: Bytes, max: nat)
    requires AtLine(r) && LF !in d && CR !in d
    ensures var q := FeedAll(r, FieldLine(DATA, d), max);
            if |DATA| + 2 + |d| <= max then q == r.(block := AddData(r.block, d)) else q.failed
  {
    Names();
    SplitPrefixed(DATA, d);
    FieldFed(r, DATA, d, max);
  }

  lemma AddDataTwice(k: Block, d: Bytes, i: nat)
    requires i < |d| && d[i] == LF
    ensures AddData(AddData(k, d[..i]), d[i + 1..]) == AddData(k, d)
  {
    var was := if k.haveData then k.data + [LF] else k.data;
    assert d == d[..i] + [LF] + d[i + 1..];
    assert was + d[..i] + [LF] + d[i + 1..] == was + d;
  }

  /** Data lines rejoin to the data they were cut from. */
  lemma {:induction false} DataFed(r: Reader, d: Bytes, max: nat)
    requires AtLine(r) && CR !in d
    ensures var q := FeedAll(r, DataLines(d), max);
            if DataFits(d, max) then q == r.(block := AddData(r.block, d)) else q.failed
    decreases |d|
  {
    var i := IndexOf(d, LF);
    var l := FieldLine(DATA, d[..i]);
    DataLineFed(r, d[..i], max);
    var q := FeedAll(r, l, max);
    if i == |d| {
      assert d[..i] == d && l + [] == l;
    } else {
      var rest := d[i + 1..];
      FeedConcat(r, l, DataLines(rest), max);
      assert DataLines(d) == l + DataLines(rest);
      if q.failed {
        FailSticks(q, DataLines(rest), max);
      } else {
        DataFed(q, rest, max);
        AddDataTwice(r.block, d, i);
      }
    }
  }

  lemma FrameFed(r: Reader, f: Frame, max: nat)
    requires AtLine(r) && r.block == EMPTY && Clean(f)
    ensures var q := FeedAll(r, Encode(f), max);
            if Fits(f, max) then q == r.(frames := r.frames + [f]) else q.failed
  {
    var e := EventLine(f.event);
    var q := FeedAll(r, e, max);
    if f.event != [] {
      Names();
      SplitPrefixed(EVENT, f.event);
      FieldFed(r, EVENT, f.event, max);
    }
    FeedConcat(r, e, DataLines(f.data) + [LF], max);
    assert Encode(f) == e + (DataLines(f.data) + [LF]);
    if q.failed {
      FailSticks(q, DataLines(f.data) + [LF], max);
    } else {
      DataFed(q, f.data, max);
      FeedConcat(q, DataLines(f.data), [LF], max);
      var p := FeedAll(q, DataLines(f.data), max);
      if p.failed {
        FailSticks(p, [LF], max);
      } else {
        FeedOne(p, LF, max);
        assert [] + f.data == f.data;
      }
    }
  }

  ghost predicate AllFit(fs: seq<Frame>, max: nat) {
    fs != [] ==> Fits(fs[0], max) && AllFit(fs[1..], max)
  }

  ghost predicate AllClean(fs: seq<Frame>) {
    fs != [] ==> Clean(fs[0]) && AllClean(fs[1..])
  }

  lemma {:induction false} AllEach(fs: seq<Frame>, max: nat)
    ensures AllFit(fs, max) <==> forall f :: f in fs ==> Fits(f, max)
    ensures AllClean(fs) <==> forall f :: f in fs ==> Clean(f)
  {
    if fs != [] {
      AllEach(fs[1..], max);
      assert forall f :: f in fs <==> f == fs[0] || f in fs[1..];
    }
  }

  lemma {:induction false} FramesFed(r: Reader, fs: seq<Frame>, max: nat)
    requires AtLine(r) && r.block == EMPTY && AllClean(fs)
    ensures var q := FeedAll(r, EncodeAll(fs), max);
            if AllFit(fs, max) then q == r.(frames := r.frames + fs) else q.failed
    decreases fs
  {
    if fs == [] {
      assert r.frames + fs == r.frames;
    } else {
      var q := FeedAll(r, Encode(fs[0]), max);
      FeedConcat(r, Encode(fs[0]), EncodeAll(fs[1..]), max);
      FrameFed(r, fs[0], max);
      if q.failed {
        FailSticks(q, EncodeAll(fs[1..]), max);
      } else {
        FramesFed(q, fs[1..], max);
        assert r.frames + [fs[0]] + fs[1..] == r.frames + fs;
      }
    }
  }

  // ---- what can be read at all ----

  ghost predicate CleanReader(r: Reader) {
    && LF !in r.line && CR !in r.line
    && LF !in r.block.event && CR !in r.block.event && CR !in r.block.data
    && forall f :: f in r.frames ==> Clean(f)
  }

  lemma TakeLineClean(k: Block, line: Bytes)
    requires LF !in line && CR !in line
    requires LF !in k.event && CR !in k.event && CR !in k.data
    ensures var q := TakeLine(k, line); LF !in q.event && CR !in q.event && CR !in q.data
  {
    var f := SplitField(line);
    assert forall b :: b in f.value ==> b in line;
  }

  lemma FeedClean(r: Reader, b: byte, max: nat)
    requires CleanReader(r)
    ensures CleanReader(Feed(r, b, max))
  {
    TakeLineClean(r.block, r.line);
  }

  /** No frame read from any stream has a terminator in its event or a CR in its data. */
  lemma {:induction false} ReadsClean(r: Reader, s: Bytes, max: nat)
    requires CleanReader(r)
    ensures CleanReader(FeedAll(r, s, max))
    decreases s
  {
    if s != [] {
      FeedClean(r, s[0], max);
      ReadsClean(Feed(r, s[0], max), s[1..], max);
    }
  }

  /** The round trip: what was written for fs reads back as exactly fs, to a clean end,
      if and only if every event is free of CR and LF, every payload is free of CR, and
      every line fits the bound. */
  lemma RoundTrip(fs: seq<Frame>, max: nat)
    ensures Read(EncodeAll(fs), Eof, max) == Outcome(fs, Eof) <==>
            forall f :: f in fs ==> Clean(f) && Fits(f, max)
  {
    var r := FeedAll(START, EncodeAll(fs), max);
    ReadsClean(START, EncodeAll(fs), max);
    TakeLineClean(r.block, r.line);
    AllEach(fs, max);
    if AllClean(fs) {
      FramesFed(START, fs, max);
      assert START.frames + fs == fs;
    }
  }

  // ---- lines that change nothing ----

  /** The name of the field on a line: all before its first colon. */
  function FieldName(line: Bytes): Bytes { line[..IndexOf(line, COLON)] }

  /** A comment, or a field that is neither an event nor data. */
  predicate IsIgnored(line: Bytes) {
    && line != [] && LF !in line && CR !in line
    && (line[0] == COLON || (FieldName(line) != EVENT && FieldName(line) != DATA))
  }

  lemma NameOfField(line: Bytes)
    ensures SplitField(line).name == FieldName(line)
  {
    if COLON !in line {
      assert IndexOf(line, COLON) == |line| && line[..|line|] == line;
    }
  }

  /** Such a line, with its terminator, leaves a reader at the start of a line as it was. */
  lemma IgnoredLine(r: Reader, line: Bytes, max: nat)
    requires AtLine(r) && IsIgnored(line) && |line| <= max
    ensures FeedAll(r, line + [LF], max) == r
  {
    LineFed(r, line, max);
    FeedConcat(r, line, [LF], max);
    FeedOne(FeedAll(r, line, max), LF, max);
    NameOfField(line);
    assert [] + line == line;
  }

  /** Taking such a line out of a stream changes nothing that is read. */
  lemma IgnoredIsNothing(s: Bytes, line: Bytes, t: Bytes, end: Ending, max: nat)
    requires AtLine(FeedAll(START, s, max)) && IsIgnored(line) && |line| <= max
    ensures Read(s + ((line + [LF]) + t), end, max) == Read(s + t, end, max)
  {
    FeedConcat(START, s, (line + [LF]) + t, max);
    FeedConcat(FeedAll(START, s, max), line + [LF], t, max);
    FeedConcat(START, s, t, max);
    IgnoredLine(FeedAll(START, s, max), line, max);
  }
}
