/**
 What a conversation's blocks come to, read off the blocks themselves: which block is
 refused and why, which tools are advertised in which order and with which definitions,
 and when the request loses its tool choice.
 */
module ToolMeaning {
  import opened Spaces
  import opened ToolSet
  import opened ToolChanges
  import opened ToolLaws
  import opened Wrappers

  // ---- which block is refused ----

  /** What is wrong with block b, after the blocks h. */
  predicate Faulty(b: Block, ts: seq<Tool>, h: seq<Block>, why: Problem) {
    && b.Change?
    && match why
       case NoTool => b.target.None?
       case RemovesNameless =>
         b.kind.Removal? && b.target.Some? && b.target.value.of.Reference? && !HasText(b.target.value.name)
       case DefinesNameless =>
         && b.kind.Addition? && b.target.Some? && b.target.value.of.Inline?
         && (b.target.value.definition.None? || !HasText(b.target.value.definition.value.name))
       case AddsUndeclared(x) =>
         && b.kind.Addition? && b.target.Some? && b.target.value.of.Reference? && b.target.value.name == x
         && !DeclaredBy(ts, h, |h|, x)
       case UnknownTarget =>
         b.target.Some? && (b.target.value.of.Strange? || (b.kind.Removal? && b.target.value.of.Inline?))
  }

  lemma FaultIs(p: Progress, ts: seq<Tool>, h: seq<Block>, i: nat, j: nat, b: Block, why: Problem, raw: bool)
    requires p.Going? && Tells(p, ts, h)
    ensures OneBlock(p, i, j, b, raw) == Stuck(i, j, why) <==> Faulty(b, ts, h, why)
  {
    if b.Change? && b.target.Some? {
      var t := b.target.value;
      TrimmedAway(t.name);
      assert TellsOf(p.known, ts, h, t.name);
      if t.definition.Some? {
        TrimmedAway(t.definition.value.name);
      }
    }
  }

  /** Block j of message i is at fault, in view of the blocks before it. */
  predicate FaultAt(ts: seq<Tool>, ms: seq<Message>, i: nat, j: nat, why: Problem) {
    && i < |ms| && j < |BlocksOf(ms[i])|
    && Faulty(BlocksOf(ms[i])[j], ts, History(ms, i) + BlocksOf(ms[i])[..j], why)
  }

  /** None of the first n blocks is at fault. */
  ghost predicate Fine(ts: seq<Tool>, h: seq<Block>, bs: seq<Block>, n: nat)
    requires n <= |bs|
  {
    forall j: nat, w :: j < n ==> !Faulty(bs[j], ts, h + bs[..j], w)
  }

  ghost predicate BlocksEnd(p: Progress, ts: seq<Tool>, h: seq<Block>, i: nat, bs: seq<Block>, n: nat)
    requires n <= |bs|
  {
    match p
    case Going(_, _) => Fine(ts, h, bs, n)
    case Stuck(k, j, why) => k == i && j < n && Faulty(bs[j], ts, h + bs[..j], why) && Fine(ts, h, bs, j)
  }

  lemma {:induction false} BlocksRefused(p: Progress, ts: seq<Tool>, h: seq<Block>, i: nat, bs: seq<Block>, n: nat,
      raw: bool)
    requires n <= |bs| && p.Going? && Tells(p, ts, h)
    ensures BlocksEnd(ManyBlocks(p, i, bs, n, raw), ts, h, i, bs, n)
  {
    if 0 < n {
      BlocksRefused(p, ts, h, i, bs, n - 1, raw);
      var q := ManyBlocks(p, i, bs, n - 1, raw);
      if q.Going? {
        TellsBlocks(p, ts, h, i, bs, n - 1, raw);
        BlockRefused(q, ts, h, i, bs, n, raw);
      }
    }
  }

  lemma BlockRefused(q: Progress, ts: seq<Tool>, h: seq<Block>, i: nat, bs: seq<Block>, n: nat, raw: bool)
    requires 0 < n <= |bs| && q.Going? && Tells(q, ts, h + bs[..n - 1]) && Fine(ts, h, bs, n - 1)
    ensures BlocksEnd(OneBlock(q, i, n - 1, bs[n - 1], raw), ts, h, i, bs, n)
  {
    var b, before := bs[n - 1], h + bs[..n - 1];
    var r := OneBlock(q, i, n - 1, b, raw);
    if r.Stuck? {
      FaultIs(q, ts, before, i, n - 1, b, r.why, raw);
    } else {
      forall w ensures !Faulty(b, ts, before, w) {
        FaultIs(q, ts, before, i, n - 1, b, w, raw);
      }
    }
  }

  /** No block before block j of message i is at fault. */
  ghost predicate FineBefore(ts: seq<Tool>, ms: seq<Message>, i: nat, j: nat) {
    forall k: nat, l: nat, w :: k < i || (k == i && l < j) ==> !FaultAt(ts, ms, k, l, w)
  }

  ghost predicate MessagesEnd(p: Progress, ts: seq<Tool>, ms: seq<Message>, n: nat) {
    match p
    case Going(_, _) => FineBefore(ts, ms, n, 0)
    case Stuck(i, j, why) => FaultAt(ts, ms, i, j, why) && FineBefore(ts, ms, i, j)
  }

  lemma FineOn(ts: seq<Tool>, ms: seq<Message>, i: nat, j: nat)
    requires i < |ms| && j <= |BlocksOf(ms[i])| && FineBefore(ts, ms, i, 0)
    requires Fine(ts, History(ms, i), BlocksOf(ms[i]), j)
    ensures FineBefore(ts, ms, i, j)
    ensures j == |BlocksOf(ms[i])| ==> FineBefore(ts, ms, i + 1, 0)
  {
  }

  lemma FineAtFirst(ts: seq<Tool>, ms: seq<Message>, raw: bool)
    ensures MessagesEnd(ManyMessages(Opening(ts), ms, 0, raw), ts, ms, 0)
  {
  }

  lemma MessageRefused(p: Progress, ts: seq<Tool>, ms: seq<Message>, i: nat, raw: bool)
    requires i < |ms| && p == ManyMessages(Opening(ts), ms, i, raw)
    requires Tells(p, ts, History(ms, i)) && MessagesEnd(p, ts, ms, i)
    ensures MessagesEnd(ManyMessages(Opening(ts), ms, i + 1, raw), ts, ms, i + 1)
  {
    var bs := BlocksOf(ms[i]);
    var q := ManyBlocks(p, i, bs, |bs|, raw);
    assert ManyMessages(Opening(ts), ms, i + 1, raw) == q;
    if p.Going? {
      BlocksRefused(p, ts, History(ms, i), i, bs, |bs|, raw);
      FineOn(ts, ms, i, if q.Going? then |bs| else q.block);
    } else {
      StuckStays(p, i, bs, 0, |bs|, raw);
    }
  }

  lemma {:induction false} MessagesRefused(ts: seq<Tool>, ms: seq<Message>, n: nat, raw: bool)
    requires n <= |ms|
    ensures MessagesEnd(ManyMessages(Opening(ts), ms, n, raw), ts, ms, n)
  {
    if n == 0 {
      FineAtFirst(ts, ms, raw);
    } else {
      MessagesRefused(ts, ms, n - 1, raw);
      TellsMessages(ts, ms, n - 1, raw);
      MessageRefused(ManyMessages(Opening(ts), ms, n - 1, raw), ts, ms, n - 1, raw);
    }
  }

  /** A conversation is refused at a block, for a reason, exactly when that is what is wrong
      with the block and nothing is wrong with any before it. */
  lemma RefusedIff(ts: seq<Tool>, ms: seq<Message>, i: nat, j: nat, why: Problem)
    ensures Resolve(ms, ts) == Failed(i, j, why) <==> FaultAt(ts, ms, i, j, why) && FineBefore(ts, ms, i, j)
  {
    MessagesRefused(ts, ms, |ms|, false);
    AllInStep(ts, ms, false);
    var p := ManyMessages(Opening(ts), ms, |ms|, false);
    if FaultAt(ts, ms, i, j, why) && FineBefore(ts, ms, i, j) {
      assert p.Stuck?;
      assert FaultAt(ts, ms, p.message, p.block, p.why) && FineBefore(ts, ms, p.message, p.block);
    }
  }

  /** It is accepted exactly when there is nothing wrong with any block, by both drivers. */
  lemma AcceptedIff(r: Request)
    ensures Resolve(r.messages, Declared(r)).Resolved? <==>
            forall i: nat, j: nat, w :: !FaultAt(Declared(r), r.messages, i, j, w)
    ensures Hoist(r).Rewritten? <==> Resolve(r.messages, Declared(r)).Resolved?
  {
    var ts, ms := Declared(r), r.messages;
    MessagesRefused(ts, ms, |ms|, false);
    AllInStep(ts, ms, false);
    DriversAgree(r);
  }

  // ---- what is advertised, in which order ----

  /** Declared, and last removed. */
  predicate Gone(ts: seq<Tool>, h: seq<Block>, x: string) { DeclaredBy(ts, h, |h|, x) && LastRemoves(h, |h|, x) }

  /** Those of the first n names that are not gone, in order. */
  function Staying(xs: seq<string>, ts: seq<Tool>, h: seq<Block>, n: nat): seq<string>
    requires n <= |xs|
  {
    if n == 0 then [] else Staying(xs, ts, h, n - 1) + if Gone(ts, h, xs[n - 1]) then [] else [xs[n - 1]]
  }

  /** Those that are, each once. */
  function Leaving(xs: seq<string>, ts: seq<Tool>, h: seq<Block>, n: nat): seq<string>
    requires n <= |xs|
  {
    if n == 0 then []
    else
      var before := Leaving(xs, ts, h, n - 1);
      if Gone(ts, h, xs[n - 1]) && xs[n - 1] !in before then before + [xs[n - 1]] else before
  }

  ghost predicate RemovedAreGone(s: State, ts: seq<Tool>, h: seq<Block>) {
    forall x :: x in s.removed <==> Gone(ts, h, x)
  }

  lemma {:induction false} ActiveAreStaying(s: State, defs: seq<Tool>, ts: seq<Tool>, h: seq<Block>, n: nat)
    requires n <= |defs| == |s.names| && NamesOf(defs) == s.names && RemovedAreGone(s, ts, h)
    ensures NamesOf(ActiveTools(s, defs, n)) == Staying(s.names, ts, h, n)
  {
    if 0 < n {
      ActiveAreStaying(s, defs, ts, h, n - 1);
      assert s.names[n - 1] == NamesOf(defs)[n - 1] == defs[n - 1].name;
      if Active(s, n - 1) {
        NamesAppend(ActiveTools(s, defs, n - 1), defs[n - 1]);
      } else {
        assert ActiveTools(s, defs, n) == ActiveTools(s, defs, n - 1);
      }
    }
  }

  lemma {:induction false} RemovedAreLeaving(s: State, ts: seq<Tool>, h: seq<Block>, n: nat)
    requires n <= |s.names| && RemovedAreGone(s, ts, h)
    ensures RemovedNames(s, n) == Leaving(s.names, ts, h, n)
  {
    if 0 < n {
      RemovedAreLeaving(s, ts, h, n - 1);
    }
  }

  lemma {:induction false} HoistedAreStaying(s: State, news: seq<string>, ts: seq<Tool>, h: seq<Block>, n: nat)
    requires n <= |news| && RemovedAreGone(s, ts, h) && s.declared + |news| == |s.names|
    requires forall i: nat :: i < |news| ==> s.names[s.declared + i] == news[i]
    ensures ActiveNames(s, s.declared, s.declared + n) == Staying(news, ts, h, n)
  {
    if 0 < n {
      HoistedAreStaying(s, news, ts, h, n - 1);
      var to := s.declared + n;
      assert ActiveNames(s, s.declared, to) ==
             ActiveNames(s, s.declared, to - 1) + if Active(s, to - 1) then [s.names[to - 1]] else [];
    }
  }

  lemma EndIs(ts: seq<Tool>, ms: seq<Message>, raw: bool)
    requires ManyMessages(Opening(ts), ms, |ms|, raw).Going?
    ensures var p, h := ManyMessages(Opening(ts), ms, |ms|, raw), History(ms, |ms|);
            && InStep(p) && RemovedAreGone(p.known, ts, h) && Tells(p, ts, h) && p.known.declared == |ts|
            && p.known.names == NamesOf(ts) + NewNames(ts, h, |h|)
  {
    AllInStep(ts, ms, raw);
    TellsMessages(ts, ms, |ms|, raw);
    SlotsInOrder(ts, ms, |ms|, raw);
    SlotsStay(Opening(ts), ms, |ms|, raw);
    var p, h := ManyMessages(Opening(ts), ms, |ms|, raw), History(ms, |ms|);
    forall x ensures x in p.known.removed <==> Gone(ts, h, x) {
      assert TellsOf(p.known, ts, h, x);
    }
  }

  lemma EndInOrder(s: State, defs: seq<Tool>, ts: seq<Tool>, h: seq<Block>, mine: seq<string>, news: seq<string>)
    requires |defs| == |s.names| && NamesOf(defs) == s.names && RemovedAreGone(s, ts, h)
    requires s.declared == |mine| && s.names == mine + news
    ensures NamesOf(ActiveTools(s, defs, |defs|)) == Staying(s.names, ts, h, |s.names|)
    ensures Hoisted(s) == Staying(news, ts, h, |news|)
    ensures RemovedNames(s, |s.names|) == Leaving(s.names, ts, h, |s.names|)
  {
    ActiveAreStaying(s, defs, ts, h, |defs|);
    RemovedAreLeaving(s, ts, h, |s.names|);
    HoistedAreStaying(s, news, ts, h, |news|);
  }

  /** The advertised tools are the request's and then the introduced ones, in that order,
      less those that are gone; the hoisted names are those introduced and still there, in
      order; and the removed ones are listed in order too, each once. */
  lemma AdvertisedInOrder(ts: seq<Tool>, ms: seq<Message>)
    requires Resolve(ms, ts).Resolved?
    ensures var o, h := Resolve(ms, ts), History(ms, |ms|);
            var news := NewNames(ts, h, |h|);
            var all := NamesOf(ts) + news;
            && NamesOf(o.tools) == Staying(all, ts, h, |all|)
            && o.hoisted == Staying(news, ts, h, |news|)
            && o.removed == Leaving(all, ts, h, |all|)
  {
    AllInStep(ts, ms, false);
    EndIs(ts, ms, false);
    var p, h := ManyMessages(Opening(ts), ms, |ms|, false), History(ms, |ms|);
    var mine, news := NamesOf(ts), NewNames(ts, h, |h|);
    EndInOrder(p.known, p.defs, ts, h, mine, news);
  }

  // ---- which definition a tool has ----

  function FirstIn(ts: seq<Tool>, x: string, n: nat): Option<Tool>
    requires n <= |ts|
  {
    if n == 0 then None
    else if FirstIn(ts, x, n - 1).Some? then FirstIn(ts, x, n - 1)
    else if ts[n - 1].name == x then Some(ts[n - 1]) else None
  }

  /** The definition that holds for x after n blocks: the first in the request, until a block
      defines x while it is undeclared or removed. */
  function Ruling(ts: seq<Tool>, h: seq<Block>, n: nat, x: string): Option<Tool>
    requires n <= |h|
  {
    if n == 0 then FirstIn(ts, x, |ts|)
    else if Defines(h[n - 1], x) && (!DeclaredBy(ts, h, n - 1, x) || LastRemoves(h, n - 1, x)) then
      h[n - 1].target.value.definition
    else Ruling(ts, h, n - 1, x)
  }

  /** What slot k holds: the definition that holds for its name, or an entry of the request
      that repeats a name or has none. */
  function Expected(ts: seq<Tool>, h: seq<Block>, news: seq<string>, k: nat): Option<Tool> {
    if k < |ts| then if FirstNamed(ts, k) then Ruling(ts, h, |h|, ts[k].name) else Some(ts[k])
    else if k - |ts| < |news| then Ruling(ts, h, |h|, news[k - |ts|])
    else None
  }

  lemma {:induction false} RulingBefore(ts: seq<Tool>, h: seq<Block>, more: seq<Block>, n: nat, x: string)
    requires n <= |h|
    ensures Ruling(ts, h + more, n, x) == Ruling(ts, h, n, x)
  {
    if 0 < n {
      RulingBefore(ts, h, more, n - 1, x);
      Prefix(ts, h, more, n - 1, x);
      assert (h + more)[n - 1] == h[n - 1];
    }
  }

  lemma RulingMore(ts: seq<Tool>, h: seq<Block>, b: Block, x: string)
    ensures Ruling(ts, h + [b], |h| + 1, x) ==
            if Defines(b, x) && (!DeclaredBy(ts, h, |h|, x) || LastRemoves(h, |h|, x)) then b.target.value.definition
            else Ruling(ts, h, |h|, x)
  {
    RulingBefore(ts, h, [b], |h|, x);
    Prefix(ts, h, [b], |h|, x);
    assert (h + [b])[|h|] == b;
  }

  /** What one block does to the slot of x in the typed driver. */
  lemma SlotOfName(p: Progress, i: nat, j: nat, b: Block, x: string)
    requires p.Going? && InStep(p) && b.Change? && OneBlock(p, i, j, b, false).Going?
    ensures var q := OneBlock(p, i, j, b, false);
            && InStep(q) && |p.defs| <= |q.defs| <= |p.defs| + 1 && q.known.names[..|p.defs|] == p.known.names
            && (x in p.known.first ==>
                  && x in q.known.first && q.known.first[x] == p.known.first[x] < |p.defs|
                  && (if Defines(b, x) && x in p.known.removed then
                        Some(q.defs[p.known.first[x]]) == b.target.value.definition
                      else q.defs[p.known.first[x]] == p.defs[p.known.first[x]]))
            && (x !in p.known.first && x in q.known.first ==>
                  Defines(b, x) && q.known.first[x] == |p.defs| && Some(q.defs[|p.defs|]) == b.target.value.definition)
  {
    OneBlockInStep(p, i, j, b, false);
    ApplySlots(p.known, b.kind, b.target);
  }

  /** and to a slot that is not the first of its name. */
  lemma SlotBeside(p: Progress, i: nat, j: nat, b: Block, k: nat)
    requires p.Going? && InStep(p) && b.Change? && OneBlock(p, i, j, b, false).Going? && k < |p.defs|
    requires p.known.names[k] in p.known.first ==> p.known.first[p.known.names[k]] != k
    ensures k < |OneBlock(p, i, j, b, false).defs| && OneBlock(p, i, j, b, false).defs[k] == p.defs[k]
  {
    ApplySlots(p.known, b.kind, b.target);
  }

  /** Each name's slot holds the definition that rules it, and the other slots are as the
      request had them. */
  ghost predicate Defined(p: Progress, ts: seq<Tool>, h: seq<Block>) {
    p.Going? ==>
      && |ts| <= |p.defs|
      && (forall x :: x in p.known.first ==>
            p.known.first[x] < |p.defs| && Some(p.defs[p.known.first[x]]) == Ruling(ts, h, |h|, x))
      && (forall k: nat :: k < |ts| && !FirstNamed(ts, k) ==> p.defs[k] == ts[k])
  }

  lemma DefinedName(p: Progress, ts: seq<Tool>, h: seq<Block>, i: nat, j: nat, b: Block, x: string)
    requires p.Going? && InStep(p) && Tells(p, ts, h) && Defined(p, ts, h)
    requires b.Change? && OneBlock(p, i, j, b, false).Going? && x in OneBlock(p, i, j, b, false).known.first
    ensures var q := OneBlock(p, i, j, b, false);
            q.known.first[x] < |q.defs| && Some(q.defs[q.known.first[x]]) == Ruling(ts, h + [b], |h| + 1, x)
  {
    SlotOfName(p, i, j, b, x);
    RulingMore(ts, h, b, x);
    assert TellsOf(p.known, ts, h, x);
  }

  lemma DefinedBlock(p: Progress, ts: seq<Tool>, h: seq<Block>, i: nat, j: nat, b: Block)
    requires InStep(p) && Tells(p, ts, h) && Ordered(p, ts, h) && Defined(p, ts, h)
    ensures Defined(OneBlock(p, i, j, b, false), ts, h + [b])
  {
    var q, g := OneBlock(p, i, j, b, false), h + [b];
    if q.Going? && b.Change? {
      SlotOfName(p, i, j, b, "");
      forall x | x in q.known.first
        ensures q.known.first[x] < |q.defs| && Some(q.defs[q.known.first[x]]) == Ruling(ts, g, |g|, x) {
        DefinedName(p, ts, h, i, j, b, x);
      }
      forall k: nat | k < |ts| && !FirstNamed(ts, k) ensures q.defs[k] == ts[k] {
        NamesStand(p, ts, h);
        FirstNamedIs(p.known, ts, k);
        SlotBeside(p, i, j, b, k);
      }
    } else if q.Going? {
      forall x ensures Ruling(ts, g, |g|, x) == Ruling(ts, h, |h|, x) {
        RulingMore(ts, h, b, x);
      }
    }
  }

  lemma NamesStand(p: Progress, ts: seq<Tool>, h: seq<Block>)
    requires p.Going? && Ordered(p, ts, h)
    ensures |ts| <= |p.known.names| && p.known.names[..|ts|] == NamesOf(ts)
    ensures forall k: nat :: k < |ts| ==> p.known.names[k] == ts[k].name
  {
    assert forall k: nat :: k < |ts| ==> NamesOf(ts)[k] == ts[k].name;
  }

  lemma {:induction false} FirstInIs(ts: seq<Tool>, k: nat, n: nat)
    requires k < n <= |ts| && FirstNamed(ts, k)
    ensures FirstIn(ts, ts[k].name, n) == Some(ts[k])
  {
    if k < n - 1 {
      FirstInIs(ts, k, n - 1);
    } else {
      NotYetIn(ts, ts[k].name, k);
    }
  }

  lemma {:induction false} NotYetIn(ts: seq<Tool>, x: string, n: nat)
    requires n <= |ts| && forall i: nat :: i < n ==> ts[i].name != x
    ensures FirstIn(ts, x, n) == None
  {
    if 0 < n {
      NotYetIn(ts, x, n - 1);
    }
  }

  lemma DefinedOpening(ts: seq<Tool>)
    ensures Defined(Opening(ts), ts, [])
  {
    OpeningInStep(ts);
    var s := Start(NamesOf(ts));
    forall x | x in s.first ensures s.first[x] < |ts| && Some(ts[s.first[x]]) == Ruling(ts, [], 0, x) {
      FirstSlotsAre(NamesOf(ts), |ts|);
      assert s.names[..|ts|] == NamesOf(ts);
      assert x == NamesOf(ts)[s.first[x]] == ts[s.first[x]].name;
      FirstNamedIs(s, ts, s.first[x]);
      FirstInIs(ts, s.first[x], |ts|);
    }
  }

  ghost predicate AllOf(p: Progress, ts: seq<Tool>, h: seq<Block>) {
    InStep(p) && Tells(p, ts, h) && Ordered(p, ts, h) && Defined(p, ts, h)
  }

  lemma AllOfBlock(p: Progress, ts: seq<Tool>, h: seq<Block>, i: nat, j: nat, b: Block)
    requires AllOf(p, ts, h)
    ensures AllOf(OneBlock(p, i, j, b, false), ts, h + [b])
  {
    OneBlockInStep(p, i, j, b, false);
    TellsBlock(p, ts, h, i, j, b, false);
    OrderedBlock(p, ts, h, i, j, b, false);
    DefinedBlock(p, ts, h, i, j, b);
  }

  lemma {:induction false} AllOfBlocks(p: Progress, ts: seq<Tool>, h: seq<Block>, i: nat, bs: seq<Block>, n: nat)
    requires n <= |bs| && AllOf(p, ts, h)
    ensures AllOf(ManyBlocks(p, i, bs, n, false), ts, h + bs[..n])
  {
    if n == 0 {
      assert h + bs[..0] == h;
    } else {
      AllOfBlocks(p, ts, h, i, bs, n - 1);
      AllOfBlock(ManyBlocks(p, i, bs, n - 1, false), ts, h + bs[..n - 1], i, n - 1, bs[n - 1]);
      assert (h + bs[..n - 1]) + [bs[n - 1]] == h + bs[..n];
    }
  }

  lemma AllOfMessage(p: Progress, ts: seq<Tool>, h: seq<Block>, i: nat, bs: seq<Block>)
    requires AllOf(p, ts, h)
    ensures AllOf(ManyBlocks(p, i, bs, |bs|, false), ts, h + bs)
  {
    AllOfBlocks(p, ts, h, i, bs, |bs|);
    assert bs[..|bs|] == bs;
  }

  lemma AllOfOpening(ts: seq<Tool>)
    ensures AllOf(Opening(ts), ts, [])
  {
    KnownOpening(ts);
    DefinedOpening(ts);
  }

  lemma {:induction false} AllOfMessages(ts: seq<Tool>, ms: seq<Message>, n: nat)
    requires n <= |ms|
    ensures AllOf(ManyMessages(Opening(ts), ms, n, false), ts, History(ms, n))
  {
    if n == 0 {
      AllOfOpening(ts);
    } else {
      AllOfMessages(ts, ms, n - 1);
      AllOfMessage(ManyMessages(Opening(ts), ms, n - 1, false), ts, History(ms, n - 1), n - 1, BlocksOf(ms[n - 1]));
    }
  }

  /** The slots that are not gone, each with what it is expected to hold. */
  function Advertisement(ts: seq<Tool>, h: seq<Block>, all: seq<string>, news: seq<string>, n: nat): seq<Tool>
    requires n <= |all|
  {
    if n == 0 then []
    else
      var t := Expected(ts, h, news, n - 1);
      Advertisement(ts, h, all, news, n - 1) + if Gone(ts, h, all[n - 1]) || t.None? then [] else [t.value]
  }

  lemma ExpectedOfRequest(p: Progress, ts: seq<Tool>, h: seq<Block>, news: seq<string>, k: nat)
    requires p.Going? && AllOf(p, ts, h) && k < |ts|
    ensures k < |p.defs| && Expected(ts, h, news, k) == Some(p.defs[k])
  {
    NamesStand(p, ts, h);
    FirstNamedIs(p.known, ts, k);
  }

  lemma ExpectedOfBlocks(p: Progress, ts: seq<Tool>, h: seq<Block>, mine: seq<string>, news: seq<string>, k: nat)
    requires p.Going? && InStep(p) && Defined(p, ts, h) && p.known.names == mine + news
    requires |ts| == |mine| == p.known.declared <= k < |p.defs|
    ensures Expected(ts, h, news, k) == Some(p.defs[k])
  {
    assert p.known.names[k] == news[k - |ts|];
  }

  lemma {:induction false} ActiveAreExpected(p: Progress, ts: seq<Tool>, h: seq<Block>, news: seq<string>, n: nat)
    requires p.Going? && InStep(p) && RemovedAreGone(p.known, ts, h) && n <= |p.defs| == |p.known.names|
    requires forall k: nat :: k < |p.defs| ==> Expected(ts, h, news, k) == Some(p.defs[k])
    ensures ActiveTools(p.known, p.defs, n) == Advertisement(ts, h, p.known.names, news, n)
  {
    if 0 < n {
      ActiveAreExpected(p, ts, h, news, n - 1);
    }
  }

  /** Each advertised tool carries the definition that holds for its name: the request's
      first, or the last one a block brought while the name was undeclared or removed. */
  lemma DefinitionsRule(ts: seq<Tool>, ms: seq<Message>)
    requires Resolve(ms, ts).Resolved?
    ensures var h := History(ms, |ms|);
            var news := NewNames(ts, h, |h|);
            var all := NamesOf(ts) + news;
            Resolve(ms, ts).tools == Advertisement(ts, h, all, news, |all|)
  {
    AllInStep(ts, ms, false);
    EndIs(ts, ms, false);
    AllOfMessages(ts, ms, |ms|);
    var p, h := ManyMessages(Opening(ts), ms, |ms|, false), History(ms, |ms|);
    var news := NewNames(ts, h, |h|);
    forall k: nat | k < |p.defs| ensures Expected(ts, h, news, k) == Some(p.defs[k]) {
      if k < |ts| {
        ExpectedOfRequest(p, ts, h, news, k);
      } else {
        ExpectedOfBlocks(p, ts, h, NamesOf(ts), news, k);
      }
    }
    ActiveAreExpected(p, ts, h, news, |p.defs|);
  }

  // ---- when nothing is left ----

  /** Some tool was removed, and every tool of the request and of the blocks was. */
  ghost predicate AllGone(ts: seq<Tool>, h: seq<Block>) {
    && (exists x :: Gone(ts, h, x))
    && (forall i: nat :: i < |ts| ==> Gone(ts, h, ts[i].name))
    && (forall x :: DeclaredBy(ts, h, |h|, x) ==> Gone(ts, h, x))
  }

  lemma {:induction false} NoneActive(s: State, defs: seq<Tool>, n: nat)
    requires n <= |defs| == |s.names|
    ensures ActiveTools(s, defs, n) == [] <==> forall i: nat :: i < n ==> s.names[i] in s.removed
    ensures RemovedNames(s, n) == [] <==> forall i: nat :: i < n ==> s.names[i] !in s.removed
  {
    if 0 < n {
      NoneActive(s, defs, n - 1);
    }
  }

  /** The slots hold the request's names and the declared ones, and nothing else. */
  ghost predicate Slotted(names: seq<string>, ts: seq<Tool>, h: seq<Block>) {
    && |ts| <= |names| && (forall i: nat :: i < |ts| ==> names[i] == ts[i].name)
    && (forall i: nat :: |ts| <= i < |names| ==> DeclaredBy(ts, h, |h|, names[i]))
    && (forall x :: DeclaredBy(ts, h, |h|, x) ==> x in names)
  }

  lemma SlotsAre(p: Progress, ts: seq<Tool>, h: seq<Block>, mine: seq<string>, news: seq<string>)
    requires p.Going? && InStep(p) && Tells(p, ts, h) && p.known.declared == |ts|
    requires mine == NamesOf(ts) && p.known.names == mine + news
    ensures Slotted(p.known.names, ts, h)
  {
    var s := p.known;
    assert forall i: nat :: i < |ts| ==> s.names[i] == mine[i] == ts[i].name;
    forall x | DeclaredBy(ts, h, |h|, x) ensures x in s.names {
      assert TellsOf(s, ts, h, x);
    }
    forall i: nat | |ts| <= i < |s.names| ensures DeclaredBy(ts, h, |h|, s.names[i]) {
      assert TellsOf(s, ts, h, s.names[i]);
    }
  }

  lemma EmptiedIs(s: State, defs: seq<Tool>, ts: seq<Tool>, h: seq<Block>)
    requires |defs| == |s.names| && RemovedAreGone(s, ts, h) && Slotted(s.names, ts, h)
    ensures ActiveTools(s, defs, |defs|) == [] && RemovedNames(s, |s.names|) != [] <==> AllGone(ts, h)
  {
    NoneActive(s, defs, |defs|);
    var empty := forall i: nat :: i < |s.names| ==> s.names[i] in s.removed;
    if empty {
      forall x | DeclaredBy(ts, h, |h|, x) ensures Gone(ts, h, x) {
        assert x in s.names;
      }
    }
    if AllGone(ts, h) {
      var x :| Gone(ts, h, x);
      assert x in s.names;
    }
  }

  /** The rewritten request loses its tool choice, and its tools, exactly when every tool it
      had or was given is gone; otherwise the choice is as it was. */
  lemma ChoiceIff(r: Request)
    requires Hoist(r).Rewritten?
    ensures var q, h := Hoist(r).request, History(r.messages, |r.messages|);
            if AllGone(Declared(r), h) then q.choice == None && q.tools == None
            else q.choice == r.choice && (r.tools.Some? ==> q.tools.Some?)
  {
    var ts, ms := Declared(r), r.messages;
    var h := History(ms, |ms|);
    if HasChanges(ms) {
      AllInStep(ts, ms, true);
      EndIs(ts, ms, true);
      var p := ManyMessages(Opening(ts), ms, |ms|, true);
      SlotsAre(p, ts, h, NamesOf(ts), NewNames(ts, h, |h|));
      EmptiedIs(p.known, p.defs, ts, h);
    } else {
      UntouchedAll(Opening(ts), ms, |ms|, true);
      EndIs(ts, ms, true);
      assert forall x :: x !in Start(NamesOf(ts)).removed;
      assert forall x :: !Gone(ts, h, x);
    }
  }

  // ---- which messages are left ----

  predicate HoldsOnlyChanges(m: Message) {
    BlocksOf(m) != [] && forall j: nat :: j < |BlocksOf(m)| ==> BlocksOf(m)[j].Change?
  }

  predicate HoldsNoChange(m: Message) { forall j: nat :: j < |BlocksOf(m)| ==> BlocksOf(m)[j].Other? }

  /** The other blocks of a sequence, in order. */
  function OthersOf(bs: seq<Block>): seq<Block> {
    if bs == [] then [] else Kept(bs[0]) + OthersOf(bs[1..])
  }

  function Kept(b: Block): seq<Block> { if b.Other? then [b] else [] }

  lemma {:induction false} OthersMore(bs: seq<Block>, b: Block, all: seq<Block>)
    requires all == bs + [b]
    ensures OthersOf(all) == OthersOf(bs) + Kept(b)
  {
    if bs == [] {
      assert all[1..] == [];
    } else {
      assert all[0] == bs[0] && all[1..] == bs[1..] + [b];
      OthersMore(bs[1..], b, all[1..]);
      Regroup(Kept(bs[0]), OthersOf(bs[1..]), Kept(b));
    }
  }

  lemma Regroup<T>(a: seq<T>, b: seq<T>, c: seq<T>)
    ensures a + (b + c) == (a + b) + c
  {
  }

  lemma {:induction false} OthersAre(bs: seq<Block>, n: nat, part: seq<Block>)
    requires n <= |bs| && part == bs[..n]
    ensures Others(bs, n) == OthersOf(part)
  {
    if 0 < n {
      var less := bs[..n - 1];
      OthersAre(bs, n - 1, less);
      OthersMore(less, bs[n - 1], part);
    }
  }

  lemma {:induction false} ChangesAre(bs: seq<Block>, n: nat)
    requires n <= |bs|
    ensures AnyChange(bs, n) <==> exists j: nat :: j < n && bs[j].Change?
    ensures Others(bs, n) == [] <==> forall j: nat :: j < n ==> bs[j].Change?
  {
    if 0 < n {
      ChangesAre(bs, n - 1);
    }
  }

  /** Message m as it is left: as it was, or with its other blocks alone. */
  predicate LeftOf(out: Message, m: Message) {
    if HoldsNoChange(m) then out == m else out == m.(content := Blocks(OthersOf(BlocksOf(m))))
  }

  lemma StrippedIs(m: Message)
    ensures if HoldsOnlyChanges(m) then Stripped(m) == [] else |Stripped(m)| == 1 && LeftOf(Stripped(m)[0], m)
  {
    var bs := BlocksOf(m);
    assert bs == bs[..|bs|];
    OthersAre(bs, |bs|, bs);
    ChangesAre(bs, |bs|);
  }

  function Spoken(ms: seq<Message>, i: nat): seq<nat>
    requires i < |ms|
  {
    if HoldsOnlyChanges(ms[i]) then [] else [i]
  }

  /** Which of the first n messages hold more than change blocks. */
  function Speaking(ms: seq<Message>, n: nat): (r: seq<nat>)
    requires n <= |ms|
    ensures forall k: nat :: k < |r| ==> r[k] < n
  {
    if n == 0 then [] else Speaking(ms, n - 1) + Spoken(ms, n - 1)
  }

  /** Those, in order, each without its change blocks and otherwise as it was. */
  predicate AllLeft(out: seq<Message>, ms: seq<Message>, at: seq<nat>) {
    |out| == |at| && forall k: nat :: k < |at| ==> at[k] < |ms| && LeftOf(out[k], ms[at[k]])
  }

  lemma LeftMore(out: seq<Message>, ms: seq<Message>, at: seq<nat>, last: seq<Message>, more: seq<nat>,
                 all: seq<Message>, every: seq<nat>)
    requires AllLeft(out, ms, at) && AllLeft(last, ms, more) && all == out + last && every == at + more
    ensures AllLeft(all, ms, every)
  {
    forall k: nat | k < |every| ensures every[k] < |ms| && LeftOf(all[k], ms[every[k]]) {
      assert if k < |at| then every[k] == at[k] && all[k] == out[k]
        else every[k] == more[k - |at|] && all[k] == last[k - |at|];
    }
  }

  lemma OneLeft(ms: seq<Message>, i: nat)
    requires i < |ms|
    ensures AllLeft(Stripped(ms[i]), ms, Spoken(ms, i))
  {
    StrippedIs(ms[i]);
  }

  lemma NoneLeft(ms: seq<Message>)
    ensures AllLeft(StrippedAll(ms, 0), ms, Speaking(ms, 0))
  {
  }

  lemma LeftOn(ms: seq<Message>, n: nat, out: seq<Message>, at: seq<nat>)
    requires n < |ms| && out == StrippedAll(ms, n) && at == Speaking(ms, n) && AllLeft(out, ms, at)
    ensures AllLeft(StrippedAll(ms, n + 1), ms, Speaking(ms, n + 1))
  {
    OneLeft(ms, n);
    StrippedOne(ms, n);
    LeftMore(out, ms, at, Stripped(ms[n]), Spoken(ms, n), StrippedAll(ms, n + 1), Speaking(ms, n + 1));
  }

  lemma {:induction false} MessagesLeft(ms: seq<Message>, n: nat)
    requires n <= |ms|
    ensures AllLeft(StrippedAll(ms, n), ms, Speaking(ms, n))
  {
    if n == 0 {
      NoneLeft(ms);
    } else {
      MessagesLeft(ms, n - 1);
      LeftOn(ms, n - 1, StrippedAll(ms, n - 1), Speaking(ms, n - 1));
    }
  }

  lemma {:induction false} NothingStripped(ms: seq<Message>, n: nat)
    requires n <= |ms| && !HasChanges(ms)
    ensures StrippedAll(ms, n) == ms[..n]
  {
    if 0 < n {
      NothingStripped(ms, n - 1);
      assert Stripped(ms[n - 1]) == [ms[n - 1]];
    }
  }

  /** A rewritten request holds exactly the messages that said more than changes. */
  lemma RequestSays(r: Request)
    requires Hoist(r).Rewritten?
    ensures AllLeft(Hoist(r).request.messages, r.messages, Speaking(r.messages, |r.messages|))
  {
    var ms := r.messages;
    MessagesLeft(ms, |ms|);
    if !HasChanges(ms) {
      NothingStripped(ms, |ms|);
      assert ms[..|ms|] == ms;
    }
  }
}
