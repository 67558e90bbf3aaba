/**
 What the two drivers of a ToolSet have in common, and what a conversation's blocks mean
 for each tool name.
 */
module ToolLaws {
  import opened ToolSet
  import opened ToolChanges
  import opened Wrappers

  // ---- the drivers agree ----

  /** The same tool, up to a deferred flag that the rewriting driver may have taken off. */
  predicate Alike(typed: Tool, raw: Tool) {
    typed.name == raw.name && typed.body == raw.body && (raw.deferred ==> typed.deferred)
  }

  predicate AllAlike(typed: seq<Tool>, raw: seq<Tool>) {
    |typed| == |raw| && forall i: nat :: i < |typed| ==> Alike(typed[i], raw[i])
  }

  ghost predicate SameProgress(p: Progress, q: Progress) {
    match p
    case Stuck(_, _, _) => q == p
    case Going(known, defs) => q.Going? && q.known == known && AllAlike(defs, q.defs)
  }

  lemma SameBlock(p: Progress, q: Progress, i: nat, j: nat, b: Block)
    requires SameProgress(p, q)
    ensures SameProgress(OneBlock(p, i, j, b, false), OneBlock(q, i, j, b, true))
  {
  }

  lemma {:induction false} SameBlocks(p: Progress, q: Progress, i: nat, bs: seq<Block>, n: nat)
    requires n <= |bs| && SameProgress(p, q)
    ensures SameProgress(ManyBlocks(p, i, bs, n, false), ManyBlocks(q, i, bs, n, true))
  {
    if 0 < n {
      SameBlocks(p, q, i, bs, n - 1);
      SameBlock(ManyBlocks(p, i, bs, n - 1, false), ManyBlocks(q, i, bs, n - 1, true), i, n - 1, bs[n - 1]);
    }
  }

  lemma {:induction false} SameMessages(ts: seq<Tool>, ms: seq<Message>, n: nat)
    requires n <= |ms|
    ensures SameProgress(ManyMessages(Opening(ts), ms, n, false), ManyMessages(Opening(ts), ms, n, true))
  {
    if 0 < n {
      SameMessages(ts, ms, n - 1);
      var bs := BlocksOf(ms[n - 1]);
      var p, q := ManyMessages(Opening(ts), ms, n - 1, false), ManyMessages(Opening(ts), ms, n - 1, true);
      SameBlocks(p, q, n - 1, bs, |bs|);
    }
  }

  lemma {:induction false} SameActive(s: State, typed: seq<Tool>, raw: seq<Tool>, n: nat)
    requires n <= |typed| == |s.names| && AllAlike(typed, raw)
    ensures AllAlike(ActiveTools(s, typed, n), ActiveTools(s, raw, n))
  {
    if 0 < n {
      SameActive(s, typed, raw, n - 1);
    }
  }

  lemma {:induction false} Untouched(p: Progress, i: nat, bs: seq<Block>, n: nat, raw: bool)
    requires n <= |bs| && !AnyChange(bs, n)
    ensures ManyBlocks(p, i, bs, n, raw) == p
  {
    if 0 < n {
      Untouched(p, i, bs, n - 1, raw);
    }
  }

  lemma {:induction false} UntouchedAll(p: Progress, ms: seq<Message>, n: nat, raw: bool)
    requires n <= |ms| && forall i: nat :: i < n ==> !HasChange(ms[i])
    ensures ManyMessages(p, ms, n, raw) == p
  {
    if 0 < n {
      UntouchedAll(p, ms, n - 1, raw);
      Untouched(p, n - 1, BlocksOf(ms[n - 1]), |BlocksOf(ms[n - 1])|, raw);
    }
  }

  lemma OneBlockSlots(p: Progress, i: nat, j: nat, b: Block, raw: bool)
    requires OneBlock(p, i, j, b, raw).Going?
    ensures p.Going? && OneBlock(p, i, j, b, raw).known.declared == p.known.declared
  {
  }

  lemma {:induction false} SlotsStayInMessage(p: Progress, i: nat, bs: seq<Block>, n: nat, raw: bool)
    requires n <= |bs| && ManyBlocks(p, i, bs, n, raw).Going?
    ensures p.Going? && ManyBlocks(p, i, bs, n, raw).known.declared == p.known.declared
  {
    if 0 < n {
      OneBlockSlots(ManyBlocks(p, i, bs, n - 1, raw), i, n - 1, bs[n - 1], raw);
      SlotsStayInMessage(p, i, bs, n - 1, raw);
    }
  }

  lemma {:induction false} SlotsStay(p: Progress, ms: seq<Message>, n: nat, raw: bool)
    requires n <= |ms| && ManyMessages(p, ms, n, raw).Going?
    ensures p.Going? && ManyMessages(p, ms, n, raw).known.declared == p.known.declared
  {
    if 0 < n {
      var before, bs := ManyMessages(p, ms, n - 1, raw), BlocksOf(ms[n - 1]);
      assert ManyMessages(p, ms, n, raw) == ManyBlocks(before, n - 1, bs, |bs|, raw);
      SlotsStayInMessage(before, n - 1, bs, |bs|, raw);
      SlotsStay(p, ms, n - 1, raw);
    }
  }

  lemma {:induction false} NoneRemoved(s: State, defs: seq<Tool>, n: nat)
    requires n <= |defs| == |s.names| && s.removed == {}
    ensures ActiveTools(s, defs, n) == defs[..n] && RemovedNames(s, n) == []
  {
    if 0 < n {
      NoneRemoved(s, defs, n - 1);
    }
  }

  /** What the rewritten request advertises. */
  function Advertised(w: Rewrite): seq<Tool>
    requires w.Rewritten?
  {
    Declared(w.request)
  }

  /** On every conversation the two drivers refuse the same first block for the same reason,
      or else advertise the same tools in the same order, up to deferral, and report the
      same names. */
  lemma DriversAgree(r: Request)
    ensures match Resolve(r.messages, Declared(r))
            case Failed(i, j, why) => Hoist(r) == Rejected(i, j, why)
            case Resolved(tools, hoisted, removed) =>
              var w := Hoist(r);
              w.Rewritten? && w.hoisted == hoisted && w.removed == removed && AllAlike(tools, Advertised(w))
  {
    var ms, ts := r.messages, Declared(r);
    SameMessages(ts, ms, |ms|);
    AllInStep(ts, ms, false);
    AllInStep(ts, ms, true);
    var p, q := ManyMessages(Opening(ts), ms, |ms|, false), ManyMessages(Opening(ts), ms, |ms|, true);
    if !HasChanges(ms) {
      UntouchedAll(Opening(ts), ms, |ms|, false);
      NoneRemoved(p.known, ts, |ts|);
    } else if p.Going? {
      SameActive(p.known, p.defs, q.defs, |p.defs|);
      NothingActive(p.known, p.defs, |p.defs|);
      SlotsStay(Opening(ts), ms, |ms|, false);
    }
  }

  /** When no slot is active and no name removed, there are no slots at all. */
  lemma {:induction false} NothingActive(s: State, defs: seq<Tool>, n: nat)
    requires n <= |defs| == |s.names|
    ensures ActiveTools(s, defs, n) == [] && RemovedNames(s, n) == [] ==> n == 0
  {
    if 0 < n {
      NothingActive(s, defs, n - 1);
    }
  }

  // ---- what a conversation means for a name ----

  /** The name a block is about. */
  function Names(b: Block): Option<string> {
    if b.Other? || b.target.None? then None
    else if b.kind.Addition? && b.target.value.of.Inline? then
      if b.target.value.definition.Some? then Some(b.target.value.definition.value.name) else None
    else Some(b.target.value.name)
  }

  predicate Defines(b: Block, x: string) {
    b.Change? && b.kind.Addition? && b.target.Some? && b.target.value.of.Inline? && Names(b) == Some(x)
  }

  /** The request lists the name, or one of the first n blocks defines it. */
  predicate DeclaredBy(ts: seq<Tool>, h: seq<Block>, n: nat, x: string)
    requires n <= |h|
  {
    if n == 0 then x != "" && x in NamesOf(ts)
    else DeclaredBy(ts, h, n - 1, x) || Defines(h[n - 1], x)
  }

  /** Of the first n blocks, the last one about the name removes it. */
  predicate LastRemoves(h: seq<Block>, n: nat, x: string)
    requires n <= |h|
  {
    n != 0 &&
    if h[n - 1].Change? && Names(h[n - 1]) == Some(x) then h[n - 1].kind.Removal? else LastRemoves(h, n - 1, x)
  }

  /** All blocks of the first n messages, in order. */
  function History(ms: seq<Message>, n: nat): seq<Block>
    requires n <= |ms|
  {
    if n == 0 then [] else History(ms, n - 1) + BlocksOf(ms[n - 1])
  }

  lemma {:induction false} Prefix(ts: seq<Tool>, h: seq<Block>, more: seq<Block>, n: nat, x: string)
    requires n <= |h|
    ensures DeclaredBy(ts, h + more, n, x) == DeclaredBy(ts, h, n, x)
    ensures LastRemoves(h + more, n, x) == LastRemoves(h, n, x)
  {
    if 0 < n {
      Prefix(ts, h, more, n - 1, x);
    }
  }

  ghost predicate TellsOf(s: State, ts: seq<Tool>, h: seq<Block>, x: string) {
    && (x in s.first <==> DeclaredBy(ts, h, |h|, x))
    && (x in s.removed <==> DeclaredBy(ts, h, |h|, x) && LastRemoves(h, |h|, x))
  }

  ghost predicate Tells(p: Progress, ts: seq<Tool>, h: seq<Block>) {
    p.Going? ==> forall x :: TellsOf(p.known, ts, h, x)
  }

  lemma OneMore(ts: seq<Tool>, h: seq<Block>, b: Block, x: string)
    ensures var g := h + [b];
            && DeclaredBy(ts, g, |g|, x) == (DeclaredBy(ts, h, |h|, x) || Defines(b, x))
            && LastRemoves(g, |g|, x) ==
               if b.Change? && Names(b) == Some(x) then b.kind.Removal? else LastRemoves(h, |h|, x)
  {
    Prefix(ts, h, [b], |h|, x);
    assert (h + [b])[|h|] == b;
  }

  lemma TellsName(s: State, ts: seq<Tool>, h: seq<Block>, b: Block, x: string)
    requires TellsOf(s, ts, h, x) && b.Change? && Apply(s, b.kind, b.target).1.Accepted?
    ensures TellsOf(Apply(s, b.kind, b.target).0, ts, h + [b], x)
  {
    OneMore(ts, h, b, x);
  }

  lemma TellsBlock(p: Progress, ts: seq<Tool>, h: seq<Block>, i: nat, j: nat, b: Block, raw: bool)
    requires Tells(p, ts, h)
    ensures Tells(OneBlock(p, i, j, b, raw), ts, h + [b])
  {
    var q := OneBlock(p, i, j, b, raw);
    if q.Going? {
      forall x ensures TellsOf(q.known, ts, h + [b], x) {
        assert TellsOf(p.known, ts, h, x);
        if b.Change? {
          TellsName(p.known, ts, h, b, x);
        } else {
          OneMore(ts, h, b, x);
        }
      }
    }
  }

  lemma {:induction false} TellsBlocks(p: Progress, ts: seq<Tool>, h: seq<Block>, i: nat, bs: seq<Block>, n: nat,
      raw: bool)
    requires n <= |bs| && Tells(p, ts, h)
    ensures Tells(ManyBlocks(p, i, bs, n, raw), ts, h + bs[..n])
  {
    if n == 0 {
      assert h + bs[..0] == h;
    } else {
      TellsBlocks(p, ts, h, i, bs, n - 1, raw);
      TellsBlock(ManyBlocks(p, i, bs, n - 1, raw), ts, h + bs[..n - 1], i, n - 1, bs[n - 1], raw);
      assert (h + bs[..n - 1]) + [bs[n - 1]] == h + bs[..n];
    }
  }

  lemma TellsOpening(ts: seq<Tool>)
    ensures Tells(Opening(ts), ts, [])
  {
    FirstSlotsAre(NamesOf(ts), |ts|);
    forall x ensures TellsOf(Start(NamesOf(ts)), ts, [], x) {
    }
  }

  lemma TellsMessage(p: Progress, ts: seq<Tool>, h: seq<Block>, i: nat, bs: seq<Block>, raw: bool)
    requires Tells(p, ts, h)
    ensures Tells(ManyBlocks(p, i, bs, |bs|, raw), ts, h + bs)
  {
    TellsBlocks(p, ts, h, i, bs, |bs|, raw);
    assert bs[..|bs|] == bs;
  }

  lemma {:induction false} TellsMessages(ts: seq<Tool>, ms: seq<Message>, n: nat, raw: bool)
    requires n <= |ms|
    ensures Tells(ManyMessages(Opening(ts), ms, n, raw), ts, History(ms, n))
  {
    if n == 0 {
      TellsOpening(ts);
    } else {
      TellsMessages(ts, ms, n - 1, raw);
      TellsMessage(ManyMessages(Opening(ts), ms, n - 1, raw), ts, History(ms, n - 1), n - 1, BlocksOf(ms[n - 1]), raw);
    }
  }

  // ---- the order of the tools ----

  /** The names the first n blocks define that nothing declared before, in order. */
  function NewNames(ts: seq<Tool>, h: seq<Block>, n: nat): seq<string>
    requires n <= |h|
  {
    if n == 0 then []
    else
      var b, before := h[n - 1], NewNames(ts, h, n - 1);
      if Names(b).Some? && Defines(b, Names(b).value) && !DeclaredBy(ts, h, n - 1, Names(b).value)
      then before + [Names(b).value]
      else before
  }

  lemma {:induction false} NewBefore(ts: seq<Tool>, h: seq<Block>, more: seq<Block>, n: nat)
    requires n <= |h|
    ensures NewNames(ts, h + more, n) == NewNames(ts, h, n)
  {
    if 0 < n {
      NewBefore(ts, h, more, n - 1);
      if Names(h[n - 1]).Some? {
        Prefix(ts, h, more, n - 1, Names(h[n - 1]).value);
      }
      assert (h + more)[n - 1] == h[n - 1];
    }
  }

  ghost predicate Ordered(p: Progress, ts: seq<Tool>, h: seq<Block>) {
    p.Going? ==> p.known.names == NamesOf(ts) + NewNames(ts, h, |h|)
  }

  lemma OrderedBlock(p: Progress, ts: seq<Tool>, h: seq<Block>, i: nat, j: nat, b: Block, raw: bool)
    requires Tells(p, ts, h) && Ordered(p, ts, h)
    ensures Ordered(OneBlock(p, i, j, b, raw), ts, h + [b])
  {
    var q, g := OneBlock(p, i, j, b, raw), h + [b];
    if q.Going? {
      NewBefore(ts, h, [b], |h|);
      assert g[|h|] == b;
      if Names(b).Some? {
        var x := Names(b).value;
        Prefix(ts, h, [b], |h|, x);
        assert TellsOf(p.known, ts, h, x);
      }
    }
  }

  lemma {:induction false} OrderedBlocks(p: Progress, ts: seq<Tool>, h: seq<Block>, i: nat, bs: seq<Block>, n: nat,
      raw: bool)
    requires n <= |bs| && Tells(p, ts, h) && Ordered(p, ts, h)
    ensures Ordered(ManyBlocks(p, i, bs, n, raw), ts, h + bs[..n])
  {
    if n == 0 {
      assert h + bs[..0] == h;
    } else {
      OrderedBlocks(p, ts, h, i, bs, n - 1, raw);
      TellsBlocks(p, ts, h, i, bs, n - 1, raw);
      OrderedBlock(ManyBlocks(p, i, bs, n - 1, raw), ts, h + bs[..n - 1], i, n - 1, bs[n - 1], raw);
      assert (h + bs[..n - 1]) + [bs[n - 1]] == h + bs[..n];
    }
  }

  lemma OrderedMessage(p: Progress, ts: seq<Tool>, h: seq<Block>, i: nat, bs: seq<Block>, raw: bool)
    requires Tells(p, ts, h) && Ordered(p, ts, h)
    ensures Ordered(ManyBlocks(p, i, bs, |bs|, raw), ts, h + bs)
  {
    OrderedBlocks(p, ts, h, i, bs, |bs|, raw);
    assert bs[..|bs|] == bs;
  }

  /** The slots are the request's tools, then each name the conversation introduced, in the
      order it did. */
  lemma {:induction false} SlotsInOrder(ts: seq<Tool>, ms: seq<Message>, n: nat, raw: bool)
    requires n <= |ms|
    ensures Ordered(ManyMessages(Opening(ts), ms, n, raw), ts, History(ms, n))
  {
    if n == 0 {
      assert NamesOf(ts) + [] == NamesOf(ts);
    } else {
      SlotsInOrder(ts, ms, n - 1, raw);
      TellsMessages(ts, ms, n - 1, raw);
      var p := ManyMessages(Opening(ts), ms, n - 1, raw);
      OrderedMessage(p, ts, History(ms, n - 1), n - 1, BlocksOf(ms[n - 1]), raw);
    }
  }

  // ---- which names are advertised ----

  lemma {:induction false} ActiveNamed(s: State, defs: seq<Tool>, n: nat, x: string)
    requires n <= |defs| == |s.names| && NamesOf(defs) == s.names
    ensures x in NamesOf(ActiveTools(s, defs, n)) <==> x !in s.removed && x in s.names[..n]
  {
    if 0 < n {
      ActiveNamed(s, defs, n - 1, x);
      assert s.names[..n] == s.names[..n - 1] + [s.names[n - 1]];
      if Active(s, n - 1) {
        NamesAppend(ActiveTools(s, defs, n - 1), defs[n - 1]);
      } else {
        assert ActiveTools(s, defs, n) == ActiveTools(s, defs, n - 1);
      }
    }
  }

  /** A name is advertised exactly when the request or a block declares it and the last
      block about it is not a removal. */
  lemma AdvertisedIff(ts: seq<Tool>, ms: seq<Message>, x: string)
    requires Resolve(ms, ts).Resolved? && x != ""
    ensures var h := History(ms, |ms|);
            x in NamesOf(Resolve(ms, ts).tools) <==> DeclaredBy(ts, h, |h|, x) && !LastRemoves(h, |h|, x)
  {
    TellsMessages(ts, ms, |ms|, false);
    AllInStep(ts, ms, false);
    var p := ManyMessages(Opening(ts), ms, |ms|, false);
    ActiveNamed(p.known, p.defs, |p.defs|, x);
    assert p.known.names[..|p.defs|] == p.known.names;
    assert x in p.known.names <==> x in p.known.first;
    assert TellsOf(p.known, ts, History(ms, |ms|), x);
  }

  /** The names reported removed are exactly those declared and last removed, once each;
      the names reported hoisted are exactly the advertised ones that the request did not
      list, once each. */
  lemma ReportedIff(ts: seq<Tool>, ms: seq<Message>, x: string)
    requires Resolve(ms, ts).Resolved?
    ensures var h := History(ms, |ms|); var r := Resolve(ms, ts);
            && Distinct(r.removed) && Distinct(r.hoisted)
            && (x in r.removed <==> DeclaredBy(ts, h, |h|, x) && LastRemoves(h, |h|, x))
            && (x in r.hoisted <==> x !in NamesOf(ts) && DeclaredBy(ts, h, |h|, x) && !LastRemoves(h, |h|, x))
  {
    TellsMessages(ts, ms, |ms|, false);
    SlotsInOrder(ts, ms, |ms|, false);
    SlotsStay(Opening(ts), ms, |ms|, false);
    AllInStep(ts, ms, false);
    var p := ManyMessages(Opening(ts), ms, |ms|, false);
    assert TellsOf(p.known, ts, History(ms, |ms|), x);
    RemovedAre(p.known);
    HoistedAre(p.known);
    if x in p.known.first {
      IntroducedIff(p.known, ts, x);
    }
  }

  /** A name's first slot is past the request's tools exactly when the request does not
      list it. */
  lemma IntroducedIff(s: State, ts: seq<Tool>, x: string)
    requires Sound(s) && s.declared == |ts| && x in s.first
    requires |ts| <= |s.names| && s.names[..|ts|] == NamesOf(ts)
    ensures s.declared <= s.first[x] <==> x !in NamesOf(ts)
  {
    assert forall i: nat :: i < |ts| ==> s.names[i] == s.names[..|ts|][i] == NamesOf(ts)[i];
  }

  // ---- which definition a name keeps ----

  /** No block about the name removes it. */
  predicate NeverRemoved(h: seq<Block>, n: nat, x: string)
    requires n <= |h|
  {
    n == 0 || (NeverRemoved(h, n - 1, x) && !(h[n - 1].Change? && h[n - 1].kind.Removal? && Names(h[n - 1]) == Some(x)))
  }

  /** From p to q the name stays active, with the definition it had; the rewriting driver
      may take its deferred flag off. */
  ghost predicate Holds(p: Progress, q: Progress, x: string, raw: bool) {
    && p.Going? && q.Going?
    && x in p.known.first && x in q.known.first && x !in q.known.removed
    && var slot := p.known.first[x];
       && q.known.first[x] == slot && slot < |p.defs| && slot < |q.defs|
       && Alike(p.defs[slot], q.defs[slot]) && (!raw ==> q.defs[slot] == p.defs[slot])
  }

  lemma FirstWinsBlock(o: Progress, p: Progress, i: nat, j: nat, b: Block, x: string, raw: bool)
    requires InStep(p) && Holds(o, p, x, raw) && OneBlock(p, i, j, b, raw).Going?
    requires !(b.Change? && b.kind.Removal? && Names(b) == Some(x))
    ensures Holds(o, OneBlock(p, i, j, b, raw), x, raw)
  {
    if b.Change? {
      ApplySlots(p.known, b.kind, b.target);
    }
  }

  lemma {:induction false} FirstWinsInMessage(o: Progress, p: Progress, i: nat, bs: seq<Block>, n: nat, x: string,
      raw: bool)
    requires n <= |bs| && InStep(p) && Holds(o, p, x, raw) && ManyBlocks(p, i, bs, n, raw).Going?
    requires NeverRemoved(bs, n, x)
    ensures Holds(o, ManyBlocks(p, i, bs, n, raw), x, raw)
  {
    if 0 < n {
      var before := ManyBlocks(p, i, bs, n - 1, raw);
      assert before.Going?;
      BlocksInStep(p, i, bs, n - 1, raw);
      FirstWinsInMessage(o, p, i, bs, n - 1, x, raw);
      FirstWinsBlock(o, before, i, n - 1, bs[n - 1], x, raw);
    }
  }

  /** The first declaration wins, in either driver: while no block removes an active name,
      no later definition of it changes anything. */
  lemma {:induction false} FirstWins(p: Progress, ms: seq<Message>, n: nat, x: string, raw: bool)
    requires n <= |ms| && InStep(p) && Holds(p, p, x, raw) && ManyMessages(p, ms, n, raw).Going?
    requires forall k: nat :: k < n ==> NeverRemoved(BlocksOf(ms[k]), |BlocksOf(ms[k])|, x)
    ensures Holds(p, ManyMessages(p, ms, n, raw), x, raw)
  {
    if 0 < n {
      var before, bs := ManyMessages(p, ms, n - 1, raw), BlocksOf(ms[n - 1]);
      if before.Stuck? {
        StuckRests(p, ms, n - 1, n, raw);
      }
      MessagesInStep(p, ms, n - 1, raw);
      FirstWins(p, ms, n - 1, x, raw);
      FirstWinsInMessage(p, before, n - 1, bs, |bs|, x, raw);
    }
  }

  // ---- what stays deferred ----

  /** One of the first n blocks calls for the name: by reference, or by a definition that
      brings it back. */
  predicate CalledFor(h: seq<Block>, n: nat, x: string)
    requires n <= |h|
  {
    n != 0 && (CalledFor(h, n - 1, x) || Calls(h[n - 1], x, LastRemoves(h, n - 1, x)))
  }

  predicate Calls(b: Block, x: string, removed: bool) {
    Names(b) == Some(x) && (Recalls(b) || (Defines(b, x) && removed))
  }

  predicate FirstNamed(ts: seq<Tool>, k: nat)
    requires k < |ts|
  {
    ts[k].name != "" && forall i: nat :: i < k ==> ts[i].name != ts[k].name
  }

  /** The request deferred the tool in slot k, and nothing called for it since. */
  predicate StillDeferred(ts: seq<Tool>, h: seq<Block>, n: nat, k: nat)
    requires n <= |h|
  {
    k < |ts| && ts[k].deferred && !(FirstNamed(ts, k) && CalledFor(h, n, ts[k].name))
  }

  ghost predicate TellsDeferred(p: Progress, ts: seq<Tool>, h: seq<Block>) {
    p.Going? ==> forall k: nat :: k < |p.defs| ==> (p.defs[k].deferred <==> StillDeferred(ts, h, |h|, k))
  }

  /** Everything known of a point in a conversation. */
  ghost predicate Known(p: Progress, ts: seq<Tool>, h: seq<Block>) {
    InStep(p) && Tells(p, ts, h) && Ordered(p, ts, h) && TellsDeferred(p, ts, h)
  }

  lemma {:induction false} CalledBefore(h: seq<Block>, more: seq<Block>, n: nat, x: string)
    requires n <= |h|
    ensures CalledFor(h + more, n, x) == CalledFor(h, n, x)
  {
    if 0 < n {
      CalledBefore(h, more, n - 1, x);
      Prefix([], h, more, n - 1, x);
      assert (h + more)[n - 1] == h[n - 1];
    }
  }

  lemma CalledMore(h: seq<Block>, b: Block, x: string)
    ensures var g := h + [b]; CalledFor(g, |g|, x) == (CalledFor(h, |h|, x) || Calls(b, x, LastRemoves(h, |h|, x)))
  {
    CalledBefore(h, [b], |h|, x);
    Prefix([], h, [b], |h|, x);
    assert (h + [b])[|h|] == b;
  }

  /** A slot of the request is the first of its name exactly when it is the name's slot. */
  lemma FirstNamedIs(s: State, ts: seq<Tool>, k: nat)
    requires Sound(s) && k < |ts| <= |s.names| && s.names[..|ts|] == NamesOf(ts)
    ensures FirstNamed(ts, k) <==> ts[k].name in s.first && s.first[ts[k].name] == k
  {
    assert forall i: nat :: i < |ts| ==> s.names[i] == s.names[..|ts|][i] == ts[i].name;
  }

  /** One block takes the flag off one slot at most: that of the name it calls for. */
  lemma DeferredSlot(p: Progress, ts: seq<Tool>, h: seq<Block>, i: nat, j: nat, b: Block, k: nat)
    requires Known(p, ts, h) && p.Going? && b.Change? && OneBlock(p, i, j, b, true).Going?
    requires k < |OneBlock(p, i, j, b, true).defs|
    ensures OneBlock(p, i, j, b, true).defs[k].deferred <==> StillDeferred(ts, h + [b], |h| + 1, k)
  {
    ApplySlots(p.known, b.kind, b.target);
    if k < |ts| {
      var x := ts[k].name;
      assert p.known.names[..|ts|] == NamesOf(ts);
      FirstNamedIs(p.known, ts, k);
      CalledMore(h, b, x);
      assert TellsOf(p.known, ts, h, x);
      assert p.known.names[k] == NamesOf(ts)[k] == x;
    }
    if Names(b).Some? {
      assert TellsOf(p.known, ts, h, Names(b).value);
    }
  }

  lemma KnownBlock(p: Progress, ts: seq<Tool>, h: seq<Block>, i: nat, j: nat, b: Block)
    requires Known(p, ts, h)
    ensures Known(OneBlock(p, i, j, b, true), ts, h + [b])
  {
    var q := OneBlock(p, i, j, b, true);
    OneBlockInStep(p, i, j, b, true);
    TellsBlock(p, ts, h, i, j, b, true);
    OrderedBlock(p, ts, h, i, j, b, true);
    if q.Going? {
      forall k: nat | k < |q.defs| ensures q.defs[k].deferred <==> StillDeferred(ts, h + [b], |h + [b]|, k) {
        if b.Change? {
          DeferredSlot(p, ts, h, i, j, b, k);
        } else if k < |ts| {
          CalledMore(h, b, ts[k].name);
        }
      }
    }
  }

  lemma {:induction false} KnownBlocks(p: Progress, ts: seq<Tool>, h: seq<Block>, i: nat, bs: seq<Block>, n: nat)
    requires n <= |bs| && Known(p, ts, h)
    ensures Known(ManyBlocks(p, i, bs, n, true), ts, h + bs[..n])
  {
    if n == 0 {
      assert h + bs[..0] == h;
    } else {
      KnownBlocks(p, ts, h, i, bs, n - 1);
      KnownBlock(ManyBlocks(p, i, bs, n - 1, true), ts, h + bs[..n - 1], i, n - 1, bs[n - 1]);
      assert (h + bs[..n - 1]) + [bs[n - 1]] == h + bs[..n];
    }
  }

  lemma KnownMessage(p: Progress, ts: seq<Tool>, h: seq<Block>, i: nat, bs: seq<Block>)
    requires Known(p, ts, h)
    ensures Known(ManyBlocks(p, i, bs, |bs|, true), ts, h + bs)
  {
    KnownBlocks(p, ts, h, i, bs, |bs|);
    assert bs[..|bs|] == bs;
  }

  lemma KnownOpening(ts: seq<Tool>)
    ensures Known(Opening(ts), ts, [])
  {
    OpeningInStep(ts);
    TellsOpening(ts);
    assert NamesOf(ts) + [] == NamesOf(ts);
  }

  lemma {:induction false} KnownMessages(ts: seq<Tool>, ms: seq<Message>, n: nat)
    requires n <= |ms|
    ensures Known(ManyMessages(Opening(ts), ms, n, true), ts, History(ms, n))
  {
    if n == 0 {
      KnownOpening(ts);
    } else {
      KnownMessages(ts, ms, n - 1);
      KnownMessage(ManyMessages(Opening(ts), ms, n - 1, true), ts, History(ms, n - 1), n - 1, BlocksOf(ms[n - 1]));
    }
  }

  /** After the rewrite a slot is deferred if and only if the request deferred it and no
      block called for it. */
  lemma DeferredIff(ts: seq<Tool>, ms: seq<Message>, k: nat)
    requires var p := ManyMessages(Opening(ts), ms, |ms|, true); p.Going? && k < |p.defs|
    ensures var h := History(ms, |ms|);
            ManyMessages(Opening(ts), ms, |ms|, true).defs[k].deferred <==> StillDeferred(ts, h, |h|, k)
  {
    KnownMessages(ts, ms, |ms|);
  }

  /** A definition that follows a removal replaces the old one, in its old slot. */
  lemma LatestAfterRemoval(p: Progress, i: nat, j: nat, b: Block, x: string, raw: bool)
    requires InStep(p) && p.Going? && Defines(b, x) && x in p.known.removed && OneBlock(p, i, j, b, raw).Going?
    ensures var q := OneBlock(p, i, j, b, raw);
            && q.known.names == p.known.names && q.known.first == p.known.first && x !in q.known.removed
            && q.known.first[x] < |q.defs|
            && q.defs[q.known.first[x]] == Brought(b, raw).value
            && forall k: nat :: k < |q.defs| && k != q.known.first[x] ==> q.defs[k] == p.defs[k]
  {
    ApplySlots(p.known, b.kind, b.target);
  }

  // ---- the rewritten messages ----

  function SaidBy(m: Message): seq<Block> { Others(BlocksOf(m), |BlocksOf(m)|) }

  /** What is said, change blocks aside. */
  function Said(ms: seq<Message>, n: nat): seq<Block>
    requires n <= |ms|
  {
    if n == 0 then [] else Said(ms, n - 1) + SaidBy(ms[n - 1])
  }

  lemma {:induction false} OthersOnly(bs: seq<Block>, n: nat)
    requires n <= |bs|
    ensures forall k: nat :: k < |Others(bs, n)| ==> Others(bs, n)[k].Other?
  {
    if 0 < n {
      OthersOnly(bs, n - 1);
    }
  }

  lemma {:induction false} OthersOfOthers(bs: seq<Block>, n: nat)
    requires n <= |bs| && forall k: nat :: k < |bs| ==> bs[k].Other?
    ensures Others(bs, n) == bs[..n] && !AnyChange(bs, n)
  {
    if 0 < n {
      OthersOfOthers(bs, n - 1);
    }
  }

  lemma StrippedSays(m: Message)
    ensures var r := Stripped(m);
            && |r| <= 1 && (r != [] ==> !HasChange(r[0]) && r[0].role == m.role)
            && SaidBy(m) == (if r == [] then [] else SaidBy(r[0]))
  {
    var rest := Others(BlocksOf(m), |BlocksOf(m)|);
    OthersOnly(BlocksOf(m), |BlocksOf(m)|);
    OthersOfOthers(rest, |rest|);
    assert rest[..|rest|] == rest;
  }

  lemma {:induction false} SaidBefore(ms: seq<Message>, more: seq<Message>, n: nat)
    requires n <= |ms|
    ensures Said(ms + more, n) == Said(ms, n)
  {
    if 0 < n {
      SaidBefore(ms, more, n - 1);
      assert (ms + more)[n - 1] == ms[n - 1];
    }
  }

  lemma SaidMore(ms: seq<Message>, m: Message, all: seq<Message>)
    requires all == ms + [m]
    ensures Said(all, |all|) == Said(ms, |ms|) + SaidBy(m)
  {
    SaidBefore(ms, [m], |ms|);
    assert all[|ms|] == m;
    assert Said(all, |ms| + 1) == Said(all, |ms|) + SaidBy(all[|ms|]);
  }

  predicate Clean(ms: seq<Message>) { forall i: nat :: i < |ms| ==> !HasChange(ms[i]) }

  /** No change block is left, and nothing else of the first n messages is lost. */
  ghost predicate Faithful(out: seq<Message>, ms: seq<Message>, n: nat)
    requires n <= |ms|
  {
    Clean(out) && Said(out, |out|) == Said(ms, n)
  }

  lemma FaithfulMore(out: seq<Message>, ms: seq<Message>, n: nat)
    requires n < |ms| && Faithful(out, ms, n)
    ensures Faithful(out + Stripped(ms[n]), ms, n + 1)
  {
    var last, all := Stripped(ms[n]), out + Stripped(ms[n]);
    StrippedSays(ms[n]);
    if last == [] {
      assert all == out;
    } else {
      assert last == [last[0]];
      SaidMore(out, last[0], all);
    }
  }

  lemma FaithfulNone(ms: seq<Message>)
    ensures Faithful(StrippedAll(ms, 0), ms, 0)
  {
  }

  lemma StrippedOne(ms: seq<Message>, n: nat)
    requires n < |ms|
    ensures StrippedAll(ms, n + 1) == StrippedAll(ms, n) + Stripped(ms[n])
  {
  }

  lemma {:induction false} StrippedFaithful(ms: seq<Message>, n: nat)
    requires n <= |ms|
    ensures Faithful(StrippedAll(ms, n), ms, n)
  {
    if n == 0 {
      FaithfulNone(ms);
    } else {
      var m, out := n - 1, StrippedAll(ms, n - 1);
      StrippedFaithful(ms, m);
      FaithfulMore(out, ms, m);
      StrippedOne(ms, m);
    }
  }

  /** The rewritten messages hold no change block and lose nothing else. */
  lemma OnlyChangesLeave(ms: seq<Message>)
    ensures Faithful(StrippedAll(ms, |ms|), ms, |ms|)
  {
    StrippedFaithful(ms, |ms|);
  }

  /** Rewriting the rewritten request changes nothing. */
  lemma HoistAgain(r: Request)
    requires Hoist(r).Rewritten?
    ensures Hoist(Hoist(r).request) == Rewritten(Hoist(r).request, [], [])
  {
    OnlyChangesLeave(r.messages);
  }
}
