/**
 The two drivers of a ToolSet: one over decoded messages, which only decides what to
 advertise, and one that also rewrites the request it was given.
 */
module ToolChanges {
  import opened ToolSet
  import opened Wrappers

  datatype Block = Other(text: string) | Change(kind: Kind, target: Option<Target>)

  datatype Content = Nothing | Plain(text: string) | Blocks(blocks: seq<Block>)

  datatype Message = Message(role: string, content: Content)

  datatype Request = Request(messages: seq<Message>, tools: Option<seq<Tool>>, choice: Option<string>)

  /** After some blocks: the set and the definition in each slot, or the block that was
      refused. */
  datatype Progress = Going(known: State, defs: seq<Tool>) | Stuck(message: nat, block: nat, why: Problem)

  datatype Outcome = Failed(message: nat, block: nat, why: Problem)
                   | Resolved(tools: seq<Tool>, hoisted: seq<string>, removed: seq<string>)

  datatype Rewrite = Rejected(message: nat, block: nat, why: Problem)
                   | Rewritten(request: Request, hoisted: seq<string>, removed: seq<string>)

  function NamesOf(ts: seq<Tool>): seq<string> { seq(|ts|, i requires 0 <= i < |ts| => ts[i].name) }

  ghost predicate InStep(p: Progress) {
    p.Going? ==> Sound(p.known) && NamesOf(p.defs) == p.known.names
  }

  function Opening(ts: seq<Tool>): Progress { Going(Start(NamesOf(ts)), ts) }

  lemma OpeningInStep(ts: seq<Tool>)
    ensures InStep(Opening(ts))
  {
    StartSound(NamesOf(ts));
  }

  predicate Recalls(b: Block) { b.Change? && b.kind.Addition? && b.target.Some? && b.target.value.of.Reference? }

  /** The definition a block brings; the rewriting driver takes the deferred flag off. */
  function Brought(b: Block, raw: bool): Option<Tool> {
    if b.Change? && b.target.Some? && b.target.value.definition.Some? then
      var d := b.target.value.definition.value;
      Some(if raw then d.(deferred := false) else d)
    else None
  }

  /** A definition goes into its slot, or into a new one at the end. */
  function Put(defs: seq<Tool>, slot: nat, d: Tool): seq<Tool> {
    if slot < |defs| then defs[slot := d] else defs + [d]
  }

  /** One block; raw is the driver that rewrites. */
  function OneBlock(p: Progress, i: nat, j: nat, b: Block, raw: bool): Progress {
    if p.Stuck? || b.Other? then p
    else
      var (known, v) := Apply(p.known, b.kind, b.target);
      match v
      case Refused(why) => Stuck(i, j, why)
      case Accepted(Edit(None, _)) => Going(known, p.defs)
      case Accepted(Edit(Some(slot), store)) =>
        if store && Brought(b, raw).Some? then Going(known, Put(p.defs, slot, Brought(b, raw).value))
        else if raw && Recalls(b) && slot < |p.defs| then
          Going(known, p.defs[slot := p.defs[slot].(deferred := false)])
        else Going(known, p.defs)
  }

  lemma NamesAppend(ts: seq<Tool>, t: Tool)
    ensures NamesOf(ts + [t]) == NamesOf(ts) + [t.name]
  {
  }

  lemma NamesUpdate(ts: seq<Tool>, slot: nat, t: Tool)
    requires slot < |ts| && ts[slot].name == t.name
    ensures NamesOf(ts[slot := t]) == NamesOf(ts)
  {
  }

  /** An edit that stores, stores under the name of its slot. */
  lemma StoresInPlace(s: State, k: Kind, t: Option<Target>)
    requires Sound(s)
    ensures var (n, v) := Apply(s, k, t);
            && (v.Refused? ==> n == s)
            && (v.Accepted? && v.edit.store ==>
                  && t.value.definition.Some? && n.names[v.edit.slot.value] == t.value.definition.value.name
                  && n.names ==
                     if v.edit.slot.value == |s.names| then s.names + [t.value.definition.value.name] else s.names)
            && (v.Accepted? && !v.edit.store ==> n.names == s.names)
  {
  }

  lemma OneBlockInStep(p: Progress, i: nat, j: nat, b: Block, raw: bool)
    requires InStep(p)
    ensures InStep(OneBlock(p, i, j, b, raw))
  {
    if p.Going? && b.Change? {
      ApplySound(p.known, b.kind, b.target);
      ApplySlots(p.known, b.kind, b.target);
      StoresInPlace(p.known, b.kind, b.target);
      var n := OneBlock(p, i, j, b, raw);
      var v := Apply(p.known, b.kind, b.target).1;
      if v.Accepted? && v.edit.slot.Some? {
        var slot := v.edit.slot.value;
        if slot == |p.defs| {
          NamesAppend(p.defs, n.defs[slot]);
        } else if n.defs != p.defs {
          NamesUpdate(p.defs, slot, n.defs[slot]);
        }
      }
    }
  }

  /** The first n blocks of a message. */
  function ManyBlocks(p: Progress, i: nat, bs: seq<Block>, n: nat, raw: bool): Progress
    requires n <= |bs|
  {
    if n == 0 then p else OneBlock(ManyBlocks(p, i, bs, n - 1, raw), i, n - 1, bs[n - 1], raw)
  }

  lemma {:induction false} BlocksInStep(p: Progress, i: nat, bs: seq<Block>, n: nat, raw: bool)
    requires n <= |bs| && InStep(p)
    ensures InStep(ManyBlocks(p, i, bs, n, raw))
  {
    if 0 < n {
      BlocksInStep(p, i, bs, n - 1, raw);
      OneBlockInStep(ManyBlocks(p, i, bs, n - 1, raw), i, n - 1, bs[n - 1], raw);
    }
  }

  function BlocksOf(m: Message): seq<Block> { if m.content.Blocks? then m.content.blocks else [] }

  /** The first n messages. */
  function ManyMessages(p: Progress, ms: seq<Message>, n: nat, raw: bool): Progress
    requires n <= |ms|
  {
    if n == 0 then p
    else ManyBlocks(ManyMessages(p, ms, n - 1, raw), n - 1, BlocksOf(ms[n - 1]), |BlocksOf(ms[n - 1])|, raw)
  }

  lemma {:induction false} MessagesInStep(p: Progress, ms: seq<Message>, n: nat, raw: bool)
    requires n <= |ms| && InStep(p)
    ensures InStep(ManyMessages(p, ms, n, raw))
  {
    if 0 < n {
      MessagesInStep(p, ms, n - 1, raw);
      BlocksInStep(ManyMessages(p, ms, n - 1, raw), n - 1, BlocksOf(ms[n - 1]), |BlocksOf(ms[n - 1])|, raw);
    }
  }

  lemma AllInStep(ts: seq<Tool>, ms: seq<Message>, raw: bool)
    ensures InStep(ManyMessages(Opening(ts), ms, |ms|, raw))
  {
    OpeningInStep(ts);
    MessagesInStep(Opening(ts), ms, |ms|, raw);
  }

  /** The definitions in the first n slots that are active. */
  function ActiveTools(s: State, defs: seq<Tool>, n: nat): seq<Tool>
    requires n <= |defs| == |s.names|
  {
    if n == 0 then []
    else ActiveTools(s, defs, n - 1) + if Active(s, n - 1) then [defs[n - 1]] else []
  }

  function Resolve(ms: seq<Message>, declared: seq<Tool>): Outcome {
    AllInStep(declared, ms, false);
    match ManyMessages(Opening(declared), ms, |ms|, false)
    case Stuck(i, j, why) => Failed(i, j, why)
    case Going(known, defs) =>
      Resolved(ActiveTools(known, defs, |defs|), Hoisted(known), RemovedNames(known, |known.names|))
  }

  // ---- the typed driver ----

  lemma {:induction false} StuckStays(p: Progress, i: nat, bs: seq<Block>, n: nat, m: nat, raw: bool)
    requires n <= m <= |bs| && ManyBlocks(p, i, bs, n, raw).Stuck?
    ensures ManyBlocks(p, i, bs, m, raw) == ManyBlocks(p, i, bs, n, raw)
  {
    if n < m {
      StuckStays(p, i, bs, n, m - 1, raw);
    }
  }

  lemma {:induction false} StuckRests(p: Progress, ms: seq<Message>, n: nat, m: nat, raw: bool)
    requires n <= m <= |ms| && ManyMessages(p, ms, n, raw).Stuck?
    ensures ManyMessages(p, ms, m, raw) == ManyMessages(p, ms, n, raw)
  {
    if n < m {
      StuckRests(p, ms, n, m - 1, raw);
      var q, bs := ManyMessages(p, ms, m - 1, raw), BlocksOf(ms[m - 1]);
      StuckStays(q, m - 1, bs, 0, |bs|, raw);
    }
  }

  method ListActive(known: Tools, defs: seq<Tool>) returns (tools: seq<Tool>)
    requires |defs| == |known.names|
    ensures tools == ActiveTools(known.View(), defs, |defs|)
  {
    tools := [];
    for slot := 0 to |defs|
      invariant tools == ActiveTools(known.View(), defs, slot)
    {
      if known.names[slot] !in known.removed {
        tools := tools + [defs[slot]];
      }
    }
  }

  /** One block of the typed driver. */
  method TakeTyped(known: Tools, defs: seq<Tool>, b: Block, ghost i: nat, ghost j: nat)
    returns (after: seq<Tool>, failed: Option<Problem>)
    requires InStep(Going(known.View(), defs)) && b.Change?
    modifies known
    ensures failed.None? ==> InStep(Going(known.View(), after))
    ensures OneBlock(Going(old(known.View()), defs), i, j, b, false) ==
            if failed.Some? then Stuck(i, j, failed.value) else Going(known.View(), after)
  {
    after, failed := defs, None;
    var before := |known.names|;
    ApplySlots(known.View(), b.kind, b.target);
    OneBlockInStep(Going(known.View(), defs), i, j, b, false);
    var v := known.ApplyBlock(b.kind, b.target);
    if v.Refused? {
      failed := Some(v.why);
    } else if v.edit.store {
      if v.edit.slot == Some(before) {
        after := defs + [b.target.value.definition.value];
      } else {
        after := defs[v.edit.slot.value := b.target.value.definition.value];
      }
    }
  }

  /** One message of the typed driver. */
  method TakeMessage(known: Tools, defs: seq<Tool>, m: Message, i: nat)
    returns (after: seq<Tool>, failed: Option<Progress>)
    requires InStep(Going(known.View(), defs))
    modifies known
    ensures if failed.Some? then failed.value.Stuck? else InStep(Going(known.View(), after))
    ensures ManyBlocks(Going(old(known.View()), defs), i, BlocksOf(m), |BlocksOf(m)|, false) ==
            if failed.Some? then failed.value else Going(known.View(), after)
  {
    after, failed := defs, None;
    if !m.content.Blocks? {
      return;
    }
    var bs := m.content.blocks;
    ghost var p := Going(known.View(), defs);
    for j := 0 to |bs|
      invariant InStep(Going(known.View(), after))
      invariant ManyBlocks(p, i, bs, j, false) == Going(known.View(), after)
    {
      if bs[j].Other? {
        continue;
      }
      var why;
      after, why := TakeTyped(known, after, bs[j], i, j);
      if why.Some? {
        StuckStays(p, i, bs, j + 1, |bs|, false);
        return after, Some(Stuck(i, j, why.value));
      }
    }
  }

  method ResolveToolChanges(ms: seq<Message>, declared: seq<Tool>) returns (r: Outcome)
    ensures r == Resolve(ms, declared)
  {
    var known := new Tools(NamesOf(declared));
    var defs := declared;
    ghost var p0 := Opening(declared);
    OpeningInStep(declared);
    for i := 0 to |ms|
      invariant fresh(known)
      invariant InStep(Going(known.View(), defs))
      invariant ManyMessages(p0, ms, i, false) == Going(known.View(), defs)
    {
      var failed;
      defs, failed := TakeMessage(known, defs, ms[i], i);
      if failed.Some? {
        StuckRests(p0, ms, i + 1, |ms|, false);
        return Failed(failed.value.message, failed.value.block, failed.value.why);
      }
    }
    r := Summed(known, defs);
  }

  method Summed(known: Tools, defs: seq<Tool>) returns (r: Outcome)
    requires InStep(Going(known.View(), defs))
    ensures var s := known.View(); r == Resolved(ActiveTools(s, defs, |defs|), Hoisted(s), RemovedNames(s, |s.names|))
  {
    var hoisted := known.ListHoisted();
    var removed := known.ListRemoved();
    var tools := ListActive(known, defs);
    return Resolved(tools, hoisted, removed);
  }

  // ---- the rewriting driver ----

  function Others(bs: seq<Block>, n: nat): seq<Block>
    requires n <= |bs|
  {
    if n == 0 then [] else Others(bs, n - 1) + if bs[n - 1].Other? then [bs[n - 1]] else []
  }

  predicate AnyChange(bs: seq<Block>, n: nat)
    requires n <= |bs|
  {
    n != 0 && (AnyChange(bs, n - 1) || bs[n - 1].Change?)
  }

  predicate HasChange(m: Message) { AnyChange(BlocksOf(m), |BlocksOf(m)|) }

  predicate HasChanges(ms: seq<Message>) { exists i: nat :: i < |ms| && HasChange(ms[i]) }

  /** A message without its change blocks, and dropped when nothing else is left. */
  function Stripped(m: Message): seq<Message> {
    var rest := Others(BlocksOf(m), |BlocksOf(m)|);
    if !HasChange(m) then [m] else if rest == [] then [] else [m.(content := Blocks(rest))]
  }

  function StrippedAll(ms: seq<Message>, n: nat): seq<Message>
    requires n <= |ms|
  {
    if n == 0 then [] else StrippedAll(ms, n - 1) + Stripped(ms[n - 1])
  }

  function Declared(r: Request): seq<Tool> { if r.tools.Some? then r.tools.value else [] }

  function Hoist(r: Request): Rewrite {
    if !HasChanges(r.messages) then Rewritten(r, [], [])
    else
      AllInStep(Declared(r), r.messages, true);
      match ManyMessages(Opening(Declared(r)), r.messages, |r.messages|, true)
      case Stuck(i, j, why) => Rejected(i, j, why)
      case Going(known, defs) =>
        var active, removed := ActiveTools(known, defs, |defs|), RemovedNames(known, |known.names|);
        var q := r.(messages := StrippedAll(r.messages, |r.messages|));
        Rewritten(
          if active != [] then q.(tools := Some(active))
          else if removed != [] then q.(tools := None, choice := None)
          else q,
          Hoisted(known), removed)
  }

  /** One change block of the rewriting driver. */
  method TakeRaw(known: Tools, tools: seq<Tool>, b: Block, ghost i: nat, ghost j: nat)
    returns (after: seq<Tool>, failed: Option<Problem>)
    requires InStep(Going(known.View(), tools)) && b.Change?
    modifies known
    ensures failed.None? ==> InStep(Going(known.View(), after))
    ensures OneBlock(Going(old(known.View()), tools), i, j, b, true) ==
            if failed.Some? then Stuck(i, j, failed.value) else Going(known.View(), after)
  {
    after, failed := tools, None;
    var before := |known.names|;
    ApplySlots(known.View(), b.kind, b.target);
    OneBlockInStep(Going(known.View(), tools), i, j, b, true);
    var v := known.ApplyBlock(b.kind, b.target);
    if v.Refused? {
      failed := Some(v.why);
    } else if v.edit.store {
      var d := b.target.value.definition.value.(deferred := false);
      if v.edit.slot == Some(before) {
        after := tools + [d];
      } else {
        after := tools[v.edit.slot.value := d];
      }
    } else if Recalls(b) {
      after := tools[v.edit.slot.value := tools[v.edit.slot.value].(deferred := false)];
    }
  }

  method HoistFromMessage(bs: seq<Block>, mi: nat, tools: seq<Tool>, known: Tools)
    returns (out: seq<Block>, changed: bool, after: seq<Tool>, failed: Option<Progress>)
    requires InStep(Going(known.View(), tools))
    modifies known
    ensures if failed.Some? then failed.value.Stuck? else InStep(Going(known.View(), after))
    ensures ManyBlocks(Going(old(known.View()), tools), mi, bs, |bs|, true) ==
            if failed.Some? then failed.value else Going(known.View(), after)
    ensures failed.None? ==> out == Others(bs, |bs|) && changed == AnyChange(bs, |bs|)
  {
    out, changed, after, failed := [], false, tools, None;
    ghost var p := Going(known.View(), tools);
    for bi := 0 to |bs|
      invariant InStep(Going(known.View(), after))
      invariant ManyBlocks(p, mi, bs, bi, true) == Going(known.View(), after)
      invariant out == Others(bs, bi) && changed == AnyChange(bs, bi)
    {
      if bs[bi].Other? {
        out := out + [bs[bi]];
        continue;
      }
      changed := true;
      var why;
      after, why := TakeRaw(known, after, bs[bi], mi, bi);
      if why.Some? {
        StuckStays(p, mi, bs, bi + 1, |bs|, true);
        return out, changed, after, Some(Stuck(mi, bi, why.value));
      }
    }
  }

  /** One message of the rewriting driver: what is kept of it, if anything. */
  method HoistMessage(m: Message, mi: nat, tools: seq<Tool>, known: Tools)
    returns (kept: seq<Message>, after: seq<Tool>, failed: Option<Progress>)
    requires InStep(Going(known.View(), tools))
    modifies known
    ensures if failed.Some? then failed.value.Stuck? else InStep(Going(known.View(), after))
    ensures ManyBlocks(Going(old(known.View()), tools), mi, BlocksOf(m), |BlocksOf(m)|, true) ==
            if failed.Some? then failed.value else Going(known.View(), after)
    ensures failed.None? ==> kept == Stripped(m)
  {
    if !m.content.Blocks? {
      return [m], tools, None;
    }
    var out, changed;
    out, changed, after, failed := HoistFromMessage(m.content.blocks, mi, tools, known);
    if changed && out == [] {
      return [], after, failed;
    }
    kept := [if changed then m.(content := Blocks(out)) else m];
  }

  method HoistMessages(ms: seq<Message>, request: seq<Tool>, known: Tools)
    returns (kept: seq<Message>, tools: seq<Tool>, failed: Option<Progress>)
    requires known.View() == Start(NamesOf(request))
    modifies known
    ensures if failed.Some? then failed.value.Stuck? else InStep(Going(known.View(), tools))
    ensures ManyMessages(Opening(request), ms, |ms|, true) ==
            if failed.Some? then failed.value else Going(known.View(), tools)
    ensures failed.None? ==> kept == StrippedAll(ms, |ms|)
  {
    ghost var p0 := Opening(request);
    kept, tools, failed := [], request, None;
    OpeningInStep(request);
    for mi := 0 to |ms|
      invariant InStep(Going(known.View(), tools))
      invariant ManyMessages(p0, ms, mi, true) == Going(known.View(), tools)
      invariant kept == StrippedAll(ms, mi)
    {
      var more, after, bad := HoistMessage(ms[mi], mi, tools, known);
      if bad.Some? {
        StuckRests(p0, ms, mi + 1, |ms|, true);
        return kept, tools, bad;
      }
      tools, kept := after, kept + more;
    }
  }

  method HoistToolChanges(r: Request) returns (w: Rewrite)
    ensures w == Hoist(r)
  {
    if !HasChanges(r.messages) {
      return Rewritten(r, [], []);
    }
    var known := new Tools(NamesOf(Declared(r)));
    var kept, tools, failed := HoistMessages(r.messages, Declared(r), known);
    if failed.Some? {
      return Rejected(failed.value.message, failed.value.block, failed.value.why);
    }
    var active := ListActive(known, tools);
    var removed := known.ListRemoved();
    var hoisted := known.ListHoisted();
    var q := r.(messages := kept);
    if active != [] {
      q := q.(tools := Some(active));
    } else if removed != [] {
      q := q.(tools := None, choice := None);
    }
    return Rewritten(q, hoisted, removed);
  }
}
