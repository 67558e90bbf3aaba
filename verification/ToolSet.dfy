/**
 Which tools a conversation has declared and which of them are active, as tool_addition
 and tool_removal blocks arrive.
 */
module ToolSet {
  import opened Spaces
  import opened Wrappers

  datatype Tool = Tool(name: string, body: string, deferred: bool)

  datatype Kind = Addition | Removal

  datatype TargetType = Reference | Inline | Strange(text: string)

  datatype Target = Target(of: TargetType, name: string, definition: Option<Tool>)

  /** Why a block is refused. */
  datatype Problem = NoTool | RemovesNameless | DefinesNameless | AddsUndeclared(name: string) | UnknownTarget

  /** slot is None for a removal of a tool nothing declares. */
  datatype Edit = Edit(slot: Option<nat>, store: bool)

  datatype Verdict = Refused(why: Problem) | Accepted(edit: Edit)

  datatype State = State(names: seq<string>, first: map<string, nat>, removed: set<string>, declared: nat)

  predicate Nameless(name: string) { Trim(name) == "" }

  function Check(k: Kind, t: Option<Target>, known: set<string>): Option<Problem> {
    if t.None? then Some(NoTool)
    else if k.Removal? && t.value.of.Reference? then
      if Nameless(t.value.name) then Some(RemovesNameless) else None
    else if k.Addition? && t.value.of.Inline? then
      if t.value.definition.None? || Nameless(t.value.definition.value.name) then Some(DefinesNameless) else None
    else if k.Addition? && t.value.of.Reference? then
      if t.value.name !in known then Some(AddsUndeclared(t.value.name)) else None
    else Some(UnknownTarget)
  }

  /** The slot under which a name is first declared. */
  function FirstSlots(names: seq<string>, n: nat): map<string, nat>
    requires n <= |names|
  {
    if n == 0 then map[]
    else
      var m, x := FirstSlots(names, n - 1), names[n - 1];
      if x in m || x == "" then m else m[x := n - 1]
  }

  function Start(names: seq<string>): State {
    State(names, FirstSlots(names, |names|), {}, |names|)
  }

  function Apply(s: State, k: Kind, t: Option<Target>): (State, Verdict) {
    var problem := Check(k, t, s.first.Keys);
    if problem.Some? then (s, Refused(problem.value))
    else if k.Removal? then
      if t.value.name !in s.first then (s, Accepted(Edit(None, false)))
      else (s.(removed := s.removed + {t.value.name}), Accepted(Edit(Some(s.first[t.value.name]), false)))
    else if t.value.of.Reference? then
      (s.(removed := s.removed - {t.value.name}), Accepted(Edit(Some(s.first[t.value.name]), false)))
    else
      var name := t.value.definition.value.name;
      if name !in s.first then
        (s.(names := s.names + [name], first := s.first[name := |s.names|]), Accepted(Edit(Some(|s.names|), true)))
      else if name in s.removed then
        (s.(removed := s.removed - {name}), Accepted(Edit(Some(s.first[name]), true)))
      else (s, Accepted(Edit(Some(s.first[name]), false)))
  }

  predicate Active(s: State, slot: nat)
    requires slot < |s.names|
  {
    s.names[slot] !in s.removed
  }

  /** The names of the slots from..to that are active. */
  function ActiveNames(s: State, from: nat, to: nat): seq<string>
    requires from <= to <= |s.names|
  {
    if from == to then []
    else ActiveNames(s, from, to - 1) + if Active(s, to - 1) then [s.names[to - 1]] else []
  }

  function Hoisted(s: State): seq<string>
    requires s.declared <= |s.names|
  {
    ActiveNames(s, s.declared, |s.names|)
  }

  /** Each removed name once, in slot order. */
  function RemovedNames(s: State, n: nat): seq<string>
    requires n <= |s.names|
  {
    if n == 0 then []
    else
      var rest, x := RemovedNames(s, n - 1), s.names[n - 1];
      if x in s.removed && x !in rest then rest + [x] else rest
  }

  /** What every ToolSet keeps: a known name's slot is its first, only known names are
      removed, and a name defined by a block has one slot. */
  ghost predicate Sound(s: State) {
    && s.declared <= |s.names|
    && (forall x :: x in s.first ==> s.first[x] < |s.names| && s.names[s.first[x]] == x && x != "")
    && (forall i: nat :: i < |s.names| && s.names[i] != "" ==> s.names[i] in s.first && s.first[s.names[i]] <= i)
    && s.removed <= s.first.Keys
    && (forall i: nat :: s.declared <= i < |s.names| ==> s.names[i] != "" && s.first[s.names[i]] == i)
  }

  lemma {:induction false} FirstSlotsAre(names: seq<string>, n: nat)
    requires n <= |names|
    ensures var m := FirstSlots(names, n);
            && (forall x :: x in m ==> m[x] < n && names[m[x]] == x && x != "")
            && (forall i: nat :: i < n && names[i] != "" ==> names[i] in m && m[names[i]] <= i)
  {
    if 0 < n {
      FirstSlotsAre(names, n - 1);
    }
  }

  lemma StartSound(names: seq<string>)
    ensures Sound(Start(names))
  {
    FirstSlotsAre(names, |names|);
  }

  function Declare(s: State, name: string): State {
    s.(names := s.names + [name], first := s.first[name := |s.names|])
  }

  lemma DeclareSound(s: State, name: string)
    requires Sound(s) && name !in s.first && name != ""
    ensures Sound(Declare(s, name))
  {
  }

  lemma ApplySound(s: State, k: Kind, t: Option<Target>)
    requires Sound(s)
    ensures Sound(Apply(s, k, t).0)
  {
    if Check(k, t, s.first.Keys).None? && k.Addition? && t.value.of.Inline? &&
        t.value.definition.value.name !in s.first {
      DeclareSound(s, t.value.definition.value.name);
    }
  }

  /** Slots are only ever added, one at a time, and an edit names one of them. */
  lemma ApplySlots(s: State, k: Kind, t: Option<Target>)
    requires Sound(s)
    ensures var (n, v) := Apply(s, k, t);
            && n.declared == s.declared && |s.names| <= |n.names| && n.names[..|s.names|] == s.names
            && (v.Accepted? && v.edit.slot.Some? ==> v.edit.slot.value < |n.names|)
            && (v.Accepted? && v.edit.store ==> v.edit.slot.Some?)
            && (|n.names| ==
                if v.Accepted? && v.edit.store && v.edit.slot == Some(|s.names|) then |s.names| + 1 else |s.names|)
  {
  }

  predicate Distinct(xs: seq<string>) { forall i: nat, j: nat :: i < j < |xs| ==> xs[i] != xs[j] }

  lemma {:induction false} RemovedTo(s: State, n: nat)
    requires n <= |s.names|
    ensures Distinct(RemovedNames(s, n))
    ensures forall x :: x in RemovedNames(s, n) <==> x in s.removed && x in s.names[..n]
  {
    if 0 < n {
      RemovedTo(s, n - 1);
      assert s.names[..n] == s.names[..n - 1] + [s.names[n - 1]];
    }
  }

  /** The removed names are listed once each, and no others. */
  lemma RemovedAre(s: State)
    requires Sound(s)
    ensures var out := RemovedNames(s, |s.names|); Distinct(out) && forall x :: x in out <==> x in s.removed
  {
    RemovedTo(s, |s.names|);
    assert s.names[..|s.names|] == s.names;
  }

  lemma {:induction false} HoistedTo(s: State, n: nat)
    requires Sound(s) && s.declared <= n <= |s.names|
    ensures var out := ActiveNames(s, s.declared, n);
            && Distinct(out)
            && forall x :: x in out <==> x in s.first && x !in s.removed && s.declared <= s.first[x] < n
    decreases n
  {
    if s.declared < n {
      HoistedTo(s, n - 1);
      var x := s.names[n - 1];
      assert s.first[x] == n - 1;
    }
  }

  /** The hoisted names are listed once each: those that a block introduced and that are
      active. */
  lemma HoistedAre(s: State)
    requires Sound(s)
    ensures var out := Hoisted(s);
            Distinct(out) && forall x :: x in out <==> x in s.first && x !in s.removed && s.declared <= s.first[x]
  {
    HoistedTo(s, |s.names|);
  }

  class Tools {
    var names: seq<string>
    var first: map<string, nat>
    var removed: set<string>
    var declared: nat

    ghost function View(): State
      reads this
    {
      State(names, first, removed, declared)
    }

    constructor (request: seq<string>)
      ensures View() == Start(request) && Sound(View())
    {
      names, removed, declared := request, {}, |request|;
      first := map[];
      new;
      for i := 0 to |request|
        invariant View() == State(request, FirstSlots(request, i), {}, |request|)
      {
        if request[i] !in first && request[i] != "" {
          first := first[request[i] := i];
        }
      }
      StartSound(request);
    }

    method ApplyBlock(k: Kind, t: Option<Target>) returns (v: Verdict)
      requires Sound(View())
      modifies this
      ensures (View(), v) == Apply(old(View()), k, t) && Sound(View())
    {
      ApplySound(View(), k, t);
      var problem := Check(k, t, first.Keys);
      if problem.Some? {
        return Refused(problem.value);
      }
      if k.Removal? {
        if t.value.name !in first {
          return Accepted(Edit(None, false));
        }
        removed := removed + {t.value.name};
        return Accepted(Edit(Some(first[t.value.name]), false));
      }
      if t.value.of.Reference? {
        removed := removed - {t.value.name};
        return Accepted(Edit(Some(first[t.value.name]), false));
      }
      var name := t.value.definition.value.name;
      if name !in first {
        names := names + [name];
        first := first[name := |names| - 1];
        return Accepted(Edit(Some(|names| - 1), true));
      } else if name in removed {
        removed := removed - {name};
        return Accepted(Edit(Some(first[name]), true));
      }
      return Accepted(Edit(Some(first[name]), false));
    }

    method ListRemoved() returns (out: seq<string>)
      ensures out == RemovedNames(View(), |names|)
    {
      out := [];
      var seen: set<string> := {};
      for i := 0 to |names|
        invariant out == RemovedNames(View(), i)
        invariant forall x :: x in seen <==> x in out
      {
        if names[i] in removed && names[i] !in seen {
          seen := seen + {names[i]};
          out := out + [names[i]];
        }
      }
    }

    method ListHoisted() returns (out: seq<string>)
      requires Sound(View())
      ensures out == Hoisted(View())
    {
      out := [];
      for slot := declared to |names|
        invariant out == ActiveNames(View(), declared, slot)
      {
        if names[slot] !in removed {
          out := out + [names[slot]];
        }
      }
    }
  }
}
