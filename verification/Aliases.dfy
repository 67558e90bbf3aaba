/**
 The alias tiers of the router: raw slugs, pinned versions and rolling bare names, all
 re-derived from the catalog each time it is loaded.
 */
module Aliases {
  import opened Versions
  import opened Wrappers
  import opened Decimals
  import opened Texts
  import Sorting

  datatype CatalogEntry = CatalogEntry(slug: string, priority: int)

  datatype Parsed = Parsed(version: string, codename: string, modifier: string)

  /** lower stands for the lower-casing of the library. */
  datatype Names = Names(overrides: map<string, Parsed>, lower: string -> string)

  // ---- slugs ----

  predicate IsVersion(v: string) { forall i: nat :: i < |Split(v)| ==> IsNumber(Split(v)[i]) }

  predicate IsTail(s: string) { s != "" && forall i :: 0 <= i < |s| ==> 'a' <= s[i] <= 'z' || IsDigit(s[i]) }

  function Dash(s: string): (r: nat)
    ensures r <= |s|
  {
    if s == "" || s[0] == '-' then 0 else 1 + Dash(s[1..])
  }

  const Prefix := "gpt-"

  /** "gpt-<version>[-<tail>]", where a tail is a modifier or a codename. */
  function ParseSlug(slug: string, n: Names): Option<Parsed> {
    var s := n.lower(slug);
    if s in n.overrides then Some(n.overrides[s])
    else if !(4 <= |s| && s[..4] == Prefix) then None
    else
      var rest := s[4..];
      var d := Dash(rest);
      if !IsVersion(rest[..d]) then None
      else if d == |rest| then Some(Parsed(rest, "", ""))
      else if !IsTail(rest[d + 1..]) then None
      else if rest[d + 1..] == "mini" then Some(Parsed(rest[..d], "", "mini"))
      else Some(Parsed(rest[..d], rest[d + 1..], ""))
  }

  function BareAlias(p: Parsed): string {
    if p.codename != "" then p.codename else if p.modifier != "" then p.version + "-" + p.modifier else p.version
  }

  function PinnedAlias(p: Parsed): string {
    if p.codename == "" then "" else p.codename + "-" + p.version
  }

  predicate VersionChar(c: char) { c == '.' || IsDigit(c) }

  lemma {:induction false} VersionChars(v: string)
    requires forall i: nat :: i < |Split(v)| ==> forall k: nat :: k < |Split(v)[i]| ==> IsDigit(Split(v)[i][k])
    ensures forall k: nat :: k < |v| ==> VersionChar(v[k])
  {
    if v != "" {
      var all, rest := Split(v), Split(v[1..]);
      forall i: nat, k: nat | i < |rest| && k < |rest[i]| ensures IsDigit(rest[i][k]) {
        if v[0] == '.' {
          assert all[i + 1] == rest[i];
        } else if i == 0 {
          assert all[0] == [v[0]] + rest[0] && all[0][k + 1] == rest[0][k];
        } else {
          assert all[i] == rest[i];
        }
      }
      VersionChars(v[1..]);
      assert v[0] != '.' ==> all[0][0] == v[0];
      forall k: nat | k < |v| ensures VersionChar(v[k]) {
        assert 0 < k ==> v[k] == v[1..][k - 1];
      }
    }
  }

  lemma {:induction false} DashAt(a: string, b: string)
    requires forall k: nat :: k < |a| ==> a[k] != '-'
    ensures Dash(a + b) == |a| + Dash(b)
  {
    if a == "" {
      assert a + b == b;
    } else {
      assert (a + b)[1..] == a[1..] + b;
      DashAt(a[1..], b);
    }
  }

  lemma {:induction false} NoDash(a: string)
    requires forall k: nat :: k < |a| ==> a[k] != '-'
    ensures Dash(a) == |a|
  {
    if a != "" {
      NoDash(a[1..]);
    }
  }

  /** A slug that no override names and that lower-casing leaves alone. */
  predicate Plain(slug: string, n: Names) { n.lower(slug) == slug && slug !in n.overrides }

  /** The grammar reads back what it describes: a version alone, */
  lemma VersionIsRead(version: string, n: Names)
    requires IsVersion(version) && Plain(Prefix + version, n)
    ensures ParseSlug(Prefix + version, n) == Some(Parsed(version, "", ""))
  {
    var s := Prefix + version;
    VersionChars(version);
    NoDash(version);
    assert s[..4] == Prefix && s[4..] == version && version[..|version|] == version;
  }

  /** and a version with a tail. */
  lemma TailIsRead(version: string, tail: string, n: Names)
    requires IsVersion(version) && IsTail(tail) && Plain(Prefix + (version + ("-" + tail)), n)
    ensures ParseSlug(Prefix + (version + ("-" + tail)), n) ==
            Some(if tail == "mini" then Parsed(version, "", "mini") else Parsed(version, tail, ""))
  {
    var rest := version + ("-" + tail);
    var s := Prefix + rest;
    VersionChars(version);
    DashAt(version, "-" + tail);
    RestSlices(version, tail);
    assert s[..4] == Prefix && s[4..] == rest;
  }

  lemma RestSlices(version: string, tail: string)
    ensures var rest := version + ("-" + tail); rest[..|version|] == version && rest[|version| + 1..] == tail
  {
  }

  /** What the grammar reads compares as numbers exactly when every segment fits an int. */
  lemma ReadIsNumeric(slug: string, n: Names)
    requires n.lower(slug) !in n.overrides && ParseSlug(slug, n).Some?
    ensures var v := ParseSlug(slug, n).value.version;
            IsVersion(v) && (Numeric(v) <==> forall i: nat :: i < |Split(v)| ==> Decimal(Split(v)[i]) <= MaxInt64)
  {
    var rest := n.lower(slug)[4..];
    assert rest[..|rest|] == rest;
    NumericIff(ParseSlug(slug, n).value.version);
  }

  lemma NumericIff(v: string)
    requires IsVersion(v)
    ensures Numeric(v) <==> forall i: nat :: i < |Split(v)| ==> Decimal(Split(v)[i]) <= MaxInt64
  {
    forall i: nat | i < |Split(v)| ensures Atoi(Split(v)[i]).Some? <==> Decimal(Split(v)[i]) <= MaxInt64 {
      DigitsAreUnsigned(Split(v)[i]);
    }
  }

  lemma DigitsAreUnsigned(s: string)
    requires IsNumber(s)
    ensures Atoi(s).Some? <==> Decimal(s) <= MaxInt64
  {
    assert IsDigit(s[0]);
  }

  // ---- the collision rule ----

  datatype Hold = Hold(version: string, priority: int)

  function Outranks(candidate: Hold, incumbent: Hold): bool {
    var c := Compare(candidate.version, incumbent.version);
    if c == 1 then true else if c == -1 then false else candidate.priority > incumbent.priority
  }

  datatype Tiers = Tiers(raw: map<string, string>, pinned: map<string, string>, bare: map<string, string>,
      held: map<string, Hold>)

  const Empty := Tiers(map[], map[], map[], map[])

  function Listed(t: Tiers, slug: string): Tiers { t.(raw := t.raw[slug := slug]) }

  function Pinned(t: Tiers, alias: string, slug: string): Tiers {
    if alias != "" then t.(pinned := t.pinned[alias := slug]) else t
  }

  /** The bare name goes to the candidate when nobody holds it or the holder is outranked. */
  function Contested(t: Tiers, alias: string, slug: string, candidate: Hold): Tiers {
    if alias !in t.held || Outranks(candidate, t.held[alias])
    then t.(bare := t.bare[alias := slug], held := t.held[alias := candidate])
    else t
  }

  function Place(t: Tiers, e: CatalogEntry, n: Names): Tiers {
    var slug := n.lower(e.slug);
    match ParseSlug(slug, n)
    case None => Listed(t, slug)
    case Some(p) =>
      Contested(Pinned(Listed(t, slug), PinnedAlias(p), slug), BareAlias(p), slug, Hold(p.version, e.priority))
  }

  function PlaceAll(t: Tiers, es: seq<CatalogEntry>, n: Names): Tiers
    decreases es
  {
    if es == [] then t else PlaceAll(Place(t, es[0], n), es[1..], n)
  }

  // ---- sorting ----

  ghost predicate BySlug(es: seq<CatalogEntry>) {
    forall i: nat, j: nat :: i < j < |es| ==> !Less(es[j].slug, es[i].slug)
  }

  /** The catalog in slug order, and entries of one slug by priority. */
  predicate Before(a: CatalogEntry, b: CatalogEntry) {
    Less(a.slug, b.slug) || (a.slug == b.slug && a.priority <= b.priority)
  }

  function Insert(e: CatalogEntry, es: seq<CatalogEntry>): seq<CatalogEntry> { Sorting.Insert(e, es, Before) }

  function Sorted(es: seq<CatalogEntry>): seq<CatalogEntry> { Sorting.Sort(es, Before) }

  /** The tiers a catalog gives. */
  function TiersOf(es: seq<CatalogEntry>, n: Names): Tiers { PlaceAll(Empty, Sorted(es), n) }

  lemma BeforeIsTotal(a: CatalogEntry, b: CatalogEntry)
    ensures Before(a, b) || Before(b, a)
    ensures Before(a, b) && Before(b, a) ==> a == b
  {
    LessIsTotal(a.slug, b.slug);
  }

  lemma BeforeMoves(a: CatalogEntry, b: CatalogEntry, c: CatalogEntry)
    requires Before(a, b) && Before(b, c)
    ensures Before(a, c)
  {
    if Less(a.slug, b.slug) && Less(b.slug, c.slug) {
      LessMoves(a.slug, b.slug, c.slug);
    }
  }

  lemma {:induction false} InsertSwaps(a: CatalogEntry, b: CatalogEntry, es: seq<CatalogEntry>)
    ensures Insert(a, Insert(b, es)) == Insert(b, Insert(a, es))
  {
    BeforeIsTotal(a, b);
    if es != [] {
      var c := es[0];
      InsertSwaps(a, b, es[1..]);
      if Before(a, c) && Before(b, c) {
        assert ([a] + es)[1..] == es && ([b] + es)[1..] == es;
      } else {
        BeforeIsTotal(a, c);
        BeforeIsTotal(b, c);
        if Before(a, c) {
          BeforeMoves2(a, c, b);
        }
        if Before(b, c) {
          BeforeMoves2(b, c, a);
        }
        assert ([a] + es)[1..] == es && ([b] + es)[1..] == es;
        assert ([c] + Insert(b, es[1..]))[1..] == Insert(b, es[1..]) &&
            ([c] + Insert(a, es[1..]))[1..] == Insert(a, es[1..]);
      }
    } else {
      assert [a][1..] == [] && [b][1..] == [];
    }
  }

  lemma BeforeMoves2(a: CatalogEntry, c: CatalogEntry, b: CatalogEntry)
    requires Before(a, c) && !Before(b, c)
    ensures Before(a, b) && !Before(b, a)
  {
    BeforeIsTotal(b, c);
    BeforeMoves(a, c, b);
    if Before(b, a) {
      BeforeMoves(b, a, c);
    }
  }

  /** Sorting does not depend on where an entry stood. */
  lemma {:induction false} SortedWithout(es: seq<CatalogEntry>, i: nat)
    requires i < |es|
    ensures Sorted(es) == Insert(es[i], Sorted(es[..i] + es[i + 1..]))
  {
    var rest := es[..i] + es[i + 1..];
    if i == 0 {
      assert rest == es[1..];
    } else {
      assert rest[0] == es[0] && rest[1..] == es[1..][..i - 1] + es[1..][i..];
      SortedWithout(es[1..], i - 1);
      InsertSwaps(es[0], es[i], Sorted(rest[1..]));
    }
  }

  lemma Without(es: seq<CatalogEntry>, i: nat)
    requires i < |es|
    ensures multiset(es) == multiset{es[i]} + multiset(es[..i] + es[i + 1..])
  {
    assert es == es[..i] + ([es[i]] + es[i + 1..]);
  }

  /** Any two orders of the same catalog sort alike. */
  lemma {:induction false} SortedAlike(a: seq<CatalogEntry>, b: seq<CatalogEntry>)
    requires multiset(a) == multiset(b)
    ensures Sorted(a) == Sorted(b)
  {
    if a == [] {
      assert |b| == |multiset(b)| == 0;
    } else {
      assert a[0] in multiset(b);
      var i: nat :| i < |b| && b[i] == a[0];
      var rest := b[..i] + b[i + 1..];
      assert a == [a[0]] + a[1..];
      Without(b, i);
      assert multiset(a) - multiset{a[0]} == multiset(a[1..]);
      assert multiset(b) - multiset{a[0]} == multiset(rest);
      SortedAlike(a[1..], rest);
      SortedWithout(b, i);
    }
  }

  // ---- the order of the catalog does not matter ----

  lemma ContestSwaps(t: Tiers, alias: string, slug: string, version: string, p: int, q: int)
    ensures Contested(Contested(t, alias, slug, Hold(version, p)), alias, slug, Hold(version, q)) ==
            Contested(Contested(t, alias, slug, Hold(version, q)), alias, slug, Hold(version, p))
  {
    Opposes(version, version);
    ContestAgain(t, alias, slug, version, p, q);
    ContestAgain(t, alias, slug, version, q, p);
  }

  /** Of two contenders with one version, the higher priority is the one that counts. */
  lemma ContestAgain(t: Tiers, alias: string, slug: string, version: string, p: int, q: int)
    ensures Contested(Contested(t, alias, slug, Hold(version, p)), alias, slug, Hold(version, q)) ==
            Contested(t, alias, slug, Hold(version, if p < q then q else p))
  {
    Opposes(version, version);
    assert t.bare[alias := slug][alias := slug] == t.bare[alias := slug];
    assert t.held[alias := Hold(version, p)][alias := Hold(version, q)] == t.held[alias := Hold(version, q)];
  }

  lemma ListedStays(t: Tiers, alias: string, bare: string, slug: string, h: Hold)
    ensures var u := Pinned(Listed(t, slug), alias, slug);
            Pinned(Listed(Contested(u, bare, slug, h), slug), alias, slug) == Contested(u, bare, slug, h)
  {
    var u := Pinned(Listed(t, slug), alias, slug);
    assert u.raw[slug := slug] == u.raw;
    assert alias != "" ==> u.pinned[alias := slug] == u.pinned;
  }

  /** Entries of one slug may be placed either way round. */
  lemma PlaceSwaps(t: Tiers, a: CatalogEntry, b: CatalogEntry, n: Names)
    requires a.slug == b.slug
    ensures Place(Place(t, a, n), b, n) == Place(Place(t, b, n), a, n)
  {
    var slug := n.lower(a.slug);
    match ParseSlug(slug, n) {
      case None =>
      case Some(p) =>
        ListedStays(t, PinnedAlias(p), BareAlias(p), slug, Hold(p.version, a.priority));
        ListedStays(t, PinnedAlias(p), BareAlias(p), slug, Hold(p.version, b.priority));
        var u := Pinned(Listed(t, slug), PinnedAlias(p), slug);
        ContestSwaps(u, BareAlias(p), slug, p.version, a.priority, b.priority);
    }
  }

  /** Sorting further by priority changes nothing: whichever order the sort leaves
      entries of one slug in, the tiers are the same. */
  lemma {:induction false} PlaceInserted(t: Tiers, e: CatalogEntry, es: seq<CatalogEntry>, n: Names)
    requires forall i: nat :: i < |es| ==> !Less(es[i].slug, e.slug)
    ensures PlaceAll(t, [e] + es, n) == PlaceAll(t, Insert(e, es), n)
    decreases es
  {
    assert ([e] + es)[1..] == es;
    if es != [] && !Before(e, es[0]) {
      LessIsTotal(e.slug, es[0].slug);
      PlaceSwaps(t, e, es[0], n);
      var rest := es[1..];
      PlaceInserted(Place(t, es[0], n), e, rest, n);
      assert ([e] + rest)[1..] == rest;
      assert ([es[0]] + Insert(e, rest))[1..] == Insert(e, rest);
    }
  }

  lemma {:induction false} PlaceSorted(t: Tiers, es: seq<CatalogEntry>, n: Names)
    requires BySlug(es)
    ensures PlaceAll(t, es, n) == PlaceAll(t, Sorted(es), n)
    decreases es
  {
    if es != [] {
      var e, rest := es[0], es[1..];
      PlaceSorted(Place(t, e, n), rest, n);
      Sorting.SortKeeps(rest, Before);
      forall i: nat | i < |Sorted(rest)| ensures !Less(Sorted(rest)[i].slug, e.slug) {
        assert Sorted(rest)[i] in multiset(rest);
      }
      assert ([e] + Sorted(rest))[1..] == Sorted(rest);
      PlaceInserted(t, e, Sorted(rest), n);
    }
  }

  /** The tiers depend on the catalog's entries alone: for every order of the catalog, and
      every way of sorting it by slug. */
  lemma OrderDoesNotMatter(a: seq<CatalogEntry>, b: seq<CatalogEntry>, sorted: seq<CatalogEntry>, n: Names)
    requires multiset(a) == multiset(b) == multiset(sorted) && BySlug(sorted)
    ensures PlaceAll(Empty, sorted, n) == TiersOf(a, n) == TiersOf(b, n)
  {
    PlaceSorted(Empty, sorted, n);
    SortedAlike(a, sorted);
    SortedAlike(b, sorted);
  }

  // ---- who holds an alias ----

  function ParseOf(e: CatalogEntry, n: Names): Option<Parsed> { ParseSlug(n.lower(e.slug), n) }

  predicate WantsBare(e: CatalogEntry, x: string, n: Names) {
    ParseOf(e, n).Some? && BareAlias(ParseOf(e, n).value) == x
  }

  predicate WantsPinned(e: CatalogEntry, x: string, n: Names) {
    x != "" && ParseOf(e, n).Some? && PinnedAlias(ParseOf(e, n).value) == x
  }

  function HoldOf(e: CatalogEntry, n: Names): Hold
    requires ParseOf(e, n).Some?
  {
    Hold(ParseOf(e, n).value.version, e.priority)
  }

  lemma OutranksOnce(a: Hold, b: Hold)
    ensures !(Outranks(a, b) && Outranks(b, a)) && !Outranks(a, a)
  {
    Opposes(a.version, b.version);
    Opposes(b.version, a.version);
  }

  lemma OutranksMoves(a: Hold, b: Hold, c: Hold)
    requires Numeric(a.version) && Numeric(b.version) && Numeric(c.version)
    requires Outranks(a, b) && !Outranks(c, b)
    ensures Outranks(a, c)
  {
    CompareIs(a.version, b.version);
    CompareIs(c.version, b.version);
    CompareIs(a.version, c.version);
    Opposes(a.version, b.version);
    Opposes(a.version, c.version);
    Opposes(c.version, b.version);
    Moves(c.version, b.version, a.version);
  }

  lemma CompareIs(a: string, b: string)
    ensures Compare(a, b) == -1 || Compare(a, b) == 0 || Compare(a, b) == 1
  {
    OneOfThree(Split(a), Split(b), 0);
  }

  /** All the versions that contend for a bare name are numeric. */
  ghost predicate Comparable(es: seq<CatalogEntry>, x: string, n: Names) {
    forall i: nat :: i < |es| && WantsBare(es[i], x, n) ==> Numeric(HoldOf(es[i], n).version)
  }

  /** Entry i beats those placed before it and is not beaten by those after. */
  ghost predicate Leads(es: seq<CatalogEntry>, x: string, i: nat, n: Names)
    requires i < |es| && WantsBare(es[i], x, n)
  {
    forall j: nat :: j < |es| && WantsBare(es[j], x, n) ==>
      !Outranks(HoldOf(es[j], n), HoldOf(es[i], n)) && (j < i ==> Outranks(HoldOf(es[i], n), HoldOf(es[j], n)))
  }

  ghost predicate HeldBy(t: Tiers, es: seq<CatalogEntry>, x: string, i: nat, n: Names) {
    && i < |es| && WantsBare(es[i], x, n) && x in t.held && x in t.bare
    && t.held[x] == HoldOf(es[i], n) && t.bare[x] == n.lower(es[i].slug)
    && (Comparable(es, x, n) ==> Leads(es, x, i, n))
  }

  ghost predicate Elected(t: Tiers, es: seq<CatalogEntry>, x: string, n: Names) {
    && (x in t.held <==> x in t.bare)
    && (x in t.bare <==> exists i: nat :: HeldBy(t, es, x, i, n))
    && (x !in t.bare ==> forall i: nat :: i < |es| ==> !WantsBare(es[i], x, n))
  }

  lemma LeadsOn(es: seq<CatalogEntry>, e: CatalogEntry, x: string, i: nat, n: Names)
    requires i < |es| && WantsBare(es[i], x, n) && Comparable(es + [e], x, n) && Leads(es, x, i, n)
    requires !WantsBare(e, x, n) || !Outranks(HoldOf(e, n), HoldOf(es[i], n))
    ensures Leads(es + [e], x, i, n)
  {
    forall j: nat | j < |es + [e]| && WantsBare((es + [e])[j], x, n)
      ensures !Outranks(HoldOf((es + [e])[j], n), HoldOf(es[i], n))
      ensures j < i ==> Outranks(HoldOf(es[i], n), HoldOf((es + [e])[j], n)) {
      if j < |es| {
        assert (es + [e])[j] == es[j];
      }
    }
  }

  lemma LeadsNow(es: seq<CatalogEntry>, e: CatalogEntry, x: string, i: nat, n: Names)
    requires i < |es| && WantsBare(es[i], x, n) && WantsBare(e, x, n)
    requires Comparable(es + [e], x, n) && Leads(es, x, i, n)
    requires Outranks(HoldOf(e, n), HoldOf(es[i], n))
    ensures Leads(es + [e], x, |es|, n)
  {
    var all := es + [e];
    forall j: nat | j < |all| && WantsBare(all[j], x, n)
      ensures !Outranks(HoldOf(all[j], n), HoldOf(e, n))
      ensures j < |es| ==> Outranks(HoldOf(e, n), HoldOf(all[j], n)) {
      OutranksOnce(HoldOf(e, n), HoldOf(all[j], n));
      if j < |es| {
        assert all[j] == es[j] && all[i] == es[i] && all[|es|] == e;
        OutranksMoves(HoldOf(e, n), HoldOf(es[i], n), HoldOf(es[j], n));
      }
    }
  }

  lemma ComparableBefore(es: seq<CatalogEntry>, e: CatalogEntry, x: string, n: Names)
    requires Comparable(es + [e], x, n)
    ensures Comparable(es, x, n)
  {
    forall i: nat | i < |es| && WantsBare(es[i], x, n) ensures Numeric(HoldOf(es[i], n).version) {
      assert (es + [e])[i] == es[i];
    }
  }

  /** What placing an entry does to one bare name. */
  ghost predicate BareStep(t: Tiers, u: Tiers, e: CatalogEntry, x: string, n: Names) {
    if WantsBare(e, x, n) && (x !in t.held || Outranks(HoldOf(e, n), t.held[x])) then
      x in u.bare && x in u.held && u.bare[x] == n.lower(e.slug) && u.held[x] == HoldOf(e, n)
    else
      && (x in u.bare <==> x in t.bare) && (x in t.bare ==> u.bare[x] == t.bare[x])
      && (x in u.held <==> x in t.held) && (x in t.held ==> u.held[x] == t.held[x])
  }

  lemma PlaceBare(t: Tiers, e: CatalogEntry, x: string, n: Names)
    ensures BareStep(t, Place(t, e, n), e, x, n)
  {
  }

  lemma ElectedMore(t: Tiers, u: Tiers, es: seq<CatalogEntry>, e: CatalogEntry, x: string, n: Names)
    requires Elected(t, es, x, n) && BareStep(t, u, e, x, n)
    ensures Elected(u, es + [e], x, n)
  {
    var all := es + [e];
    assert all[|es|] == e;
    if Comparable(all, x, n) {
      ComparableBefore(es, e, x, n);
    }
    if x in t.bare {
      var i: nat :| HeldBy(t, es, x, i, n);
      assert all[i] == es[i];
      if WantsBare(e, x, n) && Outranks(HoldOf(e, n), HoldOf(es[i], n)) {
        if Comparable(all, x, n) {
          LeadsNow(es, e, x, i, n);
        }
        assert HeldBy(u, all, x, |es|, n);
      } else {
        if Comparable(all, x, n) {
          LeadsOn(es, e, x, i, n);
        }
        assert HeldBy(u, all, x, i, n);
      }
    } else if WantsBare(e, x, n) {
      OutranksOnce(HoldOf(e, n), HoldOf(e, n));
      assert forall j: nat :: j < |es| ==> all[j] == es[j];
      assert HeldBy(u, all, x, |es|, n);
    } else {
      assert forall j: nat :: j < |es| ==> all[j] == es[j];
    }
  }

  lemma PlaceOne(t: Tiers, done: seq<CatalogEntry>, es: seq<CatalogEntry>, n: Names)
    requires es != []
    ensures PlaceAll(t, es, n) == PlaceAll(Place(t, es[0], n), es[1..], n)
    ensures (done + [es[0]]) + es[1..] == done + es
  {
    Rejoin(done, es);
  }

  lemma Rejoin<T>(done: seq<T>, es: seq<T>)
    requires es != []
    ensures (done + [es[0]]) + es[1..] == done + es
  {
  }

  lemma {:induction false} ElectedAll(t: Tiers, done: seq<CatalogEntry>, es: seq<CatalogEntry>, x: string, n: Names)
    requires Elected(t, done, x, n)
    ensures Elected(PlaceAll(t, es, n), done + es, x, n)
    decreases es
  {
    if es == [] {
      assert done + es == done;
    } else {
      PlaceOne(t, done, es, n);
      PlaceBare(t, es[0], x, n);
      ElectedMore(t, Place(t, es[0], n), done, es[0], x, n);
      ElectedAll(Place(t, es[0], n), done + [es[0]], es[1..], x, n);
    }
  }

  lemma ElectedSorted(cat: seq<CatalogEntry>, x: string, n: Names)
    ensures Elected(TiersOf(cat, n), Sorted(cat), x, n)
  {
    ElectedAll(Empty, [], Sorted(cat), x, n);
    assert [] + Sorted(cat) == Sorted(cat);
  }

  lemma SameMembers(cat: seq<CatalogEntry>)
    ensures forall e :: e in Sorted(cat) <==> e in cat
  {
    Sorting.SortKeeps(cat, Before);
    assert forall e :: e in Sorted(cat) <==> e in multiset(Sorted(cat));
  }

  /** w holds the bare name: newest version, then highest priority, then first slug. */
  ghost predicate Wins(cat: seq<CatalogEntry>, x: string, w: CatalogEntry, n: Names) {
    && w in cat && WantsBare(w, x, n)
    && forall e :: e in cat && WantsBare(e, x, n) ==>
         Outranks(HoldOf(w, n), HoldOf(e, n)) || (!Outranks(HoldOf(e, n), HoldOf(w, n)) && !Less(e.slug, w.slug))
  }

  lemma {:induction false} SortedBySlug(es: seq<CatalogEntry>)
    ensures BySlug(Sorted(es))
  {
    if es != [] {
      SortedBySlug(es[1..]);
      InsertBySlug(es[0], Sorted(es[1..]));
    }
  }

  lemma {:induction false} InsertBySlug(e: CatalogEntry, es: seq<CatalogEntry>)
    requires BySlug(es)
    ensures BySlug(Insert(e, es))
  {
    if es == [] {
    } else if Before(e, es[0]) {
      forall j: nat | j < |es| ensures !Less(es[j].slug, e.slug) {
        NotBelow(e, es, j);
      }
    } else {
      var rest := Insert(e, es[1..]);
      InsertBySlug(e, es[1..]);
      Sorting.InsertKeeps(e, es[1..], Before);
      LessIsTotal(e.slug, es[0].slug);
      forall j: nat | j < |rest| ensures !Less(rest[j].slug, es[0].slug) {
        assert rest[j] in multiset(rest);
        if rest[j] != e {
          assert rest[j] in es[1..];
        }
      }
    }
  }

  lemma NotBelow(e: CatalogEntry, es: seq<CatalogEntry>, j: nat)
    requires BySlug(es) && j < |es| && Before(e, es[0])
    ensures !Less(es[j].slug, e.slug)
  {
    LessIsTotal(e.slug, es[j].slug);
    LessIsTotal(es[0].slug, es[j].slug);
    LessIsTotal(e.slug, es[0].slug);
    if Less(es[j].slug, e.slug) && Less(e.slug, es[0].slug) {
      LessMoves(es[j].slug, e.slug, es[0].slug);
    }
  }

  /** A bare name is listed exactly when some entry wants it. */
  lemma BareIs(cat: seq<CatalogEntry>, x: string, n: Names)
    ensures var bare := TiersOf(cat, n).bare;
            && (x in bare <==> exists e :: e in cat && WantsBare(e, x, n))
            && (x in bare ==> exists e :: e in cat && WantsBare(e, x, n) && bare[x] == n.lower(e.slug))
  {
    var es, t := Sorted(cat), TiersOf(cat, n);
    SameMembers(cat);
    ElectedSorted(cat, x, n);
    if x in t.bare {
      var i: nat :| HeldBy(t, es, x, i, n);
      assert es[i] in cat && WantsBare(es[i], x, n);
    } else {
      forall e | e in cat ensures !WantsBare(e, x, n) {
        var j: nat :| j < |es| && es[j] == e;
      }
    }
  }

  /** There is such an entry whenever the contenders' versions are numeric. */
  lemma Election(cat: seq<CatalogEntry>, x: string, n: Names)
    requires x in TiersOf(cat, n).bare && Comparable(cat, x, n)
    ensures exists w :: Wins(cat, x, w, n) && TiersOf(cat, n).bare[x] == n.lower(w.slug)
  {
    var es, t := Sorted(cat), TiersOf(cat, n);
    SameMembers(cat);
    SortedBySlug(cat);
    ElectedSorted(cat, x, n);
    var i: nat :| HeldBy(t, es, x, i, n);
    SameContenders(cat, es, x, n);
    WinnerIs(cat, es, x, i, n);
  }

  /** The bare name goes to w's slug, and w holds it. */
  ghost predicate ElectedTo(t: Tiers, x: string, w: CatalogEntry, n: Names)
    requires WantsBare(w, x, n)
  {
    x in t.bare && x in t.held && t.bare[x] == n.lower(w.slug) && t.held[x] == HoldOf(w, n)
  }

  /** Contenders of one slug that neither outrank the other are the same contender. */
  lemma SameHold(a: CatalogEntry, b: CatalogEntry, x: string, n: Names)
    requires WantsBare(a, x, n) && WantsBare(b, x, n) && a.slug == b.slug
    requires !Outranks(HoldOf(a, n), HoldOf(b, n)) && !Outranks(HoldOf(b, n), HoldOf(a, n))
    ensures HoldOf(a, n) == HoldOf(b, n)
  {
    var v := HoldOf(a, n).version;
    Opposes(v, v);
  }

  /** Once placed the winner stays, and when its turn comes it takes the name. */
  lemma WinnerStays(t: Tiers, u: Tiers, cat: seq<CatalogEntry>, done: seq<CatalogEntry>, e: CatalogEntry,
                    x: string, w: CatalogEntry, n: Names)
    requires Wins(cat, x, w, n) && e in cat && (forall d :: d in done ==> d in cat && !Less(e.slug, d.slug))
    requires Elected(t, done, x, n) && BareStep(t, u, e, x, n) && (w in done ==> ElectedTo(t, x, w, n))
    ensures w in done || w == e ==> ElectedTo(u, x, w, n)
  {
    if WantsBare(e, x, n) {
      OutranksOnce(HoldOf(w, n), HoldOf(e, n));
    }
    if w == e && w !in done && x in t.bare {
      var i: nat :| HeldBy(t, done, x, i, n);
      var c := done[i];
      OutranksOnce(HoldOf(w, n), HoldOf(c, n));
      if !Outranks(HoldOf(w, n), HoldOf(c, n)) {
        LessIsTotal(c.slug, w.slug);
        SameHold(c, w, x, n);
      }
    }
  }

  lemma {:induction false} WinnerAll(t: Tiers, cat: seq<CatalogEntry>, done: seq<CatalogEntry>, es: seq<CatalogEntry>,
                                     x: string, w: CatalogEntry, n: Names)
    requires Wins(cat, x, w, n) && BySlug(done + es) && (forall d :: d in done || d in es ==> d in cat)
    requires Elected(t, done, x, n) && (w in done ==> ElectedTo(t, x, w, n))
    ensures w in done || w in es ==> ElectedTo(PlaceAll(t, es, n), x, w, n)
    decreases es
  {
    if es != [] {
      var e, u := es[0], Place(t, es[0], n);
      PlaceOne(t, done, es, n);
      PlaceBare(t, e, x, n);
      ElectedMore(t, u, done, e, x, n);
      FirstAfter(done, es);
      WinnerStays(t, u, cat, done, e, x, w, n);
      assert forall d :: d in es <==> d == e || d in es[1..];
      WinnerAll(u, cat, done + [e], es[1..], x, w, n);
    }
  }

  lemma FirstAfter(done: seq<CatalogEntry>, es: seq<CatalogEntry>)
    requires es != [] && BySlug(done + es)
    ensures forall d :: d in done ==> !Less(es[0].slug, d.slug)
  {
    forall d | d in done ensures !Less(es[0].slug, d.slug) {
      var i: nat :| i < |done| && done[i] == d;
      assert (done + es)[i] == d && (done + es)[|done|] == es[0];
    }
  }

  /** Whatever the versions, an entry that beats or ties first with every contender gets the
      bare name. */
  lemma WinnerIsElected(cat: seq<CatalogEntry>, x: string, w: CatalogEntry, n: Names)
    requires Wins(cat, x, w, n)
    ensures x in TiersOf(cat, n).bare && TiersOf(cat, n).bare[x] == n.lower(w.slug)
  {
    SameMembers(cat);
    SortedBySlug(cat);
    assert [] + Sorted(cat) == Sorted(cat);
    WinnerAll(Empty, cat, [], Sorted(cat), x, w, n);
  }

  lemma SameContenders(cat: seq<CatalogEntry>, es: seq<CatalogEntry>, x: string, n: Names)
    requires Comparable(cat, x, n) && forall e :: e in es ==> e in cat
    ensures Comparable(es, x, n)
  {
    forall i: nat | i < |es| && WantsBare(es[i], x, n) ensures Numeric(HoldOf(es[i], n).version) {
      assert es[i] in cat;
      var j: nat :| j < |cat| && cat[j] == es[i];
    }
  }

  lemma WinnerIs(cat: seq<CatalogEntry>, es: seq<CatalogEntry>, x: string, i: nat, n: Names)
    requires BySlug(es) && (forall e :: e in es <==> e in cat)
    requires i < |es| && WantsBare(es[i], x, n) && Leads(es, x, i, n)
    ensures Wins(cat, x, es[i], n)
  {
    forall e | e in cat && WantsBare(e, x, n)
      ensures Outranks(HoldOf(es[i], n), HoldOf(e, n)) ||
              (!Outranks(HoldOf(e, n), HoldOf(es[i], n)) && !Less(e.slug, es[i].slug)) {
      var j: nat :| j < |es| && es[j] == e;
      LessIsTotal(e.slug, e.slug);
    }
  }

  // ---- the other tiers ----

  ghost predicate RawHeld(t: Tiers, es: seq<CatalogEntry>, x: string, n: Names) {
    (x in t.raw <==> exists e :: e in es && n.lower(e.slug) == x) && (x in t.raw ==> t.raw[x] == x)
  }

  lemma RawMore(t: Tiers, u: Tiers, es: seq<CatalogEntry>, e: CatalogEntry, x: string, n: Names)
    requires RawHeld(t, es, x, n) && u.raw == t.raw[n.lower(e.slug) := n.lower(e.slug)]
    ensures RawHeld(u, es + [e], x, n)
  {
    assert forall d :: d in es + [e] <==> d in es || d == e;
  }

  lemma PlaceRaw(t: Tiers, e: CatalogEntry, n: Names)
    ensures Place(t, e, n).raw == t.raw[n.lower(e.slug) := n.lower(e.slug)]
  {
  }

  lemma {:induction false} RawAll(t: Tiers, done: seq<CatalogEntry>, es: seq<CatalogEntry>, x: string, n: Names)
    requires RawHeld(t, done, x, n)
    ensures RawHeld(PlaceAll(t, es, n), done + es, x, n)
    decreases es
  {
    if es == [] {
      assert done + es == done;
    } else {
      PlaceOne(t, done, es, n);
      PlaceRaw(t, es[0], n);
      RawMore(t, Place(t, es[0], n), done, es[0], x, n);
      RawAll(Place(t, es[0], n), done + [es[0]], es[1..], x, n);
    }
  }

  ghost predicate PinnedLast(es: seq<CatalogEntry>, x: string, i: nat, n: Names) {
    i < |es| && WantsPinned(es[i], x, n) && forall j: nat :: i < j < |es| ==> !WantsPinned(es[j], x, n)
  }

  /** A pinned name goes to the last entry that wants it. */
  ghost predicate PinnedHeld(t: Tiers, es: seq<CatalogEntry>, x: string, n: Names) {
    if x in t.pinned then exists i: nat :: PinnedLast(es, x, i, n) && t.pinned[x] == n.lower(es[i].slug)
    else forall i: nat :: i < |es| ==> !WantsPinned(es[i], x, n)
  }

  ghost predicate PinnedStep(t: Tiers, u: Tiers, e: CatalogEntry, x: string, n: Names) {
    if WantsPinned(e, x, n) then x in u.pinned && u.pinned[x] == n.lower(e.slug)
    else (x in u.pinned <==> x in t.pinned) && (x in t.pinned ==> u.pinned[x] == t.pinned[x])
  }

  lemma PlacePinned(t: Tiers, e: CatalogEntry, x: string, n: Names)
    ensures PinnedStep(t, Place(t, e, n), e, x, n)
  {
  }

  lemma PinnedMore(t: Tiers, u: Tiers, es: seq<CatalogEntry>, e: CatalogEntry, x: string, n: Names)
    requires PinnedHeld(t, es, x, n) && PinnedStep(t, u, e, x, n)
    ensures PinnedHeld(u, es + [e], x, n)
  {
    var all := es + [e];
    assert all[|es|] == e && forall j: nat :: j < |es| ==> all[j] == es[j];
    if WantsPinned(e, x, n) {
      assert PinnedLast(all, x, |es|, n);
    } else if x in t.pinned {
      var i: nat :| PinnedLast(es, x, i, n) && t.pinned[x] == n.lower(es[i].slug);
      assert PinnedLast(all, x, i, n);
    }
  }

  lemma {:induction false} PinnedAll(t: Tiers, done: seq<CatalogEntry>, es: seq<CatalogEntry>, x: string, n: Names)
    requires PinnedHeld(t, done, x, n)
    ensures PinnedHeld(PlaceAll(t, es, n), done + es, x, n)
    decreases es
  {
    if es == [] {
      assert done + es == done;
    } else {
      PlaceOne(t, done, es, n);
      PlacePinned(t, es[0], x, n);
      PinnedMore(t, Place(t, es[0], n), done, es[0], x, n);
      PinnedAll(Place(t, es[0], n), done + [es[0]], es[1..], x, n);
    }
  }

  /** Every slug of the catalog is listed as itself, and nothing else is. */
  lemma RawIs(cat: seq<CatalogEntry>, x: string, n: Names)
    ensures RawHeld(TiersOf(cat, n), cat, x, n)
  {
    RawAll(Empty, [], Sorted(cat), x, n);
    assert [] + Sorted(cat) == Sorted(cat);
    SameMembers(cat);
  }

  /** A pinned name goes to the entry with the last slug among those that want it. */
  lemma PinnedIs(cat: seq<CatalogEntry>, x: string, n: Names)
    ensures var pinned := TiersOf(cat, n).pinned;
            if x in pinned then
              exists w :: w in cat && WantsPinned(w, x, n) && pinned[x] == n.lower(w.slug)
                       && forall e :: e in cat && WantsPinned(e, x, n) ==> !Less(w.slug, e.slug)
            else forall e :: e in cat ==> !WantsPinned(e, x, n)
  {
    PinnedAll(Empty, [], Sorted(cat), x, n);
    assert [] + Sorted(cat) == Sorted(cat);
    SameMembers(cat);
    SortedBySlug(cat);
    PinnedAmong(TiersOf(cat, n), cat, Sorted(cat), x, n);
  }

  lemma PinnedAmong(t: Tiers, cat: seq<CatalogEntry>, es: seq<CatalogEntry>, x: string, n: Names)
    requires PinnedHeld(t, es, x, n) && BySlug(es) && forall e :: e in es <==> e in cat
    ensures if x in t.pinned then
              exists w :: w in cat && WantsPinned(w, x, n) && t.pinned[x] == n.lower(w.slug)
                       && forall e :: e in cat && WantsPinned(e, x, n) ==> !Less(w.slug, e.slug)
            else forall e :: e in cat ==> !WantsPinned(e, x, n)
  {
    if x in t.pinned {
      var i: nat :| PinnedLast(es, x, i, n) && t.pinned[x] == n.lower(es[i].slug);
      var w := es[i];
      forall e | e in cat && WantsPinned(e, x, n) ensures !Less(w.slug, e.slug) {
        var j: nat :| j < |es| && es[j] == e;
        LessIsTotal(e.slug, e.slug);
      }
      assert w in cat && WantsPinned(w, x, n);
    } else {
      forall e | e in cat ensures !WantsPinned(e, x, n) {
        var j: nat :| j < |es| && es[j] == e;
      }
    }
  }

  function Lookup(t: Tiers, name: string): Option<string> {
    if name in t.raw then Some(t.raw[name])
    else if name in t.pinned then Some(t.pinned[name])
    else if name in t.bare then Some(t.bare[name])
    else None
  }

  /** A catalog slug resolves to itself, whatever aliases there are; otherwise a pinned name
      to an entry that pins it; otherwise a bare name to the elected one; and nothing else
      resolves. */
  lemma Resolves(cat: seq<CatalogEntry>, name: string, n: Names)
    ensures var r := Lookup(TiersOf(cat, n), name);
            if exists e :: e in cat && n.lower(e.slug) == name then r == Some(name)
            else if exists e :: e in cat && WantsPinned(e, name, n) then
              exists e :: e in cat && WantsPinned(e, name, n) && r == Some(n.lower(e.slug))
            else if exists e :: e in cat && WantsBare(e, name, n) then
              exists e :: e in cat && WantsBare(e, name, n) && r == Some(n.lower(e.slug))
            else r == None
  {
    RawIs(cat, name, n);
    PinnedIs(cat, name, n);
    BareIs(cat, name, n);
  }

  class Registry {
    var raw: map<string, string>
    var pinned: map<string, string>
    var bare: map<string, string>
    var overrides: map<string, Parsed>
    const lower: string -> string

    constructor (lower: string -> string)
      ensures raw == map[] && pinned == map[] && bare == map[] && overrides == map[] && this.lower == lower
    {
      raw, pinned, bare, overrides := map[], map[], map[], map[];
      this.lower := lower;
    }

    method SetOverride(slug: string, p: Parsed)
      modifies this`overrides
      ensures overrides == old(overrides)[lower(slug) := p]
    {
      overrides := overrides[lower(slug) := p];
    }

    /** The tiers are rebuilt from the catalog alone. */
    method LoadCatalog(entries: seq<CatalogEntry>)
      modifies this`raw, this`pinned, this`bare
      ensures var t := TiersOf(entries, Names(overrides, lower)); raw == t.raw && pinned == t.pinned && bare == t.bare
    {
      var n := Names(overrides, lower);
      var sorted := Sorted(entries);
      var t := Empty;
      for i := 0 to |sorted|
        invariant PlaceAll(t, sorted[i..], n) == TiersOf(entries, n)
      {
        assert sorted[i..][0] == sorted[i] && sorted[i..][1..] == sorted[i + 1..];
        var slug := lower(sorted[i].slug);
        var u := t.(raw := t.raw[slug := slug]);
        var p := ParseSlug(slug, n);
        if p.Some? {
          var pa := PinnedAlias(p.value);
          if pa != "" {
            u := u.(pinned := u.pinned[pa := slug]);
          }
          var ba, candidate := BareAlias(p.value), Hold(p.value.version, sorted[i].priority);
          var take := ba !in u.held;
          if !take {
            take := Outranks(candidate, u.held[ba]);
          }
          if take {
            u := u.(bare := u.bare[ba := slug], held := u.held[ba := candidate]);
          }
        }
        t := u;
      }
      raw, pinned, bare := t.raw, t.pinned, t.bare;
    }

    method Resolve(name: string) returns (upstream: Option<string>)
      ensures upstream == Lookup(Tiers(raw, pinned, bare, map[]), name)
    {
      if name in raw {
        return Some(raw[name]);
      }
      if name in pinned {
        return Some(pinned[name]);
      }
      if name in bare {
        return Some(bare[name]);
      }
      return None;
    }
  }
}
