/**
 The aliases in terms of the slugs themselves: which names a catalog makes, letter by
 letter, and which slug each of them reaches.
 */
module AliasNames {
  import opened Aliases
  import opened Decimals
  import Sorting
  import opened Texts
  import opened Versions
  import opened Wrappers

  // ---- slugs and what they are made of ----

  predicate GoodTail(tail: string) { tail == "" || IsTail(tail) }

  /** The slug of a version and a tail, where "" is none. */
  function SlugOf(version: string, tail: string): string {
    if tail == "" then Prefix + version else Prefix + (version + ("-" + tail))
  }

  /** No slug is renamed, and lower-casing once is enough. */
  ghost predicate Regular(n: Names) { n.overrides == map[] && forall s :: n.lower(n.lower(s)) == n.lower(s) }

  lemma VersionHasNoDash(version: string)
    requires IsVersion(version)
    ensures forall k: nat :: k < |version| ==> version[k] != '-'
  {
    VersionChars(version);
  }

  /** Reading a slug gives its version and tail back, */
  lemma SlugIsRead(version: string, tail: string, n: Names)
    requires IsVersion(version) && GoodTail(tail) && Plain(SlugOf(version, tail), n)
    ensures ParseSlug(SlugOf(version, tail), n) ==
            Some(PartsOf(version, tail))
  {
    if tail == "" {
      VersionIsRead(version, n);
    } else {
      TailIsRead(version, tail, n);
    }
  }

  lemma TakenApart(rest: string, d: nat)
    requires d < |rest| && rest[d] == '-'
    ensures rest == rest[..d] + ("-" + rest[d + 1..])
  {
  }

  lemma {:induction false} DashIs(s: string)
    ensures Dash(s) < |s| ==> s[Dash(s)] == '-'
  {
    if s != "" && s[0] != '-' {
      DashIs(s[1..]);
    }
  }

  /** and nothing that is not such a slug is read. */
  lemma ReadIsSlug(s: string, n: Names)
    requires Plain(s, n) && ParseSlug(s, n).Some?
    ensures exists version, tail :: IsVersion(version) && GoodTail(tail) && s == SlugOf(version, tail)
  {
    var rest := s[4..];
    var d := Dash(rest);
    assert s == Prefix + rest;
    if d == |rest| {
      assert rest[..d] == rest;
      assert IsVersion(rest) && GoodTail("") && s == SlugOf(rest, "");
    } else {
      DashIs(rest);
      TakenApart(rest, d);
      assert IsVersion(rest[..d]) && GoodTail(rest[d + 1..]) && s == SlugOf(rest[..d], rest[d + 1..]);
    }
  }

  // ---- the names ----

  /** The rolling name of a slug: its codename, and its version when it has none. */
  function RollingName(version: string, tail: string): string {
    if tail == "" then version else if tail == "mini" then version + "-mini" else tail
  }

  predicate IsNamed(s: string, version: string, tail: string, x: string) {
    IsVersion(version) && GoodTail(tail) && s == SlugOf(version, tail) && x == RollingName(version, tail)
  }

  ghost predicate Aims(s: string, x: string) { exists version, tail :: IsNamed(s, version, tail, x) }

  function PartsOf(version: string, tail: string): Parsed {
    if tail == "mini" then Parsed(version, "", "mini") else Parsed(version, tail, "")
  }

  lemma PartsAreNamed(version: string, tail: string)
    ensures BareAlias(PartsOf(version, tail)) == RollingName(version, tail)
    ensures PinnedAlias(PartsOf(version, tail)) == if tail == "" || tail == "mini" then "" else tail + "-" + version
  {
    if tail == "mini" {
      assert version + "-" + "mini" == version + "-mini";
    }
  }

  lemma NameIsAimed(s: string, version: string, tail: string, n: Names)
    requires IsVersion(version) && GoodTail(tail) && s == SlugOf(version, tail) && Plain(s, n)
    ensures ParseSlug(s, n).Some? && BareAlias(ParseSlug(s, n).value) == RollingName(version, tail)
  {
    SlugIsRead(version, tail, n);
    PartsAreNamed(version, tail);
  }

  lemma WantsIff(e: CatalogEntry, x: string, n: Names)
    requires Regular(n)
    ensures WantsBare(e, x, n) <==> Aims(n.lower(e.slug), x)
  {
    var s := n.lower(e.slug);
    assert Plain(s, n);
    if WantsBare(e, x, n) {
      ReadIsSlug(s, n);
      var version, tail :| IsVersion(version) && GoodTail(tail) && s == SlugOf(version, tail);
      NameIsAimed(s, version, tail, n);
      assert IsNamed(s, version, tail, x);
    } else if Aims(s, x) {
      var version, tail :| IsNamed(s, version, tail, x);
      NameIsAimed(s, version, tail, n);
      assert false;
    }
  }

  /** A rolling name is listed exactly when some slug of the catalog has it, and reaches such
      a slug. */
  lemma RollingNames(cat: seq<CatalogEntry>, x: string, n: Names)
    requires Regular(n)
    ensures var bare := TiersOf(cat, n).bare;
            && (x in bare <==> exists e :: e in cat && Aims(n.lower(e.slug), x))
            && (x in bare ==> exists e :: e in cat && Aims(n.lower(e.slug), x) && bare[x] == n.lower(e.slug))
  {
    BareIs(cat, x, n);
    forall e | e in cat ensures WantsBare(e, x, n) <==> Aims(n.lower(e.slug), x) {
      WantsIff(e, x, n);
    }
  }

  lemma SplitAtDash(a: string, x: string, b: string, y: string)
    requires IsTail(a) && IsTail(b) && a + ("-" + x) == b + ("-" + y)
    ensures a == b && x == y
  {
    DashAt(a, "-" + x);
    DashAt(b, "-" + y);
    var s := a + ("-" + x);
    assert s[..|a|] == a && s[|a| + 1..] == x;
    assert s[..|a|] == b && s[|a| + 1..] == y;
  }

  lemma PinSpells(v: string, t: string, version: string, tail: string)
    requires GoodTail(t) && IsTail(tail) && tail != "mini"
    ensures PinnedAlias(PartsOf(v, t)) == tail + ("-" + version) <==> v == version && t == tail
  {
    PartsAreNamed(v, t);
    if t != "" && t != "mini" {
      Regrouped(t, v);
      if t + ("-" + v) == tail + ("-" + version) {
        SplitAtDash(t, v, tail, version);
      }
    }
  }

  lemma Regrouped(a: string, b: string)
    ensures a + "-" + b == a + ("-" + b)
  {
  }

  lemma NameIsPinned(s: string, v: string, t: string, version: string, tail: string, n: Names)
    requires IsVersion(v) && GoodTail(t) && s == SlugOf(v, t) && Plain(s, n)
    requires IsTail(tail) && tail != "mini"
    ensures ParseSlug(s, n) == Some(PartsOf(v, t))
    ensures PinnedAlias(PartsOf(v, t)) == tail + ("-" + version) <==> v == version && t == tail
  {
    SlugIsRead(v, t, n);
    PinSpells(v, t, version, tail);
  }

  lemma SlugIsUnique(s: string, v: string, t: string, version: string, tail: string, n: Names)
    requires IsVersion(v) && GoodTail(t) && s == SlugOf(v, t) && Plain(s, n)
    requires IsVersion(version) && GoodTail(tail) && s == SlugOf(version, tail)
    ensures v == version && t == tail
  {
    SlugIsRead(v, t, n);
    SlugIsRead(version, tail, n);
  }

  lemma PinsIff(e: CatalogEntry, version: string, tail: string, n: Names)
    requires Regular(n) && IsVersion(version) && IsTail(tail) && tail != "mini"
    ensures WantsPinned(e, tail + ("-" + version), n) <==> n.lower(e.slug) == SlugOf(version, tail)
  {
    var s := n.lower(e.slug);
    assert Plain(s, n);
    if s == SlugOf(version, tail) {
      NameIsPinned(s, version, tail, version, tail, n);
    } else if ParseSlug(s, n).Some? {
      ReadIsSlug(s, n);
      var v, t :| IsVersion(v) && GoodTail(t) && s == SlugOf(v, t);
      NameIsPinned(s, v, t, version, tail, n);
    }
  }

  /** A pinned name reaches exactly the slug it spells: "tail-version" stands for
      "gpt-version-tail", and is listed when the catalog has it. */
  lemma PinnedNames(cat: seq<CatalogEntry>, version: string, tail: string, n: Names)
    requires Regular(n) && IsVersion(version) && IsTail(tail) && tail != "mini"
    ensures var t, x := TiersOf(cat, n), tail + ("-" + version);
            if SlugOf(version, tail) in t.raw then x in t.pinned && t.pinned[x] == SlugOf(version, tail)
            else x !in t.pinned
  {
    var x := tail + ("-" + version);
    PinnedIs(cat, x, n);
    RawIs(cat, SlugOf(version, tail), n);
    forall e | e in cat ensures WantsPinned(e, x, n) <==> n.lower(e.slug) == SlugOf(version, tail) {
      PinsIff(e, version, tail, n);
    }
  }

  lemma AloneIsPlaced(e: CatalogEntry, n: Names)
    ensures TiersOf([e], n) == Place(Empty, e, n)
  {
    assert [e][1..] == [];
    assert Sorting.Sort([], Before) == [];
    assert Sorted([e]) == Insert(e, []) == [e];
    assert PlaceAll(Empty, [e], n) == PlaceAll(Place(Empty, e, n), [], n);
  }

  lemma PlacedAlone(e: CatalogEntry, p: Parsed, n: Names)
    requires n.lower(e.slug) == e.slug && ParseSlug(e.slug, n) == Some(p)
    ensures var t := Place(Empty, e, n);
            && t.raw == map[e.slug := e.slug] && t.bare == map[BareAlias(p) := e.slug]
            && t.pinned == if PinnedAlias(p) == "" then map[] else map[PinnedAlias(p) := e.slug]
  {
  }

  /** A catalog of one slug: it has its rolling name and, with a codename, its pinned one. */
  lemma AloneResolves(version: string, tail: string, priority: int, n: Names)
    requires IsVersion(version) && GoodTail(tail) && Plain(SlugOf(version, tail), n)
    ensures var slug := SlugOf(version, tail);
            var t := TiersOf([CatalogEntry(slug, priority)], n);
            && t.raw == map[slug := slug]
            && t.bare == map[RollingName(version, tail) := slug]
            && t.pinned == if tail == "" || tail == "mini" then map[] else map[tail + "-" + version := slug]
  {
    var e := CatalogEntry(SlugOf(version, tail), priority);
    AloneIsPlaced(e, n);
    SlugIsRead(version, tail, n);
    PartsAreNamed(version, tail);
    PlacedAlone(e, PartsOf(version, tail), n);
  }

  /** An override gives the slug the names it says. */
  lemma OverrideResolves(slug: string, p: Parsed, priority: int, n: Names)
    requires n.lower(slug) == slug && slug in n.overrides && n.overrides[slug] == p
    ensures var t := TiersOf([CatalogEntry(slug, priority)], n);
            if p.codename != "" then
              t.bare == map[p.codename := slug] && t.pinned == map[p.codename + "-" + p.version := slug]
            else if p.modifier != "" then t.bare == map[p.version + "-" + p.modifier := slug] && t.pinned == map[]
            else t.bare == map[p.version := slug] && t.pinned == map[]
  {
    AloneIsPlaced(CatalogEntry(slug, priority), n);
  }

  // ---- who holds a rolling name ----

  /** A newer version outranks, and between equals the higher priority. */
  lemma OutranksIs(c: Hold, i: Hold)
    requires AllFit(c.version) && AllFit(i.version)
    ensures Outranks(c, i) <==>
            || Precedes(Values(i.version), Values(c.version))
            || (Values(i.version) == Values(c.version) && i.priority < c.priority)
  {
    ComparesNumbers(c.version, i.version);
    ComparesNumbers(i.version, c.version);
    Opposes(i.version, c.version);
  }

  /** Older than the version, or as old and of lower priority. */
  ghost predicate Older(e: CatalogEntry, v: string, w: CatalogEntry, version: string) {
    && AllFit(v) && AllFit(version)
    && (Precedes(Values(v), Values(version)) || (Values(v) == Values(version) && e.priority < w.priority))
  }

  lemma HoldIs(e: CatalogEntry, version: string, tail: string, n: Names)
    requires Regular(n) && IsVersion(version) && GoodTail(tail) && n.lower(e.slug) == SlugOf(version, tail)
    ensures ParseOf(e, n).Some? && HoldOf(e, n) == Hold(version, e.priority)
  {
    SlugIsRead(version, tail, n);
  }

  /** Among the catalog's slugs with one rolling name, it reaches the newest. */
  lemma NewestHolds(cat: seq<CatalogEntry>, w: CatalogEntry, version: string, tail: string, n: Names)
    requires Regular(n) && IsVersion(version) && GoodTail(tail)
    requires w in cat && n.lower(w.slug) == SlugOf(version, tail)
    requires forall e, v, t ::
               e in cat && e != w && IsNamed(n.lower(e.slug), v, t, RollingName(version, tail)) ==>
               Older(e, v, w, version)
    ensures var bare, x := TiersOf(cat, n).bare, RollingName(version, tail);
            x in bare && bare[x] == SlugOf(version, tail)
  {
    var x := RollingName(version, tail);
    HoldIs(w, version, tail, n);
    NameIsAimed(n.lower(w.slug), version, tail, n);
    forall e | e in cat && WantsBare(e, x, n)
      ensures Outranks(HoldOf(w, n), HoldOf(e, n)) ||
              (!Outranks(HoldOf(e, n), HoldOf(w, n)) && !Less(e.slug, w.slug)) {
      if e == w {
        OutranksOnce(HoldOf(w, n), HoldOf(w, n));
        LessIsTotal(w.slug, w.slug);
      } else {
        var v, t := NamedBy(e, x, n);
        assert IsNamed(n.lower(e.slug), v, t, RollingName(version, tail));
        HoldIs(e, v, t, n);
        OutranksIs(HoldOf(w, n), HoldOf(e, n));
      }
    }
    assert Wins(cat, x, w, n);
    WinnerIsElected(cat, x, w, n);
  }

  lemma NamedBy(e: CatalogEntry, x: string, n: Names) returns (v: string, t: string)
    requires Regular(n) && WantsBare(e, x, n)
    ensures IsNamed(n.lower(e.slug), v, t, x)
  {
    WantsIff(e, x, n);
    v, t :| IsNamed(n.lower(e.slug), v, t, x);
  }

  /** A version with a dot is a name for its own slug alone; */
  lemma DottedIsExact(cat: seq<CatalogEntry>, version: string, n: Names)
    requires Regular(n) && IsVersion(version) && '.' in version && version in TiersOf(cat, n).bare
    ensures TiersOf(cat, n).bare[version] == SlugOf(version, "")
  {
    RollingNames(cat, version, n);
    var e :| e in cat && Aims(n.lower(e.slug), version) && TiersOf(cat, n).bare[version] == n.lower(e.slug);
    var v, t :| IsNamed(n.lower(e.slug), v, t, version);
    if t == "mini" {
      assert version[|v|] == '-';
      VersionHasNoDash(version);
      assert false;
    }
  }

  /** but a bare number is also what a codename may look like: with "gpt-5" and "gpt-6-5" in
      the catalog, "5" is not the version 5. */
  lemma NumberIsTaken(number: string, version: string, p: int, q: int, n: Names)
    requires Regular(n) && IsVersion(number) && IsTail(number) && IsVersion(version)
    requires AllFit(number) && AllFit(version) && Precedes(Values(number), Values(version))
    requires Plain(SlugOf(number, ""), n) && Plain(SlugOf(version, number), n)
    ensures var cat := [CatalogEntry(SlugOf(number, ""), p), CatalogEntry(SlugOf(version, number), q)];
            number in TiersOf(cat, n).bare && TiersOf(cat, n).bare[number] == SlugOf(version, number)
  {
    var a, w := CatalogEntry(SlugOf(number, ""), p), CatalogEntry(SlugOf(version, number), q);
    forall v, t | IsVersion(v) && GoodTail(t) && SlugOf(number, "") == SlugOf(v, t) ensures v == number {
      SlugIsUnique(SlugOf(number, ""), number, "", v, t, n);
    }
    VersionHasNoDash(number);
    assert number != "mini" by {
      VersionChars(number);
      assert "mini"[0] == 'm' && !VersionChar('m');
    }
    NewestHolds([a, w], w, version, number, n);
  }
}
