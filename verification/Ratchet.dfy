/** The compatibility ratchet: counted usages per surface and path, compared with an allowed
    baseline of the same shape. */
module Ratchet {
  import opened Text
  import opened Sequences
  import opened Sorting

  /** One usage; `id` tells usages of one surface and path apart. */
  datatype Usage = Usage(surface: string, path: string, id: string)

  type Counts = map<string, map<string, nat>>

  type Place = (string, string)

  function At(p: Place): Usage -> bool {
    (u: Usage) => u.surface == p.0 && u.path == p.1
  }

  function Tally(us: seq<Usage>, p: Place): nat { |Filter(us, At(p))| }

  /** A missing surface or path allows nothing. */
  function Lookup(c: Counts, p: Place): nat {
    if p.0 in c && p.1 in c[p.0] then c[p.0][p.1] else 0
  }

  /** The counts hold exactly the places that occur. */
  ghost predicate Counted(c: Counts, us: seq<Usage>) {
    && (forall p: Place :: Lookup(c, p) == Tally(us, p))
    && (forall s <- c :: c[s] != map[] && forall path <- c[s] :: c[s][path] > 0)
  }

  lemma TallySnoc(us: seq<Usage>, u: Usage, p: Place)
    ensures Tally(us + [u], p) == Tally(us, p) + if At(p)(u) then 1 else 0
  {
  }

  lemma CountedNext(c: Counts, us: seq<Usage>, u: Usage)
    requires Counted(c, us)
    ensures var paths := if u.surface in c then c[u.surface] else map[];
      var n := if u.path in paths then paths[u.path] else 0;
      Counted(c[u.surface := paths[u.path := n + 1]], us + [u])
  {
    hide Tally;
    var paths := if u.surface in c then c[u.surface] else map[];
    var n := if u.path in paths then paths[u.path] else 0;
    var c' := c[u.surface := paths[u.path := n + 1]];
    forall p: Place
      ensures Lookup(c', p) == Tally(us + [u], p)
    {
      TallySnoc(us, u, p);
    }
    assert u.path in c'[u.surface];
  }

  method CompatCounts(us: seq<Usage>) returns (c: Counts)
    ensures Counted(c, us)
  {
    c := map[];
    assert Counted(c, []);
    hide Counted;
    var i := 0;
    while i < |us|
      invariant 0 <= i <= |us| && Counted(c, us[..i])
    {
      var u := us[i];
      assert us[..i + 1] == us[..i] + [u];
      CountedNext(c, us[..i], u);
      var paths := if u.surface in c then c[u.surface] else map[];
      c := c[u.surface := paths[u.path := (if u.path in paths then paths[u.path] else 0) + 1]];
      i := i + 1;
    }
    assert us[..|us|] == us;
  }

  // ---------------------------------------------------------------- baseline totals

  ghost function SumValues(m: map<string, nat>): nat
    decreases |m|
  {
    if m == map[] then 0
    else
      var k :| k in m;
      m[k] + SumValues(m - {k})
  }

  lemma {:induction false} SumWithout(m: map<string, nat>, k: string)
    requires k in m
    ensures SumValues(m) == m[k] + SumValues(m - {k})
    decreases |m|
  {
    var first :| first in m && SumValues(m) == m[first] + SumValues(m - {first});
    if first != k {
      SumWithout(m - {first}, k);
      SumWithout(m - {k}, first);
      assert m - {first} - {k} == m - {k} - {first};
    }
  }

  function OnSurface(surface: string): Usage -> bool {
    (u: Usage) => u.surface == surface
  }

  ghost predicate CountsPaths(m: map<string, nat>, us: seq<Usage>, surface: string) {
    && (forall path: string :: Tally(us, (surface, path)) == if path in m then m[path] else 0)
    && (forall path <- m :: m[path] > 0)
  }

  function Fewer(m: map<string, nat>, k: string): map<string, nat>
    requires k in m && m[k] > 0
  {
    if m[k] == 1 then m - {k} else m[k := m[k] - 1]
  }

  lemma SumOfFewer(m: map<string, nat>, k: string)
    requires k in m && m[k] > 0
    ensures SumValues(Fewer(m, k)) == SumValues(m) - 1
  {
    SumWithout(m, k);
    if m[k] > 1 {
      SumWithout(Fewer(m, k), k);
      assert Fewer(m, k) - {k} == m - {k};
    }
  }

  lemma PathsWithoutLast(m: map<string, nat>, init: seq<Usage>, u: Usage, surface: string)
    requires CountsPaths(m, init + [u], surface)
    ensures u.surface != surface ==> CountsPaths(m, init, surface)
    ensures u.surface == surface ==> u.path in m && m[u.path] > 0 && CountsPaths(Fewer(m, u.path), init, surface)
  {
  }

  /** A surface's counts add up to its usages, as the baseline's totals say. */
  lemma {:induction false} SurfaceTotalIsUsages(m: map<string, nat>, us: seq<Usage>, surface: string)
    requires CountsPaths(m, us, surface)
    ensures SumValues(m) == |Filter(us, OnSurface(surface))|
    decreases |us|
  {
    hide SumValues, Fewer, CountsPaths;
    if us == [] {
      NoPaths(m, surface);
    } else {
      var init, u := us[..|us| - 1], us[|us| - 1];
      assert us == init + [u];
      PathsWithoutLast(m, init, u, surface);
      if u.surface == surface {
        SumOfFewer(m, u.path);
        SurfaceTotalIsUsages(Fewer(m, u.path), init, surface);
      } else {
        SurfaceTotalIsUsages(m, init, surface);
      }
    }
  }

  lemma NoPaths(m: map<string, nat>, surface: string)
    requires CountsPaths(m, [], surface)
    ensures m == map[] && SumValues(m) == 0
  {
  }

  // ---------------------------------------------------------------- comparison

  function Drop(us: seq<Usage>, n: nat): seq<Usage> {
    if |us| <= n then [] else us[n..]
  }

  /** What a comparison reports: at every place, the usages beyond the allowed number. */
  ghost predicate ReportsNew(news: seq<Usage>, us: seq<Usage>, allowed: Counts) {
    forall p: Place :: Filter(news, At(p)) == Drop(Filter(us, At(p)), Lookup(allowed, p))
  }

  /** And, for every place with fewer usages than allowed, by how many. */
  ghost predicate ReportsResolved(resolved: seq<(Place, nat)>, us: seq<Usage>, allowed: Counts) {
    && NoDuplicates(resolved)
    && forall p: Place, n: nat :: (p, n) in resolved <==> n > 0 && Tally(us, p) + n == Lookup(allowed, p)
  }

  ghost predicate Accepted(us: seq<Usage>, allowed: Counts) {
    forall p: Place :: Tally(us, p) <= Lookup(allowed, p)
  }

  /** Nothing new exactly when no place exceeds what is allowed. */
  lemma NothingNewIff(news: seq<Usage>, us: seq<Usage>, allowed: Counts)
    requires ReportsNew(news, us, allowed)
    ensures news == [] <==> Accepted(us, allowed)
  {
    if news != [] {
      var p := (news[0].surface, news[0].path);
      assert news[0] in Filter(news, At(p));
      assert Tally(us, p) > Lookup(allowed, p);
    } else {
      forall p: Place
        ensures Tally(us, p) <= Lookup(allowed, p)
      {
        assert Filter(news, At(p)) == Drop(Filter(us, At(p)), Lookup(allowed, p));
      }
    }
  }

  /** Usages compared with their own baseline: nothing new and nothing resolved. */
  lemma OwnBaselineIsClean(us: seq<Usage>, own: Counts, news: seq<Usage>, resolved: seq<(Place, nat)>)
    requires Counted(own, us) && ReportsNew(news, us, own) && ReportsResolved(resolved, us, own)
    ensures news == [] && resolved == []
  {
    hide Tally, Filter;
    NothingNewIff(news, us, own);
    var first := if resolved == [] then (("", ""), 0) else resolved[0];
    assert resolved != [] ==> (first.0, first.1) in resolved;
    forall p: Place, n: nat
      ensures (p, n) !in resolved
    {
      assert Lookup(own, p) == Tally(us, p);
    }
  }

  /** Acceptance composes through successive baselines. */
  lemma AcceptanceIsTransitive(us: seq<Usage>, vs: seq<Usage>, ws: seq<Usage>, ofVs: Counts, ofWs: Counts)
    requires Counted(ofVs, vs) && Counted(ofWs, ws) && Accepted(us, ofVs) && Accepted(vs, ofWs)
    ensures Accepted(us, ofWs)
  {
    hide Tally;
    forall p: Place
      ensures Tally(us, p) <= Lookup(ofWs, p)
    {
      assert Tally(us, p) <= Lookup(ofVs, p) == Tally(vs, p) <= Lookup(ofWs, p);
    }
  }

  /** Two usage sets accept each other only if they count alike everywhere. */
  lemma MutualAcceptance(us: seq<Usage>, vs: seq<Usage>, ofUs: Counts, ofVs: Counts)
    requires Counted(ofUs, us) && Counted(ofVs, vs)
    ensures Accepted(us, ofVs) && Accepted(vs, ofUs) <==> forall p: Place :: Tally(us, p) == Tally(vs, p)
  {
    hide Tally;
    if Accepted(us, ofVs) && Accepted(vs, ofUs) {
      forall p: Place
        ensures Tally(us, p) == Tally(vs, p)
      {
        assert Tally(us, p) <= Lookup(ofVs, p) == Tally(vs, p) <= Lookup(ofUs, p) == Tally(us, p);
      }
    }
  }

  // ---------------------------------------------------------------- how many are new

  function Over(us: seq<Usage>, allowed: Counts, p: Place): nat {
    if Tally(us, p) > Lookup(allowed, p) then Tally(us, p) - Lookup(allowed, p) else 0
  }

  function TotalOver(us: seq<Usage>, allowed: Counts, places: seq<Place>): nat {
    if places == [] then 0
    else TotalOver(us, allowed, places[..|places| - 1]) + Over(us, allowed, places[|places| - 1])
  }

  lemma {:induction false} TotalOverSkips(us: seq<Usage>, u: Usage, allowed: Counts, places: seq<Place>)
    requires (u.surface, u.path) !in places
    ensures TotalOver(us + [u], allowed, places) == TotalOver(us, allowed, places)
  {
    hide Tally;
    if places != [] {
      TotalOverSkips(us, u, allowed, places[..|places| - 1]);
      TallySnoc(us, u, places[|places| - 1]);
    }
  }

  /** One more usage counts once, at its own place, and only if the place is full. */
  lemma {:induction false} TotalOverNext(us: seq<Usage>, u: Usage, allowed: Counts, places: seq<Place>)
    requires NoDuplicates(places) && (u.surface, u.path) in places
    ensures TotalOver(us + [u], allowed, places) == TotalOver(us, allowed, places)
            + if Tally(us, (u.surface, u.path)) >= Lookup(allowed, (u.surface, u.path)) then 1 else 0
  {
    hide Tally;
    var last := places[|places| - 1];
    TallySnoc(us, u, last);
    if last == (u.surface, u.path) {
      TotalOverSkips(us, u, allowed, places[..|places| - 1]);
    } else {
      TotalOverNext(us, u, allowed, places[..|places| - 1]);
    }
  }

  lemma {:induction false} NoneOver(allowed: Counts, places: seq<Place>)
    ensures TotalOver([], allowed, places) == 0
  {
    if places != [] { NoneOver(allowed, places[..|places| - 1]); }
  }

  /** The length of the report is the sum over all places of the excess, whichever list of the
      places one sums over. */
  lemma NewLengthIsTotalOver(news: seq<Usage>, allowed: Counts, us: seq<Usage>, places: seq<Place>)
    requires ReportsNew(news, us, allowed)
    requires NoDuplicates(places) && forall u <- us :: (u.surface, u.path) in places
    ensures |news| == TotalOver(us, allowed, places)
  {
    forall u | u in news
      ensures u in us
    {
      var p := (u.surface, u.path);
      assert u in Filter(news, At(p));
      assert u in Drop(Filter(us, At(p)), Lookup(allowed, p));
    }
    LengthByPlace(news, places);
    SumsAgree(news, us, allowed, places);
  }

  function Lengths(us: seq<Usage>, places: seq<Place>): nat {
    if places == [] then 0 else Lengths(us, places[..|places| - 1]) + Tally(us, places[|places| - 1])
  }

  lemma {:induction false} SumsAgree(news: seq<Usage>, us: seq<Usage>, allowed: Counts, places: seq<Place>)
    requires ReportsNew(news, us, allowed)
    ensures Lengths(news, places) == TotalOver(us, allowed, places)
  {
    if places != [] {
      SumsAgree(news, us, allowed, places[..|places| - 1]);
      var p := places[|places| - 1];
      assert Filter(news, At(p)) == Drop(Filter(us, At(p)), Lookup(allowed, p));
    }
  }

  lemma {:induction false} LengthByPlace(us: seq<Usage>, places: seq<Place>)
    requires NoDuplicates(places) && forall u <- us :: (u.surface, u.path) in places
    ensures Lengths(us, places) == |us|
  {
    hide Tally, Lengths;
    LengthsAreTotals(us, places);
    if us == [] {
      NoneOver(map[], places);
    } else {
      var init, last := us[..|us| - 1], us[|us| - 1];
      LengthByPlace(init, places);
      LengthsAreTotals(init, places);
      TotalOverNext(init, last, map[], places);
      assert us == init + [last];
    }
  }

  lemma {:induction false} LengthsAreTotals(us: seq<Usage>, places: seq<Place>)
    ensures Lengths(us, places) == TotalOver(us, map[], places)
  {
    hide Tally;
    if places != [] { LengthsAreTotals(us, places[..|places| - 1]); }
  }

  // ---------------------------------------------------------------- the comparison loops

  method SortedSet(xs: set<string>) returns (r: seq<string>)
    ensures NoDuplicates(r) && forall x :: x in r <==> x in xs
    ensures SortedBy(r, ByText)
  {
    var rest, listed := xs, [];
    while rest != {}
      invariant forall x :: x in xs <==> x in rest || x in listed
      invariant NoDuplicates(listed) && forall x <- listed :: x !in rest
      decreases |rest|
    {
      var x :| x in rest;
      rest, listed := rest - {x}, listed + [x];
    }
    r := Sort(listed, ByText);
    forall x { SortHas(listed, ByText, x); }
    SortKeepsDistinct(listed, ByText);
    assert forall i, j :: 0 <= i < j < |r| ==> ByText(r[i]) != ByText(r[j]);
  }

  lemma NoUsages()
    ensures forall p: Place :: Filter([], At(p)) == []
  {
  }

  method GroupByPlace(us: seq<Usage>) returns (groups: map<Place, seq<Usage>>)
    ensures forall p: Place :: Filter(us, At(p)) == if p in groups then groups[p] else []
  {
    hide Filter;
    groups := map[];
    var i := 0;
    NoUsages();
    while i < |us|
      invariant 0 <= i <= |us|
      invariant forall p: Place :: Filter(us[..i], At(p)) == if p in groups then groups[p] else []
    {
      var u := us[i];
      var place := (u.surface, u.path);
      assert us[..i + 1] == us[..i] + [u];
      forall p: Place { FilterSnoc(us[..i], u, At(p)); }
      groups := groups[place := (if place in groups then groups[place] else []) + [u]];
      i := i + 1;
    }
    assert us[..|us|] == us;
  }

  /** The report restricted to the places compared so far. */
  ghost predicate Progress(news: seq<Usage>, resolved: seq<(Place, nat)>, us: seq<Usage>, allowed: Counts,
      done: set<Place>) {
    NewsSoFar(news, us, allowed, done) && ResolvedSoFar(resolved, us, allowed, done)
  }

  ghost predicate NewsSoFar(news: seq<Usage>, us: seq<Usage>, allowed: Counts, done: set<Place>) {
    forall p: Place :: Filter(news, At(p)) == if p in done then Drop(Filter(us, At(p)), Lookup(allowed, p)) else []
  }

  ghost predicate ResolvedSoFar(resolved: seq<(Place, nat)>, us: seq<Usage>, allowed: Counts, done: set<Place>) {
    && NoDuplicates(resolved)
    && (forall p: Place, n: nat ::
          (p, n) in resolved <==> p in done && n > 0 && Tally(us, p) + n == Lookup(allowed, p))
  }

  lemma BeyondAtPlace(us: seq<Usage>, p: Place, n: nat)
    ensures forall u <- Drop(Filter(us, At(p)), n) :: At(p)(u)
  {
  }

  lemma NewsNext(news: seq<Usage>, us: seq<Usage>, allowed: Counts, done: set<Place>, place: Place)
    requires NewsSoFar(news, us, allowed, done) && place !in done
    ensures NewsSoFar(news + Drop(Filter(us, At(place)), Lookup(allowed, place)), us, allowed, done + {place})
  {
    hide Lookup, Filter, Drop;
    var more := Drop(Filter(us, At(place)), Lookup(allowed, place));
    BeyondAtPlace(us, place, Lookup(allowed, place));
    forall p: Place
      ensures Filter(news + more, At(p)) == if p == place then more else Filter(news, At(p))
    {
      FilterConcat(news, more, At(p));
      if p == place { FilterAll(more, At(p)); } else { FilterNone(more, At(p)); }
    }
  }

  lemma ResolvedNext(resolved: seq<(Place, nat)>, us: seq<Usage>, allowed: Counts, done: set<Place>, place: Place)
    requires ResolvedSoFar(resolved, us, allowed, done) && place !in done
    ensures var current, limit := Tally(us, place), Lookup(allowed, place);
      ResolvedSoFar(if current < limit then resolved + [(place, limit - current)]
          else resolved, us, allowed, done + {place})
  {
  }

  lemma ProgressNext(news: seq<Usage>, resolved: seq<(Place, nat)>, us: seq<Usage>, allowed: Counts,
      done: set<Place>, place: Place)
    requires Progress(news, resolved, us, allowed, done) && place !in done
    ensures var current, limit := Tally(us, place), Lookup(allowed, place);
      Progress(news + Drop(Filter(us, At(place)), limit),
               if current < limit then resolved + [(place, limit - current)] else resolved,
               us, allowed, done + {place})
  {
    NewsNext(news, us, allowed, done, place);
    ResolvedNext(resolved, us, allowed, done, place);
  }

  // ---------------------------------------------------------------- the order of a report

  /** By surface, then by path. */
  predicate PlaceLe(p: Place, q: Place) {
    if p.0 == q.0 then Le(p.1, q.1) else Le(p.0, q.0)
  }

  function PlacesOf(us: seq<Usage>): (r: seq<Place>)
    ensures |r| == |us| && forall i :: 0 <= i < |us| ==> r[i] == (us[i].surface, us[i].path)
  {
    seq(|us|, i requires 0 <= i < |us| => (us[i].surface, us[i].path))
  }

  function PlacesIn(resolved: seq<(Place, nat)>): (r: seq<Place>)
    ensures |r| == |resolved| && forall i :: 0 <= i < |resolved| ==> r[i] == resolved[i].0
  {
    seq(|resolved|, i requires 0 <= i < |resolved| => resolved[i].0)
  }

  ghost predicate PlacesSorted(places: seq<Place>) {
    forall i, j :: 0 <= i < j < |places| ==> PlaceLe(places[i], places[j])
  }

  /** Sorted, and from the places compared so far. */
  ghost predicate Arranged(places: seq<Place>, done: set<Place>) {
    PlacesSorted(places) && forall p <- places :: p in done
  }

  lemma ArrangedNext(places: seq<Place>, more: seq<Place>, place: Place, done: set<Place>)
    requires Arranged(places, done) && (forall p <- done :: PlaceLe(p, place)) && forall q <- more :: q == place
    ensures Arranged(places + more, done + {place})
  {
    LeTotal(place.1, place.1);
    var all := places + more;
    forall i, j | 0 <= i < j < |all|
      ensures PlaceLe(all[i], all[j])
    {
      if i < |places| { assert places[i] in places; } else { assert more[i - |places|] in more; }
      if j >= |places| { assert more[j - |places|] in more; }
    }
  }

  /** The usages one place contributes. */
  lemma NewsArranged(news: seq<Usage>, us: seq<Usage>, n: nat, place: Place, done: set<Place>)
    requires Arranged(PlacesOf(news), done) && forall p <- done :: PlaceLe(p, place)
    ensures Arranged(PlacesOf(news + Drop(Filter(us, At(place)), n)), done + {place})
  {
    hide Arranged, PlaceLe;
    var more := Drop(Filter(us, At(place)), n);
    BeyondAtPlace(us, place, n);
    assert PlacesOf(news + more) == PlacesOf(news) + PlacesOf(more);
    forall q | q in PlacesOf(more)
      ensures q == place
    {
      var i :| 0 <= i < |more| && PlacesOf(more)[i] == q;
      assert more[i] in more;
    }
    ArrangedNext(PlacesOf(news), PlacesOf(more), place, done);
  }

  lemma ResolvedArranged(resolved: seq<(Place, nat)>, place: Place, n: nat, done: set<Place>)
    requires Arranged(PlacesIn(resolved), done) && forall p <- done :: PlaceLe(p, place)
    ensures Arranged(PlacesIn(resolved), done + {place}) && Arranged(PlacesIn(resolved + [(place, n)]), done + {place})
  {
    hide PlaceLe;
    ArrangedNext(PlacesIn(resolved), [], place, done);
    assert PlacesIn(resolved) + [] == PlacesIn(resolved);
    ArrangedNext(PlacesIn(resolved), [place], place, done);
    assert PlacesIn(resolved + [(place, n)]) == PlacesIn(resolved) + [place];
  }

  // ---------------------------------------------------------------- the loops over surfaces and paths

  /** One place: its usages beyond the allowed number, or how many it fell short. */
  method ComparePlace(us: seq<Usage>, allowed: Counts, groups: map<Place, seq<Usage>>, current: Counts, place: Place,
                      news0: seq<Usage>, resolved0: seq<(Place, nat)>, ghost done: set<Place>)
    returns (news: seq<Usage>, resolved: seq<(Place, nat)>)
    requires Progress(news0, resolved0, us, allowed, done) && Counted(current, us) && place !in done
    requires Arranged(PlacesOf(news0), done) && Arranged(PlacesIn(resolved0), done)
    requires forall p <- done :: PlaceLe(p, place)
    requires forall p: Place :: Filter(us, At(p)) == if p in groups then groups[p] else []
    ensures Progress(news, resolved, us, allowed, done + {place})
    ensures Arranged(PlacesOf(news), done + {place}) && Arranged(PlacesIn(resolved), done + {place})
  {
    hide Progress, Arranged, PlaceLe;
    var allowedCount, currentCount := Lookup(allowed, place), Lookup(current, place);
    ProgressNext(news0, resolved0, us, allowed, done, place);
    NewsArranged(news0, us, allowedCount, place, done);
    ResolvedArranged(resolved0, place, if currentCount < allowedCount then allowedCount - currentCount else 0, done);
    news, resolved := news0, resolved0;
    if currentCount > allowedCount {
      news := news + (if place in groups then groups[place] else [])[allowedCount..];
    } else {
      assert news + [] == news;
      if currentCount < allowedCount {
        resolved := resolved + [(place, allowedCount - currentCount)];
      }
    }
  }

  /** The paths of one surface. */
  method ComparePaths(us: seq<Usage>, allowed: Counts, groups: map<Place, seq<Usage>>, current: Counts, surface: string,
                      paths: seq<string>, news0: seq<Usage>, resolved0: seq<(Place, nat)>, ghost done0: set<Place>)
    returns (news: seq<Usage>, resolved: seq<(Place, nat)>, ghost done: set<Place>)
    requires Progress(news0, resolved0, us, allowed, done0) && Counted(current, us)
    requires Arranged(PlacesOf(news0), done0) && Arranged(PlacesIn(resolved0), done0)
    requires forall p: Place :: Filter(us, At(p)) == if p in groups then groups[p] else []
    requires NoDuplicates(paths) && SortedBy(paths, ByText)
    requires forall p <- done0 :: p.0 != surface && Le(p.0, surface)
    ensures Progress(news, resolved, us, allowed, done)
    ensures Arranged(PlacesOf(news), done) && Arranged(PlacesIn(resolved), done)
    ensures forall p: Place :: p in done <==> p in done0 || (p.0 == surface && p.1 in paths)
  {
    hide Progress, Arranged, At, Filter, Counted;
    news, resolved, done := news0, resolved0, done0;
    var j := 0;
    while j < |paths|
      invariant 0 <= j <= |paths| && Progress(news, resolved, us, allowed, done)
      invariant Arranged(PlacesOf(news), done) && Arranged(PlacesIn(resolved), done)
      invariant forall p: Place :: p in done <==> p in done0 || (p.0 == surface && p.1 in paths[..j])
    {
      var place := (surface, paths[j]);
      assert paths[..j + 1] == paths[..j] + [paths[j]];
      forall p | p in done
        ensures PlaceLe(p, place)
      {
        if p !in done0 {
          var k :| 0 <= k < j && paths[k] == p.1;
          assert KeyLe(ByText(paths[k]), ByText(paths[j]));
        }
      }
      news, resolved := ComparePlace(us, allowed, groups, current, place, news, resolved, done);
      done := done + {place};
      j := j + 1;
    }
    assert paths[..|paths|] == paths;
  }

  function PathsOf(c: Counts, surface: string): set<string> {
    if surface in c then c[surface].Keys else {}
  }

  /** The places of the given surfaces, with their allowed and their current paths. */
  ghost predicate PlacesUpTo(done: set<Place>, surfaces: seq<string>, allowed: Counts, current: Counts) {
    forall p: Place :: p in done <==> p.0 in surfaces && p.1 in PathsOf(allowed, p.0) + PathsOf(current, p.0)
  }

  lemma NothingDone(us: seq<Usage>, allowed: Counts, current: Counts)
    ensures Progress([], [], us, allowed, {}) && PlacesUpTo({}, [], allowed, current)
    ensures Arranged(PlacesOf([]), {}) && Arranged(PlacesIn([]), {})
  {
  }

  lemma EarlierSurfaces(surfaces: seq<string>, i: nat, done: set<Place>, allowed: Counts, current: Counts)
    requires i < |surfaces| && NoDuplicates(surfaces) && SortedBy(surfaces, ByText)
    requires PlacesUpTo(done, surfaces[..i], allowed, current)
    ensures forall p <- done :: p.0 != surfaces[i] && Le(p.0, surfaces[i])
  {
    hide PathsOf;
    forall p | p in done
      ensures p.0 != surfaces[i] && Le(p.0, surfaces[i])
    {
      var k :| 0 <= k < i && surfaces[k] == p.0;
      assert KeyLe(ByText(surfaces[k]), ByText(surfaces[i]));
    }
  }

  lemma PlacesUpToNext(surfaces: seq<string>, i: nat, before: set<Place>, after: set<Place>, paths: seq<string>,
      allowed: Counts, current: Counts)
    requires i < |surfaces| && PlacesUpTo(before, surfaces[..i], allowed, current)
    requires forall x :: x in paths <==> x in PathsOf(allowed, surfaces[i]) + PathsOf(current, surfaces[i])
    requires forall p: Place :: p in after <==> p in before || (p.0 == surfaces[i] && p.1 in paths)
    ensures PlacesUpTo(after, surfaces[..i + 1], allowed, current)
  {
    hide PathsOf;
    assert surfaces[..i + 1] == surfaces[..i] + [surfaces[i]];
  }

  lemma AllDone(news: seq<Usage>, resolved: seq<(Place, nat)>, us: seq<Usage>, allowed: Counts, current: Counts,
      surfaces: seq<string>, done: set<Place>)
    requires Progress(news, resolved, us, allowed, done) && Counted(current, us)
    requires Arranged(PlacesOf(news), done) && Arranged(PlacesIn(resolved), done)
    requires PlacesUpTo(done, surfaces, allowed, current)
    requires forall x :: x in surfaces <==> x in allowed.Keys + current.Keys
    ensures ReportsNew(news, us, allowed) && ReportsResolved(resolved, us, allowed)
    ensures PlacesSorted(PlacesOf(news)) && PlacesSorted(PlacesIn(resolved))
  {
    hide Filter, PlacesSorted;
    forall p: Place | p !in done
      ensures Tally(us, p) == 0 && Lookup(allowed, p) == 0
    {
      assert Lookup(current, p) == Tally(us, p);
    }
  }

  /** The report holds at every place what it should, sorted by surface and path. */
  method CompareCompatToBaseline(us: seq<Usage>, allowed: Counts)
    returns (news: seq<Usage>, resolved: seq<(Place, nat)>)
    ensures ReportsNew(news, us, allowed) && ReportsResolved(resolved, us, allowed)
    ensures PlacesSorted(PlacesOf(news)) && PlacesSorted(PlacesIn(resolved))
  {
    hide *;
    var current := CompatCounts(us);
    var groups := GroupByPlace(us);
    var surfaces := SortedSet(allowed.Keys + current.Keys);
    ghost var done: set<Place> := {};
    news, resolved := [], [];
    var i := 0;
    NothingDone(us, allowed, current);
    while i < |surfaces|
      invariant 0 <= i <= |surfaces| && Progress(news, resolved, us, allowed, done)
      invariant Arranged(PlacesOf(news), done) && Arranged(PlacesIn(resolved), done)
      invariant PlacesUpTo(done, surfaces[..i], allowed, current)
    {
      var paths := SortedSet(PathsOf(allowed, surfaces[i]) + PathsOf(current, surfaces[i]));
      EarlierSurfaces(surfaces, i, done, allowed, current);
      ghost var before := done;
      news, resolved, done := ComparePaths(us, allowed, groups, current, surfaces[i], paths, news, resolved, done);
      PlacesUpToNext(surfaces, i, before, done, paths, allowed, current);
      i := i + 1;
    }
    assert surfaces[..|surfaces|] == surfaces;
    AllDone(news, resolved, us, allowed, current, surfaces, done);
  }
}
