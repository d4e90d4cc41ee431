/** The host tree as the application holds it (`App` in src/app/hostlist.rs):
    the derived sections and rows, and the operations that refresh or reveal. */
module HostTree {
  import opened Wrappers
  import opened Groups
  import opened Sections
  import opened HostList
  import opened HostOrder

  /** The fuzzy matcher, which the tree takes as given: it returns indices into the
      entries it was shown, and everything for the empty query. */
  datatype Matcher = Matcher(search: (seq<Host>, string) -> seq<nat>)
  {
    ghost predicate Lawful() {
      forall hs, q :: LawfulSearch(search, hs, q)
    }
  }

  ghost predicate LawfulSearch(search: (seq<Host>, string) -> seq<nat>, hs: seq<Host>, q: string) {
    && (forall x :: x in search(hs, q) ==> x < |hs|)
    && (q == "" ==> search(hs, q) == UpTo(|hs|))
  }

  function UpTo(n: nat): seq<nat> {
    seq(n, i => i)
  }

  /** Everything the derived tree depends on. */
  datatype Inputs = Inputs(hosts: seq<Host>, groups: seq<Group>, favorites: Option<Group>,
                           tagFilters: seq<string>, query: string, sort: SortMode)
  {
    /** The Favorites group, when there is one, sorts to the top. */
    function TreeGroups(): seq<Group> {
      if favorites.Some? then [favorites.value] + groups else groups
    }

    predicate Filtering() {
      tagFilters != [] || query != ""
    }

    predicate Tagged(idx: nat) {
      idx < |hosts| && forall f :: f in tagFilters ==> f in hosts[idx].tags
    }

    function Candidates(): (r: seq<nat>)
      ensures InRange(hosts, r)
    {
      if tagFilters == [] then UpTo(|hosts|)
      else
        var tagged := Keep(UpTo(|hosts|), Tagged);
        assert forall i :: 0 <= i < |tagged| ==> tagged[i] in tagged;
        tagged
    }
  }

  /** The elements of `s` at the given indices, which a lawful matcher keeps in range. */
  function At<T>(s: seq<T>, indices: seq<nat>): (r: seq<T>)
    ensures forall x :: x in r ==> x in s
  {
    if indices == [] then []
    else (if indices[0] < |s| then [s[indices[0]]] else []) + At(s, indices[1..])
  }

  lemma {:induction false} AtEach<T>(s: seq<T>, indices: seq<nat>)
    requires forall i :: 0 <= i < |indices| ==> indices[i] < |s|
    ensures |At(s, indices)| == |indices| && forall i :: 0 <= i < |indices| ==> At(s, indices)[i] == s[indices[i]]
  {
    if indices != [] {
      AtEach(s, indices[1..]);
    }
  }

  /** The host indices that pass the tag filters and the query, in sort order. */
  function Matches(m: Matcher, inp: Inputs): seq<nat> {
    SortHosts(inp.hosts, Found(m, inp), inp.sort)
  }

  function Found(m: Matcher, inp: Inputs): (r: seq<nat>)
    ensures InRange(inp.hosts, r)
  {
    var candidates := inp.Candidates();
    var found := At(candidates, m.search(At(inp.hosts, candidates), inp.query));
    assert forall i :: 0 <= i < |found| ==> found[i] in found;
    found
  }

  // ---------- Which hosts match ----------

  /** `cand` lists, upwards, exactly the hosts that carry every selected tag. */
  ghost predicate IsCandidateList(inp: Inputs, cand: seq<nat>) {
    Increasing(cand)
    && forall i: nat :: i in cand <==>
         i < |inp.hosts| && forall tag :: tag in inp.tagFilters ==> tag in inp.hosts[i].tags
  }

  /** The entries the matcher is shown. */
  function Entries(hosts: seq<Host>, cand: seq<nat>): (r: seq<Host>)
    requires InRange(hosts, cand)
    ensures |r| == |cand| && forall k :: 0 <= k < |r| ==> r[k] == hosts[cand[k]]
  {
    seq(|cand|, k requires 0 <= k < |cand| => hosts[cand[k]])
  }

  lemma CandidatesAreListed(inp: Inputs)
    ensures IsCandidateList(inp, inp.Candidates())
  {
    if inp.tagFilters != [] {
      var at := KeepPicks(UpTo(|inp.hosts|), inp.Tagged);
      var cand := inp.Candidates();
      forall i: nat ensures i in cand <==> i < |inp.hosts| && inp.Tagged(i) {
        if i < |inp.hosts| {
          assert UpTo(|inp.hosts|)[i] == i;
        }
      }
    } else {
      forall i: nat | i < |inp.hosts| ensures i in inp.Candidates() {
        assert inp.Candidates()[i] == i;
      }
    }
  }

  /** There is one such list. */
  lemma {:induction false} IncreasingAgree(a: seq<nat>, b: seq<nat>)
    requires Increasing(a) && Increasing(b) && forall x: nat :: x in a <==> x in b
    ensures a == b
  {
    BothEmpty(a, b);
    if a != [] {
      var p, q := a[|a| - 1], b[|b| - 1];
      assert p in b && q in a;
      var i :| 0 <= i < |b| && b[i] == p;
      var j :| 0 <= j < |a| && a[j] == q;
      var a', b' := a[..|a| - 1], b[..|b| - 1];
      forall x: nat ensures x in a' <==> x in b' {
        InFront(a, x);
        InFront(b, x);
      }
      IncreasingAgree(a', b');
    }
  }

  lemma BothEmpty(a: seq<nat>, b: seq<nat>)
    requires forall x: nat :: x in a <==> x in b
    ensures a == [] <==> b == []
  {
    if a != [] {
      assert a[0] in b;
    }
    if b != [] {
      assert b[0] in a;
    }
  }

  lemma InFront(a: seq<nat>, x: nat)
    requires Increasing(a) && a != []
    ensures x in a[..|a| - 1] <==> x in a && x != a[|a| - 1]
  {
  }

  /** The listed hosts are the hits of the search over the hosts that carry every
      selected tag, each as often as it is returned, in the order of the sort. */
  lemma MatchesAreHits(m: Matcher, inp: Inputs, cand: seq<nat>)
    requires m.Lawful() && IsCandidateList(inp, cand)
    ensures InRange(inp.hosts, cand)
    ensures var hits := m.search(Entries(inp.hosts, cand), inp.query);
            exists found: seq<nat> ::
              |found| == |hits| && (forall k :: 0 <= k < |hits| ==> hits[k] < |cand| && found[k] == cand[hits[k]])
              && InRange(inp.hosts, found) && Matches(m, inp) == SortHosts(inp.hosts, found, inp.sort)
              && multiset(Matches(m, inp)) == multiset(found)
  {
    CandidatesAreListed(inp);
    IncreasingAgree(cand, inp.Candidates());
    AtEach(inp.hosts, cand);
    assert At(inp.hosts, cand) == Entries(inp.hosts, cand);
    var hits := m.search(Entries(inp.hosts, cand), inp.query);
    assert LawfulSearch(m.search, Entries(inp.hosts, cand), inp.query);
    forall k | 0 <= k < |hits| ensures hits[k] < |cand| {
      assert hits[k] in hits;
    }
    AtEach(cand, hits);
    SortPermutes(inp.hosts, Found(m, inp), inp.sort);
  }

  /** The search returns the host among those that carry every selected tag. */
  ghost predicate Hit(m: Matcher, inp: Inputs, idx: nat) {
    exists cand: seq<nat>, k: nat ::
      IsCandidateList(inp, cand) && InRange(inp.hosts, cand) && k < |cand| && cand[k] == idx
      && k in m.search(Entries(inp.hosts, cand), inp.query)
  }

  lemma MatchesIffHit(m: Matcher, inp: Inputs, idx: nat)
    requires m.Lawful()
    ensures idx in Matches(m, inp) <==> Hit(m, inp, idx)
  {
    var cand := inp.Candidates();
    CandidatesAreListed(inp);
    MatchesAreHits(m, inp, cand);
    var hits := m.search(Entries(inp.hosts, cand), inp.query);
    var found: seq<nat> :| |found| == |hits|
      && (forall k :: 0 <= k < |hits| ==> hits[k] < |cand| && found[k] == cand[hits[k]])
      && InRange(inp.hosts, found) && Matches(m, inp) == SortHosts(inp.hosts, found, inp.sort)
      && multiset(Matches(m, inp)) == multiset(found);
    assert idx in Matches(m, inp) <==> idx in multiset(Matches(m, inp));
    assert idx in found <==> idx in multiset(found);
    if idx in found {
      var i :| 0 <= i < |found| && found[i] == idx;
      assert cand[hits[i]] == idx && hits[i] in hits;
    }
    if Hit(m, inp, idx) {
      var other: seq<nat>, k: nat :| IsCandidateList(inp, other) && InRange(inp.hosts, other) && k < |other|
        && other[k] == idx && k in m.search(Entries(inp.hosts, other), inp.query);
      IncreasingAgree(other, cand);
      var i :| 0 <= i < |hits| && hits[i] == k;
      assert found[i] == idx;
    }
  }

  lemma UnfilteredMatchesAll(m: Matcher, inp: Inputs)
    requires m.Lawful() && !inp.Filtering()
    ensures forall idx :: 0 <= idx < |inp.hosts| ==> idx in Matches(m, inp)
  {
    var cand := inp.Candidates();
    CandidatesAreListed(inp);
    assert LawfulSearch(m.search, Entries(inp.hosts, cand), "");
    forall idx: nat | idx < |inp.hosts| ensures idx in Matches(m, inp) {
      MatchesIffHit(m, inp, idx);
      assert cand[idx] == idx && UpTo(|cand|)[idx] == idx;
    }
  }

  function ListingOf(m: Matcher, inp: Inputs): Listing {
    Listing(inp.hosts, inp.TreeGroups(), Matches(m, inp))
  }

  ghost function KeepFlags(s: seq<Section>): seq<bool> {
    seq(|s|, i => HasHostBelow(s, i))
  }

  /** The sections before the collapse flags are stamped. */
  ghost function Shape(l: Listing, filtering: bool): seq<Section> {
    var all := AllSections(l);
    if filtering then Retain(all, KeepFlags(all), |all|) else all
  }

  function Flat(s: seq<Section>): seq<nat> {
    if s == [] then [] else s[0].hosts + Flat(s[1..])
  }

  ghost predicate Holds(s: seq<Section>, idx: nat) {
    exists j :: 0 <= j < |s| && idx in s[j].hosts
  }

  /** The host indices walk through the sections in order. */
  lemma {:induction false} FlatJoins(a: seq<Section>, b: seq<Section>)
    ensures Flat(a + b) == Flat(a) + Flat(b)
    ensures |a| == 1 ==> Flat(a) == a[0].hosts
  {
    if a == [] {
      assert a + b == b;
    } else {
      assert (a + b)[1..] == a[1..] + b;
      FlatJoins(a[1..], b);
    }
  }

  lemma FlatContents(s: seq<Section>, idx: nat)
    ensures idx in Flat(s) <==> Holds(s, idx)
  {
  }

  // ---------- From rows back to the group forest ----------

  /** Where a section of the shape sits in the unpruned list. */
  lemma ShapeOrigin(l: Listing, filtering: bool, i: nat) returns (o: nat)
    requires i < |Shape(l, filtering)|
    ensures o < |AllSections(l)| && Shape(l, filtering)[i] == AllSections(l)[o]
    ensures filtering ==> KeepFlags(AllSections(l))[o] && Rank(KeepFlags(AllSections(l)), o) == i
    ensures !filtering ==> o == i
  {
    if filtering {
      o := RetainOrigin(AllSections(l), KeepFlags(AllSections(l)), |AllSections(l)|, i);
    } else {
      o := i;
    }
  }

  lemma BucketStandsAlone(l: Listing, i: nat, j: nat)
    requires UniqueIds(l.groups) && i < |AllSections(l)| && j < |AllSections(l)|
    ensures Covers(AllSections(l), i, j) <==> i < |Tree(l)| && j < |Tree(l)| && Covers(Tree(l), i, j)
  {
    var all, n := AllSections(l), |Tree(l)|;
    assert forall k :: 0 <= k < n ==> all[k] == Tree(l)[k];
    assert |all| <= n + 1 && (|all| == n + 1 ==> all[n] == Bucket(l)[0] && all[n].depth == 0);
    if Covers(all, i, j) {
      assert all[j].depth > all[i].depth;
    }
  }

  /** Through flattening and pruning alike, one section covers another exactly
      when its group is a proper ancestor of the other's group. */
  lemma ShapeAncestry(l: Listing, filtering: bool, i: nat, j: nat)
    requires UniqueIds(l.groups) && i < |Shape(l, filtering)| && j < |Shape(l, filtering)|
    ensures var s := Shape(l, filtering);
      Covers(s, i, j) <==> s[i].group.Some? && s[j].group.Some? && Descendant(l.groups, s[i].Key(), s[j].Key())
  {
    var all, s := AllSections(l), Shape(l, filtering);
    var oi := ShapeOrigin(l, filtering, i);
    var oj := ShapeOrigin(l, filtering, j);
    if filtering {
      PruneKeepsAncestry(all, KeepFlags(all), oi, oj);
    }
    assert Covers(s, i, j) <==> Covers(all, oi, oj);
    BucketStandsAlone(l, oi, oj);
    TreeListsReached(l, 0);
    TreeIsPreorder(l);
    assert forall k :: 0 <= k < |Tree(l)| ==> all[k] == Tree(l)[k];
  }

  lemma AncestorReached(l: Listing, x: int, id: int, n: nat)
    requires UniqueIds(l.groups) && Shown(l, id, n) && Descendant(l.groups, x, id)
    ensures Reached(l, x)
    decreases n
  {
    var p := DescendantParent(l.groups, x, id);
    assert Shown(l, p, n - 1);
    if p != x {
      AncestorReached(l, x, p, n - 1);
    }
  }

  /** A section of the shape never stands without its ancestors: each of them has
      a section too, pruned list or not. */
  lemma AncestorsHaveSections(l: Listing, filtering: bool, j: nat, x: int) returns (i: nat)
    requires UniqueIds(l.groups) && j < |Shape(l, filtering)| && Shape(l, filtering)[j].group.Some?
    requires Descendant(l.groups, x, Shape(l, filtering)[j].Key())
    ensures i < |Shape(l, filtering)| && Shape(l, filtering)[i].group.Some? && Shape(l, filtering)[i].Key() == x
  {
    var all, s := AllSections(l), Shape(l, filtering);
    var o := ShapeOrigin(l, filtering, j);
    assert forall k :: 0 <= k < |Tree(l)| ==> all[k] == Tree(l)[k];
    TreeListsReached(l, x);
    AncestorReached(l, x, s[j].Key(), s[j].depth);
    var a :| 0 <= a < |Tree(l)| && Tree(l)[a].group.Some? && Tree(l)[a].Key() == x;
    if filtering {
      TreeIsPreorder(l);
      BucketStandsAlone(l, a, o);
      assert Covers(all, a, o);
      AboveKeptIsKept(all, a, o);
      RetainAt(all, KeepFlags(all), |all|, a);
      i := Rank(KeepFlags(all), a);
    } else {
      i := a;
    }
  }

  /** A header is navigable exactly when no proper ancestor of its group is in the
      collapsed set, whatever filter is in force. */
  lemma HeaderRowIff(l: Listing, filtering: bool, collapsed: set<int>, i: nat)
    requires UniqueIds(l.groups) && i < |Shape(l, filtering)| && Shape(l, filtering)[i].group.Some?
    ensures var s := Marked(Shape(l, filtering), collapsed);
      Header(i) in Nav(s, TreeMode(Shape(l, filtering)), |s|)
      <==> forall x :: Descendant(l.groups, x, s[i].Key()) ==> x !in collapsed
  {
    var shape := Shape(l, filtering);
    var s := Marked(shape, collapsed);
    NavContents(s, TreeMode(shape), |s|);
    assert TreeMode(shape);
    if Open(s, i) {
      forall x | Descendant(l.groups, x, s[i].Key()) ensures x !in collapsed {
        var a := AncestorsHaveSections(l, filtering, i, x);
        ShapeAncestry(l, filtering, a, i);
        MarkedCovers(shape, collapsed, a, i);
      }
    }
    if forall x :: Descendant(l.groups, x, s[i].Key()) ==> x !in collapsed {
      forall a | Covers(s, a, i) ensures !s[a].collapsed {
        MarkedCovers(shape, collapsed, a, i);
        ShapeAncestry(l, filtering, a, i);
      }
    }
  }

  lemma HolderOf(l: Listing, filtering: bool, idx: nat, j: nat)
    requires UniqueIds(l.groups) && j < |Shape(l, filtering)| && idx < |l.hosts|
    requires idx in Shape(l, filtering)[j].hosts
    ensures var s := Shape(l, filtering)[j];
      if s.group.Some? then s.Key() in l.hosts[idx].groupIds && Reached(l, s.Key()) else l.hosts[idx].groupIds == []
    ensures idx in l.filtered
  {
    var o := ShapeOrigin(l, filtering, j);
    TreeListsReached(l, 0);
    assert forall k :: 0 <= k < |Tree(l)| ==> AllSections(l)[k] == Tree(l)[k];
    if Shape(l, filtering)[j].group.Some? {
      assert Shown(l, Shape(l, filtering)[j].Key(), Shape(l, filtering)[j].depth);
    }
  }

  /** Pruning drops no host: a filtered host is in some section exactly when it is
      ungrouped or one of its groups is reached. */
  lemma HeldIff(l: Listing, filtering: bool, idx: nat)
    requires UniqueIds(l.groups) && idx < |l.hosts|
    ensures Holds(Shape(l, filtering), idx) <==>
      idx in l.filtered
      && (l.hosts[idx].groupIds == [] || exists gid :: gid in l.hosts[idx].groupIds && Reached(l, gid))
  {
    if j :| 0 <= j < |Shape(l, filtering)| && idx in Shape(l, filtering)[j].hosts {
      HolderOf(l, filtering, idx, j);
    }
    if idx in l.filtered && l.hosts[idx].groupIds == [] {
      var j := BucketSection(l, filtering, idx);
    }
    if gid :| idx in l.filtered && gid in l.hosts[idx].groupIds && Reached(l, gid) {
      var j := SectionOf(l, filtering, idx, gid);
    }
  }

  /** An ungrouped filtered host stands in the bucket, pruned list or not. */
  lemma BucketSection(l: Listing, filtering: bool, idx: nat) returns (j: nat)
    requires UniqueIds(l.groups) && idx < |l.hosts| && idx in l.filtered && l.hosts[idx].groupIds == []
    ensures j < |Shape(l, filtering)| && idx in Shape(l, filtering)[j].hosts
  {
    var all := AllSections(l);
    j := |Tree(l)|;
    assert idx in all[j].hosts;
    if filtering {
      assert HasHostBelow(all, j);
      RetainAt(all, KeepFlags(all), |all|, j);
      j := Rank(KeepFlags(all), j);
    }
  }

  /** A reached group of a filtered host has a section, pruned list or not, and
      the host stands in it. */
  lemma SectionOf(l: Listing, filtering: bool, idx: nat, gid: int) returns (j: nat)
    requires UniqueIds(l.groups) && idx < |l.hosts| && idx in l.filtered
    requires gid in l.hosts[idx].groupIds && Reached(l, gid)
    ensures j < |Shape(l, filtering)| && idx in Shape(l, filtering)[j].hosts
    ensures Shape(l, filtering)[j].group.Some? && Shape(l, filtering)[j].Key() == gid
  {
    var all := AllSections(l);
    TreeListsReached(l, gid);
    var o :| 0 <= o < |Tree(l)| && Tree(l)[o].group.Some? && Tree(l)[o].Key() == gid;
    assert all[o] == Tree(l)[o] && idx in all[o].hosts;
    j := o;
    if filtering {
      assert HasHostBelow(all, o);
      RetainAt(all, KeepFlags(all), |all|, o);
      j := Rank(KeepFlags(all), o);
    }
  }

  /** `c` is one of the host's groups or an ancestor of one; for a host without
      groups, the ungrouped bucket. */
  ghost predicate OnPath(groups: seq<Group>, gids: seq<int>, c: int) {
    if gids == [] then c == UNGROUPED_KEY
    else exists gid :: gid in gids && AtOrAbove(groups, c, gid)
  }

  ghost predicate AtOrAbove(groups: seq<Group>, c: int, gid: int) {
    c == gid || Descendant(groups, c, gid)
  }

  /** Nothing at or above the group is in the set. */
  ghost predicate Clear(groups: seq<Group>, collapsed: set<int>, gid: int) {
    forall c :: c in collapsed ==> !AtOrAbove(groups, c, gid)
  }

  /** Whatever is filtered or collapsed, a host has a row exactly when it matches
      and stands in an open bucket, or in a reached group with nothing at or above
      it collapsed. */
  lemma HostRowIff(l: Listing, filtering: bool, collapsed: set<int>, idx: nat)
    requires UniqueIds(l.groups) && idx < |l.hosts|
    ensures var shape := Shape(l, filtering); var s := Marked(shape, collapsed);
      HostRow(idx) in Nav(s, TreeMode(shape), |s|) <==>
        idx in l.filtered
        && if l.hosts[idx].groupIds == [] then !TreeMode(shape) || UNGROUPED_KEY !in collapsed
           else exists gid :: gid in l.hosts[idx].groupIds && Reached(l, gid) && Clear(l.groups, collapsed, gid)
  {
    var shape := Shape(l, filtering);
    var s := Marked(shape, collapsed);
    NavContents(s, TreeMode(shape), |s|);
    if Listed(s, |s|, idx) {
      var j :| 0 <= j < |s| && Open(s, j) && !s[j].collapsed && idx in s[j].hosts;
      HolderOf(l, filtering, idx, j);
      if s[j].group.Some? {
        OpenSectionIsClear(l, filtering, collapsed, j);
      }
    }
    if idx in l.filtered && l.hosts[idx].groupIds == [] && (!TreeMode(shape) || UNGROUPED_KEY !in collapsed) {
      HeldIff(l, filtering, idx);
      var j :| 0 <= j < |shape| && idx in shape[j].hosts;
      HolderOf(l, filtering, idx, j);
      forall a | Covers(s, a, j) ensures false {
        MarkedCovers(shape, collapsed, a, j);
        ShapeAncestry(l, filtering, a, j);
      }
      assert Open(s, j) && !s[j].collapsed && idx in s[j].hosts;
    }
    if gid :| idx in l.filtered && gid in l.hosts[idx].groupIds && Reached(l, gid) && Clear(l.groups, collapsed, gid) {
      var j := SectionOf(l, filtering, idx, gid);
      ClearSectionIsOpen(l, filtering, collapsed, j);
      assert Open(s, j) && !s[j].collapsed && idx in s[j].hosts;
    }
  }

  lemma OpenSectionIsClear(l: Listing, filtering: bool, collapsed: set<int>, j: nat)
    requires UniqueIds(l.groups) && j < |Shape(l, filtering)| && Shape(l, filtering)[j].group.Some?
    requires var s := Marked(Shape(l, filtering), collapsed); Open(s, j) && !s[j].collapsed
    ensures Reached(l, Shape(l, filtering)[j].Key()) && Clear(l.groups, collapsed, Shape(l, filtering)[j].Key())
  {
    var shape := Shape(l, filtering);
    assert TreeMode(shape);
    var o := ShapeOrigin(l, filtering, j);
    assert forall k :: 0 <= k < |Tree(l)| ==> AllSections(l)[k] == Tree(l)[k];
    TreeListsReached(l, shape[j].Key());
    assert Shown(l, shape[j].Key(), shape[j].depth);
    forall c | Descendant(l.groups, c, shape[j].Key()) ensures c !in collapsed {
      var a := AncestorsHaveSections(l, filtering, j, c);
      ShapeAncestry(l, filtering, a, j);
      MarkedCovers(shape, collapsed, a, j);
    }
  }

  lemma ClearSectionIsOpen(l: Listing, filtering: bool, collapsed: set<int>, j: nat)
    requires UniqueIds(l.groups) && j < |Shape(l, filtering)| && Shape(l, filtering)[j].group.Some?
    requires Clear(l.groups, collapsed, Shape(l, filtering)[j].Key())
    ensures var s := Marked(Shape(l, filtering), collapsed); Open(s, j) && !s[j].collapsed
  {
    var shape := Shape(l, filtering);
    var s := Marked(shape, collapsed);
    assert AtOrAbove(l.groups, shape[j].Key(), shape[j].Key());
    forall a | Covers(s, a, j) ensures !s[a].collapsed {
      MarkedCovers(shape, collapsed, a, j);
      ShapeAncestry(l, filtering, a, j);
      assert AtOrAbove(l.groups, shape[a].Key(), shape[j].Key());
    }
  }

  /** With every parent chain ending in existing groups none of which is reserved
      above another, a host whose groups exist is always held once unfiltered. */
  lemma {:induction false} PlainChainIsReached(l: Listing, id: int, n: nat)
    requires UniqueIds(l.groups) && ParentsExist(l.groups) && id in Ids(l.groups) && ChainEnds(l.groups, id, n)
    requires forall g :: g in l.groups && g.reserved ==> !exists c :: Child(l.groups, g.id, c)
    requires !l.Hidden(Find(l.groups, id).value)
    ensures exists m: nat :: m <= n && Shown(l, id, m)
    decreases n
  {
    var g := Find(l.groups, id).value;
    if g.parent.Some? {
      var p := g.parent.value;
      assert Child(l.groups, p, id);
      var up := Find(l.groups, p).value;
      assert !up.reserved;
      PlainChainIsReached(l, p, n - 1);
      var m: nat :| m <= n - 1 && Shown(l, p, m);
      assert Shown(l, id, m + 1);
    } else {
      assert Shown(l, id, 0);
    }
  }

  // ---------- The parent chain that reveal_host climbs ----------

  lemma OrdinaryIdsDiffer(inp: Inputs)
    requires UniqueIds(inp.TreeGroups())
    ensures UniqueIds(inp.groups)
  {
    var tree := inp.TreeGroups();
    var k := |tree| - |inp.groups|;
    forall i, j | 0 <= i < j < |inp.groups| ensures inp.groups[i].id != inp.groups[j].id {
      assert tree[i + k] == inp.groups[i] && tree[j + k] == inp.groups[j];
    }
  }

  /** The climb follows the ordinary groups only. It sees all that is at or above a
      group in the tree, except what is above Favorites, where it stops. */
  lemma ClimbStopsAtFavorites(inp: Inputs, c: int, gid: int)
    ensures AtOrAbove(inp.TreeGroups(), c, gid) <==>
      AtOrAbove(inp.groups, c, gid) || PastFavorites(inp, c, gid)
  {
    var tree := inp.TreeGroups();
    if AtOrAbove(tree, c, gid) && c != gid {
      var p :| PathFromTo(tree, p, c, gid);
      PathInOrdinary(inp, p);
    }
    if Descendant(inp.groups, c, gid) {
      OrdinaryInTree(inp, c, gid);
    }
    if PastFavorites(inp, c, gid) && inp.favorites.value.id != gid {
      OrdinaryInTree(inp, inp.favorites.value.id, gid);
      DescendantJoin(tree, c, inp.favorites.value.id, gid);
    }
  }

  /** `gid` is Favorites or below it, and `c` lies above Favorites. */
  ghost predicate PastFavorites(inp: Inputs, c: int, gid: int) {
    inp.favorites.Some? && AtOrAbove(inp.groups, inp.favorites.value.id, gid)
    && Descendant(inp.TreeGroups(), c, inp.favorites.value.id)
  }

  lemma OrdinaryInTree(inp: Inputs, c: int, gid: int)
    requires Descendant(inp.groups, c, gid)
    ensures Descendant(inp.TreeGroups(), c, gid)
  {
    var p :| PathFromTo(inp.groups, p, c, gid);
    forall i | 0 <= i < |p| - 1 ensures Child(inp.TreeGroups(), p[i], p[i + 1]) {
      assert Child(inp.groups, p[i], p[i + 1]);
    }
    assert PathFromTo(inp.TreeGroups(), p, c, gid);
  }

  lemma {:induction false} PathInOrdinary(inp: Inputs, p: seq<int>)
    requires |p| >= 2 && Path(inp.TreeGroups(), p)
    ensures AtOrAbove(inp.groups, p[0], p[|p| - 1]) || PastFavorites(inp, p[0], p[|p| - 1])
    decreases |p|
  {
    var tree := inp.TreeGroups();
    var m, x := p[|p| - 2], p[|p| - 1];
    assert Child(tree, m, x);
    var g :| g in tree && g.id == x && g.parent == Some(m);
    if g in inp.groups {
      assert Child(inp.groups, m, x);
      ChildIsDescendant(inp.groups, m, x);
      if |p| > 2 {
        var init := p[..|p| - 1];
        PathInOrdinary(inp, init);
        if Descendant(inp.groups, p[0], m) {
          DescendantStep(inp.groups, p[0], m, x);
        }
        if inp.favorites.Some? && Descendant(inp.groups, inp.favorites.value.id, m) {
          DescendantStep(inp.groups, inp.favorites.value.id, m, x);
        }
      }
    } else {
      assert PathFromTo(tree, p, p[0], x);
    }
  }

  /** Being at or above `id` but not `id` itself means being at or above its parent. */
  lemma AboveMeansAboveParent(groups: seq<Group>, c: int, id: int)
    requires UniqueIds(groups)
    ensures Descendant(groups, c, id) <==>
      ParentOf(groups, id).Some? && AtOrAbove(groups, c, ParentOf(groups, id).value)
  {
    if Descendant(groups, c, id) {
      var p := DescendantParent(groups, c, id);
    }
    if ParentOf(groups, id).Some? && AtOrAbove(groups, c, ParentOf(groups, id).value) {
      ParentIsChildLink(groups, id);
      if c == ParentOf(groups, id).value {
        ChildIsDescendant(groups, c, id);
      } else {
        DescendantStep(groups, c, ParentOf(groups, id).value, id);
      }
    }
  }

  lemma EndedHasNoLoop(groups: seq<Group>, x: int, n: nat)
    requires UniqueIds(groups) && ChainEnds(groups, x, n)
    ensures !Descendant(groups, x, x)
  {
    if Descendant(groups, x, x) {
      EndedChainHasNoCycle(groups, x, x, n);
    }
  }

  /** The climb from each of these groups ends, which a cycle on the way up would
      prevent; so it does on every forest. */
  ghost predicate ClimbEnds(groups: seq<Group>, gids: seq<int>) {
    forall gid :: gid in gids ==> exists n :: ChainEnds(groups, gid, n)
  }

  lemma ForestClimbEnds(groups: seq<Group>, gids: seq<int>)
    requires UniqueIds(groups) && Forest(groups)
    ensures ClimbEnds(groups, gids)
  {
    forall gid | gid in gids ensures exists n :: ChainEnds(groups, gid, n) {
      var n := SomeChainEnds(groups, gid);
    }
  }

  lemma CycleNeverEnds(groups: seq<Group>, gids: seq<int>, x: int, gid: int)
    requires UniqueIds(groups) && gid in gids && AtOrAbove(groups, x, gid) && Descendant(groups, x, x)
    ensures !ClimbEnds(groups, gids)
  {
    if ClimbEnds(groups, gids) {
      var n :| ChainEnds(groups, gid, n);
      EndedChainHasNoCycle(groups, x, gid, n);
    }
  }

  ghost function View(m: Matcher, inp: Inputs): seq<Section> {
    Shape(ListingOf(m, inp), inp.Filtering())
  }

  /** Match, build the sections, and prune them while a filter is active. */
  method BuildView(m: Matcher, inp: Inputs) returns (sections: seq<Section>)
    ensures sections == View(m, inp)
  {
    sections := BuildGroupSections(ListingOf(m, inp));
    if inp.Filtering() {
      var keep := SubtreeHasHosts(sections);
      assert keep == KeepFlags(sections);
      sections := Retain(sections, keep, |sections|);
    }
  }

  lemma ListedIsHeld(m: Matcher, inp: Inputs, collapsed: set<int>, idx: nat)
    ensures idx in Flat(Marked(View(m, inp), collapsed)) <==> Holds(View(m, inp), idx)
  {
    var s := Marked(View(m, inp), collapsed);
    FlatContents(s, idx);
    assert forall j :: 0 <= j < |s| ==> s[j].hosts == View(m, inp)[j].hosts;
  }

  lemma ListedMatches(m: Matcher, inp: Inputs, collapsed: set<int>, idx: nat)
    requires UniqueIds(inp.TreeGroups()) && idx < |inp.hosts| && idx in Flat(Marked(View(m, inp), collapsed))
    ensures idx in Matches(m, inp)
  {
    ListedIsHeld(m, inp, collapsed, idx);
    HeldIff(ListingOf(m, inp), inp.Filtering(), idx);
  }

  /** The host has no group, or one of its groups is reached from the top level. */
  ghost predicate Reachable(m: Matcher, inp: Inputs, idx: nat)
    requires idx < |inp.hosts|
  {
    inp.hosts[idx].groupIds == [] || exists gid :: gid in inp.hosts[idx].groupIds && Reached(ListingOf(m, inp), gid)
  }

  /** On a tree whose parents exist and whose reserved groups have no children, an
      unfiltered host whose group ids exist is always reachable. */
  lemma PlainTreesReachEveryHost(m: Matcher, inp: Inputs, idx: nat)
    requires m.Lawful() && !inp.Filtering() && idx < |inp.hosts|
    requires UniqueIds(inp.TreeGroups()) && ParentsExist(inp.TreeGroups()) && Forest(inp.TreeGroups())
    requires forall gid :: gid in inp.hosts[idx].groupIds ==> gid in Ids(inp.TreeGroups())
    requires forall g :: g in inp.TreeGroups() && g.reserved ==> !exists c :: Child(inp.TreeGroups(), g.id, c)
    ensures Reachable(m, inp, idx)
  {
    if inp.hosts[idx].groupIds != [] {
      var l := ListingOf(m, inp);
      var gid := inp.hosts[idx].groupIds[0];
      UnfilteredMatchesAll(m, inp);
      assert idx in l.Members(gid);
      var n := SomeChainEnds(l.groups, gid);
      PlainChainIsReached(l, gid, n);
      assert gid in inp.hosts[idx].groupIds && Reached(l, gid);
    }
  }

  const WEB := SortKeys("web", None, false, "", 0)

  /** Without the last condition the claim fails: below a reserved group that has
      no member of its own, a host stays out of reach even with every filter off. */
  lemma EmptyReservedParentHidesHost(m: Matcher)
    requires m.Lawful()
    ensures var inp := Inputs([Host("web", [], [2], WEB)], [Group(2, "inner", Some(1), false)],
                              Some(Group(1, "Favorites", None, true)), [], "", Label);
      && UniqueIds(inp.TreeGroups()) && ParentsExist(inp.TreeGroups()) && Acyclic(inp.TreeGroups())
      && !Reachable(m, inp, 0)
  {
    var inp := Inputs([Host("web", [], [2], WEB)], [Group(2, "inner", Some(1), false)],
                      Some(Group(1, "Favorites", None, true)), [], "", Label);
    var tree := inp.TreeGroups();
    var l := ListingOf(m, inp);
    assert tree[0] == inp.favorites.value && tree[1] == inp.groups[0];
    FindUnique(tree, tree[0]);
    FindUnique(tree, tree[1]);
    forall n: nat ensures !Shown(l, 2, n) {
      KeepNone(l.filtered, (k: nat) => l.In(k, 1));
      assert l.Hidden(tree[0]);
      assert n > 0 ==> !Shown(l, 1, n - 1);
    }
    assert ChainEnds(tree, 1, 0) && ChainEnds(tree, 2, 1);
    AcyclicIffForest(tree);
  }

  // ---------- When a host can be revealed ----------

  /** What the climb from the host's groups leaves collapsed. */
  ghost function LeftCollapsed(inp: Inputs, collapsed: set<int>, idx: nat): set<int>
    requires idx < |inp.hosts|
  {
    set c | c in collapsed && !OnPath(inp.groups, inp.hosts[idx].groupIds, c)
  }

  /** The host has no group, or a group reached from the top level with nothing at
      or above it left collapsed. */
  ghost predicate Revealable(m: Matcher, inp: Inputs, collapsed: set<int>, idx: nat)
    requires idx < |inp.hosts|
  {
    var host := inp.hosts[idx];
    host.groupIds == []
    || exists gid :: gid in host.groupIds && Reached(ListingOf(m, inp), gid)
                     && Clear(inp.TreeGroups(), LeftCollapsed(inp, collapsed, idx), gid)
  }

  /** After the climb a matching host has a row exactly when it is revealable. */
  lemma RevealOutcome(m: Matcher, inp: Inputs, collapsed: set<int>, idx: nat)
    requires UniqueIds(inp.TreeGroups()) && idx < |inp.hosts| && idx in Matches(m, inp)
    ensures var view := View(m, inp); var s := Marked(view, LeftCollapsed(inp, collapsed, idx));
            HostRow(idx) in Nav(s, TreeMode(view), |view|) <==> Revealable(m, inp, collapsed, idx)
  {
    HostRowIff(ListingOf(m, inp), inp.Filtering(), LeftCollapsed(inp, collapsed, idx), idx);
  }

  /** Above Favorites lies a group that stays collapsed, and the host's group is
      Favorites or below it. */
  ghost predicate CutOff(inp: Inputs, collapsed: set<int>, idx: nat, gid: int)
    requires idx < |inp.hosts|
  {
    exists c :: c in LeftCollapsed(inp, collapsed, idx) && PastFavorites(inp, c, gid)
  }

  /** The only thing that can stay in the way is a collapsed group above Favorites:
      the climb never gets past Favorites. */
  lemma RevealableIff(m: Matcher, inp: Inputs, collapsed: set<int>, idx: nat)
    requires idx < |inp.hosts|
    ensures Revealable(m, inp, collapsed, idx) <==>
      inp.hosts[idx].groupIds == []
      || exists gid :: gid in inp.hosts[idx].groupIds && Reached(ListingOf(m, inp), gid)
          && !CutOff(inp, collapsed, idx, gid)
  {
    var left := LeftCollapsed(inp, collapsed, idx);
    forall gid | gid in inp.hosts[idx].groupIds
      ensures Clear(inp.TreeGroups(), left, gid) <==> !CutOff(inp, collapsed, idx, gid)
    {
      forall c
        ensures AtOrAbove(inp.TreeGroups(), c, gid) <==> AtOrAbove(inp.groups, c, gid) || PastFavorites(inp, c, gid)
      {
        ClimbStopsAtFavorites(inp, c, gid);
      }
    }
  }

  /** With Favorites at the top level, or nothing collapsed above it, every
      reachable host is revealable. */
  lemma TopFavoritesCutNothing(m: Matcher, inp: Inputs, collapsed: set<int>, idx: nat)
    requires UniqueIds(inp.TreeGroups()) && idx < |inp.hosts|
    requires inp.favorites.Some? ==>
      inp.favorites.value.parent.None?
      || forall c :: c in collapsed ==> !Descendant(inp.TreeGroups(), c, inp.favorites.value.id)
    ensures Revealable(m, inp, collapsed, idx) <==> Reachable(m, inp, idx)
  {
    RevealableIff(m, inp, collapsed, idx);
    if inp.favorites.Some? && inp.favorites.value.parent.None? {
      var tree, f := inp.TreeGroups(), inp.favorites.value;
      assert tree[0] == f;
      FindUnique(tree, f);
      forall c | Descendant(tree, c, f.id) ensures false {
        var up := DescendantParent(tree, c, f.id);
      }
    }
  }

  /** A host that is listed has no group or a reached one. */
  lemma ListedIsReachable(m: Matcher, inp: Inputs, idx: nat)
    requires UniqueIds(inp.TreeGroups()) && idx < |inp.hosts| && Holds(View(m, inp), idx)
    ensures Reachable(m, inp, idx)
  {
    HeldIff(ListingOf(m, inp), inp.Filtering(), idx);
  }

  /** Favorites put below Work, with one host of its own. */
  const BELOW_WORK := Inputs([Host("web", [], [1], WEB)], [Group(2, "Work", None, false)],
                             Some(Group(1, "Favorites", Some(2), true)), [], "", Label)

  lemma BelowWorkIsWellFormed()
    ensures var tree := BELOW_WORK.TreeGroups();
            UniqueIds(tree) && ParentsExist(tree) && Acyclic(tree) && Child(tree, 2, 1)
    ensures ClimbEnds(BELOW_WORK.groups, BELOW_WORK.hosts[0].groupIds)
  {
    var tree := BELOW_WORK.TreeGroups();
    assert tree[0] == BELOW_WORK.favorites.value && tree[1] == BELOW_WORK.groups[0];
    FindUnique(tree, tree[0]);
    FindUnique(tree, tree[1]);
    assert ChainEnds(tree, 2, 0) && ChainEnds(tree, 1, 1) && ChainEnds(BELOW_WORK.groups, 1, 0);
    AcyclicIffForest(tree);
  }

  lemma BelowWorkIsReachable(m: Matcher)
    requires m.Lawful()
    ensures Reachable(m, BELOW_WORK, 0)
  {
    var tree, l := BELOW_WORK.TreeGroups(), ListingOf(m, BELOW_WORK);
    assert tree[0] == BELOW_WORK.favorites.value && tree[1] == BELOW_WORK.groups[0];
    FindUnique(tree, tree[0]);
    FindUnique(tree, tree[1]);
    UnfilteredMatchesAll(m, BELOW_WORK);
    assert 0 in l.Members(1);
    assert Shown(l, 2, 0) && Shown(l, 1, 1);
    assert Reached(l, 1) && 1 in BELOW_WORK.hosts[0].groupIds;
  }

  /** Otherwise it fails: Favorites put below a collapsed group stays shut, though
      its host is reachable. */
  lemma FavoritesBelowCollapsedHidesHost(m: Matcher)
    requires m.Lawful()
    ensures var tree := BELOW_WORK.TreeGroups(); UniqueIds(tree) && ParentsExist(tree) && Acyclic(tree)
    ensures ClimbEnds(BELOW_WORK.groups, BELOW_WORK.hosts[0].groupIds) && Reachable(m, BELOW_WORK, 0)
    ensures !Revealable(m, BELOW_WORK, {2}, 0)
  {
    BelowWorkIsWellFormed();
    BelowWorkIsReachable(m);
    ChildIsDescendant(BELOW_WORK.TreeGroups(), 2, 1);
    assert ParentOf(BELOW_WORK.groups, 1) == None;
    if AtOrAbove(BELOW_WORK.groups, 2, 1) {
      OrdinaryIdsDiffer(BELOW_WORK);
      var up := DescendantParent(BELOW_WORK.groups, 2, 1);
    }
    assert 2 in LeftCollapsed(BELOW_WORK, {2}, 0) && AtOrAbove(BELOW_WORK.TreeGroups(), 2, 1);
  }

  // ---------- The search box and the order ----------

  /** A host the search does not return has no row, whatever is open. */
  lemma NoRowWithoutHit(m: Matcher, inp: Inputs, collapsed: set<int>, idx: nat)
    requires m.Lawful() && UniqueIds(inp.TreeGroups()) && idx < |inp.hosts|
    ensures var s := Marked(View(m, inp), collapsed);
            HostRow(idx) in Nav(s, TreeMode(View(m, inp)), |s|) ==> Hit(m, inp, idx)
  {
    HostRowIff(ListingOf(m, inp), inp.Filtering(), collapsed, idx);
    MatchesIffHit(m, inp, idx);
  }

  /** Pruning and folding leave the hosts of every section in sorted order. */
  lemma RowsKeepSortOrder(m: Matcher, inp: Inputs, collapsed: set<int>, i: nat) returns (at: seq<nat>)
    requires UniqueIds(inp.TreeGroups()) && i < |View(m, inp)|
    ensures Picks(SortHosts(inp.hosts, Found(m, inp), inp.sort), Marked(View(m, inp), collapsed)[i].hosts, at)
    ensures forall q: nat :: q < |Matches(m, inp)| ==>
      (q in at <==> Belongs(inp.hosts, View(m, inp)[i], Matches(m, inp)[q]))
  {
    var l := ListingOf(m, inp);
    var o := ShapeOrigin(l, inp.Filtering(), i);
    at := SectionKeepsOrder(l, o);
  }

  // ---------- Folding one section ----------

  /** No two sections share a collapse key, as long as no group has the key of the
      ungrouped bucket. */
  lemma ShapeKeysDiffer(l: Listing, filtering: bool, i: nat, j: nat)
    requires UniqueIds(l.groups) && UNGROUPED_KEY !in Ids(l.groups)
    requires i < |Shape(l, filtering)| && j < |Shape(l, filtering)| && i != j
    ensures Shape(l, filtering)[i].Key() != Shape(l, filtering)[j].Key()
  {
    var oi := ShapeOrigin(l, filtering, i);
    var oj := ShapeOrigin(l, filtering, j);
    var n := |Tree(l)|;
    assert forall k :: 0 <= k < n ==> AllSections(l)[k] == Tree(l)[k];
    assert |AllSections(l)| <= n + 1 && (|AllSections(l)| == n + 1 ==> AllSections(l)[n] == Bucket(l)[0]);
    SubtreeShown(l, None, 0, {}, 0);
    if oi < oj < n {
      TreeIdsDiffer(l, oi, oj);
    } else if oj < oi < n {
      TreeIdsDiffer(l, oj, oi);
    }
  }

  /** The only header row with that key, if any, is that of section `si`. */
  ghost predicate HeadersAre(s: seq<Section>, nav: seq<NavRow>, si: nat, key: int) {
    forall i: nat :: Header(i) in nav ==> i < |s| && (s[i].Key() == key <==> i == si)
  }

  lemma HeadersByKey(l: Listing, filtering: bool, collapsed: set<int>, si: nat)
    requires UniqueIds(l.groups) && UNGROUPED_KEY !in Ids(l.groups) && si < |Shape(l, filtering)|
    ensures var s := Marked(Shape(l, filtering), collapsed);
            HeadersAre(s, Nav(s, TreeMode(Shape(l, filtering)), |s|), si, Shape(l, filtering)[si].Key())
  {
    var s := Marked(Shape(l, filtering), collapsed);
    NavContents(s, TreeMode(Shape(l, filtering)), |s|);
    forall i: nat | i < |s| && i != si ensures s[i].Key() != s[si].Key() {
      ShapeKeysDiffer(l, filtering, i, si);
    }
  }

  function Toggled(collapsed: set<int>, key: int): set<int> {
    if key in collapsed then collapsed - {key} else collapsed + {key}
  }

  /** Folding or unfolding a section leaves its own header where it was. */
  lemma ToggleKeepsHeader(l: Listing, filtering: bool, collapsed: set<int>, si: nat)
    requires UniqueIds(l.groups) && UNGROUPED_KEY !in Ids(l.groups) && si < |Shape(l, filtering)|
    ensures var s := Shape(l, filtering);
            var before, after := Marked(s, collapsed), Marked(s, Toggled(collapsed, s[si].Key()));
            Header(si) in Nav(before, TreeMode(s), |before|) <==> Header(si) in Nav(after, TreeMode(s), |after|)
  {
    var s := Shape(l, filtering);
    var before, after := Marked(s, collapsed), Marked(s, Toggled(collapsed, s[si].Key()));
    NavContents(before, TreeMode(s), |before|);
    NavContents(after, TreeMode(s), |after|);
    forall a: int ensures Covers(before, a, si) <==> Covers(after, a, si) {
      MarkedCovers(s, collapsed, a, si);
      MarkedCovers(s, Toggled(collapsed, s[si].Key()), a, si);
    }
    forall a | Covers(before, a, si) ensures before[a].collapsed == after[a].collapsed {
      ShapeKeysDiffer(l, filtering, a, si);
    }
  }

  function Unfiltered(inp: Inputs): Inputs {
    inp.(tagFilters := [], query := "")
  }

  /** The slice of the application that owns the host tree. */
  class App {
    const matcher: Matcher
    var hosts: seq<Host>
    var groups: seq<Group>
    var favorites: Option<Group>
    var tagFilters: seq<string>
    var searchQuery: string
    var sortMode: SortMode
    var collapsedGroups: set<int>
    var groupSections: seq<Section>
    var filteredIndices: seq<nat>
    var navRows: seq<NavRow>
    var selected: nat

    constructor (matcher: Matcher, hosts: seq<Host>, groups: seq<Group>, favorites: Option<Group>, collapsed: set<int>)
      ensures this.matcher == matcher && this.hosts == hosts && this.groups == groups && this.favorites == favorites
      ensures collapsedGroups == collapsed && tagFilters == [] && searchQuery == "" && Current()
    {
      this.matcher, this.hosts, this.groups, this.favorites := matcher, hosts, groups, favorites;
      tagFilters, searchQuery, sortMode, collapsedGroups := [], "", Label, collapsed;
      groupSections, filteredIndices, navRows, selected := [], [], [], 0;
      new;
      RebuildFilter();
    }

    function In(): Inputs
      reads this
    {
      Inputs(hosts, groups, favorites, tagFilters, searchQuery, sortMode)
    }

    /** The derived fields match the inputs they were built from. */
    ghost predicate Current()
      reads this
    {
      && groupSections == Marked(View(matcher, In()), collapsedGroups)
      && filteredIndices == Flat(groupSections)
      && navRows == Nav(groupSections, TreeMode(View(matcher, In())), |groupSections|)
    }

    method RebuildFilter()
      modifies this`groupSections, this`filteredIndices, this`navRows, this`selected
      ensures Current()
      ensures selected ==
        if navRows == [] then 0 else if old(selected) >= |navRows| then |navRows| - 1 else old(selected)
    {
      var inp := In();
      var sections := BuildView(matcher, inp);
      groupSections, navRows := LayOutRows(sections, collapsedGroups);
      filteredIndices := Flat(groupSections);
      ClampSelected();
      assert In() == inp;
      assert groupSections == Marked(View(matcher, In()), collapsedGroups);
    }

    /** So afterwards no host has a row that the search does not return. */
    lemma CurrentShowsHits(idx: nat)
      requires Current() && matcher.Lawful() && UniqueIds(In().TreeGroups()) && idx < |hosts|
      ensures HostRow(idx) in navRows ==> Hit(matcher, In(), idx)
    {
      NoRowWithoutHit(matcher, In(), collapsedGroups, idx);
    }

    method ClampSelected()
      modifies this`selected
      ensures selected ==
        if navRows == [] then 0 else if old(selected) >= |navRows| then |navRows| - 1 else old(selected)
    {
      if navRows == [] {
        selected := 0;
      } else if selected >= |navRows| {
        selected := |navRows| - 1;
      }
    }

    /** Expand one group and its ancestors, climbing the parent pointers of the
        ordinary groups. */
    method ExpandChain(gid: int) returns (changed: bool)
      requires UniqueIds(groups) && ClimbEnds(groups, [gid])
      modifies this`collapsedGroups
      ensures forall c :: c in collapsedGroups <==> c in old(collapsedGroups) && !AtOrAbove(groups, c, gid)
      ensures collapsedGroups <= old(collapsedGroups)
      ensures changed <==> collapsedGroups != old(collapsedGroups)
    {
      assert gid in [gid];
      ghost var n :| ChainEnds(groups, gid, n);
      changed := false;
      var group := Some(gid);
      while group.Some?
        invariant collapsedGroups <= old(collapsedGroups)
        invariant group.Some? ==> ChainEnds(groups, group.value, n)
        invariant forall c :: group.Some? && AtOrAbove(groups, c, group.value) ==> AtOrAbove(groups, c, gid)
        invariant forall c :: c in collapsedGroups <==>
          c in old(collapsedGroups)
          && (!AtOrAbove(groups, c, gid) || (group.Some? && AtOrAbove(groups, c, group.value)))
        invariant changed <==> collapsedGroups != old(collapsedGroups)
        decreases group.Some?, n
      {
        var id := group.value;
        EndedHasNoLoop(groups, id, n);
        forall c ensures Descendant(groups, c, id) <==>
          ParentOf(groups, id).Some? && AtOrAbove(groups, c, ParentOf(groups, id).value)
        {
          AboveMeansAboveParent(groups, c, id);
        }
        if id in collapsedGroups {
          collapsedGroups := collapsedGroups - {id};
          changed := true;
        }
        group := ParentOf(groups, id);
        n := if group.Some? then n - 1 else n;
      }
    }

    /** Expand every group of the host and every ancestor the climb finds, or the
        ungrouped bucket for a host without groups, and nothing else. */
    method ExpandPath(idx: nat) returns (changed: bool)
      requires idx < |hosts| && UniqueIds(groups) && ClimbEnds(groups, hosts[idx].groupIds)
      modifies this`collapsedGroups
      ensures collapsedGroups == LeftCollapsed(In(), old(collapsedGroups), idx)
      ensures changed <==> collapsedGroups != old(collapsedGroups)
    {
      var gids := hosts[idx].groupIds;
      changed := false;
      if gids == [] {
        changed := UNGROUPED_KEY in collapsedGroups;
        collapsedGroups := collapsedGroups - {UNGROUPED_KEY};
      } else {
        for k := 0 to |gids|
          invariant collapsedGroups <= old(collapsedGroups)
          invariant forall c :: c in collapsedGroups <==>
            c in old(collapsedGroups) && forall i :: 0 <= i < k ==> !AtOrAbove(groups, c, gids[i])
          invariant changed <==> collapsedGroups != old(collapsedGroups)
        {
          assert gids[k] in gids;
          var expanded := ExpandChain(gids[k]);
          changed := changed || expanded;
        }
        forall c ensures OnPath(groups, gids, c) <==> exists i :: 0 <= i < |gids| && AtOrAbove(groups, c, gids[i]) {
        }
      }
    }

    /** A filter that hides the host is dropped rather than landing elsewhere. */
    method DropHidingFilters(idx: nat)
      requires matcher.Lawful() && Current() && idx < |hosts| && UniqueIds(In().TreeGroups())
      modifies this`tagFilters, this`searchQuery
      modifies this`groupSections, this`filteredIndices, this`navRows, this`selected
      ensures Current() && idx in Matches(matcher, In())
      ensures In() == if old(idx in filteredIndices) then old(In()) else Unfiltered(old(In()))
    {
      if idx !in filteredIndices {
        ClearFilters();
        UnfilteredMatchesAll(matcher, In());
      } else {
        ListedMatches(matcher, In(), collapsedGroups, idx);
      }
    }

    method ClearFilters()
      modifies this`tagFilters, this`searchQuery
      modifies this`groupSections, this`filteredIndices, this`navRows, this`selected
      ensures Current() && In() == Unfiltered(old(In()))
    {
      tagFilters, searchQuery := [], "";
      RebuildFilter();
    }

    method ExpandAndRefresh(idx: nat)
      requires Current() && idx < |hosts| && UniqueIds(groups) && ClimbEnds(groups, hosts[idx].groupIds)
      modifies this`collapsedGroups, this`groupSections, this`filteredIndices, this`navRows, this`selected
      ensures Current() && collapsedGroups == LeftCollapsed(In(), old(collapsedGroups), idx)
    {
      var changed := ExpandPath(idx);
      if changed {
        RebuildFilter();
      }
    }

    /** Point the selection at the first row of the host, if it has one. */
    method SelectHost(idx: nat) returns (found: bool)
      modifies this`selected
      ensures found <==> HostRow(idx) in navRows
      ensures found ==> selected < |navRows| && navRows[selected] == HostRow(idx)
      ensures found ==> forall k :: 0 <= k < selected ==> navRows[k] != HostRow(idx)
    {
      for pos := 0 to |navRows|
        invariant forall k :: 0 <= k < pos ==> navRows[k] != HostRow(idx)
      {
        if navRows[pos] == HostRow(idx) {
          selected := pos;
          return true;
        }
      }
      return false;
    }

    /** Bring the host at `idx` into view: drop the filters if they hide it, expand
        its groups and their ancestors, and select its row. The climb must end, as it
        does unless it runs into a parent cycle. This succeeds exactly when the host
        has no group, or a group reached from the top level with nothing at or above
        it left collapsed; nothing off the climb is expanded. */
    method RevealHost(idx: nat) returns (revealed: bool)
      requires matcher.Lawful() && Current() && UniqueIds(In().TreeGroups())
      requires idx < |hosts| ==> ClimbEnds(groups, hosts[idx].groupIds)
      modifies this`tagFilters, this`searchQuery, this`collapsedGroups
      modifies this`groupSections, this`filteredIndices, this`navRows, this`selected
      ensures Current()
      ensures idx >= |hosts| ==> !revealed && In() == old(In()) && unchanged(`collapsedGroups) && unchanged(`selected)
      ensures idx < |hosts| ==> (revealed <==> Revealable(matcher, In(), old(collapsedGroups), idx))
      ensures revealed ==> selected < |navRows| && navRows[selected] == HostRow(idx)
      ensures idx < |hosts| ==> collapsedGroups == LeftCollapsed(In(), old(collapsedGroups), idx)
      ensures idx < |hosts| ==> In() == if old(idx in filteredIndices) then old(In()) else Unfiltered(old(In()))
    {
      if idx >= |hosts| {
        return false;
      }
      DropHidingFilters(idx);
      revealed := ExpandAndSelect(idx);
    }

    /** The second half of `reveal_host`, once no filter hides the host. */
    method ExpandAndSelect(idx: nat) returns (revealed: bool)
      requires Current() && UniqueIds(In().TreeGroups()) && idx < |hosts| && idx in Matches(matcher, In())
      requires ClimbEnds(groups, hosts[idx].groupIds)
      modifies this`collapsedGroups, this`groupSections, this`filteredIndices, this`navRows, this`selected
      ensures Current()
      ensures revealed <==> Revealable(matcher, In(), old(collapsedGroups), idx)
      ensures revealed ==> selected < |navRows| && navRows[selected] == HostRow(idx)
      ensures collapsedGroups == LeftCollapsed(In(), old(collapsedGroups), idx)
    {
      OrdinaryIdsDiffer(In());
      RevealOutcome(matcher, In(), collapsedGroups, idx);
      ExpandAndRefresh(idx);
      revealed := SelectHost(idx);
    }

    /** Fold or unfold one section: exactly its key changes sides, and a selection
        on its visible header stays there. */
    method ToggleGroupBySection(si: nat)
      requires Current() && UniqueIds(In().TreeGroups()) && UNGROUPED_KEY !in Ids(In().TreeGroups())
      modifies this`collapsedGroups, this`groupSections, this`filteredIndices, this`navRows, this`selected
      ensures Current()
      ensures si >= |old(groupSections)| ==> unchanged(this)
      ensures si < |old(groupSections)| ==>
          collapsedGroups == Toggled(old(collapsedGroups), old(groupSections)[si].Key())
      ensures si < |old(groupSections)| && Header(si) in old(navRows) ==>
                selected < |navRows| && navRows[selected] == Header(si)
                && si < |groupSections| && groupSections[si].Key() == old(groupSections)[si].Key()
    {
      if si >= |groupSections| {
        return;
      }
      var key := groupSections[si].Key();
      ghost var inp := In();
      ToggleKeepsHeader(ListingOf(matcher, inp), inp.Filtering(), collapsedGroups, si);
      HeadersByKey(ListingOf(matcher, inp), inp.Filtering(), Toggled(collapsedGroups, key), si);
      Fold(key);
      SelectHeader(si, key);
    }

    method Fold(key: int)
      modifies this`collapsedGroups, this`groupSections, this`filteredIndices, this`navRows, this`selected
      ensures Current() && In() == old(In()) && collapsedGroups == Toggled(old(collapsedGroups), key)
    {
      if key in collapsedGroups {
        collapsedGroups := collapsedGroups - {key};
      } else {
        collapsedGroups := collapsedGroups + {key};
      }
      RebuildFilter();
    }

    /** Point the selection at the first header with that key, if there is one. */
    method SelectHeader(ghost si: nat, key: int)
      requires HeadersAre(groupSections, navRows, si, key)
      modifies this`selected
      ensures Header(si) in navRows ==> selected < |navRows| && navRows[selected] == Header(si)
    {
      for pos := 0 to |navRows|
        invariant forall k :: 0 <= k < pos ==> navRows[k] != Header(si)
      {
        if navRows[pos].Header? {
          assert Header(navRows[pos].section) in navRows;
          if groupSections[navRows[pos].section].Key() == key {
            selected := pos;
            return;
          }
        }
      }
    }
  }
}
