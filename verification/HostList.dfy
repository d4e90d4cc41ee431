/** The navigable host tree (src/app/hostlist.rs): filtering, pruning, the single
    pass that lays out the rows, and bringing a chosen host into view. */
module HostList {
  import opened Wrappers
  import opened Groups
  import opened Sections

  // ---------- Pruning while a filter is active ----------

  /** The section or one it covers has a host. */
  ghost predicate HasHostBelow(s: seq<Section>, i: int) {
    exists j :: 0 <= i <= j < |s| && s[j].hosts != [] && (j == i || Covers(s, i, j))
  }

  /** For each section in DFS order, whether its subtree has a host. */
  method SubtreeHasHosts(s: seq<Section>) returns (keep: seq<bool>)
    ensures |keep| == |s| && forall i :: 0 <= i < |s| ==> (keep[i] <==> HasHostBelow(s, i))
  {
    keep := seq(|s|, _ => false);
    for i := 0 to |s|
      invariant |keep| == |s|
      invariant forall k :: 0 <= k < i ==> (keep[k] <==> HasHostBelow(s, k))
      invariant forall k :: i <= k < |s| ==> !keep[k]
    {
      if s[i].hosts != [] {
        keep := keep[i := true];
        continue;
      }
      var depth := s[i].depth;
      var j := i + 1;
      while j < |s| && s[j].depth > depth
        invariant i < j <= |s|
        invariant |keep| == |s|
        invariant forall k :: i < k < j ==> s[k].depth > depth
        invariant forall k :: i < k < j ==> s[k].hosts == []
        invariant forall k :: 0 <= k < i ==> (keep[k] <==> HasHostBelow(s, k))
        invariant forall k :: i <= k < |s| ==> !keep[k]
      {
        if s[j].hosts != [] {
          assert Covers(s, i, j);
          keep := keep[i := true];
          break;
        }
        j := j + 1;
      }
    }
  }

  /** `Vec::retain` over the first `n` sections. */
  function Retain(s: seq<Section>, keep: seq<bool>, n: nat): seq<Section>
    requires n <= |s| == |keep|
  {
    if n == 0 then [] else Retain(s, keep, n - 1) + if keep[n - 1] then [s[n - 1]] else []
  }

  /** How many of the first `n` sections are kept, the new index of section `n`. */
  function Rank(keep: seq<bool>, n: nat): nat
    requires n <= |keep|
  {
    if n == 0 then 0 else Rank(keep, n - 1) + if keep[n - 1] then 1 else 0
  }

  lemma RankMonotone(keep: seq<bool>, i: nat, j: nat)
    requires i <= j <= |keep|
    ensures Rank(keep, i) <= Rank(keep, j)
    ensures i < j && keep[i] ==> Rank(keep, i) < Rank(keep, j)
    decreases j - i
  {
    if i < j {
      RankMonotone(keep, i + 1, j);
    }
  }

  lemma RetainAt(s: seq<Section>, keep: seq<bool>, n: nat, i: nat)
    requires i < n <= |s| == |keep| && keep[i]
    ensures |Retain(s, keep, n)| == Rank(keep, n)
    ensures Rank(keep, i) < Rank(keep, n) && Retain(s, keep, n)[Rank(keep, i)] == s[i]
  {
    RetainLength(s, keep, n - 1);
    RankMonotone(keep, i, n);
    if i < n - 1 {
      RetainAt(s, keep, n - 1, i);
    }
  }

  lemma RetainLength(s: seq<Section>, keep: seq<bool>, n: nat)
    requires n <= |s| == |keep|
    ensures |Retain(s, keep, n)| == Rank(keep, n)
  {
  }

  /** The old index of a surviving section. */
  lemma RetainOrigin(s: seq<Section>, keep: seq<bool>, n: nat, m: nat) returns (i: nat)
    requires n <= |s| == |keep| && m < |Retain(s, keep, n)|
    ensures i < n && keep[i] && Rank(keep, i) == m && Retain(s, keep, n)[m] == s[i]
  {
    RetainLength(s, keep, n - 1);
    if m < |Retain(s, keep, n - 1)| {
      i := RetainOrigin(s, keep, n - 1, m);
    } else {
      i := n - 1;
    }
  }

  ghost predicate Keeps(s: seq<Section>, keep: seq<bool>) {
    |keep| == |s| && forall i :: 0 <= i < |s| ==> (keep[i] <==> HasHostBelow(s, i))
  }

  /** The last section at or before `q`, after `p`, that is no deeper than `p`. */
  lemma LastShallow(s: seq<Section>, p: nat, q: nat) returns (k: nat)
    requires p < q < |s| && !Covers(s, p, q)
    ensures p < k <= q && s[k].depth <= s[p].depth
    ensures forall m :: k < m <= q ==> s[m].depth > s[p].depth
    decreases q
  {
    if s[q].depth <= s[p].depth {
      k := q;
    } else {
      k := LastShallow(s, p, q - 1);
    }
  }

  lemma AboveKeptIsKept(s: seq<Section>, k: nat, q: nat)
    requires Covers(s, k, q) && HasHostBelow(s, q)
    ensures HasHostBelow(s, k)
  {
  }

  /** Survivors keep their ancestor relation: pruning by subtree hosts never
      makes one section cover another it did not cover, and loses no pair. */
  lemma PruneKeepsAncestry(s: seq<Section>, keep: seq<bool>, p: nat, q: nat)
    requires Keeps(s, keep) && p < |s| && q < |s| && keep[p] && keep[q]
    ensures Covers(Retain(s, keep, |s|), Rank(keep, p), Rank(keep, q)) <==> Covers(s, p, q)
  {
    var r := Retain(s, keep, |s|);
    RetainAt(s, keep, |s|, p);
    RetainAt(s, keep, |s|, q);
    if Covers(s, p, q) {
      RankMonotone(keep, p, q);
      forall m | Rank(keep, p) < m <= Rank(keep, q) ensures r[m].depth > r[Rank(keep, p)].depth {
        var k := RetainOrigin(s, keep, |s|, m);
        if k <= p {
          RankMonotone(keep, k, p);
        } else if k > q {
          RankMonotone(keep, q, k);
        }
      }
    }
    if Covers(r, Rank(keep, p), Rank(keep, q)) && !Covers(s, p, q) {
      if q <= p {
        RankMonotone(keep, q, p);
      }
      var k := LastShallow(s, p, q);
      if k < q {
        assert Covers(s, k, q);
        AboveKeptIsKept(s, k, q);
        RankMonotone(keep, k, q);
      }
      RetainAt(s, keep, |s|, k);
      RankMonotone(keep, p, k);
    }
  }

  // ---------- The row layout ----------

  datatype NavRow = Header(section: nat) | HostRow(host: nat)

  /** No section covering `i` is collapsed. */
  ghost predicate Open(s: seq<Section>, i: int) {
    forall a :: Covers(s, a, i) ==> !s[a].collapsed
  }

  function HostRows(hosts: seq<nat>): seq<NavRow> {
    seq(|hosts|, i requires 0 <= i < |hosts| => HostRow(hosts[i]))
  }

  lemma HostRowsContents(hosts: seq<nat>)
    ensures forall h: nat :: HostRow(h) in HostRows(hosts) <==> h in hosts
    ensures forall i: nat :: Header(i) !in HostRows(hosts)
  {
    forall h: nat | h in hosts ensures HostRow(h) in HostRows(hosts) {
      var k :| 0 <= k < |hosts| && hosts[k] == h;
      assert HostRows(hosts)[k] == HostRow(h);
    }
  }

  /** The rows with those section `si` contributes when it is not hidden. */
  function AddRows(nav: seq<NavRow>, s: seq<Section>, tree: bool, si: nat): seq<NavRow>
    requires si < |s|
  {
    var base := if tree then nav + [Header(si)] else nav;
    if s[si].collapsed then base else base + HostRows(s[si].hosts)
  }

  /** The rows of the first `n` sections, read off the tree definition: a section
      contributes when no ancestor is collapsed, its hosts when it is open too. */
  ghost function Nav(s: seq<Section>, tree: bool, n: nat): seq<NavRow>
    requires n <= |s|
  {
    if n == 0 then []
    else if !Open(s, n - 1) then Nav(s, tree, n - 1)
    else AddRows(Nav(s, tree, n - 1), s, tree, n - 1)
  }

  /** Which rows exist: a header exactly when no ancestor is collapsed, a host
      exactly when one of its sections is visible and open. */
  lemma NavContents(s: seq<Section>, tree: bool, n: nat)
    requires n <= |s|
    ensures forall i: nat :: Header(i) in Nav(s, tree, n) <==> tree && i < n && Open(s, i)
    ensures forall h: nat :: HostRow(h) in Nav(s, tree, n) <==> Listed(s, n, h)
  {
    if n > 0 {
      NavContents(s, tree, n - 1);
      HostRowsContents(s[n - 1].hosts);
      forall h: nat ensures Listed(s, n, h) <==>
        Listed(s, n - 1, h) || (Open(s, n - 1) && !s[n - 1].collapsed && h in s[n - 1].hosts)
      {
      }
    }
  }

  /** Where a row comes from: rank 0 is the header of the section, rank k + 1 its
      host number k. */
  datatype RowPlace = RowPlace(section: nat, rank: nat)

  predicate Earlier(a: RowPlace, b: RowPlace) {
    a.section < b.section || (a.section == b.section && a.rank < b.rank)
  }

  /** A row at that place is shown: nothing above the section is collapsed, headers
      show in tree mode, hosts below an open header. */
  ghost predicate ShowsAt(s: seq<Section>, tree: bool, n: nat, p: RowPlace)
    requires n <= |s|
  {
    p.section < n && Open(s, p.section)
    && if p.rank == 0 then tree else !s[p.section].collapsed && p.rank <= |s[p.section].hosts|
  }

  ghost predicate PlacesRise(at: seq<RowPlace>) {
    forall i, j :: 0 <= i < j < |at| ==> Earlier(at[i], at[j])
  }

  ghost predicate RowsFrom(s: seq<Section>, tree: bool, n: nat, nav: seq<NavRow>, at: seq<RowPlace>)
    requires n <= |s|
  {
    |at| == |nav| && forall k :: 0 <= k < |at| ==> ShowsAt(s, tree, n, at[k]) && nav[k] == RowOf(s, at[k])
  }

  function RowOf(s: seq<Section>, p: RowPlace): NavRow {
    if p.rank == 0 then Header(p.section)
    else if p.section < |s| && p.rank <= |s[p.section].hosts| then HostRow(s[p.section].hosts[p.rank - 1])
    else Header(|s|)
  }

  /** The rows stand in the order of the sections, each header ahead of its hosts
      and these in the order of the section, and none is missing. */
  lemma {:induction false} NavOrder(s: seq<Section>, tree: bool, n: nat) returns (at: seq<RowPlace>)
    requires n <= |s|
    ensures PlacesRise(at) && RowsFrom(s, tree, n, Nav(s, tree, n), at)
    ensures forall p :: ShowsAt(s, tree, n, p) ==> p in at
  {
    at := [];
    if n > 0 {
      var before := NavOrder(s, tree, n - 1);
      at := before;
      if Open(s, n - 1) {
        at := before + SectionPlaces(s, tree, n - 1);
        SectionPlaced(s, tree, n - 1);
        PlacesJoin(s, tree, n - 1, before);
      }
      forall p | ShowsAt(s, tree, n, p) ensures p in at {
        EarlierPlaces(s, tree, n, p);
      }
    }
  }

  lemma EarlierPlaces(s: seq<Section>, tree: bool, n: nat, p: RowPlace)
    requires 0 < n <= |s| && ShowsAt(s, tree, n, p)
    ensures ShowsAt(s, tree, n - 1, p) || (p.section == n - 1 && Open(s, n - 1))
  {
  }

  lemma PlacesJoin(s: seq<Section>, tree: bool, si: nat, at: seq<RowPlace>)
    requires si < |s| && Open(s, si) && PlacesRise(at) && RowsFrom(s, tree, si, Nav(s, tree, si), at)
    requires PlacesRise(SectionPlaces(s, tree, si)) && forall p :: p in SectionPlaces(s, tree, si) ==> p.section == si
    requires RowsFrom(s, tree, si + 1, SectionRows(s, tree, si), SectionPlaces(s, tree, si))
    ensures PlacesRise(at + SectionPlaces(s, tree, si))
    ensures RowsFrom(s, tree, si + 1, Nav(s, tree, si + 1), at + SectionPlaces(s, tree, si))
  {
    var own, all := SectionPlaces(s, tree, si), at + SectionPlaces(s, tree, si);
    assert forall k :: 0 <= k < |own| ==> own[k] in own;
    RowsJoin(Nav(s, tree, si), s, tree, si);
    forall k | 0 <= k < |at| ensures ShowsAt(s, tree, si + 1, at[k]) && at[k].section < si {
      assert ShowsAt(s, tree, si, at[k]);
    }
  }

  lemma RowsJoin(nav: seq<NavRow>, s: seq<Section>, tree: bool, si: nat)
    requires si < |s|
    ensures AddRows(nav, s, tree, si) == nav + SectionRows(s, tree, si)
  {
  }

  /** The rows of one section, and where they come from. */
  function SectionRows(s: seq<Section>, tree: bool, si: nat): seq<NavRow>
    requires si < |s|
  {
    (if tree then [Header(si)] else []) + if s[si].collapsed then [] else HostRows(s[si].hosts)
  }

  function SectionPlaces(s: seq<Section>, tree: bool, si: nat): seq<RowPlace>
    requires si < |s|
  {
    (if tree then [RowPlace(si, 0)] else [])
    + if s[si].collapsed then [] else seq(|s[si].hosts|, k requires 0 <= k < |s[si].hosts| => RowPlace(si, k + 1))
  }

  lemma SectionPlaced(s: seq<Section>, tree: bool, si: nat)
    requires si < |s| && Open(s, si)
    ensures PlacesRise(SectionPlaces(s, tree, si)) && forall p :: p in SectionPlaces(s, tree, si) ==> p.section == si
    ensures RowsFrom(s, tree, si + 1, SectionRows(s, tree, si), SectionPlaces(s, tree, si))
    ensures forall p :: ShowsAt(s, tree, si + 1, p) && p.section == si ==> p in SectionPlaces(s, tree, si)
  {
    var at := SectionPlaces(s, tree, si);
    SectionPlaceAt(s, tree, si);
    forall p | ShowsAt(s, tree, si + 1, p) && p.section == si ensures p in at {
      assert at[if tree then p.rank else p.rank - 1] == p;
    }
  }

  lemma SectionPlaceAt(s: seq<Section>, tree: bool, si: nat)
    requires si < |s|
    ensures var at, head := SectionPlaces(s, tree, si), if tree then 1 else 0;
            |at| == |SectionRows(s, tree, si)| == head + (if s[si].collapsed then 0 else |s[si].hosts|)
            && forall k :: 0 <= k < |at| ==>
                 (at[k] == RowPlace(si, k + 1 - head) && SectionRows(s, tree, si)[k] == RowOf(s, at[k]))
  {
  }

  /** Some visible, open section among the first `n` holds the host. */
  ghost predicate Listed(s: seq<Section>, n: nat, h: nat)
    requires n <= |s|
  {
    exists i :: 0 <= i < n && Open(s, i) && !s[i].collapsed && h in s[i].hosts
  }

  function TreeMode(s: seq<Section>): bool {
    exists i :: 0 <= i < |s| && s[i].group.Some?
  }

  /** Headers show as soon as a group has a section. */
  lemma HeadersInTreeMode(s: seq<Section>)
    ensures TreeMode(s) <==> exists section :: section in s && section.group.Some?
  {
    if section :| section in s && section.group.Some? {
      var i :| 0 <= i < |s| && s[i] == section;
    }
  }

  function Mark(s: Section, tree: bool, collapsed: set<int>): Section {
    s.(collapsed := tree && s.Key() in collapsed)
  }

  function Marked(s: seq<Section>, collapsed: set<int>): (r: seq<Section>)
    ensures |r| == |s| && forall i :: 0 <= i < |s| ==> r[i] == Mark(s[i], TreeMode(s), collapsed)
  {
    var tree := TreeMode(s);
    seq(|s|, i requires 0 <= i < |s| => Mark(s[i], tree, collapsed))
  }

  lemma MarkedCovers(s: seq<Section>, collapsed: set<int>, i: int, j: int)
    ensures Covers(Marked(s, collapsed), i, j) <==> Covers(s, i, j)
  {
  }

  /** What `hidden_below` knows before section `si`: the last collapsed visible
      section when its subtree is still running, and otherwise that every
      collapsed section's subtree has ended. */
  ghost predicate Tracks(s: seq<Section>, si: nat, hiddenBelow: Option<nat>, h: nat)
    requires si <= |s|
  {
    && (hiddenBelow.Some? ==>
          && h < si && s[h].collapsed && s[h].depth == hiddenBelow.value
          && forall k :: h < k < si ==> s[k].depth > s[h].depth)
    && forall a :: 0 <= a < (if hiddenBelow.Some? then h else si) && s[a].collapsed ==>
        Ended(s, a, if hiddenBelow.Some? then h + 1 else si)
  }

  ghost predicate Ended(s: seq<Section>, a: nat, before: nat)
    requires before <= |s|
  {
    exists k :: a < k < before && s[k].depth <= s[a].depth
  }

  /** One step of the register: it hides exactly the sections below a collapsed
      one, and stays right for the next section. */
  lemma TrackStep(s: seq<Section>, si: nat, hiddenBelow: Option<nat>, h: nat)
    requires si < |s| && Tracks(s, si, hiddenBelow, h)
    ensures var hidden := hiddenBelow.Some? && s[si].depth > hiddenBelow.value;
      if hidden then !Open(s, si) && Tracks(s, si + 1, hiddenBelow, h)
      else Open(s, si) && Tracks(s, si + 1, if s[si].collapsed then Some(s[si].depth) else None, si)
  {
  }

  /** The rows and the register after `n` steps of the pass. */
  function Pass(s: seq<Section>, tree: bool, n: nat): (seq<NavRow>, Option<nat>)
    requires n <= |s|
  {
    if n == 0 then ([], None)
    else
      var (nav, hiddenBelow) := Pass(s, tree, n - 1);
      if hiddenBelow.Some? && s[n - 1].depth > hiddenBelow.value then (nav, hiddenBelow)
      else (AddRows(nav, s, tree, n - 1), if s[n - 1].collapsed then Some(s[n - 1].depth) else None)
  }

  lemma PassIsNav(s: seq<Section>, tree: bool, n: nat) returns (h: nat)
    requires n <= |s|
    ensures Pass(s, tree, n).0 == Nav(s, tree, n) && Tracks(s, n, Pass(s, tree, n).1, h)
  {
    h := 0;
    if n > 0 {
      h := PassIsNav(s, tree, n - 1);
      var hiddenBelow := Pass(s, tree, n - 1).1;
      TrackStep(s, n - 1, hiddenBelow, h);
      h := if hiddenBelow.Some? && s[n - 1].depth > hiddenBelow.value then h else n - 1;
    }
  }

  /** The single pass of `rebuild_filter`: it stamps the collapse flags and lays
      out the rows with one register, and agrees with the tree definition for
      every list of depths. */
  method LayOutRows(s: seq<Section>, collapsed: set<int>) returns (sections: seq<Section>, nav: seq<NavRow>)
    ensures sections == Marked(s, collapsed)
    ensures nav == Nav(sections, TreeMode(s), |s|)
  {
    var treeMode := TreeMode(s);
    ghost var marked := Marked(s, collapsed);
    sections, nav := s, [];
    var hiddenBelow: Option<nat> := None;
    for si := 0 to |s|
      invariant |sections| == |s|
      invariant forall k :: 0 <= k < si ==> sections[k] == marked[k]
      invariant forall k :: si <= k < |s| ==> sections[k] == s[k]
      invariant (nav, hiddenBelow) == Pass(marked, treeMode, si)
    {
      var depth := sections[si].depth;
      if hiddenBelow.Some? && depth <= hiddenBelow.value {
        hiddenBelow := None;
      }
      sections := sections[si := Mark(sections[si], treeMode, collapsed)];
      if hiddenBelow.Some? {
        continue;
      }
      if treeMode {
        nav := nav + [Header(si)];
      }
      if sections[si].collapsed {
        hiddenBelow := Some(depth);
      } else {
        nav := nav + HostRows(sections[si].hosts);
      }
    }
    var _ := PassIsNav(marked, treeMode, |s|);
  }
}
