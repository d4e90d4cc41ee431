/** Flattening the group forest into depth-coded sections (build_group_sections
    and build_group_subtree in src/app/util.rs), and what the flat list means in
    terms of the parent pointers. */
module Sections {
  import opened Wrappers
  import opened Groups

  /** What the host list sorts by: the display name in lower case, the last
      connection, the favourite mark, the sort key of the host's group, and the
      place given by hand. */
  datatype SortKeys = SortKeys(display: string, lastConnected: Option<int>, favorite: bool, groupKey: string,
                               sortOrder: int)

  datatype Host = Host(name: string, tags: seq<string>, groupIds: seq<int>, keys: SortKeys)

  const UNGROUPED_KEY: int := -1
  const UNGROUPED_LABEL := "_ungrouped"

  datatype Section = Section(group: Option<Group>, title: string, hosts: seq<nat>, collapsed: bool, depth: nat) {
    /** Stable collapse-state key: the group id, or the ungrouped key. */
    function Key(): int {
      match group
      case Some(g) => g.id
      case None => UNGROUPED_KEY
    }
  }

  /** `Iterator::filter` followed by `collect`. */
  function Keep(s: seq<nat>, p: nat -> bool): (kept: seq<nat>)
    ensures forall x :: x in kept <==> x in s && p(x)
  {
    if s == [] then []
    else
      assert s == [s[0]] + s[1..];
      if p(s[0]) then [s[0]] + Keep(s[1..], p) else Keep(s[1..], p)
  }

  ghost predicate Increasing(at: seq<nat>) {
    forall i, j :: 0 <= i < j < |at| ==> at[i] < at[j]
  }

  /** `kept` is what stands at the places `at` of `s`, in order. */
  ghost predicate Picks(s: seq<nat>, kept: seq<nat>, at: seq<nat>) {
    Increasing(at) && |at| == |kept| && forall k :: 0 <= k < |at| ==> at[k] < |s| && kept[k] == s[at[k]]
  }

  /** What is kept stays in order, each occurrence once. */
  lemma KeepPicks(s: seq<nat>, p: nat -> bool) returns (at: seq<nat>)
    ensures Picks(s, Keep(s, p), at)
    ensures forall q: nat :: q < |s| ==> (q in at <==> p(s[q]))
  {
    at := KeepPicksFrom(s, p, 0);
    assert s[0..] == s;
  }

  lemma {:induction false} KeepPicksFrom(s: seq<nat>, p: nat -> bool, i: nat) returns (at: seq<nat>)
    requires i <= |s|
    ensures Picks(s, Keep(s[i..], p), at) && forall q: nat :: q in at <==> i <= q < |s| && p(s[q])
    decreases |s| - i
  {
    at := [];
    if i < |s| {
      at := KeepPicksFrom(s, p, i + 1);
      assert s[i..][1..] == s[i + 1..] && s[i..][0] == s[i];
      if p(s[i]) {
        PicksMore(s, Keep(s[i + 1..], p), at, i);
        at := [i] + at;
      }
    }
  }

  lemma PicksMore(s: seq<nat>, kept: seq<nat>, at: seq<nat>, i: nat)
    requires Picks(s, kept, at) && i < |s| && forall q :: q in at ==> i < q
    ensures Picks(s, [s[i]] + kept, [i] + at)
  {
    forall k | 0 <= k < |at| ensures at[k] > i {
      assert at[k] in at;
    }
  }

  lemma KeepNone(s: seq<nat>, p: nat -> bool)
    requires forall x :: x in s ==> !p(x)
    ensures Keep(s, p) == []
  {
  }

  /** What one DFS reads: the hosts, the groups in display order, and the host
      indices that passed the filters, in sorted order. */
  datatype Listing = Listing(hosts: seq<Host>, groups: seq<Group>, filtered: seq<nat>) {
    predicate In(idx: nat, gid: int) {
      idx < |hosts| && gid in hosts[idx].groupIds
    }

    /** The filtered hosts of a group, in filter order. */
    function Members(gid: int): (r: seq<nat>)
      ensures forall idx :: idx in r <==> idx in filtered && In(idx, gid)
    {
      Keep(filtered, (idx: nat) => In(idx, gid))
    }

    /** The filtered hosts that belong to no group at all. */
    function Loose(): seq<nat> {
      Keep(filtered, (idx: nat) => idx < |hosts| && hosts[idx].groupIds == [])
    }

    predicate Hidden(g: Group) {
      g.reserved && Members(g.id) == []
    }
  }

  /** The DFS over the rows from position `k` on, below `parent`. */
  function Subtree(l: Listing, parent: Option<int>, depth: nat, visiting: set<int>, k: nat): seq<Section>
    requires k <= |l.groups|
    decreases Ids(l.groups) - visiting, |l.groups| - k
  {
    if k == |l.groups| then []
    else
      var g := l.groups[k];
      assert g in l.groups;
      if g.parent != parent || g.id in visiting || l.Hidden(g) then Subtree(l, parent, depth, visiting, k + 1)
      else
        [Section(Some(g), g.name, l.Members(g.id), false, depth)]
        + Subtree(l, Some(g.id), depth + 1, visiting + {g.id}, 0)
        + Subtree(l, parent, depth, visiting, k + 1)
  }

  function Tree(l: Listing): seq<Section> {
    Subtree(l, None, 0, {}, 0)
  }

  function Bucket(l: Listing): seq<Section> {
    if l.Loose() == [] then [] else [Section(None, UNGROUPED_LABEL, l.Loose(), false, 0)]
  }

  /** The sections of the host tree: the forest, then the ungrouped bucket. */
  function AllSections(l: Listing): seq<Section> {
    Tree(l) + Bucket(l)
  }

  /** The recursive walk, with its shared `visiting` set and output list. Both
      come back as the walk found them, apart from the appended sections. */
  method BuildGroupSubtree(l: Listing, parent: Option<int>, depth: nat, visiting0: set<int>, out0: seq<Section>)
    returns (visiting: set<int>, out: seq<Section>)
    ensures visiting == visiting0
    ensures out == out0 + Subtree(l, parent, depth, visiting0, 0)
    decreases Ids(l.groups) - visiting0
  {
    visiting, out := visiting0, out0;
    for k := 0 to |l.groups|
      invariant visiting == visiting0
      invariant out + Subtree(l, parent, depth, visiting0, k) == out0 + Subtree(l, parent, depth, visiting0, 0)
    {
      var g := l.groups[k];
      assert g in l.groups;
      if g.parent == parent {
        if g.id in visiting {
          continue;
        }
        visiting := visiting + {g.id};
        var members := l.Members(g.id);
        if g.reserved && members == [] {
          visiting := visiting - {g.id};
          continue;
        }
        ghost var before := out;
        out := out + [Section(Some(g), g.name, members, false, depth)];
        visiting, out := BuildGroupSubtree(l, Some(g.id), depth + 1, visiting, out);
        visiting := visiting - {g.id};
        assert out == before + ([Section(Some(g), g.name, members, false, depth)]
                                + Subtree(l, Some(g.id), depth + 1, visiting0 + {g.id}, 0));
      }
    }
  }

  method BuildGroupSections(l: Listing) returns (sections: seq<Section>)
    ensures sections == AllSections(l)
  {
    var visiting;
    visiting, sections := BuildGroupSubtree(l, None, 0, {}, []);
    var loose := l.Loose();
    if loose != [] {
      sections := sections + [Section(None, UNGROUPED_LABEL, loose, false, 0)];
    }
  }

  // ---------- Reading ancestry off the depths ----------

  /** `j` lies in the contiguous run of deeper sections that follows `i`. */
  ghost predicate Covers(s: seq<Section>, i: int, j: int) {
    0 <= i < j < |s| && forall k :: i < k <= j ==> s[k].depth > s[i].depth
  }

  lemma CoversTransitive(s: seq<Section>, i: int, j: int, k: int)
    requires Covers(s, i, j) && Covers(s, j, k)
    ensures Covers(s, i, k)
  {
  }

  /** `i` is the section of `j`'s parent group: one level up, and covering it. */
  ghost predicate ParentAt(s: seq<Section>, i: int, j: int) {
    && Covers(s, i, j) && s[j].depth == s[i].depth + 1
    && s[i].group.Some? && s[j].group.Some? && s[j].group.value.parent == Some(s[i].group.value.id)
  }

  ghost predicate NestedAt(s: seq<Section>, depth: nat, parent: Option<int>, j: int)
    requires 0 <= j < |s|
  {
    && s[j].group.Some?
    && s[j].depth >= depth
    && (s[j].depth == depth ==> s[j].group.value.parent == parent)
    && (s[j].depth > depth ==> exists i :: ParentAt(s, i, j))
  }

  ghost predicate Nested(s: seq<Section>, depth: nat, parent: Option<int>) {
    forall j :: 0 <= j < |s| ==> NestedAt(s, depth, parent, j)
  }

  lemma NestedConcat(a: seq<Section>, b: seq<Section>, depth: nat, parent: Option<int>)
    requires Nested(a, depth, parent) && Nested(b, depth, parent)
    ensures Nested(a + b, depth, parent)
  {
    var s := a + b;
    forall j | 0 <= j < |s| ensures NestedAt(s, depth, parent, j) {
      if j < |a| {
        assert NestedAt(a, depth, parent, j);
        if s[j].depth > depth {
          var i :| ParentAt(a, i, j);
          assert ParentAt(s, i, j);
        }
      } else {
        assert NestedAt(b, depth, parent, j - |a|);
        if s[j].depth > depth {
          var i :| ParentAt(b, i, j - |a|);
          assert ParentAt(s, i + |a|, j) by {
            forall k | i + |a| < k <= j ensures s[k].depth > s[i + |a|].depth {
              assert s[k] == b[k - |a|];
            }
          }
        }
      }
    }
  }

  lemma NestedBelow(head: Section, kids: seq<Section>, depth: nat, parent: Option<int>)
    requires head.group.Some? && head.depth == depth && head.group.value.parent == parent
    requires Nested(kids, depth + 1, Some(head.group.value.id))
    ensures Nested([head] + kids, depth, parent)
  {
    var s := [head] + kids;
    forall j | 0 <= j < |s| ensures NestedAt(s, depth, parent, j) {
      if j > 0 {
        assert NestedAt(kids, depth + 1, Some(head.group.value.id), j - 1);
        if s[j].depth == depth + 1 {
          assert ParentAt(s, 0, j) by {
            forall k | 0 < k <= j ensures s[k].depth > depth {
              assert NestedAt(kids, depth + 1, Some(head.group.value.id), k - 1);
            }
          }
        } else {
          var i :| ParentAt(kids, i, j - 1);
          assert ParentAt(s, i + 1, j) by {
            forall k | i + 1 < k <= j ensures s[k].depth > s[i + 1].depth {
              assert s[k] == kids[k - 1];
            }
          }
        }
      }
    }
  }

  lemma {:induction false} SubtreeNested(l: Listing, parent: Option<int>, depth: nat, visiting: set<int>, k: nat)
    requires k <= |l.groups|
    ensures Nested(Subtree(l, parent, depth, visiting, k), depth, parent)
    decreases Ids(l.groups) - visiting, |l.groups| - k
  {
    if k < |l.groups| {
      var g := l.groups[k];
      assert g in l.groups;
      SubtreeNested(l, parent, depth, visiting, k + 1);
      if g.parent == parent && g.id !in visiting && !l.Hidden(g) {
        SubtreeNested(l, Some(g.id), depth + 1, visiting + {g.id}, 0);
        var head := Section(Some(g), g.name, l.Members(g.id), false, depth);
        NestedBelow(head, Subtree(l, Some(g.id), depth + 1, visiting + {g.id}, 0), depth, parent);
        NestedConcat([head] + Subtree(l, Some(g.id), depth + 1, visiting + {g.id}, 0),
                     Subtree(l, parent, depth, visiting, k + 1), depth, parent);
      }
    }
  }

  // ---------- Sibling order ----------

  function Position(groups: seq<Group>, id: int): (k: nat)
    ensures k <= |groups|
    ensures id in Ids(groups) ==> k < |groups| && groups[k].id == id
  {
    if groups == [] then 0
    else
      assert Ids(groups) == {groups[0].id} + Ids(groups[1..]);
      if groups[0].id == id then 0 else 1 + Position(groups[1..], id)
  }

  lemma PositionUnique(groups: seq<Group>, k: nat)
    requires UniqueIds(groups) && k < |groups|
    ensures Position(groups, groups[k].id) == k
  {
  }

  /** Equal depth, and nothing shallower in between. */
  ghost predicate Siblings(s: seq<Section>, i: int, j: int) {
    && 0 <= i < j < |s| && s[i].depth == s[j].depth
    && forall k :: i < k < j ==> s[k].depth >= s[i].depth
  }

  /** Siblings appear in the order of the group list. */
  ghost predicate SiblingsOrdered(groups: seq<Group>, s: seq<Section>) {
    forall i, j :: Siblings(s, i, j) ==> Position(groups, s[i].Key()) < Position(groups, s[j].Key())
  }

  ghost predicate From(l: Listing, s: seq<Section>, depth: nat, k: nat) {
    && (s != [] ==> s[0].depth == depth)
    && forall j :: 0 <= j < |s| && s[j].depth == depth ==> Position(l.groups, s[j].Key()) >= k
  }

  lemma {:induction false} SubtreeOrdered(l: Listing, parent: Option<int>, depth: nat, visiting: set<int>, k: nat)
    requires UniqueIds(l.groups) && k <= |l.groups|
    ensures SiblingsOrdered(l.groups, Subtree(l, parent, depth, visiting, k))
    ensures From(l, Subtree(l, parent, depth, visiting, k), depth, k)
    decreases Ids(l.groups) - visiting, |l.groups| - k
  {
    if k < |l.groups| {
      var g := l.groups[k];
      assert g in l.groups;
      SubtreeOrdered(l, parent, depth, visiting, k + 1);
      if g.parent == parent && g.id !in visiting && !l.Hidden(g) {
        var kids := Subtree(l, Some(g.id), depth + 1, visiting + {g.id}, 0);
        var rest := Subtree(l, parent, depth, visiting, k + 1);
        SubtreeOrdered(l, Some(g.id), depth + 1, visiting + {g.id}, 0);
        SubtreeNested(l, Some(g.id), depth + 1, visiting + {g.id}, 0);
        SubtreeNested(l, parent, depth, visiting, k + 1);
        PositionUnique(l.groups, k);
        OrderedJoin(l, Section(Some(g), g.name, l.Members(g.id), false, depth), kids, rest, depth, parent, k);
      }
    }
  }

  lemma OrderedJoin(l: Listing, head: Section, kids: seq<Section>, rest: seq<Section>,
                    depth: nat, parent: Option<int>, k: nat)
    requires head.depth == depth && head.group.Some? && Position(l.groups, head.Key()) == k
    requires Nested(kids, depth + 1, Some(head.Key())) && Nested(rest, depth, parent)
    requires SiblingsOrdered(l.groups, kids) && SiblingsOrdered(l.groups, rest) && From(l, rest, depth, k + 1)
    ensures SiblingsOrdered(l.groups, [head] + kids + rest)
    ensures From(l, [head] + kids + rest, depth, k)
  {
    var s := [head] + kids + rest;
    var n := 1 + |kids|;
    forall j | 1 <= j < n ensures s[j] == kids[j - 1] && s[j].depth > depth {
      assert NestedAt(kids, depth + 1, Some(head.Key()), j - 1);
    }
    forall j | n <= j < |s| ensures s[j] == rest[j - n] && s[j].depth >= depth {
      assert NestedAt(rest, depth, parent, j - n);
    }
    assert rest != [] ==> s[n] == rest[0];
    forall i, j | Siblings(s, i, j)
      ensures Position(l.groups, s[i].Key()) < Position(l.groups, s[j].Key())
    {
      if i >= n {
        assert Siblings(rest, i - n, j - n) by {
          forall m | i - n < m < j - n ensures rest[m].depth >= rest[i - n].depth {
            assert s[m + n] == rest[m];
          }
        }
      } else if i > 0 && j < n {
        assert Siblings(kids, i - 1, j - 1) by {
          forall m | i - 1 < m < j - 1 ensures kids[m].depth >= kids[i - 1].depth {
            assert s[m + 1] == kids[m];
          }
        }
      }
    }
  }

  // ---------- Which groups appear ----------

  /** The group is reached from the top level in `n` links, through groups none
      of which is an empty reserved one. */
  ghost predicate Shown(l: Listing, id: int, n: nat)
    decreases n
  {
    match Find(l.groups, id)
    case None => false
    case Some(g) =>
      !l.Hidden(g) && match g.parent
                      case None => n == 0
                      case Some(p) => n > 0 && Shown(l, p, n - 1)
  }

  lemma {:induction false} ShownDepthUnique(l: Listing, id: int, m: nat, n: nat)
    requires Shown(l, id, m) && Shown(l, id, n)
    ensures m == n
    decreases n
  {
    var g := Find(l.groups, id).value;
    if g.parent.Some? {
      ShownDepthUnique(l, g.parent.value, m - 1, n - 1);
    }
  }

  ghost predicate ShownSection(l: Listing, s: Section) {
    && s.group.Some? && Shown(l, s.Key(), s.depth) && Find(l.groups, s.Key()) == s.group
    && s.title == s.group.value.name && s.hosts == l.Members(s.Key()) && !s.collapsed
  }

  ghost predicate AllShown(l: Listing, s: seq<Section>) {
    forall j :: 0 <= j < |s| ==> ShownSection(l, s[j])
  }

  /** The walk at this depth lists the children of a shown group, or the roots. */
  ghost predicate Under(l: Listing, parent: Option<int>, depth: nat) {
    if parent.None? then depth == 0 else depth > 0 && Shown(l, parent.value, depth - 1)
  }

  lemma ChildShown(l: Listing, parent: Option<int>, depth: nat, g: Group)
    requires UniqueIds(l.groups) && g in l.groups && g.parent == parent && !l.Hidden(g)
    requires Under(l, parent, depth)
    ensures Under(l, Some(g.id), depth + 1) && Shown(l, g.id, depth) && Find(l.groups, g.id) == Some(g)
  {
    FindUnique(l.groups, g);
  }

  lemma ShownTogether(l: Listing, g: Group, depth: nat, below: seq<Section>, rest: seq<Section>)
    requires Shown(l, g.id, depth) && Find(l.groups, g.id) == Some(g) && AllShown(l, below) && AllShown(l, rest)
    ensures AllShown(l, [Section(Some(g), g.name, l.Members(g.id), false, depth)] + below + rest)
  {
  }

  /** Everything the walk emits is a shown group, at its own depth, with its own
      hosts. */
  lemma {:induction false} SubtreeShown(l: Listing, parent: Option<int>, depth: nat, visiting: set<int>, k: nat)
    requires UniqueIds(l.groups) && k <= |l.groups|
    requires Under(l, parent, depth)
    ensures AllShown(l, Subtree(l, parent, depth, visiting, k))
    decreases Ids(l.groups) - visiting, |l.groups| - k
  {
    if k < |l.groups| {
      var g := l.groups[k];
      assert g in l.groups;
      SubtreeShown(l, parent, depth, visiting, k + 1);
      if g.parent == parent && g.id !in visiting && !l.Hidden(g) {
        ChildShown(l, parent, depth, g);
        SubtreeShown(l, Some(g.id), depth + 1, visiting + {g.id}, 0);
        var below := Subtree(l, Some(g.id), depth + 1, visiting + {g.id}, 0);
        ShownTogether(l, g, depth, below, Subtree(l, parent, depth, visiting, k + 1));
      }
    }
  }

  /** The group `d` links below the top level on the way down to `id`. */
  ghost function Via(l: Listing, id: int, n: nat, d: nat): (a: int)
    requires Shown(l, id, n) && d <= n
    ensures Shown(l, a, d)
    ensures d == n ==> a == id
    decreases n
  {
    if d == n then id else Via(l, Find(l.groups, id).value.parent.value, n - 1, d)
  }

  lemma {:induction false} ViaParent(l: Listing, id: int, n: nat, d: nat)
    requires Shown(l, id, n) && d < n
    ensures ParentOf(l.groups, Via(l, id, n, d + 1)) == Some(Via(l, id, n, d))
    decreases n
  {
    if d + 1 < n {
      ViaParent(l, Find(l.groups, id).value.parent.value, n - 1, d);
    }
  }

  ghost predicate Lists(s: seq<Section>, id: int) {
    exists j :: 0 <= j < |s| && s[j].group.Some? && s[j].Key() == id
  }

  lemma ListsConcat(a: seq<Section>, b: seq<Section>, id: int)
    requires Lists(a, id) || Lists(b, id)
    ensures Lists(a + b, id)
  {
    if Lists(a, id) {
      var j :| 0 <= j < |a| && a[j].group.Some? && a[j].Key() == id;
      assert (a + b)[j] == a[j];
    } else {
      var j :| 0 <= j < |b| && b[j].group.Some? && b[j].Key() == id;
      assert (a + b)[|a| + j] == b[j];
    }
  }

  /** Everything on the current path is shown at a smaller depth. */
  ghost predicate PassedAbove(l: Listing, visiting: set<int>, depth: nat) {
    forall v :: v in visiting ==> exists m: nat :: m < depth && Shown(l, v, m)
  }

  lemma PassedAboveStep(l: Listing, visiting: set<int>, depth: nat, id: int)
    requires PassedAbove(l, visiting, depth) && Shown(l, id, depth)
    ensures PassedAbove(l, visiting + {id}, depth + 1)
    ensures id !in visiting
  {
    if id in visiting {
      var m: nat :| m < depth && Shown(l, id, m);
      ShownDepthUnique(l, id, m, depth);
    }
    forall v | v in visiting ensures exists m: nat :: m < depth + 1 && Shown(l, v, m) {
      var m: nat :| m < depth && Shown(l, v, m);
    }
  }

  lemma LaterRowsKept(l: Listing, parent: Option<int>, depth: nat, visiting: set<int>, k: nat, id: int)
    requires k < |l.groups| && Lists(Subtree(l, parent, depth, visiting, k + 1), id)
    ensures Lists(Subtree(l, parent, depth, visiting, k), id)
  {
    var g := l.groups[k];
    assert g in l.groups;
    if !(g.parent != parent || g.id in visiting || l.Hidden(g)) {
      ListsConcat([Section(Some(g), g.name, l.Members(g.id), false, depth)]
                  + Subtree(l, Some(g.id), depth + 1, visiting + {g.id}, 0),
                  Subtree(l, parent, depth, visiting, k + 1), id);
    }
  }

  lemma RowEmitted(l: Listing, parent: Option<int>, depth: nat, visiting: set<int>, k: nat, g: Group)
    requires k < |l.groups| && l.groups[k] == g
    requires g.parent == parent && g.id !in visiting && !l.Hidden(g)
    ensures g in l.groups && Subtree(l, parent, depth, visiting, k) ==
      [Section(Some(g), g.name, l.Members(g.id), false, depth)]
      + Subtree(l, Some(g.id), depth + 1, visiting + {g.id}, 0)
      + Subtree(l, parent, depth, visiting, k + 1)
  {
  }

  lemma RowKept(head: Section, kids: seq<Section>, rest: seq<Section>, id: int)
    requires head.group.Some?
    requires head.Key() == id || Lists(kids, id)
    ensures Lists([head] + kids + rest, id)
  {
    if head.Key() == id {
      assert ([head] + kids + rest)[0] == head;
    } else {
      ListsConcat([head], kids, id);
      ListsConcat([head] + kids, rest, id);
    }
  }

  /** The rows from `k` on at depth `depth` still hold the ancestor that leads to
      the shown group `id`. */
  ghost predicate LeadsTo(l: Listing, parent: Option<int>, depth: nat, visiting: set<int>, k: nat, id: int, n: nat) {
    && UniqueIds(l.groups) && k <= |l.groups|
    && depth <= n && Shown(l, id, n) && PassedAbove(l, visiting, depth)
    && ParentOf(l.groups, Via(l, id, n, depth)) == parent
    && Position(l.groups, Via(l, id, n, depth)) >= k
  }

  lemma LeadsToKids(l: Listing, parent: Option<int>, depth: nat, visiting: set<int>, k: nat, id: int, n: nat)
    requires LeadsTo(l, parent, depth, visiting, k, id, n) && depth < n
    ensures var a := Via(l, id, n, depth);
      a in Ids(l.groups) && a !in visiting && LeadsTo(l, Some(a), depth + 1, visiting + {a}, 0, id, n)
  {
    ViaParent(l, id, n, depth);
    PassedAboveStep(l, visiting, depth, Via(l, id, n, depth));
  }

  lemma LeadsToLater(l: Listing, parent: Option<int>, depth: nat, visiting: set<int>, k: nat, id: int, n: nat)
    requires LeadsTo(l, parent, depth, visiting, k, id, n)
    ensures k < |l.groups|
    ensures l.groups[k].id != Via(l, id, n, depth) ==> LeadsTo(l, parent, depth, visiting, k + 1, id, n)
  {
  }

  lemma HereListed(l: Listing, parent: Option<int>, depth: nat, visiting: set<int>, k: nat, id: int, n: nat)
    requires LeadsTo(l, parent, depth, visiting, k, id, n)
    requires k < |l.groups| && l.groups[k].id == Via(l, id, n, depth)
    requires var a := Via(l, id, n, depth);
      depth < n ==> a in Ids(l.groups) && Lists(Subtree(l, Some(a), depth + 1, visiting + {a}, 0), id)
    ensures Lists(Subtree(l, parent, depth, visiting, k), id)
  {
    var g := l.groups[k];
    assert g in l.groups;
    FindUnique(l.groups, g);
    PassedAboveStep(l, visiting, depth, g.id);
    RowEmitted(l, parent, depth, visiting, k, g);
    RowKept(Section(Some(g), g.name, l.Members(g.id), false, depth),
            Subtree(l, Some(g.id), depth + 1, visiting + {g.id}, 0), Subtree(l, parent, depth, visiting, k + 1), id);
  }

  /** The walk emits every shown group it leads to; the cycle guard never stops
      it, because everything in `visiting` is shown at a smaller depth. */
  lemma {:induction false} SubtreeComplete(l: Listing, parent: Option<int>, depth: nat, visiting: set<int>, k: nat,
                                           id: int, n: nat)
    requires LeadsTo(l, parent, depth, visiting, k, id, n)
    ensures Lists(Subtree(l, parent, depth, visiting, k), id)
    decreases Ids(l.groups) - visiting, |l.groups| - k
  {
    var a := Via(l, id, n, depth);
    LeadsToLater(l, parent, depth, visiting, k, id, n);
    if l.groups[k].id == a {
      if depth < n {
        LeadsToKids(l, parent, depth, visiting, k, id, n);
        SubtreeComplete(l, Some(a), depth + 1, visiting + {a}, 0, id, n);
      }
      HereListed(l, parent, depth, visiting, k, id, n);
    } else {
      SubtreeComplete(l, parent, depth, visiting, k + 1, id, n);
      LaterRowsKept(l, parent, depth, visiting, k, id);
    }
  }

  /** The group is reached from the top level. */
  ghost predicate Reached(l: Listing, id: int) {
    exists n: nat :: Shown(l, id, n)
  }

  /** The forest part of the sections lists exactly the groups reached from the
      top level, each at its own depth and with its own filtered hosts. */
  lemma TreeListsReached(l: Listing, id: int)
    requires UniqueIds(l.groups)
    ensures AllShown(l, Tree(l))
    ensures Lists(Tree(l), id) <==> Reached(l, id)
  {
    SubtreeShown(l, None, 0, {}, 0);
    var s := Tree(l);
    if Lists(s, id) {
      var j :| 0 <= j < |s| && s[j].group.Some? && s[j].Key() == id;
      assert Shown(l, id, s[j].depth);
    }
    if Reached(l, id) {
      var n: nat :| Shown(l, id, n);
      assert ParentOf(l.groups, Via(l, id, n, 0)) == None;
      SubtreeComplete(l, None, 0, {}, 0, id, n);
    }
  }

  // ---------- Each group once, and ancestry ----------

  lemma {:induction false} TreeIdsDiffer(l: Listing, i: nat, j: nat)
    requires UniqueIds(l.groups)
    requires i < j < |Tree(l)|
    ensures Tree(l)[i].Key() != Tree(l)[j].Key()
    decreases i + j
  {
    var s := Tree(l);
    SubtreeShown(l, None, 0, {}, 0);
    SubtreeNested(l, None, 0, {}, 0);
    SubtreeOrdered(l, None, 0, {}, 0);
    if s[i].Key() == s[j].Key() {
      ShownDepthUnique(l, s[i].Key(), s[i].depth, s[j].depth);
      assert NestedAt(s, 0, None, i) && NestedAt(s, 0, None, j);
      if s[i].depth > 0 {
        var pi :| ParentAt(s, pi, i);
        var pj :| ParentAt(s, pj, j);
        if pi < pj {
          TreeIdsDiffer(l, pi, pj);
        }
      }
      assert Siblings(s, i, j) by {
        forall k | i < k < j ensures s[k].depth >= s[i].depth {
          assert NestedAt(s, 0, None, k);
        }
      }
    }
  }

  /** In the flat list, the sections that cover `j` are exactly the sections of
      the proper ancestors of `j`'s group. */
  lemma {:induction false} CoverIsAncestor(l: Listing, i: nat, j: nat)
    requires UniqueIds(l.groups)
    requires i < |Tree(l)| && j < |Tree(l)| && Covers(Tree(l), i, j)
    ensures Descendant(l.groups, Tree(l)[i].Key(), Tree(l)[j].Key())
    decreases j
  {
    var s := Tree(l);
    SubtreeShown(l, None, 0, {}, 0);
    SubtreeNested(l, None, 0, {}, 0);
    assert NestedAt(s, 0, None, j);
    var p :| ParentAt(s, p, j);
    ParentIsChildLink(l.groups, s[j].Key());
    if p == i {
      ChildIsDescendant(l.groups, s[i].Key(), s[j].Key());
    } else {
      assert Covers(s, i, p);
      CoverIsAncestor(l, i, p);
      DescendantStep(l.groups, s[i].Key(), s[p].Key(), s[j].Key());
    }
  }

  lemma {:induction false} AncestorIsCover(l: Listing, i: nat, j: nat)
    requires UniqueIds(l.groups)
    requires i < |Tree(l)| && j < |Tree(l)|
    requires Descendant(l.groups, Tree(l)[i].Key(), Tree(l)[j].Key())
    ensures Covers(Tree(l), i, j)
    decreases j
  {
    var s := Tree(l);
    var m := DescendantParent(l.groups, s[i].Key(), s[j].Key());
    var p := ParentSection(l, j, m);
    if s[p].Key() == s[i].Key() {
      if p < i {
        TreeIdsDiffer(l, p, i);
      } else if i < p {
        TreeIdsDiffer(l, i, p);
      }
    } else {
      AncestorIsCover(l, i, p);
      CoversTransitive(s, i, p, j);
    }
  }

  /** The section of a listed group's parent. */
  lemma ParentSection(l: Listing, j: nat, m: int) returns (p: nat)
    requires UniqueIds(l.groups) && j < |Tree(l)| && ParentOf(l.groups, Tree(l)[j].Key()) == Some(m)
    ensures p < j && Covers(Tree(l), p, j) && Tree(l)[p].Key() == m
  {
    var s := Tree(l);
    SubtreeShown(l, None, 0, {}, 0);
    SubtreeNested(l, None, 0, {}, 0);
    assert ShownSection(l, s[j]) && NestedAt(s, 0, None, j);
    p :| ParentAt(s, p, j);
  }

  /** `build_group_sections` emits a preorder of the parent relation: each shown
      group once, covering exactly its descendants, siblings in list order. */
  lemma TreeIsPreorder(l: Listing)
    requires UniqueIds(l.groups)
    ensures forall i, j :: 0 <= i < j < |Tree(l)| ==> Tree(l)[i].Key() != Tree(l)[j].Key()
    ensures forall i, j :: 0 <= i < |Tree(l)| && 0 <= j < |Tree(l)| ==>
      (Covers(Tree(l), i, j) <==> Descendant(l.groups, Tree(l)[i].Key(), Tree(l)[j].Key()))
    ensures SiblingsOrdered(l.groups, Tree(l))
  {
    var s := Tree(l);
    SubtreeOrdered(l, None, 0, {}, 0);
    forall i, j | 0 <= i < j < |s| ensures s[i].Key() != s[j].Key() {
      TreeIdsDiffer(l, i, j);
    }
    forall i, j | 0 <= i < |s| && 0 <= j < |s|
      ensures Covers(s, i, j) <==> Descendant(l.groups, s[i].Key(), s[j].Key())
    {
      if Covers(s, i, j) {
        CoverIsAncestor(l, i, j);
      }
      if Descendant(l.groups, s[i].Key(), s[j].Key()) {
        AncestorIsCover(l, i, j);
      }
    }
  }

  /** The host belongs to the section's group, or to no group in the bucket. */
  predicate Belongs(hosts: seq<Host>, s: Section, idx: nat) {
    idx < |hosts| && if s.group.Some? then s.group.value.id in hosts[idx].groupIds else hosts[idx].groupIds == []
  }

  /** Every section lists the filtered hosts that belong there, in their order and
      as often as they come. */
  lemma SectionKeepsOrder(l: Listing, j: nat) returns (at: seq<nat>)
    requires UniqueIds(l.groups) && j < |AllSections(l)|
    ensures Picks(l.filtered, AllSections(l)[j].hosts, at)
    ensures forall q: nat :: q < |l.filtered| ==> (q in at <==> Belongs(l.hosts, AllSections(l)[j], l.filtered[q]))
  {
    SubtreeShown(l, None, 0, {}, 0);
    if j < |Tree(l)| {
      var s := Tree(l)[j];
      assert AllSections(l)[j] == s && ShownSection(l, s);
      at := KeepPicks(l.filtered, (idx: nat) => l.In(idx, s.Key()));
    } else {
      at := KeepPicks(l.filtered, (idx: nat) => idx < |l.hosts| && l.hosts[idx].groupIds == []);
    }
  }

  /** Every filtered host is listed under exactly the shown groups it belongs to,
      or in the ungrouped bucket, which is last and at the top level. */
  lemma SectionsPartitionHosts(l: Listing, idx: nat, j: nat)
    requires UniqueIds(l.groups) && j < |AllSections(l)|
    requires idx < |l.hosts| && idx in l.filtered
    ensures var s := AllSections(l)[j];
      idx in s.hosts <==>
        if s.group.Some? then s.group.value.id in l.hosts[idx].groupIds else l.hosts[idx].groupIds == []
    ensures AllSections(l)[j].group.None? ==> j == |Tree(l)| == |AllSections(l)| - 1 && AllSections(l)[j].depth == 0
  {
    TreeListsReached(l, 0);
    assert forall k :: 0 <= k < |Tree(l)| ==> AllSections(l)[k] == Tree(l)[k];
  }
}
