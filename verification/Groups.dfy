/** The group forest behind the host tree: the descendant search and the parent
    choices of the group form (src/app/groups.rs), over rows as the store keeps
    them (src/store/hosts.rs). */
module Groups {
  import opened Wrappers

  datatype Group = Group(id: int, name: string, parent: Option<int>, reserved: bool)

  function Ids(groups: seq<Group>): set<int> {
    set g | g in groups :: g.id
  }

  /** The first group carrying `id`, the lookup every caller uses. */
  function Find(groups: seq<Group>, id: int): (found: Option<Group>)
    ensures found.Some? <==> id in Ids(groups)
    ensures found.Some? ==> found.value in groups && found.value.id == id
  {
    if groups == [] then None
    else if groups[0].id == id then Some(groups[0])
    else
      assert Ids(groups) == {groups[0].id} + Ids(groups[1..]);
      Find(groups[1..], id)
  }

  ghost predicate UniqueIds(groups: seq<Group>) {
    forall i, j :: 0 <= i < j < |groups| ==> groups[i].id != groups[j].id
  }

  lemma FindUnique(groups: seq<Group>, g: Group)
    requires UniqueIds(groups) && g in groups
    ensures Find(groups, g.id) == Some(g)
  {
  }

  function ParentOf(groups: seq<Group>, id: int): Option<int> {
    match Find(groups, id)
    case Some(g) => g.parent
    case None => None
  }

  // ---------- Descendants ----------

  ghost predicate Child(groups: seq<Group>, p: int, c: int) {
    exists g :: g in groups && g.id == c && g.parent == Some(p)
  }

  ghost predicate Path(groups: seq<Group>, p: seq<int>) {
    forall i :: 0 <= i < |p| - 1 ==> Child(groups, p[i], p[i + 1])
  }

  ghost predicate PathFromTo(groups: seq<Group>, p: seq<int>, a: int, x: int) {
    |p| >= 2 && p[0] == a && p[|p| - 1] == x && Path(groups, p)
  }

  /** `x` lies strictly below `a`: some chain of one or more child links leads
      from `a` to `x`. On cyclic data a group can be its own descendant. */
  ghost predicate Descendant(groups: seq<Group>, a: int, x: int) {
    exists p :: PathFromTo(groups, p, a, x)
  }

  lemma ChildIsDescendant(groups: seq<Group>, a: int, x: int)
    requires Child(groups, a, x)
    ensures Descendant(groups, a, x)
  {
    assert PathFromTo(groups, [a, x], a, x);
  }

  lemma DescendantStep(groups: seq<Group>, a: int, m: int, x: int)
    requires Descendant(groups, a, m) && Child(groups, m, x)
    ensures Descendant(groups, a, x)
  {
    var p :| PathFromTo(groups, p, a, m);
    var q := p + [x];
    assert PathFromTo(groups, q, a, x);
  }

  /** The last link of a descendant path, read through the parent pointer. */
  lemma DescendantParent(groups: seq<Group>, a: int, x: int) returns (m: int)
    requires UniqueIds(groups) && Descendant(groups, a, x)
    ensures ParentOf(groups, x) == Some(m)
    ensures m == a || Descendant(groups, a, m)
  {
    var p :| PathFromTo(groups, p, a, x);
    m := p[|p| - 2];
    assert Child(groups, p[|p| - 2], p[|p| - 1]);
    var g :| g in groups && g.id == x && g.parent == Some(m);
    FindUnique(groups, g);
    if |p| > 2 {
      assert PathFromTo(groups, p[..|p| - 1], a, m);
    }
  }

  lemma ParentIsChildLink(groups: seq<Group>, x: int)
    requires ParentOf(groups, x).Some?
    ensures Child(groups, ParentOf(groups, x).value, x)
  {
  }

  /** A set closed under child links that contains the children of `root`
      contains everything below `root`. */
  lemma ClosedContainsDescendants(groups: seq<Group>, root: int, out: set<int>, p: seq<int>)
    requires forall c, x :: (c == root || c in out) && Child(groups, c, x) ==> x in out
    requires |p| >= 2 && p[0] == root && Path(groups, p)
    ensures p[|p| - 1] in out
  {
    assert Child(groups, p[|p| - 2], p[|p| - 1]);
    if |p| > 2 {
      ClosedContainsDescendants(groups, root, out, p[..|p| - 1]);
    }
  }

  /** The worklist search of `group_descendants`. It terminates on any parent
      data and returns the transitive closure of the child relation. */
  method GroupDescendants(groups: seq<Group>, root: int) returns (out: set<int>)
    ensures forall x :: x in out <==> Descendant(groups, root, x)
  {
    out := {};
    var stack := [root];
    while stack != []
      invariant out <= Ids(groups)
      invariant forall x :: x in out ==> Descendant(groups, root, x)
      invariant forall x :: x in stack ==> x == root || x in out
      invariant forall c, x :: (c == root || c in out) && c !in stack && Child(groups, c, x) ==> x in out
      decreases Ids(groups) - out, |stack|
    {
      var cur := stack[|stack| - 1];
      ghost var before, below := out, stack[..|stack| - 1];
      stack := stack[..|stack| - 1];
      for k := 0 to |groups|
        invariant before <= out <= Ids(groups)
        invariant forall x :: x in out ==> Descendant(groups, root, x)
        invariant forall x :: x in stack ==> x == root || x in out
        invariant forall x :: x in out && x !in before ==> x in stack
        invariant forall x :: x in below ==> x in stack
        invariant out == before ==> stack == below
        invariant forall i :: 0 <= i < k && groups[i].parent == Some(cur) ==> groups[i].id in out
      {
        if groups[k].parent == Some(cur) {
          assert Child(groups, cur, groups[k].id);
          if cur == root {
            ChildIsDescendant(groups, root, groups[k].id);
          }
          if cur in out {
            DescendantStep(groups, root, cur, groups[k].id);
          }
          if groups[k].id !in out {
            out := out + {groups[k].id};
            stack := stack + [groups[k].id];
          }
        }
      }
      forall c, x | (c == root || c in out) && c !in stack && Child(groups, c, x)
        ensures x in out
      {
        if c != cur {
          assert c == root || c in before;
          assert c !in below + [cur];
        }
      }
    }
    forall x | Descendant(groups, root, x)
      ensures x in out
    {
      var p :| PathFromTo(groups, p, root, x);
      ClosedContainsDescendants(groups, root, out, p);
    }
  }

  /** What the Parent dropdown may offer for the group being edited, or for a new
      group when `self` is absent. */
  ghost predicate Eligible(groups: seq<Group>, self: Option<int>, x: int) {
    x in Ids(groups) && (self.Some? ==> x != self.value && !Descendant(groups, self.value, x))
  }

  method EligibleParents(groups: seq<Group>, self: Option<int>) returns (parents: seq<int>)
    ensures forall x :: x in parents <==> Eligible(groups, self, x)
  {
    var banned := {};
    if self.Some? {
      banned := GroupDescendants(groups, self.value);
      banned := banned + {self.value};
    }
    parents := [];
    for k := 0 to |groups|
      invariant forall x :: x in parents <==> exists i :: 0 <= i < k && groups[i].id == x && x !in banned
    {
      if groups[k].id !in banned {
        parents := parents + [groups[k].id];
      }
    }
    forall x ensures x in Ids(groups) <==> exists i :: 0 <= i < |groups| && groups[i].id == x {
      if x in Ids(groups) {
        var g :| g in groups && g.id == x;
      }
    }
  }

  // ---------- Acyclic parent relations ----------

  ghost predicate Acyclic(groups: seq<Group>) {
    forall x :: !Descendant(groups, x, x)
  }

  /** Walking up from `id` runs out of parents within `n` links. */
  ghost predicate ChainEnds(groups: seq<Group>, id: int, n: nat)
    decreases n
  {
    match ParentOf(groups, id)
    case None => true
    case Some(p) => n > 0 && ChainEnds(groups, p, n - 1)
  }

  /** Every walk up the parent pointers ends, the property `reveal_host` and the
      DFS rely on. */
  ghost predicate Forest(groups: seq<Group>) {
    forall x :: x in Ids(groups) ==> exists n :: ChainEnds(groups, x, n)
  }

  lemma {:induction false} EndedChainHasNoCycle(groups: seq<Group>, a: int, x: int, n: nat)
    requires UniqueIds(groups) && ChainEnds(groups, x, n)
    requires Descendant(groups, a, a) && (x == a || Descendant(groups, a, x))
    ensures false
    decreases n
  {
    var m := DescendantParent(groups, a, x);
    EndedChainHasNoCycle(groups, a, m, n - 1);
  }

  /** Following parents from `x` while remembering what was passed: the set can
      only grow until the chain ends, or a cycle shows up. */
  lemma {:induction false} AcyclicChainEnds(groups: seq<Group>, x: int, passed: set<int>) returns (n: nat)
    requires UniqueIds(groups) && Acyclic(groups)
    requires passed <= Ids(groups) && x !in passed
    requires forall c :: c in passed ==> Descendant(groups, x, c)
    ensures ChainEnds(groups, x, n)
    decreases Ids(groups) - passed
  {
    match ParentOf(groups, x) {
      case None => n := 0;
      case Some(p) =>
        ParentIsChildLink(groups, x);
        ChildIsDescendant(groups, p, x);
        forall c | c in passed + {x} ensures Descendant(groups, p, c) {
          if c != x {
            var q :| PathFromTo(groups, q, x, c);
            assert PathFromTo(groups, [p] + q, p, c) by {
              forall i | 0 <= i < |[p] + q| - 1 ensures Child(groups, ([p] + q)[i], ([p] + q)[i + 1]) {
                if i > 0 {
                  assert Child(groups, q[i - 1], q[i]);
                }
              }
            }
          }
        }
        assert !Descendant(groups, p, p);
        var m := AcyclicChainEnds(groups, p, passed + {x});
        n := m + 1;
    }
  }

  /** No group is below itself exactly when every parent chain ends. */
  lemma AcyclicIffForest(groups: seq<Group>)
    requires UniqueIds(groups)
    ensures Acyclic(groups) <==> Forest(groups)
  {
    if Acyclic(groups) {
      forall x | x in Ids(groups) ensures exists n :: ChainEnds(groups, x, n) {
        var n := AcyclicChainEnds(groups, x, {});
      }
    }
    if Forest(groups) {
      forall x ensures !Descendant(groups, x, x) {
        if Descendant(groups, x, x) {
          var m := DescendantParent(groups, x, x);
          var n :| ChainEnds(groups, x, n);
          EndedChainHasNoCycle(groups, x, x, n);
        }
      }
    }
  }

  // ---------- Edits ----------

  ghost predicate ParentsExist(groups: seq<Group>) {
    forall g :: g in groups && g.parent.Some? ==> g.parent.value in Ids(groups)
  }

  ghost predicate WellFormed(groups: seq<Group>) {
    UniqueIds(groups) && ParentsExist(groups) && Acyclic(groups)
  }

  /** Saving the group form for a new or an existing group, and deleting one. */
  datatype Edit =
    | Create(id: int, name: string, parent: Option<int>)
    | Save(id: int, name: string, parent: Option<int>)
    | Delete(id: int)

  /** The rows the application keeps in `self.groups`, among which the form looks
      for parents and descendants: all but the reserved ones. */
  function Ordinary(groups: seq<Group>): (kept: seq<Group>)
    ensures forall g :: g in kept <==> g in groups && !g.reserved
  {
    if groups == [] then []
    else
      assert groups == [groups[0]] + groups[1..];
      (if groups[0].reserved then [] else [groups[0]]) + Ordinary(groups[1..])
  }

  /** The edits the form can produce: the store picks an unused id, and a parent
      is "(top level)", an offered row, or the group's present parent. */
  ghost predicate Offered(groups: seq<Group>, e: Edit) {
    match e
    case Create(id, _, parent) =>
      id !in Ids(groups) && (parent.Some? ==> Eligible(Ordinary(groups), None, parent.value))
    case Save(id, _, parent) =>
      && id in Ids(groups)
      && (parent.Some? ==> Eligible(Ordinary(groups), Some(id), parent.value) || parent == ParentOf(groups, id))
    case Delete(_) => true
  }

  /** The parent of an edit is a stored row. */
  ghost predicate Anchored(groups: seq<Group>, e: Edit) {
    match e
    case Create(id, _, parent) => id !in Ids(groups) && (parent.Some? ==> parent.value in Ids(groups))
    case Save(id, _, parent) => id in Ids(groups) && (parent.Some? ==> parent.value in Ids(groups))
    case Delete(_) => true
  }

  /** The parent of a save is neither the row itself nor below it in the store, or
      it is the present one. */
  ghost predicate Sound(groups: seq<Group>, e: Edit) {
    Anchored(groups, e)
    && (e.Save? && e.parent.Some? ==>
          Eligible(groups, Some(e.id), e.parent.value) || e.parent == ParentOf(groups, e.id))
  }

  lemma OfferedIsAnchored(groups: seq<Group>, e: Edit)
    requires UniqueIds(groups) && ParentsExist(groups) && Offered(groups, e)
    ensures Anchored(groups, e)
  {
    if e.Save? && e.parent.Some? && e.parent == ParentOf(groups, e.id) {
      assert Find(groups, e.id).value in groups;
    }
  }

  function Resave(g: Group, e: Edit): Group
    requires e.Save?
  {
    if g.id == e.id && !g.reserved then g.(name := e.name, parent := e.parent) else g
  }

  function Orphan(g: Group, id: int): Group {
    if g.parent == Some(id) then g.(parent := None) else g
  }

  function Without(groups: seq<Group>, id: int): (kept: seq<Group>)
    ensures forall h :: h in kept <==> exists g :: g in groups && h == Orphan(g, id) && (g.id != id || g.reserved)
  {
    if groups == [] then []
    else
      assert groups == [groups[0]] + groups[1..];
      if groups[0].id == id && !groups[0].reserved then Without(groups[1..], id)
      else [Orphan(groups[0], id)] + Without(groups[1..], id)
  }

  lemma {:induction false} WithoutKeepsUnique(groups: seq<Group>, id: int)
    requires UniqueIds(groups)
    ensures UniqueIds(Without(groups, id))
  {
    if groups != [] {
      var rest := Without(groups[1..], id);
      WithoutKeepsUnique(groups[1..], id);
      forall j | 0 <= j < |rest| ensures rest[j].id != groups[0].id {
        assert rest[j] in rest;
        var g :| g in groups[1..] && rest[j] == Orphan(g, id);
        var i :| 0 < i < |groups| && groups[i] == g;
      }
    }
  }

  /** The stored rows after an edit. Reserved rows refuse both a save and a
      delete; deleting a row clears the parent of its children. */
  function Apply(groups: seq<Group>, e: Edit): seq<Group> {
    match e
    case Create(id, name, parent) => groups + [Group(id, name, parent, false)]
    case Save(_, _, _) => seq(|groups|, i requires 0 <= i < |groups| => Resave(groups[i], e))
    case Delete(id) =>
      var g := Find(groups, id);
      if g.Some? && g.value.reserved then groups else Without(groups, id)
  }

  lemma ParentLookup(groups: seq<Group>, x: int, g: Group)
    requires UniqueIds(groups) && g in groups && g.id == x
    ensures ParentOf(groups, x) == g.parent
  {
  }

  lemma FindAppended(groups: seq<Group>, g: Group, x: int)
    requires g.id !in Ids(groups)
    ensures Find(groups + [g], x) == if x == g.id then Some(g) else Find(groups, x)
  {
    if groups != [] {
      assert Ids(groups) == {groups[0].id} + Ids(groups[1..]);
      assert (groups + [g])[1..] == groups[1..] + [g];
      FindAppended(groups[1..], g, x);
    }
  }

  lemma CreateKeepsShape(groups: seq<Group>, e: Edit)
    requires WellFormed(groups) && e.Create? && Anchored(groups, e)
    ensures UniqueIds(Apply(groups, e)) && ParentsExist(Apply(groups, e))
    ensures forall x :: x != e.id ==> ParentOf(Apply(groups, e), x) == ParentOf(groups, x)
    ensures ParentOf(Apply(groups, e), e.id) == e.parent
  {
    var after := Apply(groups, e);
    var added := Group(e.id, e.name, e.parent, false);
    forall x ensures Find(after, x) == if x == e.id then Some(added) else Find(groups, x) {
      FindAppended(groups, added, x);
    }
    forall i | 0 <= i < |groups| ensures groups[i].id in Ids(groups) {
      assert groups[i] in groups;
    }
    forall g | g in after && g.parent.Some? ensures g.parent.value in Ids(after) {
      var p := g.parent.value;
      assert p in Ids(groups) by {
        assert g in groups || g == added;
      }
      assert Find(after, p).Some?;
    }
  }

  lemma FindResaved(groups: seq<Group>, e: Edit, x: int)
    requires e.Save?
    ensures Find(Apply(groups, e), x) ==
      match Find(groups, x) case Some(g) => Some(Resave(g, e)) case None => None
  {
    var after := Apply(groups, e);
    if groups != [] {
      assert after[1..] == Apply(groups[1..], e);
      FindResaved(groups[1..], e, x);
    }
  }

  lemma SaveKeepsShape(groups: seq<Group>, e: Edit)
    requires WellFormed(groups) && e.Save? && Anchored(groups, e)
    ensures UniqueIds(Apply(groups, e)) && ParentsExist(Apply(groups, e))
    ensures forall x :: x != e.id ==> ParentOf(Apply(groups, e), x) == ParentOf(groups, x)
    ensures ParentOf(Apply(groups, e), e.id) in {e.parent, ParentOf(groups, e.id)}
  {
    var after := Apply(groups, e);
    forall x
      ensures x != e.id ==> ParentOf(after, x) == ParentOf(groups, x)
      ensures ParentOf(after, e.id) in {e.parent, ParentOf(groups, e.id)}
    {
      FindResaved(groups, e, x);
      FindResaved(groups, e, e.id);
    }
    forall i | 0 <= i < |after| && after[i].parent.Some? ensures after[i].parent.value in Ids(after) {
      SavedParentExists(groups, e, i);
      FindResaved(groups, e, after[i].parent.value);
    }
  }

  lemma SavedParentExists(groups: seq<Group>, e: Edit, i: nat)
    requires WellFormed(groups) && e.Save? && Anchored(groups, e)
    requires i < |Apply(groups, e)| == |groups| && Apply(groups, e)[i].parent.Some?
    ensures Apply(groups, e)[i].parent.value in Ids(groups)
  {
    if Apply(groups, e)[i] == groups[i] {
      assert groups[i] in groups;
    }
  }

  lemma DeleteKeepsShape(groups: seq<Group>, e: Edit)
    requires WellFormed(groups) && e.Delete?
    ensures UniqueIds(Apply(groups, e)) && ParentsExist(Apply(groups, e))
    ensures forall x :: ParentOf(Apply(groups, e), x) in {None, ParentOf(groups, x)}
  {
    var after := Apply(groups, e);
    if after != groups {
      WithoutKeepsUnique(groups, e.id);
      forall h | h in after && h.parent.Some? ensures h.parent.value in Ids(after) {
        var g :| g in groups && h == Orphan(g, e.id);
        var up :| up in groups && up.id == g.parent.value;
        assert Orphan(up, e.id) in after && Orphan(up, e.id).id == h.parent.value;
      }
      forall x | x in Ids(after) ensures ParentOf(after, x) in {None, ParentOf(groups, x)} {
        var h :| h in after && h.id == x;
        var g :| g in groups && h == Orphan(g, e.id);
        ParentLookup(after, x, h);
        ParentLookup(groups, x, g);
      }
    }
  }

  /** A delete takes the row away and clears the parent of its children; every other
      row is as it was. A reserved row stays. */
  lemma DeleteFreesChildren(groups: seq<Group>, id: int, x: int)
    requires UniqueIds(groups) && id in Ids(groups) && x in Ids(groups)
    ensures var g, after := Find(groups, x).value, Apply(groups, Delete(id));
            if Find(groups, id).value.reserved then after == groups
            else if x == id then Find(after, x) == None
            else Find(after, x) == Some(if g.parent == Some(id) then g.(parent := None) else g)
  {
    if !Find(groups, id).value.reserved {
      WithoutKeepsUnique(groups, id);
      if x == id {
        DeletedIsGone(groups, id);
      } else {
        var g := Find(groups, x).value;
        assert Orphan(g, id) in Without(groups, id);
        FindUnique(Without(groups, id), Orphan(g, id));
      }
    }
  }

  lemma DeletedIsGone(groups: seq<Group>, id: int)
    requires UniqueIds(groups) && id in Ids(groups) && !Find(groups, id).value.reserved
    ensures id !in Ids(Without(groups, id))
  {
    forall h | h in Without(groups, id) ensures h.id != id {
      var g :| g in groups && h == Orphan(g, id) && (g.id != id || g.reserved);
      FindUnique(groups, g);
    }
  }

  /** A save gives an unreserved row its new name and parent and changes no other. */
  lemma SaveChangesOneRow(groups: seq<Group>, id: int, name: string, parent: Option<int>, x: int)
    requires UniqueIds(groups) && x in Ids(groups)
    ensures var g := Find(groups, x).value;
            Find(Apply(groups, Save(id, name, parent)), x) ==
            Some(if x == id && !g.reserved then Group(id, name, parent, false) else g)
  {
    FindResaved(groups, Save(id, name, parent), x);
  }

  /** A create adds an unreserved row and changes none. */
  lemma CreateAddsOneRow(groups: seq<Group>, id: int, name: string, parent: Option<int>, x: int)
    requires id !in Ids(groups)
    ensures Find(Apply(groups, Create(id, name, parent)), x) ==
      if x == id then Some(Group(id, name, parent, false)) else Find(groups, x)
  {
    FindAppended(groups, Group(id, name, parent, false), x);
  }

  /** Chains that avoid `id` are untouched by moving `id`. */
  lemma {:induction false} EndsAvoiding(groups: seq<Group>, after: seq<Group>, id: int, x: int, n: nat)
    requires forall y :: y != id ==> ParentOf(after, y) == ParentOf(groups, y)
    requires x != id && !Descendant(groups, id, x) && ChainEnds(groups, x, n)
    ensures ChainEnds(after, x, n)
    decreases n
  {
    if ParentOf(groups, x).Some? {
      var p := ParentOf(groups, x).value;
      ParentIsChildLink(groups, x);
      if p == id {
        ChildIsDescendant(groups, id, x);
      } else {
        if Descendant(groups, id, p) {
          DescendantStep(groups, id, p, x);
        }
        EndsAvoiding(groups, after, id, p, n - 1);
      }
    }
  }

  /** After moving `id` under a parent whose own chain ends, every chain ends. */
  lemma {:induction false} EndsAfterMove(groups: seq<Group>, after: seq<Group>, id: int, top: nat, x: int, n: nat)
    returns (m: nat)
    requires forall y :: y != id ==> ParentOf(after, y) == ParentOf(groups, y)
    requires ParentOf(after, id).Some? ==> ChainEnds(after, ParentOf(after, id).value, top)
    requires ChainEnds(groups, x, n)
    ensures ChainEnds(after, x, m)
    decreases n
  {
    if x == id {
      m := top + 1;
    } else if ParentOf(groups, x).Some? {
      m := EndsAfterMove(groups, after, id, top, ParentOf(groups, x).value, n - 1);
      m := m + 1;
    } else {
      m := 0;
    }
  }

  lemma {:induction false} EndsAfterCut(groups: seq<Group>, after: seq<Group>, x: int, n: nat)
    requires forall y :: ParentOf(after, y) in {None, ParentOf(groups, y)}
    requires ChainEnds(groups, x, n)
    ensures ChainEnds(after, x, n)
    decreases n
  {
    if ParentOf(after, x).Some? {
      EndsAfterCut(groups, after, ParentOf(groups, x).value, n - 1);
    }
  }

  /** The old chain of every id ends, known ids and unknown ones alike. */
  lemma SomeChainEnds(groups: seq<Group>, x: int) returns (n: nat)
    requires UniqueIds(groups) && Forest(groups)
    ensures ChainEnds(groups, x, n)
  {
    if x in Ids(groups) {
      n :| ChainEnds(groups, x, n);
    } else {
      n := 0;
    }
  }

  /** The chain of the parent a create or a save installs ends in the new rows. */
  lemma NewParentEnds(groups: seq<Group>, e: Edit) returns (top: nat)
    requires WellFormed(groups) && Forest(groups) && !e.Delete? && Sound(groups, e)
    requires forall y :: y != e.id ==> ParentOf(Apply(groups, e), y) == ParentOf(groups, y)
    requires ParentOf(Apply(groups, e), e.id) in {e.parent, ParentOf(groups, e.id)}
    ensures var q := ParentOf(Apply(groups, e), e.id); q.Some? ==> ChainEnds(Apply(groups, e), q.value, top)
  {
    var q := ParentOf(Apply(groups, e), e.id);
    top := 0;
    if q.Some? {
      top := SomeChainEnds(groups, q.value);
      if Descendant(groups, e.id, q.value) || q.value == e.id {
        if e.Create? {
          if Descendant(groups, e.id, q.value) {
            DescendantNeedsRoot(groups, e.id, q.value);
          }
        } else {
          assert q == ParentOf(groups, e.id);
          ParentIsChildLink(groups, e.id);
          if q.value == e.id {
            ChildIsDescendant(groups, e.id, e.id);
          } else {
            DescendantStep(groups, e.id, q.value, e.id);
          }
        }
      }
      EndsAvoiding(groups, Apply(groups, e), e.id, q.value, top);
    }
  }

  /** Nothing is below an id that no row carries. */
  lemma DescendantNeedsRoot(groups: seq<Group>, a: int, x: int)
    requires ParentsExist(groups) && Descendant(groups, a, x)
    ensures a in Ids(groups)
  {
    var p :| PathFromTo(groups, p, a, x);
    assert Child(groups, p[0], p[1]);
  }

  /** A sound edit keeps the rows well formed. */
  lemma SoundEditKeepsWellFormed(groups: seq<Group>, e: Edit)
    requires WellFormed(groups) && Sound(groups, e)
    ensures WellFormed(Apply(groups, e))
  {
    var after := Apply(groups, e);
    AcyclicIffForest(groups);
    if e.Delete? {
      DeleteKeepsShape(groups, e);
      forall x | x in Ids(after) ensures exists n :: ChainEnds(after, x, n) {
        var n := SomeChainEnds(groups, x);
        EndsAfterCut(groups, after, x, n);
      }
    } else {
      if e.Create? {
        CreateKeepsShape(groups, e);
      } else {
        SaveKeepsShape(groups, e);
      }
      var top := NewParentEnds(groups, e);
      forall x | x in Ids(after) ensures exists n :: ChainEnds(after, x, n) {
        var n := SomeChainEnds(groups, x);
        var m := EndsAfterMove(groups, after, e.id, top, x, n);
      }
    }
    AcyclicIffForest(after);
  }

  // ---------- What the form does not see ----------

  /** A reserved row stands between `id` and a row below it. */
  ghost predicate PassesReserved(groups: seq<Group>, id: int, x: int) {
    exists f :: f in groups && f.reserved && Descendant(groups, id, f.id) && Descendant(groups, f.id, x)
  }

  lemma DescendantJoin(groups: seq<Group>, a: int, m: int, x: int)
    requires Descendant(groups, a, m) && Descendant(groups, m, x)
    ensures Descendant(groups, a, x)
  {
    var p :| PathFromTo(groups, p, a, m);
    var q :| PathFromTo(groups, q, m, x);
    var r := p + q[1..];
    forall i | 0 <= i < |r| - 1 ensures Child(groups, r[i], r[i + 1]) {
      if i < |p| - 1 {
        assert Child(groups, p[i], p[i + 1]);
      } else {
        assert Child(groups, q[i - (|p| - 1)], q[i - (|p| - 1) + 1]);
      }
    }
    assert PathFromTo(groups, r, a, x);
  }

  lemma PathLeads(groups: seq<Group>, p: seq<int>, i: nat)
    requires |p| >= 2 && Path(groups, p) && i < |p| - 1
    ensures Descendant(groups, p[i], p[|p| - 1])
  {
    forall k | 0 <= k < |p[i..]| - 1 ensures Child(groups, p[i..][k], p[i..][k + 1]) {
      assert Child(groups, p[i + k], p[i + k + 1]);
    }
    assert PathFromTo(groups, p[i..], p[i], p[|p| - 1]);
  }

  /** What lies below a row does so by ordinary rows alone, where the form sees it,
      or past a reserved one. */
  lemma BelowSplits(groups: seq<Group>, id: int, x: int)
    requires UniqueIds(groups) && x in Ids(Ordinary(groups))
    ensures Descendant(groups, id, x) <==> Descendant(Ordinary(groups), id, x) || PassesReserved(groups, id, x)
  {
    if Descendant(Ordinary(groups), id, x) {
      var p :| PathFromTo(Ordinary(groups), p, id, x);
      forall i | 0 <= i < |p| - 1 ensures Child(groups, p[i], p[i + 1]) {
        assert Child(Ordinary(groups), p[i], p[i + 1]);
      }
      assert PathFromTo(groups, p, id, x);
    }
    if PassesReserved(groups, id, x) {
      var f :| f in groups && f.reserved && Descendant(groups, id, f.id) && Descendant(groups, f.id, x);
      DescendantJoin(groups, id, f.id, x);
    }
    if Descendant(groups, id, x) && !PassesReserved(groups, id, x) {
      var p :| PathFromTo(groups, p, id, x);
      forall i | 0 <= i < |p| - 1 ensures Child(Ordinary(groups), p[i], p[i + 1]) {
        OrdinaryLink(groups, p, i);
      }
      assert PathFromTo(Ordinary(groups), p, id, x);
    }
  }

  lemma OrdinaryLink(groups: seq<Group>, p: seq<int>, i: nat)
    requires UniqueIds(groups) && |p| >= 2 && Path(groups, p) && i < |p| - 1
    requires p[|p| - 1] in Ids(Ordinary(groups)) && !PassesReserved(groups, p[0], p[|p| - 1])
    ensures Child(Ordinary(groups), p[i], p[i + 1])
  {
    assert Child(groups, p[i], p[i + 1]);
    var g :| g in groups && g.id == p[i + 1] && g.parent == Some(p[i]);
    PathDescends(groups, p, i + 1);
    if i + 1 < |p| - 1 {
      PathLeads(groups, p, i + 1);
    } else {
      var last :| last in Ordinary(groups) && last.id == p[i + 1];
      FindUnique(groups, g);
      FindUnique(groups, last);
    }
    assert !g.reserved;
  }

  /** The one save of the form that goes wrong: the row it moves, the reserved row
      below it, and the offered parent below that. */
  ghost predicate ClosesCycle(groups: seq<Group>, e: Edit) {
    && e.Save? && e.parent.Some? && e.id in Ids(groups) && !Find(groups, e.id).value.reserved
    && PassesReserved(groups, e.id, e.parent.value)
  }

  /** An edit of the form keeps ids unique and parents existing, and keeps the rows
      acyclic unless the chosen parent is below the row by way of a reserved one. */
  lemma EditKeepsWellFormed(groups: seq<Group>, e: Edit)
    requires WellFormed(groups) && Offered(groups, e)
    ensures UniqueIds(Apply(groups, e)) && ParentsExist(Apply(groups, e))
    ensures WellFormed(Apply(groups, e)) <==> !ClosesCycle(groups, e)
  {
    OfferedIsAnchored(groups, e);
    if !e.Save? {
      SoundEditKeepsWellFormed(groups, e);
    } else {
      SaveKeepsShape(groups, e);
      if Find(groups, e.id).value.reserved {
        ReservedRefuses(groups, e);
      } else if e.parent.None? {
        SoundEditKeepsWellFormed(groups, e);
      } else {
        OfferedSave(groups, e);
      }
    }
  }

  lemma ReservedRefuses(groups: seq<Group>, e: Edit)
    requires UniqueIds(groups) && e.Save? && e.id in Ids(groups) && Find(groups, e.id).value.reserved
    ensures Apply(groups, e) == groups
  {
    forall i | 0 <= i < |groups| ensures Resave(groups[i], e) == groups[i] {
      FindUnique(groups, groups[i]);
    }
  }

  lemma OfferedSave(groups: seq<Group>, e: Edit)
    requires WellFormed(groups) && Offered(groups, e) && e.Save? && e.parent.Some? && Anchored(groups, e)
    requires !Find(groups, e.id).value.reserved
    ensures WellFormed(Apply(groups, e)) <==> !ClosesCycle(groups, e)
  {
    var p := e.parent.value;
    if e.parent == ParentOf(groups, e.id) {
      ParentIsChildLink(groups, e.id);
      if ClosesCycle(groups, e) {
        PassesMeansBelow(groups, e.id, p);
        DescendantStep(groups, e.id, p, e.id);
      }
      SoundEditKeepsWellFormed(groups, e);
    } else {
      assert p in Ids(Ordinary(groups));
      SafeParent(groups, e.id, e.name, p);
      BelowSplits(groups, e.id, p);
      if Acyclic(Apply(groups, e)) {
        SaveKeepsShape(groups, e);
      }
    }
  }

  lemma PassesMeansBelow(groups: seq<Group>, id: int, x: int)
    requires PassesReserved(groups, id, x)
    ensures Descendant(groups, id, x)
  {
    var f :| f in groups && f.reserved && Descendant(groups, id, f.id) && Descendant(groups, f.id, x);
    DescendantJoin(groups, id, f.id, x);
  }

  function ApplyAll(groups: seq<Group>, edits: seq<Edit>): seq<Group>
    decreases |edits|
  {
    if edits == [] then groups else ApplyAll(Apply(groups, edits[0]), edits[1..])
  }

  /** Every edit is among those offered at the moment it is made. */
  ghost predicate AllOffered(groups: seq<Group>, edits: seq<Edit>)
    decreases |edits|
  {
    edits == [] || (Offered(groups, edits[0]) && AllOffered(Apply(groups, edits[0]), edits[1..]))
  }

  /** The rows are well formed before, between and after the edits. */
  ghost predicate StaysWellFormed(groups: seq<Group>, edits: seq<Edit>)
    decreases |edits|
  {
    WellFormed(groups) && (edits == [] || StaysWellFormed(Apply(groups, edits[0]), edits[1..]))
  }

  ghost predicate NeverClosesCycle(groups: seq<Group>, edits: seq<Edit>)
    decreases |edits|
  {
    edits == [] || (!ClosesCycle(groups, edits[0]) && NeverClosesCycle(Apply(groups, edits[0]), edits[1..]))
  }

  /** Over every sequence of edits of the form the rows stay acyclic, with unique
      ids and no dangling parent, exactly as long as no save goes past a reserved
      row. */
  lemma {:induction false} EditsKeepWellFormed(groups: seq<Group>, edits: seq<Edit>)
    requires WellFormed(groups) && AllOffered(groups, edits)
    ensures StaysWellFormed(groups, edits) <==> NeverClosesCycle(groups, edits)
    decreases |edits|
  {
    if edits != [] {
      EditKeepsWellFormed(groups, edits[0]);
      if WellFormed(Apply(groups, edits[0])) {
        EditsKeepWellFormed(Apply(groups, edits[0]), edits[1..]);
      } else {
        assert !StaysWellFormed(Apply(groups, edits[0]), edits[1..]);
      }
    }
  }

  ghost predicate ReservedAreRoots(groups: seq<Group>) {
    forall g :: g in groups && g.reserved ==> g.parent.None?
  }

  /** The form alone never does so: with the reserved rows at the top level, where
      it leaves them, every sequence of its edits keeps the rows well formed. */
  lemma {:induction false} RootedReservedIsSafe(groups: seq<Group>, edits: seq<Edit>)
    requires WellFormed(groups) && AllOffered(groups, edits) && ReservedAreRoots(groups)
    ensures StaysWellFormed(groups, edits) && ReservedAreRoots(ApplyAll(groups, edits))
    decreases |edits|
  {
    if edits != [] {
      EditKeepsWellFormed(groups, edits[0]);
      forall f | f in groups && f.reserved ensures !Descendant(groups, edits[0].id, f.id) {
        FindUnique(groups, f);
        if Descendant(groups, edits[0].id, f.id) {
          var up := DescendantParent(groups, edits[0].id, f.id);
        }
      }
      EditKeepsReservedRoots(groups, edits[0]);
      RootedReservedIsSafe(Apply(groups, edits[0]), edits[1..]);
    }
  }

  lemma EditKeepsReservedRoots(groups: seq<Group>, e: Edit)
    requires ReservedAreRoots(groups)
    ensures ReservedAreRoots(Apply(groups, e))
  {
  }

  /** A save that hangs an existing, unreserved group under an existing group keeps
      the relation acyclic exactly when that one is neither the group nor below it. */
  lemma SafeParent(groups: seq<Group>, id: int, name: string, parent: int)
    requires WellFormed(groups) && id in Ids(groups) && parent in Ids(groups)
    requires !Find(groups, id).value.reserved
    ensures Acyclic(Apply(groups, Save(id, name, Some(parent)))) <==> Eligible(groups, Some(id), parent)
  {
    var e := Save(id, name, Some(parent));
    var after := Apply(groups, e);
    if Eligible(groups, Some(id), parent) {
      SoundEditKeepsWellFormed(groups, e);
    } else {
      var g := Find(groups, id).value;
      var i :| 0 <= i < |groups| && groups[i] == g;
      assert after[i] == g.(name := name, parent := Some(parent)) && after[i] in after;
      assert Child(after, parent, id);
      ChildIsDescendant(after, parent, id);
      if parent != id {
        var p :| PathFromTo(groups, p, id, parent);
        PathSurvivesMove(groups, e, p);
        DescendantStep(after, id, parent, id);
      }
    }
  }

  /** The form offers every ordinary parent that is safe, and of those it offers
      exactly the ones past a reserved row are not. */
  lemma OnlyEligibleParentsAreSafe(groups: seq<Group>, id: int, name: string, parent: int)
    requires WellFormed(groups) && id in Ids(groups) && parent in Ids(Ordinary(groups))
    requires !Find(groups, id).value.reserved
    ensures Acyclic(Apply(groups, Save(id, name, Some(parent)))) <==>
      Eligible(Ordinary(groups), Some(id), parent) && !PassesReserved(groups, id, parent)
  {
    SafeParent(groups, id, name, parent);
    BelowSplits(groups, id, parent);
    if PassesReserved(groups, id, id) {
      PassesMeansBelow(groups, id, id);
    }
  }

  /** Favorites below Work, and Sub below Favorites. */
  const NESTED := [Group(1, "Favorites", Some(2), true), Group(2, "Work", None, false), Group(3, "Sub", Some(1), false)]

  lemma NestedIsWellFormed()
    ensures WellFormed(NESTED)
  {
    NestedChainsEnd();
    assert NESTED[0] in NESTED && NESTED[1] in NESTED;
    AcyclicIffForest(NESTED);
  }

  lemma NestedChainsEnd()
    ensures ChainEnds(NESTED, 2, 0) && ChainEnds(NESTED, 1, 1) && ChainEnds(NESTED, 3, 2)
  {
    assert ParentOf(NESTED, 2) == None && ParentOf(NESTED, 1) == Some(2) && ParentOf(NESTED, 3) == Some(1);
  }

  lemma SubPassesFavorites()
    ensures PassesReserved(NESTED, 2, 3)
  {
    assert NESTED[0] in NESTED && NESTED[2] in NESTED;
    assert Child(NESTED, 2, 1) && Child(NESTED, 1, 3);
    ChildIsDescendant(NESTED, 2, 1);
    ChildIsDescendant(NESTED, 1, 3);
  }

  /** The first link of a descendant path. */
  lemma DescendantChild(groups: seq<Group>, a: int, x: int) returns (c: int)
    requires Descendant(groups, a, x)
    ensures Child(groups, a, c)
  {
    var p :| PathFromTo(groups, p, a, x);
    c := p[1];
    assert Child(groups, p[0], p[1]);
  }

  lemma SubIsOffered()
    ensures Eligible(Ordinary(NESTED), Some(2), 3)
  {
    assert NESTED[2] in Ordinary(NESTED);
    forall g | g in Ordinary(NESTED) ensures g.parent != Some(2) {
    }
    if Descendant(Ordinary(NESTED), 2, 3) {
      var c := DescendantChild(Ordinary(NESTED), 2, 3);
    }
  }

  /** There Sub is offered as the parent of Work, and saving it closes a cycle. */
  lemma FormClosesCycle()
    ensures var e := Save(2, "Work", Some(3));
            WellFormed(NESTED) && Offered(NESTED, e) && ClosesCycle(NESTED, e) && !Acyclic(Apply(NESTED, e))
  {
    NestedIsWellFormed();
    SubPassesFavorites();
    SubIsOffered();
    EditKeepsWellFormed(NESTED, Save(2, "Work", Some(3)));
  }

  lemma PathDescends(groups: seq<Group>, p: seq<int>, i: nat)
    requires |p| >= 2 && Path(groups, p) && 0 < i < |p|
    ensures Descendant(groups, p[0], p[i])
  {
    assert PathFromTo(groups, p[..i + 1], p[0], p[i]);
  }

  /** In acyclic rows a path starting at `id` never comes back to it, so moving
      `id` leaves the path in place. */
  lemma PathSurvivesMove(groups: seq<Group>, e: Edit, p: seq<int>)
    requires WellFormed(groups) && e.Save? && |p| >= 2 && Path(groups, p) && p[0] == e.id
    ensures PathFromTo(Apply(groups, e), p, e.id, p[|p| - 1])
  {
    var after := Apply(groups, e);
    forall i | 0 <= i < |p| - 1 ensures Child(after, p[i], p[i + 1]) {
      assert Child(groups, p[i], p[i + 1]);
      PathDescends(groups, p, i + 1);
      assert !Descendant(groups, e.id, e.id);
      var g :| g in groups && g.id == p[i + 1] && g.parent == Some(p[i]);
      var k :| 0 <= k < |groups| && groups[k] == g;
      assert after[k] == g;
    }
  }
}
