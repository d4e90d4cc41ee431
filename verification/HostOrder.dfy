/** The order of the host list (sort_host_indices and compare_hosts in
    src/app/util.rs): a comparison per sort mode, and the stable sort by it. */
module HostOrder {
  import opened Wrappers
  import opened Sections

  datatype SortMode = Label | LastConnected | FavoriteFirst | GroupThenLabel | Manual

  datatype Ordering = Less | Equal | Greater
  {
    function Then(next: Ordering): Ordering {
      if this == Equal then next else this
    }
  }

  function CompareInt(a: int, b: int): Ordering {
    if a < b then Less else if a == b then Equal else Greater
  }

  function CompareText(a: string, b: string): Ordering {
    if a == "" || b == "" then CompareInt(|a|, |b|)
    else CompareInt(a[0] as int, b[0] as int).Then(CompareText(a[1..], b[1..]))
  }

  function CompareLabel(a: Host, b: Host): Ordering {
    CompareText(a.keys.display, b.keys.display)
  }

  function CompareHosts(a: Host, b: Host, mode: SortMode): Ordering {
    match mode
    case Label => CompareLabel(a, b)
    case LastConnected =>
      (match (b.keys.lastConnected, a.keys.lastConnected)
       case (Some(x), Some(y)) => CompareInt(x, y)
       case (Some(_), None) => Less
       case (None, Some(_)) => Greater
       case (None, None) => CompareLabel(a, b))
    case FavoriteFirst =>
      if a.keys.favorite && !b.keys.favorite then Less
      else if !a.keys.favorite && b.keys.favorite then Greater
      else CompareLabel(a, b)
    case GroupThenLabel => CompareText(a.keys.groupKey, b.keys.groupKey).Then(CompareLabel(a, b))
    case Manual => CompareInt(a.keys.sortOrder, b.keys.sortOrder).Then(CompareText(a.name, b.name))
  }

  // ---------- The comparison is a total preorder ----------

  /** `a` comes before `b` as text: they agree up to some place, where `a` ends or
      has the smaller character. */
  ghost predicate TextBefore(a: string, b: string) {
    exists k: nat :: DiffersAt(a, b, k)
  }

  ghost predicate DiffersAt(a: string, b: string, k: nat) {
    k <= |a| && k < |b| && a[..k] == b[..k] && (k == |a| || a[k] < b[k])
  }

  lemma {:induction false} CompareTextMeans(a: string, b: string)
    ensures CompareText(a, b) == Less <==> TextBefore(a, b)
    ensures CompareText(a, b) == Equal <==> a == b
  {
    if a == "" || b == "" {
      assert b != "" && a == "" ==> DiffersAt(a, b, 0);
    } else {
      CompareTextMeans(a[1..], b[1..]);
      if a[0] == b[0] {
        TextBeforeSkips(a, b);
        assert a == [a[0]] + a[1..] && b == [b[0]] + b[1..];
      } else {
        assert a[0] < b[0] ==> DiffersAt(a, b, 0);
        if k: nat :| DiffersAt(a, b, k) {
          SameStart(a, b, k);
        }
      }
    }
  }

  lemma SameStart(a: string, b: string, k: nat)
    requires DiffersAt(a, b, k)
    ensures k > 0 ==> a[0] == b[0]
  {
    if k > 0 {
      assert a[..k][0] == a[0] && b[..k][0] == b[0];
    }
  }

  lemma TextBeforeSkips(a: string, b: string)
    requires a != "" && b != "" && a[0] == b[0]
    ensures TextBefore(a, b) <==> TextBefore(a[1..], b[1..])
  {
    if k: nat :| DiffersAt(a, b, k) {
      assert k > 0 && a[1..][..k - 1] == a[..k][1..] && b[1..][..k - 1] == b[..k][1..];
      assert DiffersAt(a[1..], b[1..], k - 1);
    }
    if k: nat :| DiffersAt(a[1..], b[1..], k) {
      assert a[..k + 1] == [a[0]] + a[1..][..k] && b[..k + 1] == [b[0]] + b[1..][..k];
      assert DiffersAt(a, b, k + 1);
    }
  }

  function Reverse(o: Ordering): Ordering {
    match o case Less => Greater case Equal => Equal case Greater => Less
  }

  lemma {:induction false} CompareTextReverses(a: string, b: string)
    ensures CompareText(b, a) == Reverse(CompareText(a, b))
  {
    if a != "" && b != "" {
      CompareTextReverses(a[1..], b[1..]);
    }
  }

  lemma {:induction false} CompareTextJoins(a: string, b: string, c: string)
    requires CompareText(a, b) != Greater && CompareText(b, c) != Greater
    ensures CompareText(a, c) != Greater
    ensures CompareText(a, c) == Equal ==> CompareText(a, b) == Equal && CompareText(b, c) == Equal
  {
    if a != "" && b != "" && c != "" {
      if a[0] == b[0] == c[0] {
        CompareTextJoins(a[1..], b[1..], c[1..]);
      }
    }
  }

  lemma ComparisonReverses(a: Host, b: Host, mode: SortMode)
    ensures CompareHosts(b, a, mode) == Reverse(CompareHosts(a, b, mode))
  {
    CompareTextReverses(a.keys.display, b.keys.display);
    CompareTextReverses(a.keys.groupKey, b.keys.groupKey);
    CompareTextReverses(a.name, b.name);
  }

  /** What sorting asks of the comparison, in every mode. */
  lemma ComparisonJoins(a: Host, b: Host, c: Host, mode: SortMode)
    requires CompareHosts(a, b, mode) != Greater && CompareHosts(b, c, mode) != Greater
    ensures CompareHosts(a, c, mode) != Greater
    ensures CompareHosts(a, c, mode) == Equal ==>
      CompareHosts(a, b, mode) == Equal && CompareHosts(b, c, mode) == Equal
  {
    if CompareLabel(a, b) != Greater && CompareLabel(b, c) != Greater {
      CompareTextJoins(a.keys.display, b.keys.display, c.keys.display);
    }
    if mode == GroupThenLabel {
      CompareTextJoins(a.keys.groupKey, b.keys.groupKey, c.keys.groupKey);
    }
    if mode == Manual && CompareText(a.name, b.name) != Greater && CompareText(b.name, c.name) != Greater {
      CompareTextJoins(a.name, b.name, c.name);
    }
  }

  /** What each mode puts first. */
  ghost predicate ComesFirst(a: Host, b: Host, mode: SortMode) {
    var byLabel := TextBefore(a.keys.display, b.keys.display);
    match mode
    case Label => byLabel
    case LastConnected =>
      if a.keys.lastConnected.Some? && b.keys.lastConnected.Some?
      then a.keys.lastConnected.value > b.keys.lastConnected.value
      else a.keys.lastConnected.None? && (b.keys.lastConnected.Some? || byLabel)
    case FavoriteFirst => (a.keys.favorite && !b.keys.favorite) || (a.keys.favorite == b.keys.favorite && byLabel)
    case GroupThenLabel =>
      TextBefore(a.keys.groupKey, b.keys.groupKey) || (a.keys.groupKey == b.keys.groupKey && byLabel)
    case Manual =>
      a.keys.sortOrder < b.keys.sortOrder || (a.keys.sortOrder == b.keys.sortOrder && TextBefore(a.name, b.name))
  }

  lemma LessComesFirst(a: Host, b: Host, mode: SortMode)
    ensures CompareHosts(a, b, mode) == Less <==> ComesFirst(a, b, mode)
  {
    CompareTextMeans(a.keys.display, b.keys.display);
    CompareTextMeans(a.keys.groupKey, b.keys.groupKey);
    CompareTextMeans(a.name, b.name);
  }

  // ---------- The stable sort ----------

  predicate InRange(hosts: seq<Host>, s: seq<nat>) {
    forall i :: 0 <= i < |s| ==> s[i] < |hosts|
  }

  /** Ahead of whatever is not smaller. */
  function Insert(hosts: seq<Host>, x: nat, s: seq<nat>, mode: SortMode): (r: seq<nat>)
    requires x < |hosts| && InRange(hosts, s)
    ensures InRange(hosts, r)
  {
    if s == [] || CompareHosts(hosts[s[0]], hosts[x], mode) != Less then [x] + s
    else
      var rest := Insert(hosts, x, s[1..], mode);
      [s[0]] + rest
  }

  /** sort_host_indices: `sort_by` keeps equal elements in their order. */
  function SortHosts(hosts: seq<Host>, s: seq<nat>, mode: SortMode): (r: seq<nat>)
    requires InRange(hosts, s)
    ensures InRange(hosts, r)
  {
    if s == [] then [] else Insert(hosts, s[0], SortHosts(hosts, s[1..], mode), mode)
  }

  lemma {:induction false} InsertAdds(hosts: seq<Host>, x: nat, s: seq<nat>, mode: SortMode)
    requires x < |hosts| && InRange(hosts, s)
    ensures multiset(Insert(hosts, x, s, mode)) == multiset(s) + multiset{x}
  {
    if s != [] && CompareHosts(hosts[s[0]], hosts[x], mode) == Less {
      InsertAdds(hosts, x, s[1..], mode);
      FirstOf(s);
    }
  }

  /** Sorting loses and doubles nothing. */
  lemma {:induction false} SortPermutes(hosts: seq<Host>, s: seq<nat>, mode: SortMode)
    requires InRange(hosts, s)
    ensures multiset(SortHosts(hosts, s, mode)) == multiset(s)
  {
    if s != [] {
      SortPermutes(hosts, s[1..], mode);
      InsertAdds(hosts, s[0], SortHosts(hosts, s[1..], mode), mode);
      FirstOf(s);
    }
  }

  lemma FirstOf(s: seq<nat>)
    requires s != []
    ensures multiset(s) == multiset(s[1..]) + multiset{s[0]}
  {
    assert s == [s[0]] + s[1..];
  }

  ghost predicate InOrder(hosts: seq<Host>, s: seq<nat>, mode: SortMode)
    requires InRange(hosts, s)
  {
    forall i, j :: 0 <= i < j < |s| ==> CompareHosts(hosts[s[i]], hosts[s[j]], mode) != Greater
  }

  lemma {:induction false} InsertOrders(hosts: seq<Host>, x: nat, s: seq<nat>, mode: SortMode)
    requires x < |hosts| && InRange(hosts, s) && InOrder(hosts, s, mode)
    ensures InOrder(hosts, Insert(hosts, x, s, mode), mode)
    ensures forall y :: y in Insert(hosts, x, s, mode) <==> y == x || y in s
  {
    if s != [] {
      ComparisonReverses(hosts[s[0]], hosts[x], mode);
      if CompareHosts(hosts[s[0]], hosts[x], mode) == Less {
        var rest := Insert(hosts, x, s[1..], mode);
        InsertOrders(hosts, x, s[1..], mode);
        forall j | 0 <= j < |rest| ensures CompareHosts(hosts[s[0]], hosts[rest[j]], mode) != Greater {
          assert rest[j] in rest;
        }
        assert s == [s[0]] + s[1..];
      } else {
        forall j | 0 <= j < |s| ensures CompareHosts(hosts[x], hosts[s[j]], mode) != Greater {
          if j > 0 {
            ComparisonJoins(hosts[x], hosts[s[0]], hosts[s[j]], mode);
          }
        }
      }
    }
  }

  lemma {:induction false} SortOrders(hosts: seq<Host>, s: seq<nat>, mode: SortMode)
    requires InRange(hosts, s)
    ensures InOrder(hosts, SortHosts(hosts, s, mode), mode)
  {
    if s != [] {
      SortOrders(hosts, s[1..], mode);
      InsertOrders(hosts, s[0], SortHosts(hosts, s[1..], mode), mode);
    }
  }

  /** Nothing stands behind what it should precede. */
  lemma SortedByMode(hosts: seq<Host>, s: seq<nat>, mode: SortMode, i: nat, j: nat)
    requires InRange(hosts, s) && i < j < |SortHosts(hosts, s, mode)|
    ensures var r := SortHosts(hosts, s, mode); !ComesFirst(hosts[r[j]], hosts[r[i]], mode)
  {
    var r := SortHosts(hosts, s, mode);
    SortOrders(hosts, s, mode);
    ComparisonReverses(hosts[r[i]], hosts[r[j]], mode);
    LessComesFirst(hosts[r[j]], hosts[r[i]], mode);
  }

  /** The hosts of one rank with `x`. */
  function Ties(hosts: seq<Host>, s: seq<nat>, x: nat, mode: SortMode): seq<nat>
    requires x < |hosts|
  {
    Keep(s, (y: nat) => y < |hosts| && CompareHosts(hosts[y], hosts[x], mode) == Equal)
  }

  lemma {:induction false} InsertKeepsTies(hosts: seq<Host>, x: nat, s: seq<nat>, t: nat, mode: SortMode)
    requires x < |hosts| && t < |hosts| && InRange(hosts, s)
    ensures Ties(hosts, Insert(hosts, x, s, mode), t, mode) == Ties(hosts, [x] + s, t, mode)
  {
    if s != [] && CompareHosts(hosts[s[0]], hosts[x], mode) == Less {
      InsertKeepsTies(hosts, x, s[1..], t, mode);
      assert s == [s[0]] + s[1..];
      TiesStep(hosts, s[0], Insert(hosts, x, s[1..], mode), t, mode);
      TiesStep(hosts, s[0], s[1..], t, mode);
      TiesStep(hosts, x, s[1..], t, mode);
      TiesStep(hosts, x, s, t, mode);
      NotBothTie(hosts[s[0]], hosts[x], hosts[t], mode);
    }
  }

  lemma TiesStep(hosts: seq<Host>, y: nat, s: seq<nat>, t: nat, mode: SortMode)
    requires y < |hosts| && t < |hosts|
    ensures Ties(hosts, [y] + s, t, mode) ==
      (if CompareHosts(hosts[y], hosts[t], mode) == Equal then [y] else []) + Ties(hosts, s, t, mode)
  {
    assert ([y] + s)[1..] == s;
  }

  lemma NotBothTie(a: Host, b: Host, t: Host, mode: SortMode)
    requires CompareHosts(a, b, mode) == Less
    ensures CompareHosts(a, t, mode) == Equal ==> CompareHosts(b, t, mode) != Equal
  {
    ComparisonReverses(a, t, mode);
    ComparisonReverses(a, b, mode);
    if CompareHosts(a, t, mode) == Equal && CompareHosts(b, t, mode) == Equal {
      ComparisonJoins(b, t, a, mode);
    }
  }

  /** Hosts of one rank stay in the order they came in. */
  lemma {:induction false} SortIsStable(hosts: seq<Host>, s: seq<nat>, t: nat, mode: SortMode)
    requires InRange(hosts, s) && t < |hosts|
    ensures Ties(hosts, SortHosts(hosts, s, mode), t, mode) == Ties(hosts, s, t, mode)
  {
    if s != [] {
      var rest := SortHosts(hosts, s[1..], mode);
      SortIsStable(hosts, s[1..], t, mode);
      InsertKeepsTies(hosts, s[0], rest, t, mode);
      assert ([s[0]] + rest)[1..] == rest && s == [s[0]] + s[1..];
    }
  }
}
