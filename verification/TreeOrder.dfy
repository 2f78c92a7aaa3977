/** Sizzle's document order for browsers without `compareDocumentPosition`, and the removal of
    duplicates from a sorted result. */
module TreeOrder {
  import opened Wrappers

  /** A tree of nodes rooted at the document node `doc`. Every other node is child number `index[x]` of
      `parent[x]`; `depth` bears witness that there are no cycles. */
  datatype Dom = Dom(doc: nat, parent: seq<int>, kids: seq<seq<nat>>, index: seq<nat>, depth: seq<nat>, levels: nat) {

    predicate Node(x: int) {
      0 <= x < |parent|
    }

    ghost predicate Valid() {
      && |parent| == |kids| == |index| == |depth|
      && Node(doc) && parent[doc] == -1
      && (forall x :: Node(x) ==> depth[x] < levels)
      && (forall x :: Node(x) && x != doc ==> ChildOk(x))
      && (forall x, k :: Node(x) && 0 <= k < |kids[x]| ==> KidOk(x, k))
    }

    ghost predicate ChildOk(x: nat)
      requires |parent| == |kids| == |index| == |depth| && Node(x)
    {
      && Node(parent[x])
      && index[x] < |kids[parent[x]]| && kids[parent[x]][index[x]] == x
      && depth[parent[x]] < depth[x]
    }

    ghost predicate KidOk(x: nat, k: nat)
      requires |parent| == |kids| == |index| == |depth| && Node(x) && k < |kids[x]|
    {
      Node(kids[x][k]) && kids[x][k] != doc && parent[kids[x][k]] == x && index[kids[x][k]] == k
    }

    function NextSibling(x: nat): (r: int)
      requires Valid() && Node(x)
      ensures r == -1 || Node(r)
    {
      if x == doc || index[x] + 1 >= |kids[parent[x]]| then -1
      else
        assert KidOk(parent[x], index[x] + 1);
        kids[parent[x]][index[x] + 1]
    }

    // ----- what document order means -----

    /** The subtree of x, in document order: x first, then its children's subtrees from left to right. */
    function Preorder(x: nat): seq<nat>
      requires Valid() && Node(x)
      decreases levels - depth[x], |kids[x]| + 1
    {
      [x] + PreorderFrom(x, 0)
    }

    function PreorderFrom(x: nat, k: nat): seq<nat>
      requires Valid() && Node(x) && k <= |kids[x]|
      decreases levels - depth[x], |kids[x]| - k
    {
      if k == |kids[x]| then []
      else
        assert KidOk(x, k) && ChildOk(kids[x][k]);
        Preorder(kids[x][k]) + PreorderFrom(x, k + 1)
    }

    /** The nodes from the root down to x. */
    function PathTo(x: nat): (p: seq<nat>)
      requires Valid() && Node(x)
      ensures |p| > 0 && p[|p| - 1] == x && p[0] == doc
      ensures forall i :: 0 <= i < |p| ==> Node(p[i])
      ensures forall i :: 1 <= i < |p| ==> p[i] != doc && parent[p[i]] == p[i - 1]
      decreases depth[x]
    {
      if x == doc then [x]
      else
        assert ChildOk(x);
        PathTo(parent[x]) + [x]
    }

    /** The child numbers on the way from the root to x. */
    function Key(x: nat): seq<nat>
      requires Valid() && Node(x)
      decreases depth[x]
    {
      if x == doc then []
      else
        assert ChildOk(x);
        Key(parent[x]) + [index[x]]
    }
  }

  lemma {:induction false} KeyOfPath(dom: Dom, x: nat)
    requires dom.Valid() && dom.Node(x)
    ensures |dom.Key(x)| == |dom.PathTo(x)| - 1
    ensures forall i :: 0 <= i < |dom.Key(x)| ==> dom.Key(x)[i] == dom.index[dom.PathTo(x)[i + 1]]
    decreases dom.depth[x]
  {
    if x != dom.doc {
      assert dom.ChildOk(x);
      KeyOfPath(dom, dom.parent[x]);
    }
  }

  /** Lexicographic order, decided at position i. */
  predicate LessAt(s: seq<nat>, t: seq<nat>, i: nat) {
    i <= |s| && i < |t| && s[..i] == t[..i] && (i == |s| || s[i] < t[i])
  }

  ghost predicate Less(s: seq<nat>, t: seq<nat>) {
    exists i :: LessAt(s, t, i)
  }

  lemma LessTransitive(s: seq<nat>, t: seq<nat>, u: seq<nat>)
    requires Less(s, t) && Less(t, u)
    ensures Less(s, u)
  {
    var i: nat :| LessAt(s, t, i);
    var j: nat :| LessAt(t, u, j);
    var k := if i <= j then i else j;
    assert s[..k] == s[..i][..k] == t[..i][..k] == t[..k];
    assert t[..k] == t[..j][..k] == u[..j][..k] == u[..k];
    if i < j { assert t[i] == t[..j][i] == u[..j][i] == u[i]; }
    if j < i && j < |s| { assert s[j] == s[..i][j] == t[..i][j] == t[j]; }
    assert LessAt(s, u, k);
  }

  lemma LessIrreflexive(s: seq<nat>)
    ensures !Less(s, s)
  {
  }

  // ----- the preorder listing is sorted by keys and complete -----

  ghost predicate SortedByKey(dom: Dom, xs: seq<nat>)
    requires dom.Valid()
  {
    && (forall i :: 0 <= i < |xs| ==> dom.Node(xs[i]))
    && (forall i, j :: 0 <= i < j < |xs| ==> Less(dom.Key(xs[i]), dom.Key(xs[j])))
  }

  ghost predicate Under(dom: Dom, prefix: seq<nat>, xs: seq<nat>)
    requires dom.Valid()
  {
    forall i :: 0 <= i < |xs| ==> dom.Node(xs[i]) && prefix <= dom.Key(xs[i])
  }

  lemma {:induction false} PreorderSorted(dom: Dom, x: nat)
    requires dom.Valid() && dom.Node(x)
    ensures SortedByKey(dom, dom.Preorder(x)) && Under(dom, dom.Key(x), dom.Preorder(x))
    decreases dom.levels - dom.depth[x], |dom.kids[x]| + 1
  {
    PreorderFromSorted(dom, x, 0);
    var rest := dom.PreorderFrom(x, 0);
    forall j | 0 <= j < |rest| ensures Less(dom.Key(x), dom.Key(rest[j])) {
      assert LessAt(dom.Key(x), dom.Key(rest[j]), |dom.Key(x)|);
    }
  }

  /** The nodes lie under child k of x or a later one. */
  ghost predicate UnderFrom(dom: Dom, prefix: seq<nat>, k: nat, xs: seq<nat>)
    requires dom.Valid() && Under(dom, prefix, xs)
  {
    forall i :: 0 <= i < |xs| ==> |dom.Key(xs[i])| > |prefix| && dom.Key(xs[i])[|prefix|] >= k
  }

  lemma {:induction false} PreorderFromSorted(dom: Dom, x: nat, k: nat)
    requires dom.Valid() && dom.Node(x) && k <= |dom.kids[x]|
    ensures SortedByKey(dom, dom.PreorderFrom(x, k)) && Under(dom, dom.Key(x), dom.PreorderFrom(x, k))
    ensures UnderFrom(dom, dom.Key(x), k, dom.PreorderFrom(x, k))
    decreases dom.levels - dom.depth[x], |dom.kids[x]| - k
  {
    if k < |dom.kids[x]| {
      var c := dom.kids[x][k];
      assert dom.KidOk(x, k) && dom.ChildOk(c);
      PreorderSorted(dom, c);
      PreorderFromSorted(dom, x, k + 1);
      assert dom.Key(c) == dom.Key(x) + [k];
      JoinSorted(dom, dom.Key(x), k, dom.Preorder(c), dom.PreorderFrom(x, k + 1));
    }
  }

  lemma JoinSorted(dom: Dom, key: seq<nat>, k: nat, first: seq<nat>, rest: seq<nat>)
    requires dom.Valid() && SortedByKey(dom, first) && Under(dom, key + [k], first)
    requires SortedByKey(dom, rest) && Under(dom, key, rest) && UnderFrom(dom, key, k + 1, rest)
    ensures SortedByKey(dom, first + rest) && Under(dom, key, first + rest) && UnderFrom(dom, key, k, first + rest)
  {
    var n := |key|;
    forall i | 0 <= i < |first|
      ensures key <= dom.Key(first[i]) && |dom.Key(first[i])| > n && dom.Key(first[i])[n] == k
    {
      assert key + [k] <= dom.Key(first[i]);
      assert dom.Key(first[i])[n] == (key + [k])[n];
    }
    forall i, j | 0 <= i < |first| && 0 <= j < |rest| ensures Less(dom.Key(first[i]), dom.Key(rest[j])) {
      assert dom.Key(first[i])[..n] == key == dom.Key(rest[j])[..n];
      assert LessAt(dom.Key(first[i]), dom.Key(rest[j]), n);
    }
    hide Less, Dom.Key, Dom.Valid;
  }

  /** A subtree contains whatever lies below its root. */
  lemma {:induction false} PreorderComplete(dom: Dom, x: nat, p: seq<nat>)
    requires dom.Valid() && p != [] && p[0] == x
    requires forall i :: 0 <= i < |p| ==> dom.Node(p[i])
    requires forall i :: 1 <= i < |p| ==> p[i] != dom.doc && dom.parent[p[i]] == p[i - 1]
    ensures p[|p| - 1] in dom.Preorder(x)
    decreases |p|
  {
    if |p| > 1 {
      var c := p[1];
      assert dom.ChildOk(c);
      var q := p[1..];
      forall i | 1 <= i < |q| ensures q[i] != dom.doc && dom.parent[q[i]] == q[i - 1] {
        assert q[i] == p[i + 1];
      }
      PreorderComplete(dom, c, q);
      ChildListed(dom, x, 0, dom.index[c], p[|p| - 1]);
    }
  }

  lemma {:induction false} ChildListed(dom: Dom, x: nat, k: nat, i: nat, y: nat)
    requires dom.Valid() && dom.Node(x) && k <= i < |dom.kids[x]|
    requires dom.KidOk(x, i) && y in dom.Preorder(dom.kids[x][i])
    ensures y in dom.PreorderFrom(x, k)
    decreases i - k
  {
    assert dom.KidOk(x, k) && dom.ChildOk(dom.kids[x][k]);
    var first, rest := dom.Preorder(dom.kids[x][k]), dom.PreorderFrom(x, k + 1);
    assert dom.PreorderFrom(x, k) == first + rest;
    if k < i {
      ChildListed(dom, x, k + 1, i, y);
    }
    assert y in first || y in rest;
  }

  /** The position of a node in document order. */
  ghost function Pos(dom: Dom, x: nat): (i: nat)
    requires dom.Valid() && dom.Node(x)
    ensures i < |dom.Preorder(dom.doc)| && dom.Preorder(dom.doc)[i] == x
  {
    PreorderComplete(dom, dom.doc, dom.PathTo(x));
    var i :| 0 <= i < |dom.Preorder(dom.doc)| && dom.Preorder(dom.doc)[i] == x;
    i
  }

  lemma PosByKey(dom: Dom, a: nat, b: nat)
    requires dom.Valid() && dom.Node(a) && dom.Node(b) && Less(dom.Key(a), dom.Key(b))
    ensures Pos(dom, a) < Pos(dom, b)
  {
    PreorderSorted(dom, dom.doc);
    var i, j := Pos(dom, a), Pos(dom, b);
    LessIrreflexive(dom.Key(a));
    if j < i {
      LessTransitive(dom.Key(a), dom.Key(b), dom.Key(a));
    }
  }

  /** No node is listed twice. */
  lemma PosUnique(dom: Dom, i: nat)
    requires dom.Valid() && i < |dom.Preorder(dom.doc)|
    ensures dom.Node(dom.Preorder(dom.doc)[i]) && Pos(dom, dom.Preorder(dom.doc)[i]) == i
  {
    PreorderSorted(dom, dom.doc);
    LessIrreflexive(dom.Key(dom.Preorder(dom.doc)[i]));
  }

  // ----- the comparator -----

  /** The order of two children of one parent; a missing node comes first. */
  method SiblingCheck(dom: Dom, a: Option<nat>, b: Option<nat>) returns (r: int)
    requires dom.Valid() && (a.Some? ==> dom.Node(a.value)) && (b.Some? ==> dom.Node(b.value))
    requires a.Some? && b.Some? ==>
               a.value != dom.doc && b.value != dom.doc && dom.parent[a.value] == dom.parent[b.value]
    ensures r == -1 || r == 1
    ensures a.None? ==> r == -1
    ensures a.Some? && b.None? ==> r == 1
    ensures a.Some? && b.Some? ==> (r == -1 <==> dom.index[a.value] < dom.index[b.value])
  {
    if a.Some? && b.Some? {
      assert dom.ChildOk(a.value) && dom.ChildOk(b.value);
      var cur: int := a.value;
      while true
        invariant dom.Node(cur) && cur != dom.doc && dom.parent[cur] == dom.parent[a.value]
        invariant dom.index[a.value] <= dom.index[cur]
        invariant dom.index[b.value] <= dom.index[a.value] || dom.index[cur] < dom.index[b.value]
        decreases |dom.kids[dom.parent[a.value]]| - dom.index[cur]
      {
        assert dom.ChildOk(cur);
        if dom.index[cur] + 1 < |dom.kids[dom.parent[cur]]| {
          assert dom.KidOk(dom.parent[cur], dom.index[cur] + 1);
        }
        cur := dom.NextSibling(cur);
        if cur < 0 {
          break;
        }
        if cur == b.value {
          return -1;
        }
      }
    }
    return if a.Some? then 1 else -1;
  }

  /** The path from the root, collected upwards. */
  method Ancestors(dom: Dom, x: nat) returns (p: seq<nat>)
    requires dom.Valid() && dom.Node(x)
    ensures p == dom.PathTo(x)
  {
    assert |dom.depth| == |dom.parent|;
    hide Dom.Valid, Dom.PathTo;
    p := [x];
    var cur: int := x;
    ghost var below: seq<nat> := [];
    while cur != dom.doc
      invariant dom.Node(cur) && p == [cur] + below && dom.PathTo(cur) + below == dom.PathTo(x)
      decreases dom.depth[cur]
    {
      UpOne(dom, cur, below);
      below := p;
      cur := dom.parent[cur];
      p := [cur] + p;
    }
    PathToRoot(dom);
  }

  lemma UpOne(dom: Dom, x: nat, below: seq<nat>)
    requires dom.Valid() && dom.Node(x) && x != dom.doc
    ensures dom.Node(dom.parent[x]) && 0 <= dom.depth[dom.parent[x]] < dom.depth[x]
    ensures dom.PathTo(x) + below == dom.PathTo(dom.parent[x]) + ([x] + below)
  {
    assert dom.ChildOk(x);
  }

  lemma PathToRoot(dom: Dom)
    requires dom.Valid()
    ensures dom.Node(dom.doc) && dom.PathTo(dom.doc) == [dom.doc]
  {
  }

  /** The comparator used for sorting; `same` is the duplicate flag. */
  method SortOrder(dom: Dom, a: nat, b: nat) returns (r: int, same: bool)
    requires dom.Valid() && dom.Node(a) && dom.Node(b)
    ensures same <==> a == b
    ensures r == 0 <==> a == b
    ensures r < 0 <==> Pos(dom, a) < Pos(dom, b)
  {
    if a == b {
      return 0, true;
    }
    same := false;
    Decided(dom, a, b);
    if dom.parent[a] < 0 || dom.parent[b] < 0 {
      ParentlessIsRoot(dom, a);
      ParentlessIsRoot(dom, b);
      r := if a == dom.doc then -1 else 1;
      return;
    }
    if dom.parent[a] == dom.parent[b] {
      r := SiblingCheck(dom, Some(a), Some(b));
      SameParent(dom, a, b);
      return;
    }
    var ap := Ancestors(dom, a);
    var bp := Ancestors(dom, b);
    var i := 0;
    while i < |ap| && i < |bp| && ap[i] == bp[i]
      invariant i <= |ap| && i <= |bp| && forall k :: 0 <= k < i ==> ap[k] == bp[k]
    {
      i := i + 1;
    }
    Discrepancy(dom, a, b, i);
    r := SiblingCheck(dom, if i < |ap| then Some(ap[i]) else None, if i < |bp| then Some(bp[i]) else None);
  }

  lemma ParentlessIsRoot(dom: Dom, x: nat)
    requires dom.Valid() && dom.Node(x)
    ensures dom.parent[x] < 0 <==> x == dom.doc
    ensures forall y :: dom.Node(y) && y != x && x == dom.doc ==> Less(dom.Key(x), dom.Key(y))
  {
    if x != dom.doc { assert dom.ChildOk(x); }
    forall y | dom.Node(y) && y != x && x == dom.doc ensures Less(dom.Key(x), dom.Key(y)) {
      assert dom.ChildOk(y);
      assert LessAt(dom.Key(x), dom.Key(y), 0);
    }
  }

  /** The paths to a and b agree up to index i, and no further. */
  ghost predicate Fork(dom: Dom, a: nat, b: nat, i: nat)
    requires dom.Valid() && dom.Node(a) && dom.Node(b)
  {
    var ap, bp := dom.PathTo(a), dom.PathTo(b);
    && i <= |ap| && i <= |bp| && (forall k :: 0 <= k < i ==> ap[k] == bp[k])
    && (i < |ap| && i < |bp| ==> ap[i] != bp[i])
  }

  lemma ForkNodes(dom: Dom, a: nat, b: nat, i: nat)
    requires dom.Valid() && dom.Node(a) && dom.Node(b) && a != b && Fork(dom, a, b, i)
    ensures var ap, bp := dom.PathTo(a), dom.PathTo(b);
            && i >= 1 && (i < |ap| || i < |bp|)
            && (i < |ap| ==> ap[i] != dom.doc) && (i < |bp| ==> bp[i] != dom.doc)
            && (i < |ap| && i < |bp| ==>
                  dom.parent[ap[i]] == dom.parent[bp[i]] && dom.index[ap[i]] != dom.index[bp[i]])
  {
    var ap, bp := dom.PathTo(a), dom.PathTo(b);
    hide Dom.PathTo, Dom.Key, Dom.Preorder, Dom.PreorderFrom;
    KeyOfPath(dom, a);
    KeyOfPath(dom, b);
    assert i >= 1;
    assert ap[i - 1] == bp[i - 1];
    assert i == |ap| && i == |bp| ==> a == b;
    if i < |ap| && i < |bp| {
      assert dom.ChildOk(ap[i]) && dom.ChildOk(bp[i]);
    }
  }

  lemma ForkKeys(dom: Dom, a: nat, b: nat, i: nat)
    requires dom.Valid() && dom.Node(a) && dom.Node(b) && Fork(dom, a, b, i) && i >= 1
    ensures var s, t := dom.Key(a), dom.Key(b);
            && |s| == |dom.PathTo(a)| - 1 && |t| == |dom.PathTo(b)| - 1 && s[..i - 1] == t[..i - 1]
            && (i <= |s| ==> s[i - 1] == dom.index[dom.PathTo(a)[i]])
            && (i <= |t| ==> t[i - 1] == dom.index[dom.PathTo(b)[i]])
  {
    var ap, bp, s, t := dom.PathTo(a), dom.PathTo(b), dom.Key(a), dom.Key(b);
    hide Dom.PathTo, Dom.Key, Dom.Preorder, Dom.PreorderFrom;
    KeyOfPath(dom, a);
    KeyOfPath(dom, b);
    forall k | 0 <= k < i - 1 ensures s[k] == t[k] {
      assert ap[k + 1] == bp[k + 1];
    }
  }

  /** The first discrepancy between the two paths decides the order of the keys. */
  lemma Discrepancy(dom: Dom, a: nat, b: nat, i: nat)
    requires dom.Valid() && dom.Node(a) && dom.Node(b) && a != b && Fork(dom, a, b, i)
    ensures var ap, bp := dom.PathTo(a), dom.PathTo(b);
            && i >= 1 && (i < |ap| || i < |bp|)
            && (i < |ap| ==> ap[i] != dom.doc) && (i < |bp| ==> bp[i] != dom.doc)
            && (i < |ap| && i < |bp| ==>
                  dom.parent[ap[i]] == dom.parent[bp[i]] && dom.index[ap[i]] != dom.index[bp[i]])
            && (if i == |ap| || (i < |bp| && dom.index[ap[i]] < dom.index[bp[i]])
                then Less(dom.Key(a), dom.Key(b)) else Less(dom.Key(b), dom.Key(a)))
  {
    hide Dom.PathTo, Dom.Key, Dom.Preorder, Dom.PreorderFrom;
    ForkNodes(dom, a, b, i);
    ForkKeys(dom, a, b, i);
    var ap, bp := dom.PathTo(a), dom.PathTo(b);
    if i == |ap| || (i < |bp| && dom.index[ap[i]] < dom.index[bp[i]]) {
      assert LessAt(dom.Key(a), dom.Key(b), i - 1);
    } else {
      assert LessAt(dom.Key(b), dom.Key(a), i - 1);
    }
  }

  lemma SameParent(dom: Dom, a: nat, b: nat)
    requires dom.Valid() && dom.Node(a) && dom.Node(b) && a != b && a != dom.doc && b != dom.doc
    requires dom.parent[a] == dom.parent[b]
    ensures dom.index[a] != dom.index[b]
    ensures dom.index[a] < dom.index[b] ==> Less(dom.Key(a), dom.Key(b))
    ensures dom.index[b] < dom.index[a] ==> Less(dom.Key(b), dom.Key(a))
  {
    assert dom.ChildOk(a) && dom.ChildOk(b);
    var n := |dom.Key(dom.parent[a])|;
    assert dom.Key(a)[..n] == dom.Key(b)[..n] == dom.Key(dom.parent[a]);
    if dom.index[a] < dom.index[b] { assert LessAt(dom.Key(a), dom.Key(b), n); }
    if dom.index[b] < dom.index[a] { assert LessAt(dom.Key(b), dom.Key(a), n); }
  }

  lemma Decided(dom: Dom, a: nat, b: nat)
    requires dom.Valid() && dom.Node(a) && dom.Node(b)
    ensures Less(dom.Key(a), dom.Key(b)) ==> Pos(dom, a) < Pos(dom, b)
    ensures Less(dom.Key(b), dom.Key(a)) ==> Pos(dom, b) < Pos(dom, a)
  {
    if Less(dom.Key(a), dom.Key(b)) { PosByKey(dom, a, b); }
    if Less(dom.Key(b), dom.Key(a)) { PosByKey(dom, b, a); }
  }

  // ----- sorting and removing duplicates -----

  /** The comparator is a strict total order on the nodes of the tree. */
  lemma TotalOrder(dom: Dom, a: nat, b: nat)
    requires dom.Valid() && dom.Node(a) && dom.Node(b)
    ensures Pos(dom, a) == Pos(dom, b) ==> a == b
    ensures Less(dom.Key(a), dom.Key(b)) <==> Pos(dom, a) < Pos(dom, b)
  {
    PreorderSorted(dom, dom.doc);
    Decided(dom, a, b);
    if Pos(dom, a) < Pos(dom, b) {
      assert Less(dom.Key(dom.Preorder(dom.doc)[Pos(dom, a)]), dom.Key(dom.Preorder(dom.doc)[Pos(dom, b)]));
    }
  }

  ghost predicate InOrder(dom: Dom, xs: seq<nat>)
    requires dom.Valid()
  {
    && (forall i :: 0 <= i < |xs| ==> dom.Node(xs[i]))
    && (forall i, j :: 0 <= i < j < |xs| ==> Pos(dom, xs[i]) <= Pos(dom, xs[j]))
  }

  predicate Repeated(xs: seq<nat>, i: nat) {
    0 < i < |xs| && xs[i] == xs[i - 1]
  }

  /** The entries from index k on that differ from their predecessor. */
  function Distinct(xs: seq<nat>, k: nat): seq<nat>
    requires k <= |xs|
    decreases |xs| - k
  {
    if k == |xs| then []
    else (if Repeated(xs, k) then [] else [xs[k]]) + Distinct(xs, k + 1)
  }

  class Results {
    var items: seq<nat>

    /** `uniqueSort` after the engine has sorted `items` with the comparator; `hasDuplicate` was set
        if the comparator met the same node twice. */
    method RemoveDuplicates(dom: Dom, hasDuplicate: bool)
      requires dom.Valid() && InOrder(dom, items)
      requires hasDuplicate || forall i, j :: 0 <= i < j < |items| ==> items[i] != items[j]
      modifies this
      ensures items == Distinct(old(items), 0)
      ensures forall i, j :: 0 <= i < j < |items| ==>
                dom.Node(items[i]) && dom.Node(items[j]) && Pos(dom, items[i]) < Pos(dom, items[j])
      ensures forall x :: x in items <==> x in old(items)
    {
      ghost var sorted := items;
      StrictlyInOrder(dom, sorted, 0);
      DistinctMembers(sorted, 0);
      assert sorted[0..] == sorted;
      if !hasDuplicate {
        NothingRepeated(sorted, 0);
      } else {
        SpliceRepeated();
      }
    }

    method SpliceRepeated()
      modifies this
      ensures items == Distinct(old(items), 0)
    {
      hide Distinct, AllRepetitions;
      ghost var sorted := items;
      var duplicates: seq<nat> := [];
      NoRepetitionYet(sorted);
      var i := 0;
      while i < |items|
        invariant i <= |items| && items == sorted
        invariant AllRepetitions(sorted, duplicates, i)
      {
        NextRepetition(sorted, duplicates, i);
        i := i + 1;
        if i < |items| && items[i - 1] == items[i] {
          duplicates := duplicates + [i];
        }
      }
      var j := |duplicates|;
      RepetitionsInside(sorted, duplicates, j);
      Slide(sorted, AfterRepetition(duplicates, j), |sorted|);
      while j > 0
        invariant 0 <= j <= |duplicates| && AllRepetitions(sorted, duplicates, |sorted|)
        invariant AfterRepetition(duplicates, j) <= |sorted|
        invariant items == sorted[..AfterRepetition(duplicates, j)] + Distinct(sorted, AfterRepetition(duplicates, j))
      {
        j := j - 1;
        items := items[..duplicates[j]] + items[duplicates[j] + 1..];
        Spliced(sorted, duplicates, j);
      }
    }
  }

  /** Exactly the repetitions up to index n, in increasing order. */
  ghost predicate AllRepetitions(xs: seq<nat>, duplicates: seq<nat>, n: nat) {
    && (forall k :: 0 <= k < |duplicates| ==> duplicates[k] <= n && Repeated(xs, duplicates[k]))
    && (forall j, k :: 0 <= j < k < |duplicates| ==> duplicates[j] < duplicates[k])
    && (forall x: nat :: x <= n && Repeated(xs, x) ==> x in duplicates)
  }

  lemma NoRepetitionYet(xs: seq<nat>)
    ensures AllRepetitions(xs, [], 0)
  {
  }

  lemma NextRepetition(xs: seq<nat>, duplicates: seq<nat>, i: nat)
    requires AllRepetitions(xs, duplicates, i)
    ensures AllRepetitions(xs, if i + 1 < |xs| && xs[i] == xs[i + 1] then duplicates + [i + 1] else duplicates, i + 1)
  {
    assert Repeated(xs, i + 1) <==> i + 1 < |xs| && xs[i] == xs[i + 1];
    hide Repeated;
    if Repeated(xs, i + 1) {
      MoreRepetitions(xs, duplicates, i);
    } else {
      forall x: nat | x <= i + 1 && Repeated(xs, x) ensures x in duplicates { assert x <= i; }
    }
  }

  lemma MoreRepetitions(xs: seq<nat>, duplicates: seq<nat>, i: nat)
    requires AllRepetitions(xs, duplicates, i) && Repeated(xs, i + 1)
    ensures AllRepetitions(xs, duplicates + [i + 1], i + 1)
  {
    hide Repeated;
    var more := duplicates + [i + 1];
    assert more[|duplicates|] == i + 1;
    forall x: nat | x <= i + 1 && Repeated(xs, x) ensures x in more {
      assert x == i + 1 || x in duplicates;
    }
  }

  lemma RepetitionsInside(xs: seq<nat>, duplicates: seq<nat>, j: nat)
    requires AllRepetitions(xs, duplicates, |xs|) && j <= |duplicates|
    ensures AfterRepetition(duplicates, j) <= |xs|
    ensures j == |duplicates| ==> forall x: nat :: AfterRepetition(duplicates, j) <= x < |xs| ==> !Repeated(xs, x)
    ensures Distinct(xs, |xs|) == []
  {
  }

  function AfterRepetition(duplicates: seq<nat>, j: nat): nat
    requires j <= |duplicates|
  {
    if j > 0 then duplicates[j - 1] + 1 else 0
  }

  lemma NoRepetitionBetween(xs: seq<nat>, duplicates: seq<nat>, j: nat, x: nat)
    requires AllRepetitions(xs, duplicates, |xs|) && j < |duplicates|
    requires AfterRepetition(duplicates, j) <= x < duplicates[j]
    ensures !Repeated(xs, x)
  {
    forall k | 0 <= k < |duplicates| ensures duplicates[k] != x {
      if k < j { assert duplicates[k] <= duplicates[j - 1]; }
    }
  }

  lemma Splice(xs: seq<nat>, rest: seq<nat>, d: nat)
    requires d < |xs|
    ensures (xs[..d + 1] + rest)[..d] + (xs[..d + 1] + rest)[d + 1..] == xs[..d] + rest
  {
  }

  lemma Spliced(xs: seq<nat>, duplicates: seq<nat>, j: nat)
    requires AllRepetitions(xs, duplicates, |xs|) && j < |duplicates|
    ensures var d := duplicates[j];
            var p := AfterRepetition(duplicates, j);
            && p <= d < |xs|
            && var before := xs[..d + 1] + Distinct(xs, d + 1);
            before[..d] + before[d + 1..] == xs[..p] + Distinct(xs, p)
  {
    var d := duplicates[j];
    var p := AfterRepetition(duplicates, j);
    assert Repeated(xs, d) && (j > 0 ==> duplicates[j - 1] < d);
    assert Distinct(xs, d) == Distinct(xs, d + 1);
    hide Distinct, Repeated;
    Splice(xs, Distinct(xs, d + 1), d);
    forall x | p <= x < d ensures !Repeated(xs, x) {
      NoRepetitionBetween(xs, duplicates, j, x);
    }
    Slide(xs, p, d);
  }

  /** Between two repetitions nothing is dropped. */
  lemma {:induction false} Slide(xs: seq<nat>, p: nat, q: nat)
    requires p <= q <= |xs| && forall x :: p <= x < q ==> !Repeated(xs, x)
    ensures xs[..p] + Distinct(xs, p) == xs[..q] + Distinct(xs, q)
    decreases q - p
  {
    if p < q {
      Slide(xs, p + 1, q);
      assert xs[..p] + ([xs[p]] + Distinct(xs, p + 1)) == xs[..p + 1] + Distinct(xs, p + 1);
    }
  }

  lemma {:induction false} NothingRepeated(xs: seq<nat>, k: nat)
    requires k <= |xs| && forall i, j :: 0 <= i < j < |xs| ==> xs[i] != xs[j]
    ensures Distinct(xs, k) == xs[k..]
    decreases |xs| - k
  {
    if k < |xs| { NothingRepeated(xs, k + 1); }
  }

  lemma Next(dom: Dom, xs: seq<nat>, k: nat)
    requires dom.Valid() && InOrder(dom, xs) && k < |xs|
    ensures dom.Node(xs[k])
    ensures k > 0 ==> dom.Node(xs[k - 1]) && (xs[k - 1] == xs[k] || Pos(dom, xs[k - 1]) < Pos(dom, xs[k]))
  {
    if k > 0 { TotalOrder(dom, xs[k - 1], xs[k]); }
  }

  /** Dropping repeated entries loses no node. */
  lemma {:induction false} DistinctMembers(xs: seq<nat>, k: nat)
    requires k <= |xs|
    ensures forall x :: x in Distinct(xs, k) ==> x in xs[k..]
    ensures forall x :: x in xs[k..] ==> x in Distinct(xs, k) || (k > 0 && x == xs[k - 1])
    decreases |xs| - k
  {
    if k < |xs| {
      DistinctMembers(xs, k + 1);
      assert xs[k..] == [xs[k]] + xs[k + 1..];
    }
  }

  ghost predicate Increasing(dom: Dom, d: seq<nat>)
    requires dom.Valid()
  {
    && (forall i :: 0 <= i < |d| ==> dom.Node(d[i]))
    && (forall i, j :: 0 <= i < j < |d| ==> Pos(dom, d[i]) < Pos(dom, d[j]))
  }

  ghost predicate AllAfter(dom: Dom, x: nat, d: seq<nat>)
    requires dom.Valid() && dom.Node(x) && Increasing(dom, d)
  {
    forall i :: 0 <= i < |d| ==> Pos(dom, x) < Pos(dom, d[i])
  }

  /** In a sorted list, dropping repeated entries leaves a strictly increasing list. */
  lemma {:induction false} StrictlyInOrder(dom: Dom, xs: seq<nat>, k: nat)
    requires dom.Valid() && InOrder(dom, xs) && k <= |xs|
    ensures Increasing(dom, Distinct(xs, k)) && (k > 0 ==> AllAfter(dom, xs[k - 1], Distinct(xs, k)))
    decreases |xs| - k
  {
    if k < |xs| {
      StrictlyInOrder(dom, xs, k + 1);
      Next(dom, xs, k);
      ListedMore(dom, xs, k, Distinct(xs, k + 1));
    }
  }

  lemma ListedMore(dom: Dom, xs: seq<nat>, k: nat, rest: seq<nat>)
    requires dom.Valid() && InOrder(dom, xs) && k < |xs|
    requires Increasing(dom, rest) && AllAfter(dom, xs[k], rest)
    ensures Increasing(dom, [xs[k]] + rest)
    ensures k > 0 ==> dom.Node(xs[k - 1]) && AllAfter(dom, xs[k - 1], rest)
    ensures k > 0 && xs[k - 1] != xs[k] ==> AllAfter(dom, xs[k - 1], [xs[k]] + rest)
  {
    Next(dom, xs, k);
    hide Dom.Valid, Pos, InOrder;
  }

  lemma FirstIsSmallest(dom: Dom, d: seq<nat>, x: nat)
    requires dom.Valid() && Increasing(dom, d) && x in d
    ensures x == d[0] || (dom.Node(d[0]) && dom.Node(x) && Pos(dom, d[0]) < Pos(dom, x))
  {
    var i :| 0 <= i < |d| && d[i] == x;
  }

  lemma BothEmpty(d: seq<nat>, e: seq<nat>)
    requires forall x :: x in d <==> x in e
    ensures d == [] <==> e == []
  {
    assert d != [] ==> d[0] in d;
    assert e != [] ==> e[0] in e;
  }

  lemma FirstOnlyOnce(dom: Dom, d: seq<nat>)
    requires dom.Valid() && Increasing(dom, d) && d != []
    ensures Increasing(dom, d[1..]) && d[0] !in d[1..] && forall x :: x in d[1..] <==> x in d && x != d[0]
  {
    assert d == [d[0]] + d[1..];
    forall i | 1 <= i < |d| ensures d[i] != d[0] { assert Pos(dom, d[0]) < Pos(dom, d[i]); }
  }

  lemma {:induction false} SameNodesSameList(dom: Dom, d: seq<nat>, e: seq<nat>)
    requires dom.Valid() && Increasing(dom, d) && Increasing(dom, e) && forall x :: x in d <==> x in e
    ensures d == e
  {
    BothEmpty(d, e);
    if d != [] {
      assert d[0] in d && e[0] in e;
      FirstIsSmallest(dom, d, e[0]);
      FirstIsSmallest(dom, e, d[0]);
      FirstOnlyOnce(dom, d);
      FirstOnlyOnce(dom, e);
      SameNodesSameList(dom, d[1..], e[1..]);
      assert d == [d[0]] + d[1..] && e == [e[0]] + e[1..];
    }
  }

  /** However often the nodes come, and however they were sorted, there is only one result. */
  lemma OneResult(dom: Dom, xs: seq<nat>, ys: seq<nat>)
    requires dom.Valid() && InOrder(dom, xs) && InOrder(dom, ys) && forall x :: x in xs <==> x in ys
    ensures Distinct(xs, 0) == Distinct(ys, 0)
  {
    StrictlyInOrder(dom, xs, 0);
    StrictlyInOrder(dom, ys, 0);
    DistinctMembers(xs, 0);
    DistinctMembers(ys, 0);
    assert xs[0..] == xs && ys[0..] == ys;
    SameNodesSameList(dom, Distinct(xs, 0), Distinct(ys, 0));
  }
}
