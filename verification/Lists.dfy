/** Lists without duplicates, and removing from them. */
module Lists {

  predicate NoDup<T(==)>(s: seq<T>) {
    forall i, j :: 0 <= i < j < |s| ==> s[i] != s[j]
  }

  function Without<T(==)>(s: seq<T>, gone: set<T>): seq<T> {
    if s == [] then []
    else Without(s[..|s| - 1], gone) + (if s[|s| - 1] in gone then [] else [s[|s| - 1]])
  }

  lemma {:induction false} WithoutMembers<T>(s: seq<T>, gone: set<T>)
    ensures forall c :: c in Without(s, gone) <==> c in s && c !in gone
    ensures NoDup(s) ==> NoDup(Without(s, gone))
  {
    if s != [] {
      var init, last := s[..|s| - 1], s[|s| - 1];
      WithoutMembers(init, gone);
      assert s == init + [last];
      if NoDup(s) {
        assert last !in init;
      }
    }
  }

  /** x comes before y in the list. */
  predicate Before<T(==)>(s: seq<T>, x: T, y: T) {
    exists i, j :: 0 <= i < j < |s| && s[i] == x && s[j] == y
  }

  lemma BeforeSnoc<T>(s: seq<T>, last: T)
    ensures forall x, y :: Before(s + [last], x, y) <==> Before(s, x, y) || (x in s && y == last)
  {
    forall x, y ensures Before(s + [last], x, y) <==> Before(s, x, y) || (x in s && y == last) {
      var t := s + [last];
      if i, j :| 0 <= i < j < |s| && s[i] == x && s[j] == y { assert t[i] == x && t[j] == y; }
      if x in s && y == last {
        var i :| 0 <= i < |s| && s[i] == x;
        assert t[i] == x && t[|s|] == y;
      }
    }
  }

  /** Those that stay keep their order. */
  lemma {:induction false} WithoutOrder<T>(s: seq<T>, gone: set<T>)
    ensures forall x, y :: Before(Without(s, gone), x, y) <==> Before(s, x, y) && x !in gone && y !in gone
  {
    if s != [] {
      var init, last := s[..|s| - 1], s[|s| - 1];
      WithoutOrder(init, gone);
      WithoutMembers(init, gone);
      BeforeSnoc(init, last);
      BeforeSnoc(Without(init, gone), last);
      assert s == init + [last];
      assert Without(s, gone) == if last in gone then Without(init, gone) else Without(init, gone) + [last];
      hide Before, Without;
    }
  }

  lemma {:induction false} WithoutConcat<T>(a: seq<T>, b: seq<T>, gone: set<T>)
    ensures Without(a + b, gone) == Without(a, gone) + Without(b, gone)
  {
    if b == [] {
      assert a + b == a;
    } else {
      WithoutConcat(a, b[..|b| - 1], gone);
      assert (a + b)[..|a + b| - 1] == a + b[..|b| - 1];
    }
  }

  lemma {:induction false} WithoutOthers<T>(s: seq<T>, gone: set<T>)
    requires forall c :: c in s ==> c !in gone
    ensures Without(s, gone) == s
  {
    if s != [] {
      WithoutOthers(s[..|s| - 1], gone);
      assert s[..|s| - 1] + [s[|s| - 1]] == s;
    }
  }

  lemma {:induction false} WithoutTwice<T>(s: seq<T>, gone: set<T>, more: set<T>)
    ensures Without(Without(s, gone), more) == Without(s, gone + more)
  {
    if s != [] {
      var init, last := s[..|s| - 1], s[|s| - 1];
      WithoutTwice(init, gone, more);
      WithoutConcat(Without(init, gone), if last in gone then [] else [last], more);
      assert last !in gone ==> [last][..0] == [];
    }
  }

  /** Splicing the only occurrence of an element out of a list. */
  lemma SpliceIsWithout<T>(s: seq<T>, i: nat)
    requires i < |s| && NoDup(s)
    ensures s[..i] + s[i + 1..] == Without(s, {s[i]})
  {
    SplitAt(s, i);
    Others(s, i);
    hide *;
    AllButOne(s[..i], s[i], s[i + 1..]);
  }

  lemma AllButOne<T>(a: seq<T>, c: T, b: seq<T>)
    requires c !in a && c !in b
    ensures Without(a + ([c] + b), {c}) == a + b
  {
    SingleGone(c);
    WithoutConcat(a, [c] + b, {c});
    WithoutConcat([c], b, {c});
    WithoutOthers(a, {c});
    WithoutOthers(b, {c});
    hide Without;
    assert [] + b == b;
  }

  lemma SplitAt<T>(s: seq<T>, i: nat)
    requires i < |s|
    ensures s == s[..i] + ([s[i]] + s[i + 1..])
  {
  }

  lemma Others<T>(s: seq<T>, i: nat)
    requires i < |s| && NoDup(s)
    ensures s[i] !in s[..i] && s[i] !in s[i + 1..]
  {
  }

  lemma SingleGone<T>(c: T)
    ensures Without([c], {c}) == []
  {
    assert [c][..0] == [];
  }
}
