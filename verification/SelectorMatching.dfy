/** Sizzle's compiled selector matchers: a right-to-left walk over ancestors and preceding siblings
    that remembers, on the nodes, what it has already found out. */
module SelectorMatching {

  // ----- the document -----

  datatype Dir = ParentNode | PreviousSibling

  /** Nodes are numbered in document order, so parents and preceding siblings have smaller numbers;
      -1 stands for "none". */
  datatype Dom = Dom(elements: seq<bool>, parents: seq<int>, previous: seq<int>) {
    ghost predicate Valid() {
      && |parents| == |previous| == |elements|
      && (forall n :: 0 <= n < |elements| ==> -1 <= parents[n] < n)
      && (forall n :: 0 <= n < |elements| ==> -1 <= previous[n] < n)
    }

    function Next(dir: Dir, n: nat): (r: int)
      requires Valid() && n < |elements|
      ensures -1 <= r < n
    {
      if dir.ParentNode? then parents[n] else previous[n]
    }
  }

  // ----- compiled matchers -----

  datatype Combinator = Combinator(dir: Dir, first: bool)

  /** The four combinators of the selector language. */
  const CHILD := Combinator(ParentNode, true)
  const DESCENDANT := Combinator(ParentNode, false)
  const ADJACENT := Combinator(PreviousSibling, true)
  const SIBLING := Combinator(PreviousSibling, false)

  datatype Token = Relative(combinator: Combinator) | Filter(test: nat -> bool)

  /** `Compound` is an element matcher: its filters, and a walk to what stands left of it. */
  datatype Matcher =
    | IsContext(targets: set<nat>)
    | Compound(bypass: bool, walk: Walk, filters: seq<nat -> bool>)

  /** A matcher made by `addCombinator`, with the number it was given. */
  datatype Walk = Walk(matcher: Matcher, combinator: Combinator, base: bool, doneName: nat)

  /** Whether the walk looks at node n at all. */
  predicate Eligible(dom: Dom, w: Walk, n: nat)
    requires n < |dom.elements|
  {
    dom.elements[n] || (w.base && w.combinator.dir.ParentNode?)
  }

  // ----- what they mean, without any memory -----

  predicate Matches(dom: Dom, m: Matcher, n: nat)
    requires dom.Valid() && n < |dom.elements|
    decreases m, n
  {
    match m
    case IsContext(targets) => n in targets
    case Compound(bypass, walk, filters) =>
      (forall k :: 0 <= k < |filters| ==> filters[k](n)) && (bypass || WalkMatches(dom, walk, n))
  }

  predicate WalkMatches(dom: Dom, w: Walk, n: nat)
    requires dom.Valid() && n < |dom.elements|
    decreases w, n
  {
    var a := dom.Next(w.combinator.dir, n);
    if a < 0 then false
    else if !Eligible(dom, w, a) then WalkMatches(dom, w, a)
    else Matches(dom, w.matcher, a) || (!w.combinator.first && WalkMatches(dom, w, a))
  }

  /** a is reached from n by following `dir` at least once. */
  ghost predicate Beyond(dom: Dom, dir: Dir, n: nat, a: nat)
    requires dom.Valid() && n < |dom.elements|
    decreases n
  {
    var b := dom.Next(dir, n);
    b >= 0 && (b == a || Beyond(dom, dir, b, a))
  }

  lemma {:induction false} BeyondIsNode(dom: Dom, dir: Dir, n: nat, a: nat)
    requires dom.Valid() && n < |dom.elements| && Beyond(dom, dir, n, a)
    ensures a < n
    decreases n
  {
    var b := dom.Next(dir, n);
    if b != a { BeyondIsNode(dom, dir, b, a); }
  }

  /** A descendant or general sibling walk succeeds exactly if some ancestor, or some preceding
      sibling, matches. */
  lemma {:induction false} WalkIsExistential(dom: Dom, w: Walk, n: nat)
    requires dom.Valid() && n < |dom.elements| && !w.combinator.first
    ensures WalkMatches(dom, w, n) <==>
            exists a: nat :: a < n && Beyond(dom, w.combinator.dir, n, a) && Eligible(dom, w, a)
                             && Matches(dom, w.matcher, a)
    decreases n
  {
    var dir := w.combinator.dir;
    var b := dom.Next(dir, n);
    if b >= 0 {
      WalkIsExistential(dom, w, b);
      if WalkMatches(dom, w, n) {
        if Eligible(dom, w, b) && Matches(dom, w.matcher, b) {
          assert Beyond(dom, dir, n, b);
        } else {
          var a: nat :| a < b && Beyond(dom, dir, b, a) && Eligible(dom, w, a) && Matches(dom, w.matcher, a);
          assert Beyond(dom, dir, n, a);
        }
      }
      if a: nat :| a < n && Beyond(dom, dir, n, a) && Eligible(dom, w, a) && Matches(dom, w.matcher, a) {
        if a != b { BeyondIsNode(dom, dir, b, a); }
      }
    }
  }

  /** A child or adjacent sibling walk succeeds exactly if the nearest node it looks at matches. */
  lemma {:induction false} WalkIsNearest(dom: Dom, w: Walk, n: nat)
    requires dom.Valid() && n < |dom.elements| && w.combinator.first
    ensures WalkMatches(dom, w, n) <==>
            exists a: nat :: a < n && Beyond(dom, w.combinator.dir, n, a) && Eligible(dom, w, a)
                             && Matches(dom, w.matcher, a)
                             && forall c: nat :: a < c < n && Beyond(dom, w.combinator.dir, n, c) ==>
                                                   !Eligible(dom, w, c)
    decreases n
  {
    var dir := w.combinator.dir;
    var b := dom.Next(dir, n);
    if b >= 0 && !Eligible(dom, w, b) {
      WalkIsNearest(dom, w, b);
      if WalkMatches(dom, w, n) {
        var a: nat :| a < b && Beyond(dom, dir, b, a) && Eligible(dom, w, a) && Matches(dom, w.matcher, a)
                      && forall c: nat :: a < c < b && Beyond(dom, dir, b, c) ==> !Eligible(dom, w, c);
        assert Beyond(dom, dir, n, a);
        forall c: nat | a < c < n && Beyond(dom, dir, n, c) ensures !Eligible(dom, w, c) {
          if c != b { BeyondIsNode(dom, dir, b, c); }
        }
      }
      if a: nat :| a < n && Beyond(dom, dir, n, a) && Eligible(dom, w, a) && Matches(dom, w.matcher, a)
                   && forall c: nat :: a < c < n && Beyond(dom, dir, n, c) ==> !Eligible(dom, w, c) {
        BeyondIsNode(dom, dir, b, a);
        forall c: nat | a < c < b && Beyond(dom, dir, b, c) ensures !Eligible(dom, w, c) {
          assert Beyond(dom, dir, n, c);
        }
      }
    } else if b >= 0 {
      assert Beyond(dom, dir, n, b);
      forall c: nat | Beyond(dom, dir, n, c) ensures c <= b {
        if c != b { BeyondIsNode(dom, dir, b, c); }
      }
    }
  }

  // ----- what is remembered on the nodes -----

  datatype Data = Pending | Yes | No(stamp: nat)

  /** The array `[dirkey, data]` that a walk leaves on a node, in the slot of its direction. */
  datatype Entry = Entry(run: nat, doneName: nat, data: Data)

  /** The slot of a node for one direction. */
  datatype Place = Place(node: nat, dir: Dir)

  type Cache = map<Place, Entry>

  function Names(m: Matcher): set<nat> {
    match m
    case IsContext(_) => {}
    case Compound(_, w, _) => {w.doneName} + Names(w.matcher)
  }

  /** Every walk of the matcher has a number of its own. */
  ghost predicate Distinct(m: Matcher) {
    match m
    case IsContext(_) => true
    case Compound(_, w, _) => w.doneName !in Names(w.matcher) && Distinct(w.matcher)
  }

  /** What walk w noted on node n in the current run is true; and if it was noted for the current
      candidate, the rest of the walk is known to fail too, provided `strong`. */
  ghost predicate NoteOk(dom: Dom, w: Walk, k: Place, data: Data, stamp: nat, strong: bool)
    requires dom.Valid()
  {
    && k.node < |dom.elements| && k.dir == w.combinator.dir && !w.combinator.first
    && match data
       case Pending => false
       case Yes => Matches(dom, w.matcher, k.node)
       case No(s) => && !Matches(dom, w.matcher, k.node)
                     && s <= stamp
                     && (strong && s == stamp ==> !WalkMatches(dom, w, k.node))
  }

  ghost predicate NotesOk(dom: Dom, cache: Cache, run: nat, stamp: nat, w: Walk, strong: bool)
    requires dom.Valid()
  {
    forall k :: k in cache && cache[k].run == run && cache[k].doneName == w.doneName ==>
                  NoteOk(dom, w, k, cache[k].data, stamp, strong)
  }

  ghost predicate CacheOk(dom: Dom, cache: Cache, run: nat, stamp: nat, m: Matcher, strong: bool)
    requires dom.Valid()
  {
    match m
    case IsContext(_) => true
    case Compound(_, w, _) =>
      NotesOk(dom, cache, run, stamp, w, strong) && CacheOk(dom, cache, run, stamp, w.matcher, strong)
  }

  /** Matching at node n writes notes only under the given names, and only before n. */
  ghost predicate OnlyNotes(before: Cache, after: Cache, run: nat, names: set<nat>, n: nat) {
    && (forall k :: k in after && (k.node >= n || after[k].run != run || after[k].doneName !in names) ==>
                      k in before && before[k] == after[k])
    && (forall k :: k in before && k.node >= n ==> k in after && after[k] == before[k])
  }

  lemma {:induction false} OthersOk(dom: Dom, before: Cache, after: Cache, run: nat, stamp: nat, m: Matcher,
                                    strong: bool, names: set<nat>, n: nat)
    requires dom.Valid() && CacheOk(dom, before, run, stamp, m, strong)
    requires OnlyNotes(before, after, run, names, n) && Names(m) !! names
    ensures CacheOk(dom, after, run, stamp, m, strong)
  {
    match m
    case IsContext(_) =>
    case Compound(_, w, _) =>
      assert w.doneName in Names(m);
      OthersOk(dom, before, after, run, stamp, w.matcher, strong, names, n);
  }

  lemma {:induction false} Weaken(dom: Dom, cache: Cache, run: nat, stamp: nat, m: Matcher)
    requires dom.Valid() && CacheOk(dom, cache, run, stamp, m, true)
    ensures CacheOk(dom, cache, run, stamp, m, false)
  {
    match m
    case IsContext(_) =>
    case Compound(_, w, _) => Weaken(dom, cache, run, stamp, w.matcher);
  }

  /** The next candidate has a new stamp, which no note carries yet. */
  lemma {:induction false} NextCandidate(dom: Dom, cache: Cache, run: nat, stamp: nat, m: Matcher)
    requires dom.Valid() && CacheOk(dom, cache, run, stamp, m, false)
    ensures CacheOk(dom, cache, run, stamp + 1, m, true)
  {
    match m
    case IsContext(_) =>
    case Compound(_, w, _) => NextCandidate(dom, cache, run, stamp, w.matcher);
  }

  /** A new run starts without notes. */
  lemma {:induction false} NextRun(dom: Dom, cache: Cache, run: nat, stamp: nat, m: Matcher)
    requires dom.Valid() && forall k :: k in cache ==> cache[k].run < run
    ensures CacheOk(dom, cache, run, stamp, m, true)
  {
    match m
    case IsContext(_) =>
    case Compound(_, w, _) => NextRun(dom, cache, run, stamp, w.matcher);
  }

  // ----- a walk in progress -----

  predicate Noted(cache: Cache, k: Place, run: nat, w: Walk) {
    k in cache && cache[k].run == run && cache[k].doneName == w.doneName
  }

  /** While a walk is at `elem`, the nodes it has just noted as failing may still turn out to lie on
      a successful walk; all other notes for this candidate are final. */
  ghost predicate Walking(dom: Dom, cache: Cache, run: nat, stamp: nat, w: Walk, elem: nat)
    requires dom.Valid() && elem < |dom.elements|
  {
    && NotesOk(dom, cache, run, stamp, w, false)
    && forall k :: Noted(cache, k, run, w) && cache[k].data == No(stamp) && k.node < |dom.elements| ==>
                     !WalkMatches(dom, w, k.node) || (k.node >= elem && WalkMatches(dom, w, elem))
  }

  lemma StartWalk(dom: Dom, cache: Cache, run: nat, stamp: nat, w: Walk, elem: nat)
    requires dom.Valid() && elem < |dom.elements| && NotesOk(dom, cache, run, stamp, w, true)
    ensures Walking(dom, cache, run, stamp, w, elem)
  {
  }

  lemma FailedWalk(dom: Dom, cache: Cache, run: nat, stamp: nat, w: Walk, elem: nat)
    requires dom.Valid() && elem < |dom.elements| && Walking(dom, cache, run, stamp, w, elem)
    requires !WalkMatches(dom, w, elem)
    ensures NotesOk(dom, cache, run, stamp, w, true)
  {
    forall k | k in cache && cache[k].run == run && cache[k].doneName == w.doneName
      ensures NoteOk(dom, w, k, cache[k].data, stamp, true)
    {
      assert Noted(cache, k, run, w);
      assert NoteOk(dom, w, k, cache[k].data, stamp, false);
    }
  }

  lemma AdvanceWalk(dom: Dom, cache: Cache, run: nat, stamp: nat, w: Walk, elem: nat, next: nat)
    requires dom.Valid() && next < elem < |dom.elements| && Walking(dom, cache, run, stamp, w, elem)
    requires WalkMatches(dom, w, next) == WalkMatches(dom, w, elem)
    ensures Walking(dom, cache, run, stamp, w, next)
  {
  }

  /** A fresh note: the slot is claimed, the matcher is asked, the answer is written down. */
  lemma NoteDown(dom: Dom, c0: Cache, c1: Cache, c2: Cache, c3: Cache, run: nat, stamp: nat, w: Walk, elem: nat)
    requires dom.Valid() && elem < |dom.elements| && !w.combinator.first
    requires NotesOk(dom, c0, run, stamp, w, false) && w.doneName !in Names(w.matcher)
    requires var k := Place(elem, w.combinator.dir);
             && c1 == c0[k := Entry(run, w.doneName, Pending)]
             && OnlyNotes(c1, c2, run, Names(w.matcher), elem)
             && c3 == c2[k := Entry(run, w.doneName, if Matches(dom, w.matcher, elem) then Yes else No(stamp))]
    ensures NotesOk(dom, c3, run, stamp, w, false)
    ensures Walking(dom, c0, run, stamp, w, elem) ==> Walking(dom, c3, run, stamp, w, elem)
  {
    var slot := Place(elem, w.combinator.dir);
    forall k | Noted(c3, k, run, w) && k != slot ensures Noted(c0, k, run, w) && c3[k] == c0[k] {
    }
    forall k | k in c3 && c3[k].run == run && c3[k].doneName == w.doneName
      ensures NoteOk(dom, w, k, c3[k].data, stamp, false)
    {
      assert Noted(c3, k, run, w);
    }
  }

  lemma NextOnWalk(dom: Dom, cache: Cache, run: nat, stamp: nat, w: Walk, elem: nat, next: nat)
    requires dom.Valid() && elem < |dom.elements| && !w.combinator.first
    requires dom.Next(w.combinator.dir, elem) == next && Eligible(dom, w, next)
    requires Walking(dom, cache, run, stamp, w, elem)
    ensures WalkMatches(dom, w, elem) <==> Matches(dom, w.matcher, next) || WalkMatches(dom, w, next)
    ensures NotesOk(dom, cache, run, stamp, w, false)
  {
  }

  lemma SlotWritten(dom: Dom, c: Cache, d: Cache, run: nat, stamp: nat, w: Walk, elem: nat, strong: bool)
    requires dom.Valid() && CacheOk(dom, c, run, stamp, w.matcher, strong) && w.doneName !in Names(w.matcher)
    requires exists e: Entry :: e.run == run && e.doneName == w.doneName && d == c[Place(elem, w.combinator.dir) := e]
    ensures CacheOk(dom, d, run, stamp, w.matcher, strong)
  {
    OthersOk(dom, c, d, run, stamp, w.matcher, strong, {w.doneName}, elem + 1);
  }

  lemma OnlyNotesGrow(c0: Cache, c1: Cache, c2: Cache, c3: Cache, run: nat, w: Walk, elem: nat, n: nat)
    requires elem < n
    requires var k := Place(elem, w.combinator.dir);
             && c1.Keys == c0.Keys + {k} && (forall x :: x in c0 && x != k ==> c1[x] == c0[x])
             && OnlyNotes(c1, c2, run, Names(w.matcher), elem)
             && c3.Keys == c2.Keys + {k} && (forall x :: x in c2 && x != k ==> c3[x] == c2[x])
             && c3[k].run == run && c3[k].doneName == w.doneName
    ensures OnlyNotes(c0, c3, run, {w.doneName} + Names(w.matcher), n)
  {
  }

  lemma OnlyNotesTransitive(c0: Cache, c1: Cache, c2: Cache, run: nat, names: set<nat>, n: nat)
    requires OnlyNotes(c0, c1, run, names, n) && OnlyNotes(c1, c2, run, names, n)
    ensures OnlyNotes(c0, c2, run, names, n)
  {
  }

  class Sizzle {
    const dom: Dom
    var cache: Cache
    var done: nat
    var dirruns: nat
    var cachedruns: nat

    constructor (dom: Dom)
      requires dom.Valid()
      ensures this.dom == dom && Valid()
    {
      this.dom := dom;
      cache, done, dirruns, cachedruns := map[], 0, 0, 0;
    }

    ghost predicate Valid()
      reads this
    {
      dom.Valid() && forall k :: k in cache ==> cache[k].run <= dirruns
    }

    /** An element matcher: its filters, last to first, and then what stands left of them. */
    method Match(m: Matcher, n: nat) returns (b: bool)
      requires Valid() && n < |dom.elements| && Distinct(m)
      requires CacheOk(dom, cache, dirruns, cachedruns, m, true)
      modifies this`cache
      ensures Valid() && b == Matches(dom, m, n)
      ensures CacheOk(dom, cache, dirruns, cachedruns, m, !b)
      ensures OnlyNotes(old(cache), cache, dirruns, Names(m), n)
      decreases m, n, 0
    {
      match m
      case IsContext(targets) =>
        b := n in targets;
      case Compound(bypass, walk, filters) =>
        var i := |filters|;
        while i > 0
          invariant 0 <= i <= |filters|
          invariant forall k :: i <= k < |filters| ==> filters[k](n)
        {
          i := i - 1;
          if !filters[i](n) {
            return false;
          }
        }
        if bypass {
          Weaken(dom, cache, dirruns, cachedruns, m);
          return true;
        }
        b := RunWalk(walk, n);
    }

    /** The function made by `addCombinator`. */
    method RunWalk(w: Walk, n: nat) returns (b: bool)
      requires Valid() && n < |dom.elements| && Distinct(w.matcher) && w.doneName !in Names(w.matcher)
      requires NotesOk(dom, cache, dirruns, cachedruns, w, true)
      requires CacheOk(dom, cache, dirruns, cachedruns, w.matcher, true)
      modifies this`cache
      ensures Valid() && b == WalkMatches(dom, w, n)
      ensures NotesOk(dom, cache, dirruns, cachedruns, w, !b)
      ensures CacheOk(dom, cache, dirruns, cachedruns, w.matcher, !b)
      ensures OnlyNotes(old(cache), cache, dirruns, {w.doneName} + Names(w.matcher), n)
      decreases w, n, 0
    {
      var dir := w.combinator.dir;
      if w.combinator.first {
        var elem: int := dom.Next(dir, n);
        while elem >= 0
          invariant -1 <= elem < n
          invariant WalkMatches(dom, w, n) <==>
                    elem >= 0 && if Eligible(dom, w, elem) then Matches(dom, w.matcher, elem)
                                 else WalkMatches(dom, w, elem)
          invariant cache == old(cache)
          decreases elem
        {
          if Eligible(dom, w, elem) {
            b := Match(w.matcher, elem);
            return;
          }
          elem := dom.Next(dir, elem);
        }
        return false;
      }
      StartWalk(dom, cache, dirruns, cachedruns, w, n);
      var elem := n;
      while true
        invariant 0 <= elem <= n && Valid()
        invariant WalkMatches(dom, w, n) <==> WalkMatches(dom, w, elem)
        invariant CacheOk(dom, cache, dirruns, cachedruns, w.matcher, true)
        invariant Walking(dom, cache, dirruns, cachedruns, w, elem)
        invariant OnlyNotes(old(cache), cache, dirruns, {w.doneName} + Names(w.matcher), n)
        decreases elem
      {
        var next := dom.Next(dir, elem);
        if next < 0 {
          FailedWalk(dom, cache, dirruns, cachedruns, w, elem);
          return false;
        }
        if Eligible(dom, w, next) {
          var slot := Place(next, dir);
          if Noted(cache, slot, dirruns, w) {
            var data := cache[slot].data;
            if data == Yes || data == No(cachedruns) {
              if data == Yes {
                Weaken(dom, cache, dirruns, cachedruns, w.matcher);
              } else {
                FailedWalk(dom, cache, dirruns, cachedruns, w, elem);
              }
              return data == Yes;
            }
            AdvanceWalk(dom, cache, dirruns, cachedruns, w, elem, next);
          } else {
            b := Note(w, next, elem, n, old(cache));
            if b {
              return;
            }
          }
        } else {
          AdvanceWalk(dom, cache, dirruns, cachedruns, w, elem, next);
        }
        elem := next;
      }
    }

    /** Claims the slot of node `next`, asks the matcher, and writes the answer down. */
    method Note(w: Walk, next: nat, ghost elem: nat, ghost n: nat, ghost start: Cache) returns (b: bool)
      requires Valid() && next < elem <= n < |dom.elements| && !w.combinator.first
      requires Distinct(w.matcher) && w.doneName !in Names(w.matcher)
      requires dom.Next(w.combinator.dir, elem) == next && Eligible(dom, w, next)
      requires Walking(dom, cache, dirruns, cachedruns, w, elem)
      requires CacheOk(dom, cache, dirruns, cachedruns, w.matcher, true)
      requires OnlyNotes(start, cache, dirruns, {w.doneName} + Names(w.matcher), n)
      modifies this`cache
      ensures Valid() && b == Matches(dom, w.matcher, next)
      ensures CacheOk(dom, cache, dirruns, cachedruns, w.matcher, !b)
      ensures b ==> NotesOk(dom, cache, dirruns, cachedruns, w, false)
      ensures !b ==> Walking(dom, cache, dirruns, cachedruns, w, next)
      ensures OnlyNotes(start, cache, dirruns, {w.doneName} + Names(w.matcher), n)
      decreases w, next, 1
    {
      hide NotesOk, CacheOk, Walking, OnlyNotes, Matches, WalkMatches, Distinct;
      var slot := Place(next, w.combinator.dir);
      ghost var c0 := cache;
      cache := cache[slot := Entry(dirruns, w.doneName, Pending)];
      ghost var c1 := cache;
      SlotWritten(dom, c0, c1, dirruns, cachedruns, w, next, true);
      b := Match(w.matcher, next);
      ghost var c2 := cache;
      cache := cache[slot := Entry(dirruns, w.doneName, if b then Yes else No(cachedruns))];
      SlotWritten(dom, c2, cache, dirruns, cachedruns, w, next, !b);
      NextOnWalk(dom, c0, dirruns, cachedruns, w, elem, next);
      if !b {
        AdvanceWalk(dom, c0, dirruns, cachedruns, w, elem, next);
      }
      NoteDown(dom, c0, c1, c2, cache, dirruns, cachedruns, w, next);
      OnlyNotesGrow(c0, c1, c2, cache, dirruns, w, next, n);
      OnlyNotesTransitive(start, c0, cache, dirruns, {w.doneName} + Names(w.matcher), n);
    }

    // ----- a whole run -----

    /** The elements among `elems` that one of the compiled selectors matches. `matcherCachedRuns` is
        the counter that the compiled function keeps from one run to the next. */
    method SuperMatcher(elementMatchers: seq<Matcher>, matcherCachedRuns: nat, elems: seq<nat>)
      returns (results: seq<nat>, matcherCachedRuns': nat)
      requires Valid() && DistinctAll(elementMatchers)
      requires forall k :: 0 <= k < |elems| ==> elems[k] < |dom.elements|
      modifies this`cache, this`dirruns, this`cachedruns
      ensures Valid() && dirruns == old(dirruns) + 1
      ensures results == Selected(dom, elementMatchers, elems)
      ensures matcherCachedRuns' == matcherCachedRuns + |elems|
    {
      dirruns := dirruns + 1;
      cachedruns := matcherCachedRuns;
      matcherCachedRuns' := matcherCachedRuns;
      results := [];
      forall j | 0 <= j < |elementMatchers|
        ensures CacheOk(dom, cache, dirruns, cachedruns, elementMatchers[j], true)
      {
        NextRun(dom, cache, dirruns, cachedruns, elementMatchers[j]);
      }
      for i := 0 to |elems|
        invariant Valid() && dirruns == old(dirruns) + 1
        invariant cachedruns == matcherCachedRuns' == matcherCachedRuns + i
        invariant results == Selected(dom, elementMatchers, elems[..i])
        invariant forall j :: 0 <= j < |elementMatchers| ==>
                    CacheOk(dom, cache, dirruns, cachedruns, elementMatchers[j], true)
      {
        var b := MatchAny(elementMatchers, elems[i]);
        if b {
          results := results + [elems[i]];
        }
        forall j | 0 <= j < |elementMatchers|
          ensures CacheOk(dom, cache, dirruns, cachedruns + 1, elementMatchers[j], true)
        {
          NextCandidate(dom, cache, dirruns, cachedruns, elementMatchers[j]);
        }
        matcherCachedRuns' := matcherCachedRuns' + 1;
        cachedruns := matcherCachedRuns';
        assert elems[..i + 1][..i] == elems[..i];
      }
      assert elems[..|elems|] == elems;
    }

    method MatchAny(elementMatchers: seq<Matcher>, elem: nat) returns (b: bool)
      requires Valid() && DistinctAll(elementMatchers) && elem < |dom.elements|
      requires forall j :: 0 <= j < |elementMatchers| ==>
                 CacheOk(dom, cache, dirruns, cachedruns, elementMatchers[j], true)
      modifies this`cache
      ensures Valid()
      ensures b <==> exists j :: 0 <= j < |elementMatchers| && Matches(dom, elementMatchers[j], elem)
      ensures forall j :: 0 <= j < |elementMatchers| ==>
                CacheOk(dom, cache, dirruns, cachedruns, elementMatchers[j], false)
    {
      for j := 0 to |elementMatchers|
        invariant Valid()
        invariant forall k :: 0 <= k < |elementMatchers| ==>
                    CacheOk(dom, cache, dirruns, cachedruns, elementMatchers[k], true)
        invariant forall k :: 0 <= k < j ==> !Matches(dom, elementMatchers[k], elem)
      {
        ghost var before := cache;
        b := Match(elementMatchers[j], elem);
        forall k | 0 <= k < |elementMatchers| && k != j
          ensures CacheOk(dom, cache, dirruns, cachedruns, elementMatchers[k], true)
        {
          OthersOk(dom, before, cache, dirruns, cachedruns, elementMatchers[k], true, Names(elementMatchers[j]), elem);
        }
        if b {
          forall k | 0 <= k < |elementMatchers| && k != j
            ensures CacheOk(dom, cache, dirruns, cachedruns, elementMatchers[k], false)
          {
            Weaken(dom, cache, dirruns, cachedruns, elementMatchers[k]);
          }
          return;
        }
      }
      forall k | 0 <= k < |elementMatchers|
        ensures CacheOk(dom, cache, dirruns, cachedruns, elementMatchers[k], false)
      {
        Weaken(dom, cache, dirruns, cachedruns, elementMatchers[k]);
      }
      b := false;
    }

    // ----- compiling a selector -----

    /** Turns the tokens of one selector into a matcher, from left to right. `top` tells whether the
        search is in the whole document, so that nothing need stand left of the first compound. */
    method MatcherFromTokens(tokens: seq<Token>, targets: set<nat>, top: bool) returns (m: Matcher)
      requires dom.Valid()
      modifies this`done
      ensures done > old(done) && NamesIn(m, old(done), done) && Distinct(m)
      ensures forall n: nat :: n < |dom.elements| ==>
                (Matches(dom, m, n) <==> Selects(dom, tokens, |tokens|, targets, top, n))
      ensures forall n: nat :: n < |dom.elements| ==>
                (Matches(dom, m, n) <==> Reaches(dom, tokens, |tokens|, targets, top, n))
    {
      var leading := tokens != [] && tokens[0].Relative?;
      var implicit := if leading then tokens[0].combinator else DESCENDANT;
      var i := if leading then 1 else 0;
      var matchContext := Walk(IsContext(targets), implicit, true, done);
      done := done + 2;
      m := Compound(!leading && top, matchContext, []);
      forall n: nat | n < |dom.elements| ensures Matches(dom, m, n) <==> Selects(dom, tokens, i, targets, top, n) {
        AnchorIsWalk(dom, matchContext, n);
      }
      while i < |tokens|
        invariant i <= |tokens| && (tokens != [] && tokens[0].Relative? ==> i > 0)
        invariant done >= old(done) + 2 && NamesIn(m, old(done), done) && Distinct(m) && m.Compound?
        invariant forall n: nat :: n < |dom.elements| ==>
                    (Matches(dom, m, n) <==> Selects(dom, tokens, i, targets, top, n))
      {
        ghost var before := m;
        match tokens[i] {
          case Relative(combinator) =>
            m := Compound(false, Walk(m, combinator, false, done), []);
            done := done + 1;
            NamesWiden(before, old(done), done - 1, done);
            forall n: nat | n < |dom.elements|
              ensures Matches(dom, m, n) <==> Selects(dom, tokens, i + 1, targets, top, n)
            {
              SameWalk(dom, m.walk, tokens, i, targets, top, n);
            }
          case Filter(test) =>
            m := m.(filters := m.filters + [test]);
            NamesWiden(before, old(done), done, done);
            assert Names(m) == Names(before);
            forall n: nat | n < |dom.elements|
              ensures Matches(dom, m, n) <==> Selects(dom, tokens, i + 1, targets, top, n)
            {
              FilterAdded(dom, before, test, n);
            }
        }
        i := i + 1;
      }
      AllChains(dom, tokens, targets, top);
    }

    /** Compiles a selector group, last selector first. */
    method Compile(groups: seq<seq<Token>>, targets: set<nat>, top: bool) returns (elementMatchers: seq<Matcher>)
      requires dom.Valid()
      modifies this`done
      ensures |elementMatchers| == |groups| && DistinctAll(elementMatchers)
      ensures forall j, n: nat :: 0 <= j < |groups| && n < |dom.elements| ==>
                (Matches(dom, elementMatchers[j], n)
                 <==> Selects(dom, groups[|groups| - 1 - j], |groups[|groups| - 1 - j]|, targets, top, n))
    {
      elementMatchers := [];
      var i := |groups|;
      while i > 0
        invariant 0 <= i <= |groups| && |elementMatchers| == |groups| - i
        invariant DistinctAll(elementMatchers)
        invariant forall j :: 0 <= j < |elementMatchers| ==> NamesIn(elementMatchers[j], 0, done)
        invariant forall j, n: nat :: 0 <= j < |elementMatchers| && n < |dom.elements| ==>
                    (Matches(dom, elementMatchers[j], n)
                     <==> Selects(dom, groups[|groups| - 1 - j], |groups[|groups| - 1 - j]|, targets, top, n))
      {
        i := i - 1;
        ghost var lo := done;
        var m := MatcherFromTokens(groups[i], targets, top);
        forall j | 0 <= j < |elementMatchers|
          ensures NamesIn(elementMatchers[j], 0, done) && Names(elementMatchers[j]) !! Names(m)
        {
          NamesWiden(elementMatchers[j], 0, lo, done);
        }
        elementMatchers := elementMatchers + [m];
      }
    }

    /** From selector text to result: whatever earlier runs have left on the nodes, the elements found
        are exactly those that one of the selectors selects, in the order of `elems`. */
    method Find(groups: seq<seq<Token>>, targets: set<nat>, top: bool, elems: seq<nat>) returns (results: seq<nat>)
      requires Valid() && forall k :: 0 <= k < |elems| ==> elems[k] < |dom.elements|
      modifies this
      ensures Valid()
      ensures results == SelectedBy(dom, groups, targets, top, elems)
      ensures forall n :: n in results <==>
                n in elems && exists g :: 0 <= g < |groups| && Reaches(dom, groups[g], |groups[g]|, targets, top, n)
      ensures (forall i, j :: 0 <= i < j < |elems| ==> elems[i] < elems[j]) ==>
                forall i, j :: 0 <= i < j < |results| ==> results[i] < results[j]
    {
      var elementMatchers := Compile(groups, targets, top);
      var runs;
      results, runs := SuperMatcher(elementMatchers, 0, elems);
      SameSelection(dom, elementMatchers, groups, targets, top, elems);
      SelectedAre(dom, groups, targets, top, elems);
    }
  }

  /** The nodes selected, in the order of the candidates. */
  lemma {:induction false} SelectedAre(dom: Dom, groups: seq<seq<Token>>, targets: set<nat>, top: bool, elems: seq<nat>)
    requires dom.Valid() && forall k :: 0 <= k < |elems| ==> elems[k] < |dom.elements|
    ensures var results := SelectedBy(dom, groups, targets, top, elems);
            && (forall n :: n in results <==>
                  n in elems && exists g :: 0 <= g < |groups| && Reaches(dom, groups[g], |groups[g]|, targets, top, n))
            && ((forall i, j :: 0 <= i < j < |elems| ==> elems[i] < elems[j]) ==>
                  forall i, j :: 0 <= i < j < |results| ==> results[i] < results[j])
  {
    if elems != [] {
      var init, last := elems[..|elems| - 1], elems[|elems| - 1];
      SelectedAre(dom, groups, targets, top, init);
      assert elems == init + [last];
      forall g | 0 <= g < |groups|
        ensures Selects(dom, groups[g], |groups[g]|, targets, top, last)
                <==> Reaches(dom, groups[g], |groups[g]|, targets, top, last)
      {
        SelectsIsChain(dom, groups[g], |groups[g]|, targets, top, last);
      }
      hide Selects, Reaches;
      var results := SelectedBy(dom, groups, targets, top, init);
      forall i | 0 <= i < |results| ensures results[i] in init { assert results[i] in results; }
    }
  }

  /** What a selector group selects, defined on its tokens alone. */
  ghost function SelectedBy(dom: Dom, groups: seq<seq<Token>>, targets: set<nat>, top: bool, elems: seq<nat>): seq<nat>
    requires dom.Valid() && forall k :: 0 <= k < |elems| ==> elems[k] < |dom.elements|
  {
    if elems == [] then []
    else
      var last := |elems| - 1;
      SelectedBy(dom, groups, targets, top, elems[..last])
      + (if exists g :: 0 <= g < |groups| && Selects(dom, groups[g], |groups[g]|, targets, top, elems[last])
         then [elems[last]] else [])
  }

  lemma {:induction false} SameSelection(dom: Dom, ms: seq<Matcher>, groups: seq<seq<Token>>, targets: set<nat>,
                                         top: bool, elems: seq<nat>)
    requires dom.Valid() && forall k :: 0 <= k < |elems| ==> elems[k] < |dom.elements|
    requires |ms| == |groups|
    requires forall j, n: nat :: 0 <= j < |ms| && n < |dom.elements| ==>
               (Matches(dom, ms[j], n)
                <==> Selects(dom, groups[|ms| - 1 - j], |groups[|ms| - 1 - j]|, targets, top, n))
    ensures Selected(dom, ms, elems) == SelectedBy(dom, groups, targets, top, elems)
  {
    if elems != [] {
      var n := elems[|elems| - 1];
      SameSelection(dom, ms, groups, targets, top, elems[..|elems| - 1]);
      if g :| 0 <= g < |groups| && Selects(dom, groups[g], |groups[g]|, targets, top, n) {
        assert |ms| - 1 - (|ms| - 1 - g) == g;
        assert Matches(dom, ms[|ms| - 1 - g], n);
      }
    }
  }

  ghost predicate DistinctAll(ms: seq<Matcher>) {
    && (forall j :: 0 <= j < |ms| ==> Distinct(ms[j]))
    && (forall j, k :: 0 <= j < k < |ms| ==> Names(ms[j]) !! Names(ms[k]))
  }

  function Selected(dom: Dom, ms: seq<Matcher>, elems: seq<nat>): seq<nat>
    requires dom.Valid() && forall k :: 0 <= k < |elems| ==> elems[k] < |dom.elements|
  {
    if elems == [] then []
    else
      var last := |elems| - 1;
      Selected(dom, ms, elems[..last])
      + (if exists j :: 0 <= j < |ms| && Matches(dom, ms[j], elems[last]) then [elems[last]] else [])
  }

  ghost predicate NamesIn(m: Matcher, lo: nat, hi: nat) {
    forall x :: x in Names(m) ==> lo <= x < hi
  }

  lemma NamesWiden(m: Matcher, lo: nat, hi: nat, hi': nat)
    requires NamesIn(m, lo, hi) && hi <= hi'
    ensures NamesIn(m, lo, hi') && forall x :: x >= hi ==> x !in Names(m)
  {
  }

  /** What the first k tokens of a selector say about node n, read from right to left. */
  ghost predicate Selects(dom: Dom, tokens: seq<Token>, k: nat, targets: set<nat>, top: bool, n: nat)
    requires dom.Valid() && n < |dom.elements| && k <= |tokens|
    decreases k, n, 1
  {
    if k == 0 then top || Anchored(dom, DESCENDANT, targets, n)
    else
      match tokens[k - 1]
      case Filter(test) => test(n) && Selects(dom, tokens, k - 1, targets, top, n)
      case Relative(c) =>
        if k == 1 then Anchored(dom, c, targets, n)
        else SelectsBeyond(dom, tokens, k - 1, targets, top, n, c)
  }

  /** Some element that the combinator leads to from n satisfies the first k tokens. */
  ghost predicate SelectsBeyond(dom: Dom, tokens: seq<Token>, k: nat, targets: set<nat>, top: bool, n: nat,
                                c: Combinator)
    requires dom.Valid() && n < |dom.elements| && k <= |tokens|
    decreases k, n, 2
  {
    var a := dom.Next(c.dir, n);
    if a < 0 then false
    else if !dom.elements[a] then SelectsBeyond(dom, tokens, k, targets, top, a, c)
    else Selects(dom, tokens, k, targets, top, a) || (!c.first && SelectsBeyond(dom, tokens, k, targets, top, a, c))
  }

  /** The combinator leads from n to a context node; ancestors need not be elements for that. */
  ghost predicate Anchored(dom: Dom, c: Combinator, targets: set<nat>, n: nat)
    requires dom.Valid() && n < |dom.elements|
    decreases n
  {
    var a := dom.Next(c.dir, n);
    if a < 0 then false
    else if !dom.elements[a] && !c.dir.ParentNode? then Anchored(dom, c, targets, a)
    else a in targets || (!c.first && Anchored(dom, c, targets, a))
  }

  lemma {:induction false} AnchorIsWalk(dom: Dom, w: Walk, n: nat)
    requires dom.Valid() && n < |dom.elements| && w.base && w.matcher.IsContext?
    ensures WalkMatches(dom, w, n) <==> Anchored(dom, w.combinator, w.matcher.targets, n)
    decreases n
  {
    var a := dom.Next(w.combinator.dir, n);
    if a >= 0 { AnchorIsWalk(dom, w, a); }
  }

  lemma {:induction false} SameWalk(dom: Dom, w: Walk, tokens: seq<Token>, k: nat, targets: set<nat>, top: bool, n: nat)
    requires dom.Valid() && n < |dom.elements| && k <= |tokens| && !w.base
    requires forall x: nat :: x < |dom.elements| ==>
               (Matches(dom, w.matcher, x) <==> Selects(dom, tokens, k, targets, top, x))
    ensures WalkMatches(dom, w, n) <==> SelectsBeyond(dom, tokens, k, targets, top, n, w.combinator)
    decreases n
  {
    var a := dom.Next(w.combinator.dir, n);
    if a >= 0 { SameWalk(dom, w, tokens, k, targets, top, a); }
  }

  lemma FilterAdded(dom: Dom, m: Matcher, test: nat -> bool, n: nat)
    requires dom.Valid() && n < |dom.elements| && m.Compound?
    ensures Matches(dom, m.(filters := m.filters + [test]), n) <==> Matches(dom, m, n) && test(n)
  {
    var filters := m.filters + [test];
    if Matches(dom, m.(filters := filters), n) {
      assert filters[|m.filters|](n);
      forall k | 0 <= k < |m.filters| ensures m.filters[k](n) { assert filters[k](n); }
    }
  }

  // ----- what a selector means, in one formula -----

  /** The combinator leads from n to a, which lies in its direction: to the nearest one that counts, or to any
      of them. Elements count, and for the context of a search also the document above them. */
  ghost predicate Leads(dom: Dom, c: Combinator, context: bool, n: nat, a: nat)
    requires dom.Valid() && n < |dom.elements|
  {
    && a < n && Beyond(dom, c.dir, n, a) && Counts(dom, c, context, a)
    && (c.first ==> forall x: nat :: a < x < n && Beyond(dom, c.dir, n, x) ==> !Counts(dom, c, context, x))
  }

  predicate Counts(dom: Dom, c: Combinator, context: bool, a: nat)
    requires a < |dom.elements|
  {
    dom.elements[a] || (context && c.dir.ParentNode?)
  }

  /** The first step of a combinator. */
  lemma LeadsFirst(dom: Dom, c: Combinator, context: bool, n: nat, a: nat)
    requires dom.Valid() && n < |dom.elements|
    ensures var b := dom.Next(c.dir, n);
            Leads(dom, c, context, n, a) <==>
              b >= 0 && ((a == b && Counts(dom, c, context, b))
                         || (Leads(dom, c, context, b, a) && !(c.first && Counts(dom, c, context, b))))
  {
    var b := dom.Next(c.dir, n);
    if b >= 0 {
      forall x: nat | Beyond(dom, c.dir, b, x) ensures x < b { BeyondIsNode(dom, c.dir, b, x); }
      assert Beyond(dom, c.dir, n, b);
      assert forall x: nat :: Beyond(dom, c.dir, n, x) <==> x == b || Beyond(dom, c.dir, b, x);
      hide Beyond, Counts;
    }
  }

  lemma {:induction false} AnchoredMeans(dom: Dom, c: Combinator, targets: set<nat>, n: nat)
    requires dom.Valid() && n < |dom.elements|
    ensures Anchored(dom, c, targets, n) <==> exists a: nat :: a in targets && Leads(dom, c, true, n, a)
    decreases n
  {
    var b := dom.Next(c.dir, n);
    forall a: nat | a in targets
      ensures Leads(dom, c, true, n, a) <==>
                b >= 0 && ((a == b && Counts(dom, c, true, b))
                           || (Leads(dom, c, true, b, a) && !(c.first && Counts(dom, c, true, b))))
    {
      LeadsFirst(dom, c, true, n, a);
    }
    if b >= 0 { AnchoredMeans(dom, c, targets, b); }
    hide Leads;
  }

  lemma {:induction false} SelectsBeyondMeans(dom: Dom, tokens: seq<Token>, k: nat, targets: set<nat>, top: bool,
                                              n: nat, c: Combinator)
    requires dom.Valid() && n < |dom.elements| && k <= |tokens|
    ensures SelectsBeyond(dom, tokens, k, targets, top, n, c) <==>
            exists a: nat :: Leads(dom, c, false, n, a) && a < |dom.elements|
                             && Selects(dom, tokens, k, targets, top, a)
    decreases n
  {
    var b := dom.Next(c.dir, n);
    forall a: nat
      ensures Leads(dom, c, false, n, a) <==>
                b >= 0 && ((a == b && Counts(dom, c, false, b))
                           || (Leads(dom, c, false, b, a) && !(c.first && Counts(dom, c, false, b))))
    {
      LeadsFirst(dom, c, false, n, a);
    }
    if b >= 0 {
      SelectsBeyondMeans(dom, tokens, k, targets, top, b, c);
      LeadsFirst(dom, c, false, n, b);
      if a: nat :| Leads(dom, c, false, b, a) && a < |dom.elements| && Selects(dom, tokens, k, targets, top, a) {
        LeadsFirst(dom, c, false, n, a);
      }
    }
    hide Leads, Selects;
  }

  /** What a token says about node n, where a is the node that what stands left of it is about. */
  ghost predicate Link(dom: Dom, token: Token, n: nat, a: nat)
    requires dom.Valid() && n < |dom.elements|
  {
    match token
    case Filter(test) => a == n && test(n)
    case Relative(c) => Leads(dom, c, false, n, a)
  }

  /** The nodes to which the first k tokens lead, from right to left: path[j] satisfies the first j of them.
      A leading combinator leads to a context node; otherwise the path may have to end below one. */
  ghost predicate Chain(dom: Dom, tokens: seq<Token>, k: nat, targets: set<nat>, top: bool, path: seq<nat>)
    requires dom.Valid() && k <= |tokens|
  {
    && |path| == k + 1 && (forall j :: 0 <= j <= k ==> path[j] < |dom.elements|)
    && (forall j :: 2 <= j <= k ==> Link(dom, tokens[j - 1], path[j], path[j - 1]))
    && (if tokens != [] && tokens[0].Relative? then
          k >= 1 && path[0] in targets && Leads(dom, tokens[0].combinator, true, path[1], path[0])
        else
          && (k >= 1 ==> Link(dom, tokens[0], path[1], path[0]))
          && (top || exists a: nat :: a in targets && Leads(dom, DESCENDANT, true, path[0], a)))
  }

  ghost predicate Reaches(dom: Dom, tokens: seq<Token>, k: nat, targets: set<nat>, top: bool, n: nat)
    requires dom.Valid() && k <= |tokens|
  {
    exists path :: Chain(dom, tokens, k, targets, top, path) && path[k] == n
  }

  lemma ChainSnoc(dom: Dom, tokens: seq<Token>, k: nat, targets: set<nat>, top: bool, path: seq<nat>, n: nat)
    requires dom.Valid() && k < |tokens| && n < |dom.elements| && |path| == k + 1
    requires k > 0 || tokens[0].Filter?
    ensures Chain(dom, tokens, k + 1, targets, top, path + [n]) <==>
            Chain(dom, tokens, k, targets, top, path) && Link(dom, tokens[k], n, path[k])
  {
    hide Leads, Link;
    var longer := path + [n];
    assert longer[k] == path[k] && longer[k + 1] == n;
    assert forall j :: 0 <= j <= k ==> longer[j] == path[j];
  }

  lemma {:induction false} SelectsIsChain(dom: Dom, tokens: seq<Token>, k: nat, targets: set<nat>, top: bool, n: nat)
    requires dom.Valid() && n < |dom.elements| && k <= |tokens|
    requires tokens != [] && tokens[0].Relative? ==> k > 0
    ensures Selects(dom, tokens, k, targets, top, n) <==> Reaches(dom, tokens, k, targets, top, n)
    decreases k
  {
    if k == 0 {
      AnchoredMeans(dom, DESCENDANT, targets, n);
      assert Selects(dom, tokens, 0, targets, top, n) <==> Chain(dom, tokens, 0, targets, top, [n]);
      if path :| Chain(dom, tokens, 0, targets, top, path) && path[0] == n { assert path == [n]; }
    } else if k == 1 && tokens[0].Relative? {
      LeadingIsChain(dom, tokens, targets, top, n);
    } else {
      var j := k - 1;
      forall a: nat | a < |dom.elements|
        ensures Selects(dom, tokens, j, targets, top, a) <==> Reaches(dom, tokens, j, targets, top, a)
      {
        SelectsIsChain(dom, tokens, j, targets, top, a);
      }
      NextInChain(dom, tokens, j, targets, top, n);
    }
  }

  lemma AllChains(dom: Dom, tokens: seq<Token>, targets: set<nat>, top: bool)
    requires dom.Valid()
    ensures forall n: nat :: n < |dom.elements| ==>
              (Selects(dom, tokens, |tokens|, targets, top, n) <==> Reaches(dom, tokens, |tokens|, targets, top, n))
  {
    forall n: nat | n < |dom.elements|
      ensures Selects(dom, tokens, |tokens|, targets, top, n) <==> Reaches(dom, tokens, |tokens|, targets, top, n)
    {
      SelectsIsChain(dom, tokens, |tokens|, targets, top, n);
    }
  }

  lemma LeadingIsChain(dom: Dom, tokens: seq<Token>, targets: set<nat>, top: bool, n: nat)
    requires dom.Valid() && n < |dom.elements| && tokens != [] && tokens[0].Relative?
    ensures Selects(dom, tokens, 1, targets, top, n) <==> Reaches(dom, tokens, 1, targets, top, n)
  {
    var c := tokens[0].combinator;
    AnchoredMeans(dom, c, targets, n);
    if a: nat :| a in targets && Leads(dom, c, true, n, a) {
      assert Chain(dom, tokens, 1, targets, top, [a, n]) && [a, n][1] == n;
    }
  }

  lemma NextInChain(dom: Dom, tokens: seq<Token>, k: nat, targets: set<nat>, top: bool, n: nat)
    requires dom.Valid() && n < |dom.elements| && k < |tokens|
    requires tokens[0].Relative? ==> k > 0
    requires forall a: nat :: a < |dom.elements| ==>
               (Selects(dom, tokens, k, targets, top, a) <==> Reaches(dom, tokens, k, targets, top, a))
    ensures Selects(dom, tokens, k + 1, targets, top, n) <==> Reaches(dom, tokens, k + 1, targets, top, n)
  {
    SelectsNext(dom, tokens, k, targets, top, n);
    var m := k + 1;
    hide Selects, Link, Chain;
    if a: nat :| Link(dom, tokens[k], n, a) && a < |dom.elements| && Reaches(dom, tokens, k, targets, top, a) {
      var path :| Chain(dom, tokens, k, targets, top, path) && path[k] == a;
      ChainSize(dom, tokens, k, targets, top, path);
      ChainSnoc(dom, tokens, k, targets, top, path, n);
      assert (path + [n])[k + 1] == n;
    }
    if path :| Chain(dom, tokens, m, targets, top, path) && path[m] == n {
      ChainSize(dom, tokens, m, targets, top, path);
      assert path == path[..m] + [n];
      ChainSnoc(dom, tokens, k, targets, top, path[..m], n);
      assert Reaches(dom, tokens, k, targets, top, path[k]);
    }
  }

  lemma ChainSize(dom: Dom, tokens: seq<Token>, k: nat, targets: set<nat>, top: bool, path: seq<nat>)
    requires dom.Valid() && k <= |tokens| && Chain(dom, tokens, k, targets, top, path)
    ensures |path| == k + 1 && forall j :: 0 <= j <= k ==> path[j] < |dom.elements|
  {
  }

  lemma SelectsNext(dom: Dom, tokens: seq<Token>, k: nat, targets: set<nat>, top: bool, n: nat)
    requires dom.Valid() && n < |dom.elements| && k < |tokens|
    requires tokens[0].Relative? ==> k > 0
    ensures Selects(dom, tokens, k + 1, targets, top, n) <==>
            exists a: nat :: Link(dom, tokens[k], n, a) && a < |dom.elements|
                             && Selects(dom, tokens, k, targets, top, a)
  {
    match tokens[k]
    case Filter(test) => assert Link(dom, tokens[k], n, n) <==> test(n);
    case Relative(c) =>
      SelectsBeyondMeans(dom, tokens, k, targets, top, n, c);
      assert forall a: nat :: Link(dom, tokens[k], n, a) <==> Leads(dom, c, false, n, a);
      hide Leads;
  }

  /** Where the parent, or the preceding sibling, is an element, ">" and "+" lead there and nowhere else; " "
      and "~" lead to every element in that direction. */
  lemma CombinatorsMean(dom: Dom, n: nat, a: nat)
    requires dom.Valid() && n < |dom.elements|
    ensures dom.parents[n] >= 0 && dom.elements[dom.parents[n]] ==>
              (Leads(dom, CHILD, false, n, a) <==> a == dom.parents[n])
    ensures dom.previous[n] >= 0 && dom.elements[dom.previous[n]] ==>
              (Leads(dom, ADJACENT, false, n, a) <==> a == dom.previous[n])
    ensures Leads(dom, DESCENDANT, false, n, a) <==> a < n && dom.elements[a] && Beyond(dom, ParentNode, n, a)
    ensures Leads(dom, SIBLING, false, n, a) <==> a < n && dom.elements[a] && Beyond(dom, PreviousSibling, n, a)
  {
    LeadsFirst(dom, CHILD, false, n, a);
    LeadsFirst(dom, ADJACENT, false, n, a);
  }

  /** Above the span in div > p > span: "div > span" does not select it, "div span" does. */
  lemma ChildIsNotDescendant(c: Combinator)
    requires c.dir == ParentNode
    ensures var dom := Dom([true, true, true], [-1, 0, 1], [-1, -1, -1]);
            var tokens := [Filter(n => n == 0), Relative(c), Filter(n => n == 2)];
            dom.Valid() && (Reaches(dom, tokens, 3, {}, true, 2) <==> !c.first)
  {
    var dom := Dom([true, true, true], [-1, 0, 1], [-1, -1, -1]);
    var tokens := [Filter(n => n == 0), Relative(c), Filter(n => n == 2)];
    assert Selects(dom, tokens, 0, {}, true, 0);
    assert Selects(dom, tokens, 1, {}, true, 0) && !Selects(dom, tokens, 1, {}, true, 1);
    assert SelectsBeyond(dom, tokens, 1, {}, true, 1, c);
    assert SelectsBeyond(dom, tokens, 1, {}, true, 2, c) <==> !c.first;
    assert Selects(dom, tokens, 2, {}, true, 2) <==> !c.first;
    SelectsIsChain(dom, tokens, 3, {}, true, 2);
    hide Reaches, SelectsBeyond;
  }
}
