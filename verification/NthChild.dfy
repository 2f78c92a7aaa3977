/** `:nth-child` and its relatives: finding the position of an element among its siblings with the
    help of positions remembered from earlier, and the test on that position. */
module NthChild {
  import opened Wrappers

  /** How many of the first k nodes count. */
  function Count(counts: seq<bool>, k: nat): nat
    requires k <= |counts|
  {
    if k == 0 then 0 else Count(counts, k - 1) + (if counts[k - 1] then 1 else 0)
  }

  function Reverse(s: seq<bool>): seq<bool> {
    seq(|s|, k requires 0 <= k < |s| => s[|s| - 1 - k])
  }

  /** The nodes in the order of a walk. */
  function Walk(counts: seq<bool>, forward: bool): seq<bool> {
    if forward then counts else Reverse(counts)
  }

  lemma WalkAt(counts: seq<bool>, k: nat, forward: bool)
    requires k < |counts|
    ensures |Walk(counts, forward)| == |counts|
    ensures Walk(counts, forward)[k] == counts[if forward then k else |counts| - 1 - k]
  {
  }

  /** The 1-based position of node e among the nodes that count, from the front or from the back. */
  function Position(counts: seq<bool>, e: nat, forward: bool): nat
    requires e < |counts|
  {
    Count(Walk(counts, forward), if forward then e + 1 else |counts| - e)
  }

  /** The positions from the front and from the back add up. */
  lemma PositionsAddUp(counts: seq<bool>, e: nat)
    requires e < |counts| && counts[e]
    ensures Position(counts, e, true) + Position(counts, e, false) == Count(counts, |counts|) + 1
  {
    CountReverse(counts, |counts| - e);
  }

  lemma {:induction false} CountReverse(counts: seq<bool>, k: nat)
    requires k <= |counts|
    ensures Count(Reverse(counts), k) + Count(counts, |counts| - k) == Count(counts, |counts|)
  {
    if k > 0 { CountReverse(counts, k - 1); }
  }

  lemma {:induction false} CountIsSize(counts: seq<bool>, k: nat)
    requires k <= |counts|
    ensures Count(counts, k) == |set i | 0 <= i < k && counts[i]|
  {
    if k > 0 {
      CountIsSize(counts, k - 1);
      var fewer := set i | 0 <= i < k - 1 && counts[i];
      assert (set i | 0 <= i < k && counts[i]) == if counts[k - 1] then fewer + {k - 1} else fewer;
    }
  }

  /** The position from the front is the number of nodes that count up to this one, the position from the
      back that of those from this one on. */
  lemma PositionIsSize(counts: seq<bool>, e: nat)
    requires e < |counts|
    ensures Position(counts, e, true) == |set i | 0 <= i <= e && counts[i]|
    ensures Position(counts, e, false) == |set i | e <= i < |counts| && counts[i]|
  {
    CountIsSize(counts, e + 1);
    assert (set i | 0 <= i <= e && counts[i]) == set i | 0 <= i < e + 1 && counts[i];
    CountReverse(counts, |counts| - e);
    CountIsSize(counts, e);
    CountIsSize(counts, |counts|);
    var before, after := set i | 0 <= i < e && counts[i], set i | e <= i < |counts| && counts[i];
    assert before !! after && (set i | 0 <= i < |counts| && counts[i]) == before + after;
  }

  /** `[dirruns, nodeIndex, diff]`, kept on the parent. */
  datatype Seek = Seek(run: nat, nodeIndex: nat, diff: nat)

  /** `[dirruns, diff]`, kept on a child. */
  datatype Stamp = Stamp(run: nat, diff: nat)

  /** A parent node with its children: `elements[k]` tells whether child k is an element. The parent
      remembers where the last forward search ended, and its children their positions from the back. */
  class Parent {
    const elements: seq<bool>
    var outerCache: Option<Seek>
    var lastCache: map<nat, Stamp>

    constructor (elements: seq<bool>)
      ensures this.elements == elements && outerCache == None && lastCache == map[] && Valid(0)
    {
      this.elements := elements;
      outerCache, lastCache := None, map[];
    }

    /** Everything that was remembered during run `dirruns` is a true position, and nothing comes from a
        later run. */
    ghost predicate Valid(dirruns: nat)
      reads this
    {
      && (outerCache.Some? ==> outerCache.value.run <= dirruns)
      && (forall k :: k in lastCache ==> lastCache[k].run <= dirruns)
      && (outerCache.Some? && outerCache.value.run == dirruns ==>
            && outerCache.value.nodeIndex < |elements|
            && elements[outerCache.value.nodeIndex]
            && outerCache.value.diff == Position(elements, outerCache.value.nodeIndex, true))
      && (forall k :: k in lastCache && lastCache[k].run == dirruns && k < |elements| ==>
            lastCache[k].diff == Position(elements, k, false))
    }

    /** `:nth-child`: the search resumes where the previous one ended and wraps around once. */
    method SeekForward(elem: nat, dirruns: nat) returns (diff: nat)
      requires Valid(dirruns) && elem < |elements| && elements[elem]
      modifies this`outerCache
      ensures Valid(dirruns)
      ensures diff == Position(elements, elem, true)
      ensures diff == |set i | 0 <= i <= elem && elements[i]|
    {
      PositionIsSize(elements, elem);
      var hit := outerCache.Some? && outerCache.value.run == dirruns;
      var nodeIndex: nat := if hit then outerCache.value.nodeIndex else 0;
      diff := if hit then outerCache.value.diff else 0;
      // index 0 is falsy, so a search that ended on the first child starts over
      var node: Option<nat> := if hit && nodeIndex != 0 then Some(nodeIndex) else None;
      var start: Option<nat> := Some(0);
      while true
        invariant node.Some? ==> node.value == nodeIndex < |elements| && diff == Count(elements, nodeIndex + 1)
        invariant if start.Some? then start.value == 0 else node.Some? && nodeIndex < elem
        decreases if start.Some? then 1 else 0, |elements| - nodeIndex
      {
        nodeIndex := nodeIndex + 1;
        if node.Some? && node.value + 1 < |elements| {
          node := Some(node.value + 1);
        } else {
          diff, nodeIndex := 0, 0;
          node := start;
          start := None;
        }
        if elements[node.value] {
          diff := diff + 1;
          if node.value == elem {
            outerCache := Some(Seek(dirruns, nodeIndex, diff));
            return;
          }
        }
      }
    }

    /** `:nth-last-child`: the position is looked up on the element, or found by walking back from the
        last child, leaving a note on every element on the way. */
    method SeekBackward(elem: nat, dirruns: nat) returns (diff: nat)
      requires Valid(dirruns) && elem < |elements| && elements[elem]
      modifies this`lastCache
      ensures Valid(dirruns)
      ensures diff == Position(elements, elem, false)
      ensures diff == |set i | elem <= i < |elements| && elements[i]|
    {
      PositionIsSize(elements, elem);
      if elem in lastCache && lastCache[elem].run == dirruns {
        return lastCache[elem].diff;
      }
      diff := 0;
      var node := |elements|;
      while node > elem
        invariant elem <= node <= |elements|
        invariant diff == Count(Reverse(elements), |elements| - node)
        invariant Valid(dirruns)
      {
        node := node - 1;
        if elements[node] {
          diff := diff + 1;
          lastCache := lastCache[node := Stamp(dirruns, diff)];
        }
      }
    }
  }

  /** What earlier runs have left does not mislead a later one. */
  lemma NextRun(p: Parent, r: nat, s: nat)
    requires p.Valid(r) && r < s
    ensures p.Valid(s)
  {
  }

  /** A question to the filter: the position of a child from the front or from the back. */
  datatype Question = Question(elem: nat, forward: bool)

  /** Any number of runs on one parent, each with any number of questions: all answers are right. */
  method Ask(elements: seq<bool>, runs: seq<seq<Question>>) returns (answers: seq<seq<nat>>)
    requires forall r :: 0 <= r < |runs| ==> forall q :: q in runs[r] ==> q.elem < |elements| && elements[q.elem]
    ensures |answers| == |runs|
    ensures forall r :: 0 <= r < |runs| ==> Right(elements, runs[r], answers[r])
  {
    hide Right, Position, Parent.Valid;
    var p := new Parent(elements);
    answers := [];
    for r := 0 to |runs|
      invariant fresh(p) && p.elements == elements && p.Valid(r) && |answers| == r
      invariant forall i :: 0 <= i < r ==> Right(elements, runs[i], answers[i])
    {
      NextRun(p, r, r + 1);
      var given := AskAll(p, r + 1, runs[r]);
      answers := answers + [given];
    }
  }

  method AskAll(p: Parent, dirruns: nat, questions: seq<Question>) returns (answers: seq<nat>)
    requires p.Valid(dirruns) && forall q :: q in questions ==> q.elem < |p.elements| && p.elements[q.elem]
    modifies p
    ensures p.Valid(dirruns) && Right(p.elements, questions, answers)
  {
    hide Parent.Valid, Position;
    answers := [];
    for k := 0 to |questions|
      invariant p.Valid(dirruns) && |answers| == k
      invariant forall i :: 0 <= i < k ==>
                  && questions[i].elem < |p.elements|
                  && answers[i] == Position(p.elements, questions[i].elem, questions[i].forward)
    {
      var q := questions[k];
      var diff;
      if q.forward { diff := p.SeekForward(q.elem, dirruns); } else { diff := p.SeekBackward(q.elem, dirruns); }
      answers := answers + [diff];
    }
    forall i | 0 <= i < |questions|
      ensures Position(p.elements, questions[i].elem, questions[i].forward)
           == if questions[i].forward then |set j | 0 <= j <= questions[i].elem && p.elements[j]|
              else |set j | questions[i].elem <= j < |p.elements| && p.elements[j]|
    {
      PositionIsSize(p.elements, questions[i].elem);
    }
  }

  predicate Right(elements: seq<bool>, questions: seq<Question>, answers: seq<nat>) {
    && |answers| == |questions|
    && forall k :: 0 <= k < |questions| ==>
         && questions[k].elem < |elements|
         && answers[k] == if questions[k].forward then |set i | 0 <= i <= questions[k].elem && elements[i]|
                          else |set i | questions[k].elem <= i < |elements| && elements[i]|
  }

  /** The same walk without notes, used for the `-of-type` variants; `counts` holds for the children
      with the node name of the element. */
  method SeekPlain(counts: seq<bool>, elem: nat, forward: bool) returns (diff: nat)
    requires elem < |counts| && counts[elem]
    ensures diff == Position(counts, elem, forward)
    ensures diff == if forward then |set i | 0 <= i <= elem && counts[i]|
                    else |set i | elem <= i < |counts| && counts[i]|
  {
    hide Walk;
    ghost var walk := Walk(counts, forward);
    diff := 0;
    var k := 0;
    var last := if forward then elem else |counts| - 1 - elem;
    WalkAt(counts, last, forward);
    while true
      invariant 0 <= k <= last
      invariant diff == Count(walk, k)
      decreases last - k
    {
      var node := if forward then k else |counts| - 1 - k;
      WalkAt(counts, k, forward);
      if counts[node] {
        diff := diff + 1;
        if node == elem {
          break;
        }
      }
      k := k + 1;
    }
    assert diff == Position(counts, elem, forward);
    PositionIsSize(counts, elem);
  }

  // ----- the test -----

  /** The remainder of JavaScript: it has the sign of the dividend. */
  function Rem(a: int, b: int): int
    requires b != 0
  {
    var m := if b > 0 then b else -b;
    if a >= 0 then a % m else -((-a) % m)
  }

  /** The test at the end of the filter, for an element at the given position and `an+b`. */
  predicate NthTest(position: nat, a: int, b: int) {
    var diff := position - b;
    diff == a || (a != 0 && Rem(diff, a) == 0 && (diff as real) / (a as real) >= 0.0)
  }

  function Abs(x: int): nat { if x >= 0 then x else -x }

  lemma AbsProduct(a: int, n: int)
    ensures Abs(a * n) == Abs(a) * Abs(n)
  {
    if a >= 0 && n >= 0 {
    } else if a >= 0 {
      assert a * (-n) == -(a * n);
    } else if n >= 0 {
      assert (-a) * n == -(a * n);
    } else {
      assert (-a) * (-n) == a * n;
    }
  }

  lemma DivisibleBySign(d: int, a: int)
    requires a != 0
    ensures Rem(d, a) == 0 <==> exists n: int :: d == a * n
  {
    var m: nat, p: nat := Abs(a), Abs(d);
    assert Rem(d, a) == 0 <==> p % m == 0;
    hide Rem;
    if p % m == 0 {
      var q: int := p / m;
      assert p == m * q;
      var n := if (d >= 0) == (a > 0) then q else -q;
      SignedQuotient(d, a, m, p, q);
      assert d == a * n;
    }
    if n: int :| d == a * n {
      AbsProduct(a, n);
      MultipleHasNoRemainder(m, Abs(n));
    }
  }

  lemma SignedQuotient(d: int, a: int, m: int, p: int, q: int)
    requires m == (if a > 0 then a else -a) && p == (if d >= 0 then d else -d) && p == m * q
    ensures d == a * (if (d >= 0) == (a > 0) then q else -q)
  {
    assert a * (-q) == -(a * q);
    assert (-a) * q == -(a * q);
  }

  lemma MultipleHasNoRemainder(m: nat, q: nat)
    requires m > 0
    ensures (m * q) % m == 0
  {
    var x := m * q;
    var d, r := x / m, x % m;
    assert x == m * d + r;
    assert m * (q - d) == r;
    MultipleIsFar(m, q - d);
  }

  lemma MultipleIsFar(m: int, k: int)
    requires m > 0
    ensures k >= 1 ==> m * k >= m
    ensures k <= -1 ==> m * k <= -m
  {
  }

  lemma QuotientSign(d: int, a: int, n: int)
    requires a != 0 && d == a * n
    ensures (d as real) / (a as real) >= 0.0 <==> n >= 0
  {
    assert (d as real) == (a as real) * (n as real);
    assert (d as real) / (a as real) == n as real;
  }

  /** An element passes exactly if its position is a*n+b for some n >= 0; all integers a and b. */
  lemma NthTestIsCorrect(position: nat, a: int, b: int)
    ensures NthTest(position, a, b) <==> exists n: nat :: position == a * n + b
  {
    var diff := position - b;
    if a == 0 {
      if diff == 0 { assert position == a * 0 + b; }
    } else {
      DivisibleBySign(diff, a);
      if Rem(diff, a) == 0 {
        var n: int :| diff == a * n;
        QuotientSign(diff, a, n);
        if n >= 0 { assert position == a * n + b; }
      }
      if diff == a { assert position == a * 1 + b; }
      if n: nat :| position == a * n + b {
        assert diff == a * n;
        QuotientSign(diff, a, n);
      }
    }
  }

  /** The shortcut for `:nth-*(n)`, which only asks for a parent, agrees with the general test. */
  lemma ShortcutAgrees(position: nat)
    requires position >= 1
    ensures NthTest(position, 1, 0)
  {
    NthTestIsCorrect(position, 1, 0);
    assert position == 1 * position + 0;
  }
}
