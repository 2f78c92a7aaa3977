/** The two normalisations of `prettify.js`: character ranges of a regular expression, and the
    decorations of a source text. */
module Prettify {
  import opened Wrappers

  // ----- character ranges -----

  /** The code points lo to hi. */
  datatype Span = Span(lo: int, hi: int)

  predicate Within(e: seq<Span>, c: int) {
    exists k :: 0 <= k < |e| && e[k].lo <= c <= e[k].hi
  }

  predicate Proper(e: seq<Span>) {
    forall k :: 0 <= k < |e| ==> e[k].lo <= e[k].hi
  }

  /** `x | 32` and `x & -33`. */
  function SetBit5(x: int): int {
    if (x / 32) % 2 == 0 then x + 32 else x
  }

  function ClearBit5(x: int): int {
    if (x / 32) % 2 == 0 then x else x - 32
  }

  /** A code point in the other case. */
  function OtherCase(c: int): int {
    if 65 <= c <= 90 then c + 32 else if 97 <= c <= 122 then c - 32 else c
  }

  function Max(a: int, b: int): int { if a > b then a else b }

  function Min(a: int, b: int): int { if a < b then a else b }

  /** The ranges that are added for a range. */
  function CaseRanges(r: Span): seq<Span> {
    if r.hi < 65 || r.lo > 122 then [] else Lowered(r) + Raised(r)
  }

  function Lowered(r: Span): seq<Span> {
    if r.hi < 65 || r.lo > 90 then [] else [Span(SetBit5(Max(65, r.lo)), SetBit5(Min(r.hi, 90)))]
  }

  function Raised(r: Span): seq<Span> {
    if r.hi < 97 || r.lo > 122 then [] else [Span(ClearBit5(Max(97, r.lo)), ClearBit5(Min(r.hi, 122)))]
  }

  function WithCases(e: seq<Span>): seq<Span> {
    if e == [] then [] else WithCases(e[..|e| - 1]) + [e[|e| - 1]] + CaseRanges(e[|e| - 1])
  }

  lemma WithinConcat(a: seq<Span>, b: seq<Span>, c: int)
    ensures Within(a + b, c) <==> Within(a, c) || Within(b, c)
  {
    if Within(a, c) {
      var k :| 0 <= k < |a| && a[k].lo <= c <= a[k].hi;
      assert (a + b)[k] == a[k];
    }
    if Within(b, c) {
      var k :| 0 <= k < |b| && b[k].lo <= c <= b[k].hi;
      assert (a + b)[|a| + k] == b[k];
    }
  }

  lemma ProperConcat(a: seq<Span>, b: seq<Span>)
    ensures Proper(a + b) <==> Proper(a) && Proper(b)
  {
    if Proper(a + b) {
      assert forall k :: 0 <= k < |a| ==> a[k] == (a + b)[k];
      assert forall k :: 0 <= k < |b| ==> b[k] == (a + b)[|a| + k];
    }
  }

  lemma WithinOne(r: Span, c: int)
    ensures Within([r], c) <==> r.lo <= c <= r.hi
  {
    assert [r][0] == r;
  }

  lemma CasesOfRange(r: Span, c: int)
    requires r.lo <= r.hi
    ensures Within(CaseRanges(r), c) <==> OtherCase(c) != c && r.lo <= OtherCase(c) <= r.hi
    ensures Proper(CaseRanges(r))
  {
    LoweredIs(r, c);
    RaisedIs(r, c);
    assert CaseRanges(r) == Lowered(r) + Raised(r);
    hide CaseRanges, Lowered, Raised, Within, Proper;
    WithinConcat(Lowered(r), Raised(r), c);
    ProperConcat(Lowered(r), Raised(r));
  }

  lemma LoweredIs(r: Span, c: int)
    requires r.lo <= r.hi
    ensures Within(Lowered(r), c) <==> 97 <= c <= 122 && r.lo <= c - 32 <= r.hi
    ensures Proper(Lowered(r))
  {
    if Lowered(r) != [] {
      var low := Lowered(r)[0];
      assert Lowered(r) == [low] && low == Span(Max(65, r.lo) + 32, Min(r.hi, 90) + 32);
      WithinOne(low, c);
      hide Within, SetBit5;
    }
  }

  lemma RaisedIs(r: Span, c: int)
    requires r.lo <= r.hi
    ensures Within(Raised(r), c) <==> 65 <= c <= 90 && r.lo <= c + 32 <= r.hi
    ensures Proper(Raised(r))
  {
    if Raised(r) != [] {
      var up := Raised(r)[0];
      assert Raised(r) == [up] && up == Span(Max(97, r.lo) - 32, Min(r.hi, 122) - 32);
      WithinOne(up, c);
      hide Within, ClearBit5;
    }
  }

  /** Ignoring case: exactly the code points of the ranges, in either case. */
  lemma {:induction false} EitherCase(e: seq<Span>, c: int)
    requires Proper(e)
    ensures Within(WithCases(e), c) <==> Within(e, c) || Within(e, OtherCase(c))
    ensures Proper(WithCases(e))
  {
    if e != [] {
      var init, r := e[..|e| - 1], e[|e| - 1];
      var before, cases := WithCases(init), CaseRanges(r);
      assert e == init + [r] && WithCases(e) == before + [r] + cases;
      ProperConcat(init, [r]);
      assert r.lo <= r.hi && Proper([r]);
      hide Within, Proper, WithCases, CaseRanges, OtherCase;
      EitherCase(init, c);
      CasesOfRange(r, c);
      WithinConcat(before + [r], cases, c);
      WithinConcat(before, [r], c);
      ProperConcat(before + [r], cases);
      ProperConcat(before, [r]);
      WithinOne(r, c);
      WithinOne(r, OtherCase(c));
      WithinConcat(init, [r], c);
      WithinConcat(init, [r], OtherCase(c));
    } else {
      hide OtherCase;
    }
  }

  predicate Sorted(e: seq<Span>) {
    forall j, k :: 0 <= j < k < |e| ==> e[j].lo <= e[k].lo
  }

  /** Increasing, and not even adjacent. */
  predicate Separate(b: seq<Span>) {
    Proper(b) && forall j, k :: 0 <= j < k < |b| ==> b[j].hi + 1 < b[k].lo
  }

  /** One turn of the merge. */
  function Absorb(b: seq<Span>, h: Span): seq<Span> {
    if b != [] && h.lo <= b[|b| - 1].hi + 1
    then b[..|b| - 1] + [Span(b[|b| - 1].lo, Max(b[|b| - 1].hi, h.hi))]
    else b + [h]
  }

  function Merged(e: seq<Span>): seq<Span> {
    if e == [] then [] else Absorb(Merged(e[..|e| - 1]), e[|e| - 1])
  }

  lemma AbsorbKeeps(b: seq<Span>, h: Span, c: int)
    requires Separate(b) && h.lo <= h.hi && (b != [] ==> b[|b| - 1].lo <= h.lo)
    ensures Separate(Absorb(b, h)) && Absorb(b, h) != [] && Absorb(b, h)[|Absorb(b, h)| - 1].lo <= h.lo
    ensures Within(Absorb(b, h), c) <==> Within(b, c) || h.lo <= c <= h.hi
  {
    AbsorbStaysSeparate(b, h);
    hide Within, Separate;
    WithinOne(h, c);
    WithinConcat(b, [h], c);
    if b != [] && h.lo <= b[|b| - 1].hi + 1 {
      var init, last := b[..|b| - 1], b[|b| - 1];
      var wide := Span(last.lo, Max(last.hi, h.hi));
      assert b == init + [last];
      WithinConcat(init, [last], c);
      WithinConcat(init, [wide], c);
      WithinOne(last, c);
      WithinOne(wide, c);
    }
  }

  lemma AbsorbStaysSeparate(b: seq<Span>, h: Span)
    requires Separate(b) && h.lo <= h.hi && (b != [] ==> b[|b| - 1].lo <= h.lo)
    ensures Separate(Absorb(b, h))
    ensures b != [] ==> b[|b| - 1].lo <= b[|b| - 1].hi
  {
    var init := if b != [] then b[..|b| - 1] else [];
    assert forall k :: 0 <= k < |init| ==> init[k] == b[k];
  }

  lemma SortedInit(e: seq<Span>)
    requires Sorted(e) && Proper(e) && e != []
    ensures var init, h := e[..|e| - 1], e[|e| - 1];
            && Sorted(init) && Proper(init) && h.lo <= h.hi
            && (init != [] ==> init[|init| - 1].lo <= h.lo)
  {
  }

  lemma MergedNothing(c: int)
    ensures Merged([]) == [] && Separate([]) && !Within([], c)
  {
  }

  lemma MergedSnoc(init: seq<Span>, h: Span)
    ensures Merged(init + [h]) == Absorb(Merged(init), h)
  {
    assert (init + [h])[..|init|] == init;
  }

  /** Merging sorted ranges keeps the set of code points and leaves them separate. */
  lemma {:induction false} MergedKeeps(e: seq<Span>, c: int)
    requires Sorted(e) && Proper(e)
    ensures Within(Merged(e), c) <==> Within(e, c)
    ensures Separate(Merged(e))
    ensures e != [] ==> Merged(e) != [] && Merged(e)[|Merged(e)| - 1].lo <= e[|e| - 1].lo
  {
    hide Within, Sorted, Proper, Separate, Absorb, Merged;
    MergedNothing(c);
    if e != [] {
      var init, h := e[..|e| - 1], e[|e| - 1];
      SortedInit(e);
      MergedSnoc(init, h);
      assert e == init + [h];
      MergedKeeps(init, c);
      AbsorbKeeps(Merged(init), h, c);
      WithinConcat(init, [h], c);
      WithinOne(h, c);
    }
  }

  /** Separate ranges are determined by their code points: so the result of the merge does not depend on
      how the ranges were given. */
  lemma {:induction false} SeparateIsCanonical(a: seq<Span>, b: seq<Span>)
    requires Separate(a) && Separate(b)
    requires forall c :: Within(a, c) <==> Within(b, c)
    ensures a == b
  {
    NotEmpty(a);
    NotEmpty(b);
    if a != [] && b != [] {
      FirstAgrees(a, b);
      assert a == [a[0]] + a[1..] && b == [b[0]] + b[1..];
      forall c ensures Within(a[1..], c) <==> Within(b[1..], c) {
        RestOf(a, c);
        RestOf(b, c);
      }
      SeparateIsCanonical(a[1..], b[1..]);
    }
  }

  lemma NotEmpty(a: seq<Span>)
    requires Separate(a)
    ensures a != [] <==> exists c :: Within(a, c)
  {
    if a != [] { assert Within(a, a[0].lo); }
  }

  lemma RestOf(a: seq<Span>, c: int)
    requires Separate(a) && a != []
    ensures Within(a[1..], c) <==> Within(a, c) && c > a[0].hi
  {
    assert a == [a[0]] + a[1..];
    WithinConcat([a[0]], a[1..], c);
    WithinOne(a[0], c);
    forall k | 0 <= k < |a[1..]| ensures a[1..][k].lo > a[0].hi { assert a[1..][k] == a[k + 1]; }
  }

  lemma FirstAgrees(a: seq<Span>, b: seq<Span>)
    requires Separate(a) && Separate(b) && a != [] && b != []
    requires forall c :: Within(a, c) <==> Within(b, c)
    ensures a[0] == b[0]
  {
    FirstAtMost(a, b);
    FirstAtMost(b, a);
  }

  lemma FirstAtMost(a: seq<Span>, b: seq<Span>)
    requires Separate(a) && Separate(b) && a != [] && b != []
    requires forall c :: Within(a, c) <==> Within(b, c)
    ensures a[0].lo <= b[0].lo && (a[0].lo == b[0].lo ==> b[0].hi <= a[0].hi)
  {
    assert Within(b, b[0].lo);
    var k :| 0 <= k < |a| && a[k].lo <= b[0].lo <= a[k].hi;
    var c := a[0].hi + 1;
    assert b[0].lo <= c <= b[0].hi ==> Within(b, c);
    AfterFirst(a);
  }

  lemma AfterFirst(a: seq<Span>)
    requires Separate(a) && a != []
    ensures !Within(a, a[0].hi + 1)
  {
  }

  /** Two lists of the same code points, however ordered, overlapping or split, merge to the same list. */
  lemma MergeIsCanonical(d: seq<Span>, e: seq<Span>)
    requires Sorted(d) && Proper(d) && Sorted(e) && Proper(e)
    requires forall c :: Within(d, c) <==> Within(e, c)
    ensures Merged(d) == Merged(e)
  {
    forall c ensures Within(Merged(d), c) <==> Within(Merged(e), c) {
      MergedKeeps(d, c);
      MergedKeeps(e, c);
    }
    MergedKeeps(d, 0);
    MergedKeeps(e, 0);
    SeparateIsCanonical(Merged(d), Merged(e));
  }

  /** A range is a two-element array; the merge widens the last range it kept in place. */
  class Range {
    var lo: int
    var hi: int

    constructor (lo: int, hi: int)
      ensures this.lo == lo && this.hi == hi
    {
      this.lo, this.hi := lo, hi;
    }

    function Value(): Span
      reads this
    {
      Span(lo, hi)
    }
  }

  predicate DistinctRanges(e: seq<Range>) {
    forall j, k :: 0 <= j < k < |e| ==> e[j] != e[k]
  }

  /** The values of the ranges. */
  ghost predicate Are(e: seq<Range>, values: seq<Span>)
    reads set k | 0 <= k < |e| :: e[k]
  {
    |e| == |values| && forall k :: 0 <= k < |e| ==> e[k].Value() == values[k]
  }

  method Merge(e: seq<Range>, ghost was: seq<Span>) returns (b: seq<Range>)
    requires DistinctRanges(e) && Are(e, was)
    modifies set k | 0 <= k < |e| :: e[k]
    ensures Are(b, Merged(was))
  {
    hide Merged, Absorb, PickedFrom, DistinctRanges;
    b := [];
    NonePicked(e, was);
    ghost var from: seq<nat> := []; // where the ranges kept come from
    for a := 0 to |e|
      invariant Are(b, Merged(was[..a]))
      invariant forall k :: a <= k < |e| ==> e[k].Value() == was[k]
      invariant PickedFrom(b, from, e, a)
    {
      ghost var kept := Merged(was[..a]);
      MergedNext(was, a);
      var h := e[a];
      PickedAreDistinct(b, from, e, a);
      if b != [] && h.lo <= b[|b| - 1].hi + 1 {
        Widen(b, h, kept);
      } else {
        Append(b, h, kept);
        b := b + [h];
        from := from + [a];
      }
    }
    assert was[..|e|] == was;
  }

  ghost predicate PickedFrom(b: seq<Range>, from: seq<nat>, e: seq<Range>, a: nat) {
    && a <= |e| && |from| == |b|
    && (forall j :: 0 <= j < |b| ==> from[j] < a && b[j] == e[from[j]])
    && (forall j, k :: 0 <= j < k < |b| ==> from[j] < from[k])
  }

  lemma NonePicked(e: seq<Range>, was: seq<Span>)
    ensures PickedFrom([], [], e, 0) && Merged([]) == []
  {
  }

  lemma MergedNext(was: seq<Span>, a: nat)
    requires a < |was|
    ensures Merged(was[..a + 1]) == Absorb(Merged(was[..a]), was[a])
  {
    assert was[..a + 1][..a] == was[..a];
  }

  lemma PickedAreDistinct(b: seq<Range>, from: seq<nat>, e: seq<Range>, a: nat)
    requires PickedFrom(b, from, e, a) && a < |e| && DistinctRanges(e)
    ensures DistinctRanges(b)
    ensures PickedFrom(b, from, e, a + 1) && PickedFrom(b + [e[a]], from + [a], e, a + 1)
    ensures b != [] ==> b[|b| - 1] in e && forall k :: a <= k < |e| ==> e[k] != b[|b| - 1]
  {
  }

  lemma Append(b: seq<Range>, h: Range, kept: seq<Span>)
    requires Are(b, kept) && !(b != [] && h.lo <= b[|b| - 1].hi + 1)
    ensures Are(b + [h], Absorb(kept, h.Value()))
  {
  }

  /** The last range kept absorbs h. */
  method Widen(b: seq<Range>, h: Range, ghost kept: seq<Span>)
    requires Are(b, kept) && DistinctRanges(b) && b != [] && h.lo <= b[|b| - 1].hi + 1
    modifies b[|b| - 1]
    ensures Are(b, Absorb(kept, old(h.Value())))
  {
    var f := b[|b| - 1];
    f.hi := Max(f.hi, h.hi);
  }

  /** The ranges, each followed by those it has in the other case. */
  method AddCases(e: seq<Span>) returns (r: seq<Span>)
    ensures r == WithCases(e)
  {
    r := [];
    for a := 0 to |e|
      invariant r == WithCases(e[..a])
    {
      assert e[..a + 1][..a] == e[..a];
      r := r + [e[a]];
      var h, l := e[a].lo, e[a].hi;
      if !(l < 65 || h > 122) {
        if !(l < 65 || h > 90) { r := r + [Span(SetBit5(Max(65, h)), SetBit5(Min(l, 90)))]; }
        if !(l < 97 || h > 122) { r := r + [Span(ClearBit5(Max(97, h)), ClearBit5(Min(l, 122)))]; }
      }
      assert e[a] == Span(h, l);
      assert r == WithCases(e[..a]) + [e[a]] + CaseRanges(e[a]);
    }
    assert e[..|e|] == e;
  }

  /** The whole normalisation, for any order in which the sort leaves equal lower ends. */
  lemma Normalised(e: seq<Span>, sorted: seq<Span>, c: int)
    requires Proper(e) && Sorted(sorted) && multiset(sorted) == multiset(WithCases(e))
    ensures Within(Merged(sorted), c) <==> Within(e, c) || Within(e, OtherCase(c))
    ensures Separate(Merged(sorted))
  {
    EitherCase(e, c);
    hide WithCases, Merged, Separate;
    SameRanges(sorted, WithCases(e), c);
    MergedKeeps(sorted, c);
  }

  /** The order of the ranges does not matter. */
  lemma SameRanges(a: seq<Span>, b: seq<Span>, c: int)
    requires multiset(a) == multiset(b)
    ensures Within(a, c) <==> Within(b, c)
    ensures Proper(a) <==> Proper(b)
  {
    forall r ensures r in a <==> r in b { assert r in multiset(a) <==> r in multiset(b); }
    RangesIn(a, c);
    RangesIn(b, c);
    hide Within, Proper;
  }

  lemma RangesIn(a: seq<Span>, c: int)
    ensures Within(a, c) <==> exists r :: r in a && r.lo <= c <= r.hi
    ensures Proper(a) <==> forall r :: r in a ==> r.lo <= r.hi
  {
  }

  // ----- decorations -----

  /** From `start` on the text has the style. */
  datatype Decoration = Decoration(start: int, style: int)

  predicate InOrder(ds: seq<Decoration>) {
    forall j, k :: 0 <= j < k < |ds| ==> ds[j].start <= ds[k].start
  }

  /** The style at a position, when it is `before` ahead of the first decoration. */
  function StyleAt(ds: seq<Decoration>, x: int, before: Option<int>): Option<int> {
    if ds == [] || ds[0].start > x then before else StyleAt(ds[1..], x, Some(ds[0].style))
  }

  /** It is that of the last decoration that starts at or before the position. */
  lemma {:induction false} StyleIsLastStarted(ds: seq<Decoration>, x: int, before: Option<int>, k: nat)
    requires InOrder(ds) && k < |ds| && ds[k].start <= x && (k + 1 < |ds| ==> ds[k + 1].start > x)
    ensures StyleAt(ds, x, before) == Some(ds[k].style)
  {
    if k > 0 {
      assert ds[0].start <= ds[k].start;
      StyleIsLastStarted(ds[1..], x, Some(ds[0].style), k - 1);
    } else if |ds| > 1 {
      assert ds[1..][0] == ds[1];
    }
  }

  /** Without the decorations that start where the next one, or the end of the text, does. */
  function DropEmpty(ds: seq<Decoration>, end: int): seq<Decoration> {
    if ds == [] then []
    else if ds[0].start == (if |ds| > 1 then ds[1].start else end) then DropEmpty(ds[1..], end)
    else [ds[0]] + DropEmpty(ds[1..], end)
  }

  /** With neighbours of equal style joined. */
  function Joined(ds: seq<Decoration>): seq<Decoration>
    decreases |ds|
  {
    if |ds| <= 1 then ds
    else if ds[1].style == ds[0].style then Joined([ds[0]] + ds[2..])
    else [ds[0]] + Joined(ds[1..])
  }

  predicate Increasing(ds: seq<Decoration>) {
    forall j, k :: 0 <= j < k < |ds| ==> ds[j].start < ds[k].start
  }

  predicate NoEqualNeighbours(ds: seq<Decoration>) {
    forall k :: 0 <= k < |ds| - 1 ==> ds[k].style != ds[k + 1].style
  }

  lemma {:induction false} DropEmptyKeepsStyles(ds: seq<Decoration>, end: int, x: int, before: Option<int>)
    requires InOrder(ds) && x < end
    ensures StyleAt(DropEmpty(ds, end), x, before) == StyleAt(ds, x, before)
    ensures Increasing(DropEmpty(ds, end)) && forall d :: d in DropEmpty(ds, end) ==> d in ds
  {
    if ds != [] {
      var rest := ds[1..];
      assert forall k :: 0 <= k < |rest| ==> rest[k] == ds[k + 1];
      assert ds == [ds[0]] + rest;
      DropEmptyKeepsStyles(rest, end, x, before);
      DropEmptyKeepsStyles(rest, end, x, Some(ds[0].style));
      var out := DropEmpty(rest, end);
      if ds[0].start == (if |ds| > 1 then ds[1].start else end) {
        if |ds| > 1 && ds[0].start <= x { assert StyleAt(rest, x, before) == StyleAt(rest, x, Some(ds[0].style)); }
      } else {
        assert ([ds[0]] + out)[1..] == out;
        forall k | 0 <= k < |out| ensures ds[0].start < out[k].start { assert out[k] in rest; LaterStarts(ds, out[k]); }
      }
    }
  }

  lemma LaterStarts(ds: seq<Decoration>, d: Decoration)
    requires InOrder(ds) && ds != [] && d in ds[1..]
    requires |ds| > 1 ==> ds[0].start != ds[1].start
    ensures ds[0].start < d.start
  {
    var k :| 0 <= k < |ds[1..]| && ds[1..][k] == d;
    assert ds[0].start <= ds[1].start <= ds[k + 1].start;
  }

  lemma {:induction false} JoinedKeepsStyles(ds: seq<Decoration>, x: int, before: Option<int>)
    requires Increasing(ds)
    ensures StyleAt(Joined(ds), x, before) == StyleAt(ds, x, before)
    ensures Increasing(Joined(ds)) && NoEqualNeighbours(Joined(ds))
    ensures ds != [] ==> Joined(ds) != [] && Joined(ds)[0] == ds[0]
    decreases |ds|
  {
    if |ds| > 1 {
      if ds[1].style == ds[0].style {
        var shorter := [ds[0]] + ds[2..];
        JoinedKeepsStyles(shorter, x, before);
        assert shorter[1..] == ds[2..] && ds[1..][1..] == ds[2..];
        assert ds[2..] != [] ==> ds[2..][0] == ds[2];
      } else {
        var rest := ds[1..];
        JoinedKeepsStyles(rest, x, Some(ds[0].style));
        JoinedKeepsStyles(rest, x, before);
        var out := Joined(rest);
        assert ([ds[0]] + out)[1..] == out;
      }
    }
  }

  /** The array holds start and style in turn. */
  function Cells(ds: seq<Decoration>): (r: seq<int>)
    ensures |r| == 2 * |ds|
  {
    if ds == [] then [] else [ds[0].start, ds[0].style] + Cells(ds[1..])
  }

  lemma {:induction false} CellsSnoc(ds: seq<Decoration>, d: Decoration)
    ensures Cells(ds + [d]) == Cells(ds) + [d.start, d.style]
  {
    if ds == [] {
      assert ds + [d] == [d] && [d][1..] == [];
    } else {
      assert (ds + [d])[1..] == ds[1..] + [d];
      CellsSnoc(ds[1..], d);
    }
  }

  lemma FrontCells(s: seq<int>, ds: seq<Decoration>)
    requires s == Cells(ds) && s != []
    ensures ds != [] && |s| >= 2 && s[0] == ds[0].start && s[1] == ds[0].style && s[2..] == Cells(ds[1..])
    ensures |ds| > 1 ==> |s| >= 4 && s[2] == ds[1].start && s[3] == ds[1].style
  {
    if |ds| > 1 { assert s[2..][0] == ds[1].start && s[2..][1] == ds[1].style; }
  }

  /** `c[n++] = p; c[n++] = w`. */
  method Store(c: array<int>, n: nat, p: int, w: int, ghost out: seq<Decoration>) returns (next: nat)
    requires n + 2 <= c.Length && c[..n] == Cells(out)
    modifies c
    ensures next == n + 2 && c[..next] == Cells(out + [Decoration(p, w)])
    ensures forall k :: next <= k < c.Length ==> c[k] == old(c[k])
  {
    CellsSnoc(out, Decoration(p, w));
    next := n;
    c[next] := p;
    next := next + 1;
    c[next] := w;
    next := next + 1;
    assert c[..next] == old(c[..n]) + [p, w];
  }

  lemma NoCells()
    ensures Cells([]) == []
  {
  }

  /** The first pass, in place; `c[i]` is the end of the text. */
  method DropPass(c: array<int>, i: nat, ghost ds: seq<Decoration>) returns (n: nat)
    requires c.Length == i + 1 && c[..i] == Cells(ds)
    modifies c
    ensures n <= i && c[..n] == Cells(DropEmpty(ds, old(c[i])))
  {
    NoCells();
    hide Cells, DropEmpty;
    ghost var end, left, out := c[i], ds, [];
    var e := 0;
    n := 0;
    while e < i
      invariant n <= e <= i && c[i] == end && c[e..i] == Cells(left) && c[..n] == Cells(out)
      invariant out + DropEmpty(left, end) == DropEmpty(ds, end)
      decreases i - e
    {
      ghost var front := c[e..i];
      FrontCells(front, left);
      ghost var d, rest := left[0], left[1..];
      assert c[e] == front[0] && c[e + 1] == front[1] && c[e + 2..i] == front[2..];
      assert |left| > 1 ==> c[e + 2] == front[2];
      DropStep(out, left, end);
      if c[e] != c[e + 2] {
        n := Store(c, n, c[e], c[e + 1], out);
        out := out + [d];
      }
      e := e + 2;
      left := rest;
    }
    assert |c[e..i]| == 0;
    NothingToDrop(out, left, end);
  }

  lemma DropStep(out: seq<Decoration>, left: seq<Decoration>, end: int)
    requires left != []
    ensures var next := if |left| > 1 then left[1].start else end;
            out + DropEmpty(left, end) ==
              (if left[0].start == next then out else out + [left[0]]) + DropEmpty(left[1..], end)
  {
  }

  lemma NothingToDrop(out: seq<Decoration>, left: seq<Decoration>, end: int)
    requires Cells(left) == []
    ensures out + DropEmpty(left, end) == out
  {
  }

  lemma NothingLeft(out: seq<Decoration>, left: seq<Decoration>)
    requires Cells(left) == []
    ensures out + Joined(left) == out
  {
  }

  /** The second pass, in place. */
  method JoinPass(c: array<int>, i: nat, ghost ds: seq<Decoration>) returns (n: nat)
    requires i <= c.Length && c[..i] == Cells(ds)
    modifies c
    ensures n <= i && c[..n] == Cells(Joined(ds))
  {
    NoCells();
    hide Cells, Joined;
    ghost var left, out := ds, [];
    var e := 0;
    n := 0;
    while e < i
      invariant n <= e <= i && c[e..i] == Cells(left) && c[..n] == Cells(out)
      invariant out + Joined(left) == Joined(ds)
      decreases i - e
    {
      ghost var front := c[e..i];
      FrontCells(front, left);
      ghost var d := left[0];
      var p, w := c[e], c[e + 1];
      assert p == front[0] && w == front[1] && c[e + 2..i] == front[2..];
      assert left == [d] + left[1..];
      ghost var rest;
      e, rest := SkipEqual(c, i, e + 2, d, left[1..]);
      front := c[e..i];
      Shift(out, d, Joined(rest));
      n := Store(c, n, p, w, out);
      assert c[e..i] == front;
      out := out + [d];
      left := rest;
    }
    assert |c[e..i]| == 0;
    NothingLeft(out, left);
  }

  lemma Shift(out: seq<Decoration>, d: Decoration, tail: seq<Decoration>)
    ensures out + ([d] + tail) == (out + [d]) + tail
  {
  }

  /** The inner loop: past the decorations with the same style as d. */
  method SkipEqual(c: array<int>, i: nat, start: nat, ghost d: Decoration, ghost following: seq<Decoration>)
    returns (t: nat, ghost rest: seq<Decoration>)
    requires 2 <= start <= i <= c.Length && c[start..i] == Cells(following) && c[start - 1] == d.style
    ensures start <= t <= i && c[t..i] == Cells(rest)
    ensures Joined([d] + following) == [d] + Joined(rest)
  {
    var w := c[start - 1];
    t := start;
    rest := following;
    ghost var front := c[t..i];
    while t + 2 <= i && c[t + 1] == w
      invariant start <= t <= i && front == c[t..i] == Cells(rest)
      invariant Joined([d] + rest) == Joined([d] + following)
    {
      FrontCells(front, rest);
      assert c[t + 1] == front[1] && c[t + 2..i] == front[2..];
      JoinedSkips(d, rest);
      rest := rest[1..];
      t := t + 2;
      front := c[t..i];
    }
    if front != [] {
      FrontCells(front, rest);
      assert c[t + 1] == front[1];
    }
    JoinedStops(d, rest);
  }

  lemma JoinedSkips(d: Decoration, rest: seq<Decoration>)
    ensures rest != [] && rest[0].style == d.style ==> Joined([d] + rest) == Joined([d] + rest[1..])
  {
    if rest != [] { assert ([d] + rest)[2..] == rest[1..]; }
  }

  lemma JoinedStops(d: Decoration, rest: seq<Decoration>)
    requires rest != [] ==> rest[0].style != d.style
    ensures Joined([d] + rest) == [d] + Joined(rest)
  {
    if rest != [] { assert ([d] + rest)[1..] == rest; }
  }

  /** Both passes: the style of every position of the text is kept, and what is left is as short as it
      can be. */
  method Compact(c: array<int>, i: nat, ghost ds: seq<Decoration>) returns (n: nat)
    requires c.Length == i + 1 && c[..i] == Cells(ds)
    modifies c
    ensures n <= i && c[..n] == Cells(Joined(DropEmpty(ds, old(c[i]))))
  {
    ghost var end := c[i];
    n := DropPass(c, i, ds);
    n := JoinPass(c, n, DropEmpty(ds, end));
  }

  lemma CompactKeepsStyles(ds: seq<Decoration>, end: int, x: int)
    requires InOrder(ds) && x < end
    ensures var r := Joined(DropEmpty(ds, end));
            StyleAt(r, x, None) == StyleAt(ds, x, None) && Increasing(r) && NoEqualNeighbours(r)
  {
    DropEmptyKeepsStyles(ds, end, x, None);
    JoinedKeepsStyles(DropEmpty(ds, end), x, None);
  }
}
