/** `trimDots`: removes "." and resolvable ".." segments from a path, in place. */
module TrimDots {

  // ----- what the loop does to the list, as a function -----

  /** The loop gives up when a ".." at index 1 cannot be resolved without losing the last name. */
  predicate GivesUp(ary: seq<string>, i: nat) {
    i == 1 < |ary| && ary[1] == ".." && ((2 < |ary| && ary[2] == "..") || ary[0] == "..")
  }

  predicate Halted(ary: seq<string>, i: nat) {
    i >= |ary| || ary[i] == "" || GivesUp(ary, i)
  }

  /** One turn of the loop: the list and the index that it leaves. */
  function Turn(ary: seq<string>, i: nat): (t: (seq<string>, nat))
    requires !Halted(ary, i)
    ensures |t.0| - t.1 == |ary| - i - 1
  {
    if ary[i] == "." then (ary[..i] + ary[i + 1..], i)
    else if ary[i] == ".." && i > 0 then (ary[..i - 1] + ary[i + 1..], i - 1)
    else (ary, i + 1)
  }

  /** The list that the loop leaves when it starts at index i. */
  function Trimmed(ary: seq<string>, i: nat): seq<string>
    decreases |ary| - i
  {
    if Halted(ary, i) then ary else Trimmed(Turn(ary, i).0, Turn(ary, i).1)
  }

  class Segments {
    var ary: seq<string>

    constructor (segments: seq<string>)
      ensures ary == segments
    {
      ary := segments;
    }

    method TrimDots()
      modifies this
      ensures ary == Trimmed(old(ary), 0)
      ensures MeaningOf(ary) == MeaningOf(old(ary))
    {
      var i := 0;
      while i < |ary| && ary[i] != ""
        invariant 0 <= i
        invariant Trimmed(ary, i) == Trimmed(old(ary), 0)
        decreases |ary| - i
      {
        var part := ary[i];
        if part == "." {
          ary := ary[..i] + ary[i + 1..];
          i := i - 1;
        } else if part == ".." {
          if i == 1 && ((2 < |ary| && ary[2] == "..") || ary[0] == "..") {
            break;
          } else if i > 0 {
            ary := ary[..i - 1] + ary[i + 1..];
            i := i - 2;
          }
        }
        i := i + 1;
      }
      TrimmedKeepsMeaning(old(ary), 0);
    }
  }

  // ----- what a path means -----

  /** Climb `ups` levels, then go down along `names`. */
  datatype Meaning = Meaning(ups: nat, names: seq<string>)

  function Follow(m: Meaning, part: string): Meaning {
    if part == "." then m
    else if part == ".." then
      if m.names == [] then m.(ups := m.ups + 1) else m.(names := m.names[..|m.names| - 1])
    else m.(names := m.names + [part])
  }

  function MeaningOf(ary: seq<string>): Meaning {
    if ary == [] then Meaning(0, [])
    else Follow(MeaningOf(ary[..|ary| - 1]), ary[|ary| - 1])
  }

  predicate Plain(part: string) {
    part != "" && part != "." && part != ".."
  }

  /** The first i segments are names, except that the very first one may be "..". */
  predicate Clean(ary: seq<string>, i: nat) {
    && i <= |ary|
    && (forall k :: 1 <= k < i ==> Plain(ary[k]))
    && (i > 0 ==> Plain(ary[0]) || ary[0] == "..")
  }

  lemma {:induction false} SameStartSameMeaning(a: seq<string>, b: seq<string>, tail: seq<string>)
    requires MeaningOf(a) == MeaningOf(b)
    ensures MeaningOf(a + tail) == MeaningOf(b + tail)
  {
    hide MeaningOf, Follow;
    if tail == [] {
      assert a + tail == a && b + tail == b;
    } else {
      var init, part := tail[..|tail| - 1], tail[|tail| - 1];
      SameStartSameMeaning(a, b, init);
      MeaningOfSnoc(a + init, part);
      MeaningOfSnoc(b + init, part);
      assert a + tail == (a + init) + [part] && b + tail == (b + init) + [part];
    }
  }

  lemma MeaningOfSnoc(s: seq<string>, part: string)
    ensures MeaningOf(s + [part]) == Follow(MeaningOf(s), part)
  {
    assert (s + [part])[..|s|] == s;
  }

  lemma MeaningOfPrefix(ary: seq<string>, i: nat)
    requires i < |ary|
    ensures MeaningOf(ary[..i + 1]) == Follow(MeaningOf(ary[..i]), ary[i])
  {
    assert ary[..i + 1][..i] == ary[..i];
  }

  lemma UpAgain(m: Meaning, part: string)
    requires Plain(part)
    ensures Follow(Follow(m, part), "..") == m
  {
  }

  lemma Spliced(s: seq<string>, i: nat, j: nat)
    requires i <= j <= |s|
    ensures (s[..i] + s[j..])[..i] == s[..i] && (s[..i] + s[j..])[i..] == s[j..]
    ensures forall k :: 0 <= k < |s[..i] + s[j..]| ==> (s[..i] + s[j..])[k] in s
    ensures forall k :: 0 <= k < i ==> (s[..i] + s[j..])[k] == s[k]
  {
  }

  /** After a turn, the segments before the index are clean again and lead where those up to the current
      segment led, and the rest is untouched. */
  lemma TurnAdvances(ary: seq<string>, i: nat)
    requires Clean(ary, i) && !Halted(ary, i)
    ensures var (next, j) := Turn(ary, i);
            && Clean(next, j) && next[j..] == ary[i + 1..]
            && MeaningOf(next[..j]) == MeaningOf(ary[..i + 1])
            && forall k :: 0 <= k < |next| ==> next[k] in ary
  {
    MeaningOfPrefix(ary, i);
    hide MeaningOf;
    if ary[i] == "." {
      Spliced(ary, i, i + 1);
    } else if ary[i] == ".." && i > 0 {
      assert Plain(ary[i - 1]);
      MeaningOfPrefix(ary, i - 1);
      UpAgain(MeaningOf(ary[..i - 1]), ary[i - 1]);
      hide Follow;
      Spliced(ary, i - 1, i + 1);
    }
  }

  lemma Rejoin(s: seq<string>, i: nat)
    requires i <= |s|
    ensures s[..i] + s[i..] == s
  {
  }

  lemma TurnKeepsMeaning(ary: seq<string>, i: nat)
    requires Clean(ary, i) && !Halted(ary, i)
    ensures MeaningOf(Turn(ary, i).0) == MeaningOf(ary)
  {
    var (next, j) := Turn(ary, i);
    TurnAdvances(ary, i);
    hide MeaningOf, Turn, Clean;
    var a, b, tail := next[..j], ary[..i + 1], ary[i + 1..];
    SameStartSameMeaning(a, b, tail);
    Rejoin(next, j);
    Rejoin(ary, i + 1);
  }

  /** Trimming never changes where a path leads. */
  lemma {:induction false} TrimmedKeepsMeaning(ary: seq<string>, i: nat)
    requires Clean(ary, i)
    ensures MeaningOf(Trimmed(ary, i)) == MeaningOf(ary)
    decreases |ary| - i
  {
    if !Halted(ary, i) {
      TurnAdvances(ary, i);
      TurnKeepsMeaning(ary, i);
      hide MeaningOf, Turn;
      TrimmedKeepsMeaning(Turn(ary, i).0, Turn(ary, i).1);
    }
  }

  // ----- the shape of the result -----

  /** Where the loop ends. */
  function Stop(ary: seq<string>, i: nat): nat
    decreases |ary| - i
  {
    if Halted(ary, i) then i else Stop(Turn(ary, i).0, Turn(ary, i).1)
  }

  lemma {:induction false} ResultIsClean(ary: seq<string>, i: nat)
    requires Clean(ary, i)
    ensures Clean(Trimmed(ary, i), Stop(ary, i)) && Halted(Trimmed(ary, i), Stop(ary, i))
    ensures (forall k :: 0 <= k < |ary| ==> ary[k] != "") ==>
              forall k :: 0 <= k < |Trimmed(ary, i)| ==> Trimmed(ary, i)[k] != ""
    decreases |ary| - i
  {
    if !Halted(ary, i) {
      TurnAdvances(ary, i);
      hide MeaningOf, Turn;
      ResultIsClean(Turn(ary, i).0, Turn(ary, i).1);
    }
  }

  lemma {:induction false} CleanIsSkipped(ary: seq<string>, i: nat)
    requires Clean(ary, i)
    ensures Trimmed(ary, 0) == Trimmed(ary, i)
  {
    if i > 0 {
      CleanIsSkipped(ary, i - 1);
    }
  }

  /** Trimming twice is trimming once, for any list of segments. */
  lemma Idempotent(ary: seq<string>)
    ensures Trimmed(Trimmed(ary, 0), 0) == Trimmed(ary, 0)
  {
    ResultIsClean(ary, 0);
    CleanIsSkipped(Trimmed(ary, 0), Stop(ary, 0));
  }

  lemma {:induction false} UpsOnlyGrow(ary: seq<string>, i: nat)
    requires i <= |ary|
    ensures MeaningOf(ary[..i]).ups <= MeaningOf(ary).ups
    decreases |ary| - i
  {
    if i < |ary| {
      UpsOnlyGrow(ary, i + 1);
      MeaningOfPrefix(ary, i);
    } else {
      assert ary[..i] == ary;
    }
  }

  lemma {:induction false} CleanMeansItself(ary: seq<string>)
    requires Clean(ary, |ary|) && (ary != [] ==> ary[0] != "..")
    ensures MeaningOf(ary) == Meaning(0, ary)
  {
    if ary != [] {
      CleanMeansItself(ary[..|ary| - 1]);
      assert ary[..|ary| - 1] + [ary[|ary| - 1]] == ary;
    }
  }

  lemma LeadingUpClimbs(ary: seq<string>)
    requires ary != [] && ary[0] == ".."
    ensures MeaningOf(ary).ups > 0
  {
    MeaningOfPrefix(ary, 0);
    UpsOnlyGrow(ary, 1);
  }

  // ----- which paths are trimmed to a normal form -----

  /** Climbing out of the only name and then straight on. */
  predicate ClimbsOn(ary: seq<string>, k: nat) {
    && k + 1 < |ary| && ary[k] == ".." && ary[k + 1] == ".."
    && MeaningOf(ary[..k]).ups == 0 && |MeaningOf(ary[..k]).names| == 1
  }

  /** The paths that lead two levels above their start, or leave their first name by two ".." in a row. */
  predicate Stuck(ary: seq<string>) {
    MeaningOf(ary).ups >= 2 || exists k: nat :: k < |ary| && ClimbsOn(ary, k)
  }

  /** The segments before the index say where they lead. */
  lemma {:induction false} CleanPrefixMeans(ary: seq<string>, i: nat)
    requires Clean(ary, i)
    ensures MeaningOf(ary[..i]) == CleanMeaning(ary[..i])
  {
    if i > 0 {
      CleanPrefixMeans(ary, i - 1);
      MeaningOfPrefix(ary, i - 1);
      hide MeaningOf;
      OneMoreName(ary[..i - 1], ary[i - 1]);
      hide Follow, CleanMeaning;
      assert ary[..i] == ary[..i - 1] + [ary[i - 1]];
    } else {
      assert ary[..0] == [];
    }
  }

  function CleanMeaning(clean: seq<string>): Meaning {
    if clean != [] && clean[0] == ".." then Meaning(1, clean[1..]) else Meaning(0, clean)
  }

  lemma OneMoreName(clean: seq<string>, part: string)
    requires Plain(part) || (clean == [] && part == "..")
    ensures CleanMeaning(clean + [part]) == Follow(CleanMeaning(clean), part)
  {
    if clean != [] { assert (clean + [part])[1..] == clean[1..] + [part]; }
  }

  /** Whether the loop gives up on the rest of a path, after a start with the given meaning. */
  predicate StuckFrom(m: Meaning, tail: seq<string>)
    decreases |tail|
  {
    tail != [] && (BlockedAt(m, tail) || StuckFrom(Follow(m, tail[0]), tail[1..]))
  }

  predicate BlockedAt(m: Meaning, tail: seq<string>)
    requires tail != []
  {
    && tail[0] == ".."
    && ((m.ups == 1 && m.names == []) || (m.ups == 0 && |m.names| == 1 && |tail| > 1 && tail[1] == ".."))
  }

  lemma BlockedMeansGivesUp(ary: seq<string>, i: nat)
    requires Clean(ary, i) && i < |ary|
    ensures GivesUp(ary, i) <==> BlockedAt(MeaningOf(ary[..i]), ary[i..])
  {
    CleanPrefixMeans(ary, i);
    hide MeaningOf;
    assert ary[i..][0] == ary[i] && (i + 1 < |ary| ==> ary[i..][1] == ary[i + 1]);
  }

  lemma {:induction false} StuckAlong(ary: seq<string>, i: nat)
    requires Clean(ary, i) && forall k :: 0 <= k < |ary| ==> ary[k] != ""
    ensures GivesUp(Trimmed(ary, i), Stop(ary, i)) <==> StuckFrom(MeaningOf(ary[..i]), ary[i..])
    decreases |ary| - i
  {
    if i < |ary| {
      BlockedMeansGivesUp(ary, i);
      assert ary[i..][0] == ary[i] && ary[i..][1..] == ary[i + 1..];
      if !GivesUp(ary, i) {
        TurnAdvances(ary, i);
        MeaningOfPrefix(ary, i);
        hide MeaningOf, Turn, Follow, GivesUp, BlockedAt, Clean;
        StuckAlong(Turn(ary, i).0, Turn(ary, i).1);
      }
    }
  }

  lemma {:induction false} StuckFromMeans(ary: seq<string>, i: nat)
    requires i <= |ary| && MeaningOf(ary[..i]).ups <= 1
    ensures StuckFrom(MeaningOf(ary[..i]), ary[i..]) <==>
              MeaningOf(ary).ups >= 2 || exists k: nat :: i <= k < |ary| && ClimbsOn(ary, k)
    decreases |ary| - i
  {
    if i == |ary| {
      assert ary[..i] == ary;
    } else {
      var m, tail := MeaningOf(ary[..i]), ary[i..];
      assert tail[0] == ary[i] && tail[1..] == ary[i + 1..] && (i + 1 < |ary| ==> tail[1] == ary[i + 1]);
      MeaningOfPrefix(ary, i);
      UpsOnlyGrow(ary, i + 1);
      hide MeaningOf;
      if ary[i] == ".." && m.ups == 1 && m.names == [] {
        assert MeaningOf(ary[..i + 1]).ups == 2;
      } else {
        assert BlockedAt(m, tail) <==> ClimbsOn(ary, i);
        StuckFromMeans(ary, i + 1);
      }
    }
  }

  /** On non-empty segments, no "." and no ".." beyond the first segment is left, exactly when the path
      does not lead two levels above its start and does not leave its first name by two ".." in a row. */
  lemma NormalUnlessGivenUp(ary: seq<string>)
    requires forall k :: 0 <= k < |ary| ==> ary[k] != ""
    ensures var r := Trimmed(ary, 0); Clean(r, |r|) <==> !Stuck(ary)
  {
    ResultIsClean(ary, 0);
    StuckAlong(ary, 0);
    StuckFromMeans(ary, 0);
    assert ary[..0] == [] && ary[0..] == ary;
  }

  /** Every path that keeps a ".." further on climbs above its start. */
  lemma GivingUpClimbs(ary: seq<string>)
    requires Stuck(ary)
    ensures MeaningOf(ary).ups > 0
  {
    if k: nat :| k < |ary| && ClimbsOn(ary, k) {
      MeaningOfPrefix(ary, k);
      MeaningOfPrefix(ary, k + 1);
      UpsOnlyGrow(ary, k + 2);
    }
  }

  /** The smallest such path is left as it is. */
  lemma LeftAsItIs()
    ensures var ary := ["a", "..", ".."];
            Stuck(ary) && Trimmed(ary, 0) == ary && !Clean(ary, |ary|) && MeaningOf(ary) == Meaning(1, [])
  {
    var ary := ["a", "..", ".."];
    assert Trimmed(ary, 1) == ary;
    MeaningOfPrefix(ary, 0);
    MeaningOfPrefix(ary, 1);
    MeaningOfPrefix(ary, 2);
    assert ary[..0] == [] && ary[..3] == ary;
    hide MeaningOf;
    assert ClimbsOn(ary, 1);
  }

  /** A path that never climbs above its start is trimmed to precisely the names it leads through. */
  lemma TrimmedIsNames(ary: seq<string>)
    requires forall k :: 0 <= k < |ary| ==> ary[k] != ""
    requires MeaningOf(ary).ups == 0
    ensures Trimmed(ary, 0) == MeaningOf(ary).names
  {
    var r := Trimmed(ary, 0);
    TrimmedKeepsMeaning(ary, 0);
    NormalUnlessGivenUp(ary);
    if Stuck(ary) { GivingUpClimbs(ary); }
    if |r| > 0 && r[0] == ".." { LeadingUpClimbs(r); }
    CleanMeansItself(r);
  }
}
