/** The queue between `define` and the context: the calls a script makes are taken in when it has been
    loaded, or with the next `require` call. A call without a name belongs to the script that made it. */
module DefineQueue {
  import opened Wrappers
  import opened LoaderState

  /** `takeGlobalQueue`: the new calls are put before the last one that is still there. */
  function Taken(left: seq<Definition>, queued: seq<Definition>): seq<Definition> {
    var at := if left == [] then 0 else |left| - 1;
    left[..at] + queued + left[at..]
  }

  /** Nothing is lost or changes its order, and without left-over calls the new ones are the queue. */
  lemma TakenIs(left: seq<Definition>, queued: seq<Definition>)
    ensures var q, n := Taken(left, queued), |left|;
            && |q| == n + |queued|
            && (n == 0 ==> q == queued)
            && (n > 0 ==> q[..n - 1] == left[..n - 1] && q[n - 1..|q| - 1] == queued && q[|q| - 1] == left[n - 1])
  {
    if left == [] {
      assert Taken(left, queued) == queued;
    }
  }

  /** Defines the module that the script `name` was loaded for. */
  predicate Own(d: Definition, name: nat) {
    d.name.None? || d.name == Some(name)
  }

  function FirstOwn(q: seq<Definition>, name: nat): (k: nat)
    ensures k <= |q| && (k < |q| ==> Own(q[k], name))
    ensures forall j :: 0 <= j < k ==> !Own(q[j], name)
  {
    if q == [] || Own(q[0], name) then 0 else 1 + FirstOwn(q[1..], name)
  }

  function FirstAnonymous(q: seq<Definition>): (k: nat)
    ensures k <= |q| && (k < |q| ==> q[k].name.None?)
    ensures forall j :: 0 <= j < k ==> q[j].name.Some?
  {
    if q == [] || q[0].name.None? then 0 else 1 + FirstAnonymous(q[1..])
  }

  /** Where the loop of `completeLoad` stops: at a call without a name after one that was taken to be the
      script's own. */
  function StopsAt(q: seq<Definition>, name: nat): (k: nat)
    ensures k <= |q| && (k < |q| ==> q[k].name.None? && FirstOwn(q, name) < k)
    ensures FirstOwn(q, name) < |q| ==> FirstOwn(q, name) < k
    ensures forall j :: FirstOwn(q, name) < j < k ==> q[j].name.Some?
  {
    var own := FirstOwn(q, name);
    if own == |q| then |q| else own + 1 + FirstAnonymous(q[own + 1..])
  }

  /** What is left when a loop over the queue stops at the call with number k, which is lost. */
  function LeftAfter(q: seq<Definition>, k: nat): seq<Definition> {
    if k < |q| then q[k + 1..] else []
  }

  /** Everything is taken in unless a call without a name comes after one of the script's own. The first such
      call is lost, although it may be meant for a script that is still to come. */
  lemma AllTakenIn(q: seq<Definition>, name: nat)
    ensures StopsAt(q, name) == |q| <==> forall i, j :: 0 <= i < j < |q| && Own(q[i], name) ==> q[j].name.Some?
    ensures StopsAt(q, name) < |q| ==>
              q == q[..StopsAt(q, name)] + [q[StopsAt(q, name)]] + LeftAfter(q, StopsAt(q, name))
  {
    hide FirstOwn, StopsAt;
    var own, stop := FirstOwn(q, name), StopsAt(q, name);
    if stop < |q| {
      assert own < stop && Own(q[own], name) && q[stop].name.None?;
    }
  }

  function NameFor(d: Definition, name: nat): nat {
    if d.name.Some? then d.name.value else name
  }

  // ----- taking definitions in -----

  /** A definition that does not come from the queue. */
  datatype Extra = Extra(id: Id, deps: seq<Dep>, factory: Factory)

  /** From s to t the first n calls of the queue have been taken in, for the script `name`: their modules are
      known, and were not they before, defined as the first call for them says. Nothing else has become known,
      but for what the extra definition defines. */
  ghost predicate TookIn(s: State, t: State, q: seq<Definition>, n: nat, name: nat, extra: Option<Extra>)
    requires n <= |q|
  {
    && (forall k :: 0 <= k < n ==> Inited(t, Named(NameFor(q[k], name))))
    && (forall k :: 0 <= k < n && FirstFor(q, k, name) && !Inited(s, Named(NameFor(q[k], name))) ==>
          DefinedAs(t, Named(NameFor(q[k], name)), q[k].deps, q[k].factory))
    && (forall m :: Inited(t, m) && !Inited(s, m) ==>
          || ComesFrom(t, m, q, n, name)
          || (extra.Some? && m == extra.value.id && DefinedAs(t, m, extra.value.deps, extra.value.factory)))
  }

  /** The queue has no earlier call for the module of call k. */
  ghost predicate FirstFor(q: seq<Definition>, k: nat, name: nat)
    requires k < |q|
  {
    forall j :: 0 <= j < k ==> NameFor(q[j], name) != NameFor(q[k], name)
  }

  ghost predicate ComesFrom(t: State, m: Id, q: seq<Definition>, n: nat, name: nat)
    requires n <= |q|
  {
    exists k :: 0 <= k < n && m == Named(NameFor(q[k], name)) && DefinedAs(t, m, q[k].deps, q[k].factory)
  }

  lemma TookNone(s: State, q: seq<Definition>, name: nat)
    ensures TookIn(s, s, q, 0, name, None)
  {
  }

  lemma StillFrom(t: State, u: State, m: Id, q: seq<Definition>, n: nat, name: nat)
    requires n <= |q| && Grows(t, u) && ComesFrom(t, m, q, n, name)
    ensures ComesFrom(u, m, q, n, name)
  {
    var k :| 0 <= k < n && m == Named(NameFor(q[k], name)) && DefinedAs(t, m, q[k].deps, q[k].factory);
    assert DefinedAs(u, m, q[k].deps, q[k].factory);
  }

  lemma StillDefinedAs(t: State, u: State)
    requires Grows(t, u)
    ensures forall m, deps, factory :: DefinedAs(t, m, deps, factory) ==> DefinedAs(u, m, deps, factory)
    ensures forall m :: Inited(t, m) ==> Inited(u, m)
  {
  }

  /** One more call is taken in. */
  lemma TookOne(s: State, t: State, u: State, q: seq<Definition>, n: nat, name: nat)
    requires n < |q| && TookIn(s, t, q, n, name, None) && Grows(t, u)
    requires var m := Named(NameFor(q[n], name));
             && Inited(u, m) && OnlyInits(t, u, m)
             && (!Inited(t, m) ==> DefinedAs(u, m, q[n].deps, q[n].factory))
    ensures TookIn(s, u, q, n + 1, name, None)
  {
    var x := Named(NameFor(q[n], name));
    StillDefinedAs(t, u);
    forall m | Inited(u, m) && !Inited(s, m) ensures ComesFrom(u, m, q, n + 1, name) {
      if Inited(t, m) {
        StillFrom(t, u, m, q, n, name);
        var k :| 0 <= k < n && m == Named(NameFor(q[k], name)) && DefinedAs(u, m, q[k].deps, q[k].factory);
      } else {
        assert m == x && DefinedAs(u, m, q[n].deps, q[n].factory);
      }
    }
    if FirstFor(q, n, name) && !Inited(s, x) {
      assert !Inited(t, x) by { NotYet(s, t, q, n, name); }
    }
    hide Grows, OnlyInits, NameFor, DefinedAs, Inited, ComesFrom;
  }

  lemma TookMeans(s: State, t: State, q: seq<Definition>, n: nat, name: nat, extra: Option<Extra>)
    requires n <= |q| && TookIn(s, t, q, n, name, extra)
    ensures forall k :: 0 <= k < n ==> Inited(t, Named(if q[k].name.Some? then q[k].name.value else name))
  {
  }

  lemma NotYet(s: State, t: State, q: seq<Definition>, n: nat, name: nat)
    requires n < |q| && TookIn(s, t, q, n, name, None) && FirstFor(q, n, name)
    requires !Inited(s, Named(NameFor(q[n], name)))
    ensures !Inited(t, Named(NameFor(q[n], name)))
  {
  }

  /** Then the extra module is defined, or nothing is. */
  lemma TookAll(s: State, t: State, u: State, q: seq<Definition>, n: nat, name: nat, extra: Extra)
    requires n <= |q| && TookIn(s, t, q, n, name, None) && Grows(t, u) && OnlyInits(t, u, extra.id)
    requires Inited(u, extra.id) && !Inited(t, extra.id) ==> DefinedAs(u, extra.id, extra.deps, extra.factory)
    ensures TookIn(s, u, q, n, name, Some(extra))
  {
    StillDefinedAs(t, u);
    forall m | Inited(u, m) && !Inited(s, m)
      ensures ComesFrom(u, m, q, n, name) || (m == extra.id && DefinedAs(u, m, extra.deps, extra.factory))
    {
      if Inited(t, m) {
        StillFrom(t, u, m, q, n, name);
      }
    }
    hide Grows, OnlyInits, NameFor, DefinedAs, Inited, ComesFrom;
  }

  /** What becomes of the script's own module. */
  lemma OwnDefinition(s: State, t: State, q: seq<Definition>, n: nat, name: nat)
    requires n <= |q| && TookIn(s, t, q, n, name, None) && !Inited(s, Named(name))
    requires FirstOwn(q, name) < |q| ==> FirstOwn(q, name) < n
    ensures if FirstOwn(q, name) < |q|
            then DefinedAs(t, Named(name), q[FirstOwn(q, name)].deps, q[FirstOwn(q, name)].factory)
            else !Inited(t, Named(name))
  {
    hide FirstOwn;
    var own := FirstOwn(q, name);
    if own < |q| {
      assert FirstFor(q, own, name) by {
        forall j | 0 <= j < own ensures NameFor(q[j], name) != name { assert !Own(q[j], name); }
      }
    } else {
      forall k | 0 <= k < n ensures NameFor(q[k], name) != name { assert !Own(q[k], name); }
    }
  }

  lemma Shifted(q: seq<Definition>, k: nat, d: Definition, rest: seq<Definition>)
    requires k <= |q| && [d] + rest == q[k..]
    ensures k < |q| && d == q[k] && rest == q[k + 1..]
  {
    assert |q[k..]| == 1 + |rest|;
    assert q[k..][0] == q[k] && q[k..][1..] == q[k + 1..];
    assert ([d] + rest)[1..] == rest;
  }

  class Queue {
    var items: seq<Definition>

    constructor ()
      ensures items == []
    {
      items := [];
    }

    method TakeGlobalQueue(queued: seq<Definition>)
      modifies this
      ensures items == Taken(old(items), queued)
      ensures old(items) == [] ==> items == queued
      ensures old(items) != [] ==> items == old(items[..|items| - 1]) + queued + [old(items[|items| - 1])]
    {
      var at := if items == [] then 0 else |items| - 1;
      items := items[..at] + queued + items[at..];
    }

    method Shift() returns (d: Definition)
      requires items != []
      modifies this
      ensures [d] + items == old(items)
    {
      d, items := items[0], items[1..];
    }
  }
}
