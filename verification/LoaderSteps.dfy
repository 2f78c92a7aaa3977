/** One lemma per elementary step of the loader: the step keeps the invariant. Every step replaces
    the record of one module, so all of them go through `UpdateStep`. */
module LoaderSteps {
  import opened Wrappers
  import opened LoaderState

  // ----- replacing one record -----

  /** What other modules see of a module only gets better. */
  ghost predicate Improves(M: Module, N: Module) {
    && (M.deps == N.deps || (M.deps == [] && M.wired == 0))
    && M.wired <= N.wired
    && (M.enabled ==> N.enabled)
    && (M.defined ==> N.defined && N.exports == M.exports && N.depExports == M.depExports)
    && M.listeners <= N.listeners
  }

  /** t differs from s only in what concerns module m. */
  ghost predicate OnlyAbout(s: State, t: State, m: Id) {
    && m in s.mods
    && t.mods.Keys == s.mods.Keys
    && (forall x :: x in s.mods && x != m ==> t.mods[x] == s.mods[x])
    && Improves(s.mods[m], t.mods[m])
    && (forall x :: x != m ==> (x in t.registry <==> x in s.registry))
    && (forall x :: x != m ==> (x in t.enabledRegistry <==> x in s.enabledRegistry))
    && (forall x :: x != m ==> (x in t.defined <==> x in s.defined))
    && (forall x :: x != m && x in s.defined ==> t.defined[x] == s.defined[x])
    && s.calls <= t.calls && s.forced <= t.forced
    && (forall f :: f in t.forced && f !in s.forced ==> f.id == m)
    && s.requireCounter == t.requireCounter
  }

  lemma UpdateModules(s: State, t: State, m: Id, dirty: set<Id>, dirty': set<Id>)
    requires ModulesOk(s, dirty) && OnlyAbout(s, t, m) && dirty - {m} <= dirty'
    requires ModuleOk(t, m, dirty')
    ensures ModulesOk(t, dirty')
  {
    forall x | x in t.mods ensures ModuleOk(t, x, dirty') {
      assert ModuleOk(s, x, dirty);
      if Ran(s.calls, x) {
        var k :| 0 <= k < |s.calls| && s.calls[k].id == x;
        assert t.calls[k].id == x;
      }
    }
  }

  lemma UpdateSlots(s: State, t: State, m: Id, open: set<Slot>, open': set<Slot>, path: set<Id>,
                    dirty: set<Id>, dirty': set<Id>)
    requires ModulesOk(s, dirty) && SlotsOk(s, open, path, dirty) && OnlyAbout(s, t, m)
    requires dirty - {m} <= dirty'
    requires m in dirty && m !in dirty' ==> t.mods[m].enabled
    requires t.mods[m].defined ==> m !in t.registry
    requires s.mods[m].defined <==> m !in s.registry
    requires forall l :: l in open && l !in open' ==>
                           l.id == m || (l in t.mods[m].listeners && !t.mods[m].defined && ListenerOk(t, m, l))
    requires t.mods[m].defined && !s.mods[m].defined ==>
               forall l :: l in t.mods[m].listeners ==> l in open'
    requires forall j: nat :: j < t.mods[m].wired && Shape(t.mods[m]) ==> SlotOk(t, m, j, open', path, dirty')
    ensures SlotsOk(t, open', path, dirty')
  {
    hide SlotOk, ModuleOk, Shape, ModulesOk, Improves, ListenerOk;
    forall x, j: nat | x in t.mods && j < t.mods[x].wired && Shape(t.mods[x])
      ensures SlotOk(t, x, j, open', path, dirty')
    {
      if x != m {
        assert SlotOk(s, x, j, open, path, dirty);
        UpdateOneSlot(s, t, m, open, open', path, dirty, dirty', x, j);
      }
    }
  }

  lemma UpdateOneSlot(s: State, t: State, m: Id, open: set<Slot>, open': set<Slot>, path: set<Id>,
                      dirty: set<Id>, dirty': set<Id>, x: Id, j: nat)
    requires OnlyAbout(s, t, m) && x != m && x in s.mods && j < s.mods[x].wired && Shape(s.mods[x])
    requires SlotOk(s, x, j, open, path, dirty)
    requires dirty - {m} <= dirty'
    requires m in dirty && m !in dirty' ==> t.mods[m].enabled
    requires t.mods[m].defined ==> m !in t.registry
    requires s.mods[m].defined <==> m !in s.registry
    requires forall l :: l in open && l !in open' ==>
                           l.id == m || (l in t.mods[m].listeners && !t.mods[m].defined && ListenerOk(t, m, l))
    requires t.mods[m].defined && !s.mods[m].defined ==>
               forall l :: l in t.mods[m].listeners ==> l in open'
    ensures SlotOk(t, x, j, open', path, dirty')
  {
    hide Unmatched;
  }

  lemma UpdateTables(s: State, t: State, m: Id)
    requires TablesOk(s) && OnlyAbout(s, t, m) && GlobalOk(t)
    requires Subgraph(GraphOf(s.mods), GraphOf(t.mods))
    requires t.mods[m].wired <= |t.mods[m].deps|
    requires forall l :: l in t.mods[m].listeners && l !in s.mods[m].listeners ==> ListenerOk(t, m, l)
    requires forall k: nat :: |s.calls| <= k < |t.calls| ==> CallOk(t, k)
    requires forall f :: f in t.forced && f !in s.forced ==> ForcedOk(t, f)
    ensures TablesOk(t)
  {
    forall d, l | d in t.mods && l in t.mods[d].listeners ensures ListenerOk(t, d, l) {
      if d != m || l in s.mods[m].listeners {
        assert ListenerOk(s, d, l);
      }
    }
    forall k: nat | k < |t.calls| ensures CallOk(t, k) {
      if k < |s.calls| { assert CallOk(s, k); }
    }
    forall f | f in t.forced ensures ForcedOk(t, f) {
      if f in s.forced {
        assert ForcedOk(s, f);
        CycleInLargerGraph(GraphOf(s.mods), GraphOf(t.mods), f.id, Named(s.mods[f.id].deps[f.i].name));
      }
    }
  }

  lemma UpdateProgress(s: State, t: State, m: Id)
    requires OnlyAbout(s, t, m) && Kept(s, t, m)
    requires forall x :: x in s.mods ==> |s.mods[x].depMatched| == |s.mods[x].deps| == |s.mods[x].depExports|
    ensures Progress(s, t)
    ensures SameRole(s.mods[m], t.mods[m]) && s.forced == t.forced ==> OnlyChecks(s, t)
    ensures s.forced == t.forced ==> OnlyEnables(s, t, m)
  {
    forall x | x in s.mods ensures Kept(s, t, x) {
    }
  }

  lemma Shapes(s: State, dirty: set<Id>)
    requires ModulesOk(s, dirty)
    ensures forall x :: x in s.mods ==> |s.mods[x].depMatched| == |s.mods[x].deps| == |s.mods[x].depExports|
  {
    forall x | x in s.mods ensures Shape(s.mods[x]) {
      assert ModuleOk(s, x, dirty);
    }
  }

  /** The common part of all steps. */
  lemma UpdateStep(s: State, t: State, m: Id, open: set<Slot>, open': set<Slot>, path: set<Id>,
                   dirty: set<Id>, dirty': set<Id>)
    requires Inv(s, open, path, dirty) && OnlyAbout(s, t, m) && Kept(s, t, m)
    requires dirty - {m} <= dirty'
    requires m in dirty && m !in dirty' ==> t.mods[m].enabled
    requires ModuleOk(t, m, dirty')
    requires forall l :: l in open && l !in open' ==>
                           l.id == m || (l in t.mods[m].listeners && !t.mods[m].defined && ListenerOk(t, m, l))
    requires t.mods[m].defined && !s.mods[m].defined ==>
               forall l :: l in t.mods[m].listeners ==> l in open'
    requires forall j: nat :: j < t.mods[m].wired ==> SlotOk(t, m, j, open', path, dirty')
    requires GlobalOk(t) && t.mods[m].deps == s.mods[m].deps
    requires forall l :: l in t.mods[m].listeners && l !in s.mods[m].listeners ==> ListenerOk(t, m, l)
    requires forall k: nat :: |s.calls| <= k < |t.calls| ==> CallOk(t, k)
    requires forall f :: f in t.forced && f !in s.forced ==> ForcedOk(t, f)
    ensures Inv(t, open', path, dirty')
    ensures Progress(s, t)
    ensures SameRole(s.mods[m], t.mods[m]) && s.forced == t.forced ==> OnlyChecks(s, t)
    ensures s.forced == t.forced ==> OnlyEnables(s, t, m)
  {
    hide *;
    InvParts(s, open, path, dirty);
    AboutMeans(s, t, m);
    TakeModule(s, m, open, path, dirty);
    ModuleMeans(s, m, dirty);
    ModuleMeans(t, m, dirty');
    UpdateModules(s, t, m, dirty, dirty');
    UpdateSlots(s, t, m, open, open', path, dirty, dirty');
    UpdateTables(s, t, m);
    InvParts(t, open', path, dirty');
    Shapes(s, dirty);
    UpdateProgress(s, t, m);
  }

  lemma AboutMeans(s: State, t: State, m: Id)
    requires OnlyAbout(s, t, m) && t.mods[m].deps == s.mods[m].deps
    ensures m in s.mods && t.mods.Keys == s.mods.Keys && s.forced <= t.forced
    ensures Subgraph(GraphOf(s.mods), GraphOf(t.mods))
  {
    assert GraphOf(t.mods) == GraphOf(s.mods);
  }

  lemma ModuleMeans(s: State, m: Id, dirty: set<Id>)
    requires m in s.mods && ModuleOk(s, m, dirty)
    ensures (s.mods[m].defined <==> m !in s.registry) && s.mods[m].wired <= |s.mods[m].deps|
  {
  }

  lemma InvParts(s: State, open: set<Slot>, path: set<Id>, dirty: set<Id>)
    ensures Inv(s, open, path, dirty) <==> ModulesOk(s, dirty) && SlotsOk(s, open, path, dirty) && TablesOk(s)
  {
  }

  lemma TakeModule(s: State, m: Id, open: set<Slot>, path: set<Id>, dirty: set<Id>)
    requires Inv(s, open, path, dirty) && m in s.mods
    ensures ModuleOk(s, m, dirty)
  {
  }

  lemma TakeSlots(s: State, m: Id, open: set<Slot>, path: set<Id>, dirty: set<Id>)
    requires Inv(s, open, path, dirty) && m in s.mods
    ensures forall j: nat :: j < s.mods[m].wired && Shape(s.mods[m]) ==> SlotOk(s, m, j, open, path, dirty)
  {
  }

  lemma TakeGlobal(s: State, open: set<Slot>, path: set<Id>, dirty: set<Id>)
    requires Inv(s, open, path, dirty)
    ensures GlobalOk(s)
    ensures forall k: nat :: k < |s.calls| ==> CallOk(s, k)
  {
  }

  lemma TakeListener(s: State, d: Id, l: Slot, open: set<Slot>, path: set<Id>)
    requires Inv(s, open, path, {}) && d in s.mods && l in s.mods[d].listeners
    ensures ListenerOk(s, d, l)
    ensures Shape(s.mods[l.id]) && s.mods[l.id].enabled
    ensures s.mods[l.id].enabling || s.mods[l.id].wired == |s.mods[l.id].deps|
  {
    assert ListenerOk(s, d, l);
    assert ModuleOk(s, l.id, {});
  }

  lemma MoreOpen(s: State, open: set<Slot>, open': set<Slot>, path: set<Id>, dirty: set<Id>)
    requires Inv(s, open, path, dirty) && open <= open'
    ensures Inv(s, open', path, dirty)
  {
    forall x, j: nat | x in s.mods && j < s.mods[x].wired && Shape(s.mods[x])
      ensures SlotOk(s, x, j, open', path, dirty)
    {
      assert SlotOk(s, x, j, open, path, dirty);
    }
  }

  // ----- composing steps -----

  lemma Same(s: State, open: set<Slot>, path: set<Id>, dirty: set<Id>)
    requires Inv(s, open, path, dirty)
    ensures Progress(s, s) && OnlyChecks(s, s)
  {
    Shapes(s, dirty);
  }

  lemma ProgressTransitive(s: State, t: State, u: State)
    requires Progress(s, t) && Progress(t, u)
    ensures Progress(s, u)
  {
    forall x | x in s.mods ensures Kept(s, u, x) {
      assert Kept(s, t, x) && Kept(t, u, x);
    }
    forall x | x in u.mods && x !in s.mods ensures !u.mods[x].inited {
      if x in t.mods { assert Kept(t, u, x); }
    }
  }

  lemma Chain(s: State, t: State, u: State)
    requires Progress(s, t) && Progress(t, u) && OnlyChecks(s, t) && OnlyChecks(t, u)
    ensures Progress(s, u) && OnlyChecks(s, u)
  {
    ProgressTransitive(s, t, u);
    forall x | x in s.mods ensures SameRole(s.mods[x], u.mods[x]) {
      assert SameRole(s.mods[x], t.mods[x]) && SameRole(t.mods[x], u.mods[x]);
    }
  }

  lemma StillEmitting(s: State, t: State, d: Id)
    requires Progress(s, t) && OnlyChecks(s, t) && d in s.mods && s.mods[d].defined
    ensures d in t.mods && t.mods[d].defined
    ensures t.mods[d].exports == s.mods[d].exports && t.mods[d].listeners == s.mods[d].listeners
    ensures forall k: nat :: k <= |s.mods[d].listeners| ==> ListenersFrom(t, d, k) == ListenersFrom(s, d, k)
  {
    assert Kept(s, t, d) && SameRole(s.mods[d], t.mods[d]);
  }

  lemma NextListener(s: State, d: Id, k: nat, open: set<Slot>)
    requires d in s.mods && k < |s.mods[d].listeners|
    ensures open + ListenersFrom(s, d, k) - {s.mods[d].listeners[k]} <= open + ListenersFrom(s, d, k + 1)
  {
    var ls := s.mods[d].listeners;
    assert ls[k..] == [ls[k]] + ls[k + 1..];
  }

  lemma NoListenersLeft(s: State, d: Id, open: set<Slot>)
    requires d in s.mods
    ensures open + ListenersFrom(s, d, |s.mods[d].listeners|) == open
  {
  }

  lemma ShapeLengths(M: Module)
    requires Shape(M)
    ensures |M.depMatched| == |M.depExports| == |M.deps| && M.wired <= |M.deps|
    ensures M.enabling ==> M.enabled
    ensures M.deps != [] ==> M.inited
  {
  }

  lemma EmittedNow(s: State, t: State, m: Id)
    requires OnlyChecks(s, t) && m in s.mods && !s.mods[m].defineEmitted && t.mods[m].defineEmitted
    ensures Unemitted(t) < Unemitted(s)
  {
    UnemittedShrinks(s, t);
    assert m in Unemitted(s) && m !in Unemitted(t);
  }

  lemma UnemittedShrinks(s: State, t: State)
    requires OnlyChecks(s, t)
    ensures Unemitted(t) <= Unemitted(s)
    ensures Unemitted(t) == Unemitted(s) || Unemitted(t) < Unemitted(s)
  {
    forall x | x in Unemitted(t) ensures x in Unemitted(s) {
      assert SameRole(s.mods[x], t.mods[x]);
    }
  }

  // ----- the steps of check and emit -----

  /** The record of a module after slot i has received v: the first delivery counts, later ones change
      nothing. */
  function Delivered(M: Module, i: nat, v: Value): Module
    requires i < |M.depMatched| == |M.depExports|
  {
    if M.depMatched[i] then M
    else M.(depMatched := M.depMatched[i := true], depCount := M.depCount - 1,
            depExports := M.depExports[i := v])
  }

  lemma DeliverShape(M: Module, i: nat, v: Value)
    requires Shape(M) && i < M.wired && M.deps[i].On? && !M.depMatched[i]
    ensures Shape(Delivered(M, i, v))
    ensures KeptRecord(M, Delivered(M, i, v)) && SameRole(M, Delivered(M, i, v))
    ensures M.depCount > 0
  {
    UnmatchedUpdate(M.deps, M.depMatched, M.wired, i);
  }

  lemma Unchanged(M: Module)
    requires Shape(M)
    ensures KeptRecord(M, M) && SameRole(M, M)
  {
  }

  /** Delivering the export of a defined dependency closes its listener. */
  lemma DeliverStep(s: State, t: State, m: Id, i: nat, open: set<Slot>, path: set<Id>)
    requires Inv(s, open, path, {}) && DeliverCase(s, t, m, i)
    ensures Inv(t, open - {Slot(m, i)}, path, {m})
    ensures Progress(s, t) && OnlyChecks(s, t)
  {
    DeliverFrame(s, t, m, i, open, path);
    DeliverOwn(s, t, m, i, open, path);
    hide *;
    UpdateStep(s, t, m, open, open - {Slot(m, i)}, path, {}, {m});
  }

  ghost predicate DeliverCase(s: State, t: State, m: Id, i: nat) {
    && m in s.mods && i < s.mods[m].wired && Shape(s.mods[m]) && s.mods[m].deps[i].On?
    && var d := Named(s.mods[m].deps[i].name);
    d in s.mods && s.mods[d].defined
    && t == s.(mods := s.mods[m := Delivered(s.mods[m], i, s.mods[d].exports)])
  }

  lemma DeliverFrame(s: State, t: State, m: Id, i: nat, open: set<Slot>, path: set<Id>)
    requires Inv(s, open, path, {}) && DeliverCase(s, t, m, i)
    ensures OnlyAbout(s, t, m) && Kept(s, t, m) && GlobalOk(t) && SameRole(s.mods[m], t.mods[m])
    ensures t.forced == s.forced && t.calls == s.calls && t.mods[m].deps == s.mods[m].deps
    ensures t.mods[m].listeners == s.mods[m].listeners && t.mods[m].defined == s.mods[m].defined
  {
    hide ModulesOk, SlotsOk, TablesOk, KeptRecord, SameRole, HandlersOk, Unmatched;
    var M := s.mods[m];
    TakeModule(s, m, open, path, {});
    TakeGlobal(s, open, path, {});
    if !M.depMatched[i] {
      DeliverShape(M, i, s.mods[Named(M.deps[i].name)].exports);
    } else {
      Unchanged(M);
    }
  }

  lemma DeliverOwn(s: State, t: State, m: Id, i: nat, open: set<Slot>, path: set<Id>)
    requires Inv(s, open, path, {}) && DeliverCase(s, t, m, i)
    ensures ModuleOk(t, m, {m})
    ensures forall j: nat :: j < t.mods[m].wired ==> SlotOk(t, m, j, open - {Slot(m, i)}, path, {m})
  {
    hide ModulesOk, SlotsOk, TablesOk, KeptRecord, SameRole;
    var M := s.mods[m];
    TakeModule(s, m, open, path, {});
    TakeSlots(s, m, open, path, {});
    if !M.depMatched[i] {
      DeliverShape(M, i, s.mods[Named(M.deps[i].name)].exports);
    } else {
      Unchanged(M);
    }
    hide Unmatched;
    assert ModuleOk(t, m, {m});
    forall j: nat | j < t.mods[m].wired ensures SlotOk(t, m, j, open - {Slot(m, i)}, path, {m}) {
      assert SlotOk(s, m, j, open, path, {});
    }
  }

  ghost predicate ForceCase(s: State, t: State, m: Id, i: nat, path: set<Id>) {
    && m in s.mods && i < s.mods[m].wired && Shape(s.mods[m]) && s.mods[m].deps[i].On?
    && !s.mods[m].depMatched[i]
    && var d := Named(s.mods[m].deps[i].name);
    && d in path && OnCycle(GraphOf(s.mods), m, d) && d in s.mods && d in s.registry
    && t == s.(mods := s.mods[m := Delivered(s.mods[m], i, if d in s.defined then s.defined[d] else Undefined)],
               forced := s.forced + {Slot(m, i)})
  }

  lemma ForceOwn(s: State, t: State, m: Id, i: nat, path: set<Id>)
    requires Inv(s, {}, path, {}) && ForceCase(s, t, m, i, path)
    ensures ModuleOk(t, m, {m})
    ensures forall j: nat :: j < t.mods[m].wired ==> SlotOk(t, m, j, {}, path, {m})
  {
    hide ModulesOk, SlotsOk, TablesOk, OnCycle;
    var M := s.mods[m];
    var d := Named(M.deps[i].name);
    TakeModule(s, m, {}, path, {});
    TakeModule(s, d, {}, path, {});
    DeliverShape(M, i, if d in s.defined then s.defined[d] else Undefined);
    assert ModuleOk(t, m, {m});
    TakeSlots(s, m, {}, path, {});
    forall j: nat | j < t.mods[m].wired ensures SlotOk(t, m, j, {}, path, {m}) {
      assert SlotOk(s, m, j, {}, path, {});
    }
  }

  lemma ForceFrame(s: State, t: State, m: Id, i: nat, path: set<Id>)
    requires Inv(s, {}, path, {}) && ForceCase(s, t, m, i, path)
    ensures OnlyAbout(s, t, m) && Kept(s, t, m) && GlobalOk(t)
  {
    hide ModulesOk, SlotsOk, TablesOk, KeptRecord, SameRole, HandlersOk, Unmatched, OnCycle, GraphOf, SlotOk;
    TakeModule(s, m, {}, path, {});
    TakeGlobal(s, {}, path, {});
    DeliverShape(s.mods[m], i, t.mods[m].depExports[i]);
  }

  lemma ForcedOnCycle(s: State, t: State, m: Id, i: nat, path: set<Id>)
    requires ForceCase(s, t, m, i, path)
    ensures ForcedOk(t, Slot(m, i))
  {
    hide OnCycle, Unmatched;
    assert GraphOf(t.mods) == GraphOf(s.mods);
    hide GraphOf;
  }

  /** The cycle breaker delivers to a slot whose dependency lies on the current path. */
  lemma ForceStep(s: State, t: State, m: Id, i: nat, path: set<Id>)
    requires Inv(s, {}, path, {}) && ForceCase(s, t, m, i, path)
    ensures Inv(t, {}, path, {m})
    ensures Progress(s, t)
  {
    hide ModulesOk, SlotsOk, TablesOk, Progress, OnCycle, KeptRecord, SameRole, OnlyChecks, OnlyEnables;
    var M := s.mods[m];
    var d := Named(M.deps[i].name);
    ForceOwn(s, t, m, i, path);
    ForceFrame(s, t, m, i, path);
    ForcedOnCycle(s, t, m, i, path);
    hide OnlyAbout, Kept, GlobalOk, ModuleOk, SlotOk, ForcedOk, GraphOf;
    UpdateStep(s, t, m, {}, {}, path, {}, {m});
  }

  /** A module that is enabling or settled has nothing to check. */
  lemma NoCheckNeeded(s: State, m: Id, open: set<Slot>, path: set<Id>)
    requires Inv(s, open, path, {m}) && m in s.mods
    requires s.mods[m].enabled && (s.mods[m].enabling || Settled(s.mods[m]))
    ensures Inv(s, open, path, {})
  {
    assert ModuleOk(s, m, {m});
    assert ModuleOk(s, m, {});
    forall j: nat | j < s.mods[m].wired ensures SlotOk(s, m, j, open, path, {}) {
      assert SlotOk(s, m, j, open, path, {m});
    }
    UpdateModules(s, s, m, {m}, {});
    UpdateSlots(s, s, m, open, open, path, {m}, {});
  }

  /** Asking for the script of a module that has no definition yet. */
  lemma FetchStep(s: State, t: State, m: Id, open: set<Slot>, path: set<Id>)
    requires Inv(s, open, path, {m}) && m in s.mods
    requires s.mods[m].enabled && !s.mods[m].enabling && !s.mods[m].inited
    requires t == s.(mods := s.mods[m := s.mods[m].(fetched := true)])
    ensures Inv(t, open, path, {})
    ensures Progress(s, t) && OnlyChecks(s, t)
  {
    hide ModulesOk, SlotsOk, TablesOk, Progress, OnlyChecks, OnlyEnables;
    TakeModule(s, m, open, path, {m});
    TakeGlobal(s, open, path, {m});
    assert ModuleOk(t, m, {});
    assert OnlyAbout(s, t, m) && Kept(s, t, m);
    assert GlobalOk(t);
    hide OnlyAbout, Kept, GlobalOk, ModuleOk, SlotOk;
    UpdateStep(s, t, m, open, open, path, {m}, {});
  }

  /** A module whose dependencies are all delivered becomes defined, runs its factory and leaves
      the registry; all its listeners are now to be called. */
  lemma DefineStep(s: State, t: State, m: Id, exports: Value, open: set<Slot>, path: set<Id>)
    requires Inv(s, open, path, {m}) && DefineCase(s, t, m, exports)
    ensures Inv(t, open + ListenersFrom(t, m, 0), path, {})
    ensures Progress(s, t) && OnlyChecks(s, t)
  {
    hide ModulesOk, SlotsOk, TablesOk, Progress, OnlyChecks, OnlyEnables, OnlyAbout, Kept, GlobalOk, ModuleOk, SlotOk;
    DefineFrame(s, t, m, exports, open, path);
    DefineOwn(s, t, m, exports, open, path);
    assert t.mods[m].listeners == t.mods[m].listeners[0..];
    UpdateStep(s, t, m, open, open + ListenersFrom(t, m, 0), path, {m}, {});
  }

  ghost predicate DefineCase(s: State, t: State, m: Id, exports: Value) {
    && m in s.mods
    && var M := s.mods[m];
    && M.enabled && !M.enabling && M.inited && M.wired == |M.deps| && M.depCount < 1 && !M.defined
    && exports == Exported(m, M)
    && t == s.(mods := s.mods[m := M.(exports := exports, defined := true, defineEmitted := true)],
               defined := if m.Named? then s.defined[m := exports] else s.defined,
               registry := s.registry - {m},
               enabledRegistry := s.enabledRegistry - {m},
               calls := if M.factory.Function? then s.calls + [Call(m, M.depExports)] else s.calls)
  }

  lemma DefineFrame(s: State, t: State, m: Id, exports: Value, open: set<Slot>, path: set<Id>)
    requires Inv(s, open, path, {m}) && DefineCase(s, t, m, exports)
    ensures OnlyAbout(s, t, m) && Kept(s, t, m) && GlobalOk(t)
    ensures forall k: nat :: |s.calls| <= k < |t.calls| ==> CallOk(t, k)
  {
    hide ModulesOk, SlotsOk, TablesOk;
    TakeModule(s, m, open, path, {m});
    assert Kept(s, t, m);
    hide Kept;
    TakeGlobal(s, open, path, {m});
    forall k: nat | k < |s.calls| ensures s.calls[k].id != m { assert CallOk(s, k); }
  }

  lemma DefineOwn(s: State, t: State, m: Id, exports: Value, open: set<Slot>, path: set<Id>)
    requires Inv(s, open, path, {m}) && DefineCase(s, t, m, exports)
    ensures ModuleOk(t, m, {})
    ensures forall j: nat :: j < t.mods[m].wired ==> SlotOk(t, m, j, open + ListenersFrom(t, m, 0), path, {})
  {
    hide ModulesOk, SlotsOk, TablesOk;
    var M := s.mods[m];
    TakeModule(s, m, open, path, {m});
    if M.factory.Function? { assert t.calls[|s.calls|].id == m; }
    assert ModuleOk(t, m, {});
    assert M.listeners == M.listeners[0..];
    TakeSlots(s, m, open, path, {m});
    forall j: nat | j < t.mods[m].wired ensures SlotOk(t, m, j, open + ListenersFrom(t, m, 0), path, {}) {
      assert SlotOk(s, m, j, open, path, {m});
    }
  }

  /** Setting `defineEmitComplete` once all listeners have been called. */
  lemma EmitCompleteStep(s: State, t: State, m: Id, open: set<Slot>, path: set<Id>)
    requires Inv(s, open, path, {}) && m in s.mods && s.mods[m].defined
    requires t == s.(mods := s.mods[m := s.mods[m].(defineEmitComplete := true)])
    ensures Inv(t, open, path, {})
    ensures Progress(s, t) && OnlyChecks(s, t)
  {
    hide ModulesOk, SlotsOk, TablesOk, Progress, OnlyChecks, OnlyEnables;
    TakeModule(s, m, open, path, {});
    TakeSlots(s, m, open, path, {});
    TakeGlobal(s, open, path, {});
    assert ModuleOk(t, m, {});
    forall j: nat | j < t.mods[m].wired ensures SlotOk(t, m, j, open, path, {}) {
      assert SlotOk(s, m, j, open, path, {});
    }
    assert OnlyAbout(s, t, m) && Kept(s, t, m);
    assert GlobalOk(t);
    hide OnlyAbout, Kept, GlobalOk, ModuleOk, SlotOk;
    UpdateStep(s, t, m, open, open, path, {}, {});
  }

  // ----- the steps of enable -----

  lemma MoreDirty(s: State, m: Id, open: set<Slot>, path: set<Id>)
    requires Inv(s, open, path, {})
    ensures Inv(s, open, path, {m})
  {
    forall x | x in s.mods ensures ModuleOk(s, x, {m}) {
      assert ModuleOk(s, x, {});
    }
    forall x, j: nat | x in s.mods && j < s.mods[x].wired && Shape(s.mods[x])
      ensures SlotOk(s, x, j, open, path, {m})
    {
      assert SlotOk(s, x, j, open, path, {});
    }
  }

  ghost predicate CreateCase(s: State, t: State, d: Id) {
    && d !in s.mods
    && t == s.(mods := s.mods[d := NEW_MODULE], registry := s.registry + {d}, requireCounter := t.requireCounter)
    && s.requireCounter <= t.requireCounter && (d.Req? ==> d.serial <= t.requireCounter)
  }

  /** A fresh Module object enters the registry. */
  lemma CreateStep(s: State, t: State, d: Id)
    requires Inv(s, {}, {}, {}) && CreateCase(s, t, d)
    ensures Inv(t, {}, {}, {})
    ensures d.Named? && t.requireCounter == s.requireCounter ==> Progress(s, t) && OnlyEnables(s, t, d)
    ensures Grows(s, t)
  {
    hide OnCycle, TablesOk, Progress, Grows, OnlyEnables, ModulesOk, SlotsOk, SlotOk, ModuleOk;
    TakeGlobal(s, {}, {}, {});
    CreateModules(s, t, d);
    CreateSlots(s, t, d);
    CreateTables(s, t, d);
    Shapes(s, {});
    CreateGrows(s, t, d);
  }

  lemma CreateModules(s: State, t: State, d: Id)
    requires ModulesOk(s, {}) && GlobalOk(s) && CreateCase(s, t, d)
    ensures ModulesOk(t, {})
  {
    forall x | x in t.mods ensures ModuleOk(t, x, {}) {
      if x != d { assert ModuleOk(s, x, {}); }
    }
  }

  lemma CreateSlots(s: State, t: State, d: Id)
    requires SlotsOk(s, {}, {}, {}) && CreateCase(s, t, d)
    ensures SlotsOk(t, {}, {}, {})
  {
    forall x, j: nat | x in t.mods && j < t.mods[x].wired && Shape(t.mods[x]) ensures SlotOk(t, x, j, {}, {}, {}) {
      assert SlotOk(s, x, j, {}, {}, {});
    }
  }

  lemma CreateGrows(s: State, t: State, d: Id)
    requires CreateCase(s, t, d)
    requires forall x :: x in s.mods ==> |s.mods[x].depMatched| == |s.mods[x].deps| == |s.mods[x].depExports|
    ensures d.Named? && t.requireCounter == s.requireCounter ==> Progress(s, t) && OnlyEnables(s, t, d)
    ensures Grows(s, t)
  {
    forall x | x in s.mods ensures Kept(s, t, x) { }
  }

  lemma CreateTables(s: State, t: State, d: Id)
    requires TablesOk(s) && CreateCase(s, t, d)
    ensures TablesOk(t)
  {
    forall e, l | e in t.mods && l in t.mods[e].listeners ensures ListenerOk(t, e, l) {
      assert ListenerOk(s, e, l);
    }
    forall k: nat | k < |t.calls| ensures CallOk(t, k) {
      assert CallOk(s, k);
    }
    forall f | f in t.forced ensures ForcedOk(t, f) {
      assert ForcedOk(s, f);
      CycleInLargerGraph(GraphOf(s.mods), GraphOf(t.mods), f.id, Named(s.mods[f.id].deps[f.i].name));
    }
  }

  /** `enable` marks the module before it looks at its dependencies. */
  lemma BeginEnableStep(s: State, t: State, m: Id)
    requires Inv(s, {}, {}, {m}) && m in s.mods && s.mods[m].wired == 0 && !s.mods[m].defined
    requires t == s.(mods := s.mods[m := s.mods[m].(enabled := true, enabling := true)],
                     enabledRegistry := s.enabledRegistry + {m})
    ensures Inv(t, {}, {}, {})
    ensures Progress(s, t) && OnlyEnables(s, t, m)
  {
    hide ModulesOk, SlotsOk, TablesOk, Progress, OnlyEnables, OnlyChecks;
    TakeModule(s, m, {}, {}, {m});
    TakeGlobal(s, {}, {}, {m});
    assert OnlyAbout(s, t, m) && Kept(s, t, m) && GlobalOk(t);
    assert ModuleOk(t, m, {});
    hide OnlyAbout, Kept, GlobalOk, ModuleOk, SlotOk;
    UpdateStep(s, t, m, {}, {}, {}, {m}, {});
  }

  /** `enable` has dealt with every dependency. */
  lemma EndEnableStep(s: State, t: State, m: Id)
    requires Inv(s, {}, {}, {}) && m in s.mods && s.mods[m].enabled && s.mods[m].wired == |s.mods[m].deps|
    requires t == s.(mods := s.mods[m := s.mods[m].(enabling := false)])
    ensures Inv(t, {}, {}, {m})
    ensures Progress(s, t) && OnlyEnables(s, t, m)
  {
    hide Inv, Progress, OnlyEnables, OnlyChecks, OnlyAbout, Kept, GlobalOk, ModuleOk, SlotOk;
    EndEnableFrame(s, t, m);
    EndEnableOwn(s, t, m);
    UpdateStep(s, t, m, {}, {}, {}, {}, {m});
  }

  lemma EndEnableFrame(s: State, t: State, m: Id)
    requires Inv(s, {}, {}, {}) && m in s.mods
    requires t == s.(mods := s.mods[m := s.mods[m].(enabling := false)])
    ensures OnlyAbout(s, t, m) && Kept(s, t, m) && GlobalOk(t)
  {
    hide ModulesOk, SlotsOk, TablesOk;
    TakeModule(s, m, {}, {}, {});
    TakeGlobal(s, {}, {}, {});
  }

  lemma EndEnableOwn(s: State, t: State, m: Id)
    requires Inv(s, {}, {}, {}) && m in s.mods && s.mods[m].enabled && s.mods[m].wired == |s.mods[m].deps|
    requires t == s.(mods := s.mods[m := s.mods[m].(enabling := false)])
    ensures ModuleOk(t, m, {m})
    ensures forall j: nat :: j < t.mods[m].wired ==> SlotOk(t, m, j, {}, {}, {m})
  {
    hide ModulesOk, SlotsOk, TablesOk, GlobalOk;
    TakeModule(s, m, {}, {}, {});
    TakeSlots(s, m, {}, {}, {});
    forall j: nat | j < t.mods[m].wired ensures SlotOk(t, m, j, {}, {}, {m}) {
      assert SlotOk(s, m, j, {}, {}, {});
    }
  }

  ghost function ToWake(s: State, d: Id): set<Id> {
    if d in s.registry && d in s.mods && !s.mods[d].enabled then {d} else {}
  }

  /** A dependency on module d is counted; its delivery is owed from now on. */
  lemma WireStep(s: State, t: State, m: Id, d: Id)
    requires Inv(s, {}, {}, {}) && WireCase(s, t, m, d)
    ensures Inv(t, {Slot(m, s.mods[m].wired)}, {}, ToWake(t, d))
    ensures Progress(s, t) && OnlyEnables(s, t, m)
  {
    hide Inv, Progress, OnlyEnables, OnlyChecks, OnlyAbout, Kept, GlobalOk, ModuleOk, SlotOk;
    var wake := ToWake(s, d);
    if wake != {} { MoreDirty(s, d, {}, {}); }
    WireFrame(s, t, m, d, wake);
    WireOwn(s, t, m, d, wake);
    UpdateStep(s, t, m, {}, {Slot(m, s.mods[m].wired)}, {}, wake, wake);
  }

  ghost predicate WireCase(s: State, t: State, m: Id, d: Id) {
    && m in s.mods && d in s.mods && Shape(s.mods[m])
    && var M := s.mods[m];
    && M.enabling && M.wired < |M.deps| && d.Named? && M.deps[M.wired] == On(d.name)
    && t == s.(mods := s.mods[m := M.(wired := M.wired + 1, depCount := M.depCount + 1)])
  }

  lemma WireFrame(s: State, t: State, m: Id, d: Id, wake: set<Id>)
    requires Inv(s, {}, {}, wake) && WireCase(s, t, m, d)
    ensures ToWake(t, d) == ToWake(s, d)
    ensures OnlyAbout(s, t, m) && Kept(s, t, m) && GlobalOk(t)
  {
    hide ModulesOk, SlotsOk, TablesOk, Unmatched, HandlersOk;
    TakeModule(s, m, {}, {}, wake);
    assert Kept(s, t, m);
    hide Kept;
    TakeGlobal(s, {}, {}, wake);
    assert ToWake(t, d) == ToWake(s, d);
  }

  lemma WireOwn(s: State, t: State, m: Id, d: Id, wake: set<Id>)
    requires Inv(s, {}, {}, wake) && WireCase(s, t, m, d) && wake == ToWake(s, d)
    ensures ModuleOk(t, m, wake)
    ensures forall j: nat :: j < t.mods[m].wired ==> SlotOk(t, m, j, {Slot(m, s.mods[m].wired)}, {}, wake)
  {
    hide ModulesOk, SlotsOk, TablesOk;
    var M := s.mods[m];
    TakeModule(s, m, {}, {}, wake);
    TakeModule(s, d, {}, {}, wake);
    assert ModuleOk(t, m, wake);
    TakeSlots(s, m, {}, {}, wake);
    var owed := {Slot(m, M.wired)};
    NotForced(s, m, M.wired, {}, {}, wake);
    forall j: nat | j < t.mods[m].wired ensures SlotOk(t, m, j, owed, {}, wake) {
      if j < M.wired { assert SlotOk(s, m, j, {}, {}, wake); }
    }
  }

  lemma NotForced(s: State, m: Id, i: nat, open: set<Slot>, path: set<Id>, dirty: set<Id>)
    requires Inv(s, open, path, dirty) && m in s.mods && i >= s.mods[m].wired
    ensures Slot(m, i) !in s.forced
  {
  }

  /** The owed delivery becomes a listener on a module that is not defined yet. */
  lemma ListenStep(s: State, t: State, l: Slot, d: Id, dirty: set<Id>)
    requires Inv(s, {l}, {}, dirty) && ListenCase(s, t, l, d)
    ensures Inv(t, {}, {}, dirty)
    ensures Progress(s, t) && OnlyEnables(s, t, l.id)
  {
    hide ModulesOk, SlotsOk, TablesOk, Progress, OnlyAbout, GlobalOk, Kept, ModuleOk, SlotOk, ListenerOk, KeptRecord;
    ListenFrame(s, t, l, d, dirty);
    ListenOwn(s, t, l, d, dirty);
    UpdateStep(s, t, d, {l}, {}, {}, dirty, dirty);
  }

  ghost predicate ListenCase(s: State, t: State, l: Slot, d: Id) {
    && d in s.mods && !s.mods[d].defined && ListenerOk(s, d, l)
    && t == s.(mods := s.mods[d := s.mods[d].(listeners := s.mods[d].listeners + [l])])
  }

  lemma ListenFrame(s: State, t: State, l: Slot, d: Id, dirty: set<Id>)
    requires Inv(s, {l}, {}, dirty) && ListenCase(s, t, l, d)
    ensures OnlyAbout(s, t, d) && Kept(s, t, d) && GlobalOk(t) && ListenerOk(t, d, l)
    ensures l in t.mods[d].listeners
  {
    hide ModulesOk, SlotsOk, TablesOk, Unmatched, HandlersOk;
    TakeModule(s, d, {l}, {}, dirty);
    TakeGlobal(s, {l}, {}, dirty);
    assert t.mods[d].listeners[|s.mods[d].listeners|] == l;
  }

  lemma ListenOwn(s: State, t: State, l: Slot, d: Id, dirty: set<Id>)
    requires Inv(s, {l}, {}, dirty) && ListenCase(s, t, l, d)
    ensures ModuleOk(t, d, dirty)
    ensures forall j: nat :: j < t.mods[d].wired ==> SlotOk(t, d, j, {}, {}, dirty)
  {
    hide ModulesOk, SlotsOk, TablesOk;
    TakeModule(s, d, {l}, {}, dirty);
    assert ModuleOk(t, d, dirty);
    TakeSlots(s, d, {l}, {}, dirty);
    assert t.mods[d].listeners[|s.mods[d].listeners|] == l;
    forall j: nat | j < t.mods[d].wired ensures SlotOk(t, d, j, {}, {}, dirty) {
      assert SlotOk(s, d, j, {l}, {}, dirty);
    }
  }

  /** The record of module m after its special dependency number `wired` was answered. */
  function Answered(M: Module, m: Id, known: Option<Value>): Module
    requires M.wired < |M.deps| == |M.depExports| && !M.deps[M.wired].On?
  {
    var dep := M.deps[M.wired];
    M.(wired := M.wired + 1,
       depExports := M.depExports[M.wired := HandlerValue(m, dep)],
       usingExports := M.usingExports || dep.ExportsDep?,
       exports := if dep.ExportsDep? && m.Named? then ExportsOf(m) else M.exports,
       moduleExports := if dep.ModuleDep? && M.moduleExports.None?
                        then Some(if known.Some? then known.value else Undefined) else M.moduleExports)
  }

  ghost predicate AnswerCase(s: State, t: State, m: Id) {
    && m in s.mods && Shape(s.mods[m])
    && var M := s.mods[m];
    && M.enabling && M.wired < |M.deps| && !M.deps[M.wired].On?
    && t == s.(mods := s.mods[m := Answered(M, m, if m in s.defined then Some(s.defined[m]) else None)],
               defined := if M.deps[M.wired].ExportsDep? && m.Named? then s.defined[m := ExportsOf(m)] else s.defined)
  }

  lemma AnswerFrame(s: State, t: State, m: Id)
    requires Inv(s, {}, {}, {}) && AnswerCase(s, t, m)
    ensures OnlyAbout(s, t, m) && Kept(s, t, m) && GlobalOk(t) && t.forced == s.forced && t.calls == s.calls
    ensures t.mods[m].deps == s.mods[m].deps && t.mods[m].listeners == s.mods[m].listeners
    ensures t.mods[m].defined == s.mods[m].defined
  {
    hide ModulesOk, SlotsOk, TablesOk, Unmatched;
    TakeModule(s, m, {}, {}, {});
    assert Kept(s, t, m);
    hide Kept;
    TakeGlobal(s, {}, {}, {});
  }

  lemma AnswerOwn(s: State, t: State, m: Id)
    requires Inv(s, {}, {}, {}) && AnswerCase(s, t, m)
    ensures ModuleOk(t, m, {})
    ensures forall j: nat :: j < t.mods[m].wired ==> SlotOk(t, m, j, {}, {}, {})
  {
    hide ModulesOk, SlotsOk, TablesOk;
    TakeModule(s, m, {}, {}, {});
    assert ModuleOk(t, m, {});
    TakeSlots(s, m, {}, {}, {});
    forall j: nat | j < t.mods[m].wired ensures SlotOk(t, m, j, {}, {}, {}) {
      if j < s.mods[m].wired { assert SlotOk(s, m, j, {}, {}, {}); }
    }
  }

  lemma AnswerStep(s: State, t: State, m: Id)
    requires Inv(s, {}, {}, {}) && AnswerCase(s, t, m)
    ensures Inv(t, {}, {}, {})
    ensures Progress(s, t) && OnlyEnables(s, t, m)
  {
    AnswerFrame(s, t, m);
    AnswerOwn(s, t, m);
    hide *;
    hide Answered;
    UpdateStep(s, t, m, {}, {}, {}, {}, {});
  }

  lemma OneRecordGrows(s: State, t: State, m: Id)
    requires OnlyAbout(s, t, m) && !s.mods[m].inited
    ensures Grows(s, t)
  {
  }

  /** A module receives its dependency list and factory. */
  lemma InitStep(s: State, t: State, m: Id, deps: seq<Dep>, factory: Factory)
    requires Inv(s, {}, {}, {}) && m in s.mods && !s.mods[m].inited && !s.mods[m].enabling
    requires t == s.(mods := s.mods[m := s.mods[m].(
                       deps := deps, factory := factory, inited := true,
                       depExports := seq(|deps|, k => Undefined), depMatched := seq(|deps|, k => false))])
    ensures Inv(t, {}, {}, if s.mods[m].enabled then {m} else {})
    ensures Grows(s, t)
  {
    hide ModulesOk, SlotsOk, TablesOk, Grows;
    var dirty := if s.mods[m].enabled then {m} else {};
    TakeModule(s, m, {}, {}, {});
    TakeGlobal(s, {}, {}, {});
    assert OnlyAbout(s, t, m) && GlobalOk(t);
    assert ModuleOk(t, m, dirty);
    assert Subgraph(GraphOf(s.mods), GraphOf(t.mods));
    OneRecordGrows(s, t, m);
    hide OnlyAbout, GlobalOk, ModuleOk, SlotOk, Subgraph, GraphOf;
    UpdateModules(s, t, m, {}, dirty);
    UpdateSlots(s, t, m, {}, {}, {}, {}, dirty);
    UpdateTables(s, t, m);
  }

  lemma EnablesTransitive(s: State, t: State, u: State, id: Id)
    requires Progress(s, t) && Progress(t, u) && OnlyEnables(s, t, id) && OnlyEnables(t, u, id)
    ensures Progress(s, u) && OnlyEnables(s, u, id)
  {
    ProgressTransitive(s, t, u);
  }

  /** Enabling a dependency d of id while id itself is still enabling. */
  lemma NestedEnable(s: State, t: State, u: State, id: Id, d: Id)
    requires Progress(s, t) && Progress(t, u) && OnlyEnables(s, t, id) && OnlyEnables(t, u, d)
    requires d in t.mods && !t.mods[d].enabling && d != id && d in u.mods && !u.mods[d].enabling && id in t.mods
    ensures Progress(s, u) && OnlyEnables(s, u, id)
    ensures u.mods[id].enabling == t.mods[id].enabling
    ensures t.mods[id].enabling ==> u.mods[id].wired == t.mods[id].wired
  {
    ProgressTransitive(s, t, u);
  }

  lemma ChecksEnable(s: State, t: State, id: Id)
    requires OnlyChecks(s, t)
    ensures OnlyEnables(s, t, id)
    ensures s.mods.Keys == t.mods.Keys
  {
    forall m | m in s.mods ensures SameRole(s.mods[m], t.mods[m]) { }
  }

  lemma SleepingShrinks(s: State, t: State)
    requires Progress(s, t)
    ensures Sleeping(t) <= Sleeping(s)
  {
    forall x | x in Sleeping(t) ensures x in Sleeping(s) {
      if x in s.mods { assert Kept(s, t, x); }
    }
  }

  /** Where the loader looks a module up: defined modules have left the registry. */
  lemma Lookup(s: State, d: Id)
    requires Inv(s, {}, {}, {}) && d.Named?
    ensures d !in s.mods ==> d !in s.registry && d !in s.defined
    ensures d in s.mods ==> (d in s.registry <==> !s.mods[d].defined)
    ensures d in s.mods && s.mods[d].defined ==> d in s.defined && s.defined[d] == s.mods[d].exports
    ensures d in s.mods && !s.mods[d].defined ==> !s.mods[d].defineEmitComplete
  {
    if d in s.mods { assert ModuleOk(s, d, {}); }
  }

  lemma CreatedThenEnables(s: State, r: State, t: State, d: Id, id: Id)
    requires Progress(s, r) && OnlyEnables(s, r, d) && Progress(r, t) && OnlyEnables(r, t, id)
    requires d in r.mods && !r.mods[d].enabling && d !in s.mods && id in s.mods
    ensures Progress(s, t) && OnlyEnables(s, t, id)
  {
    ProgressTransitive(s, r, t);
  }

  /** Wiring dependency i of module id to module d, which is not defined and may be new, and leaving a
      listener there. */
  ghost predicate RegisterCase(s: State, u: State, id: Id, i: nat, d: Id) {
    && id in s.mods && Shape(s.mods[id])
    && var M := s.mods[id];
    && M.enabling && M.wired == i < |M.deps| && d.Named? && M.deps[i] == On(d.name)
    && !(d in s.defined && d !in s.registry)
    && var r := if d in s.registry then s else s.(mods := s.mods[d := NEW_MODULE], registry := s.registry + {d});
    && d in r.mods
    && var t := r.(mods := r.mods[id := r.mods[id].(wired := i + 1, depCount := M.depCount + 1)]);
    u == t.(mods := t.mods[d := t.mods[d].(listeners := t.mods[d].listeners + [Slot(id, i)])])
  }

  lemma RegisterStep(s: State, u: State, id: Id, i: nat, d: Id)
    requires Inv(s, {}, {}, {}) && RegisterCase(s, u, id, i, d)
    ensures Inv(u, {}, {}, ToWake(u, d))
    ensures Progress(s, u) && OnlyEnables(s, u, id)
    ensures d in u.mods && id in u.mods && u.mods[id].enabling && u.mods[id].wired == i + 1
  {
    hide Inv, Progress, Shape, OnlyChecks, OnlyEnables;
    Lookup(s, d);
    Same(s, {}, {}, {});
    var r := if d in s.registry then s else s.(mods := s.mods[d := NEW_MODULE], registry := s.registry + {d});
    if r != s {
      CreateStep(s, r, d);
    }
    var t := r.(mods := r.mods[id := r.mods[id].(wired := i + 1, depCount := r.mods[id].depCount + 1)]);
    WireStep(r, t, id, d);
    TakeModule(t, id, {Slot(id, i)}, {}, ToWake(t, d));
    ListenStep(t, u, Slot(id, i), d, ToWake(t, d));
    EnablesTransitive(r, t, u, id);
    if r != s { CreatedThenEnables(s, r, u, d, id); }
  }

  lemma StillEnabling(s: State, t: State, id: Id)
    requires OnlyChecks(s, t) && id in s.mods
    ensures id in t.mods && SameRole(s.mods[id], t.mods[id])
  {
  }

  lemma StillDefined(s: State, t: State, d: Id)
    requires Inv(t, {}, {}, {}) && Progress(s, t) && d in s.mods && s.mods[d].defined
    ensures d in t.mods && t.mods[d].defined && d !in t.registry
  {
    assert Kept(s, t, d);
    assert ModuleOk(t, d, {});
  }

  lemma StillHere(s: State, t: State, id: Id)
    requires Progress(s, t) && id in s.mods
    ensures id in t.mods && t.mods[id].deps == s.mods[id].deps
    ensures s.mods[id].enabled ==> t.mods[id].enabled
    ensures s.mods[id].inited ==> t.mods[id].inited && t.mods[id].factory == s.mods[id].factory
  {
    assert Kept(s, t, id);
  }

  lemma Asleep(s: State, d: Id, dirty: set<Id>)
    requires Inv(s, {}, {}, dirty) && d in s.mods && d in s.registry && !s.mods[d].enabled
    ensures !s.mods[d].enabling && !s.mods[d].defined && s.mods[d].wired == 0
  {
    assert ModuleOk(s, d, dirty);
  }

  /** Enabling goes from a module to a dependency that was still asleep: it cannot go on forever. */
  lemma Deeper(s: State, t: State, id: Id, d: Id)
    requires Progress(s, t) && id in s.mods && d in t.mods && !t.mods[d].enabled && d != id
    requires id in t.mods && t.mods[id].enabled
    ensures Sleeping(t) - {d} <= Sleeping(s) - {id}
    ensures t.mods[d].inited ==> Sleeping(t) - {d} < Sleeping(s) - {id}
    ensures Sleeping(t) - {d} == Sleeping(s) - {id} || Sleeping(t) - {d} < Sleeping(s) - {id}
  {
    SleepingShrinks(s, t);
    if t.mods[d].inited { assert d in Sleeping(t); }
  }

  lemma ProgressGrows(s: State, t: State)
    requires Progress(s, t)
    ensures Grows(s, t)
  {
    forall m | m in s.mods ensures Kept(s, t, m) { }
  }

  lemma GrowsTransitive(s: State, t: State, u: State)
    requires Grows(s, t) && Grows(t, u)
    ensures Grows(s, u)
  {
  }

  // ----- what new modules are there for -----

  lemma StillWanted(s: State, t: State, m: Id)
    requires Grows(s, t) && Wanted(s, m)
    ensures Wanted(t, m)
  {
    var a :| Inited(s, a) && On(m.name) in s.mods[a].deps;
    assert Inited(t, a);
  }

  lemma NewWantedTransitive(s: State, t: State, u: State)
    requires NewWanted(s, t) && NewWanted(t, u) && Grows(t, u)
    ensures NewWanted(s, u)
  {
    forall m | m in u.mods && m !in s.mods && !u.mods[m].inited ensures Wanted(u, m) {
      if m in t.mods { StillWanted(t, u, m); }
    }
  }

  lemma NoneNew(s: State, t: State)
    requires t.mods.Keys <= s.mods.Keys
    ensures NewWanted(s, t)
  {
  }

  lemma NoneNewSince(s: State, t: State, u: State)
    requires NewWanted(s, t) && Progress(t, u) && u.mods.Keys == t.mods.Keys
    ensures NewWanted(s, u)
  {
    NoneNew(t, u);
    ProgressGrows(t, u);
    NewWantedTransitive(s, t, u);
  }

  /** A module that has been looked up is a dependency. */
  lemma LookedUp(s: State, t: State, u: State, id: Id, i: nat)
    requires NewWanted(s, t) && Progress(t, u) && id in t.mods && Shape(t.mods[id]) && i < |t.mods[id].deps|
    requires t.mods[id].deps[i].On? && u.mods.Keys == t.mods.Keys + {Named(t.mods[id].deps[i].name)}
    ensures NewWanted(s, u)
  {
    ProgressGrows(t, u);
    assert Inited(t, id);
    assert Inited(u, id) && On(t.mods[id].deps[i].name) in u.mods[id].deps;
    assert NewWanted(t, u);
    NewWantedTransitive(s, t, u);
  }

  lemma WantedSince(s: State, t: State)
    requires AllWanted(s) && NewWanted(s, t) && Grows(s, t)
    ensures AllWanted(t)
  {
    forall m | m in t.mods && !t.mods[m].inited ensures m.Req? || Wanted(t, m) {
      if m in s.mods && m.Named? { StillWanted(s, t, m); }
    }
  }

  // ----- the steps of the cycle breaker -----

  /** Every dependency of a module on the path that is still registered can be visited or forced. */
  lemma NextEdge(s: State, m: Id, i: nat, path: set<Id>)
    requires Inv(s, {}, path, {}) && m in s.mods && s.mods[m].enabled && !s.mods[m].enabling
    requires i < |s.mods[m].deps| && s.mods[m].deps[i].On?
    ensures var M := s.mods[m];
            var d := Named(M.deps[i].name);
            && Shape(M) && i < M.wired && M.wired == |M.deps|
            && d in s.mods
            && (d in s.registry <==> !s.mods[d].defined)
            && (!M.depMatched[i] ==> d in s.registry && Slot(m, i) !in s.forced)
            && (d in s.registry ==> s.mods[d].enabled)
            && Edge(GraphOf(s.mods), m, d)
  {
    var d := Named(s.mods[m].deps[i].name);
    assert ModuleOk(s, m, {});
    assert SlotOk(s, m, i, {}, path, {});
    assert ModuleOk(s, d, {});
  }

  /** A dependency on the path closes a cycle. */
  lemma BackEdge(g: Graph, p: seq<Id>, d: Id)
    requires Path(g, p) && d in p && Edge(g, p[|p| - 1], d)
    ensures OnCycle(g, p[|p| - 1], d)
  {
    var k :| 0 <= k < |p| && p[k] == d;
    assert Path(g, p[k..]) && p[k..][0] == d && p[k..][|p| - k - 1] == p[|p| - 1];
  }

  /** When all dependencies of a module have been delivered, it is defined, and edges that were
      forced towards it are justified: it can leave the path. */
  lemma LeavePath(s: State, m: Id, path: set<Id>)
    requires Inv(s, {}, path + {m}, {}) && m in s.mods && AllReady(s)
    requires s.mods[m].enabled && !s.mods[m].enabling
    requires forall i :: 0 <= i < |s.mods[m].deps| && s.mods[m].deps[i].On? && i < |s.mods[m].depMatched|
                         ==> s.mods[m].depMatched[i]
    ensures s.mods[m].defined
    ensures Inv(s, {}, path, {})
  {
    var M := s.mods[m];
    assert ModuleOk(s, m, {});
    UnmatchedZero(M.deps, M.depMatched, M.wired);
    assert M.defined;
    forall x, j: nat | x in s.mods && j < s.mods[x].wired && Shape(s.mods[x]) ensures SlotOk(s, x, j, {}, path, {}) {
      assert SlotOk(s, x, j, {}, path + {m}, {});
    }
  }

  lemma EnterPath(s: State, m: Id, path: set<Id>)
    requires Inv(s, {}, path, {})
    ensures Inv(s, {}, path + {m}, {})
  {
    forall x, j: nat | x in s.mods && j < s.mods[x].wired && Shape(s.mods[x])
      ensures SlotOk(s, x, j, {}, path + {m}, {})
    {
      assert SlotOk(s, x, j, {}, path, {});
    }
  }

  /** Delivering and checking neither enables, registers nor redirects anything. */
  lemma StillReady(s: State, t: State, path: set<Id>, dirty: set<Id>)
    requires AllReady(s) && NoneEnabling(s) && Progress(s, t) && OnlyChecks(s, t)
    requires Inv(s, {}, path, dirty) && Inv(t, {}, path, {})
    ensures AllReady(t) && NoneEnabling(t) && GraphOf(s.mods) == GraphOf(t.mods)
  {
    forall m | m in t.mods
      ensures (m in t.enabledRegistry ==> t.mods[m].inited) && !t.mods[m].enabling
      ensures t.mods[m].deps == s.mods[m].deps
    {
      assert Kept(s, t, m) && SameRole(s.mods[m], t.mods[m]);
      assert ModuleOk(s, m, dirty) && ModuleOk(t, m, {});
    }
  }

  lemma ForcedReady(s: State, t: State, m: Id, i: nat, path: set<Id>)
    requires ForceCase(s, t, m, i, path) && AllReady(s) && NoneEnabling(s)
    ensures AllReady(t) && NoneEnabling(t) && GraphOf(s.mods) == GraphOf(t.mods) && s.mods.Keys == t.mods.Keys
    ensures t.mods[m].depMatched[i]
  {
  }

  lemma StillMatched(s: State, t: State, m: Id)
    requires Progress(s, t) && m in s.mods
    ensures m in t.mods && t.mods[m].deps == s.mods[m].deps && (s.mods[m].enabled ==> t.mods[m].enabled)
    ensures |t.mods[m].depMatched| == |s.mods[m].depMatched| == |s.mods[m].deps|
    ensures forall j :: 0 <= j < |s.mods[m].deps| && s.mods[m].depMatched[j] ==> t.mods[m].depMatched[j]
    ensures s.forced <= t.forced
  {
    assert Kept(s, t, m);
  }

  lemma StillAllDefined(s: State, t: State, xs: set<Id>)
    requires Progress(s, t) && forall x :: x in xs ==> x in s.mods && s.mods[x].defined
    ensures forall x :: x in xs ==> x in t.mods && t.mods[x].defined
  {
    forall x | x in xs ensures Kept(s, t, x) { }
  }

  lemma StillAllEnabled(s: State, t: State, p: seq<Id>)
    requires Progress(s, t) && forall x :: x in p ==> x in s.mods && s.mods[x].enabled
    ensures forall x :: x in p ==> x in t.mods && t.mods[x].enabled
  {
    forall x | x in p ensures Kept(s, t, x) { }
  }

  lemma MatchedWhenDefined(s: State, m: Id, i: nat, path: set<Id>)
    requires Inv(s, {}, path, {}) && m in s.mods && s.mods[m].enabled && !s.mods[m].enabling
    requires i < |s.mods[m].deps| && s.mods[m].deps[i].On?
    requires var d := Named(s.mods[m].deps[i].name); d in s.mods && s.mods[d].defined
    ensures i < |s.mods[m].depMatched| && s.mods[m].depMatched[i]
  {
    NextEdge(s, m, i, path);
  }

  lemma ExtendPath(g: Graph, p: seq<Id>, d: Id)
    requires Path(g, p) && Edge(g, p[|p| - 1], d)
    ensures Path(g, p + [d])
  {
  }

  lemma OnlyChecksSame(s: State, t: State)
    requires OnlyChecks(s, t)
    ensures s.mods.Keys == t.mods.Keys && s.forced == t.forced && s.requireCounter == t.requireCounter
  {
  }

  lemma StillForced(s: State, t: State, u: State)
    requires Progress(s, t) && Progress(t, u)
    ensures s.forced <= t.forced <= u.forced
  {
  }

  lemma NotEnabling(s: State, m: Id)
    requires NoneEnabling(s) && m in s.mods
    ensures !s.mods[m].enabling
  {
  }

  lemma InitReady(s: State, t: State, m: Id)
    requires Inv(s, {}, {}, {}) && m in s.mods && !s.mods[m].inited && NoneEnabling(s)
    requires t.mods.Keys == s.mods.Keys
    requires forall x :: x in s.mods ==>
               t.mods[x].enabling == s.mods[x].enabling && t.mods[x].enabled == s.mods[x].enabled
    requires t.mods[m].wired == s.mods[m].wired && t.mods[m].defined == s.mods[m].defined
    ensures NoneEnabling(t) && t.mods[m].wired == 0 && !t.mods[m].defined
  {
    assert ModuleOk(s, m, {});
  }

  lemma EnabledAll(s: State, t: State, id: Id)
    requires Progress(s, t) && OnlyEnables(s, t, id) && NoneEnabling(s) && id in t.mods && !t.mods[id].enabling
    ensures NoneEnabling(t)
    ensures forall m :: m in s.mods && s.mods[m].enabled ==> t.mods[m].enabled
    ensures forall m :: m in t.mods && m !in s.mods ==> m.Named?
    ensures s.requireCounter == t.requireCounter && s.forced == t.forced
  {
    forall m | m in s.mods ensures Kept(s, t, m) { }
  }

  // ----- composing the steps of the cycle breaker -----

  /** The module on top of the current path has its dependencies traced, one by one. */
  ghost predicate Tracing(s: State, path: seq<Id>, traced: set<Id>, processed: set<Id>) {
    && Inv(s, {}, PathSet(path), {}) && NoneEnabling(s) && AllReady(s)
    && traced == processed + PathSet(path)
    && (forall x :: x in processed ==> x in s.mods && s.mods[x].defined)
    && (forall x :: x in path ==> x in s.mods && s.mods[x].enabled)
    && (path != [] ==> Path(GraphOf(s.mods), path))
  }

  /** Cycle breaking only delivers; unless it forces an edge it changes nothing at all. */
  ghost predicate OnlyForces(s: State, t: State, processed: set<Id>, processed': set<Id>) {
    && Progress(s, t) && GraphOf(t.mods) == GraphOf(s.mods) && t.mods.Keys == s.mods.Keys
    && t.requireCounter == s.requireCounter
    && processed <= processed'
    && (t.forced == s.forced ==> t == s)
  }

  lemma BeginTracing(s: State, path: seq<Id>, id: Id, traced: set<Id>, processed: set<Id>)
    requires Tracing(s, path, traced, processed)
    requires id in s.mods && s.mods[id].enabled && Path(GraphOf(s.mods), path + [id])
    ensures Tracing(s, path + [id], traced + {id}, processed) && OnlyForces(s, s, processed, processed)
    ensures |s.mods[id].depMatched| == |s.mods[id].deps|
  {
    hide Inv, AllReady, NoneEnabling, Path, GraphOf, Progress;
    assert PathSet(path + [id]) == PathSet(path) + {id};
    EnterPath(s, id, PathSet(path));
    Same(s, {}, PathSet(path), {});
    StillMatched(s, s, id);
  }

  lemma ForcesTransitive(s: State, t: State, u: State, p0: set<Id>, p1: set<Id>, p2: set<Id>, id: Id)
    requires OnlyForces(s, t, p0, p1) && OnlyForces(t, u, p1, p2) && id in t.mods
    ensures OnlyForces(s, u, p0, p2) && u.mods.Keys == s.mods.Keys
    ensures id in u.mods && u.mods[id].deps == t.mods[id].deps
    ensures |u.mods[id].depMatched| == |t.mods[id].depMatched| == |t.mods[id].deps|
    ensures forall j :: 0 <= j < |t.mods[id].deps| && t.mods[id].depMatched[j] ==> u.mods[id].depMatched[j]
  {
    hide Progress, GraphOf;
    ProgressTransitive(s, t, u);
    StillForced(s, t, u);
    StillMatched(t, u, id);
  }

  lemma EndTracing(s: State, t: State, path: seq<Id>, id: Id, traced: set<Id>, processed: set<Id>,
                   traced': set<Id>, processed': set<Id>)
    requires Tracing(s, path, traced, processed) && OnlyForces(s, t, processed, processed')
    requires Tracing(t, path + [id], traced', processed')
    requires forall j :: 0 <= j < |t.mods[id].deps| && t.mods[id].deps[j].On? && j < |t.mods[id].depMatched|
                         ==> t.mods[id].depMatched[j]
    ensures Tracing(t, path, traced', processed' + {id}) && OnlyForces(s, t, processed, processed' + {id})
  {
    hide Inv, AllReady, NoneEnabling, GraphOf, Progress;
    assert id in path + [id];
    assert PathSet(path + [id]) == PathSet(path) + {id};
    NotEnabling(t, id);
    LeavePath(t, id, PathSet(path));
    forall x | x in path ensures x in t.mods && t.mods[x].enabled { assert x in path + [id]; }
    if path != [] {
      assert forall k :: 0 <= k < |path| ==> (path + [id])[k] == path[k];
    }
  }

  /** Dependency i of a module is an ancestor of the module on the current path. */
  ghost predicate Ancestral(s: State, p: seq<Id>, traced: set<Id>, processed: set<Id>, id: Id, i: nat) {
    && Tracing(s, p, traced, processed) && p != [] && p[|p| - 1] == id && id in s.mods
    && i < |s.mods[id].deps| && s.mods[id].deps[i].On?
    && i < |s.mods[id].depMatched| == |s.mods[id].depExports| && !s.mods[id].depMatched[i]
    && var d := Named(s.mods[id].deps[i].name);
    d in s.registry && d !in processed && d in traced
  }

  ghost function Forced(s: State, p: seq<Id>, traced: set<Id>, processed: set<Id>, id: Id, i: nat): State
    requires Ancestral(s, p, traced, processed, id, i)
  {
    var d := Named(s.mods[id].deps[i].name);
    s.(mods := s.mods[id := Delivered(s.mods[id], i, if d in s.defined then s.defined[d] else Undefined)],
       forced := s.forced + {Slot(id, i)})
  }

  lemma BeginForce(s: State, p: seq<Id>, traced: set<Id>, processed: set<Id>, id: Id, i: nat)
    requires Ancestral(s, p, traced, processed, id, i)
    ensures var t := Forced(s, p, traced, processed, id, i);
            && ForceCase(s, t, id, i, PathSet(p))
            && Inv(t, {}, PathSet(p), {id}) && Progress(s, t)
            && t.mods[id].enabled && t.mods[id].wired == |t.mods[id].deps| && Slot(id, i) !in s.forced
  {
    hide Inv, Progress, AllReady, NoneEnabling, Shape, Path, OnCycle, Edge, GraphOf;
    var t := Forced(s, p, traced, processed, id, i);
    NotEnabling(s, id);
    NextEdge(s, id, i, PathSet(p));
    BackEdge(GraphOf(s.mods), p, Named(s.mods[id].deps[i].name));
    ForceStep(s, t, id, i, PathSet(p));
  }

  lemma EndForce(s: State, t: State, u: State, p: seq<Id>, traced: set<Id>, processed: set<Id>, id: Id, i: nat)
    requires Ancestral(s, p, traced, processed, id, i) && t == Forced(s, p, traced, processed, id, i)
    requires Inv(u, {}, PathSet(p), {}) && Progress(t, u) && OnlyChecks(t, u)
    ensures Tracing(u, p, traced, processed) && OnlyForces(s, u, processed, processed)
    ensures id in u.mods && u.mods[id].deps == s.mods[id].deps
    ensures i < |u.mods[id].depMatched| && u.mods[id].depMatched[i]
  {
    hide Inv, Progress, OnlyChecks, AllReady, NoneEnabling, Shape, Path, GraphOf, ForceCase;
    BeginForce(s, p, traced, processed, id, i);
    ForcedReady(s, t, id, i, PathSet(p));
    StillReady(t, u, PathSet(p), {id});
    OnlyChecksSame(t, u);
    ProgressTransitive(s, t, u);
    StillMatched(t, u, id);
    StillAllDefined(s, u, processed);
    StillAllEnabled(s, u, p);
  }
}
