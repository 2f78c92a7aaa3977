/** What the loader's invariant means for its users. */
module LoaderTheorems {
  import opened LoaderState
  import opened LoaderSteps

  lemma QuietAfterChecks(s: State, t: State)
    requires Quiet(s) && Progress(s, t) && s.mods.Keys == t.mods.Keys
    requires Inv(t, {}, {}, {}) && NoneEnabling(t)
    ensures Quiet(t)
  {
    forall m | m in t.mods && m.Req? ensures t.mods[m].inited && t.mods[m].enabled {
      assert Kept(s, t, m);
    }
  }

  lemma EnabledRequest(s: State, m: Id)
    requires Quiet(s) && m in s.enabledRegistry
    ensures m in s.mods && s.mods[m].enabled && !s.mods[m].defined
    ensures !s.mods[m].inited ==> s.mods[m].fetched && m.Named?
  {
    assert ModuleOk(s, m, {});
  }

  lemma RequestsAnswered(s: State, t: State, reqCalls: seq<Id>)
    requires Quiet(s) && OnlyForces(s, t, {}, {})
    requires forall m :: m in s.enabledRegistry && m.Req? ==> m in reqCalls
    requires forall m :: m in reqCalls ==> m in t.mods && t.mods[m].defined
    ensures AllAnswered(t)
  {
    forall m | m in t.mods && m.Req? ensures t.mods[m].defined {
      assert ModuleOk(s, m, {});
      assert Kept(s, t, m);
    }
  }

  lemma Unforced(s: State, t: State)
    requires Quiet(s) && Quiet(t) && (s == t || OnlyForces(s, t, {}, {}))
    ensures Progress(s, t) && t.mods.Keys == s.mods.Keys && t.requireCounter == s.requireCounter
    ensures GraphOf(t.mods) == GraphOf(s.mods)
    ensures Acyclic(GraphOf(s.mods)) ==> s == t
  {
    hide Inv, Acyclic, GraphOf;
    Same(s, {}, {}, {});
    if Acyclic(GraphOf(s.mods)) {
      AcyclicUnforced(s);
      AcyclicUnforced(t);
    }
  }

  /** When nothing is in progress, whatever a defined module depends on is defined too, however
      indirectly, and even through edges that were forced. */
  lemma {:induction false} DefinedClosed(s: State, p: seq<Id>)
    requires Quiet(s) && Path(GraphOf(s.mods), p) && p[0] in s.mods && s.mods[p[0]].defined
    ensures p[|p| - 1] in s.mods && s.mods[p[|p| - 1]].defined
    decreases |p|
  {
    if |p| > 1 {
      var m, d := p[0], p[1];
      var M := s.mods[m];
      assert Edge(GraphOf(s.mods), p[0], p[0 + 1]);
      var i :| 0 <= i < |M.deps| && M.deps[i] == On(d.name);
      assert ModuleOk(s, m, {});
      UnmatchedZero(M.deps, M.depMatched, M.wired);
      assert SlotOk(s, m, i, {}, {}, {});
      var q := p[1..];
      assert Path(GraphOf(s.mods), q) by {
        forall k | 0 <= k < |q| - 1 ensures Edge(GraphOf(s.mods), q[k], q[k + 1]) {
          assert Edge(GraphOf(s.mods), p[k + 1], p[k + 1 + 1]);
        }
      }
      DefinedClosed(s, q);
    }
  }

  /** Everything that a module depends on, however indirectly, is defined. */
  ghost predicate DefinedFrom(s: State, id: Id) {
    forall d :: Reaches(GraphOf(s.mods), id, d) ==> d in s.mods && s.mods[d].defined
  }

  /** A forced dependency closes a cycle. */
  lemma ForcedEdgeOnCycle(s: State, f: Slot)
    requires Quiet(s) && f in s.forced
    ensures f.id in s.mods && f.i < |s.mods[f.id].deps| && s.mods[f.id].deps[f.i].On?
    ensures OnCycle(GraphOf(s.mods), f.id, Named(s.mods[f.id].deps[f.i].name))
  {
    assert ForcedOk(s, f);
  }

  /** An acyclic dependency graph is never forced. */
  lemma AcyclicUnforced(s: State)
    requires Quiet(s) && Acyclic(GraphOf(s.mods))
    ensures s.forced == {}
  {
    hide Quiet;
    if s.forced != {} {
      var f :| f in s.forced;
      ForcedEdgeOnCycle(s, f);
    }
  }

  /** How often the factory of m was called. */
  function CallsOf(calls: seq<Call>, m: Id): nat {
    if calls == [] then 0 else (if calls[0].id == m then 1 else 0) + CallsOf(calls[1..], m)
  }

  lemma {:induction false} CallsOfDistinct(calls: seq<Call>, m: Id)
    requires forall j, k :: 0 <= j < k < |calls| ==> calls[j].id != calls[k].id
    ensures CallsOf(calls, m) == if Ran(calls, m) then 1 else 0
  {
    if calls != [] {
      CallsOfDistinct(calls[1..], m);
      if Ran(calls[1..], m) {
        var k :| 0 <= k < |calls[1..]| && calls[1..][k].id == m;
        assert calls[k + 1].id == m;
      }
      if Ran(calls, m) && calls[0].id != m {
        var k :| 0 <= k < |calls| && calls[k].id == m;
        assert calls[1..][k - 1].id == m;
      }
    }
  }

  /** Every factory runs at most once, exactly once by the time its module is defined, and only
      when all dependencies of the module have been delivered. */
  lemma FactoryRunsOnce(s: State, m: Id)
    requires Quiet(s)
    ensures CallsOf(s.calls, m) <= 1
    ensures m in s.mods && s.mods[m].factory.Function? ==>
              (CallsOf(s.calls, m) == 1 <==> s.mods[m].defined)
  {
    CallsOfDistinct(s.calls, m);
    if m in s.mods {
      assert ModuleOk(s, m, {});
      if Ran(s.calls, m) {
        var k :| 0 <= k < |s.calls| && s.calls[k].id == m;
        assert CallOk(s, k);
      }
    }
  }

  /** What a module exports is what its factory made of the arguments it was given, the only time it
      was called: its own `module.exports`, or what it returned, or its `exports` object. */
  lemma ExportsAreRight(s: State, m: Id, k: nat)
    requires Quiet(s) && k < |s.calls| && s.calls[k].id == m
    ensures m in s.mods && s.mods[m].defined && s.mods[m].depExports == s.calls[k].args
    ensures s.mods[m].exports == Exported(m, s.mods[m])
    ensures m.Named? ==> m in s.defined && s.defined[m] == s.mods[m].exports
    ensures s.mods[m].factory.Function? ==>
              var outcome, deps := s.mods[m].factory.run(s.calls[k].args), s.mods[m].deps;
              var own := if ExportsDep in deps then ExportsOf(m) else Undefined;
              var stored := ModuleDep in deps && outcome.stored.Some? && outcome.stored.value !in {Undefined, own};
              s.mods[m].exports == if m.Req? then outcome.returned
                                   else if stored then outcome.stored.value
                                   else if outcome.returned == Undefined then own
                                   else outcome.returned
  {
    assert CallOk(s, k);
    assert ModuleOk(s, m, {});
  }

  /** What a factory was given for each dependency: a special value, the export of the dependency,
      or, on a cycle that had to be broken, whatever the dependency had put into `exports` by then. */
  lemma ArgumentsAreRight(s: State, k: nat, i: nat)
    requires Quiet(s) && k < |s.calls|
    requires s.calls[k].id in s.mods && i < |s.mods[s.calls[k].id].deps|
    ensures var c := s.calls[k];
            var dep := s.mods[c.id].deps[i];
            && |c.args| == |s.mods[c.id].deps|
            && (dep.RequireDep? ==> c.args[i] == RequireOf(c.id))
            && (dep.ModuleDep? ==> c.args[i] == ModuleOf(c.id))
            && (dep.ExportsDep? ==> c.args[i] == if c.id.Named? then ExportsOf(c.id) else Undefined)
            && (dep.On? ==>
                 var d := Named(dep.name);
                 && d in s.mods && s.mods[d].defined && d in s.defined
                 && (c.args[i] == s.defined[d]
                     || (c.args[i] in {Undefined, ExportsOf(d)} && OnCycle(GraphOf(s.mods), c.id, d))))
  {
    var c := s.calls[k];
    var M := s.mods[c.id];
    assert CallOk(s, k);
    assert ModuleOk(s, c.id, {});
    UnmatchedZero(M.deps, M.depMatched, M.wired);
    assert SlotOk(s, c.id, i, {}, {}, {});
    if M.deps[i].On? {
      assert ModuleOk(s, Named(M.deps[i].name), {});
      if Slot(c.id, i) in s.forced { assert ForcedOk(s, Slot(c.id, i)); }
    }
  }

  // ----- the public operations keep the loader quiet -----

  lemma GrowsRefl(s: State)
    ensures Grows(s, s)
  {
  }

  lemma FreshRequest(s: State, id: Id)
    requires Quiet(s) && id == Req(s.requireCounter + 1)
    ensures id !in s.mods
  {
  }

  lemma QuietAfterInit(s: State, t: State, u: State)
    requires Quiet(s) && Inv(u, {}, {}, {}) && NoneEnabling(u) && Grows(s, t) && Grows(t, u)
    requires forall m :: m in t.mods && m.Req? ==> m in s.mods && s.mods[m] == t.mods[m]
    requires forall m :: m in u.mods && m !in t.mods ==> m.Named?
    requires forall m :: m in t.mods && t.mods[m].enabled ==> m in u.mods && u.mods[m].enabled
    ensures Quiet(u)
  {
  }

  lemma QuietAfterRequire(s: State, t: State, u: State, id: Id)
    requires Quiet(s) && Inv(u, {}, {}, {}) && NoneEnabling(u) && Grows(s, t) && Grows(t, u)
    requires t.mods == s.mods[id := NEW_MODULE] && id in u.mods && u.mods[id].inited && u.mods[id].enabled
    requires forall m :: m in u.mods && m !in t.mods ==> m.Named?
    requires forall m :: m in t.mods && t.mods[m].enabled ==> m in u.mods && u.mods[m].enabled
    ensures Quiet(u)
  {
  }

  /** A check that ends with every module ready started with every module ready. */
  lemma StillReadyBefore(s: State, t: State)
    requires Quiet(s) && Quiet(t) && (!AllReady(s) ==> s == t) && (AllReady(s) ==> AllAnswered(t))
    ensures AllReady(t) ==> AllAnswered(t)
  {
  }

  /** Only a module whose dependencies are known can have put its `exports` object out early. */
  lemma EarlyExports(s: State, id: Id)
    requires Quiet(s) && id in s.defined
    ensures id in s.mods && s.mods[id].inited
  {
    assert ModuleOk(s, id, {});
  }

  lemma StillInited(s: State, t: State)
    requires Grows(s, t)
    ensures forall m :: Inited(s, m) ==> Inited(t, m)
    ensures forall m :: Inited(s, m) ==> DefinedAs(t, m, s.mods[m].deps, s.mods[m].factory)
  {
  }

  lemma InitsOne(s: State, t: State, u: State, id: Id)
    requires id in t.mods && t.mods == s.mods[id := t.mods[id]] && Progress(t, u)
    ensures OnlyInits(s, u, id)
  {
    forall m | m in t.mods ensures Kept(t, u, m) { }
  }

  lemma InitsSince(s: State, t: State, u: State, id: Id)
    requires (t.mods == s.mods || (id in t.mods && t.mods == s.mods[id := t.mods[id]])) && OnlyInits(t, u, id)
    ensures OnlyInits(s, u, id)
  {
  }

  lemma SameInited(s: State, t: State)
    requires Progress(s, t) && t.mods.Keys == s.mods.Keys
    ensures forall m :: Inited(s, m) <==> Inited(t, m)
  {
    forall m | m in s.mods ensures Kept(s, t, m) { }
  }

  lemma InitsThen(s: State, t: State, u: State, id: Id)
    requires OnlyInits(s, t, id) && Progress(t, u) && u.mods.Keys == t.mods.Keys
    ensures OnlyInits(s, u, id)
  {
    forall m | m in t.mods ensures Kept(t, u, m) { }
  }

  lemma NoneInited(s: State, t: State, id: Id)
    requires s == t
    ensures OnlyInits(s, t, id)
  {
  }

  lemma NewAfterInit(s: State, t: State, u: State)
    requires t.mods.Keys == s.mods.Keys && NewWanted(t, u)
    ensures NewWanted(s, u)
  {
  }

  lemma NewBut(s: State, t: State, u: State, id: Id)
    requires t.mods.Keys == s.mods.Keys + {id} && NewWanted(t, u) && Inited(u, id)
    ensures NewWanted(s, u)
  {
  }

  lemma RegisteredUnlessDefined(s: State, id: Id)
    requires Quiet(s)
    ensures id in s.registry ==> id in s.mods
    ensures id in s.mods && (id in s.defined || id !in s.registry) ==> s.mods[id].inited
  {
    if id in s.mods {
      assert ModuleOk(s, id, {});
      if id in s.defined { EarlyExports(s, id); }
    }
  }

  lemma ReadyMeans(s: State)
    requires Quiet(s)
    ensures AllReady(s) <==> forall m :: m in s.enabledRegistry ==> m in s.mods && s.mods[m].inited
    ensures AllAnswered(s) <==> forall m :: m in s.mods && m.Req? ==> s.mods[m].defined
  {
  }

  lemma RequestInited(s: State, id: Id)
    requires Quiet(s) && id in s.mods && id.Req?
    ensures s.mods[id].inited
  {
  }

  lemma NothingAnswered(s: State)
    requires s.mods == map[]
    ensures AllAnswered(s)
  {
  }

  lemma AnsweredOnce(s: State, id: Id)
    requires Quiet(s) && AllAnswered(s) && id in s.mods && id.Req?
    ensures s.mods[id].defined
    ensures s.mods[id].factory.Function? ==> CallsOf(s.calls, id) == 1
    ensures DefinedFrom(s, id)
  {
    FactoryRunsOnce(s, id);
    forall d | Reaches(GraphOf(s.mods), id, d) ensures d in s.mods && s.mods[d].defined {
      var p :| Path(GraphOf(s.mods), p) && p[0] == id && p[|p| - 1] == d;
      DefinedClosed(s, p);
    }
  }
}
