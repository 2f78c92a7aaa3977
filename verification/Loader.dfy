/** The AMD module loader: registering, enabling and defining modules, and breaking cycles. */
module Loader {
  import opened Wrappers
  import opened LoaderState
  import opened LoaderSteps
  import opened LoaderTheorems
  import opened DefineQueue

  class Context {
    var mods: map<Id, Module>
    var registry: set<Id>
    var enabledRegistry: set<Id>
    var defined: map<Id, Value>
    var calls: seq<Call>
    var requireCounter: nat
    const defQueue: Queue
    ghost var forced: set<Slot>

    ghost function S(): State
      reads this
    {
      State(mods, registry, enabledRegistry, defined, calls, requireCounter, forced)
    }

    constructor ()
      ensures Quiet(S())
      ensures mods == map[] && calls == [] && forced == {} && requireCounter == 1
      ensures fresh(defQueue) && defQueue.items == []
    {
      mods, registry, enabledRegistry, defined, calls, requireCounter, forced := map[], {}, {}, map[], [], 1, {};
      defQueue := new Queue();
    }

    // ----- defining modules -----

    /** Stores the export of dependency i, once. */
    method DefineDep(id: Id, i: nat, depExports: Value)
      requires id in mods && i < |mods[id].depMatched| == |mods[id].depExports|
      modifies this`mods
      ensures mods == old(mods)[id := Delivered(old(mods)[id], i, depExports)]
    {
      var M := mods[id];
      if !M.depMatched[i] {
        mods := mods[id := M.(depMatched := M.depMatched[i := true], depCount := M.depCount - 1,
                              depExports := M.depExports[i := depExports])];
      }
    }

    /** Runs the factory of a module all of whose dependencies have been delivered. */
    method Execute(id: Id) returns (exports: Value)
      requires id in mods && mods[id].wired == |mods[id].deps| && HandlersOk(mods[id], id) && !mods[id].defined
      modifies this`calls
      ensures exports == Exported(id, mods[id])
      // a value; what the factory put into its `module.exports`; what it returned; or its `exports` object
      ensures match mods[id].factory
              case Literal(v) => exports == v
              case Function(run) =>
                var outcome := run(mods[id].depExports);
                var own := if ExportsDep in mods[id].deps then ExportsOf(id) else Undefined;
                var stored := ModuleDep in mods[id].deps && outcome.stored.Some?
                              && outcome.stored.value !in {Undefined, own};
                exports == if id.Req? then outcome.returned
                           else if stored then outcome.stored.value
                           else if outcome.returned == Undefined then own
                           else outcome.returned
      ensures calls == if mods[id].factory.Function? then old(calls) + [Call(id, mods[id].depExports)] else old(calls)
    {
      var M := mods[id];
      match M.factory
      case Literal(v) => exports := v;
      case Function(run) =>
        calls := calls + [Call(id, M.depExports)];
        var outcome := run(M.depExports);
        exports := outcome.returned;
        if id.Named? {
          var cjs := if M.moduleExports.None? then Undefined
                     else if outcome.stored.Some? then outcome.stored.value else M.moduleExports.value;
          if cjs != Undefined && cjs != M.exports {
            exports := cjs;
          } else if exports == Undefined && M.usingExports {
            exports := M.exports;
          }
        }
    }

    /** Defines the module if it is ready, and tells its listeners. */
    method Check(id: Id, ghost open: set<Slot>, ghost path: set<Id>)
      requires id in mods
      requires Inv(S(), open, path, if mods[id].enabled then {id} else {})
      requires mods[id].enabled && !mods[id].enabling ==> mods[id].wired == |mods[id].deps|
      modifies this
      ensures Inv(S(), open, path, {})
      ensures Progress(old(S()), S()) && OnlyChecks(old(S()), S())
      decreases Unemitted(S()), 0
    {
      hide Inv, Progress, OnlyChecks, Unemitted, ListenersFrom;
      ghost var s := S();
      var M := mods[id];
      if !M.enabled || M.enabling {
        if M.enabled { NoCheckNeeded(s, id, open, path); }
        Same(s, open, path, {});
        return;
      }
      TakeModule(s, id, open, path, {id});
      if !M.inited {
        mods := mods[id := M.(fetched := true)];
        FetchStep(s, S(), id, open, path);
      } else if !M.defining {
        var exports := M.exports;
        if M.depCount < 1 && !M.defined {
          exports := Execute(id);
          M := M.(exports := exports, defined := true);
          if id.Named? {
            defined := defined[id := exports];
          }
          registry, enabledRegistry := registry - {id}, enabledRegistry - {id};
        }
        if M.defined && !M.defineEmitted {
          mods := mods[id := M.(defineEmitted := true)];
          DefineStep(s, S(), id, exports, open, path);
          ghost var t := S();
          EmittedNow(s, t, id);
          Emit(id, open, path);
          ghost var u := S();
          StillEmitting(t, u, id);
          mods := mods[id := mods[id].(defineEmitComplete := true)];
          EmitCompleteStep(u, S(), id, open, path);
          Chain(s, t, u);
          Chain(s, u, S());
        } else {
          NoCheckNeeded(s, id, open, path);
          Same(s, open, path, {});
        }
      }
    }

    /** Calls every 'defined' listener of a module. */
    method Emit(id: Id, ghost open: set<Slot>, ghost path: set<Id>)
      requires id in mods && mods[id].defined
      requires Inv(S(), open + ListenersFrom(S(), id, 0), path, {})
      modifies this
      ensures Inv(S(), open, path, {})
      ensures Progress(old(S()), S()) && OnlyChecks(old(S()), S())
      decreases Unemitted(S()), 1
    {
      hide Inv, Progress, OnlyChecks, Shape, ListenersFrom;
      ghost var s0 := S();
      var listeners := mods[id].listeners;
      var exports := mods[id].exports;
      Same(s0, open + ListenersFrom(s0, id, 0), path, {});
      for k := 0 to |listeners|
        invariant id in mods && mods[id].defined && mods[id].listeners == listeners && mods[id].exports == exports
        invariant Inv(S(), open + ListenersFrom(S(), id, k), path, {})
        invariant Progress(s0, S()) && OnlyChecks(s0, S())
      {
        ghost var s := S();
        var l := listeners[k];
        ghost var rest := open + ListenersFrom(s, id, k);
        TakeListener(s, id, l, rest, path);
        assert Shape(mods[l.id]);
        ShapeLengths(mods[l.id]);
        DefineDep(l.id, l.i, exports);
        ghost var t := S();
        DeliverStep(s, t, l.id, l.i, rest, path);
        StillEmitting(s, t, id);
        NextListener(s, id, k, open);
        ghost var rest' := open + ListenersFrom(t, id, k + 1);
        MoreOpen(t, rest - {l}, rest', path, {l.id});
        Chain(s0, s, t);
        UnemittedShrinks(s0, t);
        Check(l.id, rest', path);
        StillEmitting(t, S(), id);
        Chain(s0, t, S());
      }
      NoListenersLeft(S(), id, open);
    }

    // ----- enabling modules -----

    /** The listener of slot (id, i) is called at once if module d is defined, and registered
        otherwise; an unknown module enters the registry. `s` is the state before slot i was counted. */
    method OnDefined(id: Id, i: nat, d: Id, ghost s: State)
      requires Inv(s, {}, {}, {}) && id in s.mods && Shape(s.mods[id])
      requires var M := s.mods[id];
               && M.enabling && M.wired == i < |M.deps| && d.Named? && M.deps[i] == On(d.name)
               && S() == s.(mods := s.mods[id := M.(wired := M.wired + 1, depCount := M.depCount + 1)])
      modifies this
      ensures Inv(S(), {}, {}, ToWake(S(), d))
      ensures Progress(s, S()) && OnlyEnables(s, S(), id)
      ensures d in mods && id in mods && mods.Keys == s.mods.Keys + {d}
      ensures mods[id].enabling && mods[id].wired == i + 1
    {
      hide Inv, Progress, Shape, OnlyChecks, OnlyEnables;
      ShapeLengths(s.mods[id]);
      Lookup(s, d);
      if d in defined && (d !in registry || mods[d].defineEmitComplete) {
        WireStep(s, S(), id, d);
        ghost var t := S();
        assert ToWake(t, d) == {};
        CallAtOnce(id, i, d);
        ChecksEnable(t, S(), id);
        EnablesTransitive(s, t, S(), id);
        StillEnabling(t, S(), id);
        assert ToWake(S(), d) == {} by { StillDefined(t, S(), d); }
      } else {
        if d !in registry {
          mods, registry := mods[d := NEW_MODULE], registry + {d};
        }
        mods := mods[d := mods[d].(listeners := mods[d].listeners + [Slot(id, i)])];
        RegisterStep(s, S(), id, i, d);
      }
    }

    /** The listener of slot (id, i), for a module d that is defined already. */
    method CallAtOnce(id: Id, i: nat, d: Id)
      requires Inv(S(), {Slot(id, i)}, {}, {}) && id in mods && i < mods[id].wired && i < |mods[id].deps|
      requires d.Named? && mods[id].deps[i] == On(d.name) && d in mods && mods[d].defined && d in defined
      requires mods[id].enabling
      modifies this
      ensures Inv(S(), {}, {}, {}) && Progress(old(S()), S()) && OnlyChecks(old(S()), S())
    {
      hide Inv, Progress, OnlyChecks;
      ghost var t := S();
      ghost var l := Slot(id, i);
      TakeModule(t, d, {l}, {}, {});
      TakeModule(t, id, {l}, {}, {});
      hide Unmatched;
      DefineDep(id, i, defined[d]);
      ghost var u := S();
      DeliverStep(t, u, id, i, {l}, {});
      assert {l} - {l} == {};
      Check(id, {}, {});
      Chain(t, u, S());
    }

    /** Enables a module and, through its dependencies, everything it needs. */
    method Enable(id: Id)
      requires id in mods && Inv(S(), {}, {}, {id})
      requires !mods[id].enabling && !mods[id].defined && mods[id].wired == 0
      modifies this
      ensures Inv(S(), {}, {}, {})
      ensures Progress(old(S()), S()) && OnlyEnables(old(S()), S(), id)
      ensures id in mods && mods[id].enabled && !mods[id].enabling
      ensures NewWanted(old(S()), S())
      decreases Sleeping(S()) - {id}, if mods[id].inited then 1 else 0
    {
      hide Inv, Progress, Shape, OnlyChecks, OnlyEnables, Sleeping, NewWanted;
      ghost var s0 := S();
      enabledRegistry := enabledRegistry + {id};
      mods := mods[id := mods[id].(enabled := true, enabling := true)];
      BeginEnableStep(s0, S(), id);
      NoneNew(s0, S());
      var deps := mods[id].deps;
      TakeModule(s0, id, {}, {}, {id});
      assert Shape(s0.mods[id]);
      ShapeLengths(s0.mods[id]);
      for i := 0 to |deps|
        invariant Inv(S(), {}, {}, {})
        invariant Progress(s0, S()) && OnlyEnables(s0, S(), id)
        invariant id in mods && mods[id].deps == deps
        invariant mods[id].enabled && mods[id].enabling && mods[id].wired == i
        invariant NewWanted(s0, S())
      {
        ghost var s := S();
        TakeModule(s, id, {}, {}, {});
        assert Shape(mods[id]);
        ShapeLengths(mods[id]);
        if deps[i].On? {
          var d := Named(deps[i].name);
          mods := mods[id := mods[id].(wired := i + 1, depCount := mods[id].depCount + 1)];
          OnDefined(id, i, d, s);
          ghost var t := S();
          EnablesTransitive(s0, s, t, id);
          StillHere(s, t, id);
          LookedUp(s0, s, t, id, i);
          if d in registry && !mods[d].enabled {
            Asleep(t, d, {d});
            Deeper(s0, t, id, d);
            Enable(d);
            NestedEnable(s0, t, S(), id, d);
            StillHere(t, S(), id);
            ProgressGrows(t, S());
            NewWantedTransitive(s0, t, S());
          }
        } else {
          Answer(id);
          AnswerStep(s, S(), id);
          EnablesTransitive(s0, s, S(), id);
          NoneNewSince(s0, s, S());
        }
      }
      ghost var s := S();
      TakeModule(s, id, {}, {}, {});
      assert Shape(mods[id]);
      ShapeLengths(mods[id]);
      mods := mods[id := mods[id].(enabling := false)];
      ghost var t := S();
      EndEnableStep(s, t, id);
      Check(id, {}, {});
      ChecksEnable(t, S(), id);
      EnablesTransitive(s0, s, t, id);
      EnablesTransitive(s0, t, S(), id);
      StillEnabling(t, S(), id);
      NoneNewSince(s0, s, t);
      NoneNewSince(s0, t, S());
    }

    /** The special dependencies are answered by the loader itself. */
    method Answer(id: Id)
      requires id in mods && mods[id].wired < |mods[id].deps| == |mods[id].depExports|
      requires !mods[id].deps[mods[id].wired].On?
      requires mods[id].exports == if id in defined then ExportsOf(id) else Undefined
      requires id in defined ==> defined[id] == ExportsOf(id)
      modifies this`mods, this`defined
      ensures mods == old(mods)[id := Answered(old(mods)[id], id,
                                               if id in old(defined) then Some(old(defined)[id]) else None)]
      ensures defined == if old(mods)[id].deps[old(mods)[id].wired].ExportsDep? && id.Named?
                         then old(defined)[id := ExportsOf(id)] else old(defined)
    {
      var M := mods[id];
      var i, dep := M.wired, M.deps[M.wired];
      var value, exports, usingExports, moduleExports := Undefined, M.exports, M.usingExports, M.moduleExports;
      if dep.RequireDep? {
        value := RequireOf(id);
      } else if dep.ExportsDep? {
        usingExports := true;
        if id.Named? {
          if exports == Undefined {
            exports := ExportsOf(id);
            defined := defined[id := exports];
          }
          value := exports;
        }
      } else {
        if moduleExports.None? {
          moduleExports := Some(if id in defined then defined[id] else Undefined);
        }
        value := ModuleOf(id);
      }
      mods := mods[id := M.(wired := i + 1, depExports := M.depExports[i := value], usingExports := usingExports,
                            exports := exports, moduleExports := moduleExports)];
    }

    /** Gives a registered module its definition; a second definition is ignored. */
    method Init(id: Id, deps: seq<Dep>, factory: Factory, enabled: bool)
      requires id in mods && Inv(S(), {}, {}, {}) && NoneEnabling(S())
      modifies this
      ensures Inv(S(), {}, {}, {}) && NoneEnabling(S())
      ensures Grows(old(S()), S())
      ensures id in mods && mods[id].inited
      ensures !old(mods)[id].inited ==> mods[id].deps == deps && mods[id].factory == factory
      ensures !old(mods)[id].inited && enabled ==> mods[id].enabled
      ensures forall m :: m in mods && m !in old(mods) ==> m.Named?
      ensures forall m :: m in old(mods) && old(mods)[m].enabled ==> m in mods && mods[m].enabled
      ensures requireCounter == old(requireCounter) && forced == old(forced)
      ensures OnlyInits(old(S()), S(), id) && NewWanted(old(S()), S())
    {
      hide Inv, Progress, OnlyEnables, OnlyChecks, OnlyInits, NewWanted;
      ghost var s := S();
      var M := mods[id];
      if M.inited {
        NoneInited(s, s, id);
        NoneNew(s, s);
        return;
      }
      mods := mods[id := M.(factory := factory, deps := deps, inited := true,
                            depExports := seq(|deps|, k => Undefined), depMatched := seq(|deps|, k => false))];
      ghost var t := S();
      InitStep(s, t, id, deps, factory);
      InitReady(s, t, id);
      if enabled || M.enabled {
        if !M.enabled { MoreDirty(t, id, {}, {}); }
        Enable(id);
        EnabledAll(t, S(), id);
      } else {
        Check(id, {}, {});
        ChecksEnable(t, S(), id);
        StillEnabling(t, S(), id);
        EnabledAll(t, S(), id);
        NoneNew(t, S());
      }
      InitsOne(s, t, S(), id);
      NewAfterInit(s, t, S());
      ProgressGrows(t, S());
      GrowsTransitive(s, t, S());
    }

    // ----- breaking cycles -----

    /** Walks the dependencies that hold a module up, and forces those that lie on the current path. */
    method BreakCycle(id: Id, traced: set<Id>, processed: set<Id>, ghost path: seq<Id>)
      returns (traced': set<Id>, processed': set<Id>)
      requires Tracing(S(), path, traced, processed)
      requires id in mods && mods[id].enabled && id !in traced
      requires Path(GraphOf(mods), path + [id])
      modifies this
      ensures Tracing(S(), path, traced', processed') && OnlyForces(old(S()), S(), processed, processed')
      ensures id in processed'
      decreases mods.Keys - traced, 0
    {
      hide Tracing, OnlyForces, Path;
      ghost var s0 := S();
      ghost var p := path + [id];
      traced', processed' := traced + {id}, processed;
      var deps := mods[id].deps;
      BeginTracing(s0, path, id, traced, processed);
      for i := 0 to |deps|
        invariant Tracing(S(), p, traced', processed') && OnlyForces(s0, S(), processed, processed')
        invariant id in mods && mods[id].deps == deps && |mods[id].depMatched| == |deps|
        invariant forall j :: 0 <= j < i && deps[j].On? ==> mods[id].depMatched[j]
        invariant traced + {id} <= traced' && mods.Keys == s0.mods.Keys
      {
        ghost var s := S();
        ghost var before := processed';
        traced', processed' := TraceDependency(id, i, traced', processed', p);
        ForcesTransitive(s0, s, S(), processed, before, processed', id);
      }
      EndTracing(s0, S(), path, id, traced, processed, traced', processed');
      processed' := processed' + {id};
    }

    /** Delivers what dependency i has exported so far: it is an ancestor on the current path. */
    method Force(id: Id, i: nat, ghost traced: set<Id>, ghost processed: set<Id>, ghost p: seq<Id>)
      requires Ancestral(S(), p, traced, processed, id, i)
      modifies this
      ensures Tracing(S(), p, traced, processed) && OnlyForces(old(S()), S(), processed, processed)
      ensures id in mods && mods[id].deps == old(mods)[id].deps
      ensures i < |mods[id].depMatched| && mods[id].depMatched[i]
      decreases mods.Keys - traced, 0
    {
      hide Inv, Progress, OnlyChecks, Tracing, OnlyForces, ForceCase, ListenersFrom, Unemitted;
      ghost var s := S();
      ghost var t := Forced(s, p, traced, processed, id, i);
      BeginForce(s, p, traced, processed, id, i);
      var d := Named(mods[id].deps[i].name);
      DefineDep(id, i, if d in defined then defined[d] else Undefined);
      forced := forced + {Slot(id, i)};
      assert S() == t;
      Check(id, {}, PathSet(p));
      EndForce(s, t, S(), p, traced, processed, id, i);
    }

    /** Follows dependency i of the module on top of the path. */
    method TraceDependency(id: Id, i: nat, traced: set<Id>, processed: set<Id>, ghost p: seq<Id>)
      returns (traced': set<Id>, processed': set<Id>)
      requires Tracing(S(), p, traced, processed) && p != [] && p[|p| - 1] == id && i < |mods[id].deps|
      modifies this
      ensures Tracing(S(), p, traced', processed') && OnlyForces(old(S()), S(), processed, processed')
      ensures traced <= traced'
      ensures id in mods && mods[id].deps == old(mods)[id].deps
      ensures mods[id].deps[i].On? ==> i < |mods[id].depMatched| && mods[id].depMatched[i]
      decreases mods.Keys - traced, 1
    {
      hide Inv, Progress, OnlyChecks, AllReady, NoneEnabling, Shape, Path, OnCycle, Edge, GraphOf;
      ghost var s := S();
      traced', processed' := traced, processed;
      Same(s, {}, PathSet(p), {});
      match mods[id].deps[i]
      case On(name) =>
        var d := Named(name);
        NotEnabling(s, id);
        NextEdge(s, id, i, PathSet(p));
        ShapeLengths(mods[id]);
        if d in registry && !mods[id].depMatched[i] && d !in processed {
          if d in traced {
            Force(id, i, traced, processed, p);
          } else {
            ExtendPath(GraphOf(mods), p, d);
            traced', processed' := BreakCycle(d, traced, processed, p);
            StillMatched(s, S(), id);
            NotEnabling(S(), id);
            MatchedWhenDefined(S(), id, i, PathSet(p));
          }
        }
      case _ =>
    }

    /** Looks at all enabled modules; when none of them is still loading, breaks the cycles that
        keep `require` calls waiting. */
    method CheckLoaded()
      requires Quiet(S())
      modifies this
      ensures Quiet(S()) && Progress(old(S()), S())
      ensures mods.Keys == old(mods).Keys && requireCounter == old(requireCounter)
      ensures GraphOf(mods) == GraphOf(old(mods))
      // nothing loading: every require call is answered
      ensures old(forall m :: m in enabledRegistry ==> m in mods && mods[m].inited) ==>
                forall m :: m in mods && m.Req? ==> mods[m].defined
      ensures AllReady(old(S())) ==> AllAnswered(S())
      // something loading, or nothing to force: nothing happens
      ensures !AllReady(old(S())) ==> S() == old(S())
      ensures Acyclic(GraphOf(old(mods))) ==> S() == old(S())
    {
      hide Quiet, Progress, GraphOf, Acyclic, OnlyForces;
      ghost var s0 := S();
      var todo, reqCalls, needCycleCheck := enabledRegistry, [], true;
      while todo != {}
        invariant S() == s0 && todo <= enabledRegistry
        invariant needCycleCheck ==> forall m :: m in enabledRegistry - todo ==> m in mods && mods[m].inited
        invariant !needCycleCheck ==> !AllReady(s0)
        invariant forall m :: m in enabledRegistry - todo && m.Req? ==> m in reqCalls
        invariant forall m :: m in reqCalls ==> m in mods && mods[m].enabled
        decreases todo
      {
        var m :| m in todo;
        EnabledRequest(s0, m);
        todo := todo - {m};
        if m.Req? {
          reqCalls := reqCalls + [m];
        }
        if !mods[m].inited && mods[m].fetched && m.Named? {
          needCycleCheck := false;
        }
      }
      Unforced(s0, s0);
      if needCycleCheck {
        assert AllReady(s0);
        BreakAll(reqCalls);
        Unforced(s0, S());
        RequestsAnswered(s0, S(), reqCalls);
      }
    }

    method BreakAll(reqCalls: seq<Id>)
      requires Quiet(S()) && AllReady(S())
      requires forall m :: m in reqCalls ==> m in mods && mods[m].enabled
      modifies this
      ensures Quiet(S()) && OnlyForces(old(S()), S(), {}, {})
      ensures forall m :: m in reqCalls ==> m in mods && mods[m].defined
    {
      hide Inv, Progress, AllReady, NoneEnabling, GraphOf;
      ghost var s0 := S();
      Same(s0, {}, {}, {});
      for k := 0 to |reqCalls|
        invariant Quiet(S()) && AllReady(S()) && OnlyForces(s0, S(), {}, {})
        invariant forall m :: m in reqCalls ==> m in mods && mods[m].enabled
        invariant forall j :: 0 <= j < k ==> mods[reqCalls[j]].defined
      {
        ghost var s := S();
        assert PathSet([]) == {};
        var traced, processed := BreakCycle(reqCalls[k], {}, {}, []);
        QuietAfterChecks(s, S());
        ForcesTransitive(s0, s, S(), {}, {}, processed, reqCalls[k]);
        StillAllEnabled(s, S(), reqCalls);
        StillAllDefined(s, S(), set j | 0 <= j < k :: reqCalls[j]);
      }
    }

    // ----- the public operations -----

    /** A `define` call reaches the context; names that already have an export are skipped. */
    method Define(name: nat, deps: seq<Dep>, factory: Factory)
      requires Quiet(S())
      modifies this
      ensures Quiet(S()) && Grows(old(S()), S()) && requireCounter == old(requireCounter)
      ensures Inited(S(), Named(name)) && OnlyInits(old(S()), S(), Named(name))
      ensures !Inited(old(S()), Named(name)) ==> DefinedAs(S(), Named(name), deps, factory)
      ensures NewWanted(old(S()), S())
    {
      hide Inv, Grows, Progress, OnlyEnables, OnlyInits, NewWanted, Wanted;
      var id := Named(name);
      ghost var s := S();
      GrowsRefl(s);
      if id !in defined {
        Lookup(s, id);
        if id !in registry {
          mods, registry := mods[id := NEW_MODULE], registry + {id};
          CreateStep(s, S(), id);
        }
        ghost var t := S();
        Init(id, deps, factory, false);
        GrowsTransitive(s, t, S());
        QuietAfterInit(s, t, S());
        InitsSince(s, t, S(), id);
        NewBut(s, t, S(), id);
      } else {
        EarlyExports(s, id);
        NoneInited(s, S(), id);
        NoneNew(s, S());
      }
    }

    /** `intakeDefines`: the `define` calls queued so far are taken in, up to one without a name, which
        is an error here. */
    method IntakeDefines(queued: seq<Definition>) returns (ok: bool)
      requires Quiet(S())
      modifies this, defQueue
      ensures Quiet(S()) && Grows(old(S()), S()) && requireCounter == old(requireCounter) && NewWanted(old(S()), S())
      ensures var q := Taken(old(defQueue.items), queued);
              && ok == (FirstAnonymous(q) == |q|) && defQueue.items == LeftAfter(q, FirstAnonymous(q))
              && TookIn(old(S()), S(), q, FirstAnonymous(q), 0, None)
      // without left-over calls, those that were queued
      ensures old(defQueue.items) == [] ==>
                && TookIn(old(S()), S(), queued, FirstAnonymous(queued), 0, None)
                && forall k :: 0 <= k < FirstAnonymous(queued) ==> Inited(S(), Named(queued[k].name.value))
    {
      hide Quiet, Grows, Inited, DefinedAs, OnlyInits, Taken, FirstAnonymous, TookIn, NewWanted;
      ghost var s0 := S();
      GrowsRefl(s0);
      NoneNew(s0, s0);
      defQueue.TakeGlobalQueue(queued);
      ghost var q, k := defQueue.items, 0;
      TookNone(s0, q, 0);
      while defQueue.items != []
        invariant k <= FirstAnonymous(q) && defQueue.items == q[k..]
        invariant Quiet(S()) && Grows(s0, S()) && requireCounter == s0.requireCounter
        invariant TookIn(s0, S(), q, k, 0, None) && NewWanted(s0, S())
        decreases |defQueue.items|
      {
        var d := defQueue.Shift();
        Shifted(q, k, d, defQueue.items);
        if d.name.None? {
          TookMeans(s0, S(), q, k, 0, None);
          return false;
        }
        ghost var s := S();
        Define(d.name.value, d.deps, d.factory);
        GrowsTransitive(s0, s, S());
        NewWantedTransitive(s0, s, S());
        TookOne(s0, s, S(), q, k, 0);
        k := k + 1;
      }
      TookMeans(s0, S(), q, k, 0, None);
      return true;
    }

    /** The part of a `require` call that runs in the next tick: takes in what was queued meanwhile, and
        makes an anonymous, enabled module whose factory is the callback. A nameless `define` call in the
        queue is an error, and there is no module then. */
    method Require(queued: seq<Definition>, deps: seq<Dep>, callback: Factory) returns (made: Option<Id>)
      requires Quiet(S())
      modifies this, defQueue
      ensures Quiet(S()) && Grows(old(S()), S()) && NewWanted(old(S()), S())
      ensures var q := Taken(old(defQueue.items), queued);
              && made.Some? == (FirstAnonymous(q) == |q|) && defQueue.items == LeftAfter(q, FirstAnonymous(q))
              && TookIn(old(S()), S(), q, FirstAnonymous(q), 0,
                        if made.Some? then Some(Extra(made.value, deps, callback)) else None)
      ensures old(defQueue.items) == [] ==>
                forall k :: 0 <= k < FirstAnonymous(queued) ==> Inited(S(), Named(queued[k].name.value))
      ensures requireCounter == old(requireCounter) + (if made.Some? then 1 else 0)
      ensures made.Some? ==>
                && made.value == Req(requireCounter) && made.value !in old(mods)
                && DefinedAs(S(), made.value, deps, callback)
                // when nothing is loading, all calls have been answered
                && ((forall m :: m in enabledRegistry ==> m in mods && mods[m].inited) ==>
                      forall m :: m in mods && m.Req? ==> mods[m].defined)
    {
      hide Quiet, Grows, TookIn, Taken, FirstAnonymous, NewWanted;
      ghost var s := S();
      FreshRequest(s, Req(s.requireCounter + 1));
      ghost var q := Taken(defQueue.items, queued);
      var ok := IntakeDefines(queued);
      if !ok {
        return None;
      }
      ghost var t := S();
      var id := Request(deps, callback);
      GrowsTransitive(s, t, S());
      NewWantedTransitive(s, t, S());
      StillInited(t, S());
      TookAll(s, t, S(), q, FirstAnonymous(q), 0, Extra(id, deps, callback));
      return Some(id);
    }

    method Request(deps: seq<Dep>, callback: Factory) returns (id: Id)
      requires Quiet(S())
      modifies this
      ensures Quiet(S()) && Grows(old(S()), S())
      ensures requireCounter == old(requireCounter) + 1 && id == Req(requireCounter)
      ensures id !in old(mods) && DefinedAs(S(), id, deps, callback)
      ensures OnlyInits(old(S()), S(), id) && NewWanted(old(S()), S())
      ensures AllReady(S()) ==> AllAnswered(S())
    {
      hide Quiet, Grows, Progress, AllReady, AllAnswered, OnlyInits, NewWanted, GraphOf, Acyclic;
      ghost var s := S();
      id := MakeRequest(deps, callback);
      ghost var u := S();
      CheckLoaded();
      StillReadyBefore(u, S());
      ProgressGrows(u, S());
      GrowsTransitive(s, u, S());
      StillInited(u, S());
      InitsThen(s, u, S(), id);
      NoneNewSince(s, u, S());
    }

    /** The module of a `require` call. */
    method MakeRequest(deps: seq<Dep>, callback: Factory) returns (id: Id)
      requires Quiet(S())
      modifies this
      ensures Quiet(S()) && Grows(old(S()), S())
      ensures requireCounter == old(requireCounter) + 1 && id == Req(requireCounter)
      ensures id !in old(mods) && DefinedAs(S(), id, deps, callback)
      ensures OnlyInits(old(S()), S(), id) && NewWanted(old(S()), S())
    {
      hide Inv, Grows, Progress, OnlyEnables, OnlyInits, NewWanted, Wanted;
      ghost var s := S();
      requireCounter := requireCounter + 1;
      id := Req(requireCounter);
      FreshRequest(s, id);
      mods, registry := mods[id := NEW_MODULE], registry + {id};
      ghost var t := S();
      CreateStep(s, t, id);
      Init(id, deps, callback, true);
      GrowsTransitive(s, t, S());
      QuietAfterRequire(s, t, S(), id);
      InitsSince(s, t, S(), id);
      NewBut(s, t, S(), id);
    }

    /** A script has been loaded: the `define` calls in the queue are taken in, the first one without a name
        as the definition of the module the script was loaded for. A second one without a name ends the
        loop. A script without a definition of its own defines its module as one without dependencies. */
    method CompleteLoad(name: nat, queued: seq<Definition>)
      requires Quiet(S())
      modifies this, defQueue
      ensures Quiet(S()) && Grows(old(S()), S()) && requireCounter == old(requireCounter) && NewWanted(old(S()), S())
      ensures var q := Taken(old(defQueue.items), queued);
              && defQueue.items == LeftAfter(q, StopsAt(q, name))
              && TookIn(old(S()), S(), q, StopsAt(q, name), name, Some(Extra(Named(name), [], Literal(Undefined))))
              && (!Inited(old(S()), Named(name)) && Named(name) in mods ==>
                    if FirstOwn(q, name) < |q|
                    then DefinedAs(S(), Named(name), q[FirstOwn(q, name)].deps, q[FirstOwn(q, name)].factory)
                    else DefinedAs(S(), Named(name), [], Literal(Undefined)))
      // without left-over calls, those that were queued: the first for the module the script was loaded for,
      // with or without a name, defines it
      ensures old(defQueue.items) == [] && !Inited(old(S()), Named(name)) ==>
                forall k :: 0 <= k < |queued| && queued[k].name in {None, Some(name)}
                            && (forall j :: 0 <= j < k ==> queued[j].name !in {None, Some(name)}) ==>
                              DefinedAs(S(), Named(name), queued[k].deps, queued[k].factory)
      // when nothing is loading, all calls have been answered
      ensures (forall m :: m in enabledRegistry ==> m in mods && mods[m].inited) ==>
                forall m :: m in mods && m.Req? ==> mods[m].defined
    {
      hide Quiet, Grows, Progress, GraphOf, Acyclic, TookIn, NewWanted, FirstOwn, StopsAt, Taken, OnlyInits;
      ghost var s0 := S();
      defQueue.TakeGlobalQueue(queued);
      ghost var q, extra := defQueue.items, Extra(Named(name), [], Literal(Undefined));
      var found := TakeDefinitions(name);
      ghost var s := S();
      RegisteredUnlessDefined(s, Named(name));
      if !Inited(s0, Named(name)) { OwnDefinition(s0, s, q, StopsAt(q, name), name); }
      if !found && Named(name) !in defined && Named(name) in registry && !mods[Named(name)].inited {
        Define(name, [], Literal(Undefined));
        GrowsTransitive(s0, s, S());
        NewWantedTransitive(s0, s, S());
        StillInited(s, S());
      } else {
        GrowsRefl(s);
        NoneInited(s, s, extra.id);
      }
      ghost var t := S();
      CheckLoaded();
      StillReadyBefore(t, S());
      ProgressGrows(t, S());
      GrowsTransitive(s, t, S());
      GrowsTransitive(s0, t, S());
      InitsThen(s, t, S(), extra.id);
      SameInited(t, S());
      TookAll(s0, s, S(), q, StopsAt(q, name), name, extra);
      NoneNewSince(s0, t, S());
      StillInited(t, S());
    }

    /** The loop of `completeLoad` over the queue. */
    method TakeDefinitions(name: nat) returns (found: bool)
      requires Quiet(S())
      modifies this, defQueue
      ensures Quiet(S()) && Grows(old(S()), S()) && requireCounter == old(requireCounter) && NewWanted(old(S()), S())
      ensures var q := old(defQueue.items);
              && found == (FirstOwn(q, name) < |q|)
              && defQueue.items == LeftAfter(q, StopsAt(q, name))
              && TookIn(old(S()), S(), q, StopsAt(q, name), name, None)
    {
      hide Quiet, Grows, StopsAt, FirstOwn, TookIn, OnlyInits, Inited, DefinedAs, NewWanted, NameFor;
      ghost var s0, q, k := S(), defQueue.items, 0;
      GrowsRefl(s0);
      NoneNew(s0, s0);
      TookNone(s0, q, name);
      found := false;
      while defQueue.items != []
        invariant k <= StopsAt(q, name) && defQueue.items == q[k..] && found == (FirstOwn(q, name) < k)
        invariant Quiet(S()) && Grows(s0, S()) && requireCounter == s0.requireCounter
        invariant TookIn(s0, S(), q, k, name, None) && NewWanted(s0, S())
        decreases |defQueue.items|
      {
        var d := defQueue.Shift();
        Shifted(q, k, d, defQueue.items);
        if d.name.None? && found {
          return;
        }
        found := found || Own(d, name);
        ghost var s := S();
        Define(NameFor(d, name), d.deps, d.factory);
        GrowsTransitive(s0, s, S());
        NewWantedTransitive(s0, s, S());
        TookOne(s0, s, S(), q, k, name);
        k := k + 1;
      }
    }
  }
}
