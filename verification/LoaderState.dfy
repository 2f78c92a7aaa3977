/** The state of one loader context: the Module objects, the registries, and the invariant
    that every public operation of the loader keeps. */
module LoaderState {
  import opened Wrappers

  /** `Named` ids belong to `define` calls, `Req` ids are made up for `require` calls. */
  datatype Id = Named(name: nat) | Req(serial: nat)

  /** A dependency name after normalisation: one of the three special names, or a module. */
  datatype Dep = RequireDep | ExportsDep | ModuleDep | On(name: nat)

  /** What flows between modules. `ExportsOf(m)` is the object that the 'exports' dependency of m yields. */
  datatype Value =
    | Undefined
    | ExportsOf(owner: Id)
    | RequireOf(owner: Id)
    | ModuleOf(owner: Id)
    | Opaque(v: int)

  /** A finished factory call: its return value, and what it stored in `module.exports`, if anything. */
  datatype Outcome = Outcome(returned: Value, stored: Option<Value>)

  datatype Factory = Literal(value: Value) | Function(run: seq<Value> -> Outcome)

  /** Dependency number i of a module; also the identity of the listener registered for it. */
  datatype Slot = Slot(id: Id, i: nat)

  /** A `define` call, with or without a name. */
  datatype Definition = Definition(name: Option<nat>, deps: seq<Dep>, factory: Factory)

  /** A factory invocation with the arguments it was given. */
  datatype Call = Call(id: Id, args: seq<Value>)

  datatype Module = Module(
    deps: seq<Dep>,
    wired: nat, // dependencies whose name `enable` has already turned into a module map
    factory: Factory,
    depExports: seq<Value>,
    depMatched: seq<bool>,
    depCount: int,
    listeners: seq<Slot>, // events.defined
    inited: bool,
    fetched: bool,
    enabled: bool,
    enabling: bool,
    defining: bool,
    defined: bool,
    defineEmitted: bool,
    defineEmitComplete: bool,
    exports: Value,
    usingExports: bool,
    moduleExports: Option<Value>) // `module.exports`, once 'module' was asked for

  const NEW_MODULE := Module([], 0, Literal(Undefined), [], [], 0, [],
                            false, false, false, false, false, false, false, false, Undefined, false, None)

  datatype State = State(
    mods: map<Id, Module>,
    registry: set<Id>,
    enabledRegistry: set<Id>,
    defined: map<Id, Value>,
    calls: seq<Call>,
    requireCounter: nat,
    forced: set<Slot>)

  // ----- the dependency graph -----

  type Graph = map<Id, seq<Dep>>

  ghost function GraphOf(mods: map<Id, Module>): Graph {
    map m | m in mods :: mods[m].deps
  }

  ghost predicate Edge(g: Graph, a: Id, b: Id) {
    a in g && b.Named? && On(b.name) in g[a]
  }

  ghost predicate Path(g: Graph, p: seq<Id>) {
    |p| > 0 && forall k :: 0 <= k < |p| - 1 ==> Edge(g, p[k], p[k + 1])
  }

  ghost predicate Reaches(g: Graph, a: Id, b: Id) {
    exists p :: Path(g, p) && p[0] == a && p[|p| - 1] == b
  }

  /** The edge from a to b closes a cycle. */
  ghost predicate OnCycle(g: Graph, a: Id, b: Id) {
    Edge(g, a, b) && Reaches(g, b, a)
  }

  ghost predicate Acyclic(g: Graph) {
    forall a, b :: !OnCycle(g, a, b)
  }

  ghost predicate Subgraph(g: Graph, h: Graph) {
    forall a, b :: Edge(g, a, b) ==> Edge(h, a, b)
  }

  lemma CycleInLargerGraph(g: Graph, h: Graph, a: Id, b: Id)
    requires Subgraph(g, h) && OnCycle(g, a, b)
    ensures OnCycle(h, a, b)
  {
    var p :| Path(g, p) && p[0] == b && p[|p| - 1] == a;
    assert Path(h, p);
  }

  // ----- counting -----

  /** Dependencies among the first k that are modules and have not been delivered yet. */
  function Unmatched(deps: seq<Dep>, matched: seq<bool>, k: nat): nat
    requires k <= |deps| == |matched|
  {
    if k == 0 then 0
    else Unmatched(deps, matched, k - 1) + (if deps[k - 1].On? && !matched[k - 1] then 1 else 0)
  }

  lemma {:induction false} UnmatchedUpdate(deps: seq<Dep>, matched: seq<bool>, k: nat, i: nat)
    requires k <= |deps| == |matched| && i < |deps| && deps[i].On? && !matched[i]
    ensures Unmatched(deps, matched[i := true], k) == Unmatched(deps, matched, k) - (if i < k then 1 else 0)
  {
    if k > 0 {
      UnmatchedUpdate(deps, matched, k - 1, i);
    }
  }

  lemma {:induction false} UnmatchedZero(deps: seq<Dep>, matched: seq<bool>, k: nat)
    requires k <= |deps| == |matched|
    ensures Unmatched(deps, matched, k) == 0 <==> forall i :: 0 <= i < k && deps[i].On? ==> matched[i]
  {
    if k > 0 {
      UnmatchedZero(deps, matched, k - 1);
    }
  }

  // ----- the invariant -----

  /** What the three special dependency names deliver. */
  function HandlerValue(m: Id, dep: Dep): Value
    requires !dep.On?
  {
    match dep
    case RequireDep => RequireOf(m)
    case ExportsDep => if m.Named? then ExportsOf(m) else Undefined
    case ModuleDep => ModuleOf(m)
  }

  /** One of the first k dependencies is dep. */
  predicate Asked(deps: seq<Dep>, k: nat, dep: Dep)
    requires k <= |deps|
  {
    dep in deps[..k]
  }

  /** What a module exports once its factory has been called: what the factory stored in
      `module.exports`, if that is a value of its own, or else what it returned, or else the `exports`
      object, if it asked for it. */
  function Exported(m: Id, M: Module): Value {
    match M.factory
    case Literal(v) => v
    case Function(run) =>
      var outcome := run(M.depExports);
      var own := if m.Named? && ExportsDep in M.deps then ExportsOf(m) else Undefined;
      if m.Named? && ModuleDep in M.deps && outcome.stored.Some? && outcome.stored.value !in {Undefined, own}
      then outcome.stored.value
      else if outcome.returned == Undefined then own
      else outcome.returned
  }

  /** What the special dependencies have left on a module. */
  ghost predicate HandlersOk(M: Module, m: Id)
    requires M.wired <= |M.deps|
  {
    && (M.usingExports <==> Asked(M.deps, M.wired, ExportsDep))
    && (M.moduleExports.Some? <==> Asked(M.deps, M.wired, ModuleDep))
    && (M.moduleExports.Some? && M.moduleExports.value != Undefined ==>
          M.moduleExports.value == ExportsOf(m) && m.Named? && M.usingExports)
    && (!M.defined ==> M.exports == if m.Named? && M.usingExports then ExportsOf(m) else Undefined)
    && (M.defined ==> M.exports == Exported(m, M))
  }

  ghost predicate Ran(calls: seq<Call>, m: Id) {
    exists k :: 0 <= k < |calls| && calls[k].id == m
  }

  /** Nothing is left to do for a module that is not in the middle of an operation. */
  ghost predicate Settled(M: Module) {
    && M.wired == |M.deps|
    && (!M.inited ==> M.fetched)
    && (M.inited && M.depCount < 1 ==> M.defined)
  }

  ghost predicate Shape(M: Module) {
    && |M.depExports| == |M.depMatched| == |M.deps|
    && M.wired <= |M.deps|
    && (!M.inited ==> M.deps == [])
    && M.depCount == Unmatched(M.deps, M.depMatched, M.wired)
    && (forall i :: M.wired <= i < |M.deps| ==> !M.depMatched[i])
    && (M.enabling ==> M.enabled)
    && (!M.enabled ==> M.wired == 0)
    && !M.defining
  }

  ghost predicate Completed(M: Module) {
    && M.inited && M.enabled && !M.enabling
    && M.defineEmitted
    && M.wired == |M.deps| && M.depCount == 0
  }

  /** `dirty` holds the modules whose `check` is still to be called by the running operation. */
  ghost predicate ModuleOk(s: State, m: Id, dirty: set<Id>)
    requires m in s.mods
  {
    var M := s.mods[m];
    && Shape(M) && HandlersOk(M, m)
    && (m in s.registry <==> !M.defined)
    && (m in s.enabledRegistry <==> !M.defined && M.enabled)
    && (M.defineEmitComplete ==> M.defineEmitted)
    && (if M.defined then
          && Completed(M)
          && (m.Named? ==> m in s.defined && s.defined[m] == M.exports)
          && (M.factory.Function? ==> Ran(s.calls, m))
        else
          && !M.defineEmitted
          && M.exports in {Undefined, ExportsOf(m)}
          && (m in s.defined <==> M.exports == ExportsOf(m))
          && (m in s.defined ==> M.inited)
          && (m in s.defined ==> s.defined[m] == ExportsOf(m)))
    && (m !in dirty && M.enabled && !M.enabling ==> Settled(M))
  }

  /** `open` holds the slots to which a running operation still owes a delivery; `path` is the
      current path of the cycle breaker. */
  ghost predicate SlotOk(s: State, m: Id, i: nat, open: set<Slot>, path: set<Id>, dirty: set<Id>)
    requires m in s.mods && i < s.mods[m].wired && Shape(s.mods[m])
  {
    var M := s.mods[m];
    if M.deps[i].On? then
      var d := Named(M.deps[i].name);
      && d in s.mods
      && (d in s.registry ==> s.mods[d].enabled || d in dirty)
      && (if M.depMatched[i] then
            if Slot(m, i) in s.forced then
              && (s.mods[d].defined || d in path)
              && M.depExports[i] in {Undefined, ExportsOf(d)}
            else
              s.mods[d].defined && M.depExports[i] == s.mods[d].exports
          else
            && (Slot(m, i) in open || (Slot(m, i) in s.mods[d].listeners && !s.mods[d].defined))
            && Slot(m, i) !in s.forced)
    else
      !M.depMatched[i] && M.depExports[i] == HandlerValue(m, M.deps[i])
  }

  /** A registered listener is the listener of a wired slot on that module. */
  ghost predicate ListenerOk(s: State, d: Id, l: Slot) {
    && d.Named?
    && l.id in s.mods && l.i < s.mods[l.id].wired <= |s.mods[l.id].deps|
    && s.mods[l.id].deps[l.i] == On(d.name)
  }

  ghost predicate CallOk(s: State, k: nat)
    requires k < |s.calls|
  {
    var c := s.calls[k];
    && c.id in s.mods
    && s.mods[c.id].defined
    && c.args == s.mods[c.id].depExports
  }

  ghost predicate GlobalOk(s: State) {
    && s.registry <= s.mods.Keys
    && s.enabledRegistry <= s.mods.Keys
    && s.defined.Keys <= s.mods.Keys
    && (forall m :: m in s.mods && m.Req? ==> m.serial <= s.requireCounter)
    && (forall j, k :: 0 <= j < k < |s.calls| ==> s.calls[j].id != s.calls[k].id)
  }

  /** Every forced dependency closes a cycle. */
  ghost predicate ForcedOk(s: State, f: Slot) {
    && f.id in s.mods && f.i < s.mods[f.id].wired <= |s.mods[f.id].deps|
    && s.mods[f.id].deps[f.i].On?
    && OnCycle(GraphOf(s.mods), f.id, Named(s.mods[f.id].deps[f.i].name))
  }

  ghost predicate ModulesOk(s: State, dirty: set<Id>) {
    forall m :: m in s.mods ==> ModuleOk(s, m, dirty)
  }

  ghost predicate SlotsOk(s: State, open: set<Slot>, path: set<Id>, dirty: set<Id>) {
    forall m, i: nat :: m in s.mods && i < s.mods[m].wired && Shape(s.mods[m]) ==>
                          SlotOk(s, m, i, open, path, dirty)
  }

  ghost predicate TablesOk(s: State) {
    && GlobalOk(s)
    && (forall d, l :: d in s.mods && l in s.mods[d].listeners ==> ListenerOk(s, d, l))
    && (forall k: nat :: k < |s.calls| ==> CallOk(s, k))
    && (forall f :: f in s.forced ==> ForcedOk(s, f))
  }

  ghost predicate Inv(s: State, open: set<Slot>, path: set<Id>, dirty: set<Id>) {
    ModulesOk(s, dirty) && SlotsOk(s, open, path, dirty) && TablesOk(s)
  }

  ghost predicate NoneEnabling(s: State) {
    forall m :: m in s.mods ==> !s.mods[m].enabling
  }

  /** Between two operations: no emit, no cycle breaking and no enabling is in progress, and every
      `require` call has been initialised and enabled. */
  ghost predicate Quiet(s: State) {
    && Inv(s, {}, {}, {})
    && NoneEnabling(s)
    && (forall m :: m in s.mods && m.Req? ==> s.mods[m].inited && s.mods[m].enabled)
  }

  /** No enabled module is still waiting for its definition. */
  ghost predicate AllReady(s: State) {
    forall m :: m in s.mods && m in s.enabledRegistry ==> s.mods[m].inited
  }

  /** Every `require` call has been answered. */
  ghost predicate AllAnswered(s: State) {
    forall m :: m in s.mods && m.Req? ==> s.mods[m].defined
  }

  // ----- what happens over time -----

  /** Nothing that was achieved is undone, and a module keeps its definition. */
  ghost predicate KeptRecord(M: Module, N: Module) {
    && M.deps == N.deps && M.inited == N.inited
    && (M.inited ==> M.factory == N.factory)
    && |M.depMatched| == |N.depMatched| == |M.deps| == |M.depExports| == |N.depExports|
    && (M.enabled ==> N.enabled)
    && (M.defined ==> N.defined && N.exports == M.exports)
    && (forall i :: 0 <= i < |M.deps| && M.depMatched[i] ==> N.depMatched[i] && N.depExports[i] == M.depExports[i])
  }

  ghost predicate Kept(s: State, t: State, m: Id)
    requires m in s.mods
  {
    m in t.mods && KeptRecord(s.mods[m], t.mods[m])
  }

  ghost predicate Progress(s: State, t: State) {
    && (forall m :: m in s.mods ==> Kept(s, t, m))
    && (forall m :: m in t.mods && m !in s.mods ==> !t.mods[m].inited && m.Named?)
    && s.calls <= t.calls
    && s.forced <= t.forced
    && s.requireCounter <= t.requireCounter
  }

  /** What every public operation keeps: definitions, what is defined, and the log of calls. */
  ghost predicate Grows(s: State, t: State) {
    && (forall m :: m in s.mods ==>
          && m in t.mods
          && (s.mods[m].inited ==> t.mods[m].inited && t.mods[m].deps == s.mods[m].deps
                                   && t.mods[m].factory == s.mods[m].factory)
          && (s.mods[m].defined ==> t.mods[m].defined && t.mods[m].exports == s.mods[m].exports))
    && s.calls <= t.calls && s.forced <= t.forced && s.requireCounter <= t.requireCounter
  }

  /** No module but id gets to know its dependencies. */
  ghost predicate OnlyInits(s: State, t: State, id: Id) {
    forall m :: m in t.mods && m != id && t.mods[m].inited ==> m in s.mods && s.mods[m].inited
  }

  ghost predicate Inited(s: State, id: Id) {
    id in s.mods && s.mods[id].inited
  }

  ghost predicate DefinedAs(s: State, id: Id, deps: seq<Dep>, factory: Factory) {
    Inited(s, id) && s.mods[id].deps == deps && s.mods[id].factory == factory
  }

  /** Some module whose dependencies are known depends on m. */
  ghost predicate Wanted(s: State, m: Id) {
    m.Named? && exists a :: Inited(s, a) && On(m.name) in s.mods[a].deps
  }

  /** New modules whose dependencies are not known are there because something depends on them. */
  ghost predicate NewWanted(s: State, t: State) {
    forall m :: m in t.mods && m !in s.mods && !t.mods[m].inited ==> Wanted(t, m)
  }

  ghost predicate AllWanted(s: State) {
    forall m :: m in s.mods && !s.mods[m].inited ==> m.Req? || Wanted(s, m)
  }

  ghost predicate SameRole(M: Module, N: Module) {
    && M.enabled == N.enabled && M.enabling == N.enabling
    && M.wired == N.wired && M.listeners == N.listeners
    && (M.defineEmitted ==> N.defineEmitted)
  }

  /** The frame of `check` and `emit`: they create and enable no module and force no edge. */
  ghost predicate OnlyChecks(s: State, t: State) {
    && s.mods.Keys == t.mods.Keys
    && s.forced == t.forced && s.requireCounter == t.requireCounter
    && (forall m :: m in s.mods ==> SameRole(s.mods[m], t.mods[m]))
  }

  /** The frame of `enable` on module id. */
  ghost predicate OnlyEnables(s: State, t: State, id: Id) {
    && s.mods.Keys <= t.mods.Keys
    && s.forced == t.forced && s.requireCounter == t.requireCounter
    && (forall m :: m in s.mods && m != id ==>
          && s.mods[m].enabling == t.mods[m].enabling
          && (s.mods[m].enabling ==> s.mods[m].wired == t.mods[m].wired))
    && (forall m :: m in t.mods && m !in s.mods && m != id ==> !t.mods[m].enabling)
  }

  /** Modules whose dependencies are known but not enabled yet. */
  ghost function Sleeping(s: State): set<Id> {
    set m | m in s.mods && s.mods[m].inited && !s.mods[m].enabled
  }

  ghost function Unemitted(s: State): set<Id> {
    set m | m in s.mods && !s.mods[m].defineEmitted
  }

  ghost function PathSet(p: seq<Id>): set<Id> {
    set x | x in p
  }

  ghost function ListenersFrom(s: State, d: Id, k: nat): set<Slot>
    requires d in s.mods && k <= |s.mods[d].listeners|
  {
    set l | l in s.mods[d].listeners[k..]
  }
}
