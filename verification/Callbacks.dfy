/** `jQuery.Callbacks`: a list of functions that may change while it is being fired. */
module Callbacks {
  import opened Wrappers

  /** A function in the list. Functions are compared by `fn`; `serial` numbers the additions, so that
      one can speak of "this addition", and is never looked at by the code. */
  datatype Entry = Entry(fn: nat, serial: nat)

  /** The arguments of a call. */
  type Args = seq<int>

  /** An invocation of a listed function. */
  datatype Call = Call(entry: Entry, args: Args)

  datatype Options = Options(once: bool, memory: bool, unique: bool, stopOnFalse: bool)

  function Without(es: seq<Entry>, fn: nat): seq<Entry> {
    if es == [] then []
    else Without(es[..|es| - 1], fn) + (if es[|es| - 1].fn == fn then [] else [es[|es| - 1]])
  }

  function WithoutAll(es: seq<Entry>, fns: seq<nat>): seq<Entry> {
    if fns == [] then es else Without(WithoutAll(es, fns[..|fns| - 1]), fns[|fns| - 1])
  }

  predicate Contains(es: seq<Entry>, fn: nat) {
    exists k :: 0 <= k < |es| && es[k].fn == fn
  }

  /** The entries that `add` appends to a list. */
  function Added(list: seq<Entry>, fns: seq<nat>, unique: bool, serial: nat): seq<Entry>
    decreases |fns|
  {
    if fns == [] then []
    else if unique && Contains(list, fns[0]) then Added(list, fns[1..], unique, serial)
    else [Entry(fns[0], serial)] + Added(list + [Entry(fns[0], serial)], fns[1..], unique, serial + 1)
  }

  /** No function is listed twice. */
  ghost predicate Unique(list: seq<Entry>) {
    forall i, k :: 0 <= i < k < |list| ==> list[i].fn != list[k].fn
  }

  lemma ContainsMore(list: seq<Entry>, more: seq<Entry>)
    ensures forall fn :: Contains(list + more, fn) <==> Contains(list, fn) || Contains(more, fn)
  {
    forall fn ensures Contains(list + more, fn) <==> Contains(list, fn) || Contains(more, fn) {
      if k :| 0 <= k < |list| && list[k].fn == fn { assert (list + more)[k].fn == fn; }
      if k :| 0 <= k < |more| && more[k].fn == fn { assert (list + more)[|list| + k].fn == fn; }
    }
  }

  /** All functions that were given join the list, in the order given. */
  lemma {:induction false} AddedPlain(list: seq<Entry>, fns: seq<nat>, serial: nat)
    ensures var added := Added(list, fns, false, serial);
            |added| == |fns| && forall k :: 0 <= k < |fns| ==> added[k] == Entry(fns[k], serial + k)
    decreases |fns|
  {
    if fns != [] { AddedPlain(list + [Entry(fns[0], serial)], fns[1..], serial + 1); }
  }

  /** In a list of unique functions, those that are listed already are passed over, and so are repetitions:
      afterwards each is listed, and none twice. */
  lemma {:induction false} AddedUnique(list: seq<Entry>, fns: seq<nat>, serial: nat)
    ensures var added := Added(list, fns, true, serial);
            && (forall fn :: Contains(list + added, fn) <==> Contains(list, fn) || fn in fns)
            && (Unique(list) ==> Unique(list + added))
    decreases |fns|
  {
    if fns == [] {
      assert list + [] == list;
    } else {
      assert fns == [fns[0]] + fns[1..];
      if Contains(list, fns[0]) {
        AddedUnique(list, fns[1..], serial);
      } else {
        var first := [Entry(fns[0], serial)];
        AddedUnique(list + first, fns[1..], serial + 1);
        ContainsMore(list, first);
        assert first[0].fn == fns[0];
        assert list + (first + Added(list + first, fns[1..], true, serial + 1))
            == list + first + Added(list + first, fns[1..], true, serial + 1);
        hide Added;
        assert Unique(list) ==> Unique(list + first);
      }
    }
  }

  lemma {:induction false} WithoutConcat(a: seq<Entry>, b: seq<Entry>, fn: nat)
    ensures Without(a + b, fn) == Without(a, fn) + Without(b, fn)
  {
    if b == [] {
      assert a + b == a;
    } else {
      WithoutConcat(a, b[..|b| - 1], fn);
      assert (a + b)[..|a + b| - 1] == a + b[..|b| - 1];
    }
  }

  lemma {:induction false} WithoutNothing(es: seq<Entry>, fn: nat)
    requires !Contains(es, fn)
    ensures Without(es, fn) == es
  {
    if es != [] {
      WithoutNothing(es[..|es| - 1], fn);
      assert es[..|es| - 1] + [es[|es| - 1]] == es;
    }
  }

  lemma WithoutSpliced(es: seq<Entry>, i: nat, fn: nat)
    requires i < |es| && es[i].fn == fn
    ensures Without(es[..i] + es[i + 1..], fn) == Without(es, fn)
    ensures es[i] in es && forall e :: e in es[..i] + es[i + 1..] ==> e in es
  {
    WithoutConcat(es[..i], es[i + 1..], fn);
    WithoutConcat(es[..i + 1], es[i + 1..], fn);
    assert es[..i + 1][..i] == es[..i] && es[..i + 1] + es[i + 1..] == es;
  }

  lemma {:induction false} WithoutSubset(es: seq<Entry>, fn: nat)
    ensures |Without(es, fn)| <= |es| && forall e :: e in Without(es, fn) ==> e in es
  {
    if es != [] { WithoutSubset(es[..|es| - 1], fn); }
  }

  lemma {:induction false} WithoutAllSubset(es: seq<Entry>, fns: seq<nat>)
    ensures |WithoutAll(es, fns)| <= |es| && forall e :: e in WithoutAll(es, fns) ==> e in es
  {
    if fns != [] {
      WithoutAllSubset(es, fns[..|fns| - 1]);
      WithoutSubset(WithoutAll(es, fns[..|fns| - 1]), fns[|fns| - 1]);
    }
  }

  /** The additions that wait in the queue and are among the given functions. */
  function Taken(queue: seq<Entry>, fns: seq<nat>): set<nat> {
    set k | 0 <= k < |queue| && queue[k].fn in fns :: queue[k].serial
  }

  lemma {:induction false} WithoutMembers(es: seq<Entry>, fn: nat)
    ensures forall e :: e in Without(es, fn) <==> e in es && e.fn != fn
  {
    if es != [] {
      WithoutMembers(es[..|es| - 1], fn);
      assert es == es[..|es| - 1] + [es[|es| - 1]];
    }
  }

  lemma {:induction false} WithoutAllMembers(es: seq<Entry>, fns: seq<nat>)
    ensures forall e :: e in WithoutAll(es, fns) <==> e in es && e.fn !in fns
  {
    if fns != [] {
      WithoutAllMembers(es, fns[..|fns| - 1]);
      WithoutMembers(WithoutAll(es, fns[..|fns| - 1]), fns[|fns| - 1]);
      assert fns == fns[..|fns| - 1] + [fns[|fns| - 1]];
    }
  }

  /** Addition s was waiting in the queue and is one of the given functions. */
  ghost predicate TakenFrom(queue: seq<Entry>, fns: seq<nat>, s: nat) {
    exists e :: e in queue && e.serial == s && e.fn in fns
  }

  lemma TakenMore(queue: seq<Entry>, q: seq<Entry>, fns: seq<nat>, k: nat, s: nat, before: bool)
    requires k < |fns| && forall e :: e in q ==> e in queue
    requires if before then TakenFrom(queue, fns[..k], s) else TakenFrom(q, [fns[k]], s)
    ensures TakenFrom(queue, fns[..k + 1], s)
  {
    var e :| e in queue && e.serial == s && e.fn in if before then fns[..k] else [fns[k]];
    assert fns[..k + 1] == fns[..k] + [fns[k]];
    assert e.fn in fns[..k + 1];
  }

  // ----- the ledger: where every addition has gone -----

  predicate InLog(log: seq<Call>, s: nat) {
    exists k :: 0 <= k < |log| && log[k].entry.serial == s
  }

  predicate InQueue(queue: seq<Entry>, s: nat) {
    exists k :: 0 <= k < |queue| && queue[k].serial == s
  }

  /** Of the first `serial` additions, each is in exactly one place: called, still to be called, or
      dropped; and the calls happen in the order of the additions, never twice. */
  ghost predicate Ledger(log: seq<Call>, queue: seq<Entry>, dropped: set<nat>, serial: nat) {
    && (forall j, k :: 0 <= j < k < |log| ==> log[j].entry.serial < log[k].entry.serial)
    && (forall j, k :: 0 <= j < k < |queue| ==> queue[j].serial < queue[k].serial)
    && (forall j, k :: 0 <= j < |log| && 0 <= k < |queue| ==> log[j].entry.serial < queue[k].serial)
    && (forall k :: 0 <= k < |log| ==> log[k].entry.serial < serial && log[k].entry.serial !in dropped)
    && (forall k :: 0 <= k < |queue| ==> queue[k].serial < serial && queue[k].serial !in dropped)
    && (forall s :: s in dropped ==> s < serial)
    && (forall s: nat :: s < serial ==> InLog(log, s) || InQueue(queue, s) || s in dropped)
  }

  function Serials(es: seq<Entry>): set<nat> {
    set k | 0 <= k < |es| :: es[k].serial
  }

  lemma NobodyLost(log: seq<Call>, queue: seq<Entry>, args: Args, s: nat)
    requires queue != [] && (InLog(log, s) || InQueue(queue, s))
    ensures InLog(log + [Call(queue[0], args)], s) || InQueue(queue[1..], s)
  {
    var log' := log + [Call(queue[0], args)];
    if InLog(log, s) {
      var k :| 0 <= k < |log| && log[k].entry.serial == s;
      assert log'[k].entry.serial == s;
    } else {
      var k :| 0 <= k < |queue| && queue[k].serial == s;
      if k == 0 { assert log'[|log|].entry.serial == s; } else { assert queue[1..][k - 1].serial == s; }
    }
  }

  lemma LedgerCall(log: seq<Call>, queue: seq<Entry>, dropped: set<nat>, serial: nat, args: Args)
    requires queue != [] && Ledger(log, queue, dropped, serial)
    ensures Ledger(log + [Call(queue[0], args)], queue[1..], dropped, serial)
  {
    hide InLog, InQueue;
    forall s: nat | s < serial && s !in dropped
      ensures InLog(log + [Call(queue[0], args)], s) || InQueue(queue[1..], s)
    {
      NobodyLost(log, queue, args, s);
    }
  }

  lemma LedgerAdd(log: seq<Call>, queue: seq<Entry>, dropped: set<nat>, serial: nat, fn: nat)
    requires Ledger(log, queue, dropped, serial)
    ensures Ledger(log, queue + [Entry(fn, serial)], dropped, serial + 1)
  {
    var queue' := queue + [Entry(fn, serial)];
    forall s: nat | s < serial + 1 ensures InLog(log, s) || InQueue(queue', s) || s in dropped {
      if s == serial {
        assert queue'[|queue|].serial == s;
      } else if InQueue(queue, s) {
        var k :| 0 <= k < |queue| && queue[k].serial == s;
        assert queue'[k].serial == s;
      }
    }
  }

  /** The additions of one `add` join the queue, in order. */
  lemma {:induction false} LedgerAddAll(log: seq<Call>, queue: seq<Entry>, dropped: set<nat>, serial: nat,
                                        list: seq<Entry>, fns: seq<nat>, unique: bool)
    requires Ledger(log, queue, dropped, serial)
    ensures var added := Added(list, fns, unique, serial);
            Ledger(log, queue + added, dropped, serial + |added|)
    decreases |fns|
  {
    hide Ledger;
    if fns == [] {
      assert queue + [] == queue;
    } else if unique && Contains(list, fns[0]) {
      LedgerAddAll(log, queue, dropped, serial, list, fns[1..], unique);
    } else {
      var e := Entry(fns[0], serial);
      LedgerAdd(log, queue, dropped, serial, fns[0]);
      LedgerAddAll(log, queue + [e], dropped, serial + 1, list + [e], fns[1..], unique);
      var rest := Added(list + [e], fns[1..], unique, serial + 1);
      assert queue + ([e] + rest) == queue + [e] + rest;
    }
  }

  lemma AddedStep(l: seq<Entry>, fns: seq<nat>, k: nat, unique: bool, serial: nat)
    requires k < |fns|
    ensures Added(l, fns[k..], unique, serial) ==
            if unique && Contains(l, fns[k]) then Added(l, fns[k + 1..], unique, serial)
            else [Entry(fns[k], serial)] + Added(l + [Entry(fns[k], serial)], fns[k + 1..], unique, serial + 1)
  {
    assert fns[k..][1..] == fns[k + 1..];
  }

  lemma LedgerRemove(log: seq<Call>, queue: seq<Entry>, dropped: set<nat>, serial: nat, i: nat)
    requires i < |queue| && Ledger(log, queue, dropped, serial)
    ensures Ledger(log, queue[..i] + queue[i + 1..], dropped + {queue[i].serial}, serial)
  {
    hide InLog;
    var queue' := queue[..i] + queue[i + 1..];
    forall k | 0 <= k < |queue'| ensures queue'[k] == queue[if k < i then k else k + 1] {
    }
    forall s: nat | s < serial && InQueue(queue, s) && s != queue[i].serial ensures InQueue(queue', s) {
      var k :| 0 <= k < |queue| && queue[k].serial == s;
      assert queue'[if k < i then k else k - 1].serial == s;
    }
  }

  /** The books leave no choice: what has left the queue without being called was dropped. */
  lemma TakenExactly(log: seq<Call>, queue: seq<Entry>, fns: seq<nat>,
                     dropped: set<nat>, dropped': set<nat>, serial: nat)
    requires Ledger(log, queue, dropped, serial) && Ledger(log, WithoutAll(queue, fns), dropped', serial)
    ensures dropped' == dropped + Taken(queue, fns)
  {
    var left := WithoutAll(queue, fns);
    WithoutAllMembers(queue, fns);
    hide WithoutAll;
    forall s: nat ensures s in dropped' <==> s in dropped || s in Taken(queue, fns) {
      LedgerPlaces(log, queue, dropped, serial, s);
      LedgerPlaces(log, left, dropped', serial, s);
      if InQueue(queue, s) {
        var k :| 0 <= k < |queue| && queue[k].serial == s;
        forall e | e in queue ensures e.serial == s ==> e == queue[k] {
          SameEntry(log, queue, dropped, serial, queue[k], e);
        }
        assert queue[k].fn !in fns ==> queue[k] in left;
        hide Ledger;
      }
    }
  }

  lemma SameEntry(log: seq<Call>, queue: seq<Entry>, dropped: set<nat>, serial: nat, d: Entry, e: Entry)
    requires Ledger(log, queue, dropped, serial) && d in queue && e in queue
    ensures d.serial == e.serial ==> d == e
  {
    var j :| 0 <= j < |queue| && queue[j] == d;
    var k :| 0 <= k < |queue| && queue[k] == e;
  }

  /** Every addition is in exactly one place. */
  lemma LedgerPlaces(log: seq<Call>, queue: seq<Entry>, dropped: set<nat>, serial: nat, s: nat)
    requires Ledger(log, queue, dropped, serial)
    ensures s in dropped <==> s < serial && !InLog(log, s) && !InQueue(queue, s)
    ensures !(InLog(log, s) && InQueue(queue, s))
  {
  }

  lemma LedgerDrop(log: seq<Call>, queue: seq<Entry>, dropped: set<nat>, serial: nat)
    requires Ledger(log, queue, dropped, serial)
    ensures Ledger(log, [], dropped + Serials(queue), serial)
  {
  }

  ghost predicate SameArgs(log: seq<Call>, args: Args) {
    forall k :: 0 <= k < |log| ==> log[k].args == args
  }

  /** All calls were made with the same arguments, those that are remembered or still in use. */
  ghost predicate OneRound(log: seq<Call>, memory: Option<Args>, data: Option<Args>, fired: bool) {
    && (!fired ==> log == [] && memory.None?)
    && (memory.Some? ==> SameArgs(log, memory.value))
    && (data.Some? ==> SameArgs(log, data.value) && log != [])
    && (log != [] ==> SameArgs(log, log[0].args))
  }

  /** What the ledger is about, at one moment. */
  datatype Books = Books(onceMemory: bool, list: Option<seq<Entry>>, firing: bool, firingIndex: int, fired: bool,
                         memory: Option<Args>, data: Args, log: seq<Call>, dropped: set<nat>, serial: nat) {

    /** The entries whose turn is still to come in the current round, or, between rounds, the list. */
    ghost function Queue(): seq<Entry> {
      QueueOf(list, firing, firingIndex)
    }

    /** The running function has not been cut off from the list. */
    ghost predicate Intact() {
      firing && list.Some? ==> -1 <= firingIndex < |list.value|
    }

    /** A "once memory" list with its books in order: the ledger balances, nothing waits between
        rounds, and all calls were made with the same, memorised arguments. */
    ghost predicate InOrder() {
      && onceMemory && Intact()
      && Ledger(log, Queue(), dropped, serial)
      && (fired && !firing && list.Some? ==> list.value == [] && memory.Some?)
      && OneRound(log, memory, if firing then Some(data) else None, fired)
    }

    /** The books balance just before the function at `firingIndex` is called. */
    ghost predicate Balanced() {
      && onceMemory && firing && fired && firingIndex >= 0 && SameArgs(log, data)
      && (memory.Some? ==> memory.value == data)
      && if list.None? then Ledger(log, [], dropped, serial) && log != []
         else firingIndex <= |list.value| && Ledger(log, list.value[firingIndex..], dropped, serial)
    }
  }

  function QueueOf(list: Option<seq<Entry>>, firing: bool, firingIndex: int): seq<Entry> {
    if list.None? then []
    else if !firing then list.value
    else if 0 <= firingIndex + 1 <= |list.value| then list.value[firingIndex + 1..]
    else []
  }

  lemma BooksCall(b: Books, c: Books)
    requires b.list.Some? && 0 <= b.firingIndex < |b.list.value| && b.firing
    requires c == b.(log := b.log + [Call(b.list.value[b.firingIndex], b.data)])
    ensures b.Balanced() ==> c.InOrder()
  {
    if b.Balanced() {
      var upcoming := b.list.value[b.firingIndex..];
      assert upcoming[1..] == c.Queue() && upcoming[0] == b.list.value[b.firingIndex];
      LedgerCall(b.log, upcoming, b.dropped, b.serial, b.data);
    }
  }

  lemma NoneQueued(b: Books)
    ensures b.list.None? ==> Serials(b.Queue()) == {}
  {
  }

  /** The round is over: the list keeps its memory and is emptied, or is disabled. */
  lemma BooksFinish(b: Books, c: Books, rest: set<nat>)
    requires c == b.(list := if b.list.Some? && b.memory.Some? then Some([]) else None, firing := false,
                     memory := if b.list.Some? then b.memory else None, dropped := b.dropped + rest)
    ensures (b.onceMemory && b.fired && SameArgs(b.log, b.data) && (b.memory.Some? ==> b.memory.value == b.data)
             && Ledger(b.log, [], b.dropped + rest, b.serial)) ==> c.InOrder()
  {
  }

  lemma LongerSuffix(l: seq<Entry>, added: seq<Entry>, i: int)
    ensures 0 <= i <= |l| ==> (l + added)[i..] == l[i..] + added
  {
  }

  lemma BooksAdd(b: Books, c: Books, fns: seq<nat>, unique: bool)
    requires b.list.Some?
    requires var added := Added(b.list.value, fns, unique, b.serial);
             c == b.(list := Some(b.list.value + added), serial := b.serial + |added|)
    ensures b.InOrder() && (b.firing || b.memory.None?) ==> c.InOrder()
    ensures b.InOrder() && !b.firing && b.memory.Some? ==>
              Ledger(c.log, c.list.value, c.dropped, c.serial) && SameArgs(c.log, c.memory.value)
    ensures b.Intact() ==> c.Queue() == b.Queue() + Added(b.list.value, fns, unique, b.serial)
  {
    hide Added, Ledger;
    var added := Added(b.list.value, fns, unique, b.serial);
    if b.Intact() {
      LongerSuffix(b.list.value, added, b.firingIndex + 1);
      assert c.Queue() == b.Queue() + added;
    }
    if b.InOrder() {
      LedgerAddAll(b.log, b.Queue(), b.dropped, b.serial, b.list.value, fns, unique);
    }
  }

  lemma BooksDisable(b: Books, c: Books)
    requires c == b.(list := None, memory := None, dropped := b.dropped + Serials(b.Queue()))
    ensures b.InOrder() ==> c.InOrder()
  {
    if b.InOrder() { LedgerDrop(b.log, b.Queue(), b.dropped, b.serial); }
  }

  lemma BooksEmpty(b: Books, c: Books)
    requires c == b.(list := Some([]), dropped := b.dropped + Serials(b.Queue()))
    ensures b.InOrder() && b.list.Some? && !b.firing ==> c.InOrder()
  {
    if b.InOrder() { LedgerDrop(b.log, b.Queue(), b.dropped, b.serial); }
  }

  /** Taking one entry out of the list. */
  lemma BooksSplice(b: Books, c: Books, index: nat)
    requires b.list.Some? && index < |b.list.value| && b.Intact()
    requires var i := if b.firing then index - b.firingIndex - 1 else index;
             c == b.(list := Some(b.list.value[..index] + b.list.value[index + 1..]),
                     firingIndex := if b.firing && index <= b.firingIndex then b.firingIndex - 1 else b.firingIndex,
                     dropped := if i >= 0 then b.dropped + {b.list.value[index].serial} else b.dropped)
    ensures b.InOrder() ==> c.InOrder()
    ensures c.Intact()
    ensures var i := if b.firing then index - b.firingIndex - 1 else index;
            if i < 0 then c.Queue() == b.Queue()
            else && i < |b.Queue()| && b.Queue()[i] == b.list.value[index]
                 && c.Queue() == b.Queue()[..i] + b.Queue()[i + 1..]
  {
    var i := if b.firing then index - b.firingIndex - 1 else index;
    if i < 0 {
      assert c.Queue() == b.Queue();
    } else {
      assert c.Queue() == b.Queue()[..i] + b.Queue()[i + 1..];
      if b.InOrder() { LedgerRemove(b.log, b.Queue(), b.dropped, b.serial, i); }
    }
  }

  class CallbackList {
    const options: Options
    var firing: bool
    var memory: Option<Args>
    var fired: bool
    var firingLength: int
    var firingIndex: int
    var firingStart: nat
    var list: Option<seq<Entry>>
    var stack: Option<seq<Args>>
    // the arguments of the round in progress
    var data: Args
    // every invocation so far
    var log: seq<Call>
    // the number of additions so far
    var serial: nat
    // additions taken out of the list before their turn
    ghost var dropped: set<nat>

    /** While the list is firing, a function is running: the one at `firingIndex`, unless it has been
        removed meanwhile. `firingLength` is then always the length of the list. */
    ghost predicate Valid()
      reads this
    {
      && (options.once ==> stack.None?)
      && (if firing then fired && firingIndex >= -1 && (list.Some? ==> firingLength == |list.value|)
          else stack.Some? ==> stack.value == [])
      && (firing && memory.Some? ==> memory.value == data)
      && (options.once && !firing && memory.Some? && list.Some? ==> list.value == [])
      && firingStart == 0
      && (list.None? ==> stack.None? && memory.None?)
      && (!fired ==> memory.None?)
      && (!options.memory ==> memory.None?)
    }

    /** A snapshot for the books. */
    ghost function B(): Books
      reads this
    {
      Books(options.once && options.memory, list, firing, firingIndex, fired, memory, data, log, dropped, serial)
    }

    constructor (options: Options)
      ensures this.options == options && Valid()
      ensures !firing && !fired && memory == None && list == Some([]) && log == [] && serial == 0 && dropped == {}
      ensures stack == if options.once then None else Some([])
      ensures options.once && options.memory ==> B().InOrder()
    {
      this.options := options;
      firing, memory, fired, firingLength, firingIndex, firingStart := false, None, false, 0, 0, 0;
      list, stack, data, log, serial, dropped := Some([]), if options.once then None else Some([]), [], [], 0, {};
    }

    // ----- firing -----

    /** Function number i of list l has just been called. */
    ghost predicate Called(l: seq<Entry>, i: nat, args: Args, log0: seq<Call>, stack0: Option<seq<Args>>)
      requires i < |l|
      reads this
    {
      && firing && list == Some(l) && firingIndex == i && stack == stack0 && data == args
      && log == log0 + [Call(l[i], args)]
    }

    /** What is remembered of a round with the given arguments. */
    ghost predicate Remembers(args: Args, remembered: bool)
      reads this
    {
      memory == if remembered then Some(args) else None
    }

    /** A round over l has ended: a waiting fire starts the next one, a list that can fire only once
        keeps its memory or is disabled. The arguments of the round stay remembered until there is a next
        one; over an empty list, the waiting fires are remembered one after the other. */
    ghost predicate RoundEnded(l: seq<Entry>, args: Args, remembered: bool,
                               log0: seq<Call>, stack0: Option<seq<Args>>)
      reads this
    {
      if stack0.None? then
        && !firing && log == log0 && stack.None? && list == (if remembered then Some([]) else None)
        && Remembers(args, remembered)
      else if stack0.value == [] then
        !firing && log == log0 && stack == Some([]) && list == Some(l) && Remembers(args, remembered)
      else if l == [] then
        && !firing && log == log0 && stack == Some([]) && list == Some(l)
        && Remembers(stack0.value[|stack0.value| - 1], options.memory)
      else
        && Called(l, 0, stack0.value[0], log0, Some(stack0.value[1..]))
        && Remembers(stack0.value[0], options.memory)
    }

    ghost predicate RoundFrom(l: seq<Entry>, i: nat, args: Args, remembered: bool,
                              log0: seq<Call>, stack0: Option<seq<Args>>)
      reads this
    {
      if i < |l| then Called(l, i, args, log0, stack0) && Remembers(args, remembered)
      else RoundEnded(l, args, remembered, log0, stack0)
    }

    /** Starts a round over the list from index `firingStart` on. */
    method Fire(args: Args)
      requires list.Some? && firingStart <= |list.value| && !firing && (options.once ==> stack.None?)
      requires options.once && options.memory ==> firingStart == 0
      modifies this
      ensures Valid() && fired && serial == old(serial) && dropped == old(dropped)
      ensures RoundFrom(old(list.value), old(firingStart), args, options.memory, old(log), old(stack))
      ensures options.memory && old(stack.None?) ==> memory == Some(args)
      ensures old(options.once && options.memory && Ledger(log, list.value, dropped, serial) && SameArgs(log, args)) ==>
                B().InOrder()
      decreases if stack.Some? then |stack.value| else 0, 2
    {
      hide Ledger;
      memory := if options.memory then Some(args) else None;
      fired := true;
      firingIndex := firingStart;
      firingStart := 0;
      firingLength := |list.value|;
      firing := true;
      data := args;
      assert list.value[0..] == list.value;
      Advance();
    }

    /** The head of the firing loop: calls the next function, or ends the round. */
    method Advance()
      requires firing && fired && firingIndex >= 0 && firingStart == 0 && (options.once ==> stack.None?)
      requires list.Some? ==> firingLength == |list.value|
      requires memory.Some? ==> memory.value == data
      requires (!options.memory ==> memory.None?) && (list.None? ==> stack.None? && memory.None?)
      modifies this
      ensures Valid() && fired && serial == old(serial) && dropped == old(dropped)
      ensures old(list.Some?) ==>
                RoundFrom(old(list.value), old(firingIndex), old(data), old(memory.Some?), old(log), old(stack))
      ensures old(list.Some? && stack.None?) ==> memory == old(memory)
      ensures old(list.None?) ==> !firing && list.None? && log == old(log) && stack == old(stack)
      ensures old(B()).Balanced() ==> B().InOrder()
      decreases if stack.Some? then |stack.value| else 0, 1
    {
      ghost var b := B();
      if list.Some? && firingIndex < firingLength {
        log := log + [Call(list.value[firingIndex], data)];
        BooksCall(b, B());
      } else {
        assert list.Some? && firingIndex <= |list.value| ==> list.value[firingIndex..] == [];
        assert dropped + {} == dropped;
        hide Ledger;
        Finish({});
      }
    }

    /** What follows the firing loop; `rest` are the additions that the loop did not reach. */
    method Finish(ghost rest: set<nat>)
      requires rest == {} || (list.Some? && memory.None? && stack.None?)
      requires firing && fired && firingStart == 0 && (options.once ==> stack.None?)
      requires memory.Some? ==> memory.value == data
      requires (!options.memory ==> memory.None?) && (list.None? ==> stack.None? && memory.None?)
      modifies this
      ensures Valid() && fired && serial == old(serial) && dropped == old(dropped) + rest
      ensures old(list.Some?) ==>
                RoundEnded(old(list.value), old(data), old(memory.Some?), old(log), old(stack))
      ensures old(list.Some? && stack.None?) ==> memory == old(memory)
      ensures old(list.None?) ==> !firing && list.None? && log == old(log) && stack == old(stack)
      ensures Ledger(old(log), [], old(dropped) + rest, old(serial)) ==>
                old(options.once && options.memory && SameArgs(log, data)) ==> B().InOrder()
      decreases if stack.Some? then |stack.value| else 0, 0
    {
      hide Ledger;
      ghost var b := B();
      firing := false;
      assert dropped + {} == dropped;
      if list.Some? {
        if stack.Some? {
          if stack.value != [] {
            var next := stack.value[0];
            stack := Some(stack.value[1..]);
            Fire(next);
          }
        } else if memory.Some? {
          list := Some([]);
          BooksFinish(b, B(), rest);
        } else {
          Disable(rest);
          BooksFinish(b, B(), rest);
        }
      } else {
        BooksFinish(b, B(), rest);
      }
    }

    /** `disable`: the list stays silent from now on. `rest` are the additions that lose their turn. */
    method Disable(ghost rest: set<nat>)
      modifies this`list, this`stack, this`memory, this`dropped
      ensures list.None? && stack.None? && memory.None? && dropped == old(dropped) + rest
    {
      list, stack, memory := None, None, None;
      dropped := dropped + rest;
    }

    /** The running function returns; `returnedFalse` tells whether it returned false. */
    method Return(returnedFalse: bool)
      requires Valid() && firing
      modifies this
      ensures Valid() && fired && serial == old(serial)
      ensures old(list.None?) ==> !firing && list.None? && log == old(log) && stack == old(stack)
      ensures returnedFalse && options.stopOnFalse && old(list.Some?) ==>
                RoundEnded(old(list.value), old(data), false, old(log), old(stack))
      ensures !(returnedFalse && options.stopOnFalse) && old(list.Some?) ==>
                && RoundFrom(old(list.value), old(firingIndex) + 1, old(data), old(memory.Some?), old(log), old(stack))
                && (old(stack.None?) ==> memory == old(memory))
      // who is silenced by a false loses its turn
      ensures dropped == old(dropped) + (if returnedFalse && options.stopOnFalse && old(stack.None?)
                                         then Serials(old(B()).Queue()) else {})
      ensures old(B()).InOrder() ==> B().InOrder()
    {
      hide Ledger;
      ghost var b := B();
      if returnedFalse && options.stopOnFalse {
        memory := None;
        ghost var rest := if stack.None? then Serials(b.Queue()) else {};
        NoneQueued(b);
        if b.InOrder() { LedgerDrop(log, b.Queue(), dropped, serial); }
        Finish(rest);
      } else {
        firingIndex := firingIndex + 1;
        assert b.InOrder() && list.Some? ==> list.value[firingIndex..] == b.Queue();
        assert b.InOrder() ==> B().Balanced();
        Advance();
      }
    }

    // ----- changing the list -----

    /** `add`. */
    method Add(fns: seq<nat>)
      requires Valid()
      modifies this
      ensures Valid() && fired == old(fired) && dropped == old(dropped)
      ensures old(list.Some?) ==> serial == old(serial) + |Added(old(list.value), fns, options.unique, old(serial))|
      ensures old(list.None?) ==>
                list.None? && log == old(log) && serial == old(serial) && firing == old(firing) && data == old(data)
      // during a round: the additions join it; before the first round: they wait for it
      ensures old(list.Some? && (firing || memory.None?)) ==>
                && list == Some(old(list.value) + Added(old(list.value), fns, options.unique, old(serial)))
                && log == old(log) && firing == old(firing) && firingIndex == old(firingIndex)
                && stack == old(stack) && memory == old(memory) && data == old(data)
                && (old(B()).Intact() ==>
                      B().Queue() == old(B()).Queue() + Added(old(list.value), fns, options.unique, old(serial)))
      // after a remembered round: they get a round of their own, at once
      ensures old(list.Some? && !firing && memory.Some?) ==>
                RoundFrom(old(list.value) + Added(old(list.value), fns, options.unique, old(serial)), |old(list.value)|,
                          old(memory.value), true, old(log), old(stack))
                && (old(stack.None?) ==> memory == old(memory))
      ensures old(B()).InOrder() ==> B().InOrder()
    {
      if list.Some? {
        ghost var b := B();
        var start := |list.value|;
        Push(fns);
        BooksAdd(b, B(), fns, options.unique);
        hide Ledger, Added, OneRound;
        if firing {
          firingLength := |list.value|;
        } else if memory.Some? {
          firingStart := start;
          Fire(memory.value);
        }
      }
    }

    /** Appends functions to the list, skipping known ones in a list of unique functions. */
    method Push(fns: seq<nat>)
      requires list.Some?
      modifies this`list, this`serial
      ensures list.Some?
      ensures var added := Added(old(list.value), fns, options.unique, old(serial));
              list.value == old(list.value) + added && serial == old(serial) + |added|
    {
      ghost var l0, serial0 := list.value, serial;
      assert fns[0..] == fns;
      for k := 0 to |fns|
        invariant list.Some?
        invariant var rest := Added(list.value, fns[k..], options.unique, serial);
                  var added := Added(l0, fns, options.unique, serial0);
                  list.value + rest == l0 + added && serial + |rest| == serial0 + |added|
      {
        ghost var l, n := list.value, serial;
        AddedStep(l, fns, k, options.unique, n);
        if !options.unique || !Contains(list.value, fns[k]) {
          list := Some(list.value + [Entry(fns[k], serial)]);
          serial := serial + 1;
        }
      }
    }

    /** Takes every occurrence of the given functions out of the list. A round in progress goes on with
        the functions that remain. */
    method Remove(fns: seq<nat>)
      requires Valid()
      modifies this`list, this`firingLength, this`firingIndex, this`dropped
      ensures Valid() && log == old(log) && firing == old(firing)
      ensures old(list.None?) ==> list.None?
      ensures old(list.Some?) ==> list == Some(WithoutAll(old(list.value), fns))
      ensures old(list.Some?) ==> forall e :: e in list.value <==> e in old(list.value) && e.fn !in fns
      ensures old(B()).Intact() ==> B().Intact() && B().Queue() == WithoutAll(old(B()).Queue(), fns)
      ensures forall s :: s in dropped && s !in old(dropped) ==> TakenFrom(old(B()).Queue(), fns, s)
      // exactly the functions that still waited for their turn lose it
      ensures old(B()).InOrder() ==> B().InOrder() && dropped == old(dropped) + Taken(old(B()).Queue(), fns)
    {
      WithoutAllSubset([], fns);
      if list.Some? {
        WithoutAllMembers(list.value, fns);
        hide Ledger, OneRound;
        ghost var b := B();
        for k := 0 to |fns|
          invariant Valid() && list.Some?
          invariant list == Some(WithoutAll(b.list.value, fns[..k]))
          invariant b.Intact() ==> B().Intact() && B().Queue() == WithoutAll(b.Queue(), fns[..k])
          invariant forall s :: s in dropped && s !in b.dropped ==> TakenFrom(b.Queue(), fns[..k], s)
          invariant !b.Intact() ==> !B().Intact() && dropped == b.dropped
          invariant b.InOrder() ==> B().InOrder()
        {
          assert fns[..k + 1][..k] == fns[..k];
          ghost var c := B();
          RemoveOne(fns[k]);
          if b.Intact() {
            WithoutAllSubset(b.Queue(), fns[..k]);
            forall s | s in dropped && s !in b.dropped ensures TakenFrom(b.Queue(), fns[..k + 1], s) {
              TakenMore(b.Queue(), c.Queue(), fns, k, s, s in c.dropped);
            }
          }
        }
        assert fns[..|fns|] == fns;
        if b.InOrder() { TakenExactly(b.log, b.Queue(), fns, b.dropped, dropped, serial); }
      } else {
        assert B().Queue() == [];
      }
    }

    method RemoveOne(fn: nat)
      requires Valid() && list.Some?
      modifies this`list, this`firingLength, this`firingIndex, this`dropped
      ensures Valid() && list == Some(Without(old(list.value), fn))
      ensures old(B()).Intact() ==> B().Intact() && B().Queue() == Without(old(B()).Queue(), fn)
      ensures forall s :: s in dropped && s !in old(dropped) ==> TakenFrom(old(B()).Queue(), [fn], s)
      ensures !old(B()).Intact() ==> !B().Intact() && dropped == old(dropped)
      ensures old(B()).InOrder() ==> B().InOrder()
    {
      hide Ledger, OneRound, Removing, Spliced, QueueOf, Books.InOrder, Books.Intact, Without, TakenFrom;
      RemovingNothing(B(), fn);
      var index := 0;
      while true
        invariant Valid() && list.Some? && index <= |list.value|
        invariant !Contains(list.value[..index], fn)
        invariant Without(list.value, fn) == Without(old(list.value), fn)
        invariant Removing(old(B()), B(), fn)
        decreases |list.value| - index
      {
        while index < |list.value| && list.value[index].fn != fn
          invariant index <= |list.value| && !Contains(list.value[..index], fn)
        {
          index := index + 1;
        }
        if index == |list.value| {
          break;
        }
        ghost var b := B();
        Splice(index);
        SplicedMeans(b, B(), index);
        WithoutSpliced(b.list.value, index, fn);
        StillRemoving(old(B()), b, B(), fn, index);
      }
      assert list.value[..index] == list.value;
      WithoutNothing(list.value, fn);
      AllRemoved(old(B()), B(), fn);
    }

    /** `list.splice(index, 1)`, with the indices of the round adjusted. */
    method Splice(index: nat)
      requires Valid() && list.Some? && index < |list.value|
      modifies this`list, this`firingLength, this`firingIndex, this`dropped
      ensures Valid() && Spliced(old(B()), B(), index)
    {
      if (firing ==> firingIndex < |list.value|) && (firing ==> index > firingIndex) {
        dropped := dropped + {list.value[index].serial};
      }
      list := Some(list.value[..index] + list.value[index + 1..]);
      if firing {
        if index <= firingLength {
          firingLength := firingLength - 1;
        }
        if index <= firingIndex {
          firingIndex := firingIndex - 1;
        }
      }
    }

    method FireWith(args: Args)
      requires Valid()
      modifies this
      ensures Valid()
      ensures old(list.None? || (fired && stack.None?)) ==>
                && Unchanged(old(list), old(log), old(stack))
                && fired == old(fired) && firing == old(firing) && memory == old(memory) && data == old(data)
                && firingIndex == old(firingIndex)
      ensures old(list.Some? && firing && stack.Some?) ==>
                && Unchanged(old(list), old(log), Some(old(stack.value) + [args]))
                && fired && firing && memory == old(memory) && data == old(data) && firingIndex == old(firingIndex)
      ensures old(list.Some? && !firing && (!fired || stack.Some?)) ==>
                && fired && RoundFrom(old(list.value), 0, args, options.memory, old(log), old(stack))
                && (options.memory && old(stack.None?) ==> memory == Some(args))
      ensures serial == old(serial) && dropped == old(dropped) && (old(B()).InOrder() ==> B().InOrder())
    {
      if list.Some? && (!fired || stack.Some?) {
        if firing {
          stack := Some(stack.value + [args]);
        } else {
          Fire(args);
        }
      }
    }

    ghost predicate Unchanged(list0: Option<seq<Entry>>, log0: seq<Call>, stack0: Option<seq<Args>>)
      reads this
    {
      list == list0 && log == log0 && stack == stack0
    }

    /** `lock`: no further rounds; without a remembered round, the list is disabled. */
    method Lock()
      requires Valid()
      modifies this
      ensures Valid() && log == old(log) && fired == old(fired) && firing == old(firing)
      ensures stack.None? && (if old(memory.Some?) then list == old(list) else list.None?)
      ensures serial == old(serial) && memory == old(memory) && data == old(data) && firingIndex == old(firingIndex)
      ensures dropped == old(dropped) + (if old(memory.Some?) then {} else Serials(old(B()).Queue()))
      ensures old(B()).InOrder() ==> B().InOrder()
    {
      ghost var b := B();
      stack := None;
      if memory.None? {
        Disable(Serials(b.Queue()));
        BooksDisable(b, B());
      }
    }

    method DisableList()
      requires Valid()
      modifies this
      ensures Valid() && list.None? && log == old(log) && fired == old(fired) && firing == old(firing)
      ensures serial == old(serial) && dropped == old(dropped) + Serials(old(B()).Queue()) && data == old(data)
      ensures old(B()).InOrder() ==> B().InOrder()
    {
      ghost var b := B();
      Disable(Serials(b.Queue()));
      BooksDisable(b, B());
    }

    /** `empty`. The books stay in order unless a function is running or the list was disabled. */
    method Empty()
      requires Valid()
      modifies this
      ensures Valid() && list == Some([]) && log == old(log) && firing == old(firing) && B().Queue() == []
      ensures fired == old(fired) && stack == old(stack) && memory == old(memory) && data == old(data)
      ensures serial == old(serial) && dropped == old(dropped) + Serials(old(B()).Queue())
      ensures old(B()).InOrder() && old(list.Some?) && !firing ==> B().InOrder()
    {
      ghost var b := B();
      dropped := dropped + Serials(b.Queue());
      list := Some([]);
      firingLength := 0;
      BooksEmpty(b, B());
    }
  }

  /** `empty` makes a new list even of a disabled one: if that was never fired, it can be fired after all. */
  method Revived(fn: nat, args: Args) returns (l: CallbackList)
    ensures |l.log| == 1 && l.log[0].entry.fn == fn && l.log[0].args == args
  {
    l := new CallbackList(Options(true, true, false, false));
    l.DisableList();
    l.Empty();
    l.Add([fn]);
    assert Added([], [fn], false, 0) == [Entry(fn, 0)] by { AddedStep([], [fn], 0, false, 0); }
    l.FireWith(args);
  }

  /** What taking out entry number `index` does. */
  ghost predicate Spliced(b: Books, c: Books, index: nat) {
    && b.list.Some? && index < |b.list.value|
    && c == b.(list := Some(b.list.value[..index] + b.list.value[index + 1..]),
               firingIndex := if b.firing && index <= b.firingIndex then b.firingIndex - 1 else b.firingIndex,
               dropped := if (b.firing ==> b.firingIndex < |b.list.value| && index > b.firingIndex)
                          then b.dropped + {b.list.value[index].serial} else b.dropped)
  }

  /** Function fn is being taken out, entry by entry. */
  ghost predicate Removing(b: Books, c: Books, fn: nat) {
    && (b.Intact() ==> c.Intact() && Without(c.Queue(), fn) == Without(b.Queue(), fn)
                       && forall e :: e in c.Queue() ==> e in b.Queue())
    && (forall s :: s in c.dropped && s !in b.dropped ==> TakenFrom(b.Queue(), [fn], s))
    && (!b.Intact() ==> !c.Intact() && c.dropped == b.dropped)
    && (b.InOrder() ==> c.InOrder())
  }

  lemma RemovingNothing(b: Books, fn: nat)
    ensures Removing(b, b, fn)
  {
  }

  lemma SplicedMeans(b: Books, c: Books, index: nat)
    requires Spliced(b, c, index)
    ensures b.list.Some? && index < |b.list.value|
    ensures c.list == Some(b.list.value[..index] + b.list.value[index + 1..])
    ensures c.list.value[..index] == b.list.value[..index]
  {
  }

  lemma AllRemoved(b: Books, c: Books, fn: nat)
    requires Removing(b, c, fn) && c.list.Some? && !Contains(c.list.value, fn)
    ensures b.Intact() ==> c.Intact() && c.Queue() == Without(b.Queue(), fn)
    ensures forall s :: s in c.dropped && s !in b.dropped ==> TakenFrom(b.Queue(), [fn], s)
    ensures !b.Intact() ==> !c.Intact() && c.dropped == b.dropped
    ensures b.InOrder() ==> c.InOrder()
  {
    hide Books.InOrder;
    assert !Contains(c.Queue(), fn);
    WithoutNothing(c.Queue(), fn);
  }

  lemma StillRemoving(b: Books, c: Books, d: Books, fn: nat, index: nat)
    requires Removing(b, c, fn) && Spliced(c, d, index) && c.list.value[index].fn == fn
    requires c.firing ==> c.firingIndex >= -1
    ensures Removing(b, d, fn)
  {
    if c.Intact() {
      BooksSplice(c, d, index);
      var i := if c.firing then index - c.firingIndex - 1 else index;
      if i >= 0 {
        WithoutSpliced(c.Queue(), i, fn);
        assert c.Queue()[i] in b.Queue();
      }
    }
  }

  lemma LedgerAtEnd(log: seq<Call>, dropped: set<nat>, serial: nat, s: nat)
    requires Ledger(log, [], dropped, serial) && s < serial && s !in dropped
    ensures InLog(log, s)
    ensures forall j, k :: 0 <= j < k < |log| ==> log[j].entry.serial < log[k].entry.serial
  {
  }

  /** How often addition s was called. */
  function TimesCalled(log: seq<Call>, s: nat): nat {
    if log == [] then 0
    else TimesCalled(log[..|log| - 1], s) + (if log[|log| - 1].entry.serial == s then 1 else 0)
  }

  lemma {:induction false} CalledOnceIfListed(log: seq<Call>, s: nat)
    requires forall j, k :: 0 <= j < k < |log| ==> log[j].entry.serial < log[k].entry.serial
    ensures TimesCalled(log, s) == if InLog(log, s) then 1 else 0
  {
    if log != [] {
      var init, last := log[..|log| - 1], log[|log| - 1];
      CalledOnceIfListed(init, s);
      if InLog(log, s) && last.entry.serial != s {
        var k :| 0 <= k < |log| && log[k].entry.serial == s;
        assert init[k].entry.serial == s;
      }
      if InLog(init, s) {
        var k :| 0 <= k < |init| && init[k].entry.serial == s;
        assert log[k].entry.serial == s;
      }
    }
  }

  /** Once the round is over, every addition that was not taken out before its turn has been called
      exactly once; the calls happened in the order of the additions, all with the same arguments. */
  lemma ExactlyOnce(b: Books, s: nat)
    requires b.InOrder() && b.fired && !b.firing && s < b.serial && s !in b.dropped
    ensures TimesCalled(b.log, s) == 1
    ensures forall j, k :: 0 <= j < k < |b.log| ==> b.log[j].entry.serial < b.log[k].entry.serial
    ensures forall k :: 0 <= k < |b.log| ==> b.log[k].args == b.log[0].args
  {
    LedgerAtEnd(b.log, b.dropped, b.serial, s);
    hide Ledger;
    CalledOnceIfListed(b.log, s);
  }

  /** At no moment has an addition been called twice, nor one that was taken out before its turn. */
  lemma AtMostOnce(b: Books, s: nat)
    requires b.InOrder()
    ensures TimesCalled(b.log, s) <= 1
    ensures s in b.dropped || InQueue(b.Queue(), s) ==> TimesCalled(b.log, s) == 0
  {
    CalledOnceIfListed(b.log, s);
  }

  /** During a round, additions join it exactly if the running function has not been cut off from the
      list: after `empty` has run inside a round, what is then added is listed but not called. */
  lemma AddJoinsRound(b: Books, c: Books, added: seq<Entry>)
    requires b.firing && b.firingIndex >= -1 && b.list.Some?
    requires c == b.(list := Some(b.list.value + added), serial := b.serial + |added|)
    ensures c.Queue() == b.Queue() + added <==> added == [] || b.Intact()
  {
    var i := b.firingIndex + 1;
    if i <= |b.list.value| {
      assert c.list.value[i..] == b.list.value[i..] + added;
    }
  }
}
