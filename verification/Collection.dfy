/** `Backbone.Collection`: an ordered list of models with an index by id and cid. */
module Collection {
  import opened Wrappers
  import opened Lists

  type Cid = nat
  type Attrs = map<string, int>

  /** Keys of the index. Ids and cids are assumed never to coincide. */
  datatype Key = ById(id: nat) | ByCid(cid: Cid)

  type Index = map<Key, Cid>

  /** A model object, or a bare attribute hash; `valid` tells whether a new model made from the hash
      passes its own validation. */
  datatype Input = Instance(cid: Cid) | Hash(id: Option<nat>, attrs: Attrs, valid: bool)

  // ----- the index -----

  /** The index knows exactly the given models, under their cids and ids. */
  ghost predicate IndexOk(byId: Index, idOf: map<Cid, Option<nat>>, members: seq<Cid>) {
    && (forall c :: c in members ==> MemberOk(byId, idOf, c))
    && (forall k :: k in byId ==> KeyOk(byId, idOf, members, k))
  }

  ghost predicate MemberOk(byId: Index, idOf: map<Cid, Option<nat>>, c: Cid) {
    && c in idOf && ByCid(c) in byId && byId[ByCid(c)] == c
    && (idOf[c].Some? ==> ById(idOf[c].value) in byId && byId[ById(idOf[c].value)] == c)
  }

  ghost predicate KeyOk(byId: Index, idOf: map<Cid, Option<nat>>, members: seq<Cid>, k: Key)
    requires k in byId
  {
    var c := byId[k];
    c in members && match k case ByCid(d) => d == c case ById(i) => c in idOf && idOf[c] == Some(i)
  }

  /** What `get` finds for an input of `set` or `remove`. */
  function Lookup(byId: Index, idOf: map<Cid, Option<nat>>, input: Input): Option<Cid> {
    var id := match input
              case Instance(c) => if c in idOf then idOf[c] else None
              case Hash(id, _, _) => id;
    if id.Some? && ById(id.value) in byId then Some(byId[ById(id.value)])
    else if input.Instance? && ByCid(input.cid) in byId then Some(byId[ByCid(input.cid)])
    else None
  }

  /** The same question, answered by looking through the list of models. */
  function Scan(models: seq<Cid>, idOf: map<Cid, Option<nat>>, input: Input): Option<Cid> {
    if models == [] then None
    else
      var c := models[0];
      if (input.Instance? && (input.cid == c
                              || (c in idOf && idOf[c].Some? && input.cid in idOf && idOf[input.cid] == idOf[c])))
         || (input.Hash? && c in idOf && input.id.Some? && idOf[c] == input.id)
      then Some(c)
      else Scan(models[1..], idOf, input)
  }

  /** A scan finds a model that is the object given or has the id given, the first in the list, or there is
      none. */
  lemma {:induction false} ScanMeans(models: seq<Cid>, idOf: map<Cid, Option<nat>>, input: Input)
    requires (forall c :: c in models ==> c in idOf) && (input.Instance? ==> input.cid in idOf)
    ensures var wanted := if input.Instance? then idOf[input.cid] else input.id;
            match Scan(models, idOf, input)
            case Some(e) => e in models && (input == Instance(e) || (wanted.Some? && idOf[e] == wanted))
            case None =>
              forall c :: c in models ==> input != Instance(c) && !(wanted.Some? && idOf[c] == wanted)
  {
    if models != [] { ScanMeans(models[1..], idOf, input); }
  }

  /** In a list without duplicates, at most one model fits an input. */
  lemma {:induction false} ScanFinds(models: seq<Cid>, byId: Index, idOf: map<Cid, Option<nat>>,
                                     input: Input, from: nat)
    requires IndexOk(byId, idOf, models) && from <= |models|
    requires input.Instance? ==> input.cid in idOf
    requires forall j :: 0 <= j < from ==> Some(models[j]) != Lookup(byId, idOf, input)
    ensures Scan(models[from..], idOf, input) == Lookup(byId, idOf, input)
    decreases |models| - from
  {
    if Lookup(byId, idOf, input).Some? { LookupIsMember(byId, idOf, models, input); }
    if from < |models| {
      var c := models[from];
      assert c in models && MemberOk(byId, idOf, c);
      if Some(c) != Lookup(byId, idOf, input) {
        ScanFinds(models, byId, idOf, input, from + 1);
        assert models[from..][1..] == models[from + 1..];
      }
    }
  }

  // ----- taking in the inputs of `set` -----

  /** The variables of the first loop of `set`; `idOf` and `data` are the fields of the model objects. */
  datatype Intake = Intake(byId: Index, idOf: map<Cid, Option<nat>>, data: map<Cid, Attrs>, nextCid: Cid,
                           reps: seq<Option<Cid>>, // the model that stands for each input
                           toAdd: seq<Cid>, seen: set<Cid>)

  datatype SetOptions = SetOptions(add: bool, merge: bool, remove: bool)

  const DEFAULTS := SetOptions(true, true, true)

  function AttrsOf(data: map<Cid, Attrs>, input: Input): Attrs {
    match input
    case Instance(c) => if c in data then data[c] else map[]
    case Hash(_, attrs, _) => attrs
  }

  function Enter(s: Intake, c: Cid, id: Option<nat>): Intake {
    s.(byId := if id.Some? then s.byId[ByCid(c) := c][ById(id.value) := c] else s.byId[ByCid(c) := c],
       toAdd := s.toAdd + [c],
       reps := s.reps + [Some(c)])
  }

  /** One turn of the loop. */
  function TakeIn(s: Intake, input: Input, o: SetOptions): Intake {
    match Lookup(s.byId, s.idOf, input)
    case Some(e) =>
      s.(reps := s.reps + [Some(e)],
         seen := if o.remove then s.seen + {e} else s.seen,
         data := if o.merge && e in s.data then s.data[e := s.data[e] + AttrsOf(s.data, input)] else s.data)
    case None =>
      if !o.add then s.(reps := s.reps + [None])
      else
        match input
        case Instance(c) => Enter(s, c, if c in s.idOf then s.idOf[c] else None)
        case Hash(id, attrs, valid) =>
          if !valid then s.(reps := s.reps + [None])
          else
            var c := s.nextCid;
            Enter(s.(idOf := s.idOf[c := id], data := s.data[c := attrs], nextCid := c + 1), c, id)
  }

  function TakeAll(s: Intake, inputs: seq<Input>, o: SetOptions): Intake {
    if inputs == [] then s else TakeIn(TakeAll(s, inputs[..|inputs| - 1], o), inputs[|inputs| - 1], o)
  }

  /** What holds throughout the loop: the index covers the old and the new models; `seen` and `toAdd`
      together are the models that stand for some input. */
  ghost predicate IntakeOk(s: Intake, models: seq<Cid>, o: SetOptions) {
    && IndexOk(s.byId, s.idOf, models + s.toAdd)
    && NoDup(models + s.toAdd)
    && (forall c :: c in s.idOf ==> c < s.nextCid)
    && s.idOf.Keys == s.data.Keys
    && (forall c :: c in models + s.toAdd ==> c in s.idOf)
    && (forall k :: 0 <= k < |s.reps| && s.reps[k].Some? ==>
          s.reps[k].value in models + s.toAdd && (o.remove ==> s.reps[k].value in s.seen || s.reps[k].value in s.toAdd))
    && (forall c :: c in s.toAdd || c in s.seen ==> Some(c) in s.reps)
  }

  /** A collection before `set`. */
  ghost predicate Ready(s: Intake, models: seq<Cid>) {
    && IndexOk(s.byId, s.idOf, models) && NoDup(models)
    && s.reps == [] && s.toAdd == [] && s.seen == {}
    && s.idOf.Keys == s.data.Keys && forall c :: c in s.idOf ==> c < s.nextCid
  }

  lemma EnterKeeps(s: Intake, models: seq<Cid>, o: SetOptions, c: Cid, id: Option<nat>)
    requires IntakeOk(s, models, o) && c in s.idOf && s.idOf[c] == id
    requires ByCid(c) !in s.byId && (id.Some? ==> ById(id.value) !in s.byId)
    ensures IntakeOk(Enter(s, c, id), models, o)
  {
    var t := Enter(s, c, id);
    var members, members' := models + s.toAdd, models + t.toAdd;
    assert members' == members + [c];
    assert c !in members;
    forall x | x in members' ensures MemberOk(t.byId, t.idOf, x) {
      if x != c { assert MemberOk(s.byId, s.idOf, x); }
    }
    forall k | k in t.byId ensures KeyOk(t.byId, t.idOf, members', k) {
      if k in s.byId { assert KeyOk(s.byId, s.idOf, members, k); }
    }
    assert Some(c) == t.reps[|s.reps|];
  }

  lemma CreateKeeps(s: Intake, models: seq<Cid>, o: SetOptions, id: Option<nat>, attrs: Attrs)
    requires IntakeOk(s, models, o)
    ensures IntakeOk(s.(idOf := s.idOf[s.nextCid := id], data := s.data[s.nextCid := attrs], nextCid := s.nextCid + 1),
                     models, o)
    ensures ByCid(s.nextCid) !in s.byId
  {
    var c := s.nextCid;
    var t := s.(idOf := s.idOf[c := id], data := s.data[c := attrs], nextCid := c + 1);
    var members := models + s.toAdd;
    forall x | x in members ensures MemberOk(t.byId, t.idOf, x) {
      assert MemberOk(s.byId, s.idOf, x);
    }
    forall k | k in t.byId ensures KeyOk(t.byId, t.idOf, members, k) {
      assert KeyOk(s.byId, s.idOf, members, k);
    }
  }

  lemma FoundKeeps(s: Intake, models: seq<Cid>, o: SetOptions, e: Cid, data: map<Cid, Attrs>)
    requires IntakeOk(s, models, o) && e in models + s.toAdd && data.Keys == s.data.Keys
    ensures IntakeOk(s.(reps := s.reps + [Some(e)], seen := if o.remove then s.seen + {e} else s.seen, data := data),
                     models, o)
  {
    hide IndexOk, NoDup;
    var reps := s.reps + [Some(e)];
    assert reps[|s.reps|] == Some(e);
    assert forall c :: Some(c) in s.reps ==> Some(c) in reps;
  }

  lemma NoneKeeps(s: Intake, models: seq<Cid>, o: SetOptions)
    requires IntakeOk(s, models, o)
    ensures IntakeOk(s.(reps := s.reps + [None]), models, o)
  {
    hide IndexOk, NoDup;
    assert forall r :: r in s.reps ==> r in s.reps + [None];
  }

  lemma TakeInKeeps(s: Intake, models: seq<Cid>, o: SetOptions, input: Input)
    requires IntakeOk(s, models, o) && (input.Instance? ==> input.cid in s.idOf)
    ensures IntakeOk(TakeIn(s, input, o), models, o)
    ensures forall c :: c in s.idOf ==> c in TakeIn(s, input, o).idOf && TakeIn(s, input, o).idOf[c] == s.idOf[c]
  {
    hide IndexOk, NoDup, IntakeOk;
    IntakeMeans(s, models, o);
    var t := TakeIn(s, input, o);
    match Lookup(s.byId, s.idOf, input)
    case Some(e) =>
      LookupIsMember(s.byId, s.idOf, models + s.toAdd, input);
      FoundKeeps(s, models, o, e, t.data);
    case None =>
      NoneKeeps(s, models, o);
      if o.add {
        match input
        case Instance(c) => EnterKeeps(s, models, o, c, s.idOf[c]);
        case Hash(id, attrs, valid) =>
          if valid {
            CreateKeeps(s, models, o, id, attrs);
            EnterKeeps(s.(idOf := s.idOf[s.nextCid := id], data := s.data[s.nextCid := attrs],
                          nextCid := s.nextCid + 1),
                       models, o, s.nextCid, id);
          }
      }
  }

  predicate Known(inputs: seq<Input>, idOf: map<Cid, Option<nat>>) {
    forall k :: 0 <= k < |inputs| && inputs[k].Instance? ==> inputs[k].cid in idOf
  }

  lemma {:induction false} TakeAllKeeps(s: Intake, models: seq<Cid>, o: SetOptions, inputs: seq<Input>)
    requires IntakeOk(s, models, o) && Known(inputs, s.idOf)
    ensures IntakeOk(TakeAll(s, inputs, o), models, o)
    ensures |TakeAll(s, inputs, o).reps| == |s.reps| + |inputs|
    ensures forall c :: c in s.idOf ==> c in TakeAll(s, inputs, o).idOf && TakeAll(s, inputs, o).idOf[c] == s.idOf[c]
  {
    if inputs != [] {
      var last := |inputs| - 1;
      TakeAllKeeps(s, models, o, inputs[..last]);
      TakeInKeeps(TakeAll(s, inputs[..last], o), models, o, inputs[last]);
    }
  }

  // ----- removing -----

  /** The index entries of models that are gone. */
  function Unindexed(byId: Index, gone: set<Cid>): Index {
    map k | k in byId && byId[k] !in gone :: byId[k]
  }

  lemma UnindexedOk(byId: Index, idOf: map<Cid, Option<nat>>, members: seq<Cid>, gone: set<Cid>)
    requires IndexOk(byId, idOf, members)
    ensures IndexOk(Unindexed(byId, gone), idOf, Without(members, gone))
  {
    WithoutMembers(members, gone);
    forall c | c in Without(members, gone) ensures MemberOk(Unindexed(byId, gone), idOf, c) {
      assert MemberOk(byId, idOf, c);
    }
    forall k | k in Unindexed(byId, gone) ensures KeyOk(Unindexed(byId, gone), idOf, Without(members, gone), k) {
      assert KeyOk(byId, idOf, members, k);
    }
  }

  /** Deleting the id and the cid of a model deletes every entry for it. */
  lemma DeleteKeys(byId: Index, idOf: map<Cid, Option<nat>>, members: seq<Cid>, c: Cid)
    requires IndexOk(byId, idOf, members) && c in members && c in idOf
    ensures (if idOf[c].Some? then byId - {ById(idOf[c].value)} else byId) - {ByCid(c)} == Unindexed(byId, {c})
  {
    assert MemberOk(byId, idOf, c);
    var deleted := (if idOf[c].Some? then byId - {ById(idOf[c].value)} else byId) - {ByCid(c)};
    forall k ensures k in deleted <==> k in Unindexed(byId, {c}) {
      if k in byId { assert KeyOk(byId, idOf, members, k); }
    }
  }

  /** Removing other models does not change what is found, except that it may be gone. */
  lemma LookupUnindexed(byId: Index, idOf: map<Cid, Option<nat>>, members: seq<Cid>, gone: set<Cid>, input: Input)
    requires IndexOk(byId, idOf, members) && (input.Instance? ==> input.cid in idOf)
    ensures var l := Lookup(byId, idOf, input);
            Lookup(Unindexed(byId, gone), idOf, input) == if l.Some? && l.value in gone then None else l
  {
    if input.Instance? && ByCid(input.cid) in byId {
      assert KeyOk(byId, idOf, members, ByCid(input.cid));
      assert MemberOk(byId, idOf, input.cid);
    }
  }

  /** The models that a `remove` call names. */
  function Named(byId: Index, idOf: map<Cid, Option<nat>>, inputs: seq<Input>): set<Cid> {
    set k | 0 <= k < |inputs| && Lookup(byId, idOf, inputs[k]).Some? :: Lookup(byId, idOf, inputs[k]).value
  }

  /** The input is the model itself, or has its id. */
  predicate Fits(idOf: map<Cid, Option<nat>>, input: Input, c: Cid) {
    var id := match input
              case Instance(d) => if d in idOf then idOf[d] else None
              case Hash(id, _, _) => id;
    input == Instance(c) || (id.Some? && c in idOf && idOf[c] == id)
  }

  lemma LookupFits(byId: Index, idOf: map<Cid, Option<nat>>, members: seq<Cid>, input: Input, c: Cid)
    requires IndexOk(byId, idOf, members) && (input.Instance? ==> input.cid in idOf) && c in members
    ensures Lookup(byId, idOf, input) == Some(c) <==> Fits(idOf, input, c)
  {
    assert MemberOk(byId, idOf, c);
    if Lookup(byId, idOf, input).Some? { LookupIsMember(byId, idOf, members, input); }
  }

  /** The models that some input fits. */
  lemma NamedMeans(byId: Index, idOf: map<Cid, Option<nat>>, members: seq<Cid>, inputs: seq<Input>)
    requires IndexOk(byId, idOf, members) && Known(inputs, idOf)
    ensures forall c :: c in members ==>
              (c in Named(byId, idOf, inputs) <==> exists k :: 0 <= k < |inputs| && Fits(idOf, inputs[k], c))
  {
    forall c | c in members
      ensures c in Named(byId, idOf, inputs) <==> exists k :: 0 <= k < |inputs| && Fits(idOf, inputs[k], c)
    {
      forall k | 0 <= k < |inputs|
        ensures Lookup(byId, idOf, inputs[k]) == Some(c) <==> Fits(idOf, inputs[k], c)
      {
        InstanceKnown(inputs, idOf, k);
        LookupFits(byId, idOf, members, inputs[k], c);
      }
    }
    hide Lookup, Fits, IndexOk;
  }

  // ----- lists without duplicates -----

  function Members(s: seq<Cid>): set<Cid> {
    set c | c in s
  }

  lemma {:induction false} NoDupSize(s: seq<Cid>)
    ensures |s| >= |Members(s)|
    ensures |s| == |Members(s)| <==> NoDup(s)
  {
    if s != [] {
      var init, last := s[..|s| - 1], s[|s| - 1];
      NoDupSize(init);
      NoDupSnoc(init, last);
      assert s == init + [last];
      hide NoDup;
      assert Members(s) == Members(init) + {last};
    }
  }

  lemma MembersSnoc(s: seq<Cid>, t: seq<Cid>, c: Cid)
    ensures Members(s + (t + [c])) == Members(s + t) + {c}
  {
  }

  lemma NoDupSnoc(s: seq<Cid>, c: Cid)
    ensures NoDup(s + [c]) <==> NoDup(s) && c !in s
  {
    var t := s + [c];
    if NoDup(t) {
      assert forall i :: 0 <= i < |s| ==> t[i] == s[i] && t[i] != t[|s|];
    }
  }

  /** A list with the same members as a list without duplicates is at least as long, and exactly as
      long if and only if it has no duplicates either. */
  lemma SameMembers(s: seq<Cid>, t: seq<Cid>)
    requires NoDup(s) && forall c :: c in s <==> c in t
    ensures |s| <= |t| && (|s| == |t| <==> NoDup(t))
  {
    NoDupSize(s);
    NoDupSize(t);
    assert Members(s) == Members(t);
  }

  function Somes(reps: seq<Option<Cid>>): seq<Cid> {
    if reps == [] then []
    else Somes(reps[..|reps| - 1]) + (if reps[|reps| - 1].Some? then [reps[|reps| - 1].value] else [])
  }

  lemma SomesSnoc(reps: seq<Option<Cid>>, rep: Option<Cid>)
    ensures Somes(reps + [rep]) == Somes(reps) + (if rep.Some? then [rep.value] else [])
  {
    assert (reps + [rep])[..|reps|] == reps;
  }

  lemma {:induction false} SomesMembers(reps: seq<Option<Cid>>)
    ensures forall c :: c in Somes(reps) <==> Some(c) in reps
  {
    if reps != [] {
      SomesMembers(reps[..|reps| - 1]);
      assert reps == reps[..|reps| - 1] + [reps[|reps| - 1]];
    }
  }

  // ----- what stands for an input -----

  function IdOf(input: Input, idOf: map<Cid, Option<nat>>): Option<nat> {
    match input
    case Instance(c) => if c in idOf then idOf[c] else None
    case Hash(id, _, _) => id
  }

  /** Two inputs name the same model: the same object, or equal ids. */
  predicate Same(x: Input, y: Input, idOf: map<Cid, Option<nat>>) {
    || (x.Instance? && y.Instance? && x.cid == y.cid)
    || (IdOf(x, idOf).Some? && IdOf(x, idOf) == IdOf(y, idOf))
  }

  /** The model for the last input, just taken in. */
  ghost predicate RepOk(t: Intake, input: Input, k: nat, from: Cid)
    requires k < |t.reps|
  {
    t.reps[k].Some? ==>
      var c := t.reps[k].value;
      && c in t.idOf && t.idOf[c] == IdOf(input, t.idOf)
      && (input.Instance? && IdOf(input, t.idOf).None? ==> c == input.cid)
      && (input.Hash? && input.id.None? ==> c >= from && Some(c) !in t.reps[..k])
  }

  lemma RepStep(s: Intake, models: seq<Cid>, o: SetOptions, input: Input, from: Cid)
    requires IntakeOk(s, models, o) && (input.Instance? ==> input.cid in s.idOf) && from <= s.nextCid
    ensures RepOk(TakeIn(s, input, o), input, |s.reps|, from)
  {
    var t := TakeIn(s, input, o);
    match Lookup(s.byId, s.idOf, input)
    case Some(e) =>
      LookupIsMember(s.byId, s.idOf, models + s.toAdd, input);
      assert MemberOk(s.byId, s.idOf, e);
      var k := if IdOf(input, s.idOf).Some? && ById(IdOf(input, s.idOf).value) in s.byId
               then ById(IdOf(input, s.idOf).value) else ByCid(input.cid);
      assert KeyOk(s.byId, s.idOf, models + s.toAdd, k);
    case None =>
      assert t.reps[..|s.reps|] == s.reps;
  }

  lemma TakeInGrows(s: Intake, input: Input, o: SetOptions)
    ensures var t := TakeIn(s, input, o);
            && |t.reps| == |s.reps| + 1 && t.reps[..|s.reps|] == s.reps && t.nextCid >= s.nextCid
  {
  }

  lemma {:induction false} NextCidGrows(s: Intake, inputs: seq<Input>, o: SetOptions)
    ensures s.nextCid <= TakeAll(s, inputs, o).nextCid
  {
    if inputs != [] { NextCidGrows(s, inputs[..|inputs| - 1], o); }
  }

  /** A later input does not change what holds of an earlier one. */
  lemma RepStays(t: Intake, u: Intake, input: Input, k: nat, from: Cid)
    requires k < |t.reps| && RepOk(t, input, k, from) && |u.reps| == |t.reps| + 1 && u.reps[..|t.reps|] == t.reps
    requires forall c :: c in t.idOf ==> c in u.idOf && u.idOf[c] == t.idOf[c]
    requires input.Instance? ==> input.cid in t.idOf
    ensures RepOk(u, input, k, from)
  {
    assert u.reps[..k] == u.reps[..|t.reps|][..k];
    assert u.reps[k] == u.reps[..|t.reps|][k];
  }

  predicate Extends(idOf: map<Cid, Option<nat>>, before: map<Cid, Option<nat>>) {
    forall c :: c in before ==> c in idOf && idOf[c] == before[c]
  }

  /** The last turn of the loop. */
  lemma LastTurn(s: Intake, models: seq<Cid>, o: SetOptions, inputs: seq<Input>)
    requires IntakeOk(s, models, o) && Known(inputs, s.idOf) && inputs != []
    ensures var last := |inputs| - 1;
            var t := TakeAll(s, inputs[..last], o);
            && IntakeOk(t, models, o) && Extends(t.idOf, s.idOf) && t.nextCid >= s.nextCid
            && Known(inputs[..last], s.idOf) && (inputs[last].Instance? ==> inputs[last].cid in s.idOf)
            && TakeAll(s, inputs, o) == TakeIn(t, inputs[last], o)
            && Extends(TakeAll(s, inputs, o).idOf, t.idOf)
            && |t.reps| == |s.reps| + last
  {
    var init := inputs[..|inputs| - 1];
    assert forall j :: 0 <= j < |init| ==> init[j] == inputs[j];
    TakeAllKeeps(s, models, o, init);
    NextCidGrows(s, init, o);
    var t := TakeAll(s, init, o);
    TakeInKeeps(t, models, o, inputs[|inputs| - 1]);
    hide IntakeOk, TakeIn, Lookup;
  }

  lemma {:induction false} RepsOk(s: Intake, models: seq<Cid>, o: SetOptions, inputs: seq<Input>, k: nat)
    requires IntakeOk(s, models, o) && Known(inputs, s.idOf) && s.reps == [] && k < |inputs|
    ensures |TakeAll(s, inputs, o).reps| == |inputs| && RepOk(TakeAll(s, inputs, o), inputs[k], k, s.nextCid)
  {
    hide *;
    var last := |inputs| - 1;
    var init := inputs[..last];
    var t, u := TakeAll(s, init, o), TakeAll(s, inputs, o);
    LastTurn(s, models, o, inputs);
    InstanceKnown(inputs, s.idOf, k);
    InstanceKnown(inputs, s.idOf, last);
    ExtendsMeans(t.idOf, s.idOf);
    ExtendsMeans(u.idOf, t.idOf);
    TakeInGrows(t, inputs[last], o);
    if k < last {
      RepsOk(s, models, o, init, k);
      assert init[k] == inputs[k];
      RepStays(t, u, inputs[k], k, s.nextCid);
    } else {
      RepStep(t, models, o, inputs[last], s.nextCid);
    }
  }

  lemma InstanceKnown(inputs: seq<Input>, idOf: map<Cid, Option<nat>>, k: nat)
    requires Known(inputs, idOf) && k < |inputs|
    ensures inputs[k].Instance? ==> inputs[k].cid in idOf
  {
  }

  lemma ExtendsMeans(idOf: map<Cid, Option<nat>>, before: map<Cid, Option<nat>>)
    requires Extends(idOf, before)
    ensures forall c :: c in before ==> c in idOf && idOf[c] == before[c]
  {
  }

  /** Two inputs are represented by the same model exactly when they name the same model. */
  lemma RepsAgree(s: Intake, models: seq<Cid>, o: SetOptions, inputs: seq<Input>, j: nat, k: nat)
    requires IntakeOk(s, models, o) && Known(inputs, s.idOf) && s.reps == [] && j < k < |inputs|
    requires |TakeAll(s, inputs, o).reps| == |inputs|
    requires TakeAll(s, inputs, o).reps[j].Some? && TakeAll(s, inputs, o).reps[k].Some?
    ensures TakeAll(s, inputs, o).reps[j] == TakeAll(s, inputs, o).reps[k] <==> Same(inputs[j], inputs[k], s.idOf)
  {
    var t := TakeAll(s, inputs, o);
    RepsOk(s, models, o, inputs, j);
    RepsOk(s, models, o, inputs, k);
    TakeAllKeeps(s, models, o, inputs);
    var c, d := t.reps[j].value, t.reps[k].value;
    assert MemberOk(t.byId, t.idOf, c) && MemberOk(t.byId, t.idOf, d);
    assert t.reps[j] == t.reps[..k][j];
  }

  /** No two of the inputs that are taken in name the same model. */
  ghost predicate Distinct(inputs: seq<Input>, reps: seq<Option<Cid>>, idOf: map<Cid, Option<nat>>)
    requires |reps| == |inputs|
  {
    forall j, k :: 0 <= j < k < |inputs| && reps[j].Some? && reps[k].Some? ==> !Same(inputs[j], inputs[k], idOf)
  }

  predicate AllDifferent(reps: seq<Option<Cid>>) {
    forall j, k :: 0 <= j < k < |reps| && reps[j].Some? ==> reps[j] != reps[k]
  }

  lemma AllDifferentSnoc(init: seq<Option<Cid>>, last: Option<Cid>)
    ensures AllDifferent(init + [last]) <==> AllDifferent(init) && (last.Some? ==> last !in init)
  {
    var reps := init + [last];
    assert forall j :: 0 <= j < |init| ==> reps[j] == init[j];
    if AllDifferent(reps) && last.Some? {
      assert forall j :: 0 <= j < |init| && init[j].Some? ==> reps[j] != reps[|init|];
    }
  }

  lemma {:induction false} SomesNoDup(reps: seq<Option<Cid>>)
    ensures NoDup(Somes(reps)) <==> AllDifferent(reps)
  {
    if reps != [] {
      var init, last := reps[..|reps| - 1], reps[|reps| - 1];
      assert reps == init + [last];
      SomesNoDup(init);
      SomesMembers(init);
      SomesSnoc(init, last);
      AllDifferentSnoc(init, last);
      hide NoDup, Somes, AllDifferent;
      if last.Some? {
        NoDupSnoc(Somes(init), last.value);
      } else {
        assert Somes(init) + [] == Somes(init);
      }
    }
  }

  lemma DistinctNoDup(s: Intake, models: seq<Cid>, o: SetOptions, inputs: seq<Input>)
    requires IntakeOk(s, models, o) && Known(inputs, s.idOf) && s.reps == []
    ensures var t := TakeAll(s, inputs, o);
            |t.reps| == |inputs| && (Distinct(inputs, t.reps, s.idOf) <==> NoDup(Somes(t.reps)))
  {
    var t := TakeAll(s, inputs, o);
    TakeAllKeeps(s, models, o, inputs);
    SomesNoDup(t.reps);
    hide *;
    hide IntakeOk;
    forall j, k | 0 <= j < k < |inputs| && t.reps[j].Some? && t.reps[k].Some?
      ensures t.reps[j] == t.reps[k] <==> Same(inputs[j], inputs[k], s.idOf)
    {
      RepsAgree(s, models, o, inputs, j, k);
    }
    DistinctMeans(inputs, t.reps, s.idOf);
  }

  lemma DistinctMeans(inputs: seq<Input>, reps: seq<Option<Cid>>, idOf: map<Cid, Option<nat>>)
    requires |reps| == |inputs|
    requires forall j, k :: 0 <= j < k < |inputs| && reps[j].Some? && reps[k].Some? ==>
               (reps[j] == reps[k] <==> Same(inputs[j], inputs[k], idOf))
    ensures Distinct(inputs, reps, idOf) <==> AllDifferent(reps)
  {
    hide Same;
  }

  /** No input that is taken in names the same model as x. */
  ghost predicate NoneTakenIn(inputs: seq<Input>, reps: seq<Option<Cid>>, x: Input, idOf: map<Cid, Option<nat>>) {
    forall j :: 0 <= j < |inputs| && j < |reps| && reps[j].Some? ==> !Same(inputs[j], x, idOf)
  }

  lemma NoneTakenBefore(inputs: seq<Input>, reps: seq<Option<Cid>>, x: Input, idOf: map<Cid, Option<nat>>)
    requires NoneTakenIn(inputs, reps, x, idOf) && |reps| == |inputs| && inputs != []
    ensures var last := |inputs| - 1;
            NoneTakenIn(inputs[..last], reps[..last], x, idOf) && (reps[last].Some? ==> !Same(inputs[last], x, idOf))
  {
  }

  lemma NoneNamedBefore(inputs: seq<Input>, reps: seq<Option<Cid>>, x: Input, idOf: map<Cid, Option<nat>>)
    requires forall j :: 0 <= j < |inputs| ==> !Same(inputs[j], x, idOf)
    ensures NoneTakenIn(inputs, reps, x, idOf)
  {
  }

  /** While no input that is taken in names the same model as x, x is looked up as before. */
  lemma {:induction false} Untouched(s: Intake, models: seq<Cid>, o: SetOptions, inputs: seq<Input>, x: Input)
    requires IntakeOk(s, models, o) && Known(inputs, s.idOf) && s.reps == []
    requires x.Instance? ==> x.cid in s.idOf
    requires NoneTakenIn(inputs, TakeAll(s, inputs, o).reps, x, s.idOf)
    ensures var t := TakeAll(s, inputs, o); Lookup(t.byId, t.idOf, x) == Lookup(s.byId, s.idOf, x)
  {
    if inputs != [] {
      hide *;
      hide Same;
      var last := |inputs| - 1;
      var init := inputs[..last];
      var t, u := TakeAll(s, init, o), TakeAll(s, inputs, o);
      LastTurn(s, models, o, inputs);
      TakeInGrows(t, inputs[last], o);
      NoneTakenBefore(inputs, u.reps, x, s.idOf);
      Untouched(s, models, o, init, x);
      UntouchedTurn(s, models, o, t, inputs[last], x);
    }
  }

  lemma UntouchedTurn(s: Intake, models: seq<Cid>, o: SetOptions, t: Intake, input: Input, x: Input)
    requires IntakeOk(t, models, o) && Extends(t.idOf, s.idOf)
    requires (input.Instance? ==> input.cid in s.idOf) && (x.Instance? ==> x.cid in s.idOf)
    requires |TakeIn(t, input, o).reps| == |t.reps| + 1
    requires TakeIn(t, input, o).reps[|t.reps|].Some? ==> !Same(input, x, s.idOf)
    ensures var u := TakeIn(t, input, o); Lookup(u.byId, u.idOf, x) == Lookup(t.byId, t.idOf, x)
  {
    hide *;
    hide Same;
    ExtendsMeans(t.idOf, s.idOf);
    SameLater(input, x, s.idOf, t.idOf);
    IntakeMeans(t, models, o);
    UntouchedStep(t, o, input, x);
  }

  lemma SameLater(x: Input, y: Input, before: map<Cid, Option<nat>>, after: map<Cid, Option<nat>>)
    requires forall c :: c in before ==> c in after && after[c] == before[c]
    requires (x.Instance? ==> x.cid in before) && (y.Instance? ==> y.cid in before)
    ensures Same(x, y, after) <==> Same(x, y, before)
  {
  }

  lemma UntouchedStep(s: Intake, o: SetOptions, input: Input, x: Input)
    requires |TakeIn(s, input, o).reps| == |s.reps| + 1
    requires TakeIn(s, input, o).reps[|s.reps|].Some? ==> !Same(input, x, s.idOf)
    requires input.Instance? ==> input.cid in s.idOf
    requires x.Instance? ==> x.cid in s.idOf && x.cid < s.nextCid
    ensures var t := TakeIn(s, input, o); Lookup(t.byId, t.idOf, x) == Lookup(s.byId, s.idOf, x)
  {
  }

  /** What stands for an input that no earlier input names: the model already present, the object
      itself, the model c newly made from the hash, or nothing if that would be invalid. */
  function RepOf(s: Intake, input: Input, o: SetOptions, c: Cid): Option<Cid> {
    match Lookup(s.byId, s.idOf, input)
    case Some(e) => Some(e)
    case None =>
      if !o.add then None
      else match input
           case Instance(d) => Some(d)
           case Hash(_, _, valid) => if valid then Some(c) else None
  }

  lemma {:induction false} RepIs(s: Intake, models: seq<Cid>, o: SetOptions, inputs: seq<Input>, k: nat)
    returns (c: Cid)
    requires IntakeOk(s, models, o) && Known(inputs, s.idOf) && s.reps == [] && k < |inputs|
    requires forall j :: 0 <= j < k ==> !Same(inputs[j], inputs[k], s.idOf)
    ensures |TakeAll(s, inputs, o).reps| == |inputs| && c >= s.nextCid
    ensures TakeAll(s, inputs, o).reps[k] == RepOf(s, inputs[k], o, c)
  {
    hide *;
    hide Same;
    var last := |inputs| - 1;
    var init := inputs[..last];
    LastTurn(s, models, o, inputs);
    InstanceKnown(inputs, s.idOf, k);
    TakeInGrows(TakeAll(s, init, o), inputs[last], o);
    assert forall j :: 0 <= j < last ==> init[j] == inputs[j];
    if k < last {
      c := RepIs(s, models, o, init, k);
      assert TakeAll(s, inputs, o).reps[k] == TakeAll(s, inputs, o).reps[..last][k];
    } else {
      NoneNamedBefore(init, TakeAll(s, init, o).reps, inputs[last], s.idOf);
      Untouched(s, models, o, init, inputs[last]);
      RepOfStep(TakeAll(s, init, o), s, inputs[last], o);
      c := TakeAll(s, init, o).nextCid;
    }
  }

  lemma RepOfStep(t: Intake, s: Intake, x: Input, o: SetOptions)
    requires Lookup(t.byId, t.idOf, x) == Lookup(s.byId, s.idOf, x)
    ensures |TakeIn(t, x, o).reps| == |t.reps| + 1 && TakeIn(t, x, o).reps[|t.reps|] == RepOf(s, x, o, t.nextCid)
  {
  }

  /** A model that stands for no input keeps its attributes. */
  lemma {:induction false} DataUntouched(s: Intake, o: SetOptions, inputs: seq<Input>, c: Cid)
    requires c in s.data && c < s.nextCid
    ensures var t := TakeAll(s, inputs, o); Some(c) !in t.reps ==> c in t.data && t.data[c] == s.data[c]
  {
    if inputs != [] {
      var last := |inputs| - 1;
      var t := TakeAll(s, inputs[..last], o);
      DataUntouched(s, o, inputs[..last], c);
      NextCidGrows(s, inputs[..last], o);
      TakeInGrows(t, inputs[last], o);
      var u := TakeAll(s, inputs, o);
      assert u == TakeIn(t, inputs[last], o);
      hide TakeAll, TakeIn;
      assert u.reps == t.reps + [u.reps[|t.reps|]];
      assert forall r :: r in t.reps ==> r in u.reps;
      if Some(c) !in t.reps { DataStep(t, o, inputs[last], c); }
    }
  }

  lemma DataStep(s: Intake, o: SetOptions, input: Input, c: Cid)
    requires c in s.data && c < s.nextCid
    ensures var t := TakeIn(s, input, o);
            |t.reps| == |s.reps| + 1 && (t.reps[|s.reps|] != Some(c) ==> c in t.data && t.data[c] == s.data[c])
  {
  }

  /** The attributes of the model that stands for an input, when only that input names it: merged into
      those of a model already present, or those given. */
  function Merged(s: Intake, input: Input, o: SetOptions): Attrs {
    match Lookup(s.byId, s.idOf, input)
    case Some(e) => if e !in s.data then map[] else if o.merge then s.data[e] + AttrsOf(s.data, input) else s.data[e]
    case None => AttrsOf(s.data, input)
  }

  /** Attributes that are given win. */
  lemma MergedMeans(s: Intake, models: seq<Cid>, input: Input)
    requires Ready(s, models) && (input.Instance? ==> input.cid in s.idOf)
    ensures var m, given, e := Merged(s, input, DEFAULTS), AttrsOf(s.data, input), Scan(models, s.idOf, input);
            && (forall a :: a in given ==> a in m && m[a] == given[a])
            && (forall a :: a in m && a !in given ==>
                  e.Some? && e.value in s.data && a in s.data[e.value] && m[a] == s.data[e.value][a])
            && (e.Some? && e.value in s.data ==> forall a :: a in s.data[e.value] ==> a in m)
  {
    ScanFinds(models, s.byId, s.idOf, input, 0);
    assert models[0..] == models;
    if Lookup(s.byId, s.idOf, input).Some? { LookupIsMember(s.byId, s.idOf, models, input); }
  }

  lemma {:induction false} DataIs(s: Intake, models: seq<Cid>, o: SetOptions, inputs: seq<Input>, k: nat)
    requires IntakeOk(s, models, o) && Known(inputs, s.idOf) && s.reps == [] && k < |inputs|
    requires forall j :: 0 <= j < |inputs| && j != k ==> !Same(inputs[j], inputs[k], s.idOf)
    ensures var t := TakeAll(s, inputs, o);
            |t.reps| == |inputs| &&
            (t.reps[k].Some? ==> t.reps[k].value in t.data && t.data[t.reps[k].value] == Merged(s, inputs[k], o))
  {
    hide *;
    hide Same;
    var last := |inputs| - 1;
    var init := inputs[..last];
    var t, u := TakeAll(s, init, o), TakeAll(s, inputs, o);
    LastTurn(s, models, o, inputs);
    InstanceKnown(inputs, s.idOf, k);
    TakeInGrows(t, inputs[last], o);
    assert forall j :: 0 <= j < last ==> init[j] == inputs[j];
    assert forall j :: 0 <= j < last ==> u.reps[j] == u.reps[..last][j];
    if u.reps[k].Some? {
      var c := u.reps[k].value;
      forall j | 0 <= j < |inputs| && j != k ensures u.reps[j] != Some(c) {
        if u.reps[j] == Some(c) {
          if j < k { RepsAgree(s, models, o, inputs, j, k); } else { RepsAgree(s, models, o, inputs, k, j); }
          SameIsSymmetric(inputs[k], inputs[j], s.idOf);
        }
      }
      if k < last {
        DataIs(s, models, o, init, k);
        CidsBelow(t, models, o, c, k);
        DataStep(t, o, inputs[last], c);
      } else {
        assert Some(c) !in t.reps;
        NoneNamedBefore(init, t.reps, inputs[last], s.idOf);
        Untouched(s, models, o, init, inputs[last]);
        DataIsLast(s, models, o, init, inputs[last]);
      }
    }
  }

  lemma CidsBelow(t: Intake, models: seq<Cid>, o: SetOptions, c: Cid, k: nat)
    requires IntakeOk(t, models, o) && k < |t.reps| && t.reps[k] == Some(c)
    ensures c < t.nextCid
  {
  }

  lemma SameIsSymmetric(x: Input, y: Input, idOf: map<Cid, Option<nat>>)
    ensures Same(x, y, idOf) == Same(y, x, idOf)
  {
  }

  lemma DataIsLast(s: Intake, models: seq<Cid>, o: SetOptions, init: seq<Input>, x: Input)
    requires IntakeOk(s, models, o) && Known(init, s.idOf) && s.reps == []
    requires (x.Instance? ==> x.cid in s.idOf)
    requires forall j :: 0 <= j < |init| ==> !Same(init[j], x, s.idOf)
    requires var t := TakeAll(s, init, o); Lookup(t.byId, t.idOf, x) == Lookup(s.byId, s.idOf, x)
    requires var t, u := TakeAll(s, init, o), TakeIn(TakeAll(s, init, o), x, o);
             |u.reps| == |t.reps| + 1 && u.reps[|t.reps|].Some? && u.reps[|t.reps|] !in t.reps
    ensures var t, u := TakeAll(s, init, o), TakeIn(TakeAll(s, init, o), x, o);
            u.reps[|t.reps|].value in u.data && u.data[u.reps[|t.reps|].value] == Merged(s, x, o)
  {
    var t := TakeAll(s, init, o);
    var u := TakeIn(t, x, o);
    var c := u.reps[|t.reps|].value;
    if c in s.data {
      assert c in s.idOf && c < s.nextCid;
      DataUntouched(s, o, init, c);
    }
    if x.Instance? {
      OtherInstance(s, models, o, init, x);
      DataUntouched(s, o, init, x.cid);
      assert x.cid in t.data && (Some(x.cid) !in t.reps ==> t.data[x.cid] == s.data[x.cid]);
    }
    LookupIn(s, models, o, x);
    hide TakeAll, IntakeOk, Same;
  }

  lemma LookupIn(s: Intake, models: seq<Cid>, o: SetOptions, x: Input)
    requires IntakeOk(s, models, o)
    ensures Lookup(s.byId, s.idOf, x).Some? ==> Lookup(s.byId, s.idOf, x).value in s.data
  {
    if Lookup(s.byId, s.idOf, x).Some? { LookupIsMember(s.byId, s.idOf, models + s.toAdd, x); }
  }

  /** An object that no earlier input names stands for none of them. */
  lemma OtherInstance(s: Intake, models: seq<Cid>, o: SetOptions, init: seq<Input>, x: Input)
    requires IntakeOk(s, models, o) && Known(init, s.idOf) && s.reps == [] && x.Instance? && x.cid in s.idOf
    requires forall j :: 0 <= j < |init| ==> !Same(init[j], x, s.idOf)
    ensures Some(x.cid) !in TakeAll(s, init, o).reps
  {
    var t := TakeAll(s, init, o);
    TakeAllKeeps(s, models, o, init);
    forall j | 0 <= j < |init| ensures t.reps[j] != Some(x.cid) {
      RepsOk(s, models, o, init, j);
      assert !Same(init[j], x, s.idOf);
      hide TakeAll;
    }
  }

  // ----- the end of `set` -----

  /** The models that the removal in `set` leaves. */
  function Kept(models: seq<Cid>, seen: set<Cid>): seq<Cid> {
    Without(models, Members(Without(models, seen)))
  }

  /** `splice(p, 0, x)`: positions count from the end when negative, and are clamped. */
  function SpliceIn(s: seq<Cid>, p: int, x: Cid): seq<Cid> {
    var q := if p < 0 then (if |s| + p < 0 then 0 else |s| + p) else if p > |s| then |s| else p;
    s[..q] + [x] + s[q..]
  }

  function SpliceAll(s: seq<Cid>, p: int, xs: seq<Cid>): seq<Cid> {
    if xs == [] then s else SpliceIn(SpliceAll(s, p, xs[..|xs| - 1]), p + |xs| - 1, xs[|xs| - 1])
  }

  /** The list that `set` leaves. */
  function Result(models: seq<Cid>, t: Intake, o: SetOptions, at: Option<int>): seq<Cid> {
    var kept := if o.remove then Kept(models, t.seen) else models;
    if at.Some? then SpliceAll(kept, at.value, t.toAdd)
    else if o.add && o.remove then Somes(t.reps)
    else kept + t.toAdd
  }

  /** The index that `set` leaves. */
  function ResultIndex(models: seq<Cid>, t: Intake, o: SetOptions): Index {
    if o.remove then Unindexed(t.byId, Members(Without(models, t.seen))) else t.byId
  }

  /** Inserting at a position within the list inserts one block. */
  lemma {:induction false} SpliceAllIsBlock(s: seq<Cid>, p: nat, xs: seq<Cid>)
    requires p <= |s|
    ensures SpliceAll(s, p, xs) == s[..p] + xs + s[p..]
  {
    if xs != [] {
      SpliceAllIsBlock(s, p, xs[..|xs| - 1]);
    }
  }

  lemma {:induction false} SpliceAllKeeps(s: seq<Cid>, p: int, xs: seq<Cid>)
    ensures multiset(SpliceAll(s, p, xs)) == multiset(s + xs)
  {
    if xs != [] {
      var init, last := xs[..|xs| - 1], xs[|xs| - 1];
      SpliceAllKeeps(s, p, init);
      SpliceInKeeps(SpliceAll(s, p, init), p + |init|, last);
      assert s + xs == (s + init) + [last];
    }
  }

  lemma SpliceInKeeps(s: seq<Cid>, p: int, x: Cid)
    ensures multiset(SpliceIn(s, p, x)) == multiset(s) + multiset{x}
  {
    var q := if p < 0 then (if |s| + p < 0 then 0 else |s| + p) else if p > |s| then |s| else p;
    assert s == s[..q] + s[q..];
  }

  lemma SameMultiset(s: seq<Cid>, t: seq<Cid>)
    requires multiset(s) == multiset(t) && NoDup(s)
    ensures NoDup(t) && |s| == |t| && forall c :: c in s <==> c in t
  {
    assert |s| == |multiset(s)| && |t| == |multiset(t)|;
    forall c ensures c in s <==> c in t { assert c in multiset(s) <==> c in multiset(t); }
    SameMembers(s, t);
  }

  lemma IndexOfMembers(byId: Index, idOf: map<Cid, Option<nat>>, s: seq<Cid>, t: seq<Cid>)
    requires IndexOk(byId, idOf, s) && forall c :: c in s <==> c in t
    ensures IndexOk(byId, idOf, t)
  {
    forall k | k in byId ensures KeyOk(byId, idOf, t, k) { assert KeyOk(byId, idOf, s, k); }
  }

  function Instances(s: seq<Cid>): seq<Input> {
    seq(|s|, i requires 0 <= i < |s| => Instance(s[i]))
  }

  lemma NamedInstances(byId: Index, idOf: map<Cid, Option<nat>>, members: seq<Cid>, s: seq<Cid>)
    requires IndexOk(byId, idOf, members) && forall c :: c in s ==> c in members
    ensures Named(byId, idOf, Instances(s)) == Members(s) && Known(Instances(s), idOf)
  {
    forall i | 0 <= i < |s| ensures Lookup(byId, idOf, Instances(s)[i]) == Some(s[i]) && s[i] in idOf {
      assert MemberOk(byId, idOf, s[i]);
    }
    forall c | c in s ensures c in Named(byId, idOf, Instances(s)) {
      var i :| 0 <= i < |s| && s[i] == c;
      assert Lookup(byId, idOf, Instances(s)[i]) == Some(c);
    }
  }

  lemma KeptMembers(models: seq<Cid>, seen: set<Cid>)
    ensures forall c :: c in Kept(models, seen) <==> c in models && c in seen
  {
    WithoutMembers(models, seen);
    WithoutMembers(models, Members(Without(models, seen)));
  }

  /** The list that `set` leaves has the models that are listed in the index, and has no duplicates
      if and only if its length is what `length` says. */
  lemma FinishSet(models: seq<Cid>, t: Intake, o: SetOptions, at: Option<int>, byId: Index, kept: seq<Cid>)
    requires IntakeOk(t, models, o)
    requires kept == if o.remove then Kept(models, t.seen) else models
    requires IndexOk(byId, t.idOf, kept + t.toAdd) && NoDup(kept + t.toAdd)
    ensures IndexOk(byId, t.idOf, Result(models, t, o, at))
    ensures Members(Result(models, t, o, at)) == Members(kept + t.toAdd)
    ensures o.add && o.remove && Somes(t.reps) == [] ==> kept == []
    ensures NoDup(Result(models, t, o, at)) <==> |kept| + |t.toAdd| == |Result(models, t, o, at)|
    ensures !(o.add && o.remove && at.None?) ==> NoDup(Result(models, t, o, at))
  {
    var r := Result(models, t, o, at);
    if at.Some? {
      SpliceAllKeeps(kept, at.value, t.toAdd);
      SameMultiset(kept + t.toAdd, r);
    } else if o.add && o.remove {
      KeptMembers(models, t.seen);
      SomesMembers(t.reps);
      RepMembers(models, t, o, kept);
      SameMembers(kept + t.toAdd, r);
    }
    if o.add && o.remove {
      KeptMembers(models, t.seen);
      SomesMembers(t.reps);
      RepMembers(models, t, o, kept);
      assert |kept| > 0 ==> kept[0] in Somes(t.reps);
    }
    IndexOfMembers(byId, t.idOf, kept + t.toAdd, r);
  }

  lemma RepMembers(models: seq<Cid>, t: Intake, o: SetOptions, kept: seq<Cid>)
    requires IntakeOk(t, models, o) && o.remove
    requires forall c :: c in kept <==> c in models && c in t.seen
    ensures forall c :: c in kept + t.toAdd <==> Some(c) in t.reps
  {
    forall c ensures c in kept + t.toAdd <==> Some(c) in t.reps {
      if Some(c) in t.reps {
        var k :| 0 <= k < |t.reps| && t.reps[k] == Some(c);
      }
    }
  }

  function Rekeyed(byId: Index, c: Cid, previous: Option<nat>, id: Option<nat>): Index {
    var b := if previous.Some? then byId - {ById(previous.value)} else byId;
    if id.Some? then b[ById(id.value) := c] else b
  }

  /** The index stays right exactly when no other listed model has the new id. */
  lemma IdChanged(byId: Index, idOf: map<Cid, Option<nat>>, members: seq<Cid>, c: Cid, id: Option<nat>, byId': Index)
    requires IndexOk(byId, idOf, members) && c in idOf
    requires byId' == if c in members && id != idOf[c] then Rekeyed(byId, c, idOf[c], id) else byId
    ensures forall d :: d in members ==> d in idOf
    ensures IndexOk(byId', idOf[c := id], members) <==>
              (c in members && id.Some? ==> forall d :: d in members && d != c ==> idOf[d] != id)
  {
    assert forall d :: d in members ==> MemberOk(byId, idOf, d);
    var idOf' := idOf[c := id];
    if c in members && id.Some? && exists d :: d in members && d != c && idOf[d] == id {
      var d :| d in members && d != c && idOf[d] == id;
      assert MemberOk(byId, idOf, d) && MemberOk(byId, idOf, c);
      assert !MemberOk(byId', idOf', d);
    } else {
      forall d | d in members ensures MemberOk(byId', idOf', d) { assert MemberOk(byId, idOf, d); }
      forall k | k in byId' ensures KeyOk(byId', idOf', members, k) {
        if k in byId { assert KeyOk(byId, idOf, members, k); }
      }
    }
  }

  /** Model 1 takes the id of model 0: the index knows the id as that of model 1, a scan finds model 0. */
  lemma IdTakenOver()
    ensures var byId := map[ByCid(0) := 0, ById(7) := 0, ByCid(1) := 1, ById(8) := 1];
            var idOf := map[0 := Some(7), 1 := Some(8)];
            var after := Rekeyed(byId, 1, Some(8), Some(7));
            && IndexOk(byId, idOf, [0, 1]) && !IndexOk(after, idOf[1 := Some(7)], [0, 1])
            && Lookup(after, idOf[1 := Some(7)], Hash(Some(7), map[], true)) == Some(1)
            && Scan([0, 1], idOf[1 := Some(7)], Hash(Some(7), map[], true)) == Some(0)
  {
    var byId: Index := map[ByCid(0) := 0, ById(7) := 0, ByCid(1) := 1, ById(8) := 1];
    var idOf: map<Cid, Option<nat>> := map[0 := Some(7), 1 := Some(8)];
    var models: seq<Cid> := [0, 1];
    assert models[0] in models && models[1] in models;
    forall k | k in byId ensures KeyOk(byId, idOf, models, k) { }
    IdChanged(byId, idOf, models, 1, Some(7), Rekeyed(byId, 1, Some(8), Some(7)));
  }

  // ----- which inputs are taken in -----

  /** An input that is taken in whatever came before it. */
  predicate Takeable(input: Input, models: seq<Cid>, idOf: map<Cid, Option<nat>>) {
    input.Instance? || input.valid || Scan(models, idOf, input).Some?
  }

  /** Input k, or an earlier input that names the same model, is taken in whatever came before it. */
  predicate NamesTakeable(inputs: seq<Input>, k: nat, models: seq<Cid>, idOf: map<Cid, Option<nat>>)
    requires k < |inputs|
  {
    exists j: nat :: j <= k && (j == k || Same(inputs[j], inputs[k], idOf)) && Takeable(inputs[j], models, idOf)
  }

  /** An input that is taken in whatever came before it is followed by one that names the same model. */
  predicate Repeats(inputs: seq<Input>, models: seq<Cid>, idOf: map<Cid, Option<nat>>) {
    exists j, k :: 0 <= j < k < |inputs| && Takeable(inputs[j], models, idOf) && Same(inputs[j], inputs[k], idOf)
  }

  lemma {:induction false} RepStaysSome(s: Intake, models: seq<Cid>, o: SetOptions, inputs: seq<Input>, k: nat)
    requires IntakeOk(s, models, o) && Known(inputs, s.idOf) && s.reps == [] && k < |inputs|
    ensures Known(inputs[..k + 1], s.idOf)
    ensures |TakeAll(s, inputs, o).reps| == |inputs| && |TakeAll(s, inputs[..k + 1], o).reps| == k + 1
    ensures TakeAll(s, inputs, o).reps[..k + 1] == TakeAll(s, inputs[..k + 1], o).reps
  {
    hide *;
    var last := |inputs| - 1;
    LastTurn(s, models, o, inputs);
    TakeInGrows(TakeAll(s, inputs[..last], o), inputs[last], o);
    var t, u := TakeAll(s, inputs[..last], o), TakeAll(s, inputs, o);
    if k < last {
      RepStaysSome(s, models, o, inputs[..last], k);
      assert inputs[..last][..k + 1] == inputs[..k + 1];
      assert u.reps[..k + 1] == u.reps[..last][..k + 1];
    } else {
      assert inputs[..k + 1] == inputs && u.reps[..k + 1] == u.reps;
    }
  }

  /** What was found at the start, and what an earlier input stands for, is found. */
  lemma FoundLater(s: Intake, models: seq<Cid>, o: SetOptions, init: seq<Input>, x: Input)
    requires Ready(s, models) && Known(init, s.idOf) && (x.Instance? ==> x.cid in s.idOf)
    ensures var t := TakeAll(s, init, o);
            && |t.reps| == |init|
            && (Lookup(s.byId, s.idOf, x).Some? ==> Lookup(t.byId, t.idOf, x).Some?)
            && (forall j :: 0 <= j < |init| && t.reps[j].Some? && Same(init[j], x, s.idOf) ==>
                  Lookup(t.byId, t.idOf, x).Some?)
  {
    var t := TakeAll(s, init, o);
    hide TakeAll, IntakeOk;
    StartOk(s, models, o);
    TakeAllKeeps(s, models, o, init);
    IntakeMeans(t, models, o);
    if Lookup(s.byId, s.idOf, x).Some? {
      var e := Lookup(s.byId, s.idOf, x).value;
      LookupIsMember(s.byId, s.idOf, models, x);
      assert e in models + t.toAdd;
      FoundAsMember(s.byId, s.idOf, models, x);
      assert MemberOk(s.byId, s.idOf, e) && MemberOk(t.byId, t.idOf, e);
    }
    forall j | 0 <= j < |init| && t.reps[j].Some? && Same(init[j], x, s.idOf)
      ensures Lookup(t.byId, t.idOf, x).Some?
    {
      RepsOk(s, models, o, init, j);
      RepIsMember(t, models, o, j);
      InstanceKnown(init, s.idOf, j);
      assert MemberOk(t.byId, t.idOf, t.reps[j].value);
      hide IndexOk;
    }
  }

  lemma RepIsMember(t: Intake, models: seq<Cid>, o: SetOptions, k: nat)
    requires IntakeOk(t, models, o) && k < |t.reps| && t.reps[k].Some?
    ensures t.reps[k].value in models + t.toAdd
  {
  }

  /** A model that is found has the id or is the object. */
  lemma FoundAsMember(byId: Index, idOf: map<Cid, Option<nat>>, members: seq<Cid>, x: Input)
    requires IndexOk(byId, idOf, members) && Lookup(byId, idOf, x).Some? && (x.Instance? ==> x.cid in idOf)
    ensures var e := Lookup(byId, idOf, x).value;
            e in idOf && ((IdOf(x, idOf).Some? && idOf[e] == IdOf(x, idOf)) || x == Instance(e))
  {
    var id := IdOf(x, idOf);
    var k := if id.Some? && ById(id.value) in byId then ById(id.value) else ByCid(x.cid);
    assert KeyOk(byId, idOf, members, k);
    LookupIsMember(byId, idOf, members, x);
    assert MemberOk(byId, idOf, Lookup(byId, idOf, x).value);
  }

  lemma SameTransitive(x: Input, y: Input, z: Input, idOf: map<Cid, Option<nat>>)
    requires Same(x, y, idOf) && Same(y, z, idOf)
    ensures Same(x, z, idOf)
  {
  }

  /** An input is taken in exactly if it, or an earlier input that names the same model, is an object, a
      valid hash, or found in the list. */
  lemma {:induction false} TakenIn(s: Intake, models: seq<Cid>, o: SetOptions, inputs: seq<Input>, k: nat)
    requires Ready(s, models) && Known(inputs, s.idOf) && o.add && k < |inputs|
    ensures |TakeAll(s, inputs, o).reps| == |inputs|
    ensures TakeAll(s, inputs, o).reps[k].Some? <==> NamesTakeable(inputs, k, models, s.idOf)
    decreases k
  {
    hide TakeAll, TakeIn, Lookup, IntakeOk, Same, Scan, Known, IndexOk, NoDup;
    StartOk(s, models, o);
    RepStaysSome(s, models, o, inputs, k);
    var x, init, upTo := inputs[k], inputs[..k], inputs[..k + 1];
    assert upTo[..k] == init && upTo[k] == x;
    LastTurn(s, models, o, upTo);
    var t, u := TakeAll(s, init, o), TakeAll(s, inputs, o);
    assert |t.reps| == k && u.reps[k] == u.reps[..k + 1][k];
    TakeInGrows(t, x, o);
    TakenTurn(t, x, o);
    FoundLater(s, models, o, init, x);
    FoundByScan(s, models, x);
    forall j | 0 <= j < k
      ensures t.reps[j] == u.reps[j]
      ensures u.reps[j].Some? <==> NamesTakeable(inputs, j, models, s.idOf)
    {
      assert u.reps[j] == u.reps[..k + 1][j] == TakeAll(s, upTo, o).reps[..k][j];
      TakenIn(s, models, o, inputs, j);
    }
    if u.reps[k].Some? && !Takeable(x, models, s.idOf) {
      var j := EarlierTaken(s, models, o, init, x);
      var i: nat :| i <= j && (i == j || Same(inputs[i], inputs[j], s.idOf)) && Takeable(inputs[i], models, s.idOf);
      if i != j { SameTransitive(inputs[i], inputs[j], x, s.idOf); }
      assert Same(inputs[i], inputs[k], s.idOf);
    }
    if NamesTakeable(inputs, k, models, s.idOf) {
      var j: nat :| j <= k && (j == k || Same(inputs[j], inputs[k], s.idOf)) && Takeable(inputs[j], models, s.idOf);
      if j < k {
        assert NamesTakeable(inputs, j, models, s.idOf);
        assert init[j] == inputs[j] && t.reps[j].Some?;
      }
    }
  }

  lemma TakenTurn(t: Intake, x: Input, o: SetOptions)
    requires o.add
    ensures |TakeIn(t, x, o).reps| == |t.reps| + 1
    ensures TakeIn(t, x, o).reps[|t.reps|].Some? <==> Lookup(t.byId, t.idOf, x).Some? || x.Instance? || x.valid
  {
  }

  lemma FoundByScan(s: Intake, models: seq<Cid>, x: Input)
    requires Ready(s, models) && (x.Instance? ==> x.cid in s.idOf)
    ensures Scan(models, s.idOf, x) == Lookup(s.byId, s.idOf, x)
  {
    ScanFinds(models, s.byId, s.idOf, x, 0);
    assert models[0..] == models;
  }

  /** What is found only now was taken in by an earlier input. */
  lemma EarlierTaken(s: Intake, models: seq<Cid>, o: SetOptions, init: seq<Input>, x: Input) returns (j: nat)
    requires Ready(s, models) && Known(init, s.idOf) && (x.Instance? ==> x.cid in s.idOf)
    requires Lookup(s.byId, s.idOf, x).None?
    requires var t := TakeAll(s, init, o); Lookup(t.byId, t.idOf, x).Some?
    ensures |TakeAll(s, init, o).reps| == |init|
    ensures j < |init| && TakeAll(s, init, o).reps[j].Some? && Same(init[j], x, s.idOf)
  {
    hide *;
    hide Same;
    ReadyStart(s, models, o);
    TakeAllKeeps(s, models, o, init);
    var reps := TakeAll(s, init, o).reps;
    if NoneTakenIn(init, reps, x, s.idOf) {
      Untouched(s, models, o, init, x);
      assert false;
    }
    j := SomeTakenIn(init, reps, x, s.idOf);
  }

  lemma ReadyStart(s: Intake, models: seq<Cid>, o: SetOptions)
    requires Ready(s, models)
    ensures IntakeOk(s, models, o) && s.reps == []
  {
    StartOk(s, models, o);
  }

  lemma SomeTakenIn(inputs: seq<Input>, reps: seq<Option<Cid>>, x: Input, idOf: map<Cid, Option<nat>>) returns (j: nat)
    requires |reps| == |inputs| && !NoneTakenIn(inputs, reps, x, idOf)
    ensures j < |inputs| && reps[j].Some? && Same(inputs[j], x, idOf)
  {
    j :| j < |inputs| && reps[j].Some? && Same(inputs[j], x, idOf);
  }

  /** Whether two of the inputs taken in name the same model can be seen beforehand. */
  lemma DistinctUnlessRepeats(s: Intake, models: seq<Cid>, o: SetOptions, inputs: seq<Input>)
    requires Ready(s, models) && Known(inputs, s.idOf) && o.add
    ensures var t := TakeAll(s, inputs, o);
            |t.reps| == |inputs| && (Distinct(inputs, t.reps, s.idOf) <==> !Repeats(inputs, models, s.idOf))
  {
    hide TakeAll, Lookup, IntakeOk, Same, Scan, IndexOk, NoDup, Known, Takeable;
    StartOk(s, models, o);
    TakeAllKeeps(s, models, o, inputs);
    var reps := TakeAll(s, inputs, o).reps;
    forall k | 0 <= k < |inputs| ensures reps[k].Some? <==> NamesTakeable(inputs, k, models, s.idOf) {
      TakenIn(s, models, o, inputs, k);
    }
    if !Distinct(inputs, reps, s.idOf) {
      var j, k :| 0 <= j < k < |inputs| && reps[j].Some? && reps[k].Some? && Same(inputs[j], inputs[k], s.idOf);
      var i: nat :| i <= j && (i == j || Same(inputs[i], inputs[j], s.idOf)) && Takeable(inputs[i], models, s.idOf);
      if i != j { SameTransitive(inputs[i], inputs[j], inputs[k], s.idOf); }
      assert Takeable(inputs[i], models, s.idOf) && Same(inputs[i], inputs[k], s.idOf);
    }
    if Repeats(inputs, models, s.idOf) {
      var j, k :| 0 <= j < k < |inputs| && Takeable(inputs[j], models, s.idOf) && Same(inputs[j], inputs[k], s.idOf);
      assert NamesTakeable(inputs, j, models, s.idOf) && NamesTakeable(inputs, k, models, s.idOf);
    }
  }

  // ----- what `set` means -----

  lemma {:induction false} SomesOfAll(reps: seq<Option<Cid>>)
    requires forall k :: 0 <= k < |reps| ==> reps[k].Some?
    ensures |Somes(reps)| == |reps| && forall k :: 0 <= k < |reps| ==> Somes(reps)[k] == reps[k].value
  {
    if reps != [] { SomesOfAll(reps[..|reps| - 1]); }
  }

  /** An input that would make a valid model is taken in. */
  lemma Taken(s: Intake, input: Input, c: Cid)
    requires input.Hash? ==> input.valid
    ensures var l := Lookup(s.byId, s.idOf, input);
            RepOf(s, input, DEFAULTS, c) ==
              Some(if l.Some? then l.value else if input.Instance? then input.cid else c)
  {
  }

  lemma AllDistinct(inputs: seq<Input>, reps: seq<Option<Cid>>, idOf: map<Cid, Option<nat>>)
    requires |reps| == |inputs| && forall i, j :: 0 <= i < j < |inputs| ==> !Same(inputs[i], inputs[j], idOf)
    ensures Distinct(inputs, reps, idOf)
  {
  }

  lemma ResultIsSomes(models: seq<Cid>, t: Intake)
    ensures Result(models, t, DEFAULTS, None) == Somes(t.reps)
  {
  }

  lemma ReadyMeans(s: Intake, models: seq<Cid>)
    requires Ready(s, models)
    ensures IndexOk(s.byId, s.idOf, models) && s.reps == [] && IntakeOk(s, models, DEFAULTS)
    ensures s.idOf.Keys == s.data.Keys && forall c :: c in s.idOf ==> c < s.nextCid
  {
    StartOk(s, models, DEFAULTS);
  }

  lemma RepMeans(s: Intake, models: seq<Cid>, inputs: seq<Input>, k: nat)
    requires IntakeOk(s, models, DEFAULTS) && Known(inputs, s.idOf) && k < |inputs| && s.reps == []
    ensures var t := TakeAll(s, inputs, DEFAULTS);
            |t.reps| == |inputs| &&
            (t.reps[k].Some? ==> t.reps[k].value < t.nextCid && t.reps[k].value in t.idOf
                                 && t.idOf[t.reps[k].value] == IdOf(inputs[k], s.idOf))
  {
    hide *;
    hide IntakeOk;
    RepsOk(s, models, DEFAULTS, inputs, k);
    TakeAllKeeps(s, models, DEFAULTS, inputs);
    InstanceKnown(inputs, s.idOf, k);
    var t := TakeAll(s, inputs, DEFAULTS);
    assert IdOf(inputs[k], t.idOf) == IdOf(inputs[k], s.idOf) by { SameId(inputs[k], s.idOf, t.idOf); }
    if t.reps[k].Some? {
      RepOkMeans(t, inputs[k], k, s.nextCid);
      CidsBelow(t, models, DEFAULTS, t.reps[k].value, k);
    }
  }

  lemma SameId(input: Input, before: map<Cid, Option<nat>>, after: map<Cid, Option<nat>>)
    requires forall c :: c in before ==> c in after && after[c] == before[c]
    requires input.Instance? ==> input.cid in before
    ensures IdOf(input, after) == IdOf(input, before)
  {
  }

  lemma RepOkMeans(t: Intake, input: Input, k: nat, from: Cid)
    requires k < |t.reps| && t.reps[k].Some? && RepOk(t, input, k, from)
    ensures t.reps[k].value in t.idOf && t.idOf[t.reps[k].value] == IdOf(input, t.idOf)
  {
  }

  /** With the default options, inputs that are pairwise different and would make valid models are
      what the collection holds afterwards, in their order: a model already present, with the new
      attributes merged in, the object itself, or a model made from the hash. */
  lemma Reconciles(s: Intake, models: seq<Cid>, inputs: seq<Input>, k: nat)
    requires Ready(s, models) && Known(inputs, s.idOf) && k < |inputs|
    requires forall i, j :: 0 <= i < j < |inputs| ==> !Same(inputs[i], inputs[j], s.idOf)
    requires forall j :: 0 <= j < |inputs| ==> inputs[j].Hash? ==> inputs[j].valid
    ensures var t := TakeAll(s, inputs, DEFAULTS);
            var r := Result(models, t, DEFAULTS, None);
            && |r| == |inputs| && NoDup(r)
            && (match Scan(models, s.idOf, inputs[k])
                case Some(e) => r[k] == e
                case None => if inputs[k].Instance? then r[k] == inputs[k].cid else s.nextCid <= r[k] < t.nextCid)
            && r[k] in t.idOf && t.idOf[r[k]] == IdOf(inputs[k], s.idOf)
            && r[k] in t.data && t.data[r[k]] == Merged(s, inputs[k], DEFAULTS)
            // the attributes given, and of a model already present those that were not given
            && (forall a :: a in AttrsOf(s.data, inputs[k]) ==>
                  a in t.data[r[k]] && t.data[r[k]][a] == AttrsOf(s.data, inputs[k])[a])
            && (forall a :: a in t.data[r[k]] && a !in AttrsOf(s.data, inputs[k]) ==>
                  var e := Scan(models, s.idOf, inputs[k]);
                  e.Some? && e.value in s.data && a in s.data[e.value] && t.data[r[k]][a] == s.data[e.value][a])
            && (forall e :: Scan(models, s.idOf, inputs[k]) == Some(e) && e in s.data ==>
                  forall a :: a in s.data[e] ==> a in t.data[r[k]])
  {
    hide *;
    hide Same;
    ReadyMeans(s, models);
    InstanceKnown(inputs, s.idOf, k);
    MergedMeans(s, models, inputs[k]);
    var t := TakeAll(s, inputs, DEFAULTS);
    var c := RepIs(s, models, DEFAULTS, inputs, k);
    Taken(s, inputs[k], c);
    assert |t.reps| == |inputs|;
    forall j | 0 <= j < |inputs| ensures t.reps[j].Some? {
      var c := RepIs(s, models, DEFAULTS, inputs, j);
      Taken(s, inputs[j], c);
    }
    SomesOfAll(t.reps);
    AllDistinct(inputs, t.reps, s.idOf);
    DistinctNoDup(s, models, DEFAULTS, inputs);
    assert Result(models, t, DEFAULTS, None) == Somes(t.reps) by { ResultIsSomes(models, t); }
    RepMeans(s, models, inputs, k);
    forall j | 0 <= j < |inputs| && j != k ensures !Same(inputs[j], inputs[k], s.idOf) {
      SameIsSymmetric(inputs[j], inputs[k], s.idOf);
    }
    DataIs(s, models, DEFAULTS, inputs, k);
    InstanceKnown(inputs, s.idOf, k);
    ScanFinds(models, s.byId, s.idOf, inputs[k], 0);
    assert models[0..] == models;
  }

  /** What the options say: without `merge` no model changes its attributes; without `add` no model is new;
      without `remove` all models stay, and new ones come after them if no position is given. */
  lemma {:induction false} OptionsMean(s: Intake, models: seq<Cid>, inputs: seq<Input>, o: SetOptions)
    requires Ready(s, models)
    ensures var t := TakeAll(s, inputs, o);
            && (!o.merge ==> forall c :: c in s.data ==> c in t.data && t.data[c] == s.data[c])
            && (!o.add ==> t.toAdd == [] && t.idOf == s.idOf && t.nextCid == s.nextCid)
            && s.nextCid <= t.nextCid && forall c :: c in t.data ==> c < t.nextCid
  {
    if inputs != [] {
      OptionsMean(s, models, inputs[..|inputs| - 1], o);
      hide Ready, Lookup, AttrsOf;
    }
  }

  lemma ResultMeans(s: Intake, models: seq<Cid>, inputs: seq<Input>, o: SetOptions, at: Option<int>)
    requires Ready(s, models) && Known(inputs, s.idOf)
    ensures var t := TakeAll(s, inputs, o);
            var r := Result(models, t, o, at);
            && (!o.add ==> forall c :: c in r ==> c in models)
            && (!o.remove ==> (forall c :: c in models ==> c in r) && (at.None? ==> models <= r))
            && (forall c :: c in r ==> c in models || c in t.toAdd)
            && (forall c :: c in t.toAdd ==> c in r && c !in models && Some(c) in t.reps)
            && (o.remove ==> forall c :: c in r ==> Some(c) in t.reps)
  {
    var t := TakeAll(s, inputs, o);
    var kept := if o.remove then Kept(models, t.seen) else models;
    OptionsMean(s, models, inputs, o);
    StartOk(s, models, o);
    TakeAllKeeps(s, models, o, inputs);
    KeptMembers(models, t.seen);
    SpliceAllKeeps(kept, if at.Some? then at.value else 0, t.toAdd);
    SomesMembers(t.reps);
    ResultFrom(models, t, o, at, kept);
    hide Kept, TakeAll, Ready;
  }

  lemma ResultFrom(models: seq<Cid>, t: Intake, o: SetOptions, at: Option<int>, kept: seq<Cid>)
    requires IntakeOk(t, models, o)
    requires kept == if o.remove then Kept(models, t.seen) else models
    ensures forall c :: c in Result(models, t, o, at) <==>
              if at.None? && o.add && o.remove then Some(c) in t.reps else c in kept || c in t.toAdd
    ensures forall c :: c in t.toAdd ==> c !in models && Some(c) in t.reps
    ensures forall c :: Some(c) in t.reps ==> c in models || c in t.toAdd
    ensures forall c :: c in t.seen ==> Some(c) in t.reps
  {
    var p := if at.Some? then at.value else 0;
    SpliceAllKeeps(kept, p, t.toAdd);
    SomesMembers(t.reps);
    forall c ensures c in SpliceAll(kept, p, t.toAdd) <==> c in kept || c in t.toAdd {
      assert c in SpliceAll(kept, p, t.toAdd) <==> c in multiset(SpliceAll(kept, p, t.toAdd));
      assert c in kept + t.toAdd <==> c in multiset(kept + t.toAdd);
    }
    forall c | c in t.toAdd ensures c !in models {
      NewOnes(models, t.toAdd, c);
    }
    hide Kept, SpliceAll, Somes, NoDup, IndexOk;
  }

  lemma NewOnes(models: seq<Cid>, toAdd: seq<Cid>, c: Cid)
    requires NoDup(models + toAdd) && c in toAdd
    ensures c !in models
  {
    var i :| 0 <= i < |toAdd| && toAdd[i] == c;
    assert (models + toAdd)[|models| + i] == c;
    forall j | 0 <= j < |models| ensures models[j] != c { assert (models + toAdd)[j] == models[j]; }
  }

  /** The models that no input names are gone, and unchanged. */
  lemma OthersGo(s: Intake, models: seq<Cid>, inputs: seq<Input>, c: Cid)
    requires Ready(s, models) && Known(inputs, s.idOf) && c in models
    requires forall j :: 0 <= j < |inputs| ==> Scan(models, s.idOf, inputs[j]) != Some(c)
    ensures var t := TakeAll(s, inputs, DEFAULTS);
            && c !in Result(models, t, DEFAULTS, None)
            && c in t.data && t.data[c] == s.data[c]
  {
    hide *;
    ReadyMeans(s, models);
    var t := TakeAll(s, inputs, DEFAULTS);
    TakeAllKeeps(s, models, DEFAULTS, inputs);
    forall j | 0 <= j < |inputs| ensures t.reps[j] != Some(c) {
      NotRep(s, models, inputs, j, c);
    }
    SomesMembers(t.reps);
    ResultIsSomes(models, t);
    DataUntouched(s, DEFAULTS, inputs, c);
  }

  lemma NotRep(s: Intake, models: seq<Cid>, inputs: seq<Input>, j: nat, c: Cid)
    requires Ready(s, models) && Known(inputs, s.idOf) && c in models && j < |inputs|
    requires Scan(models, s.idOf, inputs[j]) != Some(c)
    ensures c in s.data && c < s.nextCid
    ensures |TakeAll(s, inputs, DEFAULTS).reps| == |inputs| && TakeAll(s, inputs, DEFAULTS).reps[j] != Some(c)
  {
    hide TakeAll, Lookup, IntakeOk, RepOk, NoDup, KeyOk;
    assert MemberOk(s.byId, s.idOf, c);
    ReadyMeans(s, models);
    RepsOk(s, models, DEFAULTS, inputs, j);
    RepMeans(s, models, inputs, j);
    TakeAllKeeps(s, models, DEFAULTS, inputs);
    ScanFinds(models, s.byId, s.idOf, inputs[j], 0);
    assert models[0..] == models;
    var t := TakeAll(s, inputs, DEFAULTS);
    if t.reps[j] == Some(c) {
      FoundAgain(t, s, inputs[j], j, c);
    }
  }

  lemma FoundAgain(t: Intake, s: Intake, input: Input, j: nat, c: Cid)
    requires MemberOk(s.byId, s.idOf, c) && c < s.nextCid && j < |t.reps| && RepOk(t, input, j, s.nextCid)
    requires t.reps[j] == Some(c) && s.idOf[c] == IdOf(input, s.idOf) && IdOf(input, t.idOf) == IdOf(input, s.idOf)
    ensures Lookup(s.byId, s.idOf, input) == Some(c)
  {
  }

  /** Two hashes with the same new id: the list holds the new model twice, and `length` is wrong. */
  lemma SameNewIdTwice()
    ensures var inputs := [NEW, NEW];
            var t := TakeAll(EMPTY, inputs, DEFAULTS);
            && Ready(EMPTY, []) && Repeats(inputs, [], EMPTY.idOf)
            && Result([], t, DEFAULTS, None) == [0, 0]
            && |Kept([], t.seen)| + |t.toAdd| == 1
  {
    hide TakeAll, TakeIn, Lookup, Somes;
    TakenTwice();
    TwoSomes(0, 0);
    var inputs := [NEW, NEW];
    assert Same(inputs[0], inputs[1], EMPTY.idOf);
  }

  lemma TakenTwice()
    ensures var t := TakeAll(EMPTY, [NEW, NEW], DEFAULTS);
            t.reps == [Some(0), Some(0)] && t.toAdd == [0]
  {
    TakeTwo(EMPTY, NEW, NEW);
    var first := Intake(map[ByCid(0) := 0, ById(1) := 0], map[0 := Some(1)], map[0 := map[]], 1, [Some(0)], [0], {});
    assert TakeIn(EMPTY, NEW, DEFAULTS) == first;
    hide TakeAll;
    assert Lookup(first.byId, first.idOf, NEW) == Some(0);
    hide Lookup;
  }

  const EMPTY := Intake(map[], map[], map[], 0, [], [], {})
  const NEW := Hash(Some(1), map[], true)

  lemma TwoSomes(c: Cid, d: Cid)
    ensures Somes([Some(c), Some(d)]) == [c, d]
  {
    assert [Some(c), Some(d)] == [Some(c)] + [Some(d)] && [] + [Some(c)] == [Some(c)];
    SomesSnoc([Some(c)], Some(d));
    SomesSnoc([], Some(c));
  }

  lemma TakeTwo(s: Intake, x: Input, y: Input)
    ensures TakeAll(s, [x, y], DEFAULTS) == TakeIn(TakeIn(s, x, DEFAULTS), y, DEFAULTS)
  {
    assert [x, y][..1] == [x] && [x][..0] == [];
    hide TakeIn;
    assert TakeAll(s, [x], DEFAULTS) == TakeIn(s, x, DEFAULTS);
  }

  // ----- the collection -----

  class CollectionObject {
    var models: seq<Cid>
    var length: int
    var byId: Index
    // the models whose events the collection hears
    var listening: set<Cid>
    // the fields of the model objects
    var idOf: map<Cid, Option<nat>>
    var data: map<Cid, Attrs>
    var nextCid: Cid

    /** All but the length and the absence of duplicates. */
    ghost predicate Indexed()
      reads this
    {
      && IndexOk(byId, idOf, models)
      && listening == Members(models)
      && (forall c :: c in idOf ==> c < nextCid)
      && idOf.Keys == data.Keys
    }

    ghost predicate Valid()
      reads this
    {
      Indexed() && length == |models| && NoDup(models)
    }

    constructor ()
      ensures Valid() && Stored() == NOTHING
    {
      models, length, byId, listening, idOf, data, nextCid := [], 0, map[], {}, map[], map[], 0;
    }

    /** `get`: the index answers as a scan of the list would. */
    method Get(input: Input) returns (r: Option<Cid>)
      ensures r == Lookup(byId, idOf, input)
      ensures IndexOk(byId, idOf, models) && (input.Instance? ==> input.cid in idOf) ==> r == Scan(models, idOf, input)
      // the object itself or the model with the id, or none in the list is either
      ensures IndexOk(byId, idOf, models) && (input.Instance? ==> input.cid in idOf) ==>
                var wanted := if input.Instance? then idOf[input.cid] else input.id;
                match r
                case Some(e) =>
                  e in models && (input == Instance(e) || (wanted.Some? && e in idOf && idOf[e] == wanted))
                case None =>
                  forall c :: c in models ==> input != Instance(c) && !(wanted.Some? && c in idOf && idOf[c] == wanted)
    {
      r := Lookup(byId, idOf, input);
      if IndexOk(byId, idOf, models) && (input.Instance? ==> input.cid in idOf) {
        ScanFinds(models, byId, idOf, input, 0);
        assert models[0..] == models;
        assert forall c :: c in models ==> MemberOk(byId, idOf, c);
        ScanMeans(models, idOf, input);
      }
    }

    /** `remove`. While `set` is adding models, the index also covers `extra`, the models that are not
        listed yet; none of them may be named. */
    method Remove(inputs: seq<Input>, ghost extra: seq<Cid>)
      requires IndexOk(byId, idOf, models + extra) && NoDup(models + extra) && length == |models|
      requires Known(inputs, idOf) && forall c :: c in extra ==> c !in Named(byId, idOf, inputs)
      modifies this`models, this`length, this`byId, this`listening
      ensures models == Without(old(models), Named(old(byId), idOf, inputs)) && length == |models|
      ensures byId == Unindexed(old(byId), Named(old(byId), idOf, inputs))
      ensures listening == old(listening) - Named(old(byId), idOf, inputs)
      // exactly the models that some input fits are gone
      ensures forall c :: c in models <==>
                c in old(models) && forall k :: 0 <= k < |inputs| ==> !Fits(idOf, inputs[k], c)
      ensures IndexOk(byId, idOf, models + extra) && NoDup(models + extra)
    {
      ghost var m0, b0 := models, byId;
      hide IndexOk, NoDup, Without, Unindexed, Named, Lookup, Scan, Known, Fits;
      ghost var gone := {};
      NamedMeans(b0, idOf, m0 + extra, inputs);
      WithoutMembers(m0, Named(b0, idOf, inputs));
      assert forall c :: c in m0 ==> c in m0 + extra;
      WithoutOthers(m0, {});
      NoneNamed(b0, idOf, inputs);
      for i := 0 to |inputs|
        invariant gone == Named(b0, idOf, inputs[..i])
        invariant models == Without(m0, gone) && length == |models|
        invariant byId == Unindexed(b0, gone)
        invariant listening == old(listening) - gone
      {
        InstanceKnown(inputs, idOf, i);
        LookupUnindexed(b0, idOf, m0 + extra, gone, inputs[i]);
        NamedStep(b0, idOf, inputs, i);
        var model := Get(inputs[i]);
        if model.Some? {
          RemoveStep(b0, idOf, m0, extra, gone, model.value, inputs, i);
          Detach(model.value);
          gone := gone + {model.value};
        }
      }
      assert inputs[..|inputs|] == inputs;
      UnindexedOk(b0, idOf, m0 + extra, gone);
      WithoutConcat(m0, extra, gone);
      WithoutOthers(extra, gone);
      WithoutMembers(m0 + extra, gone);
    }

    /** One model goes: from the index, the list and the listeners. */
    method Detach(c: Cid)
      requires NoDup(models) && c in models && c in idOf && length == |models|
      modifies this`models, this`length, this`byId, this`listening
      ensures models == Without(old(models), {c}) && length == |models| && listening == old(listening) - {c}
      ensures byId == (if idOf[c].Some? then old(byId) - {ById(idOf[c].value)} else old(byId)) - {ByCid(c)}
    {
      hide NoDup;
      if idOf[c].Some? { byId := byId - {ById(idOf[c].value)}; }
      byId := byId - {ByCid(c)};
      var index := IndexOf(c);
      SpliceIsWithout(models, index);
      models := models[..index] + models[index + 1..];
      length := length - 1;
      listening := listening - {c};
    }

    method IndexOf(c: Cid) returns (index: nat)
      requires c in models
      ensures index < |models| && models[index] == c
    {
      index := 0;
      while models[index] != c
        invariant index < |models| && c !in models[..index]
        decreases |models| - index
      {
        index := index + 1;
      }
    }

    ghost function Stored(): Store
      reads this
    {
      Store(models, byId, idOf, data, nextCid)
    }

    ghost function Start(): Intake
      reads this
    {
      Intake(byId, idOf, data, nextCid, [], [], {})
    }

    /** `set`, on a collection without a comparator. In the result, None stands for an input that was
        not taken in. */
    method Set(inputs: seq<Input>, o: SetOptions, at: Option<int>) returns (reps: seq<Option<Cid>>)
      requires Valid() && Known(inputs, idOf)
      modifies this
      ensures var t := TakeAll(old(Start()), inputs, o);
              && reps == t.reps && idOf == t.idOf && data == t.data && nextCid == t.nextCid
              && models == Result(old(models), t, o, at) && byId == ResultIndex(old(models), t, o)
      ensures |reps| == |inputs| && Indexed()
      ensures Valid() <==> (o.add && o.remove && at.None? ==> !Repeats(inputs, old(models), old(idOf)))
    {
      hide IndexOk, NoDup, TakeAll, IntakeOk, Distinct, Repeats, Kept, Somes, Members;
      hide SpliceAll, Known, Unindexed, Without;
      ghost var m0, s0 := models, Start();
      StartOk(s0, m0, o);
      DistinctNoDup(s0, m0, o, inputs);
      if o.add { DistinctUnlessRepeats(s0, m0, o, inputs); }
      var toAdd, seen, order;
      reps, toAdd, seen, order := Take(inputs, o);
      ghost var t := TakeAll(s0, inputs, o);
      IntakeMeans(t, m0, o);
      if o.remove { RemoveUnseen(toAdd, seen); }
      ghost var kept := models;
      FinishSet(m0, t, o, at, byId, kept);
      Place(toAdd, order, at);
      assert models == Result(m0, t, o, at);
    }

    /** The end of `set`: the new models are spliced in, or the list is replaced or extended. */
    method Place(toAdd: seq<Cid>, order: Option<seq<Cid>>, at: Option<int>)
      modifies this`models, this`length
      ensures length == old(length) + |toAdd|
      ensures order.Some? && order.value == [] && at.None? && (toAdd == [] ==> old(models) == []) ==> models == []
      ensures at.Some? ==> models == SpliceAll(old(models), at.value, toAdd)
      ensures at.None? && order.Some? && order.value != [] ==> models == order.value
      ensures at.None? && order.None? ==> models == old(models) + toAdd
    {
      ghost var kept := models;
      if toAdd != [] || (order.Some? && order.value != []) {
        length := length + |toAdd|;
        match at
        case Some(p) =>
          for i := 0 to |toAdd|
            invariant models == SpliceAll(kept, p, toAdd[..i]) && length == old(length) + |toAdd|
          {
            assert toAdd[..i + 1][..i] == toAdd[..i];
            models := SpliceIn(models, p + i, toAdd[i]);
          }
          assert toAdd[..|toAdd|] == toAdd;
        case None =>
          models := match order case Some(ordered) => ordered case None => models + toAdd;
      }
    }

    /** The removal in `set`: models that stand for no input go. */
    method RemoveUnseen(toAdd: seq<Cid>, seen: set<Cid>)
      requires IndexOk(byId, idOf, models + toAdd) && NoDup(models + toAdd) && length == |models|
      requires listening == Members(models + toAdd)
      modifies this`models, this`length, this`byId, this`listening
      ensures models == Kept(old(models), seen) && length == |models|
      ensures byId == Unindexed(old(byId), Members(Without(old(models), seen)))
      ensures IndexOk(byId, idOf, models + toAdd) && NoDup(models + toAdd)
      ensures listening == Members(models + toAdd)
    {
      var toRemove := [];
      for i := 0 to |models|
        invariant toRemove == Without(models[..i], seen)
      {
        assert models[..i + 1][..i] == models[..i];
        if models[i] !in seen { toRemove := toRemove + [models[i]]; }
      }
      assert models[..|models|] == models;
      RemovalIsSafe(byId, idOf, models, toAdd, seen);
      hide Without, IndexOk, NoDup, Unindexed, Known, Named, Instances;
      if toRemove != [] {
        Remove(Instances(toRemove), toAdd);
      }
    }

    /** The first loop of `set`. */
    method Take(inputs: seq<Input>, o: SetOptions)
      returns (reps: seq<Option<Cid>>, toAdd: seq<Cid>, seen: set<Cid>, order: Option<seq<Cid>>)
      requires Valid() && Known(inputs, idOf)
      modifies this`byId, this`listening, this`idOf, this`data, this`nextCid
      ensures TakeAll(old(Start()), inputs, o) == Intake(byId, idOf, data, nextCid, reps, toAdd, seen)
      ensures IntakeOk(Intake(byId, idOf, data, nextCid, reps, toAdd, seen), models, o)
      ensures listening == Members(models + toAdd)
      ensures order == if o.add && o.remove then Some(Somes(reps)) else None
    {
      ghost var s0 := Start();
      reps, toAdd, seen := [], [], {};
      order := if o.add && o.remove then Some([]) else None;
      assert models + toAdd == models;
      StartOk(s0, models, o);
      assert Somes(reps) == [];
      hide IntakeOk, IndexOk, NoDup, Lookup, Scan, TakeIn, Members;
      for i := 0 to |inputs|
        invariant TakeAll(s0, inputs[..i], o) == Intake(byId, idOf, data, nextCid, reps, toAdd, seen)
        invariant IntakeOk(Intake(byId, idOf, data, nextCid, reps, toAdd, seen), models, o)
        invariant forall c :: c in s0.idOf ==> c in idOf
        invariant listening == Members(models + toAdd)
        invariant order == if o.add && o.remove then Some(Somes(reps)) else None
      {
        var input := inputs[i];
        assert inputs[..i + 1][..i] == inputs[..i];
        TakeInKeeps(Intake(byId, idOf, data, nextCid, reps, toAdd, seen), models, o, input);
        var rep, added := TakeOne(input, o, reps, toAdd, seen);
        SomesSnoc(reps, rep);
        ghost var ordered := Somes(reps);
        reps := reps + [rep];
        if order.Some? && rep.Some? { order := Some(order.value + [rep.value]); }
        assert Somes(reps) == ordered + (if rep.Some? then [rep.value] else []);
        assert rep == None ==> Somes(reps) == ordered;
        hide Somes;
        if added {
          MembersSnoc(models, toAdd, rep.value);
          toAdd := toAdd + [rep.value];
        } else if rep.Some? && o.remove {
          seen := seen + {rep.value};
        }
      }
      assert inputs[..|inputs|] == inputs;
    }

    /** One turn: finds, merges into, or makes and indexes the model for an input. */
    method TakeOne(input: Input, o: SetOptions,
                   ghost reps: seq<Option<Cid>>, ghost toAdd: seq<Cid>, ghost seen: set<Cid>)
      returns (rep: Option<Cid>, added: bool)
      requires IntakeOk(Intake(byId, idOf, data, nextCid, reps, toAdd, seen), models, o)
      requires input.Instance? ==> input.cid in idOf
      modifies this`byId, this`listening, this`idOf, this`data, this`nextCid
      ensures added ==> rep.Some?
      ensures TakeIn(old(Intake(byId, idOf, data, nextCid, reps, toAdd, seen)), input, o)
              == Intake(byId, idOf, data, nextCid, reps + [rep],
                        if added then toAdd + [rep.value] else toAdd,
                        if rep.Some? && !added && o.remove then seen + {rep.value} else seen)
      ensures listening == if added then old(listening) + {rep.value} else old(listening)
    {
      LookupIn(Intake(byId, idOf, data, nextCid, reps, toAdd, seen), models, o, input);
      assert input.Instance? ==> input.cid in idOf;
      hide IntakeOk, IndexOk, Lookup, Scan;
      rep := Get(input);
      added := false;
      if rep.Some? {
        if o.merge { data := data[rep.value := data[rep.value] + AttrsOf(data, input)]; }
      } else if o.add {
        rep := Prepare(input);
        if rep.Some? {
          var c := rep.value;
          added := true;
          listening := listening + {c};
          byId := byId[ByCid(c) := c];
          if idOf[c].Some? { byId := byId[ById(idOf[c].value) := c]; }
        }
      }
    }

    /** `add`. */
    method Add(inputs: seq<Input>, merge: bool, at: Option<int>) returns (reps: seq<Option<Cid>>)
      requires Valid() && Known(inputs, idOf)
      modifies this
      ensures Valid() && |reps| == |inputs|
      ensures var o := SetOptions(true, merge, false);
              var t := TakeAll(old(Start()), inputs, o);
              && reps == t.reps && idOf == t.idOf && data == t.data && nextCid == t.nextCid
              && models == Result(old(models), t, o, at) && byId == t.byId
    {
      reps := Set(inputs, SetOptions(true, merge, false), at);
    }

    /** `reset`. */
    method Reset(inputs: seq<Input>) returns (reps: seq<Option<Cid>>)
      requires Valid() && Known(inputs, idOf)
      modifies this
      ensures Valid() && |reps| == |inputs|
      ensures var t := TakeAll(old(Start()).(byId := map[]), inputs, SetOptions(true, false, false));
              && reps == t.reps && idOf == t.idOf && data == t.data && nextCid == t.nextCid
              && models == t.toAdd && byId == t.byId
    {
      listening := listening - Members(models);
      models, length, byId := [], 0, map[];
      reps := Add(inputs, false, None);
    }

    /** A model gets another id; the collection hears `change:id` if the model is listed. */
    method ChangeId(c: Cid, id: Option<nat>)
      requires Valid() && c in idOf
      modifies this`idOf, this`byId
      ensures idOf == old(idOf)[c := id]
      ensures byId == if c in models && id != old(idOf)[c] then Rekeyed(old(byId), c, old(idOf)[c], id) else old(byId)
      ensures Valid() <==> (c in models && id.Some? ==> forall d :: d in models && d != c ==> idOf[d] != id)
    {
      hide IndexOk, NoDup, Scan;
      var previous := idOf[c];
      IdChanged(byId, idOf, models, c, id,
                if c in models && id != previous then Rekeyed(byId, c, previous, id) else byId);
      if id != previous {
        idOf := idOf[c := id];
        if c in listening {
          if previous.Some? { byId := byId - {ById(previous.value)}; }
          if id.Some? { byId := byId[ById(id.value) := c]; }
        }
      }
    }

    /** A model object that is made elsewhere, in no collection. */
    method NewModel(id: Option<nat>, attrs: Attrs)
      requires Valid()
      modifies this`idOf, this`data, this`nextCid
      ensures Valid() && nextCid == old(nextCid) + 1
      ensures idOf == old(idOf)[old(nextCid) := id] && data == old(data)[old(nextCid) := attrs]
    {
      UnknownModel(byId, idOf, models, nextCid, id);
      hide IndexOk;
      idOf, data, nextCid := idOf[nextCid := id], data[nextCid := attrs], nextCid + 1;
    }

    /** `_prepareModel`. */
    method Prepare(input: Input) returns (model: Option<Cid>)
      modifies this`idOf, this`data, this`nextCid
      ensures input.Instance? ==> model == Some(input.cid)
      ensures input.Hash? && input.valid ==> model == Some(old(nextCid)) && nextCid == old(nextCid) + 1
      ensures input.Hash? && input.valid ==> idOf == old(idOf)[old(nextCid) := input.id]
      ensures input.Hash? && input.valid ==> data == old(data)[old(nextCid) := input.attrs]
      ensures input.Hash? && !input.valid ==> model == None
      ensures (input.Hash? && input.valid) || (idOf == old(idOf) && data == old(data) && nextCid == old(nextCid))
    {
      match input
      case Instance(c) => model := Some(c);
      case Hash(id, attrs, valid) =>
        if valid {
          model := Some(nextCid);
          idOf, data, nextCid := idOf[nextCid := id], data[nextCid := attrs], nextCid + 1;
        } else {
          model := None;
        }
    }
  }

  lemma IntakeMeans(t: Intake, models: seq<Cid>, o: SetOptions)
    requires IntakeOk(t, models, o)
    ensures IndexOk(t.byId, t.idOf, models + t.toAdd) && NoDup(models + t.toAdd)
    ensures t.idOf.Keys == t.data.Keys && forall c :: c in t.idOf ==> c < t.nextCid
  {
  }

  lemma StartOk(s: Intake, models: seq<Cid>, o: SetOptions)
    requires Ready(s, models)
    ensures IntakeOk(s, models, o)
  {
    assert models + s.toAdd == models;
    assert forall c :: c in models ==> MemberOk(s.byId, s.idOf, c);
  }

  lemma RemovalIsSafe(byId: Index, idOf: map<Cid, Option<nat>>, models: seq<Cid>, toAdd: seq<Cid>, seen: set<Cid>)
    requires IndexOk(byId, idOf, models + toAdd) && NoDup(models + toAdd)
    ensures var toRemove := Without(models, seen);
            && Known(Instances(toRemove), idOf)
            && Named(byId, idOf, Instances(toRemove)) == Members(toRemove)
            && (forall c :: c in toAdd ==> c !in Members(toRemove))
            && (toRemove == [] ==> models == Kept(models, seen) && Unindexed(byId, Members(toRemove)) == byId)
            && Members(models + toAdd) - Members(toRemove) == Members(Kept(models, seen) + toAdd)
  {
    var toRemove := Without(models, seen);
    WithoutMembers(models, seen);
    OldAndNew(models, toAdd);
    NamedInstances(byId, idOf, models + toAdd, toRemove);
    WithoutMembers(models, Members(toRemove));
    if toRemove == [] { WithoutOthers(models, Members(toRemove)); }
  }

  lemma OldAndNew(models: seq<Cid>, toAdd: seq<Cid>)
    requires NoDup(models + toAdd)
    ensures forall c :: c in toAdd ==> c !in models
    ensures NoDup(models)
  {
    assert forall i :: 0 <= i < |models| ==> models[i] == (models + toAdd)[i];
    assert forall j :: 0 <= j < |toAdd| ==> toAdd[j] == (models + toAdd)[|models| + j];
  }

  lemma NoneNamed(byId: Index, idOf: map<Cid, Option<nat>>, inputs: seq<Input>)
    ensures Unindexed(byId, {}) == byId && Named(byId, idOf, inputs[..0]) == {}
  {
  }

  lemma NamedStep(byId: Index, idOf: map<Cid, Option<nat>>, inputs: seq<Input>, i: nat)
    requires i < |inputs|
    ensures Named(byId, idOf, inputs[..i + 1]) == Named(byId, idOf, inputs[..i])
              + (if Lookup(byId, idOf, inputs[i]).Some? then {Lookup(byId, idOf, inputs[i]).value} else {})
    ensures Lookup(byId, idOf, inputs[i]).Some? ==> Lookup(byId, idOf, inputs[i]).value in Named(byId, idOf, inputs)
  {
    assert forall k :: 0 <= k < i ==> inputs[..i + 1][k] == inputs[..i][k];
    assert inputs[..i + 1][i] == inputs[i];
  }

  lemma RemoveStep(b0: Index, idOf: map<Cid, Option<nat>>, m0: seq<Cid>, extra: seq<Cid>, gone: set<Cid>, c: Cid,
                   inputs: seq<Input>, i: nat)
    requires IndexOk(b0, idOf, m0 + extra) && NoDup(m0 + extra)
    requires i < |inputs| && Lookup(b0, idOf, inputs[i]) == Some(c) && c !in gone && c !in extra
    requires inputs[i].Instance? ==> inputs[i].cid in idOf
    ensures c in Without(m0, gone) && c in idOf
    ensures NoDup(Without(m0, gone))
    ensures var b := Unindexed(b0, gone);
            (if idOf[c].Some? then b - {ById(idOf[c].value)} else b) - {ByCid(c)} == Unindexed(b0, gone + {c})
    ensures Without(Without(m0, gone), {c}) == Without(m0, gone + {c})
  {
    LookupIsMember(b0, idOf, m0 + extra, inputs[i]);
    assert MemberOk(b0, idOf, c);
    WithoutMembers(m0, gone);
    assert NoDup(m0) by { assert forall k :: 0 <= k < |m0| ==> (m0 + extra)[k] == m0[k]; }
    WithoutConcat(m0, extra, gone);
    WithoutMembers(m0 + extra, gone);
    UnindexedOk(b0, idOf, m0 + extra, gone);
    DeleteKeys(Unindexed(b0, gone), idOf, Without(m0 + extra, gone), c);
    assert Unindexed(Unindexed(b0, gone), {c}) == Unindexed(b0, gone + {c});
    WithoutTwice(m0, gone, {c});
  }

  lemma LookupIsMember(byId: Index, idOf: map<Cid, Option<nat>>, members: seq<Cid>, input: Input)
    requires IndexOk(byId, idOf, members) && Lookup(byId, idOf, input).Some?
    ensures Lookup(byId, idOf, input).value in members
  {
    var k := if input.Hash? then ById(input.id.value)
             else if input.cid in idOf && idOf[input.cid].Some? && ById(idOf[input.cid].value) in byId
             then ById(idOf[input.cid].value)
             else ByCid(input.cid);
    assert KeyOk(byId, idOf, members, k);
  }

  lemma UnknownModel(byId: Index, idOf: map<Cid, Option<nat>>, models: seq<Cid>, c: Cid, id: Option<nat>)
    requires IndexOk(byId, idOf, models) && c !in idOf
    ensures IndexOk(byId, idOf[c := id], models)
  {
    forall d | d in models ensures MemberOk(byId, idOf[c := id], d) { assert MemberOk(byId, idOf, d); }
    forall k | k in byId ensures KeyOk(byId, idOf[c := id], models, k) { assert KeyOk(byId, idOf, models, k); }
  }

  // ----- runs of operations -----

  /** The operations of a collection, and the making of model objects elsewhere. */
  datatype Operation =
    | Adding(inputs: seq<Input>, merge: bool, at: Option<int>)
    | Removing(inputs: seq<Input>)
    | Setting(inputs: seq<Input>, options: SetOptions, at: Option<int>)
    | Resetting(inputs: seq<Input>)
    | Renaming(model: Cid, id: Option<nat>)
    | Making(id: Option<nat>, attrs: Attrs)

  /** Model objects that are passed in exist; a replacing `set` does not name a model again; a listed model
      gets an id that no other listed model has. */
  predicate Allowed(op: Operation, models: seq<Cid>, idOf: map<Cid, Option<nat>>) {
    match op
    case Making(_, _) => true
    case Renaming(c, id) =>
      c in idOf && (c in models && id.Some? ==> forall d :: d in models && d != c && d in idOf ==> idOf[d] != id)
    case Setting(inputs, o, at) =>
      Known(inputs, idOf) && (o.add && o.remove && at.None? ==> !Repeats(inputs, models, idOf))
    case _ => Known(op.inputs, idOf)
  }

  /** A collection and the model objects, as values. */
  datatype Store = Store(models: seq<Cid>, byId: Index, idOf: map<Cid, Option<nat>>, data: map<Cid, Attrs>,
                         nextCid: Cid)

  const NOTHING := Store([], map[], map[], map[], 0)

  function Took(u: Store, inputs: seq<Input>, o: SetOptions, at: Option<int>): Store {
    var t := TakeAll(Intake(u.byId, u.idOf, u.data, u.nextCid, [], [], {}), inputs, o);
    Store(Result(u.models, t, o, at), ResultIndex(u.models, t, o), t.idOf, t.data, t.nextCid)
  }

  /** What an operation does. */
  function AfterOperation(u: Store, op: Operation): Store {
    match op
    case Adding(inputs, merge, at) => Took(u, inputs, SetOptions(true, merge, false), at)
    case Setting(inputs, o, at) => Took(u, inputs, o, at)
    case Resetting(inputs) => Took(u.(models := [], byId := map[]), inputs, SetOptions(true, false, false), None)
    case Removing(inputs) =>
      var gone := Named(u.byId, u.idOf, inputs);
      u.(models := Without(u.models, gone), byId := Unindexed(u.byId, gone))
    case Renaming(c, id) =>
      if c !in u.idOf then u
      else
        u.(idOf := u.idOf[c := id],
           byId := if c in u.models && id != u.idOf[c] then Rekeyed(u.byId, c, u.idOf[c], id) else u.byId)
    case Making(id, attrs) =>
      u.(idOf := u.idOf[u.nextCid := id], data := u.data[u.nextCid := attrs], nextCid := u.nextCid + 1)
  }

  function Played(ops: seq<Operation>): Store {
    if ops == [] then NOTHING
    else
      var u, op := Played(ops[..|ops| - 1]), ops[|ops| - 1];
      if Allowed(op, u.models, u.idOf) then AfterOperation(u, op) else u
  }

  lemma PlayedSnoc(ops: seq<Operation>, op: Operation)
    ensures var u := Played(ops);
            Played(ops + [op]) == if Allowed(op, u.models, u.idOf) then AfterOperation(u, op) else u
  {
    assert (ops + [op])[..|ops|] == ops;
  }

  method Perform(c: CollectionObject, op: Operation)
    requires c.Valid() && Allowed(op, c.models, c.idOf)
    modifies c
    ensures c.Valid() && c.Stored() == AfterOperation(old(c.Stored()), op)
  {
    hide IndexOk, NoDup, TakeAll, Unindexed, Without, Members, Repeats, Known, Named, Rekeyed, Kept, Somes, SpliceAll;
    match op
    case Adding(inputs, merge, at) => var reps := c.Add(inputs, merge, at);
    case Removing(inputs) =>
      Plain(c.byId, c.idOf, c.models, c.listening, Named(c.byId, c.idOf, inputs));
      c.Remove(inputs, []);
    case Setting(inputs, o, at) => var reps := c.Set(inputs, o, at);
    case Resetting(inputs) => var reps := c.Reset(inputs);
    case Renaming(model, id) =>
      ListedAreKnown(c);
      c.ChangeId(model, id);
    case Making(id, attrs) => c.NewModel(id, attrs);
  }

  lemma ListedAreKnown(c: CollectionObject)
    requires c.Valid()
    ensures forall d :: d in c.models ==> d in c.idOf
  {
    assert forall d :: d in c.models ==> MemberOk(c.byId, c.idOf, d);
  }

  lemma Plain(byId: Index, idOf: map<Cid, Option<nat>>, models: seq<Cid>, listening: set<Cid>, gone: set<Cid>)
    requires listening == Members(models)
    ensures models + [] == models && Without(models, gone) + [] == Without(models, gone)
    ensures listening - gone == Members(Without(models, gone))
  {
    WithoutMembers(models, gone);
  }

  /** Any run of operations, from an empty collection, that performs those that are allowed: their outcome,
      in a collection whose index agrees with its list. */
  method Run(ops: seq<Operation>) returns (c: CollectionObject)
    ensures fresh(c) && c.Valid() && c.Stored() == Played(ops)
  {
    hide CollectionObject.Valid, Played, AfterOperation, Allowed;
    c := new CollectionObject();
    NothingPlayed();
    assert ops[..0] == [];
    for k := 0 to |ops|
      invariant fresh(c) && c.Valid() && c.Stored() == Played(ops[..k])
    {
      assert ops[..k + 1] == ops[..k] + [ops[k]];
      PlayedSnoc(ops[..k], ops[k]);
      if Allowed(ops[k], c.models, c.idOf) { Perform(c, ops[k]); }
    }
    assert ops[..|ops|] == ops;
  }

  lemma NothingPlayed()
    ensures Played([]) == NOTHING
  {
  }
}
