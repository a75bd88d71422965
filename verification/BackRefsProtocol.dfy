/** The reconcile worker of ImageBuildEnvs step by step, with lost requests, lost responses, stale reads of Secrets and a
    crash possible at every step, among outsiders who edit and delete ImageBuildEnvs and Secrets. */
module BackRefsProtocol {
  import opened Wrappers
  import opened Cluster
  import opened OwnerRefs
  import opened BackRefs

  /** What the worker is doing, with the ImageBuildEnv as it holds it in memory. */
  datatype Worker =
    | Idle
    | Finalizing(name: string, inst: Env)
    | Loading(name: string, inst: Env)
    | Deleting(name: string, inst: Env, refs: seq<Input>, pending: seq<string>)
    | Unlinking(name: string, inst: Env, refs: seq<Input>, pending: seq<string>, copy: Option<Secret>)
    | Adding(name: string, inst: Env, refs: seq<Input>, next: nat)
    | Releasing(name: string, inst: Env)
    | Reporting(name: string, inst: Env)

  datatype State = State(db: Db, worker: Worker)

  datatype Action =
    // The worker.
    | Begin(name: string)
    | PutFinalizer(f: Fault)
    | Load(inputs: Option<seq<Input>>)
    | Fetch(copy: Option<Secret>)
    | FailFetch
    | Unlink(f: Fault)
    | Persist(f: Fault)
    | AddOne(f: Fault)
    | WriteOutput(name: string, copy: Option<Secret>, data: string, f: Fault)
    | Release(f: Fault)
    | Report(c: Condition, f: Fault)
    | Crash
    // Outsiders.
    | CreateEnv(name: string, env: Env)
    | EditEnv(name: string, env: Env)
    | PutSecret(name: string, refs: Refs, data: string)
    | DeleteSecret(name: string)

  /** A read returns the stored Secret or another one of an older version. */
  predicate SecretRead(db: Db, name: string, copy: Secret) {
    copy.version <= db.rev
    && (name in db.secrets && db.secrets[name].version == copy.version ==> copy == db.secrets[name])
  }

  predicate InputsRead(db: Db, refs: seq<Input>) {
    forall k :: 0 <= k < |refs| ==> SecretRead(db, refs[k].name, refs[k].copy)
  }

  predicate BorneBy(db: Db, n: string, o: Owner) {
    n in db.secrets && Bears(db.secrets[n].refs, o)
  }

  /** The read before a deletion shows the back reference if there is one: the condition that deleting relies on. */
  predicate Reveals(db: Db, n: string, copy: Option<Secret>, o: Owner) {
    BorneBy(db, n, o) ==> copy.Some? && Mentions(copy.value.refs, o)
  }

  predicate ExistingRefs(g: Group, db: Db, name: string, refs: Refs) {
    forall r :: r in refs && IsEnvRef(g, r) ==> name in db.secrets && r in db.secrets[name].refs
  }

  /** What may happen if reads of Secrets may be of any age. */
  predicate Possible(g: Group, s: State, a: Action) {
    match a
    case Begin(name) => s.worker.Idle? && name in s.db.envs
    case PutFinalizer(_) => s.worker.Finalizing?
    case Load(inputs) =>
      s.worker.Loading? && (inputs.Some? ==> InputsRead(s.db, inputs.value) && Names(inputs.value) == s.worker.inst.spec)
    case Fetch(copy) =>
      && s.worker.Deleting? && s.worker.pending != []
      && (copy.Some? ==> SecretRead(s.db, s.worker.pending[0], copy.value))
    case FailFetch => s.worker.Deleting? && s.worker.pending != []
    case Unlink(_) => s.worker.Unlinking? && s.worker.pending != []
    case Persist(_) => s.worker.Deleting? && s.worker.pending == []
    case AddOne(_) => s.worker.Adding?
    case WriteOutput(name, copy, _, _) => s.worker.Reporting? && (copy.Some? ==> SecretRead(s.db, name, copy.value))
    case Release(_) => s.worker.Releasing?
    case Report(_, _) => s.worker.Reporting?
    case Crash => true
    // A new object has no status. Edits keep identity and the operator's finalizer and never undo a deletion.
    case CreateEnv(name, env) =>
      name !in s.db.envs && env.statusRefs == [] && env.condition.None? && !env.deleting && env.version == s.db.rev + 1
    case EditEnv(name, env) =>
      && name in s.db.envs && env.version == s.db.rev + 1
      && var e := s.db.envs[name];
         && env.uid == e.uid && env.finalizer == e.finalizer && env.statusRefs == e.statusRefs
         && env.condition == e.condition && (e.deleting ==> env.deleting)
    // Back references may be dropped but not forged.
    case PutSecret(name, refs, _) => Unique(refs) && ExistingRefs(g, s.db, name, refs)
    case DeleteSecret(name) => name in s.db.secrets
  }

  predicate Enabled(g: Group, s: State, a: Action) {
    && Possible(g, s, a)
    && (a.Fetch? ==> Reveals(s.db, s.worker.pending[0], a.copy, OwnerOf(g, s.worker.name, s.worker.inst.uid)))
  }

  /** After a failure the condition is reported, and with it the status held in memory, unless the object is deleted. */
  function Fail(name: string, inst: Env): Worker {
    if inst.deleting then Idle else Reporting(name, inst)
  }

  function Started(name: string, inst: Env): Worker {
    if inst.deleting then
      if inst.finalizer then Deleting(name, inst, [], Minus(inst.statusRefs, [])) else Idle
    else if !inst.finalizer then Finalizing(name, inst)
    else Loading(name, inst)
  }

  function Loaded(name: string, inst: Env, inputs: Option<seq<Input>>): Worker {
    match inputs
    case None => Reporting(name, inst)
    case Some(refs) => Deleting(name, inst, refs, Minus(inst.statusRefs, Names(refs)))
  }

  function Persisted(name: string, p: Outcome, refs: seq<Input>): Worker {
    if p.ok then Adding(name, p.inst, refs, 0) else Fail(name, p.inst)
  }

  function AddNext(g: Group, db: Db, w: Worker, f: Fault): (Db, Worker)
    requires w.Adding?
  {
    if w.next >= |w.refs| then
      (db, if w.inst.deleting then Releasing(w.name, w.inst) else Reporting(w.name, w.inst))
    else
      var (after, ok) := AddStep(db, OwnerOf(g, w.name, w.inst.uid), w.refs[w.next], f);
      (after, if ok then w.(next := w.next + 1) else Fail(w.name, w.inst))
  }

  function UnlinkNext(g: Group, db: Db, w: Worker, f: Fault): (Db, Worker)
    requires w.Unlinking? && w.pending != []
  {
    var (after, ok) := DelStep(db, OwnerOf(g, w.name, w.inst.uid), w.pending[0], w.copy, f);
    (after, if ok then Deleting(w.name, w.inst, w.refs, w.pending[1..]) else Fail(w.name, w.inst))
  }

  function Apply(g: Group, s: State, a: Action): State
    requires Possible(g, s, a)
  {
    var w := s.worker;
    match a
    case Begin(name) => s.(worker := Started(name, s.db.envs[name]))
    case PutFinalizer(f) =>
      var (after, ok) := PutEnvFinalizer(s.db, w.name, w.inst, true, f);
      State(after, if ok then Idle else Reporting(w.name, w.inst))
    case Load(inputs) => s.(worker := Loaded(w.name, w.inst, inputs))
    case Fetch(copy) => s.(worker := Unlinking(w.name, w.inst, w.refs, w.pending, copy))
    case FailFetch => s.(worker := Fail(w.name, w.inst))
    case Unlink(f) => var (after, w') := UnlinkNext(g, s.db, w, f); State(after, w')
    case Persist(f) =>
      var p := PersistRefs(s.db, w.name, w.inst, w.refs, f);
      State(p.db, Persisted(w.name, p, w.refs))
    case AddOne(f) => var (after, w') := AddNext(g, s.db, w, f); State(after, w')
    case WriteOutput(name, copy, data, f) => s.(db := PutOutput(s.db, OwnerOf(g, w.name, w.inst.uid), name, copy, data, f).0)
    case Release(f) => State(PutEnvFinalizer(s.db, w.name, w.inst, false, f).0, Idle)
    case Report(c, f) => State(PutEnvStatus(s.db, w.name, w.inst.(condition := Some(c)), f).0, Idle)
    case Crash => s.(worker := Idle)
    case CreateEnv(name, env) => s.(db := PlaceEnv(s.db, name, env))
    case EditEnv(name, env) => s.(db := PlaceEnv(s.db, name, env))
    case PutSecret(name, refs, data) => s.(db := PlaceSecret(s.db, name, refs, data))
    case DeleteSecret(name) => s.(db := s.db.(secrets := s.db.secrets - {name}))
  }

  /** A deleted object without any finalizer is gone. */
  function PlaceEnv(db: Db, name: string, env: Env): Db {
    db.(rev := db.rev + 1,
        envs := if env.deleting && !env.finalizer && !env.otherFinalizers then db.envs - {name} else db.envs[name := env])
  }

  function PlaceSecret(db: Db, name: string, refs: Refs, data: string): Db {
    db.(rev := db.rev + 1, secrets := db.secrets[name := Secret(db.rev + 1, refs, data)])
  }

  // ----- The invariant -----

  predicate DbOk(g: Group, db: Db) {
    && Safe(g, db) && UniqueLists(db)
    && (forall n :: n in db.secrets ==> db.secrets[n].version <= db.rev)
    && (forall e :: e in db.envs ==> db.envs[e].version <= db.rev)
  }

  /** The copy in memory is the stored object, status apart, as long as its version is. */
  predicate Tracks(db: Db, name: string, inst: Env) {
    && inst.version <= db.rev
    && (name in db.envs && db.envs[name].version == inst.version ==>
          inst == db.envs[name].(statusRefs := inst.statusRefs, condition := inst.condition))
  }

  /** The object cannot vanish while its finalizer is set. */
  predicate Held(db: Db, name: string, inst: Env) {
    && Tracks(db, name, inst)
    && name in db.envs && db.envs[name].uid == inst.uid && db.envs[name].finalizer
    && db.envs[name].statusRefs == inst.statusRefs
  }

  /** Only these Secrets mention the owner. */
  ghost predicate OnlyIn(g: Group, db: Db, name: string, uid: string, names: seq<string>) {
    forall n :: BorneBy(db, n, OwnerOf(g, name, uid)) ==> n in names
  }

  ghost predicate WorkerOk(g: Group, db: Db, w: Worker) {
    match w
    case Idle => true
    case Finalizing(name, inst) => Tracks(db, name, inst) && OnlyIn(g, db, name, inst.uid, inst.statusRefs)
    case Loading(name, inst) => Held(db, name, inst) && !inst.deleting
    case Deleting(name, inst, refs, pending) =>
      && Held(db, name, inst) && InputsRead(db, refs) && (inst.deleting ==> refs == [])
      && OnlyIn(g, db, name, inst.uid, Names(refs) + pending)
    case Unlinking(name, inst, refs, pending, copy) =>
      && Held(db, name, inst) && InputsRead(db, refs) && (inst.deleting ==> refs == [])
      && OnlyIn(g, db, name, inst.uid, Names(refs) + pending)
      && pending != [] && (copy.Some? ==> SecretRead(db, pending[0], copy.value))
      && Reveals(db, pending[0], copy, OwnerOf(g, name, inst.uid))
    case Adding(name, inst, refs, next) =>
      && Held(db, name, inst) && InputsRead(db, refs)
      && (inst.deleting ==> refs == [] && OnlyIn(g, db, name, inst.uid, []))
      && (forall k :: 0 <= k < |refs| ==> refs[k].name in inst.statusRefs)
    case Releasing(name, inst) => Held(db, name, inst) && OnlyIn(g, db, name, inst.uid, [])
    case Reporting(name, inst) => Tracks(db, name, inst) && OnlyIn(g, db, name, inst.uid, inst.statusRefs)
  }

  ghost predicate Inv(g: Group, s: State) {
    DbOk(g, s.db) && WorkerOk(g, s.db, s.worker)
  }

  // ----- Every step keeps the invariant -----

  lemma SafeMeansOnlyIn(g: Group, db: Db, name: string, uid: string)
    requires Safe(g, db)
    ensures name in db.envs ==> OnlyIn(g, db, name, uid, db.envs[name].statusRefs)
    ensures name !in db.envs || !db.envs[name].finalizer ==> OnlyIn(g, db, name, uid, [])
  {
    forall n | BorneBy(db, n, OwnerOf(g, name, uid))
      ensures name in db.envs && n in db.envs[name].statusRefs && db.envs[name].finalizer
    {
      SafeGivesFinalizer(g, db, n, name, uid);
    }
  }

  lemma EntryIsBorne(db: Db, n: string, r: OwnerReference, o: Owner)
    requires n in db.secrets && r in db.secrets[n].refs && Matches(r, o) && !r.controller
    ensures BorneBy(db, n, o)
  {
  }

  lemma BeginKeepsInv(g: Group, db: Db, name: string)
    requires DbOk(g, db) && name in db.envs
    ensures WorkerOk(g, db, Started(name, db.envs[name]))
  {
    SafeMeansOnlyIn(g, db, name, db.envs[name].uid);
  }

  lemma LoadKeepsInv(g: Group, db: Db, w: Worker, inputs: Option<seq<Input>>)
    requires DbOk(g, db) && w.Loading? && WorkerOk(g, db, w)
    requires inputs.Some? ==> InputsRead(db, inputs.value)
    ensures WorkerOk(g, db, Loaded(w.name, w.inst, inputs))
  {
    SafeMeansOnlyIn(g, db, w.name, w.inst.uid);
  }

  /** The ImageBuildEnv's status write: safe when the new list has every Secret that mentions the owner. */
  lemma StatusKeepsDb(g: Group, db: Db, name: string, inst: Env, f: Fault)
    requires DbOk(g, db) && Tracks(db, name, inst) && OnlyIn(g, db, name, inst.uid, inst.statusRefs)
    ensures DbOk(g, PutEnvStatus(db, name, inst, f).0)
  {
    var after := PutEnvStatus(db, name, inst, f).0;
    forall n, r | n in after.secrets && r in after.secrets[n].refs && IsEnvRef(g, r)
      ensures r.name in after.envs && after.envs[r.name].uid == r.uid && after.envs[r.name].finalizer
              && n in after.envs[r.name].statusRefs
    {
      if r.name == name {
        EntryIsBorne(db, n, r, OwnerOf(g, name, inst.uid));
      }
    }
  }

  lemma PersistKeepsInv(g: Group, db: Db, w: Worker, f: Fault)
    requires DbOk(g, db) && w.Deleting? && w.pending == [] && WorkerOk(g, db, w)
    ensures var p := PersistRefs(db, w.name, w.inst, w.refs, f);
            DbOk(g, p.db) && WorkerOk(g, p.db, Persisted(w.name, p, w.refs))
  {
    var names := Names(w.refs);
    NoDifference(w.inst.statusRefs, names);
    assert names + [] == names;
    assert forall k :: 0 <= k < |w.refs| ==> names[k] == w.refs[k].name && names[k] in names;
    StatusKeepsDb(g, db, w.name, w.inst.(statusRefs := names), f);
  }

  /** What a write to one Secret leaves as it is. */
  predicate SecretsMove(db: Db, db': Db) {
    && db'.envs == db.envs && db'.rev >= db.rev
    && forall n :: n in db'.secrets ==>
         (n in db.secrets && db'.secrets[n] == db.secrets[n]) || db'.secrets[n].version > db.rev
  }

  lemma UnlinkKeepsInv(g: Group, db: Db, w: Worker, f: Fault)
    requires DbOk(g, db) && w.Unlinking? && WorkerOk(g, db, w)
    ensures var (after, w') := UnlinkNext(g, db, w, f);
            DbOk(g, after) && WorkerOk(g, after, w')
  {
    var o := OwnerOf(g, w.name, w.inst.uid);
    var (after, ok) := DelStep(db, o, w.pending[0], w.copy, f);
    DelStepKeepsDb(g, db, o, w.pending[0], w.copy, f);
    SafeMeansOnlyIn(g, after, w.name, w.inst.uid);
    if ok {
      var names := Names(w.refs);
      forall n | BorneBy(after, n, o)
        ensures n in names + w.pending[1..]
      {
        assert n in names + w.pending && n != w.pending[0];
      }
    }
  }

  /** A back reference that the stored ImageBuildEnv vouches for. */
  predicate Vouched(db: Db, n: string, r: OwnerReference) {
    && r.name in db.envs && db.envs[r.name].uid == r.uid
    && db.envs[r.name].finalizer && n in db.envs[r.name].statusRefs
  }

  lemma PlaceSecretKeepsDb(g: Group, db: Db, n: string, refs: Refs, data: string)
    requires DbOk(g, db) && Unique(refs)
    requires forall r :: r in refs && IsEnvRef(g, r) ==> Vouched(db, n, r)
    ensures DbOk(g, PlaceSecret(db, n, refs, data)) && SecretsMove(db, PlaceSecret(db, n, refs, data))
  {
  }

  lemma DelStepKeepsDb(g: Group, db: Db, o: Owner, n: string, copy: Option<Secret>, f: Fault)
    requires DbOk(g, db) && (copy.Some? ==> SecretRead(db, n, copy.value)) && Reveals(db, n, copy, o)
    ensures var (after, ok) := DelStep(db, o, n, copy, f);
            && DbOk(g, after) && SecretsMove(db, after)
            && (forall k :: BorneBy(after, k, o) ==> BorneBy(db, k, o))
            && (ok ==> !BorneBy(after, n, o))
  {
    var after := DelStep(db, o, n, copy, f).0;
    if after != db {
      var refs := db.secrets[n].refs;
      DelRefEffect(refs, o);
      assert after == PlaceSecret(db, n, DelRef(refs, o), db.secrets[n].data);
      PlaceSecretKeepsDb(g, db, n, DelRef(refs, o), db.secrets[n].data);
    }
  }

  /** Adding the owner: only to a Secret that its status lists. */
  lemma AddStepKeepsDb(g: Group, db: Db, name: string, inst: Env, input: Input, f: Fault)
    requires DbOk(g, db) && Held(db, name, inst) && SecretRead(db, input.name, input.copy)
    requires input.name in inst.statusRefs
    ensures var after := AddStep(db, OwnerOf(g, name, inst.uid), input, f).0;
            DbOk(g, after) && SecretsMove(db, after)
  {
    var o := OwnerOf(g, name, inst.uid);
    var after := AddStep(db, o, input, f).0;
    if after != db {
      var refs := db.secrets[input.name].refs;
      AddRefEffect(refs, o);
      DelRefEffect(refs, o);
      assert after == PlaceSecret(db, input.name, AddRef(refs, o), db.secrets[input.name].data);
      PlaceSecretKeepsDb(g, db, input.name, AddRef(refs, o), db.secrets[input.name].data);
    }
  }

  lemma AddKeepsInv(g: Group, db: Db, w: Worker, f: Fault)
    requires DbOk(g, db) && w.Adding? && WorkerOk(g, db, w)
    ensures var (after, w') := AddNext(g, db, w, f);
            DbOk(g, after) && WorkerOk(g, after, w')
  {
    if w.next < |w.refs| {
      AddStepKeepsDb(g, db, w.name, w.inst, w.refs[w.next], f);
    }
    SafeMeansOnlyIn(g, AddNext(g, db, w, f).0, w.name, w.inst.uid);
  }

  /** Taking the finalizer away: safe when no Secret mentions the owner. Adding it is always safe. */
  lemma FinalizerKeepsDb(g: Group, db: Db, name: string, inst: Env, finalizer: bool, f: Fault)
    requires DbOk(g, db) && Tracks(db, name, inst) && (finalizer || OnlyIn(g, db, name, inst.uid, []))
    ensures DbOk(g, PutEnvFinalizer(db, name, inst, finalizer, f).0)
  {
    var after := PutEnvFinalizer(db, name, inst, finalizer, f).0;
    forall n, r | n in after.secrets && r in after.secrets[n].refs && IsEnvRef(g, r)
      ensures Vouched(after, n, r)
    {
      if r.name == name {
        EntryIsBorne(db, n, r, OwnerOf(g, name, inst.uid));
      }
    }
  }

  lemma FinalizeKeepsInv(g: Group, db: Db, w: Worker, f: Fault)
    requires DbOk(g, db) && w.Finalizing? && WorkerOk(g, db, w)
    ensures var (after, ok) := PutEnvFinalizer(db, w.name, w.inst, true, f);
            DbOk(g, after) && WorkerOk(g, after, if ok then Idle else Reporting(w.name, w.inst))
  {
    FinalizerKeepsDb(g, db, w.name, w.inst, true, f);
  }

  // ----- Steps of outsiders -----

  lemma PlaceEnvKeepsDb(g: Group, s: State, name: string, env: Env)
    requires DbOk(g, s.db) && (Enabled(g, s, CreateEnv(name, env)) || Enabled(g, s, EditEnv(name, env)))
    ensures DbOk(g, PlaceEnv(s.db, name, env))
  {
    var after := PlaceEnv(s.db, name, env);
    assert after.secrets == s.db.secrets;
    forall n, r | n in after.secrets && r in after.secrets[n].refs && IsEnvRef(g, r)
      ensures Vouched(after, n, r)
    {
      assert Vouched(s.db, n, r);
    }
  }

  lemma PlaceEnvKeepsInv(g: Group, s: State, name: string, env: Env)
    requires Inv(g, s) && (Enabled(g, s, CreateEnv(name, env)) || Enabled(g, s, EditEnv(name, env)))
    ensures Inv(g, State(PlaceEnv(s.db, name, env), s.worker))
  {
    PlaceEnvKeepsDb(g, s, name, env);
  }

  /** Outsiders' writes to Secrets neither add back references nor bring back versions. */
  lemma OutsideSecretKeepsWorker(g: Group, db: Db, after: Db, w: Worker)
    requires WorkerOk(g, db, w) && SecretsMove(db, after)
    requires forall n, o :: BorneBy(after, n, o) && o.apiVersion == g.apiVersion && o.kind == g.kind ==> BorneBy(db, n, o)
    ensures WorkerOk(g, after, w)
  {
  }

  lemma PutSecretKeepsInv(g: Group, s: State, n: string, refs: Refs, data: string)
    requires Inv(g, s) && Unique(refs) && ExistingRefs(g, s.db, n, refs)
    ensures Inv(g, State(PlaceSecret(s.db, n, refs, data), s.worker))
  {
    var after := PlaceSecret(s.db, n, refs, data);
    PlaceSecretKeepsDb(g, s.db, n, refs, data);
    forall k, o | BorneBy(after, k, o) && o.apiVersion == g.apiVersion && o.kind == g.kind
      ensures BorneBy(s.db, k, o)
    {
      if k == n {
        var i :| 0 <= i < |refs| && Matches(refs[i], o) && !refs[i].controller;
        assert refs[i] in refs && IsEnvRef(g, refs[i]);
        EntryIsBorne(s.db, n, refs[i], o);
      }
    }
    OutsideSecretKeepsWorker(g, s.db, after, s.worker);
  }

  lemma DeleteSecretKeepsInv(g: Group, s: State, n: string)
    requires Inv(g, s) && n in s.db.secrets
    ensures Inv(g, State(s.db.(secrets := s.db.secrets - {n}), s.worker))
  {
    OutsideSecretKeepsWorker(g, s.db, s.db.(secrets := s.db.secrets - {n}), s.worker);
  }

  lemma OutputKeepsInv(g: Group, s: State, name: string, copy: Option<Secret>, data: string, f: Fault)
    requires Inv(g, s) && Enabled(g, s, WriteOutput(name, copy, data, f))
    ensures Inv(g, Apply(g, s, WriteOutput(name, copy, data, f)))
  {
    var o := OwnerOf(g, s.worker.name, s.worker.inst.uid);
    var after := PutOutput(s.db, o, name, copy, data, f).0;
    if after != s.db {
      var refs := if copy.Some? then copy.value.refs else [ControllerRef(o)];
      assert after == PlaceSecret(s.db, name, refs, data);
      PutSecretKeepsInv(g, s, name, refs, data);
    }
  }

  lemma FailFetchKeepsInv(g: Group, db: Db, w: Worker)
    requires DbOk(g, db) && w.Deleting? && WorkerOk(g, db, w)
    ensures WorkerOk(g, db, Fail(w.name, w.inst))
  {
    SafeMeansOnlyIn(g, db, w.name, w.inst.uid);
  }

  lemma StepKeepsInv(g: Group, s: State, a: Action)
    requires Inv(g, s) && Enabled(g, s, a)
    ensures Inv(g, Apply(g, s, a))
  {
    var w := s.worker;
    match a
    case Begin(name) => BeginKeepsInv(g, s.db, name);
    case PutFinalizer(f) => FinalizeKeepsInv(g, s.db, w, f);
    case Load(inputs) => LoadKeepsInv(g, s.db, w, inputs);
    case Fetch(copy) =>
    case FailFetch => FailFetchKeepsInv(g, s.db, w);
    case WriteOutput(name, copy, data, f) => OutputKeepsInv(g, s, name, copy, data, f);
    case Unlink(f) => UnlinkKeepsInv(g, s.db, w, f);
    case Persist(f) => PersistKeepsInv(g, s.db, w, f);
    case AddOne(f) => AddKeepsInv(g, s.db, w, f);
    case Release(f) => FinalizerKeepsDb(g, s.db, w.name, w.inst, false, f);
    case Report(c, f) => StatusKeepsDb(g, s.db, w.name, w.inst.(condition := Some(c)), f);
    case Crash =>
    case CreateEnv(name, env) => PlaceEnvKeepsInv(g, s, name, env);
    case EditEnv(name, env) => PlaceEnvKeepsInv(g, s, name, env);
    case PutSecret(name, refs, data) => PutSecretKeepsInv(g, s, name, refs, data);
    case DeleteSecret(name) => DeleteSecretKeepsInv(g, s, name);
  }

  // ----- Histories -----

  const EMPTY := State(Db(0, map[], map[]), Idle)

  /** From an empty namespace `acts[i]` leads from `tr[i]` to `tr[i + 1]`; reads of Secrets may be of any age. */
  predicate IsLooseHistory(g: Group, tr: seq<State>, acts: seq<Action>) {
    && |tr| == |acts| + 1 && tr[0] == EMPTY
    && forall i :: 0 <= i < |acts| ==> Possible(g, tr[i], acts[i]) && tr[i + 1] == Apply(g, tr[i], acts[i])
  }

  /** A history in which the reads before deletions show the back references that exist. */
  predicate IsHistory(g: Group, tr: seq<State>, acts: seq<Action>) {
    IsLooseHistory(g, tr, acts) && forall i :: 0 <= i < |acts| ==> Enabled(g, tr[i], acts[i])
  }

  lemma {:induction false} ReachableInv(g: Group, tr: seq<State>, acts: seq<Action>, i: nat)
    requires IsHistory(g, tr, acts) && i < |tr|
    ensures Inv(g, tr[i])
  {
    if i > 0 {
      ReachableInv(g, tr, acts, i - 1);
      StepKeepsInv(g, tr[i - 1], acts[i - 1]);
    }
  }

  /** In every state of every history each back reference leads to an existing ImageBuildEnv of that UID which bears the
      finalizer and lists the Secret; so none is left once its owner is gone. */
  lemma NoBackReferenceOutlivesOwner(g: Group, tr: seq<State>, acts: seq<Action>, i: nat, n: string, r: OwnerReference)
    requires IsHistory(g, tr, acts) && i < |tr|
    requires n in tr[i].db.secrets && r in tr[i].db.secrets[n].refs && IsEnvRef(g, r)
    ensures Vouched(tr[i].db, n, r)
  {
    ReachableInv(g, tr, acts, i);
  }

  // ----- Undisturbed calls are histories -----

  /** The actions lead from one state to the other. */
  predicate Reaches(g: Group, s: State, acts: seq<Action>, s': State)
    decreases |acts|
  {
    if acts == [] then s == s' else Enabled(g, s, acts[0]) && Reaches(g, Apply(g, s, acts[0]), acts[1..], s')
  }

  lemma {:induction false} ReachesConcat(g: Group, s: State, acts: seq<Action>, s1: State, more: seq<Action>, s2: State)
    requires Reaches(g, s, acts, s1) && Reaches(g, s1, more, s2)
    ensures Reaches(g, s, acts + more, s2)
    decreases |acts|
  {
    if acts == [] {
      assert acts + more == more;
    } else {
      assert (acts + more)[1..] == acts[1..] + more;
      ReachesConcat(g, Apply(g, s, acts[0]), acts[1..], s1, more, s2);
    }
  }

  /** One deletion whose read gets through. */
  function Unlinked(g: Group, s: State, f: Fault): State
    requires s.worker.Deleting? && s.worker.pending != []
  {
    var w := s.worker;
    var n := w.pending[0];
    var (after, ok) := DelStep(s.db, OwnerOf(g, w.name, w.inst.uid), n, Read(s.db, n), f);
    State(after, if ok then Deleting(w.name, w.inst, w.refs, w.pending[1..]) else Fail(w.name, w.inst))
  }

  lemma UnlinkingIsHistory(g: Group, s: State, f: Fault) returns (acts: seq<Action>)
    requires Inv(g, s) && s.worker.Deleting? && s.worker.pending != []
    ensures Reaches(g, s, acts, Unlinked(g, s, f)) && Inv(g, Unlinked(g, s, f))
  {
    var copy := Read(s.db, s.worker.pending[0]);
    var s1 := Apply(g, s, Fetch(copy));
    StepKeepsInv(g, s, Fetch(copy));
    StepKeepsInv(g, s1, Unlink(f));
    acts := [Fetch(copy), Unlink(f)];
    assert acts[1..] == [Unlink(f)] && acts[1..][1..] == [];
    assert Reaches(g, Apply(g, s1, Unlink(f)), [], Unlinked(g, s, f));
  }

  lemma {:induction false} DeletingIsHistory(g: Group, s: State, names: seq<string>, faults: DelFaults, i: nat)
    returns (acts: seq<Action>)
    requires Inv(g, s) && s.worker.Deleting? && i <= |names| && s.worker.pending == names[i..]
    ensures var w := s.worker;
            var (after, ok) := DeleteOld(s.db, OwnerOf(g, w.name, w.inst.uid), names, faults, i);
            && Reaches(g, s, acts, State(after, if ok then Deleting(w.name, w.inst, w.refs, []) else Fail(w.name, w.inst)))
            && (ok ==> Inv(g, State(after, Deleting(w.name, w.inst, w.refs, []))))
    decreases |names| - i
  {
    var w := s.worker;
    if i == |names| {
      return [];
    }
    assert names[i..][0] == names[i] && names[i..][1..] == names[i + 1..];
    if faults(i).ReadFails? {
      assert Reaches(g, Apply(g, s, FailFetch), [], Apply(g, s, FailFetch));
      assert [FailFetch][1..] == [];
      return [FailFetch];
    }
    acts := UnlinkingIsHistory(g, s, faults(i).f);
    var s2 := Unlinked(g, s, faults(i).f);
    if s2.worker.Deleting? {
      var (after, ok) := DeleteOld(s.db, OwnerOf(g, w.name, w.inst.uid), names, faults, i);
      var rest := DeletingIsHistory(g, s2, names, faults, i + 1);
      ReachesConcat(g, s, acts, s2, rest,
                    State(after, if ok then Deleting(w.name, w.inst, w.refs, []) else Fail(w.name, w.inst)));
      acts := acts + rest;
    }
  }

  lemma {:induction false} AddingIsHistory(g: Group, s: State, faults: Faults)
    returns (acts: seq<Action>)
    requires s.worker.Adding? && s.worker.next <= |s.worker.refs|
    ensures var w := s.worker;
            var (after, ok) := AddNew(s.db, OwnerOf(g, w.name, w.inst.uid), w.refs, faults, w.next);
            Reaches(g, s, acts, State(after, if ok then w.(next := |w.refs|) else Fail(w.name, w.inst)))
    decreases |s.worker.refs| - s.worker.next
  {
    var w := s.worker;
    if w.next == |w.refs| {
      return [];
    }
    var a := AddOne(faults(w.next));
    var rest := [];
    if AddStep(s.db, OwnerOf(g, w.name, w.inst.uid), w.refs[w.next], faults(w.next)).1 {
      rest := AddingIsHistory(g, Apply(g, s, a), faults);
    }
    acts := [a] + rest;
  }

  /** Every call of `UpdateReferences`, whatever happens to its writes, is a stretch of the protocol, and so keeps every
      back reference vouched for wherever it stops. */
  lemma UpdateIsHistory(g: Group, s: State, delFaults: DelFaults, statusFault: Fault, addFaults: Faults)
    returns (acts: seq<Action>)
    requires Inv(g, s) && s.worker.Deleting?
    requires s.worker.pending == Minus(s.worker.inst.statusRefs, Names(s.worker.refs))
    ensures var w := s.worker;
            var out := UpdateReferences(g, s.db, w.name, w.inst, w.refs, delFaults, statusFault, addFaults);
            Reaches(g, s, acts,
                    State(out.db, if out.ok then Adding(w.name, out.inst, w.refs, |w.refs|) else Fail(w.name, out.inst)))
  {
    var w := s.worker;
    var o := OwnerOf(g, w.name, w.inst.uid);
    assert w.pending == w.pending[0..];
    acts := DeletingIsHistory(g, s, w.pending, delFaults, 0);
    var (deleted, ok) := DeleteOld(s.db, o, w.pending, delFaults, 0);
    if ok {
      var s1 := State(deleted, Deleting(w.name, w.inst, w.refs, []));
      var rest := PersistingIsHistory(g, s1, statusFault, addFaults);
      ReachesConcat(g, s, acts, s1, rest, AfterPersist(g, s1, statusFault, addFaults));
      acts := acts + rest;
    }
  }

  /** Persisting the list and adding the references without disturbance. */
  function AfterPersist(g: Group, s: State, f: Fault, addFaults: Faults): State
    requires s.worker.Deleting?
  {
    var w := s.worker;
    var p := PersistRefs(s.db, w.name, w.inst, w.refs, f);
    if !p.ok then State(p.db, Fail(w.name, p.inst))
    else
      var (added, ok) := AddNew(p.db, OwnerOf(g, w.name, w.inst.uid), w.refs, addFaults, 0);
      State(added, if ok then Adding(w.name, p.inst, w.refs, |w.refs|) else Fail(w.name, p.inst))
  }

  lemma {:induction false} PersistingIsHistory(g: Group, s: State, f: Fault, addFaults: Faults)
    returns (acts: seq<Action>)
    requires s.worker.Deleting? && s.worker.pending == [] && Held(s.db, s.worker.name, s.worker.inst)
    ensures Reaches(g, s, acts, AfterPersist(g, s, f, addFaults))
  {
    var s1 := Apply(g, s, Persist(f));
    var rest := [];
    if s1.worker.Adding? {
      rest := AddingIsHistory(g, s1, addFaults);
    }
    acts := [Persist(f)] + rest;
    assert acts[1..] == rest;
  }

  // ----- What the protocol depends on -----

  /** A deletion that reports success removed the back reference exactly if the Secret had none or the read showed it:
      from a read that hides it nothing is written. */
  lemma DeletionDependsOnRead(g: Group, db: Db, o: Owner, n: string, copy: Option<Secret>, f: Fault)
    requires DbOk(g, db) && (copy.Some? ==> SecretRead(db, n, copy.value))
    requires DelStep(db, o, n, copy, f).1
    ensures !BorneBy(DelStep(db, o, n, copy, f).0, n, o) <==> Reveals(db, n, copy, o)
  {
    var after := DelStep(db, o, n, copy, f).0;
    if after != db {
      DelRefEffect(db.secrets[n].refs, o);
      assert !Mentions(after.secrets[n].refs, o);
    }
  }

  lemma Further(g: Group, tr: seq<State>, acts: seq<Action>, a: Action) returns (tr': seq<State>, acts': seq<Action>)
    requires IsLooseHistory(g, tr, acts) && Possible(g, tr[|tr| - 1], a)
    ensures IsLooseHistory(g, tr', acts') && |acts'| == |acts| + 1 && acts' == acts + [a]
    ensures tr'[|tr'| - 1] == Apply(g, tr[|tr| - 1], a)
  {
    tr', acts' := tr + [Apply(g, tr[|tr| - 1], a)], acts + [a];
  }

  /** An ImageBuildEnv with one input that bears its back reference. */
  function Referenced(g: Group, name: string, uid: string, n: string): State {
    State(Db(4, map[name := Env(uid, 3, false, true, false, [n], [n], None)],
             map[n := Secret(4, [NewRef(OwnerOf(g, name, uid))], "")]), Idle)
  }

  /** The stage before its first list is persisted. */
  function Requested(name: string, uid: string, n: string): State {
    var inst := Env(uid, 1, false, true, false, [n], [], None);
    State(Db(2, map[name := inst], map[n := Secret(2, [], "")]), Deleting(name, inst, [Input(n, Secret(2, [], ""))], []))
  }

  lemma RequestedIsReached(g: Group, name: string, uid: string, n: string) returns (tr: seq<State>, acts: seq<Action>)
    ensures IsLooseHistory(g, tr, acts) && tr[|tr| - 1] == Requested(name, uid, n)
    ensures forall i :: 0 <= i < |acts| ==> !acts[i].Fetch?
  {
    var refs := [Input(n, Secret(2, [], ""))];
    assert Names(refs) == [n];
    tr, acts := [EMPTY], [];
    tr, acts := Further(g, tr, acts, CreateEnv(name, Env(uid, 1, false, true, false, [n], [], None)));
    tr, acts := Further(g, tr, acts, PutSecret(n, [], ""));
    tr, acts := Further(g, tr, acts, Begin(name));
    tr, acts := Further(g, tr, acts, Load(Some(refs)));
  }

  lemma ReferencedIsReached(g: Group, name: string, uid: string, n: string) returns (tr: seq<State>, acts: seq<Action>)
    ensures IsLooseHistory(g, tr, acts) && tr[|tr| - 1] == Referenced(g, name, uid, n)
    ensures forall i :: 0 <= i < |acts| ==> !acts[i].Fetch?
  {
    var refs := [Input(n, Secret(2, [], ""))];
    assert Names(refs) == [n];
    tr, acts := RequestedIsReached(g, name, uid, n);
    NoDifference([], [n]);
    assert n in ToSet([n]);
    tr, acts := Further(g, tr, acts, Persist(Reliable));
    var inst := Env(uid, 3, false, true, false, [n], [n], None);
    assert tr[|tr| - 1] == State(Db(3, map[name := inst], map[n := Secret(2, [], "")]), Adding(name, inst, refs, 0));
    tr, acts := Further(g, tr, acts, AddOne(Reliable));
    assert AddRef([], OwnerOf(g, name, uid)) == [NewRef(OwnerOf(g, name, uid))];
    assert tr[|tr| - 1] == State(Referenced(g, name, uid, n).db, Adding(name, inst, refs, 1));
    tr, acts := Further(g, tr, acts, AddOne(Reliable));
    tr, acts := Further(g, tr, acts, Crash);
  }

  /** A deletion read of the age of the input read hides the back reference: from an empty namespace a history, loose in
      this read alone, ends with the ImageBuildEnv gone and the Secret still referring to it. */
  lemma HiddenReferenceOutlivesOwner(g: Group, name: string, uid: string, n: string)
    returns (tr: seq<State>, acts: seq<Action>, k: nat)
    ensures IsLooseHistory(g, tr, acts) && k < |acts|
    ensures name !in tr[|tr| - 1].db.envs && BorneBy(tr[|tr| - 1].db, n, OwnerOf(g, name, uid))
    ensures forall i :: 0 <= i < |acts| && i != k ==> Enabled(g, tr[i], acts[i])
  {
    tr, acts := ReferencedIsReached(g, name, uid, n);
    tr, acts := Further(g, tr, acts, EditEnv(name, Env(uid, 5, true, true, false, [n], [n], None)));
    tr, acts := Further(g, tr, acts, Begin(name));
    assert Minus([n], []) == [n];
    k := |acts|;
    tr, acts := Further(g, tr, acts, Fetch(Some(Secret(2, [], ""))));
    tr, acts := Further(g, tr, acts, Unlink(Reliable));
    NoDifference([n], []);
    assert n in ToSet([n]);
    tr, acts := Further(g, tr, acts, Persist(Reliable));
    tr, acts := Further(g, tr, acts, AddOne(Reliable));
    tr, acts := Further(g, tr, acts, Release(Reliable));
    var list := tr[|tr| - 1].db.secrets[n].refs;
    assert forall i :: 0 <= i < |acts| && i != k ==> Enabled(g, tr[i], acts[i]);
    assert list == [NewRef(OwnerOf(g, name, uid))] && Matches(list[0], OwnerOf(g, name, uid));
  }

  /** What a call adds to the lists of the requested Secrets, and to no others. */
  lemma AddedLists(db: Db, o: Owner, refs: seq<Input>, faults: Faults, n: string)
    requires UniqueLists(db) && CurrentFrom(db, refs, 0) && NoRepeats(refs, o.uid) && AddNew(db, o, refs, faults, 0).1
    ensures var after := AddNew(db, o, refs, faults, 0).0;
            && after.envs == db.envs && after.secrets.Keys == db.secrets.Keys
            && (n in db.secrets ==>
                  after.secrets[n].refs == if n in Names(refs) then AddRef(db.secrets[n].refs, o) else db.secrets[n].refs)
  {
    AddNewEffect(db, o, refs, faults, 0);
    var names := Names(refs);
    if n in names {
      var k :| 0 <= k < |names| && names[k] == n;
      assert refs[k].name == n;
    } else {
      assert forall k :: 0 <= k < |refs| ==> names[k] == refs[k].name && refs[k].name != n;
    }
  }

  /** Every requested Secret has the owner already or is one that the stored ImageBuildEnv lists. */
  predicate NoneUnlisted(db: Db, name: string, refs: seq<Input>, uid: string)
    requires name in db.envs
  {
    forall k :: 0 <= k < |refs| ==> HasUid(refs[k].copy.refs, uid) || refs[k].name in db.envs[name].statusRefs
  }

  lemma AddingIsSafe(g: Group, db: Db, name: string, refs: seq<Input>, faults: Faults)
    requires Managed(g, db, name) && CurrentFrom(db, refs, 0) && NoRepeats(refs, db.envs[name].uid)
    requires AddNew(db, OwnerOf(g, name, db.envs[name].uid), refs, faults, 0).1
    requires NoneUnlisted(db, name, refs, db.envs[name].uid)
    ensures Safe(g, AddNew(db, OwnerOf(g, name, db.envs[name].uid), refs, faults, 0).0)
  {
    var o := OwnerOf(g, name, db.envs[name].uid);
    var after := AddNew(db, o, refs, faults, 0).0;
    AddNewKeepsEnvs(db, o, refs, faults, 0);
    forall n, r | n in after.secrets && r in after.secrets[n].refs && IsEnvRef(g, r)
      ensures Vouched(after, n, r)
    {
      AddedLists(db, o, refs, faults, n);
      if r !in db.secrets[n].refs {
        DelRefEffect(db.secrets[n].refs, o);
        assert r == NewRef(o) && n in Names(refs);
        var k :| 0 <= k < |Names(refs)| && Names(refs)[k] == n;
        assert refs[k].name == n;
      } else {
        assert Vouched(db, n, r);
      }
    }
  }

  lemma AddingIsUnsafe(g: Group, db: Db, name: string, refs: seq<Input>, faults: Faults, k: nat)
    requires Managed(g, db, name) && CurrentFrom(db, refs, 0) && NoRepeats(refs, db.envs[name].uid)
    requires AddNew(db, OwnerOf(g, name, db.envs[name].uid), refs, faults, 0).1
    requires k < |refs| && !HasUid(refs[k].copy.refs, db.envs[name].uid) && refs[k].name !in db.envs[name].statusRefs
    ensures !Safe(g, AddNew(db, OwnerOf(g, name, db.envs[name].uid), refs, faults, 0).0)
  {
    var o, n := OwnerOf(g, name, db.envs[name].uid), refs[k].name;
    var after := AddNew(db, o, refs, faults, 0).0;
    assert Names(refs)[k] == n;
    AddedLists(db, o, refs, faults, n);
    var list := after.secrets[n].refs;
    assert list[|list| - 1] == NewRef(o) && NewRef(o) in list && IsEnvRef(g, NewRef(o));
    assert !Vouched(after, n, NewRef(o));
  }

  lemma {:induction false} DeleteOldKeepsDb(g: Group, db: Db, o: Owner, names: seq<string>, faults: DelFaults, i: nat)
    requires DbOk(g, db)
    ensures DbOk(g, DeleteOld(db, o, names, faults, i).0)
    ensures DeleteOld(db, o, names, faults, i).0.envs == db.envs
    decreases |names| - i
  {
    if i < |names| && faults(i).Write? {
      var after := DelStep(db, o, names[i], Read(db, names[i]), faults(i).f).0;
      DelStepKeepsDb(g, db, o, names[i], Read(db, names[i]), faults(i).f);
      DeleteOldKeepsDb(g, after, o, names, faults, i + 1);
    }
  }

  /** What an outdated copy of the owner does, exactly. If its list does not have the requested Secrets, the status write is
      refused and nothing unsafe has happened. If it has, the call goes through without a status write, and is safe if and
      only if every requested Secret had the owner already or is listed by the stored ImageBuildEnv. */
  lemma OutdatedOwnerSafeIff(g: Group, db: Db, name: string, inst: Env, refs: seq<Input>,
                             delFaults: DelFaults, statusFault: Fault, addFaults: Faults)
    requires DbOk(g, db) && Managed(g, db, name) && CurrentFrom(db, refs, 0) && NoRepeats(refs, db.envs[name].uid)
    requires inst.uid == db.envs[name].uid && inst.version != db.envs[name].version
    ensures var out := UpdateReferences(g, db, name, inst, refs, delFaults, statusFault, addFaults);
            && (ToSet(inst.statusRefs) != ToSet(Names(refs)) ==> !out.ok && out.db.envs == db.envs && Safe(g, out.db))
            && (out.ok ==> (Safe(g, out.db) <==> NoneUnlisted(db, name, refs, inst.uid)))
            && (ToSet(inst.statusRefs) == ToSet(Names(refs)) && addFaults == NoFault ==> out.ok)
  {
    var o, del := OwnerOf(g, name, inst.uid), Minus(inst.statusRefs, Names(refs));
    NoDifference(inst.statusRefs, Names(refs));
    if ToSet(inst.statusRefs) != ToSet(Names(refs)) {
      DeleteOldKeepsDb(g, db, o, del, delFaults, 0);
    } else {
      assert DeleteOld(db, o, del, delFaults, 0) == (db, true);
      AddNewEffect(db, o, refs, addFaults, 0);
      SameListSafeIff(g, db, name, refs, addFaults);
    }
  }

  lemma SameListSafeIff(g: Group, db: Db, name: string, refs: seq<Input>, faults: Faults)
    requires Managed(g, db, name) && CurrentFrom(db, refs, 0) && NoRepeats(refs, db.envs[name].uid)
    ensures var (after, ok) := AddNew(db, OwnerOf(g, name, db.envs[name].uid), refs, faults, 0);
            ok ==> (Safe(g, after) <==> NoneUnlisted(db, name, refs, db.envs[name].uid))
  {
    var uid := db.envs[name].uid;
    if AddNew(db, OwnerOf(g, name, uid), refs, faults, 0).1 {
      if NoneUnlisted(db, name, refs, uid) {
        AddingIsSafe(g, db, name, refs, faults);
      } else {
        var k :| 0 <= k < |refs| && !HasUid(refs[k].copy.refs, uid) && refs[k].name !in db.envs[name].statusRefs;
        AddingIsUnsafe(g, db, name, refs, faults, k);
      }
    }
  }

  /** The unsafe case by itself: a call made with an outdated copy of the owner whose list happens to equal the request does not persist the list:
      the Secret gets a back reference that the stored ImageBuildEnv does not list. */
  lemma OutdatedOwnerIsUnsafe(g: Group, db: Db, name: string, inst: Env, n: string)
    requires name in db.envs && inst.uid == db.envs[name].uid
    requires n in db.secrets && !HasUid(db.secrets[n].refs, inst.uid)
    requires inst.statusRefs == [n] && n !in db.envs[name].statusRefs
    ensures var out := UpdateReferences(g, db, name, inst, [Input(n, db.secrets[n])], NoDelFault, Reliable, NoFault);
            out.ok && !Safe(g, out.db)
  {
    var refs, o := [Input(n, db.secrets[n])], OwnerOf(g, name, inst.uid);
    assert Names(refs) == [n];
    NoDifference([n], Names(refs));
    var (after, ok) := AddStep(db, o, refs[0], Reliable);
    assert AddNew(db, o, refs, NoFault, 0) == (after, true);
    var list := after.secrets[n].refs;
    assert list[|list| - 1] == NewRef(o) && NewRef(o) in list;
  }
}
