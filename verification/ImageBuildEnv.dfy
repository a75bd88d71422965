/** The ImageBuildEnv reconciler: finalizer, back references, output Secret and reported condition. */
module ImageBuildEnv {
  import opened Wrappers
  import opened Cluster
  import opened OwnerRefs
  import opened BackRefs
  import opened BackRefsProtocol

  /** How configuring Redis ends. */
  datatype Redis = RedisFails | RedisStarts | RedisReady

  /** What one run meets: the input Secrets it reads (none if one is missing), what merging them gives (none if one is
      invalid), Redis, the text of the error that it comes to report, and the fate of its reads and writes. */
  datatype Inputs = Inputs(
    secrets: Option<seq<Input>>, merged: Option<string>, redis: Redis, message: string, finalizerFault: Fault,
    delFaults: DelFaults, statusFault: Fault, addFaults: Faults, outputFault: DelFault, reportFault: Fault)

  datatype End = Done | RequeueAfter(delay: Duration) | Failed

  const REQUEUE_DELAY: Duration := 30 * SECOND

  function OutputName(name: string): string {
    "imagebuildenv-" + name + "-conf"
  }

  /** Each resource has an output Secret of its own. */
  lemma OutputNamesDistinct(a: string, b: string)
    ensures OutputName(a) == OutputName(b) ==> a == b
    ensures OutputName("env") == "imagebuildenv-env-conf"
  {
    var head, tail := |"imagebuildenv-"|, |"-conf"|;
    assert OutputName(a)[head..|OutputName(a)| - tail] == a;
    assert OutputName(b)[head..|OutputName(b)| - tail] == b;
  }

  function Unready(reason: Reason, in_: Inputs): Condition {
    Condition(false, reason, in_.message)
  }

  function Ended(ok: bool): End {
    if ok then Done else Failed
  }

  /** A condition that is stored already is not written. */
  function Tell(db: Db, name: string, inst: Env, c: Condition, f: Fault): (Db, End) {
    if inst.condition == Some(c) then (db, Done)
    else
      var (after, stored) := PutEnvStatus(db, name, inst.(condition := Some(c)), f);
      (after, Ended(stored.Some?))
  }

  function UpsertOutput(g: Group, db: Db, name: string, inst: Env, data: string, f: DelFault): (Db, bool) {
    match f
    case ReadFails => (db, false)
    case Write(f) => PutOutput(db, OwnerOf(g, name, inst.uid), OutputName(name), Read(db, OutputName(name)), data, f)
  }

  /** What follows the update of the references, with the condition that is due. */
  function Provide(g: Group, db: Db, name: string, inst: Env, in_: Inputs): (Db, Condition) {
    if in_.merged.None? then (db, Unready(InvalidSecret, in_))
    else
      match in_.redis
      case RedisFails => (db, Unready(FailedUpdate, in_))
      case RedisStarts => (db, Condition(false, Pending, "waiting for redis to become ready"))
      case RedisReady =>
        var (after, ok) := UpsertOutput(g, db, name, inst, in_.merged.value, in_.outputFault);
        (after, if ok then Condition(true, NoReason, "") else Unready(FailedUpdate, in_))
  }

  function Update(g: Group, db: Db, name: string, inst: Env, refs: seq<Input>, in_: Inputs): Outcome {
    UpdateReferences(g, db, name, inst, refs, in_.delFaults, in_.statusFault, in_.addFaults)
  }

  function Finalize(g: Group, db: Db, name: string, inst: Env, in_: Inputs): (Db, End) {
    var out := Update(g, db, name, inst, [], in_);
    if out.ok then
      var (after, ok) := PutEnvFinalizer(out.db, name, out.inst, false, in_.finalizerFault);
      (after, Ended(ok))
    else (out.db, Failed)
  }

  function SetFinalizer(db: Db, name: string, inst: Env, in_: Inputs): (Db, End) {
    var (after, ok) := PutEnvFinalizer(db, name, inst, true, in_.finalizerFault);
    if ok then (after, Done)
    else (Tell(after, name, inst, Unready(FailedUpdate, in_), in_.reportFault).0, Failed)
  }

  function Sync(g: Group, db: Db, name: string, inst: Env, in_: Inputs): (Db, End) {
    match in_.secrets
    case None =>
      var (after, end) := Tell(db, name, inst, Unready(MissingSecret, in_), in_.reportFault);
      (after, if end.Failed? then Failed else RequeueAfter(REQUEUE_DELAY))
    case Some(refs) =>
      var out := Update(g, db, name, inst, refs, in_);
      var (db1, c) := if out.ok then Provide(g, out.db, name, out.inst, in_) else (out.db, Unready(FailedUpdate, in_));
      Tell(db1, name, out.inst, c, in_.reportFault)
  }

  function Reconcile(g: Group, db: Db, name: string, in_: Inputs): (Db, End) {
    if name !in db.envs then (db, Done)
    else
      var inst := db.envs[name];
      if inst.deleting then
        if inst.finalizer then Finalize(g, db, name, inst, in_) else (db, Done)
      else if !inst.finalizer then SetFinalizer(db, name, inst, in_)
      else Sync(g, db, name, inst, in_)
  }

  /** The run's writes are steps of the protocol. */
  predicate ReadsOf(db: Db, name: string, in_: Inputs) {
    name in db.envs && in_.secrets.Some? ==>
      InputsRead(db, in_.secrets.value) && Names(in_.secrets.value) == db.envs[name].spec
  }

  lemma Extend(g: Group, s: State, acts: seq<Action>, s1: State, a: Action) returns (more: seq<Action>)
    requires Reaches(g, s, acts, s1) && Enabled(g, s1, a)
    ensures Reaches(g, s, more, Apply(g, s1, a))
  {
    var s2 := Apply(g, s1, a);
    assert Reaches(g, s2, [], s2);
    assert [a][1..] == [];
    assert Reaches(g, s1, [a], s2);
    ReachesConcat(g, s, acts, s1, [a], s2);
    more := acts + [a];
  }

  lemma ReportIsHistory(g: Group, s: State, acts: seq<Action>, s1: State, c: Condition, f: Fault)
    returns (more: seq<Action>)
    requires Reaches(g, s, acts, s1) && s1.worker.Reporting?
    ensures Reaches(g, s, more, State(Tell(s1.db, s1.worker.name, s1.worker.inst, c, f).0, Idle))
  {
    more := Extend(g, s, acts, s1, if s1.worker.inst.condition == Some(c) then Crash else Report(c, f));
  }

  lemma ProvidedIsHistory(g: Group, s: State, acts: seq<Action>, s1: State, in_: Inputs) returns (more: seq<Action>)
    requires Reaches(g, s, acts, s1) && s1.worker.Reporting? && DbOk(g, s1.db)
    ensures Reaches(g, s, more, s1.(db := Provide(g, s1.db, s1.worker.name, s1.worker.inst, in_).0))
  {
    var n := OutputName(s1.worker.name);
    if in_.merged.Some? && in_.redis.RedisReady? && in_.outputFault.Write? {
      more := Extend(g, s, acts, s1, WriteOutput(n, Read(s1.db, n), in_.merged.value, in_.outputFault.f));
    } else {
      more := acts;
    }
  }

  lemma UpdatedIsHistory(g: Group, s: State, acts: seq<Action>, s1: State, in_: Inputs) returns (more: seq<Action>)
    requires Reaches(g, s, acts, s1) && Inv(g, s1) && s1.worker.Deleting?
    requires s1.worker.pending == Minus(s1.worker.inst.statusRefs, Names(s1.worker.refs))
    ensures var w := s1.worker;
            var out := Update(g, s1.db, w.name, w.inst, w.refs, in_);
            Reaches(g, s, more, State(out.db,
              if !out.ok then Fail(w.name, out.inst)
              else if out.inst.deleting then Releasing(w.name, out.inst) else Reporting(w.name, out.inst)))
  {
    var w := s1.worker;
    var out := Update(g, s1.db, w.name, w.inst, w.refs, in_);
    var rest := UpdateIsHistory(g, s1, in_.delFaults, in_.statusFault, in_.addFaults);
    var s2 := State(out.db, if out.ok then Adding(w.name, out.inst, w.refs, |w.refs|) else Fail(w.name, out.inst));
    ReachesConcat(g, s, acts, s1, rest, s2);
    more := acts + rest;
    if out.ok {
      more := Extend(g, s, more, s2, AddOne(Reliable));
    }
  }

  /** The call keeps the copy in memory a copy of the same object. */
  lemma UpdateKeepsIdentity(g: Group, db: Db, name: string, refs: seq<Input>, in_: Inputs)
    requires name in db.envs && UniqueLists(db)
    ensures Update(g, db, name, db.envs[name], refs, in_).inst.deleting == db.envs[name].deleting
  {
    var inst := db.envs[name];
    DeleteOldEffect(db, OwnerOf(g, name, inst.uid), Minus(inst.statusRefs, Names(refs)), in_.delFaults, 0);
  }

  /** Every undisturbed run is a history of the protocol, whatever happens to its reads of Secrets and its writes; so the
      protocol's invariant holds wherever runs of any number stop. */
  lemma RunIsHistory(g: Group, db: Db, name: string, in_: Inputs) returns (acts: seq<Action>)
    requires DbOk(g, db) && ReadsOf(db, name, in_)
    ensures Reaches(g, State(db, Idle), acts, State(Reconcile(g, db, name, in_).0, Idle))
    ensures DbOk(g, Reconcile(g, db, name, in_).0)
  {
    var s := State(db, Idle);
    acts := [];
    if name in db.envs {
      acts := StartedIsHistory(g, db, name, in_);
    }
    ReachesKeepsInv(g, s, acts, State(Reconcile(g, db, name, in_).0, Idle));
  }

  lemma StartedIsHistory(g: Group, db: Db, name: string, in_: Inputs) returns (acts: seq<Action>)
    requires DbOk(g, db) && ReadsOf(db, name, in_) && name in db.envs
    ensures Reaches(g, State(db, Idle), acts, State(Reconcile(g, db, name, in_).0, Idle))
  {
    var s, inst := State(db, Idle), db.envs[name];
    var s1 := Apply(g, s, Begin(name));
    StepKeepsInv(g, s, Begin(name));
    acts := Extend(g, s, [], s, Begin(name));
    if inst.deleting {
      if inst.finalizer {
        UpdateKeepsIdentity(g, db, name, [], in_);
        acts := UpdatedIsHistory(g, s, acts, s1, in_);
        var out := Update(g, db, name, inst, [], in_);
        if out.ok {
          acts := Extend(g, s, acts, State(out.db, Releasing(name, out.inst)), Release(in_.finalizerFault));
        }
      }
    } else if !inst.finalizer {
      acts := Extend(g, s, acts, s1, PutFinalizer(in_.finalizerFault));
      var s2 := Apply(g, s1, PutFinalizer(in_.finalizerFault));
      if s2.worker.Reporting? {
        acts := ReportIsHistory(g, s, acts, s2, Unready(FailedUpdate, in_), in_.reportFault);
      }
    } else {
      acts := SyncIsHistory(g, s, acts, s1, in_);
    }
  }

  lemma SyncIsHistory(g: Group, s: State, acts: seq<Action>, s1: State, in_: Inputs) returns (more: seq<Action>)
    requires Inv(g, s) && Reaches(g, s, acts, s1) && Inv(g, s1) && s1.worker.Loading?
    requires s1.worker.name in s1.db.envs && s1.worker.inst == s1.db.envs[s1.worker.name]
    requires ReadsOf(s1.db, s1.worker.name, in_)
    ensures Reaches(g, s, more, State(Sync(g, s1.db, s1.worker.name, s1.worker.inst, in_).0, Idle))
  {
    var name, inst := s1.worker.name, s1.worker.inst;
    more := Extend(g, s, acts, s1, Load(in_.secrets));
    var s2 := Apply(g, s1, Load(in_.secrets));
    StepKeepsInv(g, s1, Load(in_.secrets));
    if in_.secrets.None? {
      more := ReportIsHistory(g, s, more, s2, Unready(MissingSecret, in_), in_.reportFault);
    } else {
      var refs := in_.secrets.value;
      UpdateKeepsIdentity(g, s1.db, name, refs, in_);
      more := UpdatedIsHistory(g, s, more, s2, in_);
      var out := Update(g, s1.db, name, inst, refs, in_);
      var s3, c := State(out.db, Reporting(name, out.inst)), Unready(FailedUpdate, in_);
      if out.ok {
        ReachesKeepsInv(g, s, more, s3);
        more := ProvidedIsHistory(g, s, more, s3, in_);
        c := Provide(g, out.db, name, out.inst, in_).1;
        s3 := s3.(db := Provide(g, out.db, name, out.inst, in_).0);
      }
      more := ReportIsHistory(g, s, more, s3, c, in_.reportFault);
    }
  }

  lemma {:induction false} ReachesKeepsInv(g: Group, s: State, acts: seq<Action>, s': State)
    requires Inv(g, s) && Reaches(g, s, acts, s')
    ensures Inv(g, s')
    decreases |acts|
  {
    if acts != [] {
      StepKeepsInv(g, s, acts[0]);
      ReachesKeepsInv(g, Apply(g, s, acts[0]), acts[1..], s');
    }
  }

  /** When a run has let a resource go no Secret bears a back reference to it. */
  lemma FinalizedLeavesNothing(g: Group, db: Db, name: string, in_: Inputs, n: string, r: OwnerReference)
    requires DbOk(g, db) && ReadsOf(db, name, in_)
    requires name !in Reconcile(g, db, name, in_).0.envs
    requires n in Reconcile(g, db, name, in_).0.secrets && r in Reconcile(g, db, name, in_).0.secrets[n].refs
    ensures !IsEnvRef(g, r) || r.name != name
  {
    var _ := RunIsHistory(g, db, name, in_);
    assert Safe(g, Reconcile(g, db, name, in_).0);
  }

  // ----- What a run reports, whatever happens to its writes -----

  /** A write of the list keeps all else, and the copy in memory is current unless the answer is lost. */
  lemma PersistKeepsCondition(db: Db, name: string, refs: seq<Input>, f: Fault)
    requires name in db.envs
    ensures var p := PersistRefs(db, name, db.envs[name], refs, f);
            && p.db.envs.Keys == db.envs.Keys
            && (forall e :: e in db.envs && e != name ==> p.db.envs[e] == db.envs[e])
            && p.inst == db.envs[name].(version := p.inst.version, statusRefs := p.inst.statusRefs)
            && p.db.envs[name] == db.envs[name].(version := p.db.envs[name].version, statusRefs := p.db.envs[name].statusRefs)
            && (!f.DroppedResponse? || p.ok ==> p.db.envs[name].version == p.inst.version)
  {
  }

  /** The reference update keeps all but the version and the list, and the copy in memory is current unless the answer to
      the list's write is lost. */
  lemma UpdateKeepsCondition(g: Group, db: Db, name: string, refs: seq<Input>, in_: Inputs)
    requires UniqueLists(db) && name in db.envs
    ensures var out := Update(g, db, name, db.envs[name], refs, in_);
            && name in out.db.envs && out.db.envs.Keys == db.envs.Keys
            && (forall e :: e in db.envs && e != name ==> out.db.envs[e] == db.envs[e])
            && out.inst == db.envs[name].(version := out.inst.version, statusRefs := out.inst.statusRefs)
            && out.db.envs[name] == db.envs[name].(version := out.db.envs[name].version, statusRefs := out.db.envs[name].statusRefs)
            && (!in_.statusFault.DroppedResponse? || out.ok ==> out.db.envs[name].version == out.inst.version)
  {
    var inst := db.envs[name];
    var o, del := OwnerOf(g, name, inst.uid), Minus(inst.statusRefs, Names(refs));
    var deleted := DeleteOld(db, o, del, in_.delFaults, 0).0;
    DeleteOldEffect(db, o, del, in_.delFaults, 0);
    PersistKeepsCondition(deleted, name, refs, in_.statusFault);
    AddNewKeepsEnvs(PersistRefs(deleted, name, inst, refs, in_.statusFault).db, o, refs, in_.addFaults, 0);
  }

  /** The condition is stored, with the list held in memory, or the run fails. */
  lemma Told(db: Db, name: string, inst: Env, c: Condition, f: Fault)
    requires name in db.envs && db.envs[name].condition == inst.condition
    ensures var (after, end) := Tell(db, name, inst, c, f);
            && after.secrets == db.secrets && after.envs.Keys == db.envs.Keys
            && (forall e :: e in db.envs && e != name ==> after.envs[e] == db.envs[e])
            && end == Ended(end.Done?) && (end.Done? ==> after.envs[name].condition == Some(c))
            && (f.Reliable? && inst.version == db.envs[name].version ==> end.Done?)
            && (inst == db.envs[name] ==>
                  after.envs[name] == inst.(version := after.envs[name].version, condition := after.envs[name].condition))
  {
  }

  /** What a run may find to report after its references are up to date: it is ready if and only if the Secrets could be
      merged, Redis is ready, and the output Secret holds the merged data. */
  predicate Due(in_: Inputs, c: Condition) {
    if in_.merged.None? then c == Condition(false, InvalidSecret, in_.message)
    else match in_.redis
      case RedisFails => c == Condition(false, FailedUpdate, in_.message)
      case RedisStarts => c == Condition(false, Pending, "waiting for redis to become ready")
      case RedisReady =>
        c == Condition(true, NoReason, "")
        || (c == Condition(false, FailedUpdate, in_.message) && in_.outputFault != Write(Reliable))
  }

  lemma Provided(g: Group, db: Db, name: string, inst: Env, in_: Inputs)
    ensures var (after, c) := Provide(g, db, name, inst, in_);
            && after.envs == db.envs && Due(in_, c)
            && (c.ready ==> OutputName(name) in after.secrets && Some(after.secrets[OutputName(name)].data) == in_.merged)
  {
  }

  /** The part of a run that follows the reading of the Secrets. */
  lemma LoadedIsReported(g: Group, db: Db, name: string, in_: Inputs)
    requires UniqueLists(db) && name in db.envs && in_.secrets.Some?
    ensures var out := Update(g, db, name, db.envs[name], in_.secrets.value, in_);
            var (after, end) := Sync(g, db, name, db.envs[name], in_);
            && name in after.envs && after.envs[name].uid == db.envs[name].uid
            && (in_.reportFault.Reliable? && !in_.statusFault.DroppedResponse? ==> end.Done?)
            && (end.Failed? || end.Done?)
            && (end.Done? ==> after.envs[name].condition.Some?
                              && var c := after.envs[name].condition.value;
                                 if !out.ok then c == Condition(false, FailedUpdate, in_.message)
                                 else
                                   && Due(in_, c)
                                   && (c.ready ==> OutputName(name) in after.secrets
                                                   && Some(after.secrets[OutputName(name)].data) == in_.merged))
  {
    var out := Update(g, db, name, db.envs[name], in_.secrets.value, in_);
    UpdateKeepsCondition(g, db, name, in_.secrets.value, in_);
    Provided(g, out.db, name, out.inst, in_);
    var (db1, c) := if out.ok then Provide(g, out.db, name, out.inst, in_) else (out.db, Unready(FailedUpdate, in_));
    Told(db1, name, out.inst, c, in_.reportFault);
  }

  /** Every run for a live resource that does not fail has stored the condition of what it met. A missing Secret is
      retried after 30 seconds. A failed update of the references ends the run as done, like a success does. */
  lemma ReportedOrFailed(g: Group, db: Db, name: string, in_: Inputs)
    requires UniqueLists(db) && name in db.envs && !db.envs[name].deleting && db.envs[name].finalizer
    ensures var (after, end) := Reconcile(g, db, name, in_);
            && name in after.envs && after.envs[name].uid == db.envs[name].uid
            && (in_.reportFault.Reliable? && !in_.statusFault.DroppedResponse? ==> !end.Failed?)
            && (!end.Failed? ==>
                  && end == (if in_.secrets.None? then RequeueAfter(30_000_000_000) else Done)
                  && after.envs[name].condition.Some?
                  && var c := after.envs[name].condition.value;
                     if in_.secrets.None? then c == Condition(false, MissingSecret, in_.message)
                     else if !Update(g, db, name, db.envs[name], in_.secrets.value, in_).ok then
                       c == Condition(false, FailedUpdate, in_.message)
                     else
                       && Due(in_, c)
                       && (c.ready ==> OutputName(name) in after.secrets
                                       && Some(after.secrets[OutputName(name)].data) == in_.merged))
  {
    if in_.secrets.None? {
      Told(db, name, db.envs[name], Unready(MissingSecret, in_), in_.reportFault);
    } else {
      LoadedIsReported(g, db, name, in_);
    }
  }

  /** A missing Secret: only the condition changes. */
  lemma MissingSecretRun(g: Group, db: Db, name: string, in_: Inputs)
    requires name in db.envs && !db.envs[name].deleting && db.envs[name].finalizer
    requires in_.secrets.None? && in_.reportFault.Reliable?
    ensures var (after, end) := Reconcile(g, db, name, in_);
            && end == RequeueAfter(30_000_000_000)
            && after.secrets == db.secrets && after.envs.Keys == db.envs.Keys
            && (forall e :: e in db.envs && e != name ==> after.envs[e] == db.envs[e])
            && after.envs[name] == db.envs[name].(version := after.envs[name].version,
                                                  condition := Some(Condition(false, MissingSecret, in_.message)))
  {
    Told(db, name, db.envs[name], Unready(MissingSecret, in_), in_.reportFault);
  }

  /** A failed reference update that is stored already: the run writes nothing more and ends as done, so that it calls
      for no other run. */
  lemma RepeatedFailureIsDone(g: Group, db: Db, name: string, in_: Inputs)
    requires UniqueLists(db) && name in db.envs && !db.envs[name].deleting && db.envs[name].finalizer
    requires in_.secrets.Some?
    requires db.envs[name].condition == Some(Condition(false, FailedUpdate, in_.message))
    requires !Update(g, db, name, db.envs[name], in_.secrets.value, in_).ok
    ensures Reconcile(g, db, name, in_)
            == (Update(g, db, name, db.envs[name], in_.secrets.value, in_).db, Done)
  {
    UpdateKeepsCondition(g, db, name, in_.secrets.value, in_);
  }

  /** A run for a deleted resource fails if not all references are removed, or the finalizer is not known to be. Unless the
      write took effect unnoticed the finalizer stays. */
  lemma FailedFinalizing(g: Group, db: Db, name: string, in_: Inputs)
    requires UniqueLists(db) && name in db.envs && db.envs[name].deleting && db.envs[name].finalizer
    requires !Update(g, db, name, db.envs[name], [], in_).ok || !in_.finalizerFault.Reliable?
    ensures var (after, end) := Reconcile(g, db, name, in_);
            && end == Failed
            && (!Update(g, db, name, db.envs[name], [], in_).ok || in_.finalizerFault.DroppedRequest? ==>
                  name in after.envs && after.envs[name].finalizer)
  {
    UpdateKeepsCondition(g, db, name, [], in_);
  }

  /** A finalizer that is not known to be set fails the run; the report goes through if the request was lost. */
  lemma LostFinalizer(g: Group, db: Db, name: string, in_: Inputs)
    requires name in db.envs && !db.envs[name].deleting && !db.envs[name].finalizer && !in_.finalizerFault.Reliable?
    ensures var (after, end) := Reconcile(g, db, name, in_);
            && end == Failed && after.secrets == db.secrets && name in after.envs
            && (in_.finalizerFault.DroppedRequest? && in_.reportFault.Reliable? ==>
                  && !after.envs[name].finalizer
                  && after.envs[name].condition == Some(Condition(false, FailedUpdate, in_.message)))
  {
  }

  // ----- Undisturbed runs without failures -----

  function Calm(secrets: Option<seq<Input>>, merged: Option<string>, redis: Redis, message: string): Inputs {
    Inputs(secrets, merged, redis, message, Reliable, NoDelFault, Reliable, NoFault, Write(Reliable), Reliable)
  }

  /** The output Secret that an undisturbed run provides. */
  function Outputs(name: string, in_: Inputs): set<string> {
    if in_.merged.Some? && in_.redis.RedisReady? then {OutputName(name)} else {}
  }

  lemma OutputEffect(g: Group, db: Db, name: string, in_: Inputs)
    requires name in db.envs && in_.outputFault == Write(Reliable)
    ensures var after := Provide(g, db, name, db.envs[name], in_).0;
            && after.envs == db.envs && after.secrets.Keys == db.secrets.Keys + Outputs(name, in_)
            && (forall n :: n in db.secrets ==> after.secrets[n].refs == db.secrets[n].refs)
            && (forall n :: n in db.secrets && n !in Outputs(name, in_) ==> after.secrets[n] == db.secrets[n])
            && (forall n :: n in Outputs(name, in_) ==> Some(after.secrets[n].data) == in_.merged)
            && (forall n :: n in after.secrets && n !in db.secrets ==>
                  after.secrets[n].refs
                  == [OwnerReference(g.apiVersion, g.kind, name, db.envs[name].uid, true, true)])
  {
  }

  /** The Secrets after an undisturbed run are those that the reference update leaves, but for the output Secret. */
  lemma StoreAfterRun(g: Group, db: Db, name: string, refs: seq<Input>, in_: Inputs)
    requires Managed(g, db, name) && !db.envs[name].deleting && Names(refs) == db.envs[name].spec
    requires CurrentFrom(db, refs, 0) && NoRepeats(refs, db.envs[name].uid)
    requires in_ == Calm(Some(refs), in_.merged, in_.redis, in_.message)
    ensures var out := Update(g, db, name, db.envs[name], refs, in_);
            var (after, end) := Reconcile(g, db, name, in_);
            && out.ok && name in out.db.envs && out.inst == out.db.envs[name] && end == Done
            && after.secrets == Provide(g, out.db, name, out.inst, in_).0.secrets
            && after.envs.Keys == db.envs.Keys
            && (forall e :: e in db.envs && e != name ==> after.envs[e] == db.envs[e])
            && after.envs[name] == db.envs[name].(version := after.envs[name].version, statusRefs := out.inst.statusRefs,
                                                  condition := after.envs[name].condition)
  {
    FaultFreeCallSucceeds(g, db, name, refs);
    UpdateReferencesSucceeds(g, db, name, refs, NoDelFault, Reliable, NoFault);
    var out := Update(g, db, name, db.envs[name], refs, in_);
    var (db1, c) := Provide(g, out.db, name, out.inst, in_);
    OutputEffect(g, out.db, name, in_);
    Told(db1, name, out.inst, c, Reliable);
  }

  /** A run for a live resource: the stored list and the back references are those of the spec, no other owner's entry
      has changed, the output Secret holds the merged data, and no other Secret's data has changed. */
  lemma SyncingRun(g: Group, db: Db, name: string, refs: seq<Input>, in_: Inputs)
    requires Managed(g, db, name) && !db.envs[name].deleting && Names(refs) == db.envs[name].spec
    requires CurrentFrom(db, refs, 0) && NoRepeats(refs, db.envs[name].uid)
    requires in_ == Calm(Some(refs), in_.merged, in_.redis, in_.message)
    ensures var o := OwnerOf(g, name, db.envs[name].uid);
            var (after, end) := Reconcile(g, db, name, in_);
            && end == Done && after.envs.Keys == db.envs.Keys
            && (forall e :: e in db.envs && e != name ==> after.envs[e] == db.envs[e])
            && after.envs[name] == db.envs[name].(version := after.envs[name].version,
                                                  statusRefs := after.envs[name].statusRefs,
                                                  condition := after.envs[name].condition)
            && ToSet(after.envs[name].statusRefs) == ToSet(db.envs[name].spec)
            && after.secrets.Keys == db.secrets.Keys + Outputs(name, in_)
            && (forall n :: n in db.secrets ==>
                  Borne(db.secrets[n].refs, after.secrets[n].refs, o, n in db.envs[name].spec))
            && (forall n :: n in db.secrets && n !in Outputs(name, in_) ==> after.secrets[n].data == db.secrets[n].data)
            && (forall n :: n in Outputs(name, in_) ==> Some(after.secrets[n].data) == in_.merged)
            && (forall n :: n in after.secrets && n !in db.secrets ==>
                  after.secrets[n].refs == [OwnerReference(g.apiVersion, g.kind, name, o.uid, true, true)])
  {
    StoreAfterRun(g, db, name, refs, in_);
    UpdateReferencesSucceeds(g, db, name, refs, NoDelFault, Reliable, NoFault);
    OutputEffect(g, Update(g, db, name, db.envs[name], refs, in_).db, name, in_);
  }

  /** The condition that it stores. */
  lemma SyncingRunReports(g: Group, db: Db, name: string, refs: seq<Input>, in_: Inputs)
    requires Managed(g, db, name) && !db.envs[name].deleting && Names(refs) == db.envs[name].spec
    requires CurrentFrom(db, refs, 0) && NoRepeats(refs, db.envs[name].uid)
    requires in_ == Calm(Some(refs), in_.merged, in_.redis, in_.message)
    ensures var after := Reconcile(g, db, name, in_).0;
            && name in after.envs && after.envs[name].condition.Some?
            && var c := after.envs[name].condition.value;
               && (c.ready <==> in_.merged.Some? && in_.redis.RedisReady?)
               && (c.ready ==> c == Condition(true, NoReason, ""))
               && (in_.merged.None? ==> c == Condition(false, InvalidSecret, in_.message))
  {
    StoreAfterRun(g, db, name, refs, in_);
    ReportedOrFailed(g, db, name, in_);
  }

  /** After the run the resource controls its output Secret if and only if the run created it, or it was controlled before
      and is not one that was listed as an input and no longer is. */
  lemma OutputControlledIff(g: Group, db: Db, name: string, refs: seq<Input>, in_: Inputs)
    requires Managed(g, db, name) && !db.envs[name].deleting && Names(refs) == db.envs[name].spec
    requires CurrentFrom(db, refs, 0) && NoRepeats(refs, db.envs[name].uid)
    requires in_ == Calm(Some(refs), in_.merged, in_.redis, in_.message) && in_.merged.Some? && in_.redis.RedisReady?
    ensures var o, n := OwnerOf(g, name, db.envs[name].uid), OutputName(name);
            var after := Reconcile(g, db, name, in_).0;
            n in after.secrets
            && (Controlled(after.secrets[n].refs, o)
                <==> n !in db.secrets
                     || (Controlled(db.secrets[n].refs, o) && (n !in db.envs[name].statusRefs || n in db.envs[name].spec)))
  {
    var o, n := OwnerOf(g, name, db.envs[name].uid), OutputName(name);
    SyncingRun(g, db, name, refs, in_);
    if n in db.secrets {
      ControlledAfterUpdateIff(g, db, name, refs, NoDelFault, Reliable, NoFault, n);
      StoreAfterRun(g, db, name, refs, in_);
      OutputEffect(g, Update(g, db, name, db.envs[name], refs, in_).db, name, in_);
    } else {
      assert Reconcile(g, db, name, in_).0.secrets[n].refs[0].uid == o.uid;
    }
  }

  /** What the run leaves is a state for the next run. */
  lemma SyncingRunKeepsManaged(g: Group, db: Db, name: string, refs: seq<Input>, in_: Inputs)
    requires DbOk(g, db) && Managed(g, db, name) && !db.envs[name].deleting && Names(refs) == db.envs[name].spec
    requires CurrentFrom(db, refs, 0) && NoRepeats(refs, db.envs[name].uid)
    requires in_ == Calm(Some(refs), in_.merged, in_.redis, in_.message)
    ensures Managed(g, Reconcile(g, db, name, in_).0, name)
  {
    var after := Reconcile(g, db, name, in_).0;
    var o := OwnerOf(g, name, db.envs[name].uid);
    SyncingRun(g, db, name, refs, in_);
    var _ := RunIsHistory(g, db, name, in_);
    forall n, r | n in after.secrets && r in after.secrets[n].refs && r.uid == o.uid
      ensures Matches(r, OwnerOf(g, name, r.uid))
    {
      if n in db.secrets {
        OthersMembers(after.secrets[n].refs, o);
        OthersMembers(db.secrets[n].refs, o);
        assert Borne(db.secrets[n].refs, after.secrets[n].refs, o, n in db.envs[name].spec);
        assert r in db.secrets[n].refs || Matches(r, o);
      }
    }
  }

  /** A run for a deleted resource: its back references are gone, and so are its finalizer and, unless others bear
      finalizers on it, the resource. */
  lemma FinalizingRun(g: Group, db: Db, name: string, in_: Inputs)
    requires Managed(g, db, name) && db.envs[name].deleting
    requires in_ == Calm(in_.secrets, in_.merged, in_.redis, in_.message)
    ensures var o := OwnerOf(g, name, db.envs[name].uid);
            var (after, end) := Reconcile(g, db, name, in_);
            && end == Done
            && (name in after.envs <==> db.envs[name].otherFinalizers)
            && (name in after.envs ==> !after.envs[name].finalizer)
            && after.secrets.Keys == db.secrets.Keys
            && forall n :: n in db.secrets ==>
                 && Others(after.secrets[n].refs, o) == Others(db.secrets[n].refs, o) && !Bears(after.secrets[n].refs, o)
                 && after.secrets[n].data == db.secrets[n].data
  {
    FaultFreeCallSucceeds(g, db, name, []);
    assert Names([]) == [];
    UpdateReferencesSucceeds(g, db, name, [], NoDelFault, Reliable, NoFault);
  }

  /** The first run only sets the finalizer. */
  lemma FirstRun(g: Group, db: Db, name: string, in_: Inputs)
    requires name in db.envs && !db.envs[name].deleting && !db.envs[name].finalizer && in_.finalizerFault.Reliable?
    ensures var (after, end) := Reconcile(g, db, name, in_);
            && end == Done && after.secrets == db.secrets && after.envs.Keys == db.envs.Keys
            && after.envs[name] == db.envs[name].(version := db.rev + 1, finalizer := true)
            && forall e :: e in db.envs && e != name ==> after.envs[e] == db.envs[e]
  {
  }

  class Reconciler {
    const group: Group
    const api: Api
    const handler: Handler

    constructor (group: Group, api: Api)
      ensures this.group == group && this.api == api && handler.group == group && handler.api == api
    {
      this.group := group;
      this.api := api;
      this.handler := new Handler(group, api);
    }

    method UpdateStatus(owner: ReferenceOwner, c: Condition, f: Fault) returns (end: End)
      modifies api
      ensures (api.View(), end) == Tell(old(api.View()), owner.name, owner.env, c, f)
    {
      if owner.env.condition == Some(c) {
        return Done;
      }
      var stored := api.UpdateStatus(owner.name, owner.env.(condition := Some(c)), f);
      return if stored.Some? then Done else Failed;
    }

    /** Creates the output Secret with the resource as controller, or updates the data of an existing one that has other
        data. */
    method UpsertMergedSecret(owner: ReferenceOwner, data: string, f: DelFault) returns (ok: bool)
      modifies api
      ensures (api.View(), ok) == UpsertOutput(group, old(api.View()), owner.name, owner.env, data, f)
    {
      var name := OutputName(owner.name);
      if f.ReadFails? {
        return false;
      }
      if name !in api.secrets {
        ok := api.Create(name, [ControllerRef(OwnerOf(group, owner.name, owner.env.uid))], data, f.f);
      } else if api.secrets[name].data == data {
        ok := true;
      } else {
        var a := api.Update(name, api.secrets[name].(data := data), f.f);
        ok := a == Accepted;
      }
    }

    method Run(name: string, in_: Inputs) returns (end: End)
      requires handler.group == group && handler.api == api
      modifies api
      ensures (api.View(), end) == Reconcile(group, old(api.View()), name, in_)
    {
      if name !in api.envs {
        return Done;
      }
      var owner := new ReferenceOwner(name, api.envs[name]);
      if owner.env.deleting {
        if owner.env.finalizer {
          var ok := handler.UpdateRefs(owner, [], in_.delFaults, in_.statusFault, in_.addFaults);
          if !ok {
            return Failed;
          }
          ok := api.UpdateFinalizer(name, owner.env, false, in_.finalizerFault);
          return if ok then Done else Failed;
        }
        return Done;
      }
      if !owner.env.finalizer {
        var ok := api.UpdateFinalizer(name, owner.env, true, in_.finalizerFault);
        if !ok {
          var _ := UpdateStatus(owner, Unready(FailedUpdate, in_), in_.reportFault);
          return Failed;
        }
        return Done;
      }
      if in_.secrets.None? {
        end := UpdateStatus(owner, Unready(MissingSecret, in_), in_.reportFault);
        return if end.Failed? then Failed else RequeueAfter(REQUEUE_DELAY);
      }
      var ok := handler.UpdateRefs(owner, in_.secrets.value, in_.delFaults, in_.statusFault, in_.addFaults);
      if !ok {
        end := UpdateStatus(owner, Unready(FailedUpdate, in_), in_.reportFault);
        return;
      }
      if in_.merged.None? {
        end := UpdateStatus(owner, Unready(InvalidSecret, in_), in_.reportFault);
        return;
      }
      if in_.redis.RedisStarts? {
        end := UpdateStatus(owner, Condition(false, Pending, "waiting for redis to become ready"), in_.reportFault);
        return;
      }
      ok := in_.redis.RedisReady?;
      if ok {
        ok := UpsertMergedSecret(owner, in_.merged.value, in_.outputFault);
      }
      if !ok {
        end := UpdateStatus(owner, Unready(FailedUpdate, in_), in_.reportFault);
        return;
      }
      end := UpdateStatus(owner, Condition(true, NoReason, ""), in_.reportFault);
    }
  }
}
