/** The handshake of the registry's operator with the StatefulSet controller: interleaved runs with stale reads, lost
    writes and crashes, edits of the registry, and the controller's reports. */
module Readiness {
  import opened Wrappers
  import opened Cluster
  import opened Registry
  import opened Text
  import opened Naming

  /** A run after its first `next` tasks; `seen` is the StatefulSet that it read, if it got that far. */
  datatype Run = Run(inst: Registry, next: nat, results: Conditions, failed: Option<string>, seen: Option<Sts>)

  /** The run that wrote the stored status, with the number of tasks it had completed and the StatefulSet it had read. */
  datatype Basis = Basis(generation: int, completed: nat, failed: Option<string>, seen: Option<Sts>)

  /** `specs` records the spec of each generation, `registries` and `past` all versions that were ever stored. */
  datatype State = State(
    db: Db, specs: map<int, Spec>, registries: set<Registry>, past: set<Sts>, runs: map<nat, Run>, basis: Option<Basis>)

  datatype Action =
    // The operator.
    | Start(id: nat, inst: Registry)
    | Task(id: nat, error: Option<string>)
    | SyncStatefulSet(id: nat, read: Option<Sts>, f: Fault)
    | Store(id: nat, f: Fault)
    | Crash(id: nat)
    // The StatefulSet controller.
    | ReportStatus(status: StsStatus)
    // Outsiders.
    | EditSpec(spec: Spec)
    | TouchRegistry
    | TouchSts(mark: Option<string>, host: Option<string>)
    | DeleteSts

  predicate Enabled(s: State, a: Action) {
    match a
    case Start(id, inst) => id !in s.runs && inst in s.registries
    case Task(id, error) =>
      id in s.runs && s.runs[id].failed.None? && s.runs[id].next < TASK_COUNT && (s.runs[id].next == STS_TASK ==> error.Some?)
    case SyncStatefulSet(id, read, _) =>
      id in s.runs && s.runs[id].failed.None? && s.runs[id].next == STS_TASK && (read.Some? ==> read.value in s.past)
    case Store(id, _) => id in s.runs && (s.runs[id].failed.Some? || s.runs[id].next == TASK_COUNT)
    case Crash(id) => id in s.runs
    case ReportStatus(_) => s.db.sts.Some?
    case EditSpec(_) => true
    case TouchRegistry => true
    // The annotation with the generation may be dropped but not forged.
    case TouchSts(mark, _) => s.db.sts.Some? && (mark.None? || mark == s.db.sts.value.mark)
    case DeleteSts => s.db.sts.Some?
  }

  function Advance(run: Run, error: Option<string>): Run {
    if error.Some? then run.(failed := error) else run.(next := run.next + 1)
  }

  function AfterSync(cfg: Config, run: Run, read: Option<Sts>, ok: bool): Run {
    Run(run.inst, run.next + 1, run.results[Ready := ReadyCondition(cfg, run.inst, Seen(read))],
        if ok then None else Some(WRITE_ERROR), read)
  }

  function WithSts(s: State, db: Db): State {
    s.(db := db, past := if db.sts.Some? then s.past + {db.sts.value} else s.past)
  }

  function WithRegistry(s: State, registry: Registry): State {
    s.(db := s.db.(rev := s.db.rev + 1, registry := registry),
       registries := s.registries + {registry},
       specs := s.specs[registry.generation := registry.spec])
  }

  function Stored(cfg: Config, s: State, run: Run, f: Fault): State {
    var status := NewStatus(cfg, run.inst, run.results, run.failed);
    var db := PutStatus(s.db, run.inst, status, f).0;
    if db == s.db then s
    else s.(db := db, registries := s.registries + {db.registry},
            basis := Some(Basis(run.inst.generation, run.next, run.failed, run.seen)))
  }

  function Apply(cfg: Config, s: State, a: Action): State
    requires Enabled(s, a)
  {
    match a
    case Start(id, inst) => s.(runs := s.runs[id := Run(inst, 0, map[], None, None)])
    case Task(id, error) => s.(runs := s.runs[id := Advance(s.runs[id], error)])
    case SyncStatefulSet(id, read, f) =>
      var (db, ok) := SyncSts(cfg, s.db, s.runs[id].inst, read, f);
      WithSts(s, db).(runs := s.runs[id := AfterSync(cfg, s.runs[id], read, ok)])
    case Store(id, f) => var s' := Stored(cfg, s, s.runs[id], f); s'.(runs := s'.runs - {id})
    case Crash(id) => s.(runs := s.runs - {id})
    case ReportStatus(status) =>
      WithSts(s, s.db.(rev := s.db.rev + 1, sts := Some(s.db.sts.value.(version := s.db.rev + 1, status := status))))
    case EditSpec(spec) =>
      WithRegistry(s, s.db.registry.(version := s.db.rev + 1, generation := s.db.registry.generation + 1, spec := spec))
    case TouchRegistry => WithRegistry(s, s.db.registry.(version := s.db.rev + 1))
    case TouchSts(mark, host) =>
      WithSts(s, s.db.(rev := s.db.rev + 1, sts := Some(s.db.sts.value.(version := s.db.rev + 1, mark := mark, host := host))))
    case DeleteSts => s.(db := s.db.(sts := None))
  }

  // ----- The invariant -----

  /** An annotation names a generation whose spec the StatefulSet's spec was built from. */
  ghost predicate MarkOk(cfg: Config, specs: map<int, Spec>, s: Sts) {
    s.mark.Some? ==> exists g :: g in specs && s.mark.value == cfg.show(g) && s.spec == cfg.render(specs[g])
  }

  predicate RegistriesOk(s: State) {
    && s.db.registry in s.registries
    && (forall r :: r in s.registries ==>
          && r.version <= s.db.rev && r.generation in s.specs && s.specs[r.generation] == r.spec
          && (r.version == s.db.registry.version ==> r == s.db.registry))
    && (forall g :: g in s.specs ==> g <= s.db.registry.generation)
  }

  ghost predicate PastOk(cfg: Config, s: State) {
    && (s.db.sts.Some? ==> s.db.sts.value in s.past)
    && (forall t :: t in s.past ==> MarkOk(cfg, s.specs, t) && t.version <= s.db.rev)
    && (forall t :: t in s.past && s.db.sts.Some? && t.version == s.db.sts.value.version ==> t == s.db.sts.value)
  }

  /** The controller had observed the spec of this generation, with every replica there, ready and updated. */
  predicate RolledOut(cfg: Config, spec: Spec, generation: int, t: Sts) {
    && t.mark == Some(cfg.show(generation)) && t.spec == cfg.render(spec)
    && t.status.observedGeneration == t.generation
    && t.status.replicas == t.status.ready == t.status.updated == (if spec.replicas.Some? then spec.replicas.value else 1)
  }

  predicate Justified(cfg: Config, s: State, generation: int, t: Option<Sts>) {
    t.Some? && t.value in s.past && generation in s.specs && RolledOut(cfg, s.specs[generation], generation, t.value)
  }

  predicate RunOk(cfg: Config, s: State, run: Run) {
    && run.inst in s.registries && run.next <= TASK_COUNT
    && (run.next > STS_TASK && run.failed.None? ==> Ready in run.results)
    && (Ready in run.results && run.results[Ready].holds ==> Justified(cfg, s, run.inst.generation, run.seen))
  }

  predicate IsReady(r: Registry) {
    Ready in r.status.conditions && r.status.conditions[Ready].holds
  }

  predicate BasisOk(cfg: Config, s: State) {
    IsReady(s.db.registry) ==>
      && s.basis.Some? && s.basis.value.completed == TASK_COUNT && s.basis.value.failed.None?
      && s.basis.value.generation == s.db.registry.status.observedGeneration
      && Justified(cfg, s, s.basis.value.generation, s.basis.value.seen)
  }

  /** Once a run has written it the stored status is of one piece: host and TLS Secret are those of the observed
      generation's spec, and the conditions say whether the run completed its tasks. */
  predicate StatusOk(cfg: Config, s: State) {
    s.basis.Some? ==>
      var st, b := s.db.registry.status, s.basis.value;
      && b.generation == st.observedGeneration && st.observedGeneration in s.specs
      && st.hostname == cfg.hostname && st.tlsSecret == cfg.tlsSecretOf(s.specs[st.observedGeneration])
      && Synced in st.conditions && Ready in st.conditions
      && (if b.failed.None? then st.conditions[Synced] == Condition(true, NoReason, NoMessage)
          else
            && st.conditions[Synced] == Condition(false, NoReason, Failure(b.failed.value))
            && st.conditions[Ready] == Condition(false, FailedSync, NoMessage))
  }

  ghost predicate Inv(cfg: Config, s: State) {
    && RegistriesOk(s) && PastOk(cfg, s) && BasisOk(cfg, s) && StatusOk(cfg, s)
    && forall id :: id in s.runs ==> RunOk(cfg, s, s.runs[id])
  }

  // ----- Every step keeps the invariant -----

  /** Records only grow. */
  predicate Grows(s: State, s': State) {
    s.registries <= s'.registries && s.past <= s'.past
    && forall g :: g in s.specs ==> g in s'.specs && s'.specs[g] == s.specs[g]
  }

  lemma RunsStayOk(cfg: Config, s: State, s': State)
    requires Grows(s, s') && forall id :: id in s.runs ==> RunOk(cfg, s, s.runs[id])
    ensures forall id :: id in s.runs ==> RunOk(cfg, s', s.runs[id])
  {
  }

  /** From what was read of the StatefulSet the condition is true only when its spec is rolled out. */
  lemma ReadyMeansRolledOut(cfg: Config, s: State, inst: Registry, read: Option<Sts>)
    requires ValidConfig(cfg) && RegistriesOk(s) && PastOk(cfg, s) && inst in s.registries
    requires read.Some? ==> read.value in s.past
    requires ReadyCondition(cfg, inst, Seen(read)).holds
    ensures Justified(cfg, s, inst.generation, read)
  {
    var t := Seen(read);
    assert MarkOk(cfg, s.specs, t);
    var g :| g in s.specs && t.mark.value == cfg.show(g) && t.spec == cfg.render(s.specs[g]);
    assert g == inst.generation;
  }

  lemma StsKeepsPast(cfg: Config, s: State, t: Sts)
    requires PastOk(cfg, s) && t.version == s.db.rev + 1 && MarkOk(cfg, s.specs, t)
    ensures PastOk(cfg, WithSts(s, s.db.(rev := s.db.rev + 1, sts := Some(t))))
  {
  }

  lemma SyncKeepsPast(cfg: Config, s: State, inst: Registry, read: Option<Sts>, f: Fault)
    requires RegistriesOk(s) && PastOk(cfg, s) && inst in s.registries
    ensures var db := SyncSts(cfg, s.db, inst, read, f).0;
            PastOk(cfg, WithSts(s, db)) && db.registry == s.db.registry && db.rev >= s.db.rev
  {
    var t := Desired(cfg, inst, Seen(read));
    var db := SyncSts(cfg, s.db, inst, read, f).0;
    if db != s.db {
      var g := inst.generation;
      assert g in s.specs && t.mark.value == cfg.show(g) && t.spec == cfg.render(s.specs[g]);
      assert MarkOk(cfg, s.specs, db.sts.value);
      StsKeepsPast(cfg, s, db.sts.value);
    }
  }

  lemma SyncKeepsInv(cfg: Config, s: State, id: nat, read: Option<Sts>, f: Fault)
    requires ValidConfig(cfg) && Inv(cfg, s) && Enabled(s, SyncStatefulSet(id, read, f))
    ensures Inv(cfg, Apply(cfg, s, SyncStatefulSet(id, read, f)))
  {
    var run := s.runs[id];
    var (db, ok) := SyncSts(cfg, s.db, run.inst, read, f);
    SyncKeepsPast(cfg, s, run.inst, read, f);
    var s1 := WithSts(s, db);
    RunsStayOk(cfg, s, s1);
    assert Inv(cfg, s1);
    AfterSyncIsOk(cfg, s, run, read, ok);
    assert RunOk(cfg, s1, AfterSync(cfg, run, read, ok));
    PutRunKeepsInv(cfg, s1, id, AfterSync(cfg, run, read, ok));
  }

  lemma AfterSyncIsOk(cfg: Config, s: State, run: Run, read: Option<Sts>, ok: bool)
    requires ValidConfig(cfg) && Inv(cfg, s) && RunOk(cfg, s, run) && run.next == STS_TASK
    requires read.Some? ==> read.value in s.past
    ensures RunOk(cfg, s, AfterSync(cfg, run, read, ok))
  {
    if ReadyCondition(cfg, run.inst, Seen(read)).holds {
      ReadyMeansRolledOut(cfg, s, run.inst, read);
    }
  }

  lemma PutRunKeepsInv(cfg: Config, s: State, id: nat, run: Run)
    requires Inv(cfg, s) && RunOk(cfg, s, run)
    ensures Inv(cfg, s.(runs := s.runs[id := run]))
  {
    RunsStayOk(cfg, s, s.(runs := s.runs[id := run]));
  }

  lemma DropRunKeepsInv(cfg: Config, s: State, id: nat)
    requires Inv(cfg, s)
    ensures Inv(cfg, s.(runs := s.runs - {id}))
  {
    RunsStayOk(cfg, s, s.(runs := s.runs - {id}));
  }

  lemma RegistryKeepsInv(cfg: Config, s: State, r: Registry)
    requires ValidConfig(cfg) && Inv(cfg, s) && r.version == s.db.rev + 1 && r.status == s.db.registry.status
    requires r.generation > s.db.registry.generation
             || (r.generation == s.db.registry.generation && r.spec == s.db.registry.spec)
    ensures Inv(cfg, WithRegistry(s, r))
  {
    var s' := WithRegistry(s, r);
    assert Grows(s, s');
    RunsStayOk(cfg, s, s');
    forall t | t in s.past
      ensures MarkOk(cfg, s'.specs, t)
    {
      assert MarkOk(cfg, s.specs, t);
    }
  }

  lemma StoreKeepsInv(cfg: Config, s: State, run: Run, f: Fault)
    requires Inv(cfg, s) && RunOk(cfg, s, run) && (run.failed.Some? || run.next == TASK_COUNT)
    ensures Inv(cfg, Stored(cfg, s, run, f))
  {
    var s' := Stored(cfg, s, run, f);
    if s' != s {
      assert run.inst == s.db.registry;
      RunsStayOk(cfg, s, s');
      var c := NewStatus(cfg, run.inst, run.results, run.failed).conditions;
      assert c == run.inst.status.conditions + Outcomes(run.results, run.failed);
      assert Ready in Outcomes(run.results, run.failed);
    }
  }

  lemma ReportKeepsInv(cfg: Config, s: State, t: Sts)
    requires Inv(cfg, s) && s.db.sts.Some?
    requires t.version == s.db.rev + 1 && t.spec == s.db.sts.value.spec && (t.mark.None? || t.mark == s.db.sts.value.mark)
    ensures Inv(cfg, WithSts(s, s.db.(rev := s.db.rev + 1, sts := Some(t))))
  {
    assert MarkOk(cfg, s.specs, s.db.sts.value);
    assert MarkOk(cfg, s.specs, t);
    StsKeepsPast(cfg, s, t);
    RunsStayOk(cfg, s, WithSts(s, s.db.(rev := s.db.rev + 1, sts := Some(t))));
  }

  lemma StepKeepsInv(cfg: Config, s: State, a: Action)
    requires ValidConfig(cfg) && Inv(cfg, s) && Enabled(s, a)
    ensures Inv(cfg, Apply(cfg, s, a))
  {
    match a
    case Start(id, inst) => PutRunKeepsInv(cfg, s, id, Run(inst, 0, map[], None, None));
    case Task(id, error) => PutRunKeepsInv(cfg, s, id, Advance(s.runs[id], error));
    case SyncStatefulSet(id, read, f) => SyncKeepsInv(cfg, s, id, read, f);
    case Store(id, f) =>
      StoreKeepsInv(cfg, s, s.runs[id], f);
      DropRunKeepsInv(cfg, Stored(cfg, s, s.runs[id], f), id);
    case Crash(id) => DropRunKeepsInv(cfg, s, id);
    case ReportStatus(_) => StsEditKeepsInv(cfg, s, a);
    case TouchSts(_, _) => StsEditKeepsInv(cfg, s, a);
    case EditSpec(_) => RegistryEditKeepsInv(cfg, s, a);
    case TouchRegistry => RegistryEditKeepsInv(cfg, s, a);
    case DeleteSts => DeleteKeepsInv(cfg, s);
  }

  lemma StsEditKeepsInv(cfg: Config, s: State, a: Action)
    requires Inv(cfg, s) && Enabled(s, a) && (a.ReportStatus? || a.TouchSts?)
    ensures Inv(cfg, Apply(cfg, s, a))
  {
    var t := s.db.sts.value;
    ReportKeepsInv(cfg, s,
      if a.TouchSts? then t.(version := s.db.rev + 1, mark := a.mark, host := a.host)
      else t.(version := s.db.rev + 1, status := a.status));
  }

  lemma RegistryEditKeepsInv(cfg: Config, s: State, a: Action)
    requires ValidConfig(cfg) && Inv(cfg, s) && Enabled(s, a) && (a.EditSpec? || a.TouchRegistry?)
    ensures Inv(cfg, Apply(cfg, s, a))
  {
    var r := s.db.registry;
    RegistryKeepsInv(cfg, s,
      if a.EditSpec? then r.(version := s.db.rev + 1, generation := r.generation + 1, spec := a.spec)
      else r.(version := s.db.rev + 1));
  }

  lemma DeleteKeepsInv(cfg: Config, s: State)
    requires Inv(cfg, s)
    ensures Inv(cfg, s.(db := s.db.(sts := None)))
  {
    RunsStayOk(cfg, s, s.(db := s.db.(sts := None)));
  }

  // ----- Histories -----

  /** A new registry without a StatefulSet, and nobody at work. */
  predicate Init(s: State) {
    && s.db.sts.None? && s.past == {} && s.runs == map[] && s.basis.None?
    && s.registries == {s.db.registry} && s.specs == map[s.db.registry.generation := s.db.registry.spec]
    && s.db.registry.version <= s.db.rev && s.db.registry.status.conditions == map[]
  }

  predicate IsHistory(cfg: Config, tr: seq<State>, acts: seq<Action>) {
    && |tr| == |acts| + 1 && Init(tr[0])
    && forall i :: 0 <= i < |acts| ==> Enabled(tr[i], acts[i]) && tr[i + 1] == Apply(cfg, tr[i], acts[i])
  }

  lemma {:induction false} ReachableInv(cfg: Config, tr: seq<State>, acts: seq<Action>, i: nat)
    requires ValidConfig(cfg) && IsHistory(cfg, tr, acts) && i < |tr|
    ensures Inv(cfg, tr[i])
  {
    if i > 0 {
      ReachableInv(cfg, tr, acts, i - 1);
      StepKeepsInv(cfg, tr[i - 1], acts[i - 1]);
    }
  }

  /** Readiness never leaks from an older generation: whenever the stored status says ready for the observed generation g,
      some version of the StatefulSet bore the annotation g and the spec built from the registry's spec of generation g,
      the controller had observed exactly that spec with all replicas there, ready and updated, and the run that stored
      the status had read this version and completed all its tasks. */
  lemma ReadyIsEarned(cfg: Config, tr: seq<State>, acts: seq<Action>, i: nat)
    requires ValidConfig(cfg) && IsHistory(cfg, tr, acts) && i < |tr| && IsReady(tr[i].db.registry)
    ensures var g := tr[i].db.registry.status.observedGeneration;
            && g in tr[i].specs && g <= tr[i].db.registry.generation
            && (g == tr[i].db.registry.generation ==> tr[i].specs[g] == tr[i].db.registry.spec)
            && tr[i].basis.Some? && tr[i].basis.value.seen.Some?
            && tr[i].basis.value.completed == 8 && tr[i].basis.value.failed.None?
            && tr[i].basis.value.seen.value in tr[i].past
            && RolledOut(cfg, tr[i].specs[g], g, tr[i].basis.value.seen.value)
  {
    ReachableInv(cfg, tr, acts, i);
  }

  /** In every state the stored status, once a run wrote it, publishes the registry's host and the TLS Secret of the spec of
      the observed generation, and says that the registry is synced exactly if that run completed its tasks; if not, it is
      not ready either. */
  lemma StatusIsPublished(cfg: Config, tr: seq<State>, acts: seq<Action>, i: nat)
    requires ValidConfig(cfg) && IsHistory(cfg, tr, acts) && i < |tr| && tr[i].basis.Some?
    ensures var st, failed := tr[i].db.registry.status, tr[i].basis.value.failed;
            && st.observedGeneration in tr[i].specs
            && st.hostname == cfg.hostname && st.tlsSecret == cfg.tlsSecretOf(tr[i].specs[st.observedGeneration])
            && Synced in st.conditions && Ready in st.conditions
            && (st.conditions[Synced].holds <==> failed.None?)
            && (failed.Some? ==>
                  && st.conditions[Synced] == Condition(false, NoReason, Failure(failed.value))
                  && st.conditions[Ready] == Condition(false, FailedSync, NoMessage))
  {
    ReachableInv(cfg, tr, acts, i);
  }

  /** What is in the record of past versions was stored at some point of the history. */
  lemma {:induction false} PastWasStored(cfg: Config, tr: seq<State>, acts: seq<Action>, i: nat, t: Sts)
    requires IsHistory(cfg, tr, acts) && i < |tr| && t in tr[i].past
    ensures exists j :: 0 <= j <= i && tr[j].db.sts == Some(t)
  {
    if t in tr[i].past && tr[i].db.sts != Some(t) {
      assert i > 0 && t in tr[i - 1].past;
      PastWasStored(cfg, tr, acts, i - 1, t);
    }
  }

  lemma GrowsOn(s: State, s1: State, s2: State)
    requires Grows(s, s1) && Grows(s1, s2)
    ensures Grows(s, s2)
  {
  }

  lemma StepGrows(cfg: Config, s: State, a: Action)
    requires RegistriesOk(s) && Enabled(s, a)
    ensures Grows(s, Apply(cfg, s, a))
  {
  }

  /** The spec that a generation stands for never changes. */
  lemma {:induction false} SpecsAreStable(cfg: Config, tr: seq<State>, acts: seq<Action>, i: nat, j: nat)
    requires ValidConfig(cfg) && IsHistory(cfg, tr, acts) && i <= j < |tr|
    ensures Grows(tr[i], tr[j])
  {
    if i < j {
      SpecsAreStable(cfg, tr, acts, i, j - 1);
      ReachableInv(cfg, tr, acts, j - 1);
      StepGrows(cfg, tr[j - 1], acts[j - 1]);
      GrowsOn(tr[i], tr[j - 1], tr[j]);
    }
  }

  // ----- Undisturbed runs -----

  /** Of a list without errors of their own only the StatefulSet's task has an effect. */
  lemma {:induction false} OnlyStsTask(cfg: Config, t: Tasks, inst: Registry, read: Option<Sts>, f: Fault, i: nat)
    requires i <= TASK_COUNT && t.failed.None?
    ensures RunTasks(cfg, t, inst, read, _ => None, f, i)
            == if i > STS_TASK then t else RunTask(cfg, t, inst, read, None, f, STS_TASK)
    decreases TASK_COUNT - i
  {
    if i < TASK_COUNT && i != STS_TASK {
      OnlyStsTask(cfg, t, inst, read, f, i + 1);
    } else if i == STS_TASK {
      var t' := RunTask(cfg, t, inst, read, None, f, STS_TASK);
      if t'.failed.None? {
        OnlyStsTask(cfg, t', inst, read, f, i + 1);
      }
    }
  }

  lemma RolledOutIffReady(cfg: Config, s: State)
    requires ValidConfig(cfg) && Inv(cfg, s)
    ensures var r := s.db.registry;
            ReadyCondition(cfg, r, Seen(s.db.sts)).holds
            <==> s.db.sts.Some? && RolledOut(cfg, r.spec, r.generation, s.db.sts.value)
  {
    if ReadyCondition(cfg, s.db.registry, Seen(s.db.sts)).holds {
      ReadyMeansRolledOut(cfg, s, s.db.registry, s.db.sts);
    }
  }

  /** A write of the StatefulSet: it gets the spec built from the registry's, the annotations with generation and host,
      keeps its status, and counts a change of its spec. */
  lemma WrittenSts(cfg: Config, db: Db, inst: Registry, read: Option<Sts>, f: Fault)
    requires SyncSts(cfg, db, inst, read, f).0 != db
    ensures var after := SyncSts(cfg, db, inst, read, f).0;
            && after.registry == db.registry && after.sts.Some?
            && var t := after.sts.value;
               && t.spec == cfg.render(inst.spec) && t.mark == Some(cfg.show(inst.generation)) && t.host == Some(cfg.hostname)
               && t.status == (if db.sts.Some? then db.sts.value.status else StsStatus(0, 0, 0, 0))
               && t.generation == (if db.sts.None? then 1
                                   else db.sts.value.generation + if t.spec == db.sts.value.spec then 0 else 1)
  {
  }

  /** A run on current reads without failures. The whole status is stored: the registry's generation as observed, its host
      and TLS Secret, Synced, and Ready exactly if the StatefulSet is rolled out for that generation, else with the number
      of updated pods, which is 0 as long as the controller has not observed the StatefulSet's generation. The StatefulSet
      has the spec and the annotations that the registry asks for. */
  lemma UndisturbedRun(cfg: Config, s: State)
    requires ValidConfig(cfg) && Inv(cfg, s)
    ensures var r, seen := s.db.registry, Seen(s.db.sts);
            var (after, ok) := Reconcile(cfg, s.db, r, s.db.sts, _ => None, Reliable, Reliable);
            var wanted := if r.spec.replicas.Some? then r.spec.replicas.value else 1;
            var updated := if seen.status.observedGeneration == seen.generation then seen.status.updated else 0;
            var rolledOut := s.db.sts.Some? && RolledOut(cfg, r.spec, r.generation, s.db.sts.value);
            && ok && after.registry == r.(version := after.registry.version, status := after.registry.status)
            && after.registry.status.observedGeneration == r.generation
            && after.registry.status.hostname == cfg.hostname && after.registry.status.tlsSecret == cfg.tlsSecretOf(r.spec)
            && after.registry.status.conditions
               == r.status.conditions[Synced := Condition(true, NoReason, NoMessage)][
                    Ready := if rolledOut then Condition(true, NoReason, NoMessage)
                             else Condition(false, Updating, PodsUpdating(updated, wanted))]
            && after.sts.Some? && after.sts.value.spec == cfg.render(r.spec)
            && after.sts.value.mark == Some(cfg.show(r.generation)) && after.sts.value.host == Some(cfg.hostname)
            && (IsReady(after.registry) ==> after.sts.value.spec == s.db.sts.value.spec)
  {
    UndisturbedStatus(cfg, s.db);
    UndisturbedSts(cfg, s.db);
    RolledOutIffReady(cfg, s);
    ConditionComputed(cfg, s.db.registry, Seen(s.db.sts));
  }

  lemma ConditionComputed(cfg: Config, inst: Registry, seen: Sts)
    ensures var c := ReadyCondition(cfg, inst, seen);
            var wanted := if inst.spec.replicas.Some? then inst.spec.replicas.value else 1;
            var updated := if seen.status.observedGeneration == seen.generation then seen.status.updated else 0;
            c == if c.holds then Condition(true, NoReason, NoMessage) else Condition(false, Updating, PodsUpdating(updated, wanted))
  {
  }

  lemma UndisturbedStatus(cfg: Config, db: Db)
    ensures var r := db.registry;
            var (after, ok) := Reconcile(cfg, db, r, db.sts, _ => None, Reliable, Reliable);
            && ok && after.registry == r.(version := after.registry.version, status := after.registry.status)
            && after.registry.status.observedGeneration == r.generation
            && after.registry.status.hostname == cfg.hostname && after.registry.status.tlsSecret == cfg.tlsSecretOf(r.spec)
            && after.registry.status.conditions
               == r.status.conditions[Synced := Condition(true, NoReason, NoMessage)][
                    Ready := ReadyCondition(cfg, r, Seen(db.sts))]
  {
    OnlyStsTask(cfg, Tasks(db, map[], None), db.registry, db.sts, Reliable, 0);
    var c, st := ReadyCondition(cfg, db.registry, Seen(db.sts)), db.registry.status.conditions;
    assert st + map[Ready := c][Synced := Condition(true, NoReason, NoMessage)]
        == st[Synced := Condition(true, NoReason, NoMessage)][Ready := c];
  }

  lemma UndisturbedSts(cfg: Config, db: Db)
    ensures var r := db.registry;
            var after := Reconcile(cfg, db, r, db.sts, _ => None, Reliable, Reliable).0;
            && after.sts.Some? && after.sts.value.spec == cfg.render(r.spec)
            && after.sts.value.mark == Some(cfg.show(r.generation)) && after.sts.value.host == Some(cfg.hostname)
  {
    OnlyStsTask(cfg, Tasks(db, map[], None), db.registry, db.sts, Reliable, 0);
  }

  /** Up to the first task with an error of its own only the StatefulSet's task has an effect. */
  lemma {:induction false} TasksUpToError(cfg: Config, t: Tasks, inst: Registry, read: Option<Sts>,
                                          errors: nat -> Option<string>, f: Fault, i: nat, k: nat)
    requires i <= k < 8 && t.failed.None? && errors(k).Some? && forall j :: i <= j < k ==> errors(j).None?
    ensures RunTasks(cfg, t, inst, read, errors, f, i)
            == var t' := if i <= 6 < k then RunTask(cfg, t, inst, read, None, f, STS_TASK) else t;
               if t'.failed.Some? then t' else t'.(failed := errors(k))
    decreases k - i
  {
    if i == k {
      assert RunTask(cfg, t, inst, read, errors(i), f, i).failed.Some?;
    } else if i == STS_TASK {
      var t' := RunTask(cfg, t, inst, read, None, f, STS_TASK);
      if t'.failed.None? {
        TasksUpToError(cfg, t', inst, read, errors, f, i + 1, k);
      }
    } else {
      TasksUpToError(cfg, t, inst, read, errors, f, i + 1, k);
    }
  }

  /** A run whose task `k` is the first to fail reports an error, and stores that the registry is neither synced, with the
      error, nor ready. The StatefulSet, whose task is the seventh of eight, is written only before the last one. */
  lemma FailedTaskRun(cfg: Config, db: Db, errors: nat -> Option<string>, k: nat)
    requires k < 8 && errors(k).Some? && forall j :: 0 <= j < k ==> errors(j).None?
    ensures var (after, ok) := Reconcile(cfg, db, db.registry, db.sts, errors, Reliable, Reliable);
            var st := after.registry.status;
            && !ok && st.observedGeneration == db.registry.generation
            && st.hostname == cfg.hostname && st.tlsSecret == cfg.tlsSecretOf(db.registry.spec)
            && st.conditions == db.registry.status.conditions[Synced := Condition(false, NoReason, Failure(errors(k).value))][
                                  Ready := Condition(false, FailedSync, NoMessage)]
            && (k <= 6 ==> after.sts == db.sts)
            && (k == 7 ==> after.sts.Some? && after.sts.value.spec == cfg.render(db.registry.spec)
                           && after.sts.value.mark == Some(cfg.show(db.registry.generation)))
  {
    TasksUpToError(cfg, Tasks(db, map[], None), db.registry, db.sts, errors, Reliable, 0, k);
  }

  /** A run that loses the write of a StatefulSet that has to be changed reports an error, and stores that the registry is
      neither synced nor ready. */
  lemma LostStsRun(cfg: Config, db: Db, f: Fault)
    requires f != Reliable && db.sts != Some(Desired(cfg, db.registry, Seen(db.sts)))
    ensures var (after, ok) := Reconcile(cfg, db, db.registry, db.sts, _ => None, f, Reliable);
            && !ok && Synced in after.registry.status.conditions && !after.registry.status.conditions[Synced].holds
            && Ready in after.registry.status.conditions
            && after.registry.status.conditions[Ready] == Condition(false, FailedSync, NoMessage)
  {
    OnlyStsTask(cfg, Tasks(db, map[], None), db.registry, db.sts, f, 0);
  }

  /** The annotation stands for the registry's spec only. An operator that builds another StatefulSet from the same spec,
      say with newer images, says ready in the very run in which it changes the StatefulSet. */
  lemma ChangedRenderingIsReadyEarly(cfg: Config, cfg': Config, db: Db)
    requires ValidConfig(cfg) && ValidConfig(cfg') && cfg'.show == cfg.show
    requires db.sts.Some? && RolledOut(cfg, db.registry.spec, db.registry.generation, db.sts.value)
    requires cfg'.render(db.registry.spec) != cfg.render(db.registry.spec)
    ensures var (after, ok) := Reconcile(cfg', db, db.registry, db.sts, _ => None, Reliable, Reliable);
            && ok && IsReady(after.registry) && after.registry.status.observedGeneration == after.registry.generation
            && after.sts.Some? && after.sts.value.spec != db.sts.value.spec
            && after.sts.value.status.observedGeneration != after.sts.value.generation
  {
    OnlyStsTask(cfg', Tasks(db, map[], None), db.registry, db.sts, Reliable, 0);
  }

  /** The actions lead from one state to the other. */
  predicate Reaches(cfg: Config, s: State, acts: seq<Action>, s': State)
    decreases |acts|
  {
    if acts == [] then s == s' else Enabled(s, acts[0]) && Reaches(cfg, Apply(cfg, s, acts[0]), acts[1..], s')
  }

  function TaskAction(id: nat, read: Option<Sts>, error: Option<string>, f: Fault, i: nat): Action {
    if i == STS_TASK && error.None? then SyncStatefulSet(id, read, f) else Task(id, error)
  }

  function TasksOf(s: State, run: Run): Tasks {
    Tasks(s.db, run.results, run.failed)
  }

  lemma TaskStep(cfg: Config, s: State, id: nat, read: Option<Sts>, error: Option<string>, f: Fault)
    returns (run': Run)
    requires id in s.runs && s.runs[id].next < TASK_COUNT && s.runs[id].failed.None? && (read.Some? ==> read.value in s.past)
    ensures var a, run := TaskAction(id, read, error, f, s.runs[id].next), s.runs[id];
            && Enabled(s, a)
            && var s' := Apply(cfg, s, a);
               && s'.runs == s.runs[id := run'] && s.past <= s'.past
               && run'.inst == run.inst && (run'.next == run.next + 1 || (run'.failed.Some? && run'.next == run.next))
               && TasksOf(s', run') == RunTask(cfg, TasksOf(s, run), run.inst, read, error, f, run.next)
  {
    run' := Apply(cfg, s, TaskAction(id, read, error, f, s.runs[id].next)).runs[id];
  }

  lemma StoreIsHistory(cfg: Config, s: State, id: nat, f: Fault) returns (acts: seq<Action>, s': State)
    requires id in s.runs && (s.runs[id].next == TASK_COUNT || s.runs[id].failed.Some?)
    ensures var run := s.runs[id];
            && s'.runs == s.runs - {id}
            && s'.db == PutStatus(s.db, run.inst, NewStatus(cfg, run.inst, run.results, run.failed), f).0
    ensures Reaches(cfg, s, acts, s')
  {
    s' := Apply(cfg, s, Store(id, f));
    acts := [Store(id, f)];
    assert Reaches(cfg, s', [], s');
    assert acts[1..] == [];
  }

  lemma {:induction false} TasksAreHistory(cfg: Config, s: State, id: nat, read: Option<Sts>, errors: nat -> Option<string>,
                                           stsFault: Fault, statusFault: Fault)
    returns (acts: seq<Action>, s': State)
    requires id in s.runs && s.runs[id].next <= TASK_COUNT && (read.Some? ==> read.value in s.past)
    ensures var run := s.runs[id];
            var t := RunTasks(cfg, TasksOf(s, run), run.inst, read, errors, stsFault, run.next);
            && s'.runs == s.runs - {id}
            && s'.db == PutStatus(t.db, run.inst, NewStatus(cfg, run.inst, t.results, t.failed), statusFault).0
    ensures Reaches(cfg, s, acts, s')
    decreases TASK_COUNT - s.runs[id].next, if s.runs[id].failed.None? then 1 else 0
  {
    var run := s.runs[id];
    if run.next == TASK_COUNT || run.failed.Some? {
      acts, s' := StoreIsHistory(cfg, s, id, statusFault);
    } else {
      var run' := TaskStep(cfg, s, id, read, errors(run.next), stsFault);
      var a := TaskAction(id, read, errors(run.next), stsFault, run.next);
      var s1 := Apply(cfg, s, a);
      var rest;
      rest, s' := TasksAreHistory(cfg, s1, id, read, errors, stsFault, statusFault);
      acts := [a] + rest;
      assert acts[1..] == rest;
      assert s.runs[id := run'] - {id} == s.runs - {id};
    }
  }

  /** Every run, whatever it read and whichever of its tasks and writes fail, is a history of the protocol. */
  lemma RunIsHistory(cfg: Config, s: State, id: nat, inst: Registry, read: Option<Sts>, errors: nat -> Option<string>,
                     stsFault: Fault, statusFault: Fault)
    returns (acts: seq<Action>, s': State)
    requires id !in s.runs && inst in s.registries && (read.Some? ==> read.value in s.past)
    ensures Reaches(cfg, s, acts, s') && s'.runs == s.runs
    ensures s'.db == Reconcile(cfg, s.db, inst, read, errors, stsFault, statusFault).0
  {
    var s1 := Apply(cfg, s, Start(id, inst));
    var rest;
    rest, s' := TasksAreHistory(cfg, s1, id, read, errors, stsFault, statusFault);
    acts := [Start(id, inst)] + rest;
    assert acts[1..] == rest;
    assert s1.runs - {id} == s.runs;
  }

  /** What the operator really uses for a registry. */
  function ConfigOf(name: string, ns: string, zone: string, render: Spec -> StsSpec): Config {
    Config(render, Decimal, RegistryHostname(name, ns, zone), spec => TlsSecretName(name, spec))
  }

  /** Its host, and the TLS Secret: the one that the spec names, else one whose name tells who issues it. */
  lemma PublishedNames(name: string, ns: string, zone: string, render: Spec -> StsSpec, spec: Spec)
    ensures var cfg := ConfigOf(name, ns, zone, render);
            && cfg.hostname == name + "." + ns + "." + zone
            && cfg.tlsSecretOf(spec)
               == if spec.tls.secretName.Some? then spec.tls.secretName.value
                  else if spec.tls.issued then "imageregistry-" + name + "-cm-tls"
                  else "imageregistry-" + name + "-selfsigned-tls"
  {
  }

  /** The annotations that a history's StatefulSets bear are those of the real rendering of generations. */
  lemma DecimalTellsGenerationsApart(render: Spec -> StsSpec, hostname: string, tlsSecretOf: Spec -> string)
    requires forall s :: render(s).replicas == Replicas(s)
    ensures ValidConfig(Config(render, Decimal, hostname, tlsSecretOf))
  {
    forall g, h | Decimal(g) == Decimal(h)
      ensures g == h
    {
      DecimalInjective(g, h);
    }
  }
}
