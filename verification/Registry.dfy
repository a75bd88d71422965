/** The ImageRegistry reconciler: its tasks, among them the one for the StatefulSet, and the status that it stores. */
module Registry {
  import opened Wrappers
  import opened Cluster

  /** Where the TLS certificate comes from: a given Secret, a cert-manager issuer, or the operator's own CA. */
  datatype Tls = Tls(secretName: Option<string>, issued: bool)

  datatype Spec = Spec(replicas: Option<int>, tls: Tls, rest: string)

  datatype StsSpec = StsSpec(replicas: int, template: string)

  datatype StsStatus = StsStatus(observedGeneration: int, replicas: int, ready: int, updated: int)

  /** `mark` is the annotation with the registry's generation, `host` the one with its external name. */
  datatype Sts = Sts(
    version: nat, generation: int, spec: StsSpec, mark: Option<string>, host: Option<string>, status: StsStatus)

  datatype CondType = Ready | Synced

  datatype Reason = NoReason | Updating | FailedSync

  datatype Message = NoMessage | PodsUpdating(updated: int, replicas: int) | Failure(text: string)

  datatype Condition = Condition(holds: bool, reason: Reason, message: Message)

  type Conditions = map<CondType, Condition>

  datatype Status = Status(observedGeneration: int, conditions: Conditions, hostname: string, tlsSecret: string)

  datatype Registry = Registry(version: nat, generation: int, spec: Spec, status: Status)

  /** `render` builds the StatefulSet's spec, `show` writes a generation as annotation. */
  datatype Config = Config(render: Spec -> StsSpec, show: int -> string, hostname: string, tlsSecretOf: Spec -> string)

  datatype Db = Db(rev: nat, registry: Registry, sts: Option<Sts>)

  function Replicas(s: Spec): int {
    if s.replicas.Some? then s.replicas.value else 1
  }

  function TlsSecretName(name: string, spec: Spec): string {
    if spec.tls.secretName.Some? then spec.tls.secretName.value
    else "imageregistry-" + name + if spec.tls.issued then "-cm-tls" else "-selfsigned-tls"
  }

  ghost predicate ValidConfig(cfg: Config) {
    && (forall s :: cfg.render(s).replicas == Replicas(s))
    && (forall g, h :: cfg.show(g) == cfg.show(h) ==> g == h)
  }

  // ----- The StatefulSet task -----

  /** What the closure starts from when no StatefulSet was read. */
  const BLANK_STS := Sts(0, 0, StsSpec(0, ""), None, None, StsStatus(0, 0, 0, 0))

  /** The condition computed from what was read, after the new spec was filled in and before it is written. */
  function ReadyCondition(cfg: Config, inst: Registry, seen: Sts): Condition {
    var s, replicas := seen.status, Replicas(inst.spec);
    var observed := s.observedGeneration == seen.generation;
    var updated := if observed then s.updated else 0;
    var ready :=
      && observed && seen.mark == Some(cfg.show(inst.generation))
      && cfg.render(inst.spec).replicas == replicas
      && s.replicas == replicas && s.ready == replicas && updated == replicas;
    if ready then Condition(true, NoReason, NoMessage)
    else Condition(false, Updating, PodsUpdating(updated, replicas))
  }

  function Desired(cfg: Config, inst: Registry, seen: Sts): Sts {
    seen.(spec := cfg.render(inst.spec), mark := Some(cfg.show(inst.generation)), host := Some(cfg.hostname))
  }

  /** The API server keeps the status and counts the changes of the spec. */
  function PutSts(db: Db, read: Option<Sts>, s: Sts, f: Fault): (Db, bool) {
    if read == Some(s) then (db, true)
    else if f.DroppedRequest? then (db, false)
    else if read.None? && db.sts.None? then
      (db.(rev := db.rev + 1, sts := Some(s.(version := db.rev + 1, generation := 1, status := BLANK_STS.status))), f.Reliable?)
    else if read.Some? && db.sts.Some? && db.sts.value.version == read.value.version then
      var cur := db.sts.value;
      var generation := if s.spec == cur.spec then cur.generation else cur.generation + 1;
      (db.(rev := db.rev + 1, sts := Some(s.(version := db.rev + 1, generation := generation, status := cur.status))), f.Reliable?)
    else (db, false)
  }

  function Seen(read: Option<Sts>): Sts {
    if read.Some? then read.value else BLANK_STS
  }

  function SyncSts(cfg: Config, db: Db, inst: Registry, read: Option<Sts>, f: Fault): (Db, bool) {
    PutSts(db, read, Desired(cfg, inst, Seen(read)), f)
  }

  // ----- The reconcile tasks -----

  const TASK_COUNT: nat := 8

  const STS_TASK: nat := 6

  /** `results`: the conditions that the tasks set; `failed`: the error of the task that ended the list. */
  datatype Tasks = Tasks(db: Db, results: Conditions, failed: Option<string>)

  const WRITE_ERROR := "write failed"

  /** Runs task `i` of a list without failure so far. `error` is its error, a failed write of the StatefulSet apart. */
  function RunTask(cfg: Config, t: Tasks, inst: Registry, read: Option<Sts>, error: Option<string>, f: Fault, i: nat): Tasks {
    if error.Some? then t.(failed := error)
    else if i != STS_TASK then t
    else
      var (db, ok) := SyncSts(cfg, t.db, inst, read, f);
      Tasks(db, t.results[Ready := ReadyCondition(cfg, inst, Seen(read))], if ok then None else Some(WRITE_ERROR))
  }

  function RunTasks(cfg: Config, t: Tasks, inst: Registry, read: Option<Sts>, errors: nat -> Option<string>, f: Fault, i: nat): Tasks
    decreases TASK_COUNT - i
  {
    if i >= TASK_COUNT || t.failed.Some? then t
    else RunTasks(cfg, RunTask(cfg, t, inst, read, errors(i), f, i), inst, read, errors, f, i + 1)
  }

  // ----- The status -----

  function Outcomes(results: Conditions, failed: Option<string>): Conditions {
    match failed
    case None => results[Synced := Condition(true, NoReason, NoMessage)]
    case Some(text) =>
      results[Synced := Condition(false, NoReason, Failure(text))][Ready := Condition(false, FailedSync, NoMessage)]
  }

  function NewStatus(cfg: Config, inst: Registry, results: Conditions, failed: Option<string>): Status {
    Status(inst.generation, inst.status.conditions + Outcomes(results, failed), cfg.hostname, cfg.tlsSecretOf(inst.spec))
  }

  function PutStatus(db: Db, inst: Registry, status: Status, f: Fault): (Db, bool) {
    if inst.status == status then (db, true)
    else if f.DroppedRequest? || db.registry.version != inst.version then (db, false)
    else
      (db.(rev := db.rev + 1, registry := db.registry.(version := db.rev + 1, status := status)), f.Reliable?)
  }

  /** A whole run without interference; true if it reports no error. */
  function Reconcile(cfg: Config, db: Db, inst: Registry, read: Option<Sts>, errors: nat -> Option<string>,
                     stsFault: Fault, statusFault: Fault): (Db, bool)
  {
    var t := RunTasks(cfg, Tasks(db, map[], None), inst, read, errors, stsFault, 0);
    var (after, ok) := PutStatus(t.db, inst, NewStatus(cfg, inst, t.results, t.failed), statusFault);
    (after, ok && t.failed.None?)
  }

  // ----- As it runs -----

  lemma SetDiffers(conditions: Conditions, merged: Conditions, k: CondType, c: Condition)
    requires k in merged <==> k in conditions
    requires k in merged ==> merged[k] == conditions[k]
    ensures merged[k := c] != conditions <==> merged != conditions || k !in merged || merged[k] != c
  {
    if k in merged && merged[k] == c {
      assert merged[k := c] == merged;
    } else {
      assert merged[k := c][k] == c;
    }
  }

  lemma MoveEntry<K, V>(m: map<K, V>, rest: map<K, V>, k: K)
    requires k in rest
    ensures m[k := rest[k]] + (rest - {k}) == m + rest
  {
    var a, b := m[k := rest[k]] + (rest - {k}), m + rest;
    assert a.Keys == b.Keys;
    forall j | j in a.Keys
      ensures a[j] == b[j]
    {
    }
  }

  /** Merges the resulting conditions, in any order, into those that are stored; `changed` tells whether any is new. */
  method MergeConditions(conditions: Conditions, results: Conditions) returns (merged: Conditions, changed: bool)
    ensures merged == conditions + results
    ensures changed <==> merged != conditions
  {
    merged, changed := conditions, false;
    var rest := results;
    while rest != map[]
      invariant merged + rest == conditions + results
      invariant forall k :: k in rest ==> (k in merged <==> k in conditions)
      invariant forall k :: k in rest && k in merged ==> merged[k] == conditions[k]
      invariant changed <==> merged != conditions
      decreases |rest|
    {
      var k :| k in rest;
      SetDiffers(conditions, merged, k, rest[k]);
      changed := changed || k !in merged || merged[k] != rest[k];
      MoveEntry(merged, rest, k);
      assert |rest - {k}| < |rest| by {
        assert (rest - {k}).Keys == rest.Keys - {k};
      }
      merged := merged[k := rest[k]];
      rest := rest - {k};
    }
    assert merged + map[] == merged;
  }

  class Api {
    var rev: nat
    var registry: Registry
    var sts: Option<Sts>

    constructor (db: Db)
      ensures View() == db
    {
      rev, registry, sts := db.rev, db.registry, db.sts;
    }

    function View(): Db
      reads this
    {
      Db(rev, registry, sts)
    }

    /** Creates or updates the StatefulSet unless it is as wanted already. */
    method Upsert(read: Option<Sts>, s: Sts, f: Fault) returns (ok: bool)
      modifies this`rev, this`sts
      ensures (View(), ok) == PutSts(old(View()), read, s, f)
    {
      if read == Some(s) {
        return true;
      }
      if f.DroppedRequest? || read.None? != sts.None? || (sts.Some? && sts.value.version != read.value.version) {
        return false;
      }
      rev := rev + 1;
      if sts.None? {
        sts := Some(s.(version := rev, generation := 1, status := StsStatus(0, 0, 0, 0)));
      } else {
        var generation := sts.value.generation + if s.spec == sts.value.spec then 0 else 1;
        sts := Some(s.(version := rev, generation := generation, status := sts.value.status));
      }
      return f.Reliable?;
    }

    method UpdateStatus(inst: Registry, status: Status, f: Fault) returns (ok: bool)
      requires inst.status != status
      modifies this`rev, this`registry
      ensures (View(), ok) == PutStatus(old(View()), inst, status, f)
    {
      if f.DroppedRequest? || registry.version != inst.version {
        return false;
      }
      rev := rev + 1;
      registry := registry.(version := rev, status := status);
      return f.Reliable?;
    }
  }

  class Reconciler {
    const cfg: Config
    const api: Api

    constructor (cfg: Config, api: Api)
      ensures this.cfg == cfg && this.api == api
    {
      this.cfg := cfg;
      this.api := api;
    }

    method ReconcileStatefulSet(inst: Registry, read: Option<Sts>, f: Fault) returns (ready: Condition, ok: bool)
      modifies api
      ensures ready == ReadyCondition(cfg, inst, Seen(read))
      ensures (api.View(), ok) == SyncSts(cfg, old(api.View()), inst, read, f)
    {
      var statefulSet := if read.Some? then read.value else BLANK_STS;
      var s, mark := statefulSet.status, statefulSet.mark;
      statefulSet := statefulSet.(spec := cfg.render(inst.spec));
      var generation := cfg.show(inst.generation);
      var replicas := 1;
      if inst.spec.replicas.Some? {
        replicas := inst.spec.replicas.value;
      }
      var updated := s.updated;
      var upToDate := s.observedGeneration == statefulSet.generation;
      if !upToDate {
        updated := 0;
      }
      upToDate := upToDate && mark == Some(generation);
      if upToDate && statefulSet.spec.replicas == replicas && s.replicas == replicas && s.ready == replicas && updated == replicas {
        ready := Condition(true, NoReason, NoMessage);
      } else {
        ready := Condition(false, Updating, PodsUpdating(updated, replicas));
      }
      statefulSet := statefulSet.(mark := Some(generation), host := Some(cfg.hostname));
      ok := api.Upsert(read, statefulSet, f);
    }

    /** Merges the outcome into the stored conditions; the status is written only if anything in it changed. */
    method StoreStatus(inst: Registry, taskResults: Conditions, failed: Option<string>, f: Fault) returns (ok: bool)
      modifies api
      ensures (api.View(), ok) == PutStatus(old(api.View()), inst, NewStatus(cfg, inst, taskResults, failed), f)
    {
      var synced := Condition(true, NoReason, NoMessage);
      if failed.Some? {
        synced := Condition(false, NoReason, Failure(failed.value));
      }
      var results := taskResults[Synced := synced];
      if !synced.holds {
        results := results[Ready := Condition(false, FailedSync, NoMessage)];
      }
      var conditions, changed := MergeConditions(inst.status.conditions, results);
      var status := Status(inst.generation, conditions, cfg.hostname, cfg.tlsSecretOf(inst.spec));
      ok := true;
      if changed || inst.status.observedGeneration != inst.generation || inst.status.hostname != cfg.hostname
         || inst.status.tlsSecret != cfg.tlsSecretOf(inst.spec)
      {
        ok := api.UpdateStatus(inst, status, f);
      }
    }

    /** Runs the tasks up to the first that fails and stores the status. */
    method Run(inst: Registry, read: Option<Sts>, errors: nat -> Option<string>, stsFault: Fault, statusFault: Fault)
      returns (ok: bool)
      modifies api
      ensures (api.View(), ok) == Reconcile(cfg, old(api.View()), inst, read, errors, stsFault, statusFault)
    {
      var results: Conditions, failed: Option<string>, i := map[], None, 0;
      while i < TASK_COUNT && failed.None?
        invariant 0 <= i <= TASK_COUNT
        invariant RunTasks(cfg, Tasks(old(api.View()), map[], None), inst, read, errors, stsFault, 0)
               == RunTasks(cfg, Tasks(api.View(), results, failed), inst, read, errors, stsFault, i)
        decreases TASK_COUNT - i
      {
        failed := errors(i);
        if failed.None? && i == STS_TASK {
          var ready, stored := ReconcileStatefulSet(inst, read, stsFault);
          results := results[Ready := ready];
          failed := if stored then None else Some(WRITE_ERROR);
        }
        i := i + 1;
      }
      ok := StoreStatus(inst, results, failed, statusFault);
      ok := ok && failed.None?;
    }
  }
}
