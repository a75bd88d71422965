/** One ImagePullSecret or ImagePushSecret, the objects the operator writes for it, and one reconcile run.
    Every write is checked by the API server and may fail before or after it took effect. */
module ImageSecret {
  import opened Wrappers
  import opened Cluster
  import opened Accounts

  const REQUEUE_DELAY: Duration := 30 * SECOND

  // ----- Stored objects -----

  datatype Reason = NoReason | RegistryUnavailable | FailedSync | FailedUpdate

  datatype ConditionType = Ready | Synced

  datatype Condition = Condition(status: bool, reason: Reason, message: string)

  /** The custom resource. Its status part is `rotation`, `registryNs`, `conditions` and `observedGeneration`. */
  datatype Cr = Cr(
    version: nat, generation: int, deleting: bool, finalizer: bool,
    rotation: int, registryNs: string, conditions: map<ConditionType, Condition>, observedGeneration: int)

  /** The registry a run resolved: only a ready one is returned by the lookup. */
  datatype Registry = Registry(ns: string, name: string, ca: string)

  /** Namespaces are DNS labels. */
  predicate ValidRegistry(reg: Registry) {
    '.' !in reg.ns
  }

  datatype DockerConfig = NoConfig | DockerAuth(registry: string, user: string, password: string)

  datatype SecretData = SecretData(
    username: string, password: string, registry: string, ca: string, dockerConfig: DockerConfig, secretType: string)

  /** The output Secret; `mark` is its rotation annotation, absent when it is no number. */
  datatype Secret = Secret(uid: nat, version: nat, mark: Option<int>, controlledByOther: bool, data: SecretData)

  /** The part of the API server that runs of this resource read and write.
      `live` is false once the resource's last finalizer is gone. */
  datatype Db = Db(rev: nat, cr: Cr, live: bool, accounts: map<Key, Account>, secret: Option<Secret>)

  /** The resource's account names by rotation, hostnames by registry, its accounts' time to live and labels (see
      `Account`), and its Secret's type. */
  datatype Config = Config(nameOf: int -> string, hostOf: Registry -> string, ttl: Duration, labels: Labels, owner: string, secretType: string)

  ghost predicate NamesDistinct(cfg: Config) {
    forall j, k :: cfg.nameOf(j) == cfg.nameOf(k) ==> j == k
  }

  ghost predicate HostsDistinct(cfg: Config) {
    forall r, q :: ValidRegistry(r) && ValidRegistry(q) && cfg.hostOf(r) == cfg.hostOf(q) ==> r.ns == q.ns
  }

  /** Names tell rotations apart and hostnames tell registry namespaces apart (see `OperatorConfig`). */
  ghost predicate ValidConfig(cfg: Config) {
    cfg.ttl >= 1 && NamesDistinct(cfg) && HostsDistinct(cfg) && forall k :: cfg.nameOf(k) != ""
  }

  function Interval(cfg: Config): Duration
  {
    cfg.ttl / 2
  }

  // ----- Writes -----

  /** `Status().Update`: fails on a stale version; returns the stored object. */
  function PutStatus(db: Db, inst: Cr, f: Fault): (Db, Option<Cr>) {
    if f.DroppedRequest? || !db.live || inst.version != db.cr.version then (db, None)
    else
      var cr := db.cr.(version := db.rev + 1, rotation := inst.rotation, registryNs := inst.registryNs,
                       conditions := inst.conditions, observedGeneration := inst.observedGeneration);
      (db.(rev := db.rev + 1, cr := cr), if f.Reliable? then Some(cr) else None)
  }

  /** `Update` of the resource's finalizer; the status part is ignored, and a deleted resource without finalizer is gone. */
  function PutFinalizer(db: Db, inst: Cr, finalizer: bool, f: Fault): (Db, bool) {
    if f.DroppedRequest? || !db.live || inst.version != db.cr.version then (db, false)
    else
      var cr := db.cr.(version := db.rev + 1, finalizer := finalizer);
      (db.(rev := db.rev + 1, cr := cr, live := !(cr.deleting && !finalizer)), f.Reliable?)
  }

  function CreateAccount(db: Db, key: Key, a: Account, f: Fault): (Db, bool) {
    if f.DroppedRequest? || key in db.accounts then (db, false)
    else (db.(rev := db.rev + 1, accounts := db.accounts[key := a]), f.Reliable?)
  }

  /** Creates the Secret when the run had not found one, else updates the one it read. */
  function PutSecret(db: Db, read: Option<Secret>, mark: int, data: SecretData, f: Fault): (Db, bool) {
    if f.DroppedRequest? then (db, false)
    else if read.None? then
      if db.secret.Some? then (db, false)
      else (db.(rev := db.rev + 1, secret := Some(Secret(db.rev + 1, db.rev + 1, Some(mark), false, data))), f.Reliable?)
    else if db.secret.None? || db.secret.value.uid != read.value.uid || db.secret.value.version != read.value.version then (db, false)
    else (db.(rev := db.rev + 1, secret := Some(read.value.(version := db.rev + 1, mark := Some(mark), data := data))), f.Reliable?)
  }

  /** `DeleteAllOf` by label: removes some accounts of one namespace. */
  function DeleteOrphans(db: Db, ns: string, names: set<string>): Db {
    db.(accounts := map k | k in db.accounts && !(k.ns == ns && k.name in names) :: db.accounts[k])
  }

  // ----- One run, stage by stage -----

  datatype Credential = Credential(password: string, hash: Hashed)

  predicate ValidCredential(c: Credential) {
    c.password != "" && MatchPassword(c.hash, c.password)
  }

  /** What the run fetched before its first write. */
  datatype Reads = Reads(inst: Cr, registry: Option<Registry>, account: Option<Account>, secret: Option<Secret>)

  /** A run between two of its writes. */
  datatype Run =
    | Rotating(inst: Cr, reg: Registry, secret: Option<Secret>, cred: Credential)
    | Claimed(inst: Cr, reg: Registry, secret: Option<Secret>, cred: Credential)
    | Stored(inst: Cr, reg: Registry, secret: Option<Secret>, cred: Credential)
    | Reporting(inst: Cr, cond: ConditionType, status: bool, reason: Reason)

  function Failure(inst: Cr): Run {
    Reporting(inst, Ready, false, FailedSync)
  }

  function Success(inst: Cr): Run {
    Reporting(inst, Ready, true, NoReason)
  }

  predicate NeedsRotation(cfg: Config, inst: Cr, reg: Registry, account: Option<Account>, secret: Option<Secret>, now: Time) {
    || account.None?
    || secret.None?
    || secret.value.mark != Some(inst.rotation)
    || now - account.value.created > Interval(cfg)
    || secret.value.data.registry != cfg.hostOf(reg)
    || secret.value.data.ca != reg.ca
  }

  /** The decision after the reads; a missing credential is a failed password hash. */
  function Begin(cfg: Config, r: Reads, now: Time, cred: Option<Credential>): Run {
    if r.registry.None? then Reporting(r.inst, Ready, false, RegistryUnavailable)
    else if !NeedsRotation(cfg, r.inst, r.registry.value, r.account, r.secret, now) then Success(r.inst)
    else if cred.None? then Failure(r.inst)
    else Rotating(r.inst, r.registry.value, r.secret, cred.value)
  }

  /** Accounts left in a registry namespace that the resource no longer refers to; a failed deletion is ignored. */
  function DropOrphans(db: Db, run: Run, names: set<string>): Db
    requires run.Rotating?
  {
    if run.inst.registryNs != "" && run.inst.registryNs != run.reg.ns
    then DeleteOrphans(db, run.inst.registryNs, names) else db
  }

  /** The write-ahead claim: the next rotation is stored before anything is created for it. */
  function Claim(db: Db, run: Run, f: Fault): (Db, Run)
    requires run.Rotating?
  {
    var inst := run.inst.(rotation := run.inst.rotation + 1, registryNs := run.reg.ns);
    var (db', stored) := PutStatus(db, inst, f);
    (db', if stored.Some? then Claimed(stored.value, run.reg, run.secret, run.cred) else Failure(inst))
  }

  /** The API server stamps it with the second. */
  function NewAccount(cfg: Config, db: Db, cred: Credential, now: Time): Account {
    Account(db.rev + 1, WholeSecond(now), cred.hash, cfg.labels, Some(cfg.ttl), cfg.owner)
  }

  function AccountKey(cfg: Config, run: Run): Key
    requires !run.Reporting?
  {
    Key(run.reg.ns, cfg.nameOf(run.inst.rotation))
  }

  function StoreAccount(cfg: Config, db: Db, run: Run, now: Time, f: Fault): (Db, Run)
    requires run.Claimed?
  {
    var (db', ok) := CreateAccount(db, AccountKey(cfg, run), NewAccount(cfg, db, run.cred, now), f);
    (db', if ok then Stored(run.inst, run.reg, run.secret, run.cred) else Failure(run.inst))
  }

  function NewData(cfg: Config, run: Run): SecretData
    requires !run.Reporting?
  {
    var user := cfg.nameOf(run.inst.rotation);
    SecretData(user, run.cred.password, cfg.hostOf(run.reg), run.reg.ca,
               DockerAuth(cfg.hostOf(run.reg), user, run.cred.password), cfg.secretType)
  }

  function StoreSecret(cfg: Config, db: Db, run: Run, f: Fault): (Db, Run)
    requires run.Stored?
  {
    if run.secret.Some? && run.secret.value.controlledByOther then (db, Failure(run.inst))
    else
      var (db', ok) := PutSecret(db, run.secret, run.inst.rotation, NewData(cfg, run), f);
      (db', if ok then Success(run.inst) else Failure(run.inst))
  }

  /** `setSyncStatus`: writes the whole status, but only when condition or generation changed. */
  function Report(db: Db, run: Run, msg: string, f: Fault): (Db, bool)
    requires run.Reporting?
  {
    var c := Condition(run.status, run.reason, msg);
    if run.cond in run.inst.conditions && run.inst.conditions[run.cond] == c
       && run.inst.observedGeneration == run.inst.generation then (db, true)
    else
      var inst := run.inst.(conditions := run.inst.conditions[run.cond := c], observedGeneration := run.inst.generation);
      var (db', stored) := PutStatus(db, inst, f);
      (db', stored.Some?)
  }

  // ----- A whole run -----

  datatype Faults = Faults(finalizer: Fault, claim: Fault, account: Fault, secret: Fault, report: Fault)

  /** Everything a run takes from outside: what its reads returned, whether the lookup of account or Secret failed, the
      clock, random values, and faults. */
  datatype Inputs = Inputs(
    cr: Option<Cr>, registry: Option<Registry>, account: Option<Account>, secret: Option<Secret>, readsFail: bool,
    now: Time, createdAt: Time, cred: Option<Credential>, orphans: set<string>, orphansFail: bool,
    msg: string, faults: Faults)

  datatype Outcome = Done | RequeueAfter(delay: Duration) | Failed

  function RenewalDelay(cfg: Config, created: Time, now: Time): Duration {
    created + Interval(cfg) - now + REQUEUE_DELAY
  }

  /** Creation time of the account that was looked up; Go's zero time when there was none. */
  function CreatedOrZero(account: Option<Account>, zero: Time): Time {
    if account.Some? then account.value.created else zero
  }

  /** Account and Secret for a claimed rotation. */
  function StoreBoth(cfg: Config, db: Db, run: Run, in_: Inputs): (r: (Db, Run))
    requires run.Claimed?
    ensures r.1.Reporting?
  {
    var (db', run') := StoreAccount(cfg, db, run, in_.createdAt, in_.faults.account);
    if run'.Stored? then StoreSecret(cfg, db', run', in_.faults.secret) else (db', run')
  }

  /** The rotation of one run up to its report. */
  function Rotate(cfg: Config, db: Db, run: Run, in_: Inputs): (r: (Db, Run))
    requires run.Rotating?
    ensures r.1.Reporting?
  {
    var (db', run') := Claim(DropOrphans(db, run, in_.orphans), run, in_.faults.claim);
    if run'.Claimed? then StoreBoth(cfg, db', run', in_) else (db', run')
  }

  const ZERO_TIME: Time := -62_135_596_800 * SECOND

  /** The outcome that follows the report of a run. */
  function Conclude(cfg: Config, in_: Inputs, run: Run, reported: bool): Outcome
    requires run.Reporting?
  {
    if !reported then Failed
    else if run.status then RequeueAfter(RenewalDelay(cfg, CreatedOrZero(in_.account, ZERO_TIME), in_.now))
    else if in_.registry.None? then RequeueAfter(REQUEUE_DELAY)
    else Done
  }

  /** Only failures have a message. */
  function MessageOf(run: Run, in_: Inputs): string
    requires run.Reporting?
  {
    if run.status then "" else in_.msg
  }

  function Reconcile(cfg: Config, db: Db, in_: Inputs): (Db, Outcome) {
    if in_.cr.None? then (db, Done)
    else
      var inst := in_.cr.value;
      if inst.deleting then
        if !inst.finalizer then (db, Done)
        else if inst.registryNs != "" && in_.orphansFail then (DeleteOrphans(db, inst.registryNs, in_.orphans), Failed)
        else
          var db1 := if inst.registryNs != "" then DeleteOrphans(db, inst.registryNs, in_.orphans) else db;
          var (db2, ok) := PutFinalizer(db1, inst, false, in_.faults.finalizer);
          (db2, if ok then Done else Failed)
      else if !inst.finalizer then
        var (db1, ok) := PutFinalizer(db, inst, true, in_.faults.finalizer);
        if ok then (db1, Done)
        else (Report(db1, Reporting(inst.(finalizer := true), Synced, false, FailedUpdate), in_.msg, in_.faults.report).0, Failed)
      else if in_.registry.Some? && in_.readsFail then (db, Failed)
      else
        var run := Begin(cfg, Reads(inst, in_.registry, in_.account, in_.secret), in_.now, in_.cred);
        var (db1, last) := if run.Rotating? then Rotate(cfg, db, run, in_) else (db, run);
        var (db2, ok) := Report(db1, last, MessageOf(last, in_), in_.faults.report);
        (db2, Conclude(cfg, in_, last, ok))
  }

  // ----- The same run as the operator executes it -----

  class ApiServer {
    var rev: nat
    var cr: Cr
    var live: bool
    var accounts: map<Key, Account>
    var secret: Option<Secret>

    constructor (db: Db)
      ensures View() == db
    {
      rev, cr, live, accounts, secret := db.rev, db.cr, db.live, db.accounts, db.secret;
    }

    function View(): Db
      reads this
    {
      Db(rev, cr, live, accounts, secret)
    }

    method UpdateStatus(inst: Cr, f: Fault) returns (stored: Option<Cr>)
      modifies this`rev, this`cr
      ensures (View(), stored) == PutStatus(old(View()), inst, f)
    {
      if f.DroppedRequest? || !live || inst.version != cr.version {
        return None;
      }
      rev := rev + 1;
      cr := cr.(version := rev, rotation := inst.rotation, registryNs := inst.registryNs,
                conditions := inst.conditions, observedGeneration := inst.observedGeneration);
      return if f.Reliable? then Some(cr) else None;
    }

    method UpdateFinalizer(inst: Cr, finalizer: bool, f: Fault) returns (ok: bool)
      modifies this`rev, this`cr, this`live
      ensures (View(), ok) == PutFinalizer(old(View()), inst, finalizer, f)
    {
      if f.DroppedRequest? || !live || inst.version != cr.version {
        return false;
      }
      rev := rev + 1;
      cr := cr.(version := rev, finalizer := finalizer);
      live := !(cr.deleting && !finalizer);
      return f.Reliable?;
    }

    method Create(key: Key, a: Account, f: Fault) returns (ok: bool)
      modifies this`rev, this`accounts
      ensures (View(), ok) == CreateAccount(old(View()), key, a, f)
    {
      if f.DroppedRequest? || key in accounts {
        return false;
      }
      rev := rev + 1;
      accounts := accounts[key := a];
      return f.Reliable?;
    }

    method CreateSecret(mark: int, data: SecretData, f: Fault) returns (ok: bool)
      modifies this`rev, this`secret
      ensures (View(), ok) == PutSecret(old(View()), None, mark, data, f)
    {
      if f.DroppedRequest? || secret.Some? {
        return false;
      }
      rev := rev + 1;
      secret := Some(Secret(rev, rev, Some(mark), false, data));
      return f.Reliable?;
    }

    method UpdateSecret(read: Secret, mark: int, data: SecretData, f: Fault) returns (ok: bool)
      modifies this`rev, this`secret
      ensures (View(), ok) == PutSecret(old(View()), Some(read), mark, data, f)
    {
      if f.DroppedRequest? || secret.None? || secret.value.uid != read.uid || secret.value.version != read.version {
        return false;
      }
      rev := rev + 1;
      secret := Some(read.(version := rev, mark := Some(mark), data := data));
      return f.Reliable?;
    }

    method DeleteAllOf(ns: string, names: set<string>)
      modifies this`accounts
      ensures View() == DeleteOrphans(old(View()), ns, names)
    {
      accounts := map k | k in accounts && !(k.ns == ns && k.name in names) :: accounts[k];
    }
  }

  class Reconciler {
    const cfg: Config
    const api: ApiServer

    constructor (cfg: Config, api: ApiServer)
      ensures this.cfg == cfg && this.api == api
    {
      this.cfg := cfg;
      this.api := api;
    }

    method SetSyncStatus(instance: Cr, cond: ConditionType, status: bool, reason: Reason, msg: string, f: Fault)
      returns (ok: bool)
      modifies api
      ensures (api.View(), ok) == Report(old(api.View()), Reporting(instance, cond, status, reason), msg, f)
    {
      var inst := instance;
      var c := Condition(status, reason, msg);
      var changed := cond !in inst.conditions || inst.conditions[cond] != c;
      if changed || inst.observedGeneration != inst.generation {
        inst := inst.(conditions := inst.conditions[cond := c], observedGeneration := inst.generation);
        var stored := api.UpdateStatus(inst, f);
        return stored.Some?;
      }
      return true;
    }

    /** Returns the resource as the run holds it in memory afterwards: on a failed claim the counter stays incremented. */
    method RotatePassword(instance: Cr, reg: Registry, secret: Option<Secret>, cred: Option<Credential>, in_: Inputs)
      returns (inst: Cr, ok: bool)
      modifies api
      ensures cred.None? ==> api.View() == old(api.View()) && inst == instance && !ok
      ensures cred.Some? ==>
                (api.View(), Reporting(inst, Ready, ok, if ok then NoReason else FailedSync))
                == Rotate(cfg, old(api.View()), Rotating(instance, reg, secret, cred.value), in_)
    {
      inst := instance;
      if cred.None? {
        return inst, false;
      }
      if inst.registryNs != "" && inst.registryNs != reg.ns {
        api.DeleteAllOf(inst.registryNs, in_.orphans);
      }
      inst := inst.(rotation := inst.rotation + 1);
      inst := inst.(registryNs := reg.ns);
      var stored := api.UpdateStatus(inst, in_.faults.claim);
      if stored.None? {
        return inst, false;
      }
      inst := stored.value;
      ok := CreateCredentials(inst, reg, secret, cred.value, in_);
    }

    /** The second half of the rotation: the account under the claimed name, then the Secret. */
    method CreateCredentials(inst: Cr, reg: Registry, secret: Option<Secret>, cred: Credential, in_: Inputs)
      returns (ok: bool)
      modifies api
      ensures (api.View(), if ok then Success(inst) else Failure(inst))
           == StoreBoth(cfg, old(api.View()), Claimed(inst, reg, secret, cred), in_)
    {
      var name := cfg.nameOf(inst.rotation);
      var created := WholeSecond(in_.createdAt);
      var account := Account(api.rev + 1, created, cred.hash, cfg.labels, Some(cfg.ttl), cfg.owner);
      ok := api.Create(Key(reg.ns, name), account, in_.faults.account);
      if !ok {
        return false;
      }
      var data := SecretData(name, cred.password, cfg.hostOf(reg), reg.ca,
                             DockerAuth(cfg.hostOf(reg), name, cred.password), cfg.secretType);
      if secret.None? {
        ok := api.CreateSecret(inst.rotation, data, in_.faults.secret);
      } else if secret.value.controlledByOther {
        ok := false;
      } else {
        ok := api.UpdateSecret(secret.value, inst.rotation, data, in_.faults.secret);
      }
    }

    method Run(in_: Inputs) returns (outcome: Outcome)
      modifies api
      ensures (api.View(), outcome) == Reconcile(cfg, old(api.View()), in_)
    {
      if in_.cr.None? {
        return Done;
      }
      var instance := in_.cr.value;
      if instance.deleting {
        if instance.finalizer {
          if instance.registryNs != "" {
            api.DeleteAllOf(instance.registryNs, in_.orphans);
            if in_.orphansFail {
              return Failed;
            }
          }
          var ok := api.UpdateFinalizer(instance, false, in_.faults.finalizer);
          return if ok then Done else Failed;
        }
        return Done;
      }
      if !instance.finalizer {
        instance := instance.(finalizer := true);
        var ok := api.UpdateFinalizer(instance, true, in_.faults.finalizer);
        if !ok {
          var _ := SetSyncStatus(instance, Synced, false, FailedUpdate, in_.msg, in_.faults.report);
          return Failed;
        }
        return Done;
      }
      if in_.registry.None? {
        var ok := SetSyncStatus(instance, Ready, false, RegistryUnavailable, in_.msg, in_.faults.report);
        return if ok then RequeueAfter(REQUEUE_DELAY) else Failed;
      }
      if in_.readsFail {
        return Failed;
      }
      if NeedsRotation(cfg, instance, in_.registry.value, in_.account, in_.secret, in_.now) {
        var ok;
        instance, ok := RotatePassword(instance, in_.registry.value, in_.secret, in_.cred, in_);
        if !ok {
          ok := SetSyncStatus(instance, Ready, false, FailedSync, in_.msg, in_.faults.report);
          return if ok then Done else Failed;
        }
      }
      var ok := SetSyncStatus(instance, Ready, true, NoReason, "", in_.faults.report);
      if !ok {
        return Failed;
      }
      var renewal := CreatedOrZero(in_.account, ZERO_TIME) + cfg.ttl / 2 - in_.now + REQUEUE_DELAY;
      return RequeueAfter(renewal);
    }
  }
}
