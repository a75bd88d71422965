/** Any number of interleaved reconcile runs of one resource, with stale reads, lost requests, lost responses and
    crashes at every step, among outsiders who edit the resource, delete objects and drop annotations. */
module RotationProtocol {
  import opened Wrappers
  import opened Cluster
  import opened Accounts
  import opened ImageSecret

  /** What a run once created for a rotation. */
  datatype Creation = Creation(reg: Registry, hash: Hashed)

  /** `claims`: the values stored as rotation, in order. `created`: the accounts the runs created, by rotation.
      `marks`: the annotations written to the Secret object that exists now. */
  datatype History = History(claims: seq<int>, created: map<int, Creation>, marks: seq<int>)

  datatype State = State(db: Db, runs: map<nat, Run>, hist: History)

  datatype Action =
    // A reconcile run.
    | Start(id: nat, got: Reads, now: Time, cred: Option<Credential>)
    | Drop(id: nat, names: set<string>)
    | ClaimNext(id: nat, f: Fault)
    | WriteAccount(id: nat, now: Time, f: Fault)
    | WriteSecret(id: nat, f: Fault)
    | WriteStatus(id: nat, msg: string, f: Fault)
    | AddFinalizer(id: nat, inst: Cr, f: Fault)
    | RemoveFinalizer(inst: Cr, f: Fault)
    | Crash(id: nat)
    // Outsiders, among them the expiry of accounts and the cleanup of a deleted resource.
    | EditSpec
    | RequestDeletion
    | DeleteAccounts(keys: set<Key>)
    | AddForeignAccount(key: Key, account: Account)
    | DeleteSecret
    | AddForeignSecret(secret: Secret)
    | EditSecret(secret: Secret)

  /** An outsider's write to the Secret. */
  predicate TouchesSecret(a: Action) {
    a.DeleteSecret? || a.AddForeignSecret? || a.EditSecret?
  }

  /** A read returns the stored resource or an older one, which then bears an older version. */
  predicate CrRead(db: Db, inst: Cr) {
    inst.version <= db.cr.version && (inst.version == db.cr.version ==> inst == db.cr)
  }

  predicate SecretRead(db: Db, read: Option<Secret>) {
    read.Some? ==>
      && read.value.version <= db.rev
      && (db.secret.Some? && db.secret.value.version == read.value.version ==> db.secret == read)
  }

  ghost predicate Enabled(cfg: Config, s: State, a: Action) {
    match a
    case Start(id, r, now, cred) =>
      && id !in s.runs && CrRead(s.db, r.inst) && SecretRead(s.db, r.secret)
      && r.inst.finalizer && !r.inst.deleting
      && (r.registry.Some? ==> ValidRegistry(r.registry.value)) && (cred.Some? ==> ValidCredential(cred.value))
    case Drop(id, _) => id in s.runs && s.runs[id].Rotating?
    case ClaimNext(id, _) => id in s.runs && s.runs[id].Rotating?
    case WriteAccount(id, _, _) => id in s.runs && s.runs[id].Claimed?
    case WriteSecret(id, _) => id in s.runs && s.runs[id].Stored?
    case WriteStatus(id, _, _) => id in s.runs && s.runs[id].Reporting?
    case AddFinalizer(id, inst, _) => id !in s.runs && CrRead(s.db, inst) && !inst.finalizer && !inst.deleting
    case RemoveFinalizer(inst, _) => CrRead(s.db, inst) && inst.finalizer && inst.deleting
    case Crash(id) => id in s.runs
    case EditSpec => s.db.live
    case RequestDeletion => s.db.live
    case DeleteAccounts(_) => true
    case AddForeignAccount(key, _) => key !in s.db.accounts && forall k :: key.name != cfg.nameOf(k)
    case DeleteSecret => s.db.secret.Some?
    case AddForeignSecret(secret) =>
      s.db.secret.None? && secret.uid == secret.version == s.db.rev + 1 && secret.mark.None?
    case EditSecret(secret) =>
      && s.db.secret.Some? && secret.uid == s.db.secret.value.uid && secret.version == s.db.rev + 1
      && (secret.mark.None? || (secret.mark == s.db.secret.value.mark && secret.data == s.db.secret.value.data))
  }

  /** A status write that changes the stored rotation is a claim. */
  function LogClaim(h: History, before: Db, after: Db): History {
    if after.cr.rotation != before.cr.rotation then h.(claims := h.claims + [after.cr.rotation]) else h
  }

  function LogCreation(h: History, before: Db, after: Db, run: Run): History
    requires run.Claimed?
  {
    if after.accounts != before.accounts
    then h.(created := h.created[run.inst.rotation := Creation(run.reg, run.cred.hash)]) else h
  }

  function LogMark(h: History, before: Db, after: Db): History {
    if after.secret == before.secret || after.secret.None? || after.secret.value.mark.None? then h
    else if before.secret.None? then h.(marks := [after.secret.value.mark.value])
    else h.(marks := h.marks + [after.secret.value.mark.value])
  }

  ghost function Apply(cfg: Config, s: State, a: Action): State
    requires Enabled(cfg, s, a)
  {
    match a
    case Start(id, r, now, cred) => s.(runs := s.runs[id := Begin(cfg, r, now, cred)])
    case Drop(id, names) => s.(db := DropOrphans(s.db, s.runs[id], names))
    case ClaimNext(id, f) =>
      var (db, run) := Claim(s.db, s.runs[id], f);
      State(db, s.runs[id := run], LogClaim(s.hist, s.db, db))
    case WriteAccount(id, now, f) =>
      var (db, run) := StoreAccount(cfg, s.db, s.runs[id], now, f);
      State(db, s.runs[id := run], LogCreation(s.hist, s.db, db, s.runs[id]))
    case WriteSecret(id, f) =>
      var (db, run) := StoreSecret(cfg, s.db, s.runs[id], f);
      State(db, s.runs[id := run], LogMark(s.hist, s.db, db))
    case WriteStatus(id, msg, f) =>
      var (db, _) := Report(s.db, s.runs[id], msg, f);
      State(db, s.runs - {id}, LogClaim(s.hist, s.db, db))
    case AddFinalizer(id, inst, f) =>
      var (db, ok) := PutFinalizer(s.db, inst, true, f);
      State(db, if ok then s.runs else s.runs[id := Reporting(inst.(finalizer := true), Synced, false, FailedUpdate)], s.hist)
    case RemoveFinalizer(inst, f) => s.(db := PutFinalizer(s.db, inst, false, f).0)
    case Crash(id) => s.(runs := s.runs - {id})
    case EditSpec =>
      s.(db := s.db.(rev := s.db.rev + 1, cr := s.db.cr.(version := s.db.rev + 1, generation := s.db.cr.generation + 1)))
    case RequestDeletion =>
      s.(db := s.db.(rev := s.db.rev + 1, cr := s.db.cr.(version := s.db.rev + 1, deleting := true), live := s.db.cr.finalizer))
    case DeleteAccounts(keys) => s.(db := s.db.(accounts := s.db.accounts - keys))
    case AddForeignAccount(key, account) =>
      s.(db := s.db.(rev := s.db.rev + 1, accounts := s.db.accounts[key := account]))
    case DeleteSecret => s.(db := s.db.(secret := None), hist := s.hist.(marks := []))
    case AddForeignSecret(secret) =>
      s.(db := s.db.(rev := s.db.rev + 1, secret := Some(secret)), hist := s.hist.(marks := []))
    case EditSecret(secret) => s.(db := s.db.(rev := s.db.rev + 1, secret := Some(secret)))
  }

  /** The start of a resource's lifetime: nothing claimed, nothing created, no annotated Secret; accounts that
      happen to bear the resource's future account names may exist. */
  predicate Init(s: State) {
    && s.runs == map[] && s.hist == History([], map[], [])
    && s.db.cr.version <= s.db.rev
    && (s.db.secret.Some? ==>
          s.db.secret.value.mark.None? && s.db.secret.value.version <= s.db.rev && s.db.secret.value.uid <= s.db.rev)
  }

  // ----- The invariant -----

  predicate HistoryOk(s: State) {
    && StrictlyIncreasing(s.hist.claims) && AllAtMost(s.hist.claims, s.db.cr.rotation)
    && (forall k :: k in s.hist.created ==> k in s.hist.claims)
    && StrictlyIncreasing(s.hist.marks) && AllAtMost(s.hist.marks, s.db.cr.rotation)
  }

  predicate VersionsOk(db: Db) {
    && db.cr.version <= db.rev
    && (db.secret.Some? ==> db.secret.value.version <= db.rev && db.secret.value.uid <= db.rev)
  }

  /** The account as a run creates it: with this hash, and with the configured time to live, labels and owner. */
  predicate Granted(cfg: Config, a: Account, hash: Hashed) {
    a.password == hash && a.ttl == Some(cfg.ttl) && a.labels == cfg.labels && a.owner == cfg.owner
  }

  ghost predicate AccountsOk(cfg: Config, s: State) {
    && (s.db.cr.rotation in s.hist.created ==> s.hist.created[s.db.cr.rotation].reg.ns == s.db.cr.registryNs)
    && forall k :: k in s.hist.created && Key(s.hist.created[k].reg.ns, cfg.nameOf(k)) in s.db.accounts ==>
         Granted(cfg, s.db.accounts[Key(s.hist.created[k].reg.ns, cfg.nameOf(k))], s.hist.created[k].hash)
  }

  /** An annotated Secret was written as a whole by the run that created the account of that rotation. */
  predicate SecretOk(cfg: Config, s: State) {
    s.db.secret.Some? && s.db.secret.value.mark.Some? ==>
      var k, d := s.db.secret.value.mark.value, s.db.secret.value.data;
      && k in s.hist.created
      && d.username == cfg.nameOf(k)
      && d.password != ""
      && MatchPassword(s.hist.created[k].hash, d.password)
      && ValidRegistry(s.hist.created[k].reg)
      && d.registry == cfg.hostOf(s.hist.created[k].reg) && d.ca == s.hist.created[k].reg.ca
      && d.dockerConfig == DockerAuth(d.registry, d.username, d.password) && d.secretType == cfg.secretType
      && s.hist.marks != [] && s.hist.marks[|s.hist.marks| - 1] == k
  }

  predicate SameVersion(stored: Option<Secret>, read: Option<Secret>) {
    stored.Some? && read.Some? && stored.value.version == read.value.version
  }

  /** The run's claim is exclusive until it created its account, and newer than the Secret it read. */
  predicate ClaimOk(s: State, run: Run)
    requires run.Claimed? || run.Stored?
  {
    && ValidCredential(run.cred) && ValidRegistry(run.reg)
    && run.inst.rotation in s.hist.claims
    && (run.inst.rotation == s.db.cr.rotation ==> run.reg.ns == s.db.cr.registryNs)
    && (run.inst.version == s.db.cr.version ==>
          run.inst.rotation == s.db.cr.rotation && run.inst.registryNs == s.db.cr.registryNs)
    && SecretRead(s.db, run.secret)
    && (SameVersion(s.db.secret, run.secret) ==> AllAtMost(s.hist.marks, run.inst.rotation - 1))
  }

  predicate RunOk(s: State, run: Run) {
    && run.inst.version <= s.db.cr.version
    && match run
       case Rotating(inst, reg, secret, cred) =>
         && ValidCredential(cred) && ValidRegistry(reg) && SecretRead(s.db, secret)
         && (inst.version == s.db.cr.version ==> inst.rotation == s.db.cr.rotation)
       case Claimed(inst, _, _, _) => ClaimOk(s, run) && inst.rotation !in s.hist.created
       case Stored(inst, reg, _, cred) =>
         ClaimOk(s, run) && inst.rotation in s.hist.created && s.hist.created[inst.rotation] == Creation(reg, cred.hash)
       case Reporting(inst, _, _, _) =>
         inst.version == s.db.cr.version ==>
           || (inst.rotation == s.db.cr.rotation && inst.registryNs == s.db.cr.registryNs)
           || inst.rotation == s.db.cr.rotation + 1
  }

  predicate RunsOk(s: State) {
    && (forall i :: i in s.runs ==> RunOk(s, s.runs[i]))
    && forall i, j :: i in s.runs && j in s.runs && i != j && s.runs[i].Claimed? && s.runs[j].Claimed? ==>
         s.runs[i].inst.rotation != s.runs[j].inst.rotation
  }

  ghost predicate Inv(cfg: Config, s: State) {
    VersionsOk(s.db) && HistoryOk(s) && AccountsOk(cfg, s) && SecretOk(cfg, s) && RunsOk(s)
  }

  // ----- Every step keeps the invariant -----

  lemma ClaimsGrow(claims: seq<int>, r: int, k: int)
    requires StrictlyIncreasing(claims) && AllAtMost(claims, r) && r < k
    ensures StrictlyIncreasing(claims + [k]) && AllAtMost(claims + [k], k)
    ensures k !in claims
  {
  }

  /** What a step does to the objects that other runs rely on: versions move on whenever content does. */
  predicate Later(s: State, s': State) {
    && s.db.rev <= s'.db.rev && s.db.cr.version <= s'.db.cr.version
    && (s.db.cr.version == s'.db.cr.version ==>
          s.db.cr.rotation == s'.db.cr.rotation && s.db.cr.registryNs == s'.db.cr.registryNs)
    && s.db.cr.rotation <= s'.db.cr.rotation
    && (s.db.cr.rotation == s'.db.cr.rotation ==> s.db.cr.registryNs == s'.db.cr.registryNs)
    && (s'.db.secret.Some? && s'.db.secret.value.version <= s.db.rev ==>
          s'.db.secret == s.db.secret && s'.hist.marks == s.hist.marks)
    && s.hist.claims <= s'.hist.claims
    && forall k :: k in s.hist.created ==> k in s'.hist.created && s'.hist.created[k] == s.hist.created[k]
  }

  lemma RunStaysOk(s: State, s': State, run: Run)
    requires VersionsOk(s.db) && HistoryOk(s) && Later(s, s') && RunOk(s, run)
    requires run.Claimed? && run.inst.rotation in s'.hist.created ==> run.inst.rotation in s.hist.created
    ensures RunOk(s', run)
  {
  }

  lemma RunsStayOk(s: State, s': State, id: nat)
    requires VersionsOk(s.db) && HistoryOk(s) && Later(s, s') && RunsOk(s)
    requires forall i :: i in s'.runs && i != id ==> i in s.runs && s'.runs[i] == s.runs[i]
    requires forall i :: i in s'.runs && i != id && s.runs[i].Claimed? && s.runs[i].inst.rotation in s'.hist.created ==>
               s.runs[i].inst.rotation in s.hist.created
    requires id in s'.runs ==> RunOk(s', s'.runs[id])
    requires id in s'.runs && s'.runs[id].Claimed? ==>
               forall i :: i in s.runs && i != id && s.runs[i].Claimed? ==> s.runs[i].inst.rotation != s'.runs[id].inst.rotation
    ensures RunsOk(s')
  {
    forall i | i in s'.runs
      ensures RunOk(s', s'.runs[i])
    {
      if i != id {
        RunStaysOk(s, s', s.runs[i]);
      }
    }
  }

  predicate StatusWriteOk(s: State, inst: Cr) {
    && inst.version <= s.db.cr.version
    && (inst.version == s.db.cr.version ==>
         || (inst.rotation == s.db.cr.rotation && inst.registryNs == s.db.cr.registryNs)
         || inst.rotation == s.db.cr.rotation + 1)
  }

  /** A status write whose rotation is the stored one or the next keeps everything but the writer's own stage. */
  lemma PutStatusKeeps(cfg: Config, s: State, inst: Cr, f: Fault, id: nat)
    requires Inv(cfg, s) && StatusWriteOk(s, inst)
    ensures var db := PutStatus(s.db, inst, f).0;
            var s' := State(db, s.runs - {id}, LogClaim(s.hist, s.db, db));
            Inv(cfg, s') && Later(s, s')
  {
    var db := PutStatus(s.db, inst, f).0;
    var s' := State(db, s.runs - {id}, LogClaim(s.hist, s.db, db));
    if db.cr.rotation != s.db.cr.rotation {
      ClaimsGrow(s.hist.claims, s.db.cr.rotation, db.cr.rotation);
      assert db.cr.rotation !in s.hist.created;
    }
    RunsStayOk(s, s', id);
  }

  lemma ClaimKeeps(cfg: Config, s: State, id: nat, f: Fault)
    requires Inv(cfg, s) && id in s.runs && s.runs[id].Rotating?
    ensures var (db, run) := Claim(s.db, s.runs[id], f);
            Inv(cfg, State(db, s.runs[id := run], LogClaim(s.hist, s.db, db)))
  {
    assert RunOk(s, s.runs[id]);
    var inst := s.runs[id].inst.(rotation := s.runs[id].inst.rotation + 1, registryNs := s.runs[id].reg.ns);
    PutStatusKeeps(cfg, s, inst, f, id);
    var (db, run) := Claim(s.db, s.runs[id], f);
    var s' := State(db, s.runs[id := run], LogClaim(s.hist, s.db, db));
    if run.Claimed? {
      ClaimIsNew(s, s', db.cr.rotation);
    }
    RunsStayOk(s, s', id);
  }

  lemma ClaimIsNew(s: State, s': State, k: int)
    requires HistoryOk(s) && RunsOk(s) && k == s.db.cr.rotation + 1
    requires s'.hist.claims == s.hist.claims + [k]
    ensures k in s'.hist.claims && k !in s.hist.created
    ensures forall i :: i in s.runs && s.runs[i].Claimed? ==> s.runs[i].inst.rotation != k
    ensures AllAtMost(s.hist.marks, k - 1)
  {
    assert s'.hist.claims[|s.hist.claims|] == k;
    forall i | i in s.runs && s.runs[i].Claimed?
      ensures s.runs[i].inst.rotation != k
    {
      assert RunOk(s, s.runs[i]);
    }
  }

  lemma WriteAccountKeeps(cfg: Config, s: State, id: nat, now: Time, f: Fault)
    requires NamesDistinct(cfg) && Inv(cfg, s) && id in s.runs && s.runs[id].Claimed?
    ensures var (db, run) := StoreAccount(cfg, s.db, s.runs[id], now, f);
            Inv(cfg, State(db, s.runs[id := run], LogCreation(s.hist, s.db, db, s.runs[id])))
  {
    assert RunOk(s, s.runs[id]);
    var (db, run) := StoreAccount(cfg, s.db, s.runs[id], now, f);
    var s' := State(db, s.runs[id := run], LogCreation(s.hist, s.db, db, s.runs[id]));
    var key := AccountKey(cfg, s.runs[id]);
    assert db.accounts != s.db.accounts <==> key in db.accounts && key !in s.db.accounts;
    RunsStayOk(s, s', id);
  }

  /** A successful Secret write annotates it with a rotation above all that this Secret object had. */
  lemma MarkIsNew(cfg: Config, s: State, run: Run, f: Fault)
    requires HistoryOk(s) && VersionsOk(s.db) && run.Stored? && RunOk(s, run)
    ensures var db := StoreSecret(cfg, s.db, run, f).0;
            var marks := LogMark(s.hist, s.db, db).marks;
            && StrictlyIncreasing(marks) && AllAtMost(marks, s.db.cr.rotation)
            && (db.secret != s.db.secret ==>
                  && db.secret == Some(Secret(db.secret.value.uid, db.rev, Some(run.inst.rotation), false, NewData(cfg, run)))
                  && db.rev == s.db.rev + 1 && db.secret.value.uid <= db.rev
                  && marks != [] && marks[|marks| - 1] == run.inst.rotation)
  {
    var db := StoreSecret(cfg, s.db, run, f).0;
    if db.secret != s.db.secret && s.db.secret.Some? {
      assert run.secret == s.db.secret;
      ClaimsGrow(s.hist.marks, run.inst.rotation - 1, run.inst.rotation);
    }
  }

  lemma WrittenSecretOk(cfg: Config, s: State, run: Run, f: Fault, runs: map<nat, Run>)
    requires Inv(cfg, s) && run.Stored? && RunOk(s, run)
    ensures var db := StoreSecret(cfg, s.db, run, f).0;
            var s' := State(db, runs, LogMark(s.hist, s.db, db));
            VersionsOk(db) && HistoryOk(s') && AccountsOk(cfg, s') && SecretOk(cfg, s') && Later(s, s')
  {
    MarkIsNew(cfg, s, run, f);
  }

  lemma WriteSecretKeeps(cfg: Config, s: State, id: nat, f: Fault)
    requires Inv(cfg, s) && id in s.runs && s.runs[id].Stored?
    ensures var (db, run) := StoreSecret(cfg, s.db, s.runs[id], f);
            Inv(cfg, State(db, s.runs[id := run], LogMark(s.hist, s.db, db)))
  {
    assert RunOk(s, s.runs[id]);
    var (db, run) := StoreSecret(cfg, s.db, s.runs[id], f);
    WrittenSecretOk(cfg, s, s.runs[id], f, s.runs[id := run]);
    RunsStayOk(s, State(db, s.runs[id := run], LogMark(s.hist, s.db, db)), id);
  }

  lemma WriteStatusKeeps(cfg: Config, s: State, id: nat, msg: string, f: Fault)
    requires Inv(cfg, s) && id in s.runs && s.runs[id].Reporting?
    ensures var db := Report(s.db, s.runs[id], msg, f).0;
            Inv(cfg, State(db, s.runs - {id}, LogClaim(s.hist, s.db, db)))
  {
    var run := s.runs[id];
    assert RunOk(s, run);
    var c := Condition(run.status, run.reason, msg);
    var inst := run.inst.(conditions := run.inst.conditions[run.cond := c], observedGeneration := run.inst.generation);
    PutStatusKeeps(cfg, s, inst, f, id);
    if Report(s.db, run, msg, f).0 == s.db {
      RunsStayOk(s, State(s.db, s.runs - {id}, s.hist), id);
    }
  }

  lemma StartKeeps(cfg: Config, s: State, id: nat, r: Reads, now: Time, cred: Option<Credential>)
    requires Inv(cfg, s) && Enabled(cfg, s, Start(id, r, now, cred))
    ensures Inv(cfg, s.(runs := s.runs[id := Begin(cfg, r, now, cred)]))
  {
    RunsStayOk(s, s.(runs := s.runs[id := Begin(cfg, r, now, cred)]), id);
  }

  /** A run that has only a condition left to report, about the resource as it was read. */
  predicate ReportsRead(s: State, run: Run) {
    && run.Reporting? && run.inst.version <= s.db.cr.version
    && (run.inst.version == s.db.cr.version ==>
          run.inst.rotation == s.db.cr.rotation && run.inst.registryNs == s.db.cr.registryNs)
  }

  /** Changes of finalizer, spec or deletion mark leave the status alone and bump the version. */
  lemma CrEditKeeps(cfg: Config, s: State, db: Db, runs: map<nat, Run>)
    requires Inv(cfg, s)
    requires db.accounts == s.db.accounts && db.secret == s.db.secret
    requires db.cr.rotation == s.db.cr.rotation && db.cr.registryNs == s.db.cr.registryNs
    requires db.rev >= db.cr.version >= s.db.cr.version && db.rev >= s.db.rev
    requires forall i :: i in runs ==> (i in s.runs && runs[i] == s.runs[i]) || ReportsRead(s, runs[i])
    ensures Inv(cfg, State(db, runs, s.hist))
  {
    var s' := State(db, runs, s.hist);
    forall i | i in runs
      ensures RunOk(s', runs[i])
    {
      if !ReportsRead(s, runs[i]) {
        RunStaysOk(s, s', s.runs[i]);
      }
    }
  }

  lemma AccountRemovalKeeps(cfg: Config, s: State, accounts: map<Key, Account>)
    requires Inv(cfg, s)
    requires forall k :: k in accounts ==> k in s.db.accounts && accounts[k] == s.db.accounts[k]
    ensures Inv(cfg, s.(db := s.db.(accounts := accounts)))
  {
    var s' := s.(db := s.db.(accounts := accounts));
    forall i | i in s'.runs
      ensures RunOk(s', s'.runs[i])
    {
      RunStaysOk(s, s', s.runs[i]);
    }
  }

  lemma ForeignAccountKeeps(cfg: Config, s: State, key: Key, account: Account)
    requires Inv(cfg, s) && Enabled(cfg, s, AddForeignAccount(key, account))
    ensures Inv(cfg, s.(db := s.db.(rev := s.db.rev + 1, accounts := s.db.accounts[key := account])))
  {
    var s' := s.(db := s.db.(rev := s.db.rev + 1, accounts := s.db.accounts[key := account]));
    forall i | i in s'.runs
      ensures RunOk(s', s'.runs[i])
    {
      RunStaysOk(s, s', s.runs[i]);
    }
  }

  /** Outsiders delete the Secret, put an unannotated one in its place, or edit it without forging an annotation. */
  lemma SecretEditKeeps(cfg: Config, s: State, db: Db, marks: seq<int>)
    requires Inv(cfg, s)
    requires db.cr == s.db.cr && db.accounts == s.db.accounts && db.rev >= s.db.rev
    requires db.secret.Some? ==> s.db.rev < db.secret.value.version <= db.rev && db.secret.value.uid <= db.rev
    requires marks == s.hist.marks || marks == []
    requires db.secret.Some? && db.secret.value.mark.Some? ==>
               (marks == s.hist.marks && s.db.secret.Some?
                && db.secret.value.mark == s.db.secret.value.mark && db.secret.value.data == s.db.secret.value.data)
    ensures Inv(cfg, State(db, s.runs, s.hist.(marks := marks)))
  {
    var s' := State(db, s.runs, s.hist.(marks := marks));
    forall i | i in s'.runs
      ensures RunOk(s', s'.runs[i])
    {
      RunStaysOk(s, s', s.runs[i]);
    }
  }

  predicate IsRunStep(a: Action) {
    a.Start? || a.Drop? || a.ClaimNext? || a.WriteAccount? || a.WriteSecret? || a.WriteStatus? || a.Crash?
  }

  lemma WriteStepKeepsInv(cfg: Config, s: State, a: Action)
    requires NamesDistinct(cfg) && Inv(cfg, s) && Enabled(cfg, s, a)
    requires a.ClaimNext? || a.WriteAccount? || a.WriteSecret? || a.WriteStatus?
    ensures Inv(cfg, Apply(cfg, s, a))
  {
    match a
    case ClaimNext(id, f) => ClaimKeeps(cfg, s, id, f);
    case WriteAccount(id, now, f) => WriteAccountKeeps(cfg, s, id, now, f);
    case WriteSecret(id, f) => WriteSecretKeeps(cfg, s, id, f);
    case WriteStatus(id, msg, f) => WriteStatusKeeps(cfg, s, id, msg, f);
  }

  lemma RunStepKeepsInv(cfg: Config, s: State, a: Action)
    requires NamesDistinct(cfg) && Inv(cfg, s) && Enabled(cfg, s, a) && IsRunStep(a)
    ensures Inv(cfg, Apply(cfg, s, a))
  {
    if a.Start? {
      StartKeeps(cfg, s, a.id, a.got, a.now, a.cred);
    } else if a.Drop? {
      AccountRemovalKeeps(cfg, s, DropOrphans(s.db, s.runs[a.id], a.names).accounts);
    } else if a.Crash? {
      RunsStayOk(s, s.(runs := s.runs - {a.id}), a.id);
    } else {
      WriteStepKeepsInv(cfg, s, a);
    }
  }

  lemma CrStepKeepsInv(cfg: Config, s: State, a: Action)
    requires Inv(cfg, s) && Enabled(cfg, s, a)
    requires a.AddFinalizer? || a.RemoveFinalizer? || a.EditSpec? || a.RequestDeletion?
    ensures Inv(cfg, Apply(cfg, s, a))
  {
    var s' := Apply(cfg, s, a);
    CrEditKeeps(cfg, s, s'.db, s'.runs);
  }

  lemma DeleteSecretKeepsInv(cfg: Config, s: State)
    requires Inv(cfg, s) && Enabled(cfg, s, DeleteSecret)
    ensures Inv(cfg, Apply(cfg, s, DeleteSecret))
  {
    SecretEditKeeps(cfg, s, s.db.(secret := None), []);
  }

  lemma AddForeignSecretKeepsInv(cfg: Config, s: State, secret: Secret)
    requires Inv(cfg, s) && Enabled(cfg, s, AddForeignSecret(secret))
    ensures Inv(cfg, Apply(cfg, s, AddForeignSecret(secret)))
  {
    SecretEditKeeps(cfg, s, s.db.(rev := s.db.rev + 1, secret := Some(secret)), []);
  }

  lemma EditSecretKeepsInv(cfg: Config, s: State, secret: Secret)
    requires Inv(cfg, s) && Enabled(cfg, s, EditSecret(secret))
    ensures Inv(cfg, Apply(cfg, s, EditSecret(secret)))
  {
    var db := s.db.(rev := s.db.rev + 1, secret := Some(secret));
    SecretEditKeeps(cfg, s, db, s.hist.marks);
    assert State(db, s.runs, s.hist.(marks := s.hist.marks)) == s.(db := db);
  }

  lemma SecretStepKeepsInv(cfg: Config, s: State, a: Action)
    requires Inv(cfg, s) && Enabled(cfg, s, a) && TouchesSecret(a)
    ensures Inv(cfg, Apply(cfg, s, a))
  {
    if a.DeleteSecret? {
      DeleteSecretKeepsInv(cfg, s);
    } else if a.AddForeignSecret? {
      AddForeignSecretKeepsInv(cfg, s, a.secret);
    } else {
      EditSecretKeepsInv(cfg, s, a.secret);
    }
  }

  lemma AccountsStepKeepsInv(cfg: Config, s: State, a: Action)
    requires Inv(cfg, s) && Enabled(cfg, s, a) && (a.DeleteAccounts? || a.AddForeignAccount?)
    ensures Inv(cfg, Apply(cfg, s, a))
  {
    match a
    case DeleteAccounts(keys) => AccountRemovalKeeps(cfg, s, s.db.accounts - keys);
    case AddForeignAccount(key, account) => ForeignAccountKeeps(cfg, s, key, account);
  }

  /** The invariant is inductive: no step of any run and no outsider breaks it. */
  lemma StepKeepsInv(cfg: Config, s: State, a: Action)
    requires ValidConfig(cfg) && Inv(cfg, s) && Enabled(cfg, s, a)
    ensures Inv(cfg, Apply(cfg, s, a))
  {
    if IsRunStep(a) {
      RunStepKeepsInv(cfg, s, a);
    } else if a.AddFinalizer? || a.RemoveFinalizer? || a.EditSpec? || a.RequestDeletion? {
      CrStepKeepsInv(cfg, s, a);
    } else if a.DeleteAccounts? || a.AddForeignAccount? {
      AccountsStepKeepsInv(cfg, s, a);
    } else {
      SecretStepKeepsInv(cfg, s, a);
    }
  }
}
