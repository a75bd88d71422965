/** What one run stores and what it asks for, whatever it reads and whatever happens to its writes. */
module RotationOutcome {
  import opened Wrappers
  import opened Cluster
  import opened Accounts
  import opened ImageSecret
  import opened RotationSync

  /** The run reads the stored resource, which is neither deleted nor without its finalizer. */
  predicate ReadsLive(db: Db, in_: Inputs) {
    db.live && db.cr.finalizer && !db.cr.deleting && in_.cr == Some(db.cr)
  }

  predicate Says(cr: Cr, c: Condition) {
    Ready in cr.conditions && cr.conditions[Ready] == c && cr.observedGeneration == cr.generation
  }

  /** Without a registry the resource is not ready; nothing else is touched, and the run asks to come back in 30 s. */
  lemma MissingRegistry(cfg: Config, db: Db, in_: Inputs)
    requires ReadsLive(db, in_) && in_.registry.None? && in_.faults.report.Reliable?
    ensures var (after, outcome) := Reconcile(cfg, db, in_);
            && after.cr == db.cr.(
                 version := after.cr.version, observedGeneration := db.cr.generation,
                 conditions := db.cr.conditions[Ready := Condition(false, RegistryUnavailable, in_.msg)])
            && after.accounts == db.accounts && after.secret == db.secret && after.live
            && outcome == RequeueAfter(30_000_000_000)
  {
    if Says(db.cr, Condition(false, RegistryUnavailable, in_.msg)) {
      assert db.cr.conditions[Ready := db.cr.conditions[Ready]] == db.cr.conditions;
    }
  }

  /** A lookup that fails ends the run with an error before it writes anything. */
  lemma FailedLookup(cfg: Config, db: Db, in_: Inputs)
    requires ReadsLive(db, in_) && in_.registry.Some? && in_.readsFail
    ensures Reconcile(cfg, db, in_) == (db, Failed)
  {
  }

  /** A rotation changes no conditions, neither the stored ones nor those in memory. */
  lemma RotationLeavesConditions(cfg: Config, db: Db, run: Run, in_: Inputs)
    requires run.Rotating? && run.inst == db.cr && db.live
    ensures var (after, last) := Rotate(cfg, db, run, in_);
            && after.live && after.cr.conditions == db.cr.conditions == last.inst.conditions
            && after.cr.generation == db.cr.generation == last.inst.generation
            && after.cr.observedGeneration == db.cr.observedGeneration == last.inst.observedGeneration
            && (last == Success(last.inst) || last == Failure(last.inst))
  {
  }

  lemma ReportIsStored(db: Db, run: Run, msg: string, f: Fault)
    requires run.Reporting? && run.cond == Ready && db.live
    requires run.inst.conditions == db.cr.conditions && run.inst.generation == db.cr.generation
    requires run.inst.observedGeneration == db.cr.observedGeneration
    ensures Report(db, run, msg, f).1 ==> Says(Report(db, run, msg, f).0.cr, Condition(run.status, run.reason, msg))
  {
  }

  /** A run that does not end with an error has stored what it reports, for the resource's generation: not ready without a
      registry, a failed rotation with its message and nothing more to be done, or ready, with a delay that ends 30 s after
      the account that it read has reached half its time to live. */
  lemma ReportedOrFailed(cfg: Config, db: Db, in_: Inputs)
    requires ReadsLive(db, in_)
    ensures var (after, outcome) := Reconcile(cfg, db, in_);
            outcome == Failed
            || (in_.registry.None? && Says(after.cr, Condition(false, RegistryUnavailable, in_.msg))
                && outcome == RequeueAfter(30_000_000_000))
            || (in_.registry.Some? && Says(after.cr, Condition(false, FailedSync, in_.msg)) && outcome == Done)
            || (in_.registry.Some? && Says(after.cr, Condition(true, NoReason, ""))
                && outcome == RequeueAfter((if in_.account.Some? then in_.account.value.created
                                            else -62_135_596_800_000_000_000) + cfg.ttl / 2 - in_.now + 30_000_000_000))
  {
    var run := Begin(cfg, Reads(db.cr, in_.registry, in_.account, in_.secret), in_.now, in_.cred);
    if run.Rotating? {
      RotationLeavesConditions(cfg, db, run, in_);
    }
    var (db1, last) := if run.Rotating? then Rotate(cfg, db, run, in_) else (db, run);
    ReportIsStored(db1, last, MessageOf(last, in_), in_.faults.report);
  }

  /** It ends with an error only for a reason: a failed lookup, a lost report, or a claim that took effect unnoticed. */
  lemma FailsForAReason(cfg: Config, db: Db, in_: Inputs)
    requires ReadsLive(db, in_) && Reconcile(cfg, db, in_).1 == Failed
    ensures (in_.registry.Some? && in_.readsFail) || !in_.faults.report.Reliable? || in_.faults.claim.DroppedResponse?
  {
  }

  /** A lost report is an error, unless it would have said what is stored already. */
  lemma LostReport(cfg: Config, db: Db, in_: Inputs)
    requires ReadsLive(db, in_) && in_.faults.report == DroppedRequest && in_.registry.None?
    ensures Reconcile(cfg, db, in_)
            == (db, if Says(db.cr, Condition(false, RegistryUnavailable, in_.msg)) then RequeueAfter(30_000_000_000) else Failed)
  {
  }

  /** A lost write of the finalizer is an error; when it is to be added the resource is reported as not synced. */
  lemma LostFinalizer(cfg: Config, db: Db, in_: Inputs)
    requires db.live && in_.cr == Some(db.cr) && db.cr.deleting == db.cr.finalizer && in_.faults.finalizer == DroppedRequest
    ensures var (after, outcome) := Reconcile(cfg, db, in_);
            && outcome == Failed && after.live && after.cr.finalizer == db.cr.finalizer && after.secret == db.secret
            && (!db.cr.deleting && in_.faults.report.Reliable? ==>
                  && Synced in after.cr.conditions && after.cr.conditions[Synced] == Condition(false, FailedUpdate, in_.msg)
                  && after.cr.observedGeneration == db.cr.generation)
            && (db.cr.deleting ==> after.cr == db.cr)
  {
  }

  /** A deleted resource whose accounts cannot be deleted keeps its finalizer, and the run ends with an error. */
  lemma FailedCleanup(cfg: Config, db: Db, in_: Inputs)
    requires db.live && in_.cr == Some(db.cr) && db.cr.deleting && db.cr.finalizer
    requires in_.orphansFail && db.cr.registryNs != ""
    ensures var (after, outcome) := Reconcile(cfg, db, in_);
            outcome == Failed && after.live && after.cr == db.cr && after.secret == db.secret
  {
  }

  /** After the accounts were dropped a rotation only adds one, in the new namespace. */
  lemma RotationKeepsAccounts(cfg: Config, db: Db, run: Run, in_: Inputs)
    requires run.Rotating?
    ensures var dropped, after := DropOrphans(db, run, in_.orphans), Rotate(cfg, db, run, in_).0;
            && (forall k :: k in dropped.accounts ==> k in after.accounts)
            && (forall k :: k in after.accounts ==> k in dropped.accounts || k.ns == run.reg.ns)
  {
  }

  lemma WhatIsDropped(db: Db, run: Run, names: set<string>)
    requires run.Rotating?
    ensures forall k :: k in db.accounts ==>
              (k !in DropOrphans(db, run, names).accounts
               <==> run.inst.registryNs != "" && run.inst.registryNs != run.reg.ns && k.ns == run.inst.registryNs && k.name in names)
  {
  }

  /** A due run deletes accounts only of a registry namespace that the resource leaves, among those that it labelled. */
  lemma OldAccountsDropped(cfg: Config, db: Db, in_: Inputs, reg: Registry)
    requires ReadsLive(db, in_) && CurrentReads(cfg, db, in_, reg) && Due(cfg, db, reg, in_.now) && in_.cred.Some?
    ensures var after := Reconcile(cfg, db, in_).0;
            forall k :: k in db.accounts ==>
              (k !in after.accounts
               <==> db.cr.registryNs != "" && db.cr.registryNs != reg.ns && k.ns == db.cr.registryNs && k.name in in_.orphans)
  {
    var run := Rotating(db.cr, reg, in_.secret, in_.cred.value);
    WhatIsDropped(db, run, in_.orphans);
    RotationKeepsAccounts(cfg, db, run, in_);
    assert Reconcile(cfg, db, in_).0.accounts == Rotate(cfg, db, run, in_).0.accounts;
  }

  /** The report is a write of conditions and observed generation. */
  lemma ReportKeepsRest(db: Db, run: Run, msg: string, f: Fault)
    requires run.Reporting?
    ensures var after := Report(db, run, msg, f).0;
            && after.accounts == db.accounts && after.secret == db.secret
            && (run.inst.rotation == db.cr.rotation && run.inst.registryNs == db.cr.registryNs ==>
                  after.cr.rotation == db.cr.rotation && after.cr.registryNs == db.cr.registryNs)
  {
  }

  lemma OthersSecretFails(cfg: Config, db: Db, run: Run, in_: Inputs)
    requires run.Rotating? && run.secret == db.secret && db.secret.Some? && db.secret.value.controlledByOther
    ensures var (after, last) := Rotate(cfg, db, run, in_);
            after.secret == db.secret && last == Failure(last.inst)
  {
  }

  /** A Secret that another object controls is left as it is, and the rotation fails. */
  lemma OthersSecretIsLeft(cfg: Config, db: Db, in_: Inputs, reg: Registry)
    requires ReadsLive(db, in_) && CurrentReads(cfg, db, in_, reg) && Due(cfg, db, reg, in_.now)
    requires db.secret.Some? && db.secret.value.controlledByOther
    ensures var (after, outcome) := Reconcile(cfg, db, in_);
            after.secret == db.secret
            && (outcome == Failed || (outcome == Done && Says(after.cr, Condition(false, FailedSync, in_.msg))))
  {
    ReportedOrFailed(cfg, db, in_);
    var run := Begin(cfg, Reads(db.cr, in_.registry, in_.account, in_.secret), in_.now, in_.cred);
    var (db1, last) := if run.Rotating? then Rotate(cfg, db, run, in_) else (db, run);
    if run.Rotating? {
      RotationLeavesConditions(cfg, db, run, in_);
      OthersSecretFails(cfg, db, run, in_);
    }
    ReportIsStored(db1, last, MessageOf(last, in_), in_.faults.report);
    ReportKeepsRest(db1, last, MessageOf(last, in_), in_.faults.report);
  }

  /** The claim, the account and the Secret of one rotation, with all their fields. */
  predicate Written(cfg: Config, db: Db, after: Db, reg: Registry, t: Turn) {
    var k, name, host := db.cr.rotation + 1, cfg.nameOf(db.cr.rotation + 1), cfg.hostOf(reg);
    && after.cr.rotation == k && after.cr.registryNs == reg.ns
    && after.accounts.Keys == db.accounts.Keys + {Key(reg.ns, name)}
    && (var a := after.accounts[Key(reg.ns, name)];
        && a.created == t.createdAt - t.createdAt % 1_000_000_000 && a.password == t.cred.hash
        && a.labels == cfg.labels && a.owner == cfg.owner && a.ttl == Some(cfg.ttl))
    && after.secret.Some? && after.secret.value.mark == Some(k) && !after.secret.value.controlledByOther
    && after.secret.value.data
       == SecretData(name, t.cred.password, host, reg.ca, DockerAuth(host, name, t.cred.password), cfg.secretType)
  }

  lemma RotationStores(cfg: Config, db: Db, reg: Registry, t: Turn)
    requires Reconcilable(db)
    requires db.cr.registryNs == "" || db.cr.registryNs == reg.ns
    requires Key(reg.ns, cfg.nameOf(db.cr.rotation + 1)) !in db.accounts
    ensures var (after, last) := Rotate(cfg, db, Rotating(db.cr, reg, db.secret, t.cred), CalmInputs(cfg, db, reg, t));
            && Written(cfg, db, after, reg, t)
            && last.inst.rotation == after.cr.rotation && last.inst.registryNs == after.cr.registryNs
  {
    var in_, run := CalmInputs(cfg, db, reg, t), Rotating(db.cr, reg, db.secret, t.cred);
    var (db1, run1) := Claim(db, run, Reliable);
    assert db1.cr == db.cr.(version := db.rev + 1, rotation := db.cr.rotation + 1, registryNs := reg.ns);
    var (db2, run2) := StoreAccount(cfg, db1, run1, t.createdAt, Reliable);
    assert run2 == Stored(db1.cr, reg, db.secret, t.cred);
  }

  /** What a rotation writes when its writes get through and the next account name is free. */
  lemma RotationWrites(cfg: Config, db: Db, reg: Registry, t: Turn)
    requires Reconcilable(db) && ValidCredential(t.cred) && Due(cfg, db, reg, t.now)
    requires db.cr.registryNs == "" || db.cr.registryNs == reg.ns
    requires Key(reg.ns, cfg.nameOf(db.cr.rotation + 1)) !in db.accounts
    ensures Written(cfg, db, CalmRun(cfg, db, reg, t).0, reg, t)
  {
    RotationStores(cfg, db, reg, t);
    var in_, run := CalmInputs(cfg, db, reg, t), Rotating(db.cr, reg, db.secret, t.cred);
    var (db1, last) := Rotate(cfg, db, run, in_);
    ReportKeepsRest(db1, last, MessageOf(last, in_), Reliable);
  }
}
