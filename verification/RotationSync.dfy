/** What one reconcile run achieves: it is a history of the rotation protocol, its Ready means in sync, and it converges. */
module RotationSync {
  import opened Wrappers
  import opened Cluster
  import opened Accounts
  import opened ImageSecret
  import opened RotationProtocol

  // ----- A run is a history of the protocol -----

  ghost predicate Reaches(cfg: Config, s: State, acts: seq<Action>, s': State)
    decreases |acts|
  {
    if acts == [] then s == s'
    else Enabled(cfg, s, acts[0]) && Reaches(cfg, Apply(cfg, s, acts[0]), acts[1..], s')
  }

  lemma {:induction false} ReachesFurther(cfg: Config, s: State, acts: seq<Action>, s': State, a: Action)
    requires Reaches(cfg, s, acts, s') && Enabled(cfg, s', a)
    ensures Reaches(cfg, s, acts + [a], Apply(cfg, s', a))
    decreases |acts|
  {
    if acts == [] {
      assert (acts + [a])[1..] == [];
    } else {
      ReachesFurther(cfg, Apply(cfg, s, acts[0]), acts[1..], s', a);
      assert (acts + [a])[1..] == acts[1..] + [a];
    }
  }

  lemma {:induction false} ReachesKeepsInv(cfg: Config, s: State, acts: seq<Action>, s': State)
    requires ValidConfig(cfg) && Inv(cfg, s) && Reaches(cfg, s, acts, s')
    ensures Inv(cfg, s')
    decreases |acts|
  {
    if acts != [] {
      StepKeepsInv(cfg, s, acts[0]);
      ReachesKeepsInv(cfg, Apply(cfg, s, acts[0]), acts[1..], s');
    }
  }

  /** The inputs are what reads of this state may return. */
  predicate ReadsOf(db: Db, in_: Inputs) {
    && (in_.cr.Some? ==> CrRead(db, in_.cr.value))
    && SecretRead(db, in_.secret)
    && (in_.registry.Some? ==> ValidRegistry(in_.registry.value))
    && (in_.cred.Some? ==> ValidCredential(in_.cred.value))
  }

  /** Some history leads to a state with this content in which no further run is under way. */
  ghost predicate Possible(cfg: Config, s: State, db: Db) {
    exists acts, s' :: Reaches(cfg, s, acts, s') && s'.db == db && s'.runs == s.runs
  }

  lemma OrphansAreDeletions(db: Db, ns: string, names: set<string>)
    ensures DeleteOrphans(db, ns, names)
         == db.(accounts := db.accounts - (set k | k in db.accounts && k.ns == ns && k.name in names))
  {
  }

  /** Every run, whatever stale reads and faults it meets, is a history of the protocol. */
  lemma RunIsHistory(cfg: Config, s: State, id: nat, in_: Inputs)
    requires id !in s.runs && ReadsOf(s.db, in_)
    ensures Possible(cfg, s, Reconcile(cfg, s.db, in_).0)
  {
    assert Reaches(cfg, s, [], s);
    if in_.cr.Some? {
      var inst := in_.cr.value;
      if inst.deleting {
        if inst.finalizer {
          FinalizeIsHistory(cfg, s, inst, in_);
        }
      } else if !inst.finalizer {
        AddFinalizerIsHistory(cfg, s, id, inst, in_);
      } else if !(in_.registry.Some? && in_.readsFail) {
        var a := Start(id, Reads(inst, in_.registry, in_.account, in_.secret), in_.now, in_.cred);
        var s1 := Apply(cfg, s, a);
        ReachesFurther(cfg, s, [], s, a);
        if s1.runs[id].Rotating? {
          RotateIsHistory(cfg, s, id, [a], s1, in_);
        } else {
          ReportIsHistory(cfg, s, id, [a], s1, in_);
        }
      }
    }
  }

  lemma FinalizeIsHistory(cfg: Config, s: State, inst: Cr, in_: Inputs)
    requires ReadsOf(s.db, in_) && in_.cr == Some(inst) && inst.deleting && inst.finalizer
    ensures Possible(cfg, s, Reconcile(cfg, s.db, in_).0)
  {
    var keys := if inst.registryNs == "" then {}
                else set k | k in s.db.accounts && k.ns == inst.registryNs && k.name in in_.orphans;
    OrphansAreDeletions(s.db, inst.registryNs, in_.orphans);
    assert s.db.accounts - {} == s.db.accounts;
    var s1 := s.(db := s.db.(accounts := s.db.accounts - keys));
    assert Reaches(cfg, s, [], s);
    ReachesFurther(cfg, s, [], s, DeleteAccounts(keys));
    if inst.registryNs != "" && in_.orphansFail {
      assert s1.db == Reconcile(cfg, s.db, in_).0;
    } else {
      RemoveFinalizerIsHistory(cfg, s, [] + [DeleteAccounts(keys)], s1, inst, in_.faults.finalizer);
    }
  }

  lemma RemoveFinalizerIsHistory(cfg: Config, s: State, acts: seq<Action>, s1: State, inst: Cr, f: Fault)
    requires Reaches(cfg, s, acts, s1) && s1.runs == s.runs
    requires CrRead(s1.db, inst) && inst.finalizer && inst.deleting
    ensures Possible(cfg, s, PutFinalizer(s1.db, inst, false, f).0)
  {
    ReachesFurther(cfg, s, acts, s1, RemoveFinalizer(inst, f));
    var s2 := Apply(cfg, s1, RemoveFinalizer(inst, f));
    assert s2.db == PutFinalizer(s1.db, inst, false, f).0;
  }

  lemma AddFinalizerIsHistory(cfg: Config, s: State, id: nat, inst: Cr, in_: Inputs)
    requires id !in s.runs && ReadsOf(s.db, in_) && in_.cr == Some(inst) && !inst.deleting && !inst.finalizer
    ensures Possible(cfg, s, Reconcile(cfg, s.db, in_).0)
  {
    var a := AddFinalizer(id, inst, in_.faults.finalizer);
    var s1 := Apply(cfg, s, a);
    assert Reaches(cfg, s, [], s);
    ReachesFurther(cfg, s, [], s, a);
    if id in s1.runs {
      ReportIsHistory(cfg, s, id, [] + [a], s1, in_);
    }
  }

  /** A run under way, alone among those that the history started with. */
  ghost predicate UnderWay(cfg: Config, s: State, id: nat, acts: seq<Action>, s1: State) {
    id !in s.runs && id in s1.runs && s1.runs - {id} == s.runs && Reaches(cfg, s, acts, s1)
  }

  /** The report that ends a run. */
  lemma ReportIsHistory(cfg: Config, s: State, id: nat, acts: seq<Action>, s1: State, in_: Inputs)
    requires UnderWay(cfg, s, id, acts, s1) && s1.runs[id].Reporting?
    ensures Possible(cfg, s, Report(s1.db, s1.runs[id], MessageOf(s1.runs[id], in_), in_.faults.report).0)
  {
    var a := WriteStatus(id, MessageOf(s1.runs[id], in_), in_.faults.report);
    ReachesFurther(cfg, s, acts, s1, a);
    var s2 := Apply(cfg, s1, a);
    assert s2.db == Report(s1.db, s1.runs[id], MessageOf(s1.runs[id], in_), in_.faults.report).0;
  }

  lemma RotateIsHistory(cfg: Config, s: State, id: nat, acts: seq<Action>, s1: State, in_: Inputs)
    requires UnderWay(cfg, s, id, acts, s1) && s1.runs[id].Rotating?
    ensures var (db, run) := Rotate(cfg, s1.db, s1.runs[id], in_);
            Possible(cfg, s, Report(db, run, MessageOf(run, in_), in_.faults.report).0)
  {
    var a1 := Drop(id, in_.orphans);
    var s2 := Apply(cfg, s1, a1);
    ReachesFurther(cfg, s, acts, s1, a1);
    var a2 := ClaimNext(id, in_.faults.claim);
    var s3 := Apply(cfg, s2, a2);
    ReachesFurther(cfg, s, acts + [a1], s2, a2);
    if s3.runs[id].Claimed? {
      ClaimedIsHistory(cfg, s, id, acts + [a1] + [a2], s3, in_);
    } else {
      ReportIsHistory(cfg, s, id, acts + [a1] + [a2], s3, in_);
    }
  }

  lemma ClaimedIsHistory(cfg: Config, s: State, id: nat, acts: seq<Action>, s3: State, in_: Inputs)
    requires UnderWay(cfg, s, id, acts, s3) && s3.runs[id].Claimed?
    ensures var (db, run) := StoreBoth(cfg, s3.db, s3.runs[id], in_);
            Possible(cfg, s, Report(db, run, MessageOf(run, in_), in_.faults.report).0)
  {
    var a3 := WriteAccount(id, in_.createdAt, in_.faults.account);
    var s4 := Apply(cfg, s3, a3);
    ReachesFurther(cfg, s, acts, s3, a3);
    if s4.runs[id].Stored? {
      var a4 := WriteSecret(id, in_.faults.secret);
      ReachesFurther(cfg, s, acts + [a3], s4, a4);
      ReportIsHistory(cfg, s, id, acts + [a3] + [a4], Apply(cfg, s4, a4), in_);
    } else {
      ReportIsHistory(cfg, s, id, acts + [a3], s4, in_);
    }
  }

  // ----- Ready means in sync -----

  function Lookup(db: Db, key: Key): Option<Account> {
    if key in db.accounts then Some(db.accounts[key]) else None
  }

  /** Annotation, name, password, hostname, CA and docker config of the Secret agree with the stored rotation,
      the live account and the registry. */
  predicate InSync(cfg: Config, db: Db, reg: Registry) {
    var key := Key(reg.ns, cfg.nameOf(db.cr.rotation));
    && db.secret.Some? && key in db.accounts
    && (var d := db.secret.value.data;
        && db.secret.value.mark == Some(db.cr.rotation)
        && d.username == key.name
        && MatchPassword(db.accounts[key].password, d.password)
        && d.registry == cfg.hostOf(reg) && d.ca == reg.ca
        && d.dockerConfig == DockerAuth(cfg.hostOf(reg), d.username, d.password))
  }

  /** Reads that return what is stored now, while nobody else writes. */
  predicate CurrentReads(cfg: Config, db: Db, in_: Inputs, reg: Registry) {
    && in_.cr == Some(db.cr) && in_.registry == Some(reg) && in_.secret == db.secret && !in_.readsFail
    && in_.account == Lookup(db, Key(reg.ns, cfg.nameOf(db.cr.rotation)))
  }

  /** The stage in which a run reports, and the state it reports in. */
  function BeforeReport(cfg: Config, db: Db, in_: Inputs): (r: (Db, Run))
    requires in_.cr.Some?
    ensures r.1.Reporting?
  {
    var run := Begin(cfg, Reads(in_.cr.value, in_.registry, in_.account, in_.secret), in_.now, in_.cred);
    if run.Rotating? then Rotate(cfg, db, run, in_) else (db, run)
  }

  lemma ReportKeepsSync(cfg: Config, db: Db, run: Run, msg: string, f: Fault, reg: Registry)
    requires run.Reporting? && InSync(cfg, db, reg)
    requires run.inst.version == db.cr.version ==> run.inst.rotation == db.cr.rotation
    ensures InSync(cfg, Report(db, run, msg, f).0, reg)
  {
  }

  /** Whatever faults an undisturbed run met: if it goes on to report Ready, then the Secret is in sync, also after the report. */
  lemma UndisturbedReadyMeansInSync(cfg: Config, s: State, in_: Inputs, reg: Registry)
    requires ValidConfig(cfg) && Inv(cfg, s) && ValidRegistry(reg)
    requires s.db.cr.finalizer && !s.db.cr.deleting
    requires CurrentReads(cfg, s.db, in_, reg) && ReadsOf(s.db, in_)
    requires BeforeReport(cfg, s.db, in_).1.status
    ensures InSync(cfg, BeforeReport(cfg, s.db, in_).0, reg)
    ensures InSync(cfg, Reconcile(cfg, s.db, in_).0, reg)
  {
    var run := Begin(cfg, Reads(s.db.cr, in_.registry, in_.account, in_.secret), in_.now, in_.cred);
    var (db, last) := BeforeReport(cfg, s.db, in_);
    if run.Rotating? {
      RotatedInSync(cfg, s.db, run, in_);
    } else {
      assert InSync(cfg, s.db, reg);
    }
    ReportKeepsSync(cfg, db, last, MessageOf(last, in_), in_.faults.report, reg);
  }

  lemma RotatedInSync(cfg: Config, db: Db, run: Run, in_: Inputs)
    requires run.Rotating? && ValidCredential(run.cred)
    requires Rotate(cfg, db, run, in_).1.status
    ensures var (db', last) := Rotate(cfg, db, run, in_);
            && InSync(cfg, db', run.reg) && last.inst == db'.cr && db'.cr.registryNs == run.reg.ns
            && (forall k :: k in db'.accounts && k in db.accounts ==> db'.accounts[k] == db.accounts[k])
  {
  }

  // ----- A run without faults -----

  /** What a run takes from outside when reads are current and no write fails. */
  datatype Turn = Turn(now: Time, createdAt: Time, cred: Credential, orphans: set<string>, msg: string)

  function CalmInputs(cfg: Config, db: Db, reg: Registry, t: Turn): Inputs {
    Inputs(Some(db.cr), Some(reg), Lookup(db, Key(reg.ns, cfg.nameOf(db.cr.rotation))), db.secret, false,
           t.now, t.createdAt, Some(t.cred), t.orphans, false, t.msg,
           Faults(Reliable, Reliable, Reliable, Reliable, Reliable))
  }

  function CalmRun(cfg: Config, db: Db, reg: Registry, t: Turn): (Db, Outcome) {
    Reconcile(cfg, db, CalmInputs(cfg, db, reg, t))
  }

  predicate Due(cfg: Config, db: Db, reg: Registry, now: Time) {
    NeedsRotation(cfg, db.cr, reg, Lookup(db, Key(reg.ns, cfg.nameOf(db.cr.rotation))), db.secret, now)
  }

  predicate Reconcilable(db: Db) {
    && db.live && db.cr.finalizer && !db.cr.deleting
    && (db.secret.Some? ==> !db.secret.value.controlledByOther)
  }

  /** In sync and within the interval, a run leaves account, Secret and rotation alone and comes back after
      30 seconds at the earliest, at an instant at which the renewal is due. */
  lemma SettledRun(cfg: Config, db: Db, reg: Registry, t: Turn)
    requires ValidConfig(cfg) && Reconcilable(db) && InSync(cfg, db, reg)
    requires var created := db.accounts[Key(reg.ns, cfg.nameOf(db.cr.rotation))].created;
             created <= t.now <= created + cfg.ttl / 2
    ensures var (db', outcome) := CalmRun(cfg, db, reg, t);
            && db'.accounts == db.accounts && db'.secret == db.secret
            && db'.cr.rotation == db.cr.rotation && db'.cr.registryNs == db.cr.registryNs
            && Ready in db'.cr.conditions && db'.cr.conditions[Ready].status
            && outcome.RequeueAfter?
            && 30_000_000_000 <= outcome.delay <= cfg.ttl / 2 + 30_000_000_000
            && !Due(cfg, db', reg, t.now)
            && Due(cfg, db', reg, t.now + outcome.delay)
            && (forall earlier :: Due(cfg, db', reg, earlier) <==> earlier > t.now + outcome.delay - 30_000_000_000)
  {
  }

  /** The first run only sets the finalizer. The run for a deleted resource removes accounts of the stored registry
      namespace only, leaves the Secret to garbage collection, and lets the resource go. */
  lemma FinalizerRuns(cfg: Config, db: Db, reg: Registry, t: Turn)
    requires db.live && db.cr.deleting == db.cr.finalizer
    ensures var (after, outcome) := CalmRun(cfg, db, reg, t);
            && outcome == Done && after.secret == db.secret && after.cr.rotation == db.cr.rotation
            && after.cr.finalizer == !db.cr.deleting && after.live == !db.cr.deleting
            && (forall k :: k in after.accounts ==> k in db.accounts && after.accounts[k] == db.accounts[k])
            && (forall k :: k in db.accounts && k !in after.accounts ==>
                  db.cr.deleting && k.ns == db.cr.registryNs && k.ns != "" && k.name in t.orphans)
  {
  }

  // ----- Convergence past colliding account names -----

  /** Existing accounts that bear a name this resource would use for a rotation above `r`. */
  ghost function Collisions(cfg: Config, db: Db, ns: string, r: int): set<Key> {
    set k | k in db.accounts && k.ns == ns && exists j :: j > r && k.name == cfg.nameOf(j)
  }

  predicate MarkNotAbove(db: Db) {
    db.secret.Some? && db.secret.value.mark.Some? ==> db.secret.value.mark.value <= db.cr.rotation
  }

  predicate NextNameTaken(cfg: Config, db: Db, reg: Registry) {
    Key(reg.ns, cfg.nameOf(db.cr.rotation + 1)) in db.accounts
  }

  /** A due run whose next account name is free syncs. */
  lemma FreeNameSyncs(cfg: Config, db: Db, reg: Registry, t: Turn)
    requires Reconcilable(db) && ValidCredential(t.cred)
    requires Due(cfg, db, reg, t.now) && !NextNameTaken(cfg, db, reg)
    ensures var db' := CalmRun(cfg, db, reg, t).0;
            && InSync(cfg, db', reg) && db'.cr.rotation == db.cr.rotation + 1
            && db'.accounts[Key(reg.ns, cfg.nameOf(db'.cr.rotation))].created == WholeSecond(t.createdAt)
            && db'.secret.value.data.password == t.cred.password
            && Ready in db'.cr.conditions && db'.cr.conditions[Ready].status
  {
    var in_ := CalmInputs(cfg, db, reg, t);
    var run := Begin(cfg, Reads(db.cr, in_.registry, in_.account, in_.secret), in_.now, in_.cred);
    assert run.Rotating?;
    var d := DropOrphans(db, run, t.orphans);
    assert Key(reg.ns, cfg.nameOf(db.cr.rotation + 1)) !in d.accounts;
    var (db1, run1) := Claim(d, run, Reliable);
    assert run1.Claimed?;
    var (db2, run2) := StoreAccount(cfg, db1, run1, t.createdAt, Reliable);
    assert run2.Stored?;
    RotatedInSync(cfg, db, run, in_);
    var (db3, last) := Rotate(cfg, db, run, in_);
    ReportKeepsSync(cfg, db3, last, MessageOf(last, in_), Reliable, reg);
  }

  lemma TakenNameRotation(cfg: Config, db: Db, run: Run, in_: Inputs)
    requires run.Rotating? && run.inst == db.cr && db.live && in_.faults.claim == Reliable
    requires Key(run.reg.ns, cfg.nameOf(db.cr.rotation + 1)) in db.accounts
    ensures var (db', last) := Rotate(cfg, db, run, in_);
            && last == Failure(db'.cr) && db'.live && db'.secret == db.secret
            && db'.cr == db.cr.(version := db'.cr.version, rotation := db.cr.rotation + 1, registryNs := run.reg.ns)
            && forall k: Key :: k.ns == run.reg.ns ==> (k in db'.accounts <==> k in db.accounts)
  {
    var d := DropOrphans(db, run, in_.orphans);
    assert Key(run.reg.ns, cfg.nameOf(db.cr.rotation + 1)) in d.accounts;
  }

  /** A due run whose next account name is taken uses up that rotation, reports it, and is due again at any time. */
  lemma TakenNameSkips(cfg: Config, db: Db, reg: Registry, t: Turn)
    requires Reconcilable(db) && MarkNotAbove(db)
    requires Due(cfg, db, reg, t.now) && NextNameTaken(cfg, db, reg)
    ensures var db' := CalmRun(cfg, db, reg, t).0;
            && Reconcilable(db') && MarkNotAbove(db')
            && db'.cr.rotation == db.cr.rotation + 1 && db'.secret == db.secret
            && (forall k: Key :: k.ns == reg.ns ==> (k in db'.accounts <==> k in db.accounts))
            && Ready in db'.cr.conditions && !db'.cr.conditions[Ready].status
            && forall now :: Due(cfg, db', reg, now)
  {
    var in_ := CalmInputs(cfg, db, reg, t);
    var run := Rotating(db.cr, reg, db.secret, t.cred);
    TakenNameRotation(cfg, db, run, in_);
    var (db1, last) := Rotate(cfg, db, run, in_);
    assert CalmRun(cfg, db, reg, t).0 == Report(db1, last, t.msg, Reliable).0;
  }

  lemma CollisionsShrink(cfg: Config, db: Db, db': Db, reg: Registry)
    requires ValidConfig(cfg) && NextNameTaken(cfg, db, reg)
    requires db'.cr.rotation == db.cr.rotation + 1
    requires forall k: Key :: k.ns == reg.ns ==> (k in db'.accounts <==> k in db.accounts)
    ensures |Collisions(cfg, db', reg.ns, db'.cr.rotation)| < |Collisions(cfg, db, reg.ns, db.cr.rotation)|
  {
    var before, after := Collisions(cfg, db, reg.ns, db.cr.rotation), Collisions(cfg, db', reg.ns, db'.cr.rotation);
    var key := Key(reg.ns, cfg.nameOf(db'.cr.rotation));
    assert key in before && key !in after;
    assert after <= before - {key};
    SubsetSize(after, before - {key});
  }

  lemma {:induction false} SubsetSize<T>(a: set<T>, b: set<T>)
    requires a <= b
    ensures |a| <= |b|
    decreases a
  {
    if a != {} {
      var x :| x in a;
      SubsetSize(a - {x}, b - {x});
    }
  }

  /** A rotation is due and can go on for as long as it takes. */
  predicate Pending(cfg: Config, db: Db, reg: Registry, now: Time) {
    Reconcilable(db) && MarkNotAbove(db) && Due(cfg, db, reg, now)
  }

  /** An attempt is the last one, or it leaves fewer collisions. */
  ghost predicate Progresses(cfg: Config, reg: Registry, db: Db, db': Db) {
    || InSync(cfg, db', reg)
    || (&& (forall now :: Pending(cfg, db', reg, now))
        && |Collisions(cfg, db', reg.ns, db'.cr.rotation)| < |Collisions(cfg, db, reg.ns, db.cr.rotation)|)
  }

  lemma AttemptProgresses(cfg: Config, db: Db, reg: Registry, t: Turn)
    requires ValidConfig(cfg) && ValidCredential(t.cred) && Pending(cfg, db, reg, t.now)
    ensures Progresses(cfg, reg, db, CalmRun(cfg, db, reg, t).0)
  {
    if NextNameTaken(cfg, db, reg) {
      TakenNameSkips(cfg, db, reg, t);
      CollisionsShrink(cfg, db, CalmRun(cfg, db, reg, t).0, reg);
    } else {
      FreeNameSyncs(cfg, db, reg, t);
    }
  }

  type Stepper = (Db, Turn) -> Db

  function CalmStep(cfg: Config, reg: Registry): Stepper {
    (db, t) => CalmRun(cfg, db, reg, t).0
  }

  /** The first `n` of these runs lead to a state in sync. */
  ghost predicate SyncedAfter(cfg: Config, reg: Registry, next: Stepper, db: Db, turns: seq<Turn>, n: nat)
    decreases n
  {
    if n == 0 then InSync(cfg, db, reg)
    else turns != [] && SyncedAfter(cfg, reg, next, next(db, turns[0]), turns[1..], n - 1)
  }

  lemma {:induction false} AttemptsUntilSync(cfg: Config, reg: Registry, next: Stepper, db: Db, turns: seq<Turn>)
    returns (n: nat)
    requires forall t: Turn, b: Db :: ValidCredential(t.cred) && Pending(cfg, b, reg, t.now) ==> Progresses(cfg, reg, b, next(b, t))
    requires forall t :: t in turns ==> ValidCredential(t.cred)
    requires |turns| > |Collisions(cfg, db, reg.ns, db.cr.rotation)| && Pending(cfg, db, reg, turns[0].now)
    ensures 1 <= n <= |Collisions(cfg, db, reg.ns, db.cr.rotation)| + 1
    ensures SyncedAfter(cfg, reg, next, db, turns, n)
    decreases |turns|
  {
    var db' := next(db, turns[0]);
    assert Progresses(cfg, reg, db, db');
    if InSync(cfg, db', reg) {
      n := 1;
    } else {
      assert forall t :: t in turns[1..] ==> t in turns;
      n := AttemptsUntilSync(cfg, reg, next, db', turns[1..]);
      n := n + 1;
    }
  }

  /** Fault-free runs sync after at most one attempt more than there are colliding accounts. */
  lemma Converges(cfg: Config, db: Db, reg: Registry, turns: seq<Turn>)
    requires ValidConfig(cfg) && (forall t :: t in turns ==> ValidCredential(t.cred))
    requires |turns| > |Collisions(cfg, db, reg.ns, db.cr.rotation)| && Pending(cfg, db, reg, turns[0].now)
    ensures exists n :: 1 <= n <= |Collisions(cfg, db, reg.ns, db.cr.rotation)| + 1
                        && SyncedAfter(cfg, reg, CalmStep(cfg, reg), db, turns, n)
  {
    forall t: Turn, b | ValidCredential(t.cred) && Pending(cfg, b, reg, t.now)
      ensures Progresses(cfg, reg, b, CalmStep(cfg, reg)(b, t))
    {
      AttemptProgresses(cfg, b, reg, t);
    }
    var n := AttemptsUntilSync(cfg, reg, CalmStep(cfg, reg), db, turns);
  }

  // ----- A failure that nothing retries -----

  /** A run that cannot hash its password or loses its claim request is forgotten, without error, requeue or any write
      that would trigger a further run, exactly when the failure it reports is the condition already stored for this
      generation. */
  lemma ForgottenFailure(cfg: Config, db: Db, in_: Inputs, reg: Registry)
    requires Reconcilable(db) && CurrentReads(cfg, db, in_, reg)
    requires Due(cfg, db, reg, in_.now) && (db.cr.registryNs == "" || db.cr.registryNs == reg.ns)
    requires in_.cred.None? || in_.faults.claim == DroppedRequest
    requires in_.faults.report == Reliable
    ensures Reconcile(cfg, db, in_) == (db, Done) <==>
              && Ready in db.cr.conditions && db.cr.conditions[Ready] == Condition(false, FailedSync, in_.msg)
              && db.cr.observedGeneration == db.cr.generation
  {
  }
}
