/** The rotation protocol on a clock: one worker, one registry, crashes and failing writes at every step, own accounts
    deleted only when they have expired, and logins through the authenticator's cache, among outsiders who create and delete
    accounts of their own and edit, delete and replace the Secret. Reads may be stale, or all be current.
    A run that changes nothing asks to be woken when its account's renewal is due; a run that rotated is woken by its own
    writes, and an outsider's write to the Secret makes a run due; a run that failed, crashed or has not seen the last such
    write is retried. All that is assumed of time is that a run completes at most `d` after it was due. */
module Continuity {
  import opened Wrappers
  import opened Cluster
  import opened Accounts
  import opened ImageSecret
  import opened RotationProtocol
  import opened RotationSync
  import Auth

  datatype PastAccount = PastAccount(key: Key, account: Account)

  /** What a login has loaded and not yet published. */
  datatype Pending = Pending(user: string, entry: Auth.CachedAccount)

  /** `wake`: when the next completed run is due. `asked`, `rotated`: what the run under way will ask for. `missed`: whether
      it has not seen what outsiders wrote to the Secret. `accounts`: what was ever stored. `times`: when the account that
      the runs created for a rotation was created. */
  datatype Timed = Timed(
    now: Time, s: State, wake: Time, asked: Time, rotated: bool, missed: bool, cache: Auth.Cache, pending: set<Pending>,
    accounts: set<PastAccount>, times: map<int, Time>)

  datatype Event =
    | Tick(to: Time)
    | Work(a: Action)
    | Edit
    | Expire(key: Key)
    | Outside(a: Action)
    // The authenticator; a login accepts what it finds in the cache or loads.
    | Load(user: string)
    | Publish(p: Pending)
    | Restart

  /** `stale`: whether reads may return what was stored before. */
  datatype World = World(cfg: Config, reg: Registry, d: Duration, stale: bool)

  const WORKER: nat := 0

  /** How late a renewal may be: a stale read may start a rotation early, whose completion then is as late as its renewal. */
  function Lateness(w: World): Duration {
    if w.stale then 2 * w.d else w.d
  }

  /** How long after an account's creation its renewal asks to be made. */
  function Slack(w: World): Duration {
    Interval(w.cfg) + REQUEUE_DELAY
  }

  /** Half the time to live covers the requeue delay and the lateness. */
  ghost predicate Roomy(w: World) {
    ValidConfig(w.cfg) && ValidRegistry(w.reg) && w.d >= 0 && w.cfg.ttl >= 2 * (REQUEUE_DELAY + Lateness(w))
  }

  function KeyOf(w: World, k: int): Key {
    Key(w.reg.ns, w.cfg.nameOf(k))
  }

  function AnswerOf(w: World, t: Timed, user: string): Auth.Answer {
    var key := Key(w.reg.ns, user);
    if key in t.s.db.accounts then Auth.Found(t.s.db.accounts[key]) else Auth.NotFound
  }

  function At(now: Time): Auth.Instants {
    Auth.Instants(now, now, now)
  }

  predicate CurrentStart(w: World, t: Timed, got: Reads) {
    && t.s.runs == map[] && got.inst == t.s.db.cr && got.registry == Some(w.reg) && got.secret == t.s.db.secret
    && got.account == Lookup(t.s.db, KeyOf(w, t.s.db.cr.rotation))
  }

  /** The account was read as it was stored at some time; resource and Secret are of any version. */
  predicate PastStart(w: World, t: Timed, got: Reads) {
    && t.s.runs == map[] && got.registry == Some(w.reg)
    && (got.account.Some? ==> PastAccount(KeyOf(w, got.inst.rotation), got.account.value) in t.accounts)
  }

  predicate StartReads(w: World, t: Timed, got: Reads) {
    if w.stale then PastStart(w, t, got) else CurrentStart(w, t, got)
  }

  predicate WorkerAction(w: World, t: Timed, a: Action) {
    match a
    case Start(id, got, now, _) => id == WORKER && now == t.now && StartReads(w, t, got)
    case Drop(id, _) => id == WORKER
    case ClaimNext(id, _) => id == WORKER
    case WriteAccount(id, now, _) => id == WORKER && now == t.now
    case WriteSecret(id, _) => id == WORKER
    case WriteStatus(id, _, _) => id == WORKER
    case Crash(id) => id == WORKER
    case _ => false
  }

  /** Others create and delete accounts of their own and write the Secret. */
  ghost predicate OutsiderAction(w: World, t: Timed, a: Action) {
    match a
    case AddForeignAccount(_, account) => account.created == WholeSecond(t.now)
    case DeleteAccounts(keys) => forall k :: KeyOf(w, k) !in keys
    case _ => TouchesSecret(a)
  }

  ghost predicate Happens(w: World, t: Timed, e: Event) {
    match e
    case Tick(to) => t.now <= to <= t.wake + w.d
    case Work(a) => RotationProtocol.Enabled(w.cfg, t.s, a) && WorkerAction(w, t, a)
    case Edit => RotationProtocol.Enabled(w.cfg, t.s, EditSpec)
    case Expire(key) => key in t.s.db.accounts && Expired(t.s.db.accounts[key], t.now)
    case Outside(a) => RotationProtocol.Enabled(w.cfg, t.s, a) && OutsiderAction(w, t, a)
    case Load(user) => Key(w.reg.ns, user) in t.s.db.accounts
    case Publish(p) => p in t.pending
    case Restart => true
  }

  /** When a no-op run asks to be woken: now plus the delay it returns. */
  function Asked(w: World, got: Reads, now: Time): Time {
    now + RenewalDelay(w.cfg, CreatedOrZero(got.account, ZERO_TIME), now)
  }

  /** When the next run is due after one that reported success. One that missed a write leaves it due; what a stale read
      asks for may have passed. */
  function NextWake(w: World, t: Timed): Time {
    if t.missed then t.wake
    else if t.rotated || (w.stale && t.asked < t.now) then t.now else t.asked
  }

  function KeepAccount(w: World, t: Timed, db: Db, k: int): Timed {
    if db.accounts == t.s.db.accounts || KeyOf(w, k) !in db.accounts then t
    else
      var a := db.accounts[KeyOf(w, k)];
      t.(accounts := t.accounts + {PastAccount(KeyOf(w, k), a)}, times := t.times[k := a.created])
  }

  /** The owner of a written Secret is due at once. */
  function Touched(t: Timed): Timed {
    t.(missed := true, wake := if t.wake > t.now then t.now else t.wake)
  }

  function AfterOutsider(t: Timed, a: Action, s': State): Timed {
    var t' := t.(s := s');
    if TouchesSecret(a) then Touched(t')
    else if a.AddForeignAccount? then t'.(accounts := t.accounts + {PastAccount(a.key, a.account)})
    else t'
  }

  ghost function After(w: World, t: Timed, e: Event): Timed
    requires Happens(w, t, e)
  {
    match e
    case Tick(to) => t.(now := to)
    case Work(a) =>
      var s' := RotationProtocol.Apply(w.cfg, t.s, a);
      (match a
       case Start(_, got, now, _) =>
         t.(s := s', asked := Asked(w, got, now), rotated := s'.runs[WORKER].Rotating?, missed := got.secret != t.s.db.secret)
       case WriteAccount(_, _, _) => KeepAccount(w, t, s'.db, t.s.runs[WORKER].inst.rotation).(s := s')
       case WriteStatus(_, msg, f) =>
         if t.s.runs[WORKER].status && Report(t.s.db, t.s.runs[WORKER], msg, f).1
         then t.(s := s', wake := NextWake(w, t))
         else t.(s := s')
       case _ => t.(s := s'))
    case Edit => t.(s := RotationProtocol.Apply(w.cfg, t.s, EditSpec))
    case Expire(key) => t.(s := RotationProtocol.Apply(w.cfg, t.s, DeleteAccounts({key})))
    case Outside(a) => AfterOutsider(t, a, RotationProtocol.Apply(w.cfg, t.s, a))
    case Load(user) =>
      t.(pending := t.pending + {Pending(user, Auth.Loaded(user, t.s.db.accounts[Key(w.reg.ns, user)], t.now))})
    case Publish(p) => t.(cache := Auth.Added(t.cache, p.user, p.entry, t.now), pending := t.pending - {p})
    case Restart => t.(cache := map[], pending := {})
  }

  /** The resource was just created and is due. There may be accounts under its account names, and the authenticator may
      have cached some. */
  ghost predicate Begins(w: World, t: Timed) {
    && RotationProtocol.Init(t.s)
    && t.wake <= t.now <= t.wake + w.d
    && t.times == map[]
    && (forall key :: key in t.s.db.accounts ==> PastAccount(key, t.s.db.accounts[key]) in t.accounts)
    && (forall p :: p in t.accounts ==> p.account.created <= WholeSecond(t.now))
    && (forall u :: u in t.cache ==> t.cache[u].lastSeen <= t.now)
    && (forall p :: p in t.pending ==> p.entry.lastSeen <= t.now)
  }

  // ----- The invariant -----

  predicate Marked(db: Db) {
    db.secret.Some? && db.secret.value.mark.Some?
  }

  function Mark(db: Db): int
    requires Marked(db)
  {
    db.secret.value.mark.value
  }

  /** One run at most, all of it for the one registry. */
  predicate OneRegistry(w: World, t: Timed) {
    && (forall i :: i in t.s.runs ==> i == WORKER)
    && (forall k :: k in t.s.hist.created ==> t.s.hist.created[k].reg == w.reg)
    && (WORKER in t.s.runs ==> t.s.runs[WORKER].Reporting? || t.s.runs[WORKER].reg == w.reg)
  }

  /** The accounts that the runs created have the configured time to live and the recorded time. */
  ghost predicate OwnAccounts(w: World, t: Timed) {
    && t.times.Keys == t.s.hist.created.Keys
    && (forall k :: k in t.times ==> t.times[k] <= WholeSecond(t.now))
    && forall k :: k in t.times && KeyOf(w, k) in t.s.db.accounts ==>
         t.s.db.accounts[KeyOf(w, k)].ttl == Some(w.cfg.ttl) && t.s.db.accounts[KeyOf(w, k)].created == t.times[k]
  }

  /** No account ever stored under one of the names is younger than the one that the runs created under it. */
  ghost predicate PastAccountsOk(w: World, t: Timed) {
    && (forall key :: key in t.s.db.accounts ==> PastAccount(key, t.s.db.accounts[key]) in t.accounts)
    && (forall p :: p in t.accounts ==> p.account.created <= WholeSecond(t.now))
    && forall p, k :: p in t.accounts && k in t.times && p.key == KeyOf(w, k) ==> p.account.created <= t.times[k]
  }

  /** An entry for an existing account of the runs has its hash and labels, or is older than it. */
  ghost predicate EntryOk(w: World, t: Timed, user: string, c: Auth.CachedAccount) {
    && c.lastSeen <= t.now
    && forall k :: k in t.times && KeyOf(w, k) in t.s.db.accounts && user == w.cfg.nameOf(k) ==>
         || c.lastSeen < t.times[k] + SECOND
         || (c.password == t.s.db.accounts[KeyOf(w, k)].password
             && c.labels == Auth.AccountLabels(user, t.s.db.accounts[KeyOf(w, k)].labels))
  }

  ghost predicate CacheOk(w: World, t: Timed) {
    && (forall u :: u in t.cache ==> EntryOk(w, t, u, t.cache[u]))
    && (forall p :: p in t.pending ==> EntryOk(w, t, p.user, p.entry))
  }

  /** Age limit: the account of rotation k exists, and the next completed run is due within `slack` of its creation. */
  predicate LiveUntil(w: World, t: Timed, k: int, slack: Duration) {
    KeyOf(w, k) in t.s.db.accounts && k in t.times && t.wake <= t.times[k] + slack
  }

  predicate Busy(t: Timed) {
    WORKER in t.s.runs && !(t.s.runs[WORKER].Reporting? && t.s.runs[WORKER].status)
  }

  predicate OutOfStep(t: Timed) {
    !Marked(t.s.db) || Mark(t.s.db) != t.s.db.cr.rotation || Busy(t)
  }

  predicate Timely(w: World, t: Timed) {
    && t.now <= t.wake + w.d
    && (Marked(t.s.db) ==> LiveUntil(w, t, Mark(t.s.db), Slack(w) + Lateness(w) - w.d))
    && (t.wake <= t.now || (Marked(t.s.db) && LiveUntil(w, t, Mark(t.s.db), Slack(w))))
    && (!w.stale && OutOfStep(t) ==> t.wake <= t.now + REQUEUE_DELAY)
  }

  /** How long after the creation of its account the completion of a rotation may be due. */
  function RotationSlack(w: World): Duration {
    if w.stale then Slack(w) else REQUEUE_DELAY + SECOND
  }

  /** What the run under way has achieved. */
  predicate Progress(w: World, t: Timed) {
    WORKER in t.s.runs ==>
      var run := t.s.runs[WORKER];
      && (!run.Reporting? ==> t.rotated)
      && (run.Stored? ==>
            && LiveUntil(w, t, run.inst.rotation, RotationSlack(w))
            && forall k :: k in t.times ==> t.times[k] <= t.times[run.inst.rotation])
      && (run.Reporting? && run.status ==>
            && (run.inst.version == t.s.db.cr.version ==> run.inst.rotation == t.s.db.cr.rotation)
            && (!t.missed ==> Marked(t.s.db))
            && (!t.missed && t.rotated ==> LiveUntil(w, t, Mark(t.s.db), RotationSlack(w)))
            && (!t.missed && !t.rotated ==>
                  && LiveUntil(w, t, Mark(t.s.db), Slack(w)) && t.asked <= t.times[Mark(t.s.db)] + Slack(w)
                  && (!w.stale ==> Mark(t.s.db) == t.s.db.cr.rotation && t.asked == t.times[Mark(t.s.db)] + Slack(w))))
  }

  ghost predicate Known(w: World, t: Timed) {
    OneRegistry(w, t) && OwnAccounts(w, t) && PastAccountsOk(w, t) && CacheOk(w, t)
    && (Marked(t.s.db) ==> Mark(t.s.db) in t.times)
  }

  ghost predicate TInv(w: World, t: Timed) {
    Inv(w.cfg, t.s) && Known(w, t) && Timely(w, t) && Progress(w, t)
  }

  lemma BeginsInv(w: World, t: Timed)
    requires Roomy(w) && Begins(w, t)
    ensures TInv(w, t)
  {
  }

  // ----- Every event keeps it -----

  /** What is known of accounts, Secrets and cache stays true when time goes on and accounts disappear. */
  lemma KnownStays(w: World, t: Timed, t': Timed)
    requires Known(w, t) && OneRegistry(w, t') && t.now <= t'.now
    requires t' == t.(now := t'.now, s := t'.s, wake := t'.wake, asked := t'.asked, rotated := t'.rotated, missed := t'.missed)
    requires forall key :: key in t'.s.db.accounts ==> key in t.s.db.accounts && t'.s.db.accounts[key] == t.s.db.accounts[key]
    requires t'.s.hist.created == t.s.hist.created && (Marked(t'.s.db) ==> Mark(t'.s.db) in t.times)
    ensures Known(w, t')
  {
    WholeSecondGrows(t.now, t'.now);
  }

  /** A run that decides to rotate a Secret in step does so because the renewal is due. */
  lemma RotatesOnlyWhenDue(w: World, t: Timed, got: Reads)
    requires Roomy(w) && TInv(w, t) && CurrentStart(w, t, got) && !OutOfStep(t) && !w.stale
    requires NeedsRotation(w.cfg, got.inst, w.reg, got.account, got.secret, t.now)
    ensures t.wake <= t.now + REQUEUE_DELAY
  {
    assert KeyOf(w, Mark(t.s.db)) in t.s.db.accounts;
  }

  /** A run that finds nothing to do asks to be woken no later than the stored Secret's account has to be renewed. */
  lemma AsksInTime(w: World, t: Timed, got: Reads)
    requires Roomy(w) && TInv(w, t) && StartReads(w, t, got) && got.secret == t.s.db.secret
    requires !NeedsRotation(w.cfg, got.inst, w.reg, got.account, got.secret, t.now)
    ensures Marked(t.s.db) && LiveUntil(w, t, Mark(t.s.db), Slack(w))
    ensures Asked(w, got, t.now) <= t.times[Mark(t.s.db)] + Slack(w)
    ensures !w.stale ==> Mark(t.s.db) == t.s.db.cr.rotation && Asked(w, got, t.now) == t.times[Mark(t.s.db)] + Slack(w)
  {
    var a := got.account.value;
    assert PastAccount(KeyOf(w, got.inst.rotation), a) in t.accounts;
    assert a.created <= t.times[Mark(t.s.db)];
  }

  lemma StartKeeps(w: World, t: Timed, got: Reads, cred: Option<Credential>)
    requires Roomy(w) && TInv(w, t) && Happens(w, t, Work(Start(WORKER, got, t.now, cred)))
    ensures TInv(w, After(w, t, Work(Start(WORKER, got, t.now, cred))))
  {
    var t' := After(w, t, Work(Start(WORKER, got, t.now, cred)));
    StepKeepsInv(w.cfg, t.s, Start(WORKER, got, t.now, cred));
    AfterStart(w, t, got, cred);
    KnownStays(w, t, t');
    StartTimed(w, t, t', got);
  }

  lemma AfterStart(w: World, t: Timed, got: Reads, cred: Option<Credential>)
    requires Happens(w, t, Work(Start(WORKER, got, t.now, cred)))
    ensures var t' := After(w, t, Work(Start(WORKER, got, t.now, cred)));
            && WORKER in t'.s.runs && t'.s == t.s.(runs := t.s.runs[WORKER := t'.s.runs[WORKER]])
            && t' == t.(s := t'.s, asked := Asked(w, got, t.now), rotated := t'.s.runs[WORKER].Rotating?,
                        missed := got.secret != t.s.db.secret)
            && (t'.s.runs[WORKER].Reporting? || t'.s.runs[WORKER].reg == w.reg)
            && var run := t'.s.runs[WORKER];
               if NeedsRotation(w.cfg, got.inst, w.reg, got.account, got.secret, t.now)
               then run.Rotating? || run == Failure(got.inst) else run == Success(got.inst)
  {
  }

  lemma StartTimed(w: World, t: Timed, t': Timed, got: Reads)
    requires Roomy(w) && TInv(w, t) && StartReads(w, t, got) && CrRead(t.s.db, got.inst)
    requires WORKER in t'.s.runs && t'.s.db == t.s.db
    requires t' == t.(s := t'.s, asked := Asked(w, got, t.now), rotated := t'.s.runs[WORKER].Rotating?,
                     missed := got.secret != t.s.db.secret)
    requires var run := t'.s.runs[WORKER];
             if NeedsRotation(w.cfg, got.inst, w.reg, got.account, got.secret, t.now)
             then run.Rotating? || run == Failure(got.inst) else run == Success(got.inst)
    ensures Timely(w, t') && Progress(w, t')
  {
    if !NeedsRotation(w.cfg, got.inst, w.reg, got.account, got.secret, t.now) {
      if got.secret == t.s.db.secret {
        AsksInTime(w, t, got);
      }
    } else if !OutOfStep(t) && !w.stale {
      RotatesOnlyWhenDue(w, t, got);
    }
  }

  /** Nothing that due times depend on has changed. */
  lemma CalmTimed(w: World, t: Timed, t': Timed)
    requires Timely(w, t) && Progress(w, t) && t' == t.(s := t'.s)
    requires t'.s.runs == t.s.runs && t'.s.db.secret == t.s.db.secret && t'.s.db.cr.rotation == t.s.db.cr.rotation
    requires WORKER in t.s.runs && t.s.runs[WORKER].inst.version == t'.s.db.cr.version ==>
               t.s.runs[WORKER].inst.version == t.s.db.cr.version
    requires forall k :: KeyOf(w, k) in t.s.db.accounts ==> KeyOf(w, k) in t'.s.db.accounts
    ensures Timely(w, t') && Progress(w, t')
  {
  }

  lemma DropKeeps(w: World, t: Timed, names: set<string>)
    requires Roomy(w) && TInv(w, t) && Happens(w, t, Work(Drop(WORKER, names)))
    ensures TInv(w, After(w, t, Work(Drop(WORKER, names))))
  {
    var t' := After(w, t, Work(Drop(WORKER, names)));
    StepKeepsInv(w.cfg, t.s, Drop(WORKER, names));
    DropsElsewhere(w, t, names);
    KnownStays(w, t, t');
    CalmTimed(w, t, t');
  }

  /** Accounts are dropped in other namespaces only. */
  lemma DropsElsewhere(w: World, t: Timed, names: set<string>)
    requires OneRegistry(w, t) && WORKER in t.s.runs && t.s.runs[WORKER].Rotating?
    ensures var accounts := DropOrphans(t.s.db, t.s.runs[WORKER], names).accounts;
            && (forall key :: key in accounts ==> key in t.s.db.accounts && accounts[key] == t.s.db.accounts[key])
            && (forall k :: KeyOf(w, k) in t.s.db.accounts ==> KeyOf(w, k) in accounts)
  {
  }

  lemma ClaimKeeps(w: World, t: Timed, f: Fault)
    requires Roomy(w) && TInv(w, t) && Happens(w, t, Work(ClaimNext(WORKER, f)))
    ensures TInv(w, After(w, t, Work(ClaimNext(WORKER, f))))
  {
    var t' := After(w, t, Work(ClaimNext(WORKER, f)));
    StepKeepsInv(w.cfg, t.s, ClaimNext(WORKER, f));
    KnownStays(w, t, t');
    ClaimTimed(w, t, t');
  }

  lemma ClaimTimed(w: World, t: Timed, t': Timed)
    requires Timely(w, t) && Busy(t) && t.rotated
    requires WORKER in t'.s.runs && (t'.s.runs[WORKER].Claimed? || (t'.s.runs[WORKER].Reporting? && !t'.s.runs[WORKER].status))
    requires t' == t.(s := t'.s) && t'.s.db.accounts == t.s.db.accounts && t'.s.db.secret == t.s.db.secret
    ensures Timely(w, t') && Progress(w, t')
  {
  }

  /** What an attempt to create an account leaves alone, and what it achieves. */
  lemma AccountEffect(w: World, t: Timed, f: Fault)
    requires Roomy(w) && TInv(w, t) && WORKER in t.s.runs && t.s.runs[WORKER].Claimed?
    ensures var run := t.s.runs[WORKER];
            var k := run.inst.rotation;
            var (db, run') := StoreAccount(w.cfg, t.s.db, run, t.now, f);
            && db.cr == t.s.db.cr && db.secret == t.s.db.secret && run'.inst == run.inst && run.reg == w.reg
            && (run'.Reporting? || (run'.Stored? && run'.reg == w.reg && db.accounts != t.s.db.accounts))
            && (run'.Reporting? ==> !run'.status)
            && k !in t.times && t.rotated && (!w.stale ==> t.wake <= t.now + REQUEUE_DELAY)
            && (if db.accounts == t.s.db.accounts then LogCreation(t.s.hist, t.s.db, db, run) == t.s.hist
                else
                  && KeyOf(w, k) !in t.s.db.accounts
                  && db.accounts == t.s.db.accounts[KeyOf(w, k) := NewAccount(w.cfg, t.s.db, run.cred, t.now)]
                  && LogCreation(t.s.hist, t.s.db, db, run).created == t.s.hist.created[k := Creation(w.reg, run.cred.hash)])
  {
    var run := t.s.runs[WORKER];
    assert RunOk(t.s, run);
    assert AccountKey(w.cfg, run) == KeyOf(w, run.inst.rotation);
    var a := NewAccount(w.cfg, t.s.db, run.cred, t.now);
    if KeyOf(w, run.inst.rotation) !in t.s.db.accounts {
      assert t.s.db.accounts[KeyOf(w, run.inst.rotation) := a] != t.s.db.accounts;
    }
  }

  /** The new account is the youngest of all. */
  lemma NewAccountKnown(w: World, t: Timed, t': Timed, k: int, a: Account, reg: Registry, hash: Hashed)
    requires NamesDistinct(w.cfg) && Known(w, t)
    requires k !in t.times && KeyOf(w, k) !in t.s.db.accounts && reg == w.reg
    requires a.created == WholeSecond(t.now) && a.ttl == Some(w.cfg.ttl)
    requires t'.s.db.accounts == t.s.db.accounts[KeyOf(w, k) := a] && t'.s.db.secret == t.s.db.secret
    requires t'.s.hist.created == t.s.hist.created[k := Creation(reg, hash)]
    requires t'.accounts == t.accounts + {PastAccount(KeyOf(w, k), a)} && t'.times == t.times[k := a.created]
    requires t'.cache == t.cache && t'.pending == t.pending && t'.now == t.now && OneRegistry(w, t')
    ensures Known(w, t')
    ensures forall j :: j in t'.times ==> t'.times[j] <= t'.times[k]
  {
    NewAccountCached(w, t, t', k, a);
    forall j | KeyOf(w, j) == KeyOf(w, k)
      ensures j == k
    {
    }
  }

  /** What is cached under its name is older than the new account. */
  lemma NewAccountCached(w: World, t: Timed, t': Timed, k: int, a: Account)
    requires NamesDistinct(w.cfg) && CacheOk(w, t) && k !in t.times && a.created == WholeSecond(t.now)
    requires t'.s.db.accounts == t.s.db.accounts[KeyOf(w, k) := a] && t'.times == t.times[k := a.created]
    requires t'.cache == t.cache && t'.pending == t.pending && t'.now == t.now
    ensures CacheOk(w, t')
  {
    WholeSecondGrows(t.now, t.now);
  }

  lemma WriteAccountKeeps(w: World, t: Timed, f: Fault)
    requires Roomy(w) && TInv(w, t) && WORKER in t.s.runs && t.s.runs[WORKER].Claimed?
    ensures var (db, run) := StoreAccount(w.cfg, t.s.db, t.s.runs[WORKER], t.now, f);
            var s' := State(db, t.s.runs[WORKER := run], LogCreation(t.s.hist, t.s.db, db, t.s.runs[WORKER]));
            TInv(w, KeepAccount(w, t, db, t.s.runs[WORKER].inst.rotation).(s := s'))
  {
    RotationProtocol.WriteAccountKeeps(w.cfg, t.s, WORKER, t.now, f);
    AccountEffect(w, t, f);
    var run := t.s.runs[WORKER];
    var (db, run') := StoreAccount(w.cfg, t.s.db, run, t.now, f);
    var s' := State(db, t.s.runs[WORKER := run'], LogCreation(t.s.hist, t.s.db, db, run));
    if db.accounts == t.s.db.accounts {
      KnownStays(w, t, t.(s := s'));
      ClaimTimed(w, t, t.(s := s'));
    } else {
      CreationKnown(w, t, s', run.inst.rotation);
    }
  }

  lemma CreationKnown(w: World, t: Timed, s': State, k: int)
    requires Roomy(w) && Known(w, t) && Timely(w, t)
    requires WORKER in t.s.runs && t.s.runs[WORKER].Claimed? && t.rotated && t.s.runs[WORKER].inst.rotation == k
    requires k !in t.times && KeyOf(w, k) !in t.s.db.accounts && KeyOf(w, k) in s'.db.accounts
    requires var a := s'.db.accounts[KeyOf(w, k)];
             && a.created == WholeSecond(t.now) && a.ttl == Some(w.cfg.ttl)
             && s'.db.accounts == t.s.db.accounts[KeyOf(w, k) := a]
             && s'.hist.created == t.s.hist.created[k := Creation(w.reg, t.s.runs[WORKER].cred.hash)]
    requires s'.db.secret == t.s.db.secret && s'.db.cr == t.s.db.cr
    requires WORKER in s'.runs && s'.runs == t.s.runs[WORKER := s'.runs[WORKER]]
    requires s'.runs[WORKER].inst.rotation == k
    requires (s'.runs[WORKER].Stored? && s'.runs[WORKER].reg == w.reg) || (s'.runs[WORKER].Reporting? && !s'.runs[WORKER].status)
    ensures var t' := KeepAccount(w, t, s'.db, k).(s := s'); Known(w, t') && Timely(w, t') && Progress(w, t')
  {
    var a := s'.db.accounts[KeyOf(w, k)];
    var t' := KeepAccount(w, t, s'.db, k).(s := s');
    NewAccountKnown(w, t, t', k, a, w.reg, t.s.runs[WORKER].cred.hash);
    NewAccountTimely(w, t, t', k);
  }

  lemma NewAccountTimely(w: World, t: Timed, t': Timed, k: int)
    requires Roomy(w) && Timely(w, t) && Known(w, t)
    requires k !in t.times && KeyOf(w, k) in t'.s.db.accounts && t'.times == t.times[k := WholeSecond(t.now)]
    requires t'.now == t.now && t'.wake == t.wake && t'.s.db.secret == t.s.db.secret
    requires forall key :: key in t.s.db.accounts ==> key in t'.s.db.accounts
    requires t'.s.db.cr == t.s.db.cr && WORKER in t.s.runs && t.s.runs[WORKER].Claimed? && Busy(t')
    ensures Timely(w, t') && LiveUntil(w, t', k, RotationSlack(w))
  {
    WholeSecondGrows(t.now, t.now);
  }

  /** What a Secret write leaves alone, and what it achieves. */
  lemma SecretEffect(w: World, t: Timed, f: Fault)
    requires TInv(w, t) && WORKER in t.s.runs && t.s.runs[WORKER].Stored?
    ensures var (db, run) := StoreSecret(w.cfg, t.s.db, t.s.runs[WORKER], f);
            && db.accounts == t.s.db.accounts && db.cr == t.s.db.cr
            && run.Reporting? && run.inst == t.s.runs[WORKER].inst
            && (db.secret == t.s.db.secret || (Marked(db) && Mark(db) == run.inst.rotation))
            && (run.status ==> db.secret != t.s.db.secret && Marked(db) && Mark(db) == run.inst.rotation)
            && LogMark(t.s.hist, t.s.db, db).created == t.s.hist.created
  {
    assert RunOk(t.s, t.s.runs[WORKER]);
    MarkIsNew(w.cfg, t.s, t.s.runs[WORKER], f);
  }

  /** What a run knows that is about to write the Secret. */
  lemma AboutToWrite(w: World, t: Timed)
    requires TInv(w, t) && WORKER in t.s.runs && t.s.runs[WORKER].Stored?
    ensures var run := t.s.runs[WORKER];
            && (run.inst.version == t.s.db.cr.version ==> run.inst.rotation == t.s.db.cr.rotation)
            && t.rotated && LiveUntil(w, t, run.inst.rotation, RotationSlack(w))
            && (!w.stale ==> t.wake <= t.now + REQUEUE_DELAY)
  {
    assert RunOk(t.s, t.s.runs[WORKER]);
  }

  lemma WriteSecretKeeps(w: World, t: Timed, f: Fault)
    requires Roomy(w) && TInv(w, t) && WORKER in t.s.runs && t.s.runs[WORKER].Stored?
    ensures var (db, run) := StoreSecret(w.cfg, t.s.db, t.s.runs[WORKER], f);
            TInv(w, t.(s := State(db, t.s.runs[WORKER := run], LogMark(t.s.hist, t.s.db, db))))
  {
    RotationProtocol.WriteSecretKeeps(w.cfg, t.s, WORKER, f);
    SecretEffect(w, t, f);
    AboutToWrite(w, t);
    var (db, run) := StoreSecret(w.cfg, t.s.db, t.s.runs[WORKER], f);
    var s' := State(db, t.s.runs[WORKER := run], LogMark(t.s.hist, t.s.db, db));
    SecretTimed(w, t, t.(s := s'));
  }

  lemma SecretTimed(w: World, t: Timed, t': Timed)
    requires Roomy(w) && Known(w, t) && Timely(w, t) && Progress(w, t)
    requires WORKER in t.s.runs && t.s.runs[WORKER].Stored? && t.rotated && WORKER in t'.s.runs
    requires var run, run' := t.s.runs[WORKER], t'.s.runs[WORKER];
             && t'.s.runs == t.s.runs[WORKER := run'] && run'.Reporting? && run'.inst == run.inst
             && (t'.s.db.secret == t.s.db.secret || (Marked(t'.s.db) && Mark(t'.s.db) == run.inst.rotation))
             && (run'.status ==> Marked(t'.s.db) && Mark(t'.s.db) == run.inst.rotation)
             && (run.inst.version == t.s.db.cr.version ==> run.inst.rotation == t.s.db.cr.rotation)
    requires t'.s.db.accounts == t.s.db.accounts && t'.s.db.cr == t.s.db.cr && t'.s.hist.created == t.s.hist.created
    requires t' == t.(s := t'.s)
    requires !w.stale ==> t.wake <= t.now + REQUEUE_DELAY
    ensures Known(w, t') && Timely(w, t') && Progress(w, t')
  {
    SecretKnown(w, t, t');
  }

  lemma SecretKnown(w: World, t: Timed, t': Timed)
    requires Known(w, t) && Progress(w, t) && WORKER in t.s.runs && t.s.runs[WORKER].Stored?
    requires t'.s.db.secret == t.s.db.secret || (Marked(t'.s.db) && Mark(t'.s.db) == t.s.runs[WORKER].inst.rotation)
    requires t'.s.db.accounts == t.s.db.accounts && t'.s.hist.created == t.s.hist.created && OneRegistry(w, t')
    requires t' == t.(s := t'.s)
    ensures Known(w, t')
  {
  }

  /** What a status write leaves alone. */
  lemma StatusEffect(w: World, t: Timed, msg: string, f: Fault)
    requires TInv(w, t) && WORKER in t.s.runs && t.s.runs[WORKER].Reporting?
    ensures var db := Report(t.s.db, t.s.runs[WORKER], msg, f).0;
            && db.accounts == t.s.db.accounts && db.secret == t.s.db.secret
            && LogClaim(t.s.hist, t.s.db, db).created == t.s.hist.created
            && t.s.runs - {WORKER} == map[]
            && (t.s.runs[WORKER].status ==> db.cr.rotation == t.s.db.cr.rotation)
  {
    assert RunOk(t.s, t.s.runs[WORKER]);
  }

  lemma WriteStatusKeeps(w: World, t: Timed, msg: string, f: Fault)
    requires Roomy(w) && TInv(w, t) && WORKER in t.s.runs && t.s.runs[WORKER].Reporting?
    ensures var (db, ok) := Report(t.s.db, t.s.runs[WORKER], msg, f);
            var s' := State(db, t.s.runs - {WORKER}, LogClaim(t.s.hist, t.s.db, db));
            && TInv(w, t.(s := s'))
            && (t.s.runs[WORKER].status ==> TInv(w, t.(s := s', wake := NextWake(w, t))))
  {
    RotationProtocol.WriteStatusKeeps(w.cfg, t.s, WORKER, msg, f);
    StatusEffect(w, t, msg, f);
    var (db, ok) := Report(t.s.db, t.s.runs[WORKER], msg, f);
    StatusTimed(w, t, State(db, t.s.runs - {WORKER}, LogClaim(t.s.hist, t.s.db, db)));
  }

  lemma StatusTimed(w: World, t: Timed, s': State)
    requires Roomy(w) && Known(w, t) && Timely(w, t) && Progress(w, t)
    requires WORKER in t.s.runs && t.s.runs[WORKER].Reporting? && s'.runs == map[]
    requires s'.db.accounts == t.s.db.accounts && s'.db.secret == t.s.db.secret && s'.hist.created == t.s.hist.created
    requires t.s.runs[WORKER].status ==> s'.db.cr.rotation == t.s.db.cr.rotation
    ensures Known(w, t.(s := s')) && Timely(w, t.(s := s')) && Progress(w, t.(s := s'))
    ensures t.s.runs[WORKER].status ==>
              var t' := t.(s := s', wake := NextWake(w, t)); Known(w, t') && Timely(w, t') && Progress(w, t')
  {
    KnownStays(w, t, t.(s := s'));
    RunEnds(w, t, s');
    if t.s.runs[WORKER].status {
      KnownStays(w, t, t.(s := s', wake := NextWake(w, t)));
      SuccessEnds(w, t, s');
    }
  }

  /** A run that ends leaves the due time as it is. */
  lemma RunEnds(w: World, t: Timed, s': State)
    requires Timely(w, t) && Progress(w, t) && s'.runs == map[]
    requires s'.db.accounts == t.s.db.accounts && s'.db.secret == t.s.db.secret
    requires WORKER in t.s.runs && t.s.runs[WORKER].Reporting?
    requires t.s.runs[WORKER].status ==> s'.db.cr.rotation == t.s.db.cr.rotation
    ensures Timely(w, t.(s := s'))
  {
  }

  /** A success sets the due time. */
  lemma SuccessEnds(w: World, t: Timed, s': State)
    requires Roomy(w) && Timely(w, t) && Progress(w, t) && s'.runs == map[]
    requires WORKER in t.s.runs && t.s.runs[WORKER].Reporting? && t.s.runs[WORKER].status
    requires s'.db.accounts == t.s.db.accounts && s'.db.secret == t.s.db.secret && s'.db.cr.rotation == t.s.db.cr.rotation
    ensures Timely(w, t.(s := s', wake := NextWake(w, t)))
  {
  }

  lemma TickKeeps(w: World, t: Timed, to: Time)
    requires Roomy(w) && TInv(w, t) && Happens(w, t, Tick(to))
    ensures TInv(w, After(w, t, Tick(to)))
  {
    KnownStays(w, t, t.(now := to));
    TickTimed(w, t, to);
  }

  lemma TickTimed(w: World, t: Timed, to: Time)
    requires Timely(w, t) && Progress(w, t) && t.now <= to <= t.wake + w.d
    ensures Timely(w, t.(now := to)) && Progress(w, t.(now := to))
  {
  }

  lemma EditLeaves(w: World, t: Timed)
    requires TInv(w, t) && Happens(w, t, Edit)
    ensures var t' := After(w, t, Edit);
            && t' == t.(s := t'.s) && t'.s == t.s.(db := t'.s.db)
            && t'.s.db == t.s.db.(rev := t'.s.db.rev, cr := t'.s.db.cr) && t'.s.db.cr.rotation == t.s.db.cr.rotation
            && (WORKER in t.s.runs ==> t.s.runs[WORKER].inst.version < t'.s.db.cr.version)
  {
    if WORKER in t.s.runs {
      assert RunOk(t.s, t.s.runs[WORKER]);
    }
  }

  lemma EditKeeps(w: World, t: Timed)
    requires Roomy(w) && TInv(w, t) && Happens(w, t, Edit)
    ensures TInv(w, After(w, t, Edit))
  {
    StepKeepsInv(w.cfg, t.s, EditSpec);
    EditLeaves(w, t);
    KnownStays(w, t, After(w, t, Edit));
    CalmTimed(w, t, After(w, t, Edit));
  }

  lemma CrashKeeps(w: World, t: Timed)
    requires Roomy(w) && TInv(w, t) && Happens(w, t, Work(Crash(WORKER)))
    ensures TInv(w, After(w, t, Work(Crash(WORKER))))
  {
    var t' := After(w, t, Work(Crash(WORKER)));
    StepKeepsInv(w.cfg, t.s, Crash(WORKER));
    KnownStays(w, t, t');
    assert t'.s.runs == map[];
    CrashTimed(w, t, t'.s);
  }

  lemma CrashTimed(w: World, t: Timed, s': State)
    requires Timely(w, t) && Progress(w, t) && s'.runs == map[] && WORKER in t.s.runs && s'.db == t.s.db
    ensures Timely(w, t.(s := s'))
  {
  }

  /** No account that the Secret, or the run under way, relies on has expired. */
  lemma ReliedOnIsLive(w: World, t: Timed, k: int)
    requires Roomy(w) && TInv(w, t) && LiveUntil(w, t, k, Slack(w) + Lateness(w) - w.d)
    ensures !Expired(t.s.db.accounts[KeyOf(w, k)], t.now)
  {
    assert KeyOf(w, k) in t.s.db.accounts;
  }

  lemma ExpireKeeps(w: World, t: Timed, key: Key)
    requires Roomy(w) && TInv(w, t) && Happens(w, t, Expire(key))
    ensures TInv(w, After(w, t, Expire(key)))
  {
    StepKeepsInv(w.cfg, t.s, DeleteAccounts({key}));
    if Marked(t.s.db) {
      ReliedOnIsLive(w, t, Mark(t.s.db));
    }
    if WORKER in t.s.runs && t.s.runs[WORKER].Stored? {
      ReliedOnIsLive(w, t, t.s.runs[WORKER].inst.rotation);
    }
    ExpireTimed(w, t, key);
  }

  lemma ExpireTimed(w: World, t: Timed, key: Key)
    requires Known(w, t) && Timely(w, t) && Progress(w, t)
    requires Marked(t.s.db) ==> key != KeyOf(w, Mark(t.s.db))
    requires WORKER in t.s.runs && t.s.runs[WORKER].Stored? ==> key != KeyOf(w, t.s.runs[WORKER].inst.rotation)
    ensures var t' := t.(s := t.s.(db := t.s.db.(accounts := t.s.db.accounts - {key})));
            Known(w, t') && Timely(w, t') && Progress(w, t')
  {
    KnownStays(w, t, t.(s := t.s.(db := t.s.db.(accounts := t.s.db.accounts - {key}))));
  }

  /** Logins and restarts of the authenticator change nothing but its entries. */
  lemma EntriesKeep(w: World, t: Timed, t': Timed)
    requires TInv(w, t) && t' == t.(cache := t'.cache, pending := t'.pending) && CacheOk(w, t')
    ensures TInv(w, t')
  {
    EntriesTimed(w, t, t');
    assert Known(w, t');
  }

  lemma EntriesTimed(w: World, t: Timed, t': Timed)
    requires Timely(w, t) && Progress(w, t) && t' == t.(cache := t'.cache, pending := t'.pending)
    ensures Timely(w, t') && Progress(w, t')
  {
  }

  lemma LoadKeeps(w: World, t: Timed, user: string)
    requires TInv(w, t) && Happens(w, t, Load(user))
    ensures TInv(w, After(w, t, Load(user)))
  {
    var t' := After(w, t, Load(user));
    LoadedOk(w, t, user);
    forall p | p in t'.pending
      ensures EntryOk(w, t', p.user, p.entry)
    {
      assert EntryOk(w, t, p.user, p.entry);
    }
    forall u | u in t'.cache
      ensures EntryOk(w, t', u, t'.cache[u])
    {
      assert EntryOk(w, t, u, t.cache[u]);
    }
    EntriesKeep(w, t, t');
  }

  lemma LoadedOk(w: World, t: Timed, user: string)
    requires Key(w.reg.ns, user) in t.s.db.accounts
    ensures EntryOk(w, t, user, Auth.Loaded(user, t.s.db.accounts[Key(w.reg.ns, user)], t.now))
  {
    forall k | user == w.cfg.nameOf(k)
      ensures Key(w.reg.ns, user) == KeyOf(w, k)
    {
    }
  }

  lemma PublishKeeps(w: World, t: Timed, p: Pending)
    requires TInv(w, t) && Happens(w, t, Publish(p))
    ensures TInv(w, After(w, t, Publish(p)))
  {
    var t' := After(w, t, Publish(p));
    assert EntryOk(w, t, p.user, p.entry);
    forall u | u in t'.cache
      ensures EntryOk(w, t', u, t'.cache[u])
    {
      assert u == p.user || EntryOk(w, t, u, t.cache[u]);
    }
    forall q | q in t'.pending
      ensures EntryOk(w, t', q.user, q.entry)
    {
      assert EntryOk(w, t, q.user, q.entry);
    }
    EntriesKeep(w, t, t');
  }

  // ----- Outsiders -----

  /** An outsider's write to the Secret makes a run due and keeps what is known. */
  lemma TouchTimed(w: World, t: Timed, t': Timed)
    requires Roomy(w) && Known(w, t) && Timely(w, t) && Progress(w, t)
    requires t' == Touched(t.(s := t'.s))
    requires t'.s.runs == t.s.runs && t'.s.db.cr == t.s.db.cr && t'.s.db.accounts == t.s.db.accounts
    requires Marked(t'.s.db) ==> Marked(t.s.db) && Mark(t'.s.db) == Mark(t.s.db)
    ensures Timely(w, t') && Progress(w, t')
  {
  }

  lemma TouchKeeps(w: World, t: Timed, a: Action)
    requires Roomy(w) && TInv(w, t) && Happens(w, t, Outside(a)) && TouchesSecret(a)
    ensures TInv(w, After(w, t, Outside(a)))
  {
    var t' := After(w, t, Outside(a));
    StepKeepsInv(w.cfg, t.s, a);
    KnownStays(w, t, t');
    TouchTimed(w, t, t');
  }

  lemma OtherDeletionKeeps(w: World, t: Timed, keys: set<Key>)
    requires Roomy(w) && TInv(w, t) && Happens(w, t, Outside(DeleteAccounts(keys)))
    ensures TInv(w, After(w, t, Outside(DeleteAccounts(keys))))
  {
    var t' := After(w, t, Outside(DeleteAccounts(keys)));
    StepKeepsInv(w.cfg, t.s, DeleteAccounts(keys));
    KnownStays(w, t, t');
    CalmTimed(w, t, t');
  }

  lemma ForeignKnown(w: World, t: Timed, t': Timed, key: Key, account: Account)
    requires Known(w, t) && (forall k :: key != KeyOf(w, k)) && account.created == WholeSecond(t.now)
    requires t' == t.(s := t'.s, accounts := t.accounts + {PastAccount(key, account)})
    requires t'.s.db.accounts == t.s.db.accounts[key := account] && t'.s.db.secret == t.s.db.secret
    requires t'.s.runs == t.s.runs && t'.s.hist == t.s.hist
    ensures Known(w, t')
  {
  }

  lemma ForeignTimed(w: World, t: Timed, t': Timed, key: Key, account: Account)
    requires Timely(w, t) && Progress(w, t)
    requires t' == t.(s := t'.s, accounts := t.accounts + {PastAccount(key, account)})
    requires t'.s.db.accounts == t.s.db.accounts[key := account] && t'.s.db.secret == t.s.db.secret
    requires t'.s.runs == t.s.runs && t'.s.db.cr == t.s.db.cr
    ensures Timely(w, t') && Progress(w, t')
  {
  }

  lemma ForeignKeeps(w: World, t: Timed, key: Key, account: Account)
    requires Roomy(w) && TInv(w, t) && Happens(w, t, Outside(AddForeignAccount(key, account)))
    ensures TInv(w, After(w, t, Outside(AddForeignAccount(key, account))))
  {
    var t' := After(w, t, Outside(AddForeignAccount(key, account)));
    StepKeepsInv(w.cfg, t.s, AddForeignAccount(key, account));
    ForeignKnown(w, t, t', key, account);
    ForeignTimed(w, t, t', key, account);
  }

  lemma OutsideKeeps(w: World, t: Timed, a: Action)
    requires Roomy(w) && TInv(w, t) && Happens(w, t, Outside(a))
    ensures TInv(w, After(w, t, Outside(a)))
  {
    if a.AddForeignAccount? {
      ForeignKeeps(w, t, a.key, a.account);
    } else if a.DeleteAccounts? {
      OtherDeletionKeeps(w, t, a.keys);
    } else {
      TouchKeeps(w, t, a);
    }
  }

  lemma EventKeepsInv(w: World, t: Timed, e: Event)
    requires Roomy(w) && TInv(w, t) && Happens(w, t, e)
    ensures TInv(w, After(w, t, e))
  {
    match e
    case Work(a) => WorkKeepsInv(w, t, a);
    case Expire(key) => ExpireKeeps(w, t, key);
    case Outside(a) => OutsideKeeps(w, t, a);
    case Load(user) => LoadKeeps(w, t, user);
    case Publish(p) => PublishKeeps(w, t, p);
    case Restart => EntriesKeep(w, t, After(w, t, Restart));
    case Tick(to) => TickKeeps(w, t, to);
    case Edit => EditKeeps(w, t);
  }

  lemma WriteKeepsInv(w: World, t: Timed, a: Action)
    requires Roomy(w) && TInv(w, t) && Happens(w, t, Work(a))
    requires a.WriteAccount? || a.WriteSecret? || a.WriteStatus?
    ensures TInv(w, After(w, t, Work(a)))
  {
    if a.WriteAccount? {
      WriteAccountKeeps(w, t, a.f);
    } else if a.WriteSecret? {
      WriteSecretKeeps(w, t, a.f);
    } else {
      WriteStatusKeeps(w, t, a.msg, a.f);
    }
  }

  lemma WorkKeepsInv(w: World, t: Timed, a: Action)
    requires Roomy(w) && TInv(w, t) && Happens(w, t, Work(a))
    ensures TInv(w, After(w, t, Work(a)))
  {
    if a.Start? {
      StartKeeps(w, t, a.got, a.cred);
    } else if a.Drop? {
      DropKeeps(w, t, a.names);
    } else if a.ClaimNext? {
      ClaimKeeps(w, t, a.f);
    } else if a.Crash? {
      CrashKeeps(w, t);
    } else {
      WriteKeepsInv(w, t, a);
    }
  }

  // ----- Whole histories -----

  ghost predicate IsHistory(w: World, tr: seq<Timed>, es: seq<Event>) {
    && |tr| == |es| + 1 && Begins(w, tr[0])
    && forall i :: 0 <= i < |es| ==> Happens(w, tr[i], es[i]) && tr[i + 1] == After(w, tr[i], es[i])
  }

  lemma {:induction false} Reachable(w: World, tr: seq<Timed>, es: seq<Event>, i: nat)
    requires Roomy(w) && IsHistory(w, tr, es) && i < |tr|
    ensures TInv(w, tr[i])
  {
    if i == 0 {
      BeginsInv(w, tr[0]);
    } else {
      Reachable(w, tr, es, i - 1);
      EventKeepsInv(w, tr[i - 1], es[i - 1]);
    }
  }

  predicate TouchesFromOutside(e: Event) {
    e.Outside? && TouchesSecret(e.a)
  }

  lemma MarkedStep(w: World, t: Timed, e: Event)
    requires Roomy(w) && TInv(w, t) && Happens(w, t, e) && Marked(t.s.db)
    ensures !TouchesFromOutside(e) ==> Marked(After(w, t, e).s.db)
    ensures var t' := After(w, t, e);
            Marked(t'.s.db) && Mark(t'.s.db) != Mark(t.s.db) ==> t'.s.db.accounts == t.s.db.accounts && t'.now == t.now
  {
    if e.Work? && e.a.WriteSecret? {
      SecretWriteMarks(w, t, e.a);
    } else {
      SecretLeft(w, t, e);
    }
  }

  lemma SecretWriteMarks(w: World, t: Timed, a: Action)
    requires TInv(w, t) && Happens(w, t, Work(a)) && a.WriteSecret? && Marked(t.s.db)
    ensures var t' := After(w, t, Work(a));
            Marked(t'.s.db) && t'.s.db.accounts == t.s.db.accounts && t'.now == t.now
  {
    SecretEffect(w, t, a.f);
  }

  /** Nobody else writes an annotation. */
  lemma SecretLeft(w: World, t: Timed, e: Event)
    requires Happens(w, t, e) && !(e.Work? && e.a.WriteSecret?)
    ensures var db := After(w, t, e).s.db;
            && (!TouchesFromOutside(e) ==> db.secret == t.s.db.secret)
            && (Marked(db) ==> Marked(t.s.db) && Mark(db) == Mark(t.s.db))
  {
    if e.Work? {
      WorkLeavesSecret(w, t, e.a);
    }
  }

  lemma WorkLeavesSecret(w: World, t: Timed, a: Action)
    requires RotationProtocol.Enabled(w.cfg, t.s, a) && WorkerAction(w, t, a) && !a.WriteSecret?
    ensures RotationProtocol.Apply(w.cfg, t.s, a).db.secret == t.s.db.secret
  {
  }

  /** Once the Secret holds credentials it does so until an outsider edits, deletes or replaces it. */
  lemma {:induction false} StaysMarked(w: World, tr: seq<Timed>, es: seq<Event>, i: nat, j: nat)
    requires Roomy(w) && IsHistory(w, tr, es) && i <= j < |tr| && Marked(tr[i].s.db)
    requires forall k :: i <= k < j ==> !TouchesFromOutside(es[k])
    ensures Marked(tr[j].s.db)
  {
    if i < j {
      StaysMarked(w, tr, es, i, j - 1);
      Reachable(w, tr, es, j - 1);
      MarkedStep(w, tr[j - 1], es[j - 1]);
    }
  }

  // ----- Acceptance -----

  /** The authenticator's cache holds an unexpired entry for this name that has another password. */
  predicate Blocked(t: Timed, user: string, passwd: string) {
    user in t.cache && !Auth.CacheExpired(t.cache[user], t.now) && !MatchPassword(t.cache[user].password, passwd)
  }

  predicate Accepted(w: World, t: Timed, user: string, passwd: string) {
    Auth.Authenticate(t.cache, user, passwd, AnswerOf(w, t, user), At(t.now)).1.labels.Some?
  }

  lemma AcceptedNow(w: World, t: Timed)
    requires Roomy(w) && TInv(w, t) && Marked(t.s.db)
    ensures var data := t.s.db.secret.value.data;
            Accepted(w, t, data.username, data.password) <==> !Blocked(t, data.username, data.password)
  {
    var k := Mark(t.s.db);
    assert KeyOf(w, k) in t.s.db.accounts;
    assert t.s.db.secret.value.data.username == w.cfg.nameOf(k);
  }

  /** Continuity, exactly: at every instant at which the Secret bears an annotation, and so also while a rotation is under
      way, the authenticator accepts the name and password in it if and only if its cache holds no unexpired entry with
      another password for that name. */
  lemma SecretAcceptedIff(w: World, tr: seq<Timed>, es: seq<Event>, i: nat)
    requires Roomy(w) && IsHistory(w, tr, es) && i < |tr| && Marked(tr[i].s.db)
    ensures var data := tr[i].s.db.secret.value.data;
            Accepted(w, tr[i], data.username, data.password) <==> !Blocked(tr[i], data.username, data.password)
  {
    Reachable(w, tr, es, i);
    AcceptedNow(w, tr[i]);
  }

  /** Such an entry is older than the Secret's account, so it blocks logins for at most the cache's lifetime after that. */
  lemma BlocksEnd(w: World, tr: seq<Timed>, es: seq<Event>, i: nat)
    requires Roomy(w) && IsHistory(w, tr, es) && i < |tr| && Marked(tr[i].s.db)
    ensures KeyOf(w, Mark(tr[i].s.db)) in tr[i].s.db.accounts
    ensures var data, a := tr[i].s.db.secret.value.data, tr[i].s.db.accounts[KeyOf(w, Mark(tr[i].s.db))];
            && (Blocked(tr[i], data.username, data.password) ==> tr[i].cache[data.username].lastSeen < a.created + SECOND)
            && (tr[i].now >= a.created + 601_000_000_000 ==> Accepted(w, tr[i], data.username, data.password))
  {
    var t := tr[i];
    Reachable(w, tr, es, i);
    AcceptedNow(w, t);
    assert KeyOf(w, Mark(t.s.db)) in t.s.db.accounts && Mark(t.s.db) in t.times;
    assert t.s.db.secret.value.data.username == w.cfg.nameOf(Mark(t.s.db));
  }

  /** What a login with this name and password is granted. */
  function LabelsGranted(w: World, t: Timed, user: string, passwd: string): Option<Accounts.Labels> {
    Auth.Authenticate(t.cache, user, passwd, AnswerOf(w, t, user), At(t.now)).1.labels
  }

  /** The labels of the resource's accounts, with where the account comes from and its name. */
  function LabelsOf(w: World, user: string): Accounts.Labels {
    w.cfg.labels["origin" := ["cr"]]["account" := [user]]
  }

  /** The cache holds an unexpired entry for this name that has another password or grants other labels. */
  predicate Misled(w: World, t: Timed, user: string, passwd: string) {
    && user in t.cache && !Auth.CacheExpired(t.cache[user], t.now)
    && !(MatchPassword(t.cache[user].password, passwd) && t.cache[user].labels == LabelsOf(w, user))
  }

  lemma GrantedNow(w: World, t: Timed)
    requires Roomy(w) && TInv(w, t) && Marked(t.s.db)
    ensures var data := t.s.db.secret.value.data;
            && (LabelsGranted(w, t, data.username, data.password) == Some(LabelsOf(w, data.username))
                <==> !Misled(w, t, data.username, data.password))
            && (Misled(w, t, data.username, data.password) ==>
                  t.cache[data.username].lastSeen < t.times[Mark(t.s.db)] + SECOND)
  {
    var k := Mark(t.s.db);
    assert KeyOf(w, k) in t.s.db.accounts && k in t.times;
    assert t.s.db.secret.value.data.username == w.cfg.nameOf(k);
    assert t.s.hist.created[k].reg == w.reg;
    assert w.cfg.nameOf(k) in t.cache ==> EntryOk(w, t, w.cfg.nameOf(k), t.cache[w.cfg.nameOf(k)]);
  }

  /** A login with the stored Secret is granted exactly the labels of the resource's accounts, with origin and account name,
      if and only if the cache holds no unexpired entry for that name with another password or other labels. Such an entry
      is older than the Secret's account. */
  lemma SecretGrantsIff(w: World, tr: seq<Timed>, es: seq<Event>, i: nat)
    requires Roomy(w) && IsHistory(w, tr, es) && i < |tr| && Marked(tr[i].s.db)
    ensures Mark(tr[i].s.db) in tr[i].times
    ensures var data := tr[i].s.db.secret.value.data;
            && (LabelsGranted(w, tr[i], data.username, data.password) == Some(LabelsOf(w, data.username))
                <==> !Misled(w, tr[i], data.username, data.password))
            && (Misled(w, tr[i], data.username, data.password) ==>
                  tr[i].cache[data.username].lastSeen < tr[i].times[Mark(tr[i].s.db)] + SECOND)
  {
    Reachable(w, tr, es, i);
    GrantedNow(w, tr[i]);
  }

  lemma Further(w: World, tr: seq<Timed>, es: seq<Event>, e: Event) returns (tr': seq<Timed>, es': seq<Event>)
    requires IsHistory(w, tr, es) && Happens(w, tr[|tr| - 1], e)
    ensures IsHistory(w, tr', es') && tr'[|tr'| - 1] == After(w, tr[|tr| - 1], e) && |tr'| == |tr| + 1
  {
    tr', es' := tr + [After(w, tr[|tr| - 1], e)], es + [e];
  }

  /** A new resource whose first account name is taken by an account that has just expired. */
  function Taken(w: World, foreign: Hashed): Timed {
    var cr, a := Cr(1, 1, false, true, 0, "", map[], 0), Account(0, 0, foreign, map[], Some(0), "");
    var db := Db(1, cr, true, map[KeyOf(w, 1) := a], None);
    Timed(SECOND, State(db, map[], History([], map[], [])), SECOND, 0, false, false, map[], {},
          {PastAccount(KeyOf(w, 1), a)}, map[])
  }

  lemma TakenBegins(w: World, foreign: Hashed)
    requires Roomy(w)
    ensures Begins(w, Taken(w, foreign))
  {
  }

  /** An account that a login has loaded expires before the resource comes to use its name. */
  lemma NameIsCached(w: World, foreign: Hashed) returns (tr: seq<Timed>, es: seq<Event>)
    requires Roomy(w)
    ensures IsHistory(w, tr, es)
    ensures var name := w.cfg.nameOf(1);
            tr[|tr| - 1] == Taken(w, foreign).(
              cache := map[name := Auth.Loaded(name, Taken(w, foreign).s.db.accounts[KeyOf(w, 1)], SECOND)])
  {
    TakenBegins(w, foreign);
    var name := w.cfg.nameOf(1);
    tr, es := Further(w, [Taken(w, foreign)], [], Load(name));
    var p := Pending(name, Auth.Loaded(name, Taken(w, foreign).s.db.accounts[KeyOf(w, 1)], SECOND));
    tr, es := Further(w, tr, es, Publish(p));
    assert {} + {p} - {p} == {};
  }

  lemma NameIsFreed(w: World, foreign: Hashed) returns (tr: seq<Timed>, es: seq<Event>)
    requires Roomy(w)
    ensures IsHistory(w, tr, es)
    ensures var t, cr := tr[|tr| - 1], Cr(1, 1, false, true, 0, "", map[], 0);
            && t.s == State(Db(1, cr, true, map[], None), map[], History([], map[], []))
            && t.now == SECOND && w.cfg.nameOf(1) in t.cache && t.cache[w.cfg.nameOf(1)].password == foreign
            && t.cache[w.cfg.nameOf(1)].lastSeen == SECOND
  {
    tr, es := NameIsCached(w, foreign);
    tr, es := Further(w, tr, es, Expire(KeyOf(w, 1)));
    assert Taken(w, foreign).s.db.accounts - {KeyOf(w, 1)} == map[];
  }

  /** The condition is needed: the resource creates an account under the name of one that has just expired but is still
      cached, and the Secret that it writes is not accepted. */
  lemma CachedNameBlocks(w: World, cred: Credential, foreign: Hashed) returns (tr: seq<Timed>, es: seq<Event>)
    requires Roomy(w) && ValidCredential(cred) && !MatchPassword(foreign, cred.password)
    ensures IsHistory(w, tr, es) && Marked(tr[|tr| - 1].s.db)
    ensures var t, data := tr[|tr| - 1], tr[|tr| - 1].s.db.secret.value.data;
            Blocked(t, data.username, data.password) && !Accepted(w, t, data.username, data.password)
  {
    tr, es := NameIsFreed(w, foreign);
    var got := Reads(Cr(1, 1, false, true, 0, "", map[], 0), Some(w.reg), None, None);
    tr, es := Further(w, tr, es, Work(Start(WORKER, got, SECOND, Some(cred))));
    tr, es := Further(w, tr, es, Work(ClaimNext(WORKER, Reliable)));
    tr, es := Further(w, tr, es, Work(WriteAccount(WORKER, SECOND, Reliable)));
    tr, es := Further(w, tr, es, Work(WriteSecret(WORKER, Reliable)));
  }

  // ----- Nobody else holds the names -----

  ghost predicate OwnEntry(w: World, t: Timed, user: string, c: Auth.CachedAccount) {
    forall k :: user == w.cfg.nameOf(k) ==>
      k in t.s.hist.created && c.password == t.s.hist.created[k].hash && c.labels == Auth.AccountLabels(user, w.cfg.labels)
  }

  /** All accounts under the resource's account names are its own, and so are all cached and loaded ones. */
  ghost predicate Clean(w: World, t: Timed) {
    && (forall k :: KeyOf(w, k) in t.s.db.accounts ==> k in t.s.hist.created)
    && (forall u :: u in t.cache ==> OwnEntry(w, t, u, t.cache[u]))
    && (forall p :: p in t.pending ==> OwnEntry(w, t, p.user, p.entry))
  }

  lemma LoadIsOwn(w: World, t: Timed, user: string)
    requires TInv(w, t) && Clean(w, t) && Key(w.reg.ns, user) in t.s.db.accounts
    ensures OwnEntry(w, t, user, Auth.Loaded(user, t.s.db.accounts[Key(w.reg.ns, user)], t.now))
  {
    forall k | user == w.cfg.nameOf(k)
      ensures k in t.s.hist.created && t.s.db.accounts[Key(w.reg.ns, user)].password == t.s.hist.created[k].hash
      ensures t.s.db.accounts[Key(w.reg.ns, user)].labels == w.cfg.labels
    {
      assert Key(w.reg.ns, user) == KeyOf(w, k) && KeyOf(w, k) in t.s.db.accounts;
      assert t.s.hist.created[k].reg == w.reg;
    }
  }

  lemma CreationKeepsClean(w: World, t: Timed, f: Fault)
    requires Roomy(w) && TInv(w, t) && Clean(w, t) && WORKER in t.s.runs && t.s.runs[WORKER].Claimed?
    ensures var db := StoreAccount(w.cfg, t.s.db, t.s.runs[WORKER], t.now, f).0;
            var created := LogCreation(t.s.hist, t.s.db, db, t.s.runs[WORKER]).created;
            forall k ::
              && (KeyOf(w, k) in db.accounts ==> k in created)
              && (k in t.s.hist.created ==> k in created && created[k] == t.s.hist.created[k])
  {
    AccountEffect(w, t, f);
  }

  /** What is created stays so, and no account comes under an own name unless it is. */
  lemma CleanStays(w: World, t: Timed, t': Timed)
    requires Clean(w, t) && t'.cache == t.cache && t'.pending == t.pending
    requires forall k :: k in t.s.hist.created ==> k in t'.s.hist.created && t'.s.hist.created[k] == t.s.hist.created[k]
    requires forall k :: KeyOf(w, k) in t'.s.db.accounts ==> KeyOf(w, k) in t.s.db.accounts || k in t'.s.hist.created
    ensures Clean(w, t')
  {
    forall u | u in t'.cache
      ensures OwnEntry(w, t', u, t'.cache[u])
    {
      assert OwnEntry(w, t, u, t.cache[u]);
    }
    forall p | p in t'.pending
      ensures OwnEntry(w, t', p.user, p.entry)
    {
      assert OwnEntry(w, t, p.user, p.entry);
    }
  }

  /** No step of a run but the creation adds accounts. */
  lemma WorkLeaves(w: World, t: Timed, a: Action)
    requires Roomy(w) && TInv(w, t) && Happens(w, t, Work(a)) && !a.WriteAccount?
    ensures var s' := RotationProtocol.Apply(w.cfg, t.s, a);
            s'.hist.created == t.s.hist.created && forall key :: key in s'.db.accounts ==> key in t.s.db.accounts
  {
    if a.Drop? {
      DropsElsewhere(w, t, a.names);
    } else if a.WriteSecret? {
      SecretEffect(w, t, a.f);
    } else if a.WriteStatus? {
      StatusEffect(w, t, a.msg, a.f);
    }
  }

  lemma WorkLeavesEntries(w: World, t: Timed, a: Action)
    requires Happens(w, t, Work(a)) && !a.WriteAccount?
    ensures var t' := After(w, t, Work(a));
            t'.cache == t.cache && t'.pending == t.pending && t'.s == RotationProtocol.Apply(w.cfg, t.s, a)
  {
  }

  lemma WorkKeepsClean(w: World, t: Timed, a: Action)
    requires Roomy(w) && TInv(w, t) && Clean(w, t) && Happens(w, t, Work(a)) && !a.WriteAccount?
    ensures Clean(w, After(w, t, Work(a)))
  {
    WorkLeaves(w, t, a);
    WorkLeavesEntries(w, t, a);
    CleanStays(w, t, After(w, t, Work(a)));
  }

  lemma CreateKeepsClean(w: World, t: Timed, a: Action)
    requires Roomy(w) && TInv(w, t) && Clean(w, t) && Happens(w, t, Work(a)) && a.WriteAccount?
    ensures Clean(w, After(w, t, Work(a)))
  {
    CreationKeepsClean(w, t, a.f);
    AfterCreation(w, t, a);
    CleanStays(w, t, After(w, t, Work(a)));
  }

  lemma AfterCreation(w: World, t: Timed, a: Action)
    requires Happens(w, t, Work(a)) && a.WriteAccount?
    ensures var t', run := After(w, t, Work(a)), t.s.runs[WORKER];
            var db := StoreAccount(w.cfg, t.s.db, run, t.now, a.f).0;
            && t'.cache == t.cache && t'.pending == t.pending && t'.s.db == db
            && t'.s.hist.created == LogCreation(t.s.hist, t.s.db, db, run).created
  {
  }

  lemma OutsideKeepsClean(w: World, t: Timed, a: Action)
    requires Clean(w, t) && Happens(w, t, Outside(a))
    ensures Clean(w, After(w, t, Outside(a)))
  {
    CleanStays(w, t, After(w, t, Outside(a)));
  }

  lemma EntriesKeepClean(w: World, t: Timed, e: Event)
    requires TInv(w, t) && Clean(w, t) && Happens(w, t, e) && (e.Load? || e.Publish? || e.Restart?)
    ensures Clean(w, After(w, t, e))
  {
    if e.Load? {
      LoadIsOwn(w, t, e.user);
    }
    OwnStays(w, t, After(w, t, e));
  }

  lemma OwnStays(w: World, t: Timed, t': Timed)
    requires t'.s == t.s && Clean(w, t)
    requires forall u :: u in t'.cache ==> OwnEntry(w, t, u, t'.cache[u])
    requires forall p :: p in t'.pending ==> OwnEntry(w, t, p.user, p.entry)
    ensures Clean(w, t')
  {
    assert forall u :: u in t'.cache ==> OwnEntry(w, t', u, t'.cache[u]);
    assert forall p :: p in t'.pending ==> OwnEntry(w, t', p.user, p.entry);
  }

  lemma CleanStep(w: World, t: Timed, e: Event)
    requires Roomy(w) && TInv(w, t) && Clean(w, t) && Happens(w, t, e)
    ensures Clean(w, After(w, t, e))
  {
    if e.Work? && e.a.WriteAccount? {
      CreateKeepsClean(w, t, e.a);
    } else if e.Work? {
      WorkKeepsClean(w, t, e.a);
    } else if e.Outside? {
      OutsideKeepsClean(w, t, e.a);
    } else if e.Load? || e.Publish? || e.Restart? {
      EntriesKeepClean(w, t, e);
    } else {
      RestKeepsClean(w, t, e);
    }
  }

  lemma RestKeepsClean(w: World, t: Timed, e: Event)
    requires Clean(w, t) && Happens(w, t, e) && (e.Tick? || e.Edit? || e.Expire?)
    ensures Clean(w, After(w, t, e))
  {
    CleanStays(w, t, After(w, t, e));
  }

  lemma {:induction false} StaysClean(w: World, tr: seq<Timed>, es: seq<Event>, i: nat)
    requires Roomy(w) && IsHistory(w, tr, es) && Clean(w, tr[0]) && i < |tr|
    ensures Clean(w, tr[i])
  {
    if i > 0 {
      StaysClean(w, tr, es, i - 1);
      Reachable(w, tr, es, i - 1);
      CleanStep(w, tr[i - 1], es[i - 1]);
    }
  }

  /** If nobody else held or had cached accounts under the resource's account names when it was created, then the stored
      Secret's name and password are accepted at every instant at which it bears an annotation. */
  lemma SecretAlwaysAccepted(w: World, tr: seq<Timed>, es: seq<Event>, i: nat)
    requires Roomy(w) && IsHistory(w, tr, es) && Clean(w, tr[0]) && i < |tr| && Marked(tr[i].s.db)
    ensures var data := tr[i].s.db.secret.value.data; Accepted(w, tr[i], data.username, data.password)
  {
    SecretAcceptedIff(w, tr, es, i);
    StaysClean(w, tr, es, i);
    Reachable(w, tr, es, i);
    var t := tr[i];
    assert t.s.db.secret.value.data.username == w.cfg.nameOf(Mark(t.s.db));
    assert w.cfg.nameOf(Mark(t.s.db)) in t.cache ==>
        OwnEntry(w, t, w.cfg.nameOf(Mark(t.s.db)), t.cache[w.cfg.nameOf(Mark(t.s.db))]);
  }

  /** And what they are granted are the resource's labels. */
  lemma SecretAlwaysGrants(w: World, tr: seq<Timed>, es: seq<Event>, i: nat)
    requires Roomy(w) && IsHistory(w, tr, es) && Clean(w, tr[0]) && i < |tr| && Marked(tr[i].s.db)
    ensures Mark(tr[i].s.db) in tr[i].times
    ensures var data := tr[i].s.db.secret.value.data;
            data.username == w.cfg.nameOf(Mark(tr[i].s.db))
            && LabelsGranted(w, tr[i], data.username, data.password) == Some(LabelsOf(w, data.username))
  {
    SecretGrantsIff(w, tr, es, i);
    StaysClean(w, tr, es, i);
    Reachable(w, tr, es, i);
    var t := tr[i];
    assert t.s.db.secret.value.data.username == w.cfg.nameOf(Mark(t.s.db));
    assert w.cfg.nameOf(Mark(t.s.db)) in t.cache ==>
        OwnEntry(w, t, w.cfg.nameOf(Mark(t.s.db)), t.cache[w.cfg.nameOf(Mark(t.s.db))]);
  }

  // ----- Renewal -----

  /** When a rotation replaces the Secret's credentials, the account they belonged to still exists and outlives the
      rotation by what the delay and the lateness leave of half its time to live. */
  lemma OldAccountOutlivesRotation(w: World, tr: seq<Timed>, es: seq<Event>, i: nat)
    requires Roomy(w) && IsHistory(w, tr, es) && i < |es|
    requires Marked(tr[i].s.db) && Marked(tr[i + 1].s.db) && Mark(tr[i].s.db) != Mark(tr[i + 1].s.db)
    ensures var key := KeyOf(w, Mark(tr[i].s.db));
            && key in tr[i + 1].s.db.accounts
            && tr[i + 1].s.db.accounts[key].created + w.cfg.ttl - tr[i + 1].now
               >= w.cfg.ttl / 2 - 30_000_000_000 - (if w.stale then 2 * w.d else w.d)
  {
    Reachable(w, tr, es, i);
    MarkedStep(w, tr[i], es[i]);
    Renewed(w, tr[i]);
  }

  lemma Renewed(w: World, t: Timed)
    requires Roomy(w) && TInv(w, t) && Marked(t.s.db)
    ensures KeyOf(w, Mark(t.s.db)) in t.s.db.accounts
    ensures t.now <= t.s.db.accounts[KeyOf(w, Mark(t.s.db))].created + Interval(w.cfg) + REQUEUE_DELAY + Lateness(w)
  {
    assert KeyOf(w, Mark(t.s.db)) in t.s.db.accounts && Mark(t.s.db) in t.times;
  }

  /** No password is handed out for longer than half its account's time to live plus delay and lateness. */
  lemma PasswordsAreRotated(w: World, tr: seq<Timed>, es: seq<Event>, i: nat)
    requires Roomy(w) && IsHistory(w, tr, es) && i < |tr| && Marked(tr[i].s.db)
    ensures KeyOf(w, Mark(tr[i].s.db)) in tr[i].s.db.accounts
    ensures tr[i].now
         <= tr[i].s.db.accounts[KeyOf(w, Mark(tr[i].s.db))].created
            + w.cfg.ttl / 2 + 30_000_000_000 + (if w.stale then 2 * w.d else w.d)
  {
    Reachable(w, tr, es, i);
    Renewed(w, tr[i]);
  }
}
