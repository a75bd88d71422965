/** Any number of concurrent logins, account creation and deletion, and the expiry controller, on one clock.
    Reading an account and stamping it are one instant, and a login is accepted at the instant of the cache check or
    of the read that it rests on. */
module AuthProtocol {
  import opened Wrappers
  import opened Cluster
  import opened Accounts
  import opened Auth

  /** A login that read an account: it waits for the lock, or holds it while copying the published map. */
  datatype Thread =
    | Waiting(user: string, account: CachedAccount)
    | Copying(user: string, account: CachedAccount, base: Cache, since: Time)

  datatype Read = Read(at: Time, user: string, account: Account)

  datatype Accept = Accept(at: Time, user: string, passwd: string, labels: Labels)

  /** `wakes`: when the expiry controller has to see an account again. `seen`, `accepts`: what happened so far.
      `latest`: for every user the last account that was added. */
  datatype State = State(
    now: Time, nextUid: nat, accounts: map<string, Account>, wakes: map<string, Time>,
    cache: Cache, threads: map<nat, Thread>,
    seen: set<Read>, accepts: set<Accept>, latest: Cache)

  datatype Action =
    | Tick(to: Time)
    | Create(name: string, account: Account)
    | Delete(name: string)
    | Expire(name: string)
    | Hit(user: string, passwd: string)
    | Load(id: nat, user: string, passwd: string)
    | Lock(id: nat)
    | Publish(id: nat, kept: Cache)

  /** Every expiry reconcile is at most `d` late. */
  predicate OnTime(s: State, to: Time, d: Duration) {
    forall n :: n in s.accounts && s.accounts[n].ttl.Some? && n in s.wakes ==> to <= s.wakes[n] + d
  }

  predicate Locked(s: State) {
    exists i :: i in s.threads && s.threads[i].Copying?
  }

  predicate Enabled(d: Duration, s: State, a: Action) {
    match a
    case Tick(to) => s.now <= to && OnTime(s, to, d)
    case Create(name, account) => name !in s.accounts && account.created == WholeSecond(s.now) && account.uid == s.nextUid
    case Delete(name) => name in s.accounts
    case Expire(name) => name in s.accounts
    case Hit(user, passwd) => user in s.cache && !CacheExpired(s.cache[user], s.now)
    case Load(id, user, _) => id !in s.threads && user in s.accounts
    case Lock(id) => id in s.threads && s.threads[id].Waiting? && !Locked(s)
    case Publish(id, kept) =>
      && id in s.threads && s.threads[id].Copying?
      && (var t := s.threads[id];
          && (forall u :: u in kept ==> u in t.base && kept[u] == t.base[u] && !CacheExpired(t.base[u], t.since))
          && (forall u :: u in t.base && !CacheExpired(t.base[u], s.now) ==> u in kept))
  }

  function Accepted(s: State, user: string, passwd: string, c: CachedAccount): set<Accept> {
    if user != "" && passwd != "" && MatchPassword(c.password, passwd)
    then s.accepts + {Accept(s.now, user, passwd, c.labels)} else s.accepts
  }

  function Apply(s: State, a: Action): State
    requires exists d :: Enabled(d, s, a)
  {
    match a
    case Tick(to) => s.(now := to)
    case Create(name, account) =>
      s.(accounts := s.accounts[name := account], wakes := s.wakes[name := s.now], nextUid := s.nextUid + 1)
    case Delete(name) => s.(accounts := s.accounts - {name}, wakes := s.wakes - {name})
    case Expire(name) =>
      var acc := s.accounts[name];
      if acc.ttl.None? then s
      else if Expired(acc, s.now) then s.(accounts := s.accounts - {name}, wakes := s.wakes - {name})
      else s.(wakes := s.wakes[name := acc.created + acc.ttl.value + EXPIRY_DELAY])
    case Hit(user, passwd) => s.(accepts := Accepted(s, user, passwd, s.cache[user]))
    case Load(id, user, passwd) =>
      var c := Loaded(user, s.accounts[user], s.now);
      s.(threads := s.threads[id := Waiting(user, c)], seen := s.seen + {Read(s.now, user, s.accounts[user])},
         accepts := Accepted(s, user, passwd, c))
    case Lock(id) =>
      var t := s.threads[id];
      s.(threads := s.threads[id := Copying(t.user, t.account, s.cache, s.now)])
    case Publish(id, kept) =>
      var t := s.threads[id];
      s.(cache := kept[t.user := t.account], latest := s.latest[t.user := t.account], threads := s.threads - {id})
  }

  predicate Init(s: State) {
    && s.cache == map[] && s.latest == map[] && s.threads == map[] && s.seen == {} && s.accepts == {}
    && s.accounts == map[] && s.wakes == map[]
  }

  // ----- Invariants -----

  /** By how much the timestamp of a new account may lie in the past. */
  const ROUNDING: Duration := SECOND - 1

  /** The latest instant at which the controller has to see an account that has a time to live. */
  function LastWake(a: Account): Time
    requires a.ttl.Some?
  {
    a.created + if a.ttl.value + EXPIRY_DELAY > ROUNDING then a.ttl.value + EXPIRY_DELAY else ROUNDING
  }

  predicate ExpiryOk(d: Duration, s: State) {
    forall n :: n in s.accounts && s.accounts[n].ttl.Some? ==>
      && n in s.wakes && s.wakes[n] <= LastWake(s.accounts[n]) && s.now <= s.wakes[n] + d
  }

  predicate FromRead(seen: set<Read>, user: string, c: CachedAccount) {
    exists r :: r in seen && r.user == user && r.at == c.lastSeen && c == Loaded(user, r.account, r.at)
  }

  predicate ReadOk(d: Duration, r: Read) {
    r.account.ttl.Some? ==> r.at <= LastWake(r.account) + d
  }

  predicate Justified(seen: set<Read>, e: Accept) {
    && e.user != "" && e.passwd != ""
    && exists r ::
         && r in seen && r.user == e.user && r.at <= e.at <= r.at + CACHE_TTL
         && MatchPassword(r.account.password, e.passwd) && e.labels == AccountLabels(e.user, r.account.labels)
  }

  predicate ThreadOk(s: State, t: Thread) {
    && FromRead(s.seen, t.user, t.account)
    && (t.Copying? ==> t.base == s.cache && t.since <= s.now)
  }

  predicate ReadsOk(d: Duration, s: State) {
    && (forall r :: r in s.seen ==> ReadOk(d, r) && r.at <= s.now)
    && (forall u :: u in s.cache ==> FromRead(s.seen, u, s.cache[u]))
    && (forall e :: e in s.accepts ==> Justified(s.seen, e))
  }

  /** At most one login holds the lock, and the map it copies is the published one. */
  predicate ThreadsOk(s: State) {
    && (forall i :: i in s.threads ==> ThreadOk(s, s.threads[i]))
    && forall i, j :: i in s.threads && j in s.threads && s.threads[i].Copying? && s.threads[j].Copying? ==> i == j
  }

  /** The published map is what was added last for every user, less entries that have expired. */
  predicate NothingLost(s: State) {
    && (forall u :: u in s.cache ==> u in s.latest && s.latest[u] == s.cache[u])
    && (forall u :: u in s.latest && !CacheExpired(s.latest[u], s.now) ==> u in s.cache)
  }

  predicate Inv(d: Duration, s: State) {
    ExpiryOk(d, s) && ReadsOk(d, s) && ThreadsOk(s) && NothingLost(s)
  }

  lemma FromReadGrows(seen: set<Read>, more: set<Read>, user: string, c: CachedAccount)
    requires seen <= more && FromRead(seen, user, c)
    ensures FromRead(more, user, c)
  {
  }

  lemma JustifiedGrows(seen: set<Read>, more: set<Read>, e: Accept)
    requires seen <= more && Justified(seen, e)
    ensures Justified(more, e)
  {
  }

  /** A cache entry that is hit before it expires justifies the acceptance. */
  lemma HitJustified(s: State, user: string, passwd: string, c: CachedAccount)
    requires FromRead(s.seen, user, c) && c.lastSeen <= s.now && !CacheExpired(c, s.now)
    requires MatchPassword(c.password, passwd) && user != "" && passwd != ""
    ensures Justified(s.seen, Accept(s.now, user, passwd, c.labels))
  {
    var r :| r in s.seen && r.user == user && r.at == c.lastSeen && c == Loaded(user, r.account, r.at);
    assert r in s.seen && r.user == user;
  }

  lemma LoadKeeps(d: Duration, s: State, id: nat, user: string, passwd: string)
    requires Inv(d, s) && Enabled(d, s, Load(id, user, passwd)) && d >= 0
    ensures Inv(d, Apply(s, Load(id, user, passwd)))
  {
    var s' := Apply(s, Load(id, user, passwd));
    var r := Read(s.now, user, s.accounts[user]);
    var c := Loaded(user, s.accounts[user], s.now);
    assert r in s'.seen;
    assert FromRead(s'.seen, user, c);
    forall u | u in s'.cache
      ensures FromRead(s'.seen, u, s'.cache[u])
    {
      FromReadGrows(s.seen, s'.seen, u, s.cache[u]);
    }
    forall e | e in s'.accepts
      ensures Justified(s'.seen, e)
    {
      if e in s.accepts {
        JustifiedGrows(s.seen, s'.seen, e);
      } else {
        HitJustified(s', user, passwd, c);
      }
    }
    forall i | i in s'.threads
      ensures ThreadOk(s', s'.threads[i])
    {
      if i != id {
        assert ThreadOk(s, s.threads[i]);
        FromReadGrows(s.seen, s'.seen, s.threads[i].user, s.threads[i].account);
      }
    }
  }

  lemma HitKeeps(d: Duration, s: State, user: string, passwd: string)
    requires Inv(d, s) && Enabled(d, s, Hit(user, passwd))
    ensures Inv(d, Apply(s, Hit(user, passwd)))
  {
    var s' := Apply(s, Hit(user, passwd));
    forall e | e in s'.accepts
      ensures Justified(s'.seen, e)
    {
      if e !in s.accepts {
        HitJustified(s, user, passwd, s.cache[user]);
      }
    }
    forall i | i in s'.threads
      ensures ThreadOk(s', s'.threads[i])
    {
      assert ThreadOk(s, s.threads[i]);
    }
  }

  lemma LockKeeps(d: Duration, s: State, id: nat)
    requires Inv(d, s) && Enabled(d, s, Lock(id))
    ensures Inv(d, Apply(s, Lock(id)))
  {
    var s' := Apply(s, Lock(id));
    forall i | i in s'.threads
      ensures ThreadOk(s', s'.threads[i])
    {
      assert ThreadOk(s, s.threads[i]);
    }
  }

  lemma PublishKeeps(d: Duration, s: State, id: nat, kept: Cache)
    requires Inv(d, s) && Enabled(d, s, Publish(id, kept))
    ensures Inv(d, Apply(s, Publish(id, kept)))
  {
    var s' := Apply(s, Publish(id, kept));
    assert ThreadOk(s, s.threads[id]);
    forall i | i in s'.threads
      ensures ThreadOk(s', s'.threads[i])
    {
      assert ThreadOk(s, s.threads[i]);
    }
  }

  lemma OutsiderKeeps(d: Duration, s: State, a: Action)
    requires Inv(d, s) && Enabled(d, s, a) && d >= 0
    requires a.Tick? || a.Create? || a.Delete? || a.Expire?
    ensures Inv(d, Apply(s, a))
  {
    var s' := Apply(s, a);
    forall i | i in s'.threads
      ensures ThreadOk(s', s'.threads[i])
    {
      assert ThreadOk(s, s.threads[i]);
    }
  }

  lemma StepKeepsInv(d: Duration, s: State, a: Action)
    requires d >= 0 && Inv(d, s) && Enabled(d, s, a)
    ensures Inv(d, Apply(s, a))
  {
    match a
    case Load(id, user, passwd) => LoadKeeps(d, s, id, user, passwd);
    case Hit(user, passwd) => HitKeeps(d, s, user, passwd);
    case Lock(id) => LockKeeps(d, s, id);
    case Publish(id, kept) => PublishKeeps(d, s, id, kept);
    case _ => OutsiderKeeps(d, s, a);
  }

  // ----- Histories -----

  /** `acts[i]` leads from `tr[i]` to `tr[i + 1]`. */
  predicate IsPath(d: Duration, tr: seq<State>, acts: seq<Action>) {
    && |tr| == |acts| + 1
    && forall i :: 0 <= i < |acts| ==> Enabled(d, tr[i], acts[i]) && tr[i + 1] == Apply(tr[i], acts[i])
  }

  predicate IsHistory(d: Duration, tr: seq<State>, acts: seq<Action>) {
    IsPath(d, tr, acts) && Init(tr[0])
  }

  lemma {:induction false} ReachableInv(d: Duration, tr: seq<State>, acts: seq<Action>, i: nat)
    requires d >= 0 && IsHistory(d, tr, acts) && i < |tr|
    ensures Inv(d, tr[i])
  {
    if i > 0 {
      ReachableInv(d, tr, acts, i - 1);
      StepKeepsInv(d, tr[i - 1], acts[i - 1]);
    }
  }

  /** A read on record saw what the API held at its instant. */
  lemma {:induction false} ReadsAreTrue(d: Duration, tr: seq<State>, acts: seq<Action>, i: nat, r: Read)
    requires IsHistory(d, tr, acts) && i < |tr| && r in tr[i].seen
    ensures exists j :: 0 <= j <= i && tr[j].now == r.at && r.user in tr[j].accounts && tr[j].accounts[r.user] == r.account
  {
    if r in tr[i - 1].seen {
      ReadsAreTrue(d, tr, acts, i - 1, r);
    } else {
      assert acts[i - 1].Load?;
      assert tr[i - 1].now == r.at;
    }
  }

  /** Every acceptance rests on an API read, at most 10 minutes old, of an account whose hash matches and whose
      labels, overridden by origin and name, are returned. */
  lemma AcceptanceIsJustified(d: Duration, tr: seq<State>, acts: seq<Action>, i: nat, e: Accept)
    requires d >= 0 && IsHistory(d, tr, acts) && i < |tr| && e in tr[i].accepts
    ensures e.user != "" && e.passwd != ""
    ensures exists j, a :: 0 <= j <= i && e.user in tr[j].accounts && tr[j].accounts[e.user] == a
              && tr[j].now <= e.at <= tr[j].now + 600_000_000_000
              && a.password.password == e.passwd && e.labels == AccountLabels(e.user, a.labels)
  {
    ReachableInv(d, tr, acts, i);
    var r :| r in tr[i].seen && r.user == e.user && r.at <= e.at <= r.at + CACHE_TTL
      && MatchPassword(r.account.password, e.passwd) && e.labels == AccountLabels(e.user, r.account.labels);
    ReadsAreTrue(d, tr, acts, i, r);
    var j :| 0 <= j <= i && tr[j].now == r.at && r.user in tr[j].accounts && tr[j].accounts[r.user] == r.account;
    assert e.user in tr[j].accounts && tr[j].accounts[e.user] == r.account;
  }

  /** No account with a time to live is accepted later than that time, 10 seconds, the
      controller's lateness and 10 minutes after its timestamp, provided that the time to live is not so far
      below zero that the controller's first look at the account comes after the wake-up it would ask for. */
  lemma RevocationBound(d: Duration, tr: seq<State>, acts: seq<Action>, i: nat, e: Accept)
    requires d >= 0 && IsHistory(d, tr, acts) && i < |tr| && e in tr[i].accepts
    ensures exists j, a :: 0 <= j <= i && e.user in tr[j].accounts && tr[j].accounts[e.user] == a
              && MatchPassword(a.password, e.passwd)
              && (a.ttl.Some? ==> e.at <= LastWake(a) + d + CACHE_TTL)
              && (a.ttl.Some? && a.ttl.value + 10_000_000_000 >= 999_999_999 ==>
                    e.at <= a.created + a.ttl.value + 10_000_000_000 + d + 600_000_000_000)
              && (a.ttl.Some? && a.ttl.value + 10_000_000_000 >= 0 ==>
                    e.at <= a.created + a.ttl.value + 10_000_000_000 + d + 600_000_000_000 + 999_999_999)
  {
    AcceptanceIsJustified(d, tr, acts, i, e);
    var j, a :| 0 <= j <= i && e.user in tr[j].accounts && tr[j].accounts[e.user] == a
              && tr[j].now <= e.at <= tr[j].now + CACHE_TTL
              && MatchPassword(a.password, e.passwd) && e.labels == AccountLabels(e.user, a.labels);
    ReachableInv(d, tr, acts, j);
  }

  /** The user never had another account. */
  predicate SoleAccount(tr: seq<State>, user: string, a: Account) {
    forall j :: 0 <= j < |tr| && user in tr[j].accounts ==> tr[j].accounts[user] == a
  }

  /** A history in which the user's only account is accepted after the plain bound. */
  predicate Exceeds(d: Duration, ttl: Duration, tr: seq<State>, acts: seq<Action>, e: Accept, a: Account) {
    && IsHistory(d, tr, acts) && SoleAccount(tr, e.user, a)
    && e in tr[|tr| - 1].accepts && a.ttl == Some(ttl)
    && e.at > a.created + ttl + 10_000_000_000 + d + 600_000_000_000
  }

  /** For which times to live some history exceeds the plain bound: exactly for those under -10 s plus what rounding the
      timestamp may take. */
  lemma PlainBoundFailsIff(d: Duration, ttl: Duration)
    requires d >= 0
    ensures (exists tr, acts, e, a :: Exceeds(d, ttl, tr, acts, e, a)) <==> ttl + 10_000_000_000 < 999_999_999
  {
    if ttl + EXPIRY_DELAY < ROUNDING {
      var tr, acts, e, a := LateAcceptance(d, ttl, "u", "p");
    } else if tr, acts, e, a :| Exceeds(d, ttl, tr, acts, e, a) {
      RevocationBound(d, tr, acts, |tr| - 1, e);
      assert false;
    }
  }

  lemma Further(d: Duration, tr: seq<State>, acts: seq<Action>, a: Action, user: string, acc: Account)
    returns (tr': seq<State>, acts': seq<Action>)
    requires IsHistory(d, tr, acts) && SoleAccount(tr, user, acc) && Enabled(d, tr[|tr| - 1], a)
    requires user in Apply(tr[|tr| - 1], a).accounts ==> Apply(tr[|tr| - 1], a).accounts[user] == acc
    ensures IsHistory(d, tr', acts') && SoleAccount(tr', user, acc)
    ensures tr'[|tr'| - 1] == Apply(tr[|tr| - 1], a)
  {
    tr', acts' := tr + [Apply(tr[|tr| - 1], a)], acts + [a];
  }

  /** The account is loaded as late as the controller may be. */
  lemma LateLoad(d: Duration, user: string, passwd: string, a: Account) returns (tr: seq<State>, acts: seq<Action>)
    requires d >= 0 && user != "" && passwd != "" && a.uid == a.created == 0
    ensures IsHistory(d, tr, acts) && SoleAccount(tr, user, a)
    ensures var s, c := tr[|tr| - 1], Loaded(user, a, ROUNDING + d);
            && s.now == ROUNDING + d && s.accounts == map[user := a] && s.wakes == map[user := ROUNDING]
            && s.cache == map[user := c] && s.threads == map[]
  {
    tr, acts := [State(ROUNDING, 0, map[], map[], map[], map[], {}, {}, map[])], [];
    tr, acts := Further(d, tr, acts, Create(user, a), user, a);
    tr, acts := Further(d, tr, acts, Tick(ROUNDING + d), user, a);
    tr, acts := Further(d, tr, acts, Load(0, user, passwd), user, a);
    tr, acts := Further(d, tr, acts, Lock(0), user, a);
    tr, acts := Further(d, tr, acts, Publish(0, map[]), user, a);
  }

  /** ... and accepted from the cache until that entry expires. */
  lemma LateAcceptance(d: Duration, ttl: Duration, user: string, passwd: string)
    returns (tr: seq<State>, acts: seq<Action>, e: Accept, a: Account)
    requires d >= 0 && user != "" && passwd != "" && ttl + EXPIRY_DELAY < ROUNDING
    ensures Exceeds(d, ttl, tr, acts, e, a)
  {
    a := Account(0, 0, Bcrypt(0, passwd), map[], Some(ttl), "");
    e := Accept(ROUNDING + d + CACHE_TTL, user, passwd, Loaded(user, a, ROUNDING + d).labels);
    tr, acts := LateLoad(d, user, passwd, a);
    tr, acts := Further(d, tr, acts, Expire(user), user, a);
    tr, acts := Further(d, tr, acts, Tick(ROUNDING + d + CACHE_TTL), user, a);
    tr, acts := Further(d, tr, acts, Hit(user, passwd), user, a);
  }

  /** Concurrent logins never lose an added entry before it expires, and a hit returns the entry added last. */
  lemma NoLostUpdates(d: Duration, tr: seq<State>, acts: seq<Action>, i: nat, u: string)
    requires d >= 0 && IsHistory(d, tr, acts) && i < |tr|
    ensures u in tr[i].latest && !CacheExpired(tr[i].latest[u], tr[i].now) ==>
              u in tr[i].cache && tr[i].cache[u] == tr[i].latest[u]
    ensures u in tr[i].cache ==> u in tr[i].latest && tr[i].cache[u] == tr[i].latest[u]
  {
    ReachableInv(d, tr, acts, i);
  }

  /** One locked add yields the previously published map's unexpired entries and the new one, although others
      added entries between this login's cache check and its turn: at least what is unexpired at its end, at most what
      was unexpired when the copying began. */
  lemma AddIsAtomic(d: Duration, s: State, id: nat, kept: Cache)
    requires Inv(d, s) && Enabled(d, s, Publish(id, kept))
    ensures var t, after := s.threads[id], Apply(s, Publish(id, kept)).cache;
            && (forall u :: u in Added(s.cache, t.user, t.account, s.now) ==>
                  u in after && after[u] == Added(s.cache, t.user, t.account, s.now)[u])
            && (forall u :: u in after ==>
                  u in Added(s.cache, t.user, t.account, t.since) && after[u] == Added(s.cache, t.user, t.account, t.since)[u])
            && (forall u :: u in after && u != t.user ==> t.since <= after[u].lastSeen + 600_000_000_000)
            && (t.since == s.now ==> after == Added(s.cache, t.user, t.account, s.now))
  {
    assert ThreadOk(s, s.threads[id]);
    if s.threads[id].since == s.now {
      assert kept == Unexpired(s.cache, s.now);
    }
  }

  // ----- Undisturbed calls are paths -----

  lemma Step(d: Duration, tr: seq<State>, acts: seq<Action>, a: Action) returns (tr': seq<State>, acts': seq<Action>)
    requires IsPath(d, tr, acts) && Enabled(d, tr[|tr| - 1], a)
    ensures IsPath(d, tr', acts') && tr'[0] == tr[0] && tr'[|tr'| - 1] == Apply(tr[|tr| - 1], a)
  {
    tr', acts' := tr + [Apply(tr[|tr| - 1], a)], acts + [a];
  }

  /** What the API answers in this state, unless the call fails. */
  function AnswerIn(s: State, user: string): Answer {
    if user in s.accounts then Found(s.accounts[user]) else NotFound
  }

  /** A login that nobody disturbs takes steps of the protocol: the published map and the accepted labels are those of the
      authenticator, whatever it finds in the cache and whatever the API answers. */
  lemma LoginIsPath(d: Duration, s: State, id: nat, user: string, passwd: string, answer: Answer, at: Instants)
    returns (tr: seq<State>, acts: seq<Action>)
    requires id !in s.threads && !Locked(s) && answer in {AnswerIn(s, user), ApiError}
    requires at.checked == s.now <= at.loaded <= at.added && OnTime(s, at.added, d)
    ensures IsPath(d, tr, acts) && tr[0] == s
    ensures var (cache, reply) := Authenticate(s.cache, user, passwd, answer, at);
            var s', hit := tr[|tr| - 1], user in s.cache && !CacheExpired(s.cache[user], s.now);
            && s'.cache == cache && s'.threads == s.threads && s'.accounts == s.accounts
            && s'.accepts == s.accepts
               + if reply.labels.Some? then {Accept(if hit then s.now else at.loaded, user, passwd, reply.labels.value)} else {}
  {
    tr, acts := [s], [];
    if user != "" && passwd != "" {
      if user in s.cache && !CacheExpired(s.cache[user], s.now) {
        tr, acts := Step(d, tr, acts, Hit(user, passwd));
      } else if answer.Found? {
        tr, acts := LoadIsPath(d, s, id, user, passwd, at);
      }
    }
  }

  lemma LoadIsPath(d: Duration, s: State, id: nat, user: string, passwd: string, at: Instants)
    returns (tr: seq<State>, acts: seq<Action>)
    requires id !in s.threads && !Locked(s) && user in s.accounts
    requires s.now <= at.loaded <= at.added && OnTime(s, at.added, d)
    ensures IsPath(d, tr, acts) && tr[0] == s
    ensures var s', c := tr[|tr| - 1], Loaded(user, s.accounts[user], at.loaded);
            && s'.cache == Added(s.cache, user, c, at.added) && s'.threads == s.threads && s'.accounts == s.accounts
            && s'.accepts == Accepted(s.(now := at.loaded), user, passwd, c)
  {
    tr, acts := ReadIsPath(d, s, id, user, passwd, at);
    assert !Locked(tr[|tr| - 1]);
    tr, acts := Step(d, tr, acts, Lock(id));
    tr, acts := Step(d, tr, acts, Publish(id, Unexpired(s.cache, at.added)));
    assert tr[|tr| - 1].threads == s.threads;
  }

  /** The account is read and accepted or not; then the login waits for the lock. */
  lemma ReadIsPath(d: Duration, s: State, id: nat, user: string, passwd: string, at: Instants)
    returns (tr: seq<State>, acts: seq<Action>)
    requires id !in s.threads && user in s.accounts
    requires s.now <= at.loaded <= at.added && OnTime(s, at.added, d)
    ensures IsPath(d, tr, acts) && tr[0] == s
    ensures var s', c := tr[|tr| - 1], Loaded(user, s.accounts[user], at.loaded);
            s' == s.(now := at.added, threads := s.threads[id := Waiting(user, c)], seen := s'.seen,
                     accepts := Accepted(s.(now := at.loaded), user, passwd, c))
  {
    tr, acts := [s], [];
    tr, acts := Step(d, tr, acts, Tick(at.loaded));
    tr, acts := Step(d, tr, acts, Load(id, user, passwd));
    tr, acts := Step(d, tr, acts, Tick(at.added));
  }

  /** A run of the expiry controller is a step of the protocol, and what it asks for is when it has to run again. */
  lemma ExpiryIsStep(d: Duration, s: State, name: string)
    requires name in s.accounts
    ensures Enabled(d, s, Expire(name))
    ensures var (accounts, outcome) := ExpiryRun(s.accounts, name, s.now, false);
            var s' := Apply(s, Expire(name));
            && s'.accounts == accounts && s' == s.(accounts := s'.accounts, wakes := s'.wakes)
            && (outcome.RunAgainAt? ==> s'.wakes == s.wakes[name := outcome.at])
            && (name !in s'.accounts <==> s.accounts[name].ttl.Some? && s.now > s.accounts[name].created + s.accounts[name].ttl.value)
  {
  }
}
