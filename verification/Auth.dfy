/** The authenticator with its copy-on-write cache, and the controller that deletes expired accounts. */
module Auth {
  import opened Wrappers
  import opened Cluster
  import opened Accounts

  const CACHE_TTL: Duration := 10 * MINUTE
  const EXPIRY_DELAY: Duration := 10 * SECOND

  datatype CachedAccount = CachedAccount(password: Hashed, labels: Labels, lastSeen: Time)

  type Cache = map<string, CachedAccount>

  predicate CacheExpired(c: CachedAccount, now: Time) {
    now > c.lastSeen + CACHE_TTL
  }

  /** The account's own labels, overridden by where it comes from and how it is named. */
  function AccountLabels(name: string, spec: Labels): Labels {
    spec["origin" := ["cr"]]["account" := [name]]
  }

  function Loaded(name: string, a: Account, now: Time): CachedAccount {
    CachedAccount(a.password, AccountLabels(name, a.labels), now)
  }

  lemma LoadedLabels(name: string, a: Account, now: Time)
    ensures var labels := Loaded(name, a, now).labels;
            && labels.Keys == a.labels.Keys + {"origin", "account"}
            && labels["origin"] == ["cr"] && labels["account"] == [name]
            && forall k :: k in a.labels && k != "origin" && k != "account" ==> labels[k] == a.labels[k]
  {
    assert "origin"[0] != "account"[0];
  }

  function Unexpired(cache: Cache, now: Time): Cache {
    map u | u in cache && !CacheExpired(cache[u], now) :: cache[u]
  }

  /** The map that replaces the published one. */
  function Added(cache: Cache, user: string, c: CachedAccount, now: Time): Cache {
    Unexpired(cache, now)[user := c]
  }

  /** What the API answers to the lookup of an account. */
  datatype Answer = Found(account: Account) | NotFound | ApiError

  /** When a lookup checks the cache, stamps what it loaded, and adds it. */
  datatype Instants = Instants(checked: Time, loaded: Time, added: Time)

  datatype Lookup = Known(account: CachedAccount) | Unknown | LookupFailed

  function FindAccount(cache: Cache, user: string, answer: Answer, at: Instants): (Cache, Lookup) {
    if user in cache && !CacheExpired(cache[user], at.checked) then (cache, Known(cache[user]))
    else
      match answer
      case ApiError => (cache, LookupFailed)
      case NotFound => (cache, Unknown)
      case Found(a) =>
        var c := Loaded(user, a, at.loaded);
        (Added(cache, user, c, at.added), Known(c))
  }

  /** Some labels when the credentials are accepted; `failed` is the error. */
  datatype Reply = Reply(labels: Option<Labels>, failed: bool)

  function Authenticate(cache: Cache, user: string, passwd: string, answer: Answer, at: Instants): (Cache, Reply) {
    if user == "" || passwd == "" then (cache, Reply(None, false))
    else
      var (cache', found) := FindAccount(cache, user, answer, at);
      (cache',
       Reply(if found.Known? && MatchPassword(found.account.password, passwd) then Some(found.account.labels) else None,
             found.LookupFailed?))
  }

  /** The entry was loaded at most 10 minutes ago. */
  predicate Hits(cache: Cache, user: string, now: Time) {
    user in cache && now <= cache[user].lastSeen + 600_000_000_000
  }

  /** What a login is granted, whether it is an error, and what becomes of the cache. An unknown account is no error; an
      entry that is hit is not loaded again; and what is loaded joins the entries that are not older than 10 minutes. */
  lemma LoginOutcome(cache: Cache, user: string, passwd: string, answer: Answer, at: Instants)
    requires user != "" && passwd != ""
    ensures var (cache', reply) := Authenticate(cache, user, passwd, answer, at);
            var hit := Hits(cache, user, at.checked);
            && (reply.failed <==> !hit && answer.ApiError?)
            && reply.labels == (if hit then if cache[user].password.password == passwd then Some(cache[user].labels) else None
                                else if answer.Found? && answer.account.password.password == passwd
                                then Some(answer.account.labels["origin" := ["cr"]]["account" := [user]]) else None)
            && (hit || !answer.Found? ==> cache' == cache)
            && (!hit && answer.Found? ==>
                  && user in cache' && cache'[user].lastSeen == at.loaded && cache'[user].password == answer.account.password
                  && (forall u :: u in cache' && u != user ==> u in cache && cache'[u] == cache[u] && Hits(cache, u, at.added))
                  && (forall u :: Hits(cache, u, at.added) && u != user ==> u in cache'))
  {
  }

  /** Without name or password nothing is looked up and nothing is granted. */
  lemma EmptyLogin(cache: Cache, user: string, passwd: string, answer: Answer, at: Instants)
    requires user == "" || passwd == ""
    ensures Authenticate(cache, user, passwd, answer, at) == (cache, Reply(None, false))
  {
  }

  class CacheMap {
    var entries: Cache

    constructor ()
      ensures entries == map[]
    {
      entries := map[];
    }
  }

  class Authenticator {
    var cache: CacheMap

    constructor ()
      ensures fresh(cache) && cache.entries == map[]
    {
      cache := new CacheMap();
    }

    /** Publishes a new map; the one published before, which others may be reading, stays as it is. */
    method AddToCache(user: string, account: CachedAccount, now: Time)
      modifies this`cache
      ensures fresh(cache) && cache.entries == Added(old(cache.entries), user, account, now)
      ensures old(cache).entries == old(cache.entries)
    {
      var m := new CacheMap();
      var todo := cache.entries.Keys;
      while todo != {}
        invariant cache == old(cache) && cache.entries == old(cache.entries) && fresh(m)
        invariant todo <= cache.entries.Keys
        invariant forall u :: u in m.entries <==> u in cache.entries && u !in todo && !CacheExpired(cache.entries[u], now)
        invariant forall u :: u in m.entries ==> m.entries[u] == cache.entries[u]
        decreases todo
      {
        var user :| user in todo;
        if !CacheExpired(cache.entries[user], now) {
          m.entries := m.entries[user := cache.entries[user]];
        }
        todo := todo - {user};
      }
      assert m.entries == Unexpired(cache.entries, now);
      m.entries := m.entries[user := account];
      cache := m;
    }

    method Find(user: string, answer: Answer, at: Instants) returns (found: Lookup)
      modifies this`cache
      ensures (cache.entries, found) == FindAccount(old(cache.entries), user, answer, at)
      ensures cache == old(cache) || fresh(cache)
    {
      if user in cache.entries && !CacheExpired(cache.entries[user], at.checked) {
        return Known(cache.entries[user]);
      }
      match answer
      case ApiError => return LookupFailed;
      case NotFound => return Unknown;
      case Found(a) =>
        var c := CachedAccount(a.password, AccountLabels(user, a.labels), at.loaded);
        AddToCache(user, c, at.added);
        return Known(c);
    }

    method Login(user: string, passwd: string, answer: Answer, at: Instants) returns (labels: Option<Labels>, failed: bool)
      modifies this`cache
      ensures (cache.entries, Reply(labels, failed)) == Authenticate(old(cache.entries), user, passwd, answer, at)
    {
      labels, failed := None, false;
      if user != "" && passwd != "" {
        var found := Find(user, answer, at);
        failed := found.LookupFailed?;
        if found.Known? && MatchPassword(found.account.password, passwd) {
          labels := Some(found.account.labels);
        }
      }
    }
  }

  // ----- Expiry -----

  /** What an expiry run asks for: nothing more, or to be run again at an instant. */
  datatype ExpiryOutcome = Finished | RunAgainAt(at: Time) | DeleteFailed

  /** One run of the expiry controller for one account. */
  function ExpiryRun(accounts: map<string, Account>, name: string, now: Time, deleteFails: bool):
    (map<string, Account>, ExpiryOutcome)
  {
    if name !in accounts || accounts[name].ttl.None? then (accounts, Finished)
    else if !Expired(accounts[name], now) then
      (accounts, RunAgainAt(accounts[name].created + accounts[name].ttl.value + EXPIRY_DELAY))
    else if deleteFails then (accounts, DeleteFailed)
    else (accounts - {name}, Finished)
  }

  class AccountStore {
    var accounts: map<string, Account>

    constructor (accounts: map<string, Account>)
      ensures this.accounts == accounts
    {
      this.accounts := accounts;
    }

    /** Deletes the account exactly when its time to live has passed, and otherwise comes back 10 seconds after it has. */
    method ReconcileExpiry(name: string, now: Time, deleteFails: bool) returns (r: ExpiryOutcome)
      modifies this
      ensures (accounts, r) == ExpiryRun(old(accounts), name, now, deleteFails)
      ensures accounts == if name in old(accounts) && old(accounts)[name].ttl.Some? && !deleteFails
                             && now > old(accounts)[name].created + old(accounts)[name].ttl.value
                          then old(accounts) - {name} else old(accounts)
      ensures r == DeleteFailed <==> name in old(accounts) && Expired(old(accounts)[name], now) && deleteFails
      ensures r.RunAgainAt? <==> name in old(accounts) && old(accounts)[name].ttl.Some? && !Expired(old(accounts)[name], now)
      ensures r.RunAgainAt? ==> r.at == old(accounts)[name].created + old(accounts)[name].ttl.value + 10_000_000_000
                                && now < r.at && Expired(old(accounts)[name], r.at)
    {
      if name !in accounts {
        return Finished;
      }
      var a := accounts[name];
      if a.ttl.Some? {
        if Expired(a, now) {
          if deleteFails {
            return DeleteFailed;
          }
          accounts := accounts - {name};
          return Finished;
        }
        var expiry := a.created + a.ttl.value;
        var requeueAfter := expiry - now + EXPIRY_DELAY;
        return RunAgainAt(now + requeueAfter);
      }
      return Finished;
    }
  }
}
