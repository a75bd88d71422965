/** Registry accounts, their password hashes and their expiry. */
module Accounts {
  import opened Wrappers
  import opened Cluster

  /** A salted hash, kept symbolic: it can be compared with a password, and that is all. */
  datatype Hashed = Bcrypt(salt: nat, password: string)

  predicate MatchPassword(h: Hashed, passwd: string) {
    h.password == passwd
  }

  type Labels = map<string, seq<string>>

  /** An ImageRegistryAccount; `uid` tells apart two accounts that bear one name at different times, `owner` is the label
      that points back to the resource it was made for, and `labels` is what a login with it is granted. */
  datatype Account = Account(
    uid: nat, created: Time, password: Hashed, labels: Labels, ttl: Option<Duration>, owner: string)

  datatype Key = Key(ns: string, name: string)

  predicate Expired(a: Account, now: Time) {
    a.ttl.Some? && now > a.created + a.ttl.value
  }
}
