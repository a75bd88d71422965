/** Runs of renewal calls on one Secret, with stale reads and failing writes. */
module CertRenewal {
  import opened Wrappers
  import opened Cluster
  import opened Certs

  /** All versions of the Secret, the last of which is stored, and the time of the last successful call. */
  datatype State = State(now: Time, lastOk: Option<Time>, versions: seq<CertSecret>)

  /** `copy` is the version that the call reads, if any. */
  datatype Action = Tick(now: Time) | Call(copy: Option<nat>, request: Request, key: Key, f: Fault)

  function Stored(vs: seq<CertSecret>): Option<CertSecret> {
    if vs == [] then None else Some(vs[|vs| - 1])
  }

  function Copy(vs: seq<CertSecret>, i: Option<nat>): Option<CertSecret>
    requires i.Some? ==> i.value < |vs|
  {
    if i.None? then None else Some(vs[i.value])
  }

  /** Calls may come at any time, but a successful one is followed by another within a quarter of the lifetime. */
  predicate Enabled(ttl: int, s: State, a: Action) {
    match a
    case Tick(now) => now >= s.now && (s.lastOk.Some? ==> now <= s.lastOk.value + ttl / 4)
    case Call(copy, r, _, _) => (copy.Some? ==> copy.value < |s.versions|) && ValidRequest(r) && Ttl(r.kind) == ttl
  }

  predicate AllReadable(vs: seq<CertSecret>) {
    forall i :: 0 <= i < |vs| ==> Readable(vs[i])
  }

  function CallOutcome(s: State, a: Action): Outcome
    requires a.Call? && (a.copy.Some? ==> a.copy.value < |s.versions|) && ValidRequest(a.request) && AllReadable(s.versions)
  {
    Renew(Stored(s.versions), Copy(s.versions, a.copy), a.request, s.now, a.key, |s.versions| + 1, a.f)
  }

  function Apply(ttl: int, s: State, a: Action): State
    requires Enabled(ttl, s, a) && AllReadable(s.versions)
  {
    match a
    case Tick(now) => s.(now := now)
    case Call(_, _, _, _) =>
      var out := CallOutcome(s, a);
      State(s.now, if out.error.None? then Some(s.now) else s.lastOk,
            if out.stored == Stored(s.versions) then s.versions else s.versions + [out.stored.value])
  }

  // ----- A managed Secret from its creation on -----

  /** A version that the calls wrote: a managed pair with the full lifetime that was not due yet. */
  predicate Written(ttl: int, now: Time, s: CertSecret) {
    && Managed(s) && Readable(s) && CertFromMap(s.data).Some?
    && var c := CertFromMap(s.data).value.cert;
       c.notAfter - c.notBefore == ttl && c.notBefore <= now && c.notBefore % SECOND == 0
  }

  function CertOf(s: CertSecret): Certificate
    requires Readable(s) && CertFromMap(s.data).Some?
  {
    CertFromMap(s.data).value.cert
  }

  predicate Inv(ttl: int, s: State) {
    && (forall i :: 0 <= i < |s.versions| ==> Written(ttl, s.now, s.versions[i]) && s.versions[i].version == i + 1)
    && (forall i, j :: 0 <= i < j < |s.versions| ==>
          NextRenewal(CertOf(s.versions[i])) <= NextRenewal(CertOf(s.versions[j])))
    && (s.lastOk.Some? ==> s.versions != [] && s.lastOk.value <= NextRenewal(CertOf(s.versions[|s.versions| - 1])))
    && (s.lastOk.Some? ==> s.now <= s.lastOk.value + ttl / 4)
  }

  /** What a call that wrote leaves: the pair it read from the stored version, or one made now. */
  lemma WhatIsWritten(ttl: int, s: State, a: Action)
    requires Inv(ttl, s) && Enabled(ttl, s, a) && a.Call? && AllReadable(s.versions)
    requires CallOutcome(s, a).stored != Stored(s.versions)
    ensures var after := CallOutcome(s, a).stored;
            && after.Some? && Written(ttl, s.now, after.value) && after.value.version == |s.versions| + 1
            && NextRenewal(CertOf(after.value)) >= s.now
            && (s.versions != [] ==> NextRenewal(CertOf(s.versions[|s.versions| - 1])) <= NextRenewal(CertOf(after.value)))
  {
    var n := |s.versions|;
    if n == 0 {
      MutatedIsWritten(ttl, s.now, None, a.request, a.key);
    } else {
      assert Copy(s.versions, a.copy) == Stored(s.versions);
      MutatedIsWritten(ttl, s.now, Some(s.versions[n - 1]), a.request, a.key);
    }
  }

  lemma MutatedIsWritten(ttl: int, now: Time, read: Option<CertSecret>, r: Request, key: Key)
    requires ValidRequest(r) && Ttl(r.kind) == ttl
    requires read.Some? ==> Written(ttl, now, read.value)
    requires Mutate(read, r, now, key).Mutated?
    ensures var s := Mutate(read, r, now, key).s;
            && Written(ttl, now, s) && NextRenewal(CertOf(s)) >= now
            && (read.Some? ==> NextRenewal(CertOf(read.value)) <= NextRenewal(CertOf(s)))
  {
    var made := Make(r.kind, now, key);
    MakeFits(r.kind, now, key);
    MapRoundTrip(made, map[]);
    WholeSecondShift(now, 0);
    if read.Some? {
      Monotone(CertOf(read.value), made.blob.cert, ttl, now);
    }
  }

  /** Of two certificates with the same lifetime the one made later is due later. */
  lemma Monotone(c: Certificate, d: Certificate, ttl: int, now: Time)
    requires c.notAfter - c.notBefore == ttl && d.notAfter - d.notBefore == ttl && ttl in {CA_TTL, CERT_TTL}
    requires c.notBefore % SECOND == 0 && c.notBefore <= now && d.notBefore == WholeSecond(now)
    ensures NextRenewal(c) <= NextRenewal(d)
  {
  }

  /** A call that succeeds without writing read a version that is not due. */
  lemma SuccessWithoutWrite(ttl: int, s: State, a: Action)
    requires Inv(ttl, s) && Enabled(ttl, s, a) && a.Call? && AllReadable(s.versions)
    requires CallOutcome(s, a).stored == Stored(s.versions) && CallOutcome(s, a).error.None?
    ensures s.versions != [] && s.now <= NextRenewal(CertOf(s.versions[|s.versions| - 1]))
  {
    var read := Copy(s.versions, a.copy);
    var m := Mutate(read, a.request, s.now, a.key);
    assert read == Some(m.s);
    if CertFromMap(read.value.data) != CertFromMap(m.s.data) {
      assert false;
    }
    WrittenCopyIsNotReplaced(ttl, s.now, read.value, a.request, a.key);
    assert s.now <= NextRenewal(CertOf(s.versions[a.copy.value]));
  }

  /** Replacing the pair changes the Secret: a new certificate begins now. */
  lemma WrittenCopyIsNotReplaced(ttl: int, now: Time, s: CertSecret, r: Request, key: Key)
    requires Written(ttl, now, s) && ValidRequest(r) && Ttl(r.kind) == ttl
    requires Mutate(Some(s), r, now, key).Mutated? && Mutate(Some(s), r, now, key).s == s
    ensures now <= NextRenewal(CertOf(s))
  {
    MakeFits(r.kind, now, key);
    MapRoundTrip(Make(r.kind, now, key), map[]);
  }

  lemma AppendKeepsInv(ttl: int, s: State, v: CertSecret, ok: bool)
    requires Inv(ttl, s) && ttl >= 0
    requires Written(ttl, s.now, v) && v.version == |s.versions| + 1 && s.now <= NextRenewal(CertOf(v))
    requires s.versions != [] ==> NextRenewal(CertOf(s.versions[|s.versions| - 1])) <= NextRenewal(CertOf(v))
    ensures Inv(ttl, State(s.now, if ok then Some(s.now) else s.lastOk, s.versions + [v]))
  {
    var n := |s.versions|;
    forall i | 0 <= i < n
      ensures NextRenewal(CertOf(s.versions[i])) <= NextRenewal(CertOf(v))
    {
      assert i < n - 1 ==> NextRenewal(CertOf(s.versions[i])) <= NextRenewal(CertOf(s.versions[n - 1]));
    }
  }

  lemma TickKeepsInv(ttl: int, s: State, now: Time)
    requires Inv(ttl, s) && Enabled(ttl, s, Tick(now))
    ensures Inv(ttl, s.(now := now))
  {
  }

  lemma StepKeepsInv(ttl: int, s: State, a: Action)
    requires Inv(ttl, s) && Enabled(ttl, s, a) && AllReadable(s.versions)
    ensures Inv(ttl, Apply(ttl, s, a)) && AllReadable(Apply(ttl, s, a).versions)
  {
    if a.Tick? {
      TickKeepsInv(ttl, s, a.now);
    } else {
      CallKeepsInv(ttl, s, a);
    }
  }

  lemma CallKeepsInv(ttl: int, s: State, a: Action)
    requires Inv(ttl, s) && Enabled(ttl, s, a) && AllReadable(s.versions) && a.Call?
    ensures Inv(ttl, Apply(ttl, s, a)) && AllReadable(Apply(ttl, s, a).versions)
  {
    var out := CallOutcome(s, a);
    if out.stored != Stored(s.versions) {
      WhatIsWritten(ttl, s, a);
      AppendKeepsInv(ttl, s, out.stored.value, out.error.None?);
    } else if out.error.None? {
      SuccessWithoutWrite(ttl, s, a);
      TouchKeepsInv(ttl, s);
    } else {
      assert Apply(ttl, s, a) == s;
    }
  }

  lemma TouchKeepsInv(ttl: int, s: State)
    requires Inv(ttl, s) && ttl >= 0
    requires s.versions != [] && s.now <= NextRenewal(CertOf(s.versions[|s.versions| - 1]))
    ensures Inv(ttl, s.(lastOk := Some(s.now)))
  {
  }

  /** Without the time of the last success the schedule of successes is open. */
  lemma Forget(ttl: int, s: State)
    requires Inv(ttl, s)
    ensures Inv(ttl, s.(lastOk := None))
  {
  }

  /** The pair in hand is not due, and due less than a second after the one that the Secret is made to hold. */
  lemma PairInHand(ttl: int, now: Time, read: Option<CertSecret>, r: Request, key: Key)
    requires ValidRequest(r) && Ttl(r.kind) == ttl && (read.Some? ==> Written(ttl, now, read.value))
    requires Mutate(read, r, now, key).Mutated?
    ensures var m := Mutate(read, r, now, key);
            && Written(ttl, now, m.s) && now <= NextRenewal(m.made.cert) < NextRenewal(CertOf(m.s)) + SECOND
  {
    MutatedIsWritten(ttl, now, read, r, key);
    MakeFits(r.kind, now, key);
    MapRoundTrip(Make(r.kind, now, key), map[]);
  }

  /** A later version is due no earlier. */
  lemma CallOrder(ttl: int, s: State, a: Action)
    requires Inv(ttl, s) && Enabled(ttl, s, a) && AllReadable(s.versions) && a.Call? && s.versions != []
    ensures var vs := Apply(ttl, s, a).versions;
            && s.versions <= vs && AllReadable(vs) && CertFromMap(vs[|vs| - 1].data).Some?
            && NextRenewal(CertOf(s.versions[|s.versions| - 1])) <= NextRenewal(CertOf(vs[|vs| - 1]))
  {
    if CallOutcome(s, a).stored != Stored(s.versions) {
      WhatIsWritten(ttl, s, a);
    }
  }

  /** The first version is not due yet, whether or not the call learns that it was written. */
  lemma FirstVersion(ttl: int, s: State, a: Action)
    requires Inv(ttl, s) && Enabled(ttl, s, a) && AllReadable(s.versions) && a.Call? && s.versions == []
    requires Apply(ttl, s, a).versions != []
    ensures var v := Apply(ttl, s, a).versions[|Apply(ttl, s, a).versions| - 1];
            Readable(v) && CertFromMap(v.data).Some? && NextRenewal(CertOf(v)) >= s.now
  {
    WhatIsWritten(ttl, s, a);
  }

  /** The pair that a success returns is not due, and due less than a second after the stored one. */
  lemma ReturnedPair(ttl: int, s: State, a: Action)
    requires Inv(ttl, s) && Enabled(ttl, s, a) && AllReadable(s.versions) && a.Call? && CallOutcome(s, a).error.None?
    ensures var vs, out := Apply(ttl, s, a).versions, CallOutcome(s, a);
            && out.pair.Some? && vs != [] && AllReadable(vs) && CertFromMap(vs[|vs| - 1].data).Some?
            && s.now <= NextRenewal(out.pair.value.cert) < NextRenewal(CertOf(vs[|vs| - 1])) + SECOND
  {
    var read := Copy(s.versions, a.copy);
    PairInHand(ttl, s.now, read, a.request, a.key);
    if CallOutcome(s, a).stored == Stored(s.versions) {
      SuccessWithoutWrite(ttl, s, a);
      UnwrittenIsCopy(ttl, s, a);
    }
  }

  lemma UnwrittenIsCopy(ttl: int, s: State, a: Action)
    requires Inv(ttl, s) && Enabled(ttl, s, a) && AllReadable(s.versions) && a.Call? && CallOutcome(s, a).error.None?
    requires CallOutcome(s, a).stored == Stored(s.versions)
    ensures a.copy.Some? && Mutate(Copy(s.versions, a.copy), a.request, s.now, a.key).Mutated?
    ensures Mutate(Copy(s.versions, a.copy), a.request, s.now, a.key).s == s.versions[a.copy.value]
    ensures NextRenewal(CertOf(s.versions[a.copy.value])) <= NextRenewal(CertOf(s.versions[|s.versions| - 1]))
  {
  }

  /** A history of calls: `acts[i]` leads from `tr[i]` to `tr[i + 1]`. */
  predicate IsHistory(ttl: int, tr: seq<State>, acts: seq<Action>) {
    && |tr| == |acts| + 1
    && forall i :: 0 <= i < |acts| ==>
         Enabled(ttl, tr[i], acts[i]) && AllReadable(tr[i].versions) && tr[i + 1] == Apply(ttl, tr[i], acts[i])
  }

  lemma {:induction false} ReachableInv(ttl: int, tr: seq<State>, acts: seq<Action>, i: nat)
    requires IsHistory(ttl, tr, acts) && i < |tr| && tr[0].versions == [] && tr[0].lastOk.None?
    ensures Inv(ttl, tr[i]) && AllReadable(tr[i].versions)
  {
    if i > 0 {
      ReachableInv(ttl, tr, acts, i - 1);
      StepKeepsInv(ttl, tr[i - 1], acts[i - 1]);
    }
  }

  /** If successful calls come at most a quarter of the lifetime apart then from the first one on, at every instant, the
      stored certificate is not expired, whatever stale versions were read and whichever writes were lost in between. */
  lemma NeverExpired(ttl: int, tr: seq<State>, acts: seq<Action>, i: nat)
    requires IsHistory(ttl, tr, acts) && i < |tr| && tr[0].versions == [] && tr[0].lastOk.None?
    requires tr[i].lastOk.Some? && ttl >= 0
    ensures Stored(tr[i].versions).Some? && Readable(Stored(tr[i].versions).value)
    ensures var c := CertFromMap(Stored(tr[i].versions).value.data);
            c.Some? && c.value.cert.notBefore <= tr[i].now <= c.value.cert.notAfter
  {
    ReachableInv(ttl, tr, acts, i);
    RenewalAtThreeQuarters(CertOf(tr[i].versions[|tr[i].versions| - 1]));
  }

  /** A step changes the stored entries only if there were none, they do not parse, they were due, or not of the kind. */
  lemma KeysChangeOnlyWhenDue(ttl: int, s: State, a: Action)
    requires Enabled(ttl, s, a) && AllReadable(s.versions) && s.versions != []
    requires forall i :: 0 <= i < |s.versions| ==> s.versions[i].version == i + 1
    requires Stored(Apply(ttl, s, a).versions).value.data != Stored(s.versions).value.data
    ensures a.Call? && Managed(Stored(s.versions).value)
    ensures var pair := CertFromMap(Stored(s.versions).value.data);
            pair.None? || NeedsRenewal(pair.value.cert, s.now) || Unfit(a.request.kind, pair.value.cert)
  {
  }

  /** A Secret that is not labelled as managed stays the only version through every history of calls. */
  lemma {:induction false} UnmanagedStays(ttl: int, tr: seq<State>, acts: seq<Action>, i: nat)
    requires IsHistory(ttl, tr, acts) && i < |tr|
    requires |tr[0].versions| == 1 && !Managed(tr[0].versions[0])
    ensures tr[i].versions == tr[0].versions
  {
    if i > 0 {
      UnmanagedStays(ttl, tr, acts, i - 1);
    }
  }
}
