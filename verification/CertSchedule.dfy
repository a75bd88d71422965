/** The root CA's reconciler on its own schedule, together with the server certificate: each success asks to be woken 30
    seconds after the renewal time of the pair that it returned, and a run completes at most `d` after it was due. */
module CertSchedule {
  import opened Wrappers
  import opened Cluster
  import opened Certs
  import CertRenewal
  import opened CertHierarchy

  datatype State = State(pki: Pki, due: Time)

  /** How long after the stored certificate's renewal time the wake-up may be: the delay, and the fraction of a second
      that the pair in memory has and the stored one has not. */
  const WAKE: Duration := 30 * SECOND + SECOND - 1

  /** Root reads and the server Secret's own may be stale; the CA that issues is the stored one. */
  predicate Happens(d: Duration, s: State, a: Step) {
    && Possible(s.pki, a)
    && match a
       case Wait(now) => now <= s.due + d
       case RenewRoot(_, _, _, _, _) => true
       case RenewServer(_, ca, _, _, _, _, _) => ca == |s.pki.root| - 1
       case ReplaceRoot(_) => false
  }

  function RootOutcome(s: State, a: Step): Outcome
    requires a.RenewRoot? && Possible(s.pki, a)
  {
    Renew(CertRenewal.Stored(s.pki.root), CertRenewal.Copy(s.pki.root, a.copy), RootRequest(a), s.pki.now, a.key,
          |s.pki.root| + 1, a.f)
  }

  function After(s: State, a: Step): State
    requires Possible(s.pki, a)
  {
    State(Do(s.pki, a),
          if a.RenewRoot? && RootPair(RootOutcome(s, a)).Some?
          then s.pki.now + RootDelay(RootPair(RootOutcome(s, a)).value, s.pki.now) else s.due)
  }

  // ----- The invariant -----

  /** The root's versions as a run of renewals without any schedule. */
  function RootRun(s: State): CertRenewal.State {
    CertRenewal.State(s.pki.now, None, s.pki.root)
  }

  function RootCert(s: State): Certificate
    requires s.pki.root != [] && CertRenewal.Inv(CA_TTL, RootRun(s))
  {
    CertRenewal.CertOf(s.pki.root[|s.pki.root| - 1])
  }

  predicate SInv(d: Duration, s: State) {
    && CertRenewal.Inv(CA_TTL, RootRun(s)) && CertRenewal.AllReadable(s.pki.root)
    && s.pki.now <= s.due + d
    && (if s.pki.root == [] then s.due <= s.pki.now else s.due <= NextRenewal(RootCert(s)) + WAKE)
  }

  function CallOf(a: Step): CertRenewal.Action
    requires a.RenewRoot?
  {
    CertRenewal.Call(a.copy, RootRequest(a), a.key, a.f)
  }

  /** The step as a call of the renewal run. */
  lemma RootIsCall(d: Duration, s: State, a: Step)
    requires SInv(d, s) && Happens(d, s, a) && a.RenewRoot?
    ensures CertRenewal.Enabled(CA_TTL, RootRun(s), CallOf(a))
    ensures CertRenewal.CallOutcome(RootRun(s), CallOf(a)) == RootOutcome(s, a)
    ensures CertRenewal.Apply(CA_TTL, RootRun(s), CallOf(a)).versions == After(s, a).pki.root
  {
  }

  lemma RootStays(d: Duration, s: State, a: Step)
    requires SInv(d, s) && Happens(d, s, a) && a.RenewRoot?
    ensures CertRenewal.Inv(CA_TTL, RootRun(After(s, a))) && CertRenewal.AllReadable(After(s, a).pki.root)
  {
    RootIsCall(d, s, a);
    CertRenewal.StepKeepsInv(CA_TTL, RootRun(s), CallOf(a));
    CertRenewal.Forget(CA_TTL, CertRenewal.Apply(CA_TTL, RootRun(s), CallOf(a)));
  }

  lemma RootKeepsRun(d: Duration, s: State, a: Step)
    requires SInv(d, s) && Happens(d, s, a) && a.RenewRoot?
    ensures CertRenewal.Inv(CA_TTL, RootRun(After(s, a))) && CertRenewal.AllReadable(After(s, a).pki.root)
    ensures s.pki.root != [] ==>
              After(s, a).pki.root != [] && NextRenewal(RootCert(s)) <= NextRenewal(RootCert(After(s, a)))
  {
    RootStays(d, s, a);
    RootIsCall(d, s, a);
    if s.pki.root != [] {
      CertRenewal.CallOrder(CA_TTL, RootRun(s), CallOf(a));
    }
  }

  /** Managed by the operator alone, the root Secret is never one that is merely tolerated. */
  lemma SuccessIsWithoutError(d: Duration, s: State, a: Step)
    requires SInv(d, s) && Happens(d, s, a) && a.RenewRoot?
    ensures RootPair(RootOutcome(s, a)).Some? <==> RootOutcome(s, a).error.None?
  {
    RootIsCall(d, s, a);
    if RootOutcome(s, a).error.None? {
      CertRenewal.ReturnedPair(CA_TTL, RootRun(s), CallOf(a));
    }
  }

  lemma RootSucceeds(d: Duration, s: State, a: Step)
    requires d >= 0 && SInv(d, s) && Happens(d, s, a) && a.RenewRoot? && RootOutcome(s, a).error.None?
    ensures SInv(d, After(s, a))
  {
    RootKeepsRun(d, s, a);
    RootIsCall(d, s, a);
    SuccessIsWithoutError(d, s, a);
    CertRenewal.ReturnedPair(CA_TTL, RootRun(s), CallOf(a));
  }

  lemma RootFails(d: Duration, s: State, a: Step)
    requires d >= 0 && SInv(d, s) && Happens(d, s, a) && a.RenewRoot? && RootOutcome(s, a).error.Some?
    ensures SInv(d, After(s, a))
  {
    RootKeepsRun(d, s, a);
    SuccessIsWithoutError(d, s, a);
    if s.pki.root == [] && After(s, a).pki.root != [] {
      RootIsCall(d, s, a);
      CertRenewal.FirstVersion(CA_TTL, RootRun(s), CallOf(a));
    }
  }

  lemma StepKeepsInv(d: Duration, s: State, a: Step)
    requires d >= 0 && SInv(d, s) && Happens(d, s, a)
    ensures SInv(d, After(s, a))
  {
    if a.RenewRoot? {
      if RootOutcome(s, a).error.None? {
        RootSucceeds(d, s, a);
      } else {
        RootFails(d, s, a);
      }
    } else if a.Wait? {
      CertRenewal.TickKeepsInv(CA_TTL, RootRun(s), a.now);
    }
  }

  /** From a cluster without the Secrets, with the first run due. */
  predicate IsSchedule(d: Duration, tr: seq<State>, steps: seq<Step>) {
    && |tr| == |steps| + 1
    && tr[0].pki.root == [] && tr[0].pki.server == [] && tr[0].due <= tr[0].pki.now <= tr[0].due + d
    && forall i :: 0 <= i < |steps| ==> Happens(d, tr[i], steps[i]) && tr[i + 1] == After(tr[i], steps[i])
  }

  lemma {:induction false} ReachableInv(d: Duration, tr: seq<State>, steps: seq<Step>, i: nat)
    requires d >= 0 && IsSchedule(d, tr, steps) && i < |tr|
    ensures SInv(d, tr[i])
  {
    if i > 0 {
      ReachableInv(d, tr, steps, i - 1);
      StepKeepsInv(d, tr[i - 1], steps[i - 1]);
    }
  }

  // ----- What the schedule achieves -----

  /** On its own schedule, with stale reads and lost writes, the root CA is valid at every instant from its creation on,
      if the wake-up and the lateness fit into the quarter of its lifetime that is left at its renewal time. */
  lemma RootNeverExpires(d: Duration, tr: seq<State>, steps: seq<Step>, i: nat)
    requires d >= 0 && IsSchedule(d, tr, steps) && i < |tr| && tr[i].pki.root != []
    requires WAKE + d <= CA_TTL / 4
    ensures var root := tr[i].pki.root[|tr[i].pki.root| - 1];
            Readable(root) && RootCACert(Some(root)).Some?
            && var c := RootCACert(Some(root)).value.cert; c.notBefore <= tr[i].pki.now <= c.notAfter
  {
    ReachableInv(d, tr, steps, i);
    RenewalAtThreeQuarters(RootCert(tr[i]));
  }

  /** The stored root CA is always in time to issue server certificates. */
  lemma RootIsTimely(d: Duration, s: State)
    requires d >= 0 && SInv(d, s) && s.pki.root != [] && WAKE + d <= SLACK
    ensures Timely(RootCert(s), s.pki.now)
  {
  }

  function Pkis(tr: seq<State>): (r: seq<Pki>)
    ensures |r| == |tr| && forall i :: 0 <= i < |r| ==> r[i] == tr[i].pki
  {
    seq(|tr|, i requires 0 <= i < |tr| => tr[i].pki)
  }

  /** So a schedule is a run of the hierarchy, whose proviso it discharges. */
  lemma ScheduleIsRun(d: Duration, tr: seq<State>, steps: seq<Step>)
    requires d >= 0 && IsSchedule(d, tr, steps) && WAKE + d <= SLACK
    ensures IsRun(Pkis(tr), steps)
  {
    var pkis := Pkis(tr);
    forall i | 0 <= i < |steps|
      ensures Can(pkis[i], steps[i]) && pkis[i + 1] == Do(pkis[i], steps[i])
    {
      ReachableInv(d, tr, steps, i);
      if steps[i].RenewServer? {
        RootIsTimely(d, tr[i]);
      }
    }
  }

  /** End to end: with lateness that leaves room for a server certificate's lifetime, in every state the certificate shown
      beside the server certificate is its actual signer's, that signer is a CA, and the server certificate does not end
      after it, without any further proviso. */
  lemma ServerCertificateIsBacked(d: Duration, tr: seq<State>, steps: seq<Step>, i: nat)
    requires d >= 0 && IsSchedule(d, tr, steps) && WAKE + d <= SLACK && i < |tr| && tr[i].pki.server != []
    ensures var s := tr[i].pki.server[|tr[i].pki.server| - 1];
            && s.data.Some? && Backed(s.data.value)
            && var c, ca := At(s.data.value, TlsCrt).cert, At(s.data.value, CaCrt).cert;
               ca.isCA && c.notAfter <= ca.notAfter
  {
    var pkis := Pkis(tr);
    ScheduleIsRun(d, tr, steps);
    ReachableOk(pkis, steps, i);
    var s := pkis[i].server[|pkis[i].server| - 1];
    assert Issued(pkis[i].root, s);
    var j :| 0 <= j < |pkis[i].root| && IssuedFrom(pkis[i].root[j], CertFromMap(s.data).value);
    assert forall k :: 0 <= k < |steps| ==> Happens(d, tr[k], steps[k]);
    OperatorRoots(pkis, steps, i, j);
  }
}
