/** What holds over whole histories of the rotation protocol. */
module RotationSafety {
  import opened Wrappers
  import opened Cluster
  import opened Accounts
  import opened ImageSecret
  import opened RotationProtocol

  /** A history: `acts[i]` leads from `tr[i]` to `tr[i + 1]`. */
  ghost predicate IsHistory(cfg: Config, tr: seq<State>, acts: seq<Action>) {
    && |tr| == |acts| + 1 && Init(tr[0])
    && forall i :: 0 <= i < |acts| ==> Enabled(cfg, tr[i], acts[i]) && tr[i + 1] == Apply(cfg, tr[i], acts[i])
  }

  lemma {:induction false} ReachableInv(cfg: Config, tr: seq<State>, acts: seq<Action>, i: nat)
    requires ValidConfig(cfg) && IsHistory(cfg, tr, acts) && i < |tr|
    ensures Inv(cfg, tr[i])
  {
    if i > 0 {
      ReachableInv(cfg, tr, acts, i - 1);
      StepKeepsInv(cfg, tr[i - 1], acts[i - 1]);
    }
  }

  // ----- Single steps -----

  lemma PutStatusRotation(s: State, inst: Cr, f: Fault)
    requires StatusWriteOk(s, inst)
    ensures var db := PutStatus(s.db, inst, f).0;
            db.cr.rotation == s.db.cr.rotation || db.cr.rotation == s.db.cr.rotation + 1
  {
  }

  /** The stored rotation stays or grows by one, and every growth is logged as a claim. */
  lemma RotationStep(cfg: Config, s: State, a: Action)
    requires Inv(cfg, s) && Enabled(cfg, s, a)
    ensures var s' := Apply(cfg, s, a);
            || (s'.db.cr.rotation == s.db.cr.rotation && s'.hist.claims == s.hist.claims)
            || (s'.db.cr.rotation == s.db.cr.rotation + 1 && s'.hist.claims == s.hist.claims + [s'.db.cr.rotation])
  {
    match a
    case ClaimNext(id, f) =>
      var run := s.runs[id];
      assert RunOk(s, run);
      PutStatusRotation(s, run.inst.(rotation := run.inst.rotation + 1, registryNs := run.reg.ns), f);
    case WriteStatus(id, msg, f) =>
      var run := s.runs[id];
      assert RunOk(s, run);
      var c := Condition(run.status, run.reason, msg);
      PutStatusRotation(s, run.inst.(conditions := run.inst.conditions[run.cond := c], observedGeneration := run.inst.generation), f);
    case _ =>
  }

  /** The step creates the account of rotation `k`. */
  ghost predicate Creates(cfg: Config, s: State, a: Action, k: int) {
    && Enabled(cfg, s, a) && a.WriteAccount? && s.runs[a.id].inst.rotation == k
    && Apply(cfg, s, a).db.accounts != s.db.accounts
  }

  /** Accounts are immutable: whatever one step leaves in place is unchanged. A created one is new and recorded. */
  lemma AccountStep(cfg: Config, s: State, a: Action)
    requires Inv(cfg, s) && Enabled(cfg, s, a)
    ensures var s' := Apply(cfg, s, a);
            && (forall k :: k in s.db.accounts && k in s'.db.accounts ==> s'.db.accounts[k] == s.db.accounts[k])
            && (forall k :: k in s.hist.created ==> k in s'.hist.created && s'.hist.created[k] == s.hist.created[k])
    ensures forall k :: Creates(cfg, s, a, k) ==> k !in s.hist.created && k in Apply(cfg, s, a).hist.created
  {
    if a.WriteAccount? {
      assert RunOk(s, s.runs[a.id]);
    }
  }

  predicate Recorded(s: State, k: int, c: Creation) {
    k in s.hist.created && s.hist.created[k] == c
  }

  lemma RecordStays(cfg: Config, s: State, a: Action, k: int, c: Creation)
    requires Inv(cfg, s) && Enabled(cfg, s, a) && Recorded(s, k, c)
    ensures Recorded(Apply(cfg, s, a), k, c)
  {
    AccountStep(cfg, s, a);
  }

  // ----- Histories -----

  lemma RotationGrows(cfg: Config, s: State, a: Action)
    requires Inv(cfg, s) && Enabled(cfg, s, a)
    ensures s.db.cr.rotation <= Apply(cfg, s, a).db.cr.rotation
  {
    RotationStep(cfg, s, a);
  }

  lemma RotationNeverDecreases(cfg: Config, tr: seq<State>, acts: seq<Action>, i: nat, j: nat)
    requires ValidConfig(cfg) && IsHistory(cfg, tr, acts) && i <= j < |tr|
    ensures tr[i].db.cr.rotation <= tr[j].db.cr.rotation
  {
    var rotations := seq(|tr|, k requires 0 <= k < |tr| => tr[k].db.cr.rotation);
    forall k | 0 <= k < |acts|
      ensures rotations[k] <= rotations[k + 1]
    {
      RotationGrowsAt(cfg, tr, acts, k);
    }
    NeverDecreases(rotations, i, j);
  }

  lemma RotationGrowsAt(cfg: Config, tr: seq<State>, acts: seq<Action>, i: nat)
    requires ValidConfig(cfg) && IsHistory(cfg, tr, acts) && i < |acts|
    ensures tr[i].db.cr.rotation <= tr[i + 1].db.cr.rotation
  {
    ReachableInv(cfg, tr, acts, i);
    RotationGrows(cfg, tr[i], acts[i]);
  }

  /** Every rotation value is claimed by at most one status write, acknowledged or not. */
  lemma ClaimedOnce(cfg: Config, tr: seq<State>, acts: seq<Action>, i: nat, j: nat)
    requires ValidConfig(cfg) && IsHistory(cfg, tr, acts) && i < j < |acts|
    requires tr[i + 1].db.cr.rotation != tr[i].db.cr.rotation
    requires tr[j + 1].db.cr.rotation != tr[j].db.cr.rotation
    ensures tr[i + 1].db.cr.rotation != tr[j + 1].db.cr.rotation
  {
    RotationNeverDecreases(cfg, tr, acts, i + 1, j);
    ReachableInv(cfg, tr, acts, j);
    RotationStep(cfg, tr[j], acts[j]);
  }

  lemma {:induction false} CreatedStays(cfg: Config, tr: seq<State>, acts: seq<Action>, i: nat, j: nat, k: int, c: Creation)
    requires ValidConfig(cfg) && IsHistory(cfg, tr, acts) && i <= j < |tr| && Recorded(tr[i], k, c)
    ensures Recorded(tr[j], k, c)
  {
    if i < j {
      CreatedStays(cfg, tr, acts, i, j - 1, k, c);
      ReachableInv(cfg, tr, acts, j - 1);
      RecordStays(cfg, tr[j - 1], acts[j - 1], k, c);
    }
  }

  /** The account of one rotation is created at most once, by whichever run and in whichever namespace. */
  lemma CreatedOnce(cfg: Config, tr: seq<State>, acts: seq<Action>, i: nat, j: nat, k: int)
    requires ValidConfig(cfg) && IsHistory(cfg, tr, acts) && i < j < |acts|
    ensures !(Creates(cfg, tr[i], acts[i], k) && Creates(cfg, tr[j], acts[j], k))
  {
    if Creates(cfg, tr[i], acts[i], k) {
      ReachableInv(cfg, tr, acts, i);
      AccountStep(cfg, tr[i], acts[i]);
      CreatedStays(cfg, tr, acts, i + 1, j, k, tr[i + 1].hist.created[k]);
      ReachableInv(cfg, tr, acts, j);
      AccountStep(cfg, tr[j], acts[j]);
    }
  }

  /** Every account a run created has an index of at most the stored rotation, and the account of the
      current index was created in the registry namespace that the status names. */
  lemma CreatedAccounts(cfg: Config, tr: seq<State>, acts: seq<Action>, i: nat, j: nat, k: int)
    requires ValidConfig(cfg) && IsHistory(cfg, tr, acts) && i < |acts| && i < j < |tr|
    requires Creates(cfg, tr[i], acts[i], k)
    ensures k <= tr[j].db.cr.rotation
    ensures k == tr[j].db.cr.rotation ==> tr[i].runs[acts[i].id].reg.ns == tr[j].db.cr.registryNs
  {
    ReachableInv(cfg, tr, acts, i);
    AccountStep(cfg, tr[i], acts[i]);
    assert tr[i + 1].hist.created[k].reg.ns == tr[i].runs[acts[i].id].reg.ns;
    CreatedStays(cfg, tr, acts, i + 1, j, k, tr[i + 1].hist.created[k]);
    ReachableInv(cfg, tr, acts, j);
  }

  /** At every instant a Secret annotated k was written for the account that a run created for rotation k: if that
      account exists, the Secret has its name and a password that its hash matches. */
  lemma SecretAgreesWithAccount(cfg: Config, tr: seq<State>, acts: seq<Action>, i: nat, k: int)
    requires ValidConfig(cfg) && IsHistory(cfg, tr, acts) && i < |tr|
    requires tr[i].db.secret.Some? && tr[i].db.secret.value.mark == Some(k)
    ensures var d := tr[i].db.secret.value.data;
            && k <= tr[i].db.cr.rotation
            && k in tr[i].hist.created
            && d.username == cfg.nameOf(k)
            && d.dockerConfig == DockerAuth(d.registry, d.username, d.password)
            && (var key := Key(tr[i].hist.created[k].reg.ns, cfg.nameOf(k));
                key in tr[i].db.accounts ==>
                  && MatchPassword(tr[i].db.accounts[key].password, d.password) && tr[i].db.accounts[key].ttl == Some(cfg.ttl)
                  && tr[i].db.accounts[key].labels == cfg.labels && tr[i].db.accounts[key].owner == cfg.owner)
    ensures k == tr[i].db.cr.rotation ==> tr[i].hist.created[k].reg.ns == tr[i].db.cr.registryNs
  {
    ReachableInv(cfg, tr, acts, i);
  }

  // ----- Annotations of one Secret object -----

  ghost predicate Annotates(cfg: Config, s: State, a: Action) {
    Enabled(cfg, s, a) && a.WriteSecret? && Apply(cfg, s, a).db.secret != s.db.secret
  }

  /** The Secret object `uid` either still exists, with the annotations it had so far, or will never exist again. */
  predicate KeepsObject(uid: nat, marks: seq<int>, s: State) {
    if s.db.secret.Some? && s.db.secret.value.uid == uid then marks <= s.hist.marks else uid <= s.db.rev
  }

  lemma MarksStep(cfg: Config, s: State, a: Action, uid: nat, marks: seq<int>)
    requires Inv(cfg, s) && Enabled(cfg, s, a) && KeepsObject(uid, marks, s)
    ensures KeepsObject(uid, marks, Apply(cfg, s, a))
  {
    if a.WriteSecret? {
      MarksWritten(cfg, s, a, uid, marks);
    } else {
      MarksLeft(cfg, s, a, uid, marks);
    }
  }

  lemma MarksWritten(cfg: Config, s: State, a: Action, uid: nat, marks: seq<int>)
    requires Inv(cfg, s) && Enabled(cfg, s, a) && KeepsObject(uid, marks, s) && a.WriteSecret?
    ensures KeepsObject(uid, marks, Apply(cfg, s, a))
  {
    assert RunOk(s, s.runs[a.id]);
  }

  lemma MarksLeft(cfg: Config, s: State, a: Action, uid: nat, marks: seq<int>)
    requires VersionsOk(s.db) && Enabled(cfg, s, a) && KeepsObject(uid, marks, s) && !a.WriteSecret?
    ensures KeepsObject(uid, marks, Apply(cfg, s, a))
  {
  }

  lemma {:induction false} MarksKept(cfg: Config, tr: seq<State>, acts: seq<Action>, i: nat, j: nat)
    requires ValidConfig(cfg) && IsHistory(cfg, tr, acts) && i <= j < |tr|
    requires tr[i].db.secret.Some?
    ensures KeepsObject(tr[i].db.secret.value.uid, tr[i].hist.marks, tr[j])
  {
    if i < j {
      MarksKept(cfg, tr, acts, i, j - 1);
      ReachableInv(cfg, tr, acts, j - 1);
      MarksStep(cfg, tr[j - 1], acts[j - 1], tr[i].db.secret.value.uid, tr[i].hist.marks);
    }
  }

  lemma AnnotationLogged(cfg: Config, s: State, a: Action)
    requires Inv(cfg, s) && Annotates(cfg, s, a)
    ensures var s' := Apply(cfg, s, a);
            && s'.db.secret.Some? && s'.db.secret.value.mark.Some? && s'.hist.marks != []
            && s'.hist.marks[|s'.hist.marks| - 1] == s'.db.secret.value.mark.value
            && (s.db.secret.Some? ==> s'.db.secret.value.uid == s.db.secret.value.uid
                                      && s'.hist.marks == s.hist.marks + [s'.db.secret.value.mark.value])
  {
    assert RunOk(s, s.runs[a.id]);
  }

  /** What an annotating step of a history logs. */
  lemma LoggedLast(cfg: Config, tr: seq<State>, acts: seq<Action>, i: nat)
    requires ValidConfig(cfg) && IsHistory(cfg, tr, acts) && i < |acts| && Annotates(cfg, tr[i], acts[i])
    ensures var s, s' := tr[i], tr[i + 1];
            && s'.db.secret.Some? && s'.db.secret.value.mark.Some? && s'.hist.marks != []
            && s'.hist.marks[|s'.hist.marks| - 1] == s'.db.secret.value.mark.value
            && StrictlyIncreasing(s'.hist.marks)
            && if s.db.secret.Some?
               then s'.db.secret.value.uid == s.db.secret.value.uid && |s.hist.marks| < |s'.hist.marks| && s.hist.marks <= s'.hist.marks
               else s'.db.secret.value.uid > s.db.rev
  {
    ReachableInv(cfg, tr, acts, i);
    ReachableInv(cfg, tr, acts, i + 1);
    AnnotationLogged(cfg, tr[i], acts[i]);
    if tr[i].db.secret.None? {
      assert RunOk(tr[i], tr[i].runs[acts[i].id]);
    }
  }

  /** The annotations written to one Secret object are strictly increasing, even when runs race. */
  lemma AnnotationsIncrease(cfg: Config, tr: seq<State>, acts: seq<Action>, i: nat, j: nat)
    requires ValidConfig(cfg) && IsHistory(cfg, tr, acts) && i < j < |acts|
    requires Annotates(cfg, tr[i], acts[i]) && Annotates(cfg, tr[j], acts[j])
    requires tr[i + 1].db.secret.Some? && tr[j + 1].db.secret.Some?
    requires tr[i + 1].db.secret.value.uid == tr[j + 1].db.secret.value.uid
    ensures tr[i + 1].db.secret.value.mark.Some? && tr[j + 1].db.secret.value.mark.Some?
    ensures tr[i + 1].db.secret.value.mark.value < tr[j + 1].db.secret.value.mark.value
  {
    LoggedLast(cfg, tr, acts, i);
    LoggedLast(cfg, tr, acts, j);
    MarksKept(cfg, tr, acts, i + 1, j);
    var before, after := tr[i + 1].hist.marks, tr[j + 1].hist.marks;
    assert after[|before| - 1] == before[|before| - 1];
  }
}
