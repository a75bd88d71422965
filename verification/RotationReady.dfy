/** What a stored Ready means when any number of runs interleave, reads are stale and writes are lost. */
module RotationReady {
  import opened Wrappers
  import opened Cluster
  import opened Accounts
  import opened ImageSecret
  import opened RotationProtocol
  import opened RotationSafety
  import opened RotationSync

  /** A run that ends in success either found everything in order when it started, or wrote the Secret. */
  datatype Basis = Found(start: nat) | Wrote(step: nat)

  /** The step starts a run that finds nothing to do for this registry. */
  ghost predicate FindsInOrder(cfg: Config, a: Action, id: nat, reg: Registry, run: Run) {
    && a.Start? && a.id == id && a.got.registry == Some(reg)
    && !NeedsRotation(cfg, a.got.inst, reg, a.got.account, a.got.secret, a.now)
    && run == Success(a.got.inst)
  }

  /** The step writes the Secret of this run, as the run learns. */
  ghost predicate WritesSecret(cfg: Config, s: State, a: Action, id: nat, reg: Registry, run: Run) {
    && a.WriteSecret? && a.id == id && id in s.runs && s.runs[id].Stored? && s.runs[id].reg == reg
    && run == Success(s.runs[id].inst) && StoreSecret(cfg, s.db, s.runs[id], a.f).1 == run
  }

  ghost predicate IsBasis(cfg: Config, tr: seq<State>, acts: seq<Action>, i: nat, id: nat, b: Basis, reg: Registry)
    requires i < |tr| && |tr| == |acts| + 1
  {
    && id in tr[i].runs
    && match b
       case Found(j) => j < i && FindsInOrder(cfg, acts[j], id, reg, tr[i].runs[id])
       case Wrote(m) => m < i && WritesSecret(cfg, tr[m], acts[m], id, reg, tr[i].runs[id])
  }

  ghost predicate HasBasis(cfg: Config, tr: seq<State>, acts: seq<Action>, i: nat, id: nat)
    requires i < |tr| && |tr| == |acts| + 1
  {
    exists b, reg :: IsBasis(cfg, tr, acts, i, id, b, reg)
  }

  /** A step leaves a successful run alone or is its basis. */
  lemma SuccessStep(cfg: Config, s: State, a: Action, id: nat)
    requires Enabled(cfg, s, a)
    requires id in Apply(cfg, s, a).runs && Apply(cfg, s, a).runs[id].Reporting? && Apply(cfg, s, a).runs[id].status
    ensures var run := Apply(cfg, s, a).runs[id];
            || (id in s.runs && s.runs[id] == run)
            || (exists reg :: FindsInOrder(cfg, a, id, reg, run))
            || (exists reg :: WritesSecret(cfg, s, a, id, reg, run))
  {
    match a
    case Start(i, got, _, _) =>
      if i == id {
        assert FindsInOrder(cfg, a, id, got.registry.value, Apply(cfg, s, a).runs[id]);
      }
    case WriteSecret(i, _) =>
      if i == id {
        assert WritesSecret(cfg, s, a, id, s.runs[id].reg, Apply(cfg, s, a).runs[id]);
      }
    case _ =>
  }

  /** Every successful run of a history has a basis. */
  lemma {:induction false} SuccessHasBasis(cfg: Config, tr: seq<State>, acts: seq<Action>, i: nat, id: nat)
    requires IsHistory(cfg, tr, acts) && i < |tr|
    requires id in tr[i].runs && tr[i].runs[id].Reporting? && tr[i].runs[id].status
    ensures HasBasis(cfg, tr, acts, i, id)
  {
    var s, a := tr[i - 1], acts[i - 1];
    SuccessStep(cfg, s, a, id);
    var run := tr[i].runs[id];
    if id in s.runs && s.runs[id] == run {
      SuccessHasBasis(cfg, tr, acts, i - 1, id);
      var b, reg :| IsBasis(cfg, tr, acts, i - 1, id, b, reg);
      assert IsBasis(cfg, tr, acts, i, id, b, reg);
    } else if reg :| FindsInOrder(cfg, a, id, reg, run) {
      assert IsBasis(cfg, tr, acts, i, id, Found(i - 1), reg);
    } else {
      var reg :| WritesSecret(cfg, s, a, id, reg, run);
      assert IsBasis(cfg, tr, acts, i, id, Wrote(i - 1), reg);
    }
  }

  // ----- The status does not change without its version -----

  predicate StatusMoves(before: Cr, after: Cr) {
    && before.version <= after.version && before.rotation <= after.rotation
    && (before.version == after.version ==>
          before.rotation == after.rotation && before.registryNs == after.registryNs)
  }

  lemma StatusStep(cfg: Config, s: State, a: Action)
    requires Inv(cfg, s) && Enabled(cfg, s, a)
    ensures StatusMoves(s.db.cr, Apply(cfg, s, a).db.cr)
  {
    RotationStep(cfg, s, a);
  }

  lemma {:induction false} StatusMovesOn(cfg: Config, tr: seq<State>, acts: seq<Action>, i: nat, j: nat)
    requires ValidConfig(cfg) && IsHistory(cfg, tr, acts) && i <= j < |tr|
    ensures StatusMoves(tr[i].db.cr, tr[j].db.cr)
  {
    if i < j {
      StatusMovesOn(cfg, tr, acts, i, j - 1);
      ReachableInv(cfg, tr, acts, j - 1);
      StatusStep(cfg, tr[j - 1], acts[j - 1]);
    }
  }

  // ----- The Secret of the stored rotation stays unless outsiders touch it -----

  predicate Undisturbed(acts: seq<Action>, i: nat, j: nat)
    requires i <= j <= |acts|
  {
    forall k :: i <= k < j ==> !TouchesSecret(acts[k])
  }

  predicate BearsMark(s: State, r: int) {
    s.db.secret.Some? && s.db.secret.value.mark == Some(r)
  }

  /** No run overwrites a Secret that bears the stored rotation. */
  lemma SecretStep(cfg: Config, s: State, a: Action, r: int)
    requires ValidConfig(cfg) && Inv(cfg, s) && Enabled(cfg, s, a) && !TouchesSecret(a)
    requires BearsMark(s, r) && Apply(cfg, s, a).db.cr.rotation == r
    ensures Apply(cfg, s, a).db.secret == s.db.secret
  {
    if Annotates(cfg, s, a) {
      AnnotationLogged(cfg, s, a);
      StepKeepsInv(cfg, s, a);
      assert false;
    }
  }

  /** The rotation was the same all the way from a Secret that bears it. */
  lemma RotationHeld(cfg: Config, tr: seq<State>, acts: seq<Action>, i: nat, j: nat, r: int)
    requires ValidConfig(cfg) && IsHistory(cfg, tr, acts) && i <= j < |tr|
    requires BearsMark(tr[i], r) && tr[j].db.cr.rotation <= r
    ensures tr[j].db.cr.rotation == r
  {
    ReachableInv(cfg, tr, acts, i);
    MarkAtMostRotation(cfg, tr[i], r);
    RotationNeverDecreases(cfg, tr, acts, i, j);
  }

  lemma MarkAtMostRotation(cfg: Config, s: State, r: int)
    requires Inv(cfg, s) && BearsMark(s, r)
    ensures r <= s.db.cr.rotation
  {
    assert s.hist.marks[|s.hist.marks| - 1] == r;
  }

  lemma {:induction false} KeptBySteps(tr: seq<State>, i: nat, j: nat, r: int)
    requires i <= j < |tr| && BearsMark(tr[i], r)
    requires forall k :: i <= k < j && BearsMark(tr[k], r) ==> tr[k + 1].db.secret == tr[k].db.secret
    ensures tr[j].db.secret == tr[i].db.secret
  {
    if i < j {
      KeptBySteps(tr, i, j - 1, r);
    }
  }

  lemma SecretKept(cfg: Config, tr: seq<State>, acts: seq<Action>, i: nat, j: nat, r: int)
    requires ValidConfig(cfg) && IsHistory(cfg, tr, acts) && i <= j < |tr| && Undisturbed(acts, i, j)
    requires BearsMark(tr[i], r) && tr[j].db.cr.rotation == r
    ensures tr[j].db.secret == tr[i].db.secret
  {
    forall k | i <= k < j && BearsMark(tr[k], r)
      ensures tr[k + 1].db.secret == tr[k].db.secret
    {
      RotationNeverDecreases(cfg, tr, acts, k + 1, j);
      RotationHeld(cfg, tr, acts, i, k + 1, r);
      SecretKeptOnce(cfg, tr, acts, k, r);
    }
    KeptBySteps(tr, i, j, r);
  }

  lemma SecretKeptOnce(cfg: Config, tr: seq<State>, acts: seq<Action>, i: nat, r: int)
    requires ValidConfig(cfg) && IsHistory(cfg, tr, acts) && i < |acts| && !TouchesSecret(acts[i])
    requires BearsMark(tr[i], r) && tr[i + 1].db.cr.rotation == r
    ensures tr[i + 1].db.secret == tr[i].db.secret
  {
    ReachableInv(cfg, tr, acts, i);
    SecretStep(cfg, tr[i], acts[i], r);
  }

  // ----- Ready means in sync -----

  predicate IsReady(cr: Cr) {
    Ready in cr.conditions && cr.conditions[Ready].status
  }

  /** The step is a run's status write that reports success and takes effect, whether the run learns it or not. */
  ghost predicate StoresReady(tr: seq<State>, acts: seq<Action>, i: nat)
    requires i < |acts| && |tr| == |acts| + 1
  {
    && acts[i].WriteStatus? && acts[i].id in tr[i].runs
    && tr[i].runs[acts[i].id].Reporting? && tr[i].runs[acts[i].id].status
    && tr[i + 1].db.cr.version != tr[i].db.cr.version
  }

  /** The run's success rests on the Secret of state `k`: the one that it read, of whatever age, or the one that it wrote. */
  ghost predicate RestsOn(cfg: Config, tr: seq<State>, acts: seq<Action>, i: nat, id: nat, b: Basis, reg: Registry, k: nat)
    requires i < |tr| && |tr| == |acts| + 1
  {
    && IsBasis(cfg, tr, acts, i, id, b, reg)
    && match b
       case Found(j) => k <= j && acts[j].got.secret == tr[k].db.secret
       case Wrote(m) => k == m + 1
  }

  /** Secret, stored rotation and registry agree, and so does the account of this rotation, if it has not been deleted. */
  predicate Agrees(cfg: Config, s: State, reg: Registry) {
    var r := s.db.cr.rotation;
    && BearsMark(s, r) && r in s.hist.created && s.hist.created[r].reg.ns == reg.ns == s.db.cr.registryNs
    && (var d := s.db.secret.value.data;
        && d.username == cfg.nameOf(r) && MatchPassword(s.hist.created[r].hash, d.password)
        && d.registry == cfg.hostOf(reg) && d.ca == reg.ca
        && d.dockerConfig == DockerAuth(cfg.hostOf(reg), d.username, d.password) && d.secretType == cfg.secretType)
    && (Key(reg.ns, cfg.nameOf(r)) in s.db.accounts ==>
          s.db.accounts[Key(reg.ns, cfg.nameOf(r))].password == s.hist.created[r].hash)
  }

  /** What the Secret that a success rests on says of the registry. */
  predicate Names(cfg: Config, s: State, r: int, reg: Registry) {
    && BearsMark(s, r) && ValidRegistry(reg)
    && s.db.secret.value.data.registry == cfg.hostOf(reg) && s.db.secret.value.data.ca == reg.ca
  }

  lemma FoundIsCurrent(cfg: Config, tr: seq<State>, acts: seq<Action>, i: nat, id: nat, j: nat, k: nat, reg: Registry)
    requires ValidConfig(cfg) && IsHistory(cfg, tr, acts) && i < |tr|
    requires RestsOn(cfg, tr, acts, i, id, Found(j), reg, k)
    requires tr[i].runs[id].inst.version == tr[i].db.cr.version
    ensures tr[i].runs[id].inst.rotation == tr[i].db.cr.rotation
    ensures Names(cfg, tr[k], tr[i].db.cr.rotation, reg)
  {
    StatusMovesOn(cfg, tr, acts, j, i);
    assert CrRead(tr[j].db, acts[j].got.inst);
  }

  lemma WrittenIsCurrent(cfg: Config, tr: seq<State>, acts: seq<Action>, i: nat, id: nat, m: nat, reg: Registry)
    requires ValidConfig(cfg) && IsHistory(cfg, tr, acts) && i < |tr|
    requires IsBasis(cfg, tr, acts, i, id, Wrote(m), reg)
    requires tr[i].runs[id].inst.version == tr[i].db.cr.version
    ensures tr[i].runs[id].inst.rotation == tr[i].db.cr.rotation
    ensures Names(cfg, tr[m + 1], tr[i].db.cr.rotation, reg)
  {
    StatusMovesOn(cfg, tr, acts, m, i);
    ReachableInv(cfg, tr, acts, m);
    assert RunOk(tr[m], tr[m].runs[id]);
  }

  /** A Secret that bears the stored rotation and this registry's host agrees in everything. */
  lemma NamedAgrees(cfg: Config, s: State, reg: Registry)
    requires ValidConfig(cfg) && Inv(cfg, s) && Names(cfg, s, s.db.cr.rotation, reg)
    ensures Agrees(cfg, s, reg)
  {
  }

  /** A report of success leaves the Secret, the accounts and the rotation alone. */
  lemma ReportLeaves(cfg: Config, s: State, id: nat, msg: string, f: Fault)
    requires Enabled(cfg, s, WriteStatus(id, msg, f))
    requires s.runs[id].inst.version == s.db.cr.version ==> s.runs[id].inst.rotation == s.db.cr.rotation
    ensures var s' := Apply(cfg, s, WriteStatus(id, msg, f));
            && s'.db.secret == s.db.secret && s'.db.accounts == s.db.accounts && s'.hist == s.hist
            && s'.db.cr.rotation == s.db.cr.rotation
            && (s'.db.cr.version != s.db.cr.version ==>
                  && s.runs[id].inst.version == s.db.cr.version && s'.db.cr.registryNs == s.runs[id].inst.registryNs
                  && s.runs[id].cond in s'.db.cr.conditions
                  && s'.db.cr.conditions[s.runs[id].cond].status == s.runs[id].status)
  {
  }

  lemma RestsOnCurrent(cfg: Config, tr: seq<State>, acts: seq<Action>, i: nat, id: nat, b: Basis, reg: Registry, k: nat)
    requires ValidConfig(cfg) && IsHistory(cfg, tr, acts) && i < |tr|
    requires RestsOn(cfg, tr, acts, i, id, b, reg, k)
    requires tr[i].runs[id].inst.version == tr[i].db.cr.version
    ensures tr[i].runs[id].cond == Ready && tr[i].runs[id].inst.rotation == tr[i].db.cr.rotation
    ensures k <= i && Names(cfg, tr[k], tr[i].db.cr.rotation, reg)
  {
    match b
    case Found(j) => FoundIsCurrent(cfg, tr, acts, i, id, j, k, reg);
    case Wrote(m) => WrittenIsCurrent(cfg, tr, acts, i, id, m, reg);
  }

  /** The Secret was written for the registry of the run: what was created for the stored rotation says so. */
  lemma CreatedFor(cfg: Config, tr: seq<State>, acts: seq<Action>, i: nat, id: nat, b: Basis, reg: Registry, k: nat)
    requires ValidConfig(cfg) && IsHistory(cfg, tr, acts) && i < |acts|
    requires RestsOn(cfg, tr, acts, i, id, b, reg, k) && k <= i
    requires tr[i].runs[id].inst.version == tr[i].db.cr.version
    ensures var r := tr[i].db.cr.rotation;
            && ValidRegistry(reg) && r in tr[i].hist.created
            && cfg.hostOf(tr[i].hist.created[r].reg) == cfg.hostOf(reg) && tr[i].hist.created[r].reg.ca == reg.ca
  {
    RestsOnCurrent(cfg, tr, acts, i, id, b, reg, k);
    ReachableInv(cfg, tr, acts, k);
    var r := tr[i].db.cr.rotation;
    CreatedStays(cfg, tr, acts, k, i, r, tr[k].hist.created[r]);
  }

  /** Whichever run stores Ready, after whatever interleaving, stale reads, lost writes, crashes and outsiders: annotation,
      name, password, hostname, CA and docker config of the stored Secret agree with the stored rotation and the registry
      that the run resolved if and only if the Secret still bears the stored rotation as its annotation. */
  lemma ReadyAgreesIff(cfg: Config, tr: seq<State>, acts: seq<Action>, i: nat, b: Basis, reg: Registry, k: nat)
    requires ValidConfig(cfg) && IsHistory(cfg, tr, acts) && i < |acts| && StoresReady(tr, acts, i)
    requires RestsOn(cfg, tr, acts, i, acts[i].id, b, reg, k) && k <= i
    ensures IsReady(tr[i + 1].db.cr)
    ensures Agrees(cfg, tr[i + 1], reg) <==> BearsMark(tr[i], tr[i].db.cr.rotation)
    ensures Agrees(cfg, tr[i + 1], reg) ==>
              (InSync(cfg, tr[i + 1].db, reg)
               <==> Key(reg.ns, cfg.nameOf(tr[i + 1].db.cr.rotation)) in tr[i + 1].db.accounts)
  {
    var id := acts[i].id;
    ReachableInv(cfg, tr, acts, i);
    assert RunOk(tr[i], tr[i].runs[id]);
    WriteTakesEffect(cfg, tr[i], id, acts[i].msg, acts[i].f);
    RestsOnCurrent(cfg, tr, acts, i, id, b, reg, k);
    CreatedFor(cfg, tr, acts, i, id, b, reg, k);
    ReportLeaves(cfg, tr[i], id, acts[i].msg, acts[i].f);
    if BearsMark(tr[i], tr[i].db.cr.rotation) {
      MarkedIsNamed(cfg, tr[i], reg);
      NamedAgrees(cfg, tr[i], reg);
      AgreesMeansSync(cfg, tr[i + 1], reg);
    }
  }

  lemma MarkedIsNamed(cfg: Config, s: State, reg: Registry)
    requires Inv(cfg, s) && ValidRegistry(reg) && BearsMark(s, s.db.cr.rotation)
    requires s.db.cr.rotation in s.hist.created
    requires cfg.hostOf(s.hist.created[s.db.cr.rotation].reg) == cfg.hostOf(reg)
    requires s.hist.created[s.db.cr.rotation].reg.ca == reg.ca
    ensures Names(cfg, s, s.db.cr.rotation, reg)
  {
  }

  /** So it is, and the Secret is the very one that the run read or wrote, if outsiders have left it alone since. */
  lemma ReadyAgrees(cfg: Config, tr: seq<State>, acts: seq<Action>, i: nat, b: Basis, reg: Registry, k: nat)
    requires ValidConfig(cfg) && IsHistory(cfg, tr, acts) && i < |acts| && StoresReady(tr, acts, i)
    requires RestsOn(cfg, tr, acts, i, acts[i].id, b, reg, k) && k <= i && Undisturbed(acts, k, i)
    ensures tr[i + 1].db.secret == tr[k].db.secret && Agrees(cfg, tr[i + 1], reg)
  {
    var id := acts[i].id;
    WriteTakesEffect(cfg, tr[i], id, acts[i].msg, acts[i].f);
    RestsOnCurrent(cfg, tr, acts, i, id, b, reg, k);
    SecretKept(cfg, tr, acts, k, i, tr[i].db.cr.rotation);
    ReadyAgreesIff(cfg, tr, acts, i, b, reg, k);
    ReportLeaves(cfg, tr[i], id, acts[i].msg, acts[i].f);
  }

  lemma WriteTakesEffect(cfg: Config, s: State, id: nat, msg: string, f: Fault)
    requires Enabled(cfg, s, WriteStatus(id, msg, f))
    requires Apply(cfg, s, WriteStatus(id, msg, f)).db.cr.version != s.db.cr.version
    ensures s.runs[id].inst.version == s.db.cr.version
  {
  }

  lemma AgreesMeansSync(cfg: Config, s: State, reg: Registry)
    requires Agrees(cfg, s, reg)
    ensures InSync(cfg, s.db, reg) <==> Key(reg.ns, cfg.nameOf(s.db.cr.rotation)) in s.db.accounts
  {
  }

  // ----- Nothing else stores Ready -----

  /** The conditions that a run holds in memory are the stored ones as long as the version is. */
  predicate ConditionsOk(s: State) {
    forall id :: id in s.runs && s.runs[id].inst.version == s.db.cr.version ==>
      s.runs[id].inst.conditions == s.db.cr.conditions
  }

  /** A write of the resource gives it a version that no run holds. */
  lemma NewVersion(cfg: Config, s: State, s': State, id: nat)
    requires Inv(cfg, s) && ConditionsOk(s)
    requires s'.db.cr == s.db.cr || s'.db.cr.version > s.db.cr.version
    requires forall i :: i in s'.runs && i != id ==> i in s.runs && s'.runs[i] == s.runs[i]
    requires id in s'.runs && s'.runs[id].inst.version == s'.db.cr.version ==> s'.runs[id].inst.conditions == s'.db.cr.conditions
    ensures ConditionsOk(s')
  {
    forall i | i in s.runs
      ensures s.runs[i].inst.version <= s.db.cr.version
    {
      assert RunOk(s, s.runs[i]);
    }
  }

  lemma StatusConditions(cfg: Config, s: State, a: Action)
    requires Inv(cfg, s) && ConditionsOk(s) && Enabled(cfg, s, a) && (a.ClaimNext? || a.WriteStatus?)
    ensures ConditionsOk(Apply(cfg, s, a))
  {
    NewVersion(cfg, s, Apply(cfg, s, a), a.id);
  }

  lemma StoreConditions(cfg: Config, s: State, a: Action)
    requires Inv(cfg, s) && ConditionsOk(s) && Enabled(cfg, s, a) && (a.WriteAccount? || a.WriteSecret?)
    ensures ConditionsOk(Apply(cfg, s, a))
  {
    NewVersion(cfg, s, Apply(cfg, s, a), a.id);
  }

  lemma RunConditions(cfg: Config, s: State, a: Action)
    requires Inv(cfg, s) && ConditionsOk(s) && Enabled(cfg, s, a) && IsRunStep(a)
    requires !a.ClaimNext? && !a.WriteStatus? && !a.WriteAccount? && !a.WriteSecret?
    ensures ConditionsOk(Apply(cfg, s, a))
  {
    NewVersion(cfg, s, Apply(cfg, s, a), a.id);
  }

  lemma ConditionsStep(cfg: Config, s: State, a: Action)
    requires Inv(cfg, s) && ConditionsOk(s) && Enabled(cfg, s, a)
    ensures ConditionsOk(Apply(cfg, s, a))
  {
    if a.ClaimNext? || a.WriteStatus? {
      StatusConditions(cfg, s, a);
    } else if a.WriteAccount? || a.WriteSecret? {
      StoreConditions(cfg, s, a);
    } else if IsRunStep(a) {
      RunConditions(cfg, s, a);
    } else {
      NewVersion(cfg, s, Apply(cfg, s, a), if a.AddFinalizer? then a.id else 0);
    }
  }

  lemma {:induction false} ReachableConditions(cfg: Config, tr: seq<State>, acts: seq<Action>, i: nat)
    requires ValidConfig(cfg) && IsHistory(cfg, tr, acts) && i < |tr|
    ensures ConditionsOk(tr[i])
  {
    if i > 0 {
      ReachableConditions(cfg, tr, acts, i - 1);
      ReachableInv(cfg, tr, acts, i - 1);
      ConditionsStep(cfg, tr[i - 1], acts[i - 1]);
    }
  }

  /** A step after which the resource is ready, and was not before, is a success that a run reports. */
  lemma OnlySuccessTurnsReady(cfg: Config, tr: seq<State>, acts: seq<Action>, i: nat)
    requires ValidConfig(cfg) && IsHistory(cfg, tr, acts) && i < |acts|
    requires !IsReady(tr[i].db.cr) && IsReady(tr[i + 1].db.cr)
    ensures StoresReady(tr, acts, i)
  {
    ReachableConditions(cfg, tr, acts, i);
    ReachableInv(cfg, tr, acts, i);
    ReadyStep(cfg, tr[i], acts[i]);
  }

  lemma ReadyStep(cfg: Config, s: State, a: Action)
    requires Inv(cfg, s) && ConditionsOk(s) && Enabled(cfg, s, a)
    requires !IsReady(s.db.cr) && IsReady(Apply(cfg, s, a).db.cr)
    ensures a.WriteStatus? && s.runs[a.id].status && Apply(cfg, s, a).db.cr.version != s.db.cr.version
  {
  }

  /** Every read of the Secret returns a version that was stored at some time. */
  ghost predicate ReadsPast(tr: seq<State>, acts: seq<Action>)
    requires |tr| == |acts| + 1
  {
    forall j :: 0 <= j < |acts| && acts[j].Start? ==> exists k :: 0 <= k <= j && acts[j].got.secret == tr[k].db.secret
  }

  /** Every Ready that is stored rests on such a version; so the theorem above is about each of them. */
  lemma ReadyRestsOn(cfg: Config, tr: seq<State>, acts: seq<Action>, i: nat) returns (b: Basis, reg: Registry, k: nat)
    requires ValidConfig(cfg) && IsHistory(cfg, tr, acts) && i < |acts| && StoresReady(tr, acts, i) && ReadsPast(tr, acts)
    ensures k <= i && RestsOn(cfg, tr, acts, i, acts[i].id, b, reg, k)
    ensures Agrees(cfg, tr[i + 1], reg) <==> BearsMark(tr[i], tr[i].db.cr.rotation)
  {
    var id := acts[i].id;
    SuccessHasBasis(cfg, tr, acts, i, id);
    b, reg :| IsBasis(cfg, tr, acts, i, id, b, reg);
    match b {
      case Found(j) => k :| 0 <= k <= j && acts[j].got.secret == tr[k].db.secret;
      case Wrote(m) => k := m + 1;
    }
    ReadyAgreesIff(cfg, tr, acts, i, b, reg, k);
  }

  // ----- A lost registry -----

  /** The run under this number in state `i` was started by step `j`. */
  predicate StartedBy(acts: seq<Action>, i: nat, id: nat, j: nat)
    requires i <= |acts|
  {
    && j < i && acts[j].Start? && acts[j].id == id
    && forall k :: j < k < i ==> !(acts[k].Start? && acts[k].id == id) && !(acts[k].AddFinalizer? && acts[k].id == id)
  }

  lemma ReportingStays(cfg: Config, s: State, a: Action, id: nat)
    requires Enabled(cfg, s, a) && !(a.Start? && a.id == id) && !(a.AddFinalizer? && a.id == id)
    requires id in Apply(cfg, s, a).runs
    ensures id in s.runs && (s.runs[id].Reporting? ==> Apply(cfg, s, a).runs[id] == s.runs[id])
  {
  }

  lemma {:induction false} ReportsMissing(cfg: Config, tr: seq<State>, acts: seq<Action>, i: nat, id: nat, j: nat)
    requires IsHistory(cfg, tr, acts) && i < |tr| && StartedBy(acts, i, id, j) && acts[j].got.registry.None?
    requires id in tr[i].runs
    ensures tr[i].runs[id] == Reporting(acts[j].got.inst, Ready, false, RegistryUnavailable)
  {
    if j + 1 < i {
      ReportingStays(cfg, tr[i - 1], acts[i - 1], id);
      ReportsMissing(cfg, tr, acts, i - 1, id, j);
    }
  }

  /** A status write that takes effect, of a run that found no registry, leaves the resource not ready for that reason. */
  lemma MissingRegistryIsStored(cfg: Config, tr: seq<State>, acts: seq<Action>, i: nat, id: nat, j: nat)
    requires IsHistory(cfg, tr, acts) && i < |acts| && StartedBy(acts, i, id, j) && acts[j].got.registry.None?
    requires acts[i].WriteStatus? && acts[i].id == id && tr[i + 1].db.cr.version != tr[i].db.cr.version
    ensures var cr := tr[i + 1].db.cr;
            && !IsReady(cr) && Ready in cr.conditions
            && cr.conditions[Ready] == Condition(false, RegistryUnavailable, acts[i].msg)
            && cr.observedGeneration == acts[j].got.inst.generation
  {
    ReportsMissing(cfg, tr, acts, i, id, j);
  }

  // ----- Outsiders must leave the Secret alone -----

  lemma Further(cfg: Config, tr: seq<State>, acts: seq<Action>, a: Action) returns (tr': seq<State>, acts': seq<Action>)
    requires IsHistory(cfg, tr, acts) && Enabled(cfg, tr[|tr| - 1], a)
    ensures IsHistory(cfg, tr', acts') && tr' == tr + [Apply(cfg, tr[|tr| - 1], a)] && acts' == acts + [a]
  {
    tr', acts' := tr + [Apply(cfg, tr[|tr| - 1], a)], acts + [a];
  }

  /** A first rotation that has come to its report. */
  lemma FirstRotation(cfg: Config, reg: Registry, cred: Credential) returns (tr: seq<State>, acts: seq<Action>)
    requires ValidRegistry(reg) && ValidCredential(cred)
    ensures IsHistory(cfg, tr, acts)
    ensures var s := tr[|tr| - 1];
            && 0 in s.runs && s.runs[0] == Success(s.db.cr) && s.db.cr.conditions == map[] && s.db.live && s.db.cr.version <= s.db.rev
            && BearsMark(s, s.db.cr.rotation)
  {
    var cr := Cr(1, 1, false, true, 0, "", map[], 0);
    tr, acts := [State(Db(1, cr, true, map[], None), map[], History([], map[], []))], [];
    tr, acts := Further(cfg, tr, acts, Start(0, Reads(cr, Some(reg), None, None), 0, Some(cred)));
    tr, acts := Further(cfg, tr, acts, ClaimNext(0, Reliable));
    tr, acts := Further(cfg, tr, acts, WriteAccount(0, 0, Reliable));
    tr, acts := Further(cfg, tr, acts, WriteSecret(0, Reliable));
  }

  /** If an outsider deletes the Secret, or drops its annotation, just before the report then Ready is stored all the same,
      and the Secret does not agree. */
  lemma OutsiderBreaksReady(cfg: Config, reg: Registry, cred: Credential, delete: bool)
    returns (tr: seq<State>, acts: seq<Action>)
    requires ValidRegistry(reg) && ValidCredential(cred)
    ensures IsHistory(cfg, tr, acts) && |acts| > 0 && StoresReady(tr, acts, |acts| - 1)
    ensures IsReady(tr[|tr| - 1].db.cr) && !Agrees(cfg, tr[|tr| - 1], reg)
  {
    tr, acts := FirstRotation(cfg, reg, cred);
    var s := tr[|tr| - 1];
    var edited := s.db.secret.value.(version := s.db.rev + 1, mark := None);
    tr, acts := Further(cfg, tr, acts, if delete then DeleteSecret else EditSecret(edited));
    tr, acts := Further(cfg, tr, acts, WriteStatus(0, "", Reliable));
  }
}
