/** ImageBuildEnvs, the Secrets they refer to, and the update of the back references between them, all in one namespace
    (owner references do not cross namespaces). */
module BackRefs {
  import opened Wrappers
  import opened Cluster
  import opened OwnerRefs

  /** API version and kind of ImageBuildEnv. */
  datatype Group = Group(apiVersion: string, kind: string)

  /** `data` stands for all that the Secret holds. */
  datatype Secret = Secret(version: nat, refs: Refs, data: string)

  datatype Reason = NoReason | FailedUpdate | MissingSecret | InvalidSecret | Pending

  /** The Ready condition. */
  datatype Condition = Condition(ready: bool, reason: Reason, message: string)

  /** `statusRefs` and `condition` are its status. */
  datatype Env = Env(
    uid: string, version: nat, deleting: bool, finalizer: bool, otherFinalizers: bool,
    spec: seq<string>, statusRefs: seq<string>, condition: Option<Condition>)

  datatype Db = Db(rev: nat, envs: map<string, Env>, secrets: map<string, Secret>)

  function OwnerOf(g: Group, name: string, uid: string): Owner {
    Owner(g.apiVersion, g.kind, name, uid)
  }

  /** A back reference. The ImageBuildEnv is also the controller of the Secret that it writes; that is no back reference. */
  predicate IsEnvRef(g: Group, r: OwnerReference) {
    r.apiVersion == g.apiVersion && r.kind == g.kind && !r.controller
  }

  /** The list has a back reference to the owner. */
  predicate Bears(refs: Refs, o: Owner) {
    exists i :: 0 <= i < |refs| && Matches(refs[i], o) && !refs[i].controller
  }

  predicate Controlled(refs: Refs, o: Owner) {
    exists i :: 0 <= i < |refs| && refs[i].uid == o.uid && refs[i].controller
  }

  // ----- Writes -----

  datatype Answer = Accepted | Missing | Rejected

  function UpdateSecret(db: Db, name: string, s: Secret, f: Fault): (Db, Answer) {
    if f.DroppedRequest? then (db, Rejected)
    else if name !in db.secrets then (db, if f.Reliable? then Missing else Rejected)
    else if db.secrets[name].version != s.version then (db, Rejected)
    else (db.(rev := db.rev + 1, secrets := db.secrets[name := s.(version := db.rev + 1)]),
          if f.Reliable? then Accepted else Rejected)
  }

  function PutEnvStatus(db: Db, name: string, inst: Env, f: Fault): (Db, Option<Env>) {
    if f.DroppedRequest? || name !in db.envs || db.envs[name].version != inst.version then (db, None)
    else
      var e := db.envs[name].(version := db.rev + 1, statusRefs := inst.statusRefs, condition := inst.condition);
      (db.(rev := db.rev + 1, envs := db.envs[name := e]), if f.Reliable? then Some(e) else None)
  }

  /** Adds or removes the operator's finalizer; a deleted object without any finalizer is gone. */
  function PutEnvFinalizer(db: Db, name: string, inst: Env, finalizer: bool, f: Fault): (Db, bool) {
    if f.DroppedRequest? || name !in db.envs || db.envs[name].version != inst.version then (db, false)
    else
      var e := db.envs[name].(version := db.rev + 1, finalizer := finalizer);
      (db.(rev := db.rev + 1,
           envs := if e.deleting && !finalizer && !e.otherFinalizers then db.envs - {name} else db.envs[name := e]),
       f.Reliable?)
  }

  /** The output Secret's owner when it is created. */
  function ControllerRef(o: Owner): OwnerReference {
    OwnerReference(o.apiVersion, o.kind, o.name, o.uid, true, true)
  }

  /** Creates the output Secret, controlled by the ImageBuildEnv, or updates the data, and only that, of one that was read
      and has other data. */
  function PutOutput(db: Db, o: Owner, name: string, copy: Option<Secret>, data: string, f: Fault): (Db, bool) {
    match copy
    case Some(s) =>
      if s.data == data then (db, true)
      else
        var (after, a) := UpdateSecret(db, name, s.(data := data), f);
        (after, a == Accepted)
    case None =>
      if f.DroppedRequest? || name in db.secrets then (db, false)
      else (db.(rev := db.rev + 1, secrets := db.secrets[name := Secret(db.rev + 1, [ControllerRef(o)], data)]), f.Reliable?)
  }

  // ----- What the back references promise -----

  /** Every back reference leads to an existing ImageBuildEnv that lists the Secret and bears the finalizer. */
  predicate Safe(g: Group, db: Db) {
    forall n, r :: n in db.secrets && r in db.secrets[n].refs && IsEnvRef(g, r) ==>
      && r.name in db.envs
      && db.envs[r.name].uid == r.uid && db.envs[r.name].finalizer && n in db.envs[r.name].statusRefs
  }

  lemma SafeGivesFinalizer(g: Group, db: Db, n: string, e: string, uid: string)
    requires Safe(g, db) && n in db.secrets && Bears(db.secrets[n].refs, OwnerOf(g, e, uid))
    ensures e in db.envs && db.envs[e].finalizer && n in db.envs[e].statusRefs
  {
    var refs := db.secrets[n].refs;
    var i :| 0 <= i < |refs| && Matches(refs[i], OwnerOf(g, e, uid)) && !refs[i].controller;
    assert refs[i] in refs;
  }

  // ----- Differences of reference lists -----

  /** The entries of `a` that are not in `b`, in order. */
  function Minus(a: seq<string>, b: seq<string>): (r: seq<string>)
    ensures forall x :: x in r <==> x in a && x !in b
  {
    if a == [] then []
    else if a[|a| - 1] in b then Minus(a[..|a| - 1], b)
    else Minus(a[..|a| - 1], b) + [a[|a| - 1]]
  }

  function ToSet(s: seq<string>): set<string> {
    set x | x in s
  }

  /** Neither list has an entry that the other lacks: then, and only then, the status is not rewritten. */
  lemma NoDifference(a: seq<string>, b: seq<string>)
    ensures Minus(a, b) == [] && Minus(b, a) == [] <==> ToSet(a) == ToSet(b)
  {
    if Minus(a, b) == [] && Minus(b, a) == [] {
      forall x | x in a
        ensures x in b
      {
        assert x in b || x in Minus(a, b);
      }
      forall x | x in b
        ensures x in a
      {
        assert x in a || x in Minus(b, a);
      }
    } else if Minus(a, b) != [] {
      assert Minus(a, b)[0] in Minus(a, b);
      assert Minus(a, b)[0] in ToSet(a) && Minus(a, b)[0] !in ToSet(b);
    } else {
      assert Minus(b, a)[0] in Minus(b, a);
      assert Minus(b, a)[0] in ToSet(b) && Minus(b, a)[0] !in ToSet(a);
    }
  }

  /** A referenced Secret as it was read. */
  datatype Input = Input(name: string, copy: Secret)

  function Names(refs: seq<Input>): (r: seq<string>)
    ensures |r| == |refs| && forall i :: 0 <= i < |r| ==> r[i] == refs[i].name
  {
    seq(|refs|, i requires 0 <= i < |refs| => refs[i].name)
  }

  /** A Secret that is listed twice has the owner already. */
  predicate NoRepeats(refs: seq<Input>, uid: string) {
    forall i, j :: 0 <= i < j < |refs| && refs[i].name == refs[j].name ==> HasUid(refs[i].copy.refs, uid)
  }

  predicate CurrentFrom(db: Db, refs: seq<Input>, k: nat) {
    forall i :: k <= i < |refs| ==> refs[i].name in db.secrets && refs[i].copy == db.secrets[refs[i].name]
  }

  // ----- The reference update, as a function of the store -----

  /** What happens to each of a sequence of writes. */
  type Faults = nat -> Fault

  function NoFault(k: nat): Fault {
    Reliable
  }

  /** A deletion reads the Secret before it writes it. */
  datatype DelFault = ReadFails | Write(f: Fault)

  type DelFaults = nat -> DelFault

  function NoDelFault(k: nat): DelFault {
    Write(Reliable)
  }

  function Read(db: Db, name: string): Option<Secret> {
    if name in db.secrets then Some(db.secrets[name]) else None
  }

  /** Removes the owner from one Secret that was read before. */
  function DelStep(db: Db, o: Owner, name: string, copy: Option<Secret>, f: Fault): (Db, bool) {
    match copy
    case None => (db, true)
    case Some(s) =>
      var refs := DelRef(s.refs, o);
      if refs == s.refs then (db, true)
      else
        var (after, a) := UpdateSecret(db, name, s.(refs := refs), f);
        (after, a != Rejected)
  }

  function DeleteOld(db: Db, o: Owner, names: seq<string>, faults: DelFaults, i: nat): (Db, bool)
    decreases |names| - i
  {
    if i >= |names| then (db, true)
    else
      match faults(i)
      case ReadFails => (db, false)
      case Write(f) =>
        var (after, ok) := DelStep(db, o, names[i], Read(db, names[i]), f);
        if ok then DeleteOld(after, o, names, faults, i + 1) else (after, false)
  }

  function AddStep(db: Db, o: Owner, input: Input, f: Fault): (Db, bool) {
    if HasUid(input.copy.refs, o.uid) then (db, true)
    else
      var (after, a) := UpdateSecret(db, input.name, input.copy.(refs := AddRef(input.copy.refs, o)), f);
      (after, a == Accepted)
  }

  function AddNew(db: Db, o: Owner, refs: seq<Input>, faults: Faults, i: nat): (Db, bool)
    decreases |refs| - i
  {
    if i >= |refs| then (db, true)
    else
      var (after, ok) := AddStep(db, o, refs[i], faults(i));
      if ok then AddNew(after, o, refs, faults, i + 1) else (after, false)
  }

  /** The store, the owner as it is held in memory, and whether the call succeeded. */
  datatype Outcome = Outcome(db: Db, inst: Env, ok: bool)

  function PersistRefs(db: Db, name: string, inst: Env, refs: seq<Input>, f: Fault): Outcome {
    var names := Names(refs);
    if Minus(inst.statusRefs, names) == [] && Minus(names, inst.statusRefs) == [] then Outcome(db, inst, true)
    else
      var (after, stored) := PutEnvStatus(db, name, inst.(statusRefs := names), f);
      match stored
      case Some(e) => Outcome(after, e, true)
      case None => Outcome(after, inst.(statusRefs := names), false)
  }

  function UpdateReferences(g: Group, db: Db, name: string, inst: Env, refs: seq<Input>,
                            delFaults: DelFaults, statusFault: Fault, addFaults: Faults): Outcome
  {
    var o := OwnerOf(g, name, inst.uid);
    var (deleted, ok) := DeleteOld(db, o, Minus(inst.statusRefs, Names(refs)), delFaults, 0);
    if !ok then Outcome(deleted, inst, false)
    else
      var p := PersistRefs(deleted, name, inst, refs, statusFault);
      if !p.ok then p
      else
        var (added, done) := AddNew(p.db, o, refs, addFaults, 0);
        Outcome(added, p.inst, done)
  }

  // ----- Effects on the owner lists -----

  predicate UniqueLists(db: Db) {
    forall n :: n in db.secrets ==> Unique(db.secrets[n].refs)
  }

  /** Same ImageBuildEnvs, same Secret names and data, and the other owners' entries as they were. */
  predicate OnlyOwner(before: Db, after: Db, o: Owner) {
    && after.envs == before.envs && after.secrets.Keys == before.secrets.Keys
    && forall n :: n in before.secrets ==>
         && Others(after.secrets[n].refs, o) == Others(before.secrets[n].refs, o)
         && after.secrets[n].data == before.secrets[n].data
  }

  lemma {:induction false} DelStepEffect(db: Db, o: Owner, name: string, f: Fault)
    requires UniqueLists(db)
    ensures var (after, ok) := DelStep(db, o, name, Read(db, name), f);
            && OnlyOwner(db, after, o) && UniqueLists(after)
            && (forall n :: n in db.secrets && n != name ==> after.secrets[n] == db.secrets[n])
            && (name in db.secrets ==> after.secrets[name].refs in [db.secrets[name].refs, DelRef(db.secrets[name].refs, o)])
            && (ok && name in db.secrets ==> !Mentions(after.secrets[name].refs, o))
            && (f.Reliable? ==> ok)
  {
    if name in db.secrets {
      DelRefEffect(db.secrets[name].refs, o);
      OthersIdentity(DelRef(db.secrets[name].refs, o), o);
    }
  }

  /** Deleting the old back references: none is left in the named Secrets if no write fails. */
  lemma {:induction false} DeleteOldEffect(db: Db, o: Owner, names: seq<string>, faults: DelFaults, i: nat)
    requires UniqueLists(db) && i <= |names|
    requires forall k :: 0 <= k < i && names[k] in db.secrets ==> !Mentions(db.secrets[names[k]].refs, o)
    ensures var (after, ok) := DeleteOld(db, o, names, faults, i);
            && OnlyOwner(db, after, o) && UniqueLists(after)
            && (forall n :: n in db.secrets && n !in names ==> after.secrets[n] == db.secrets[n])
            && (forall n :: n in db.secrets && !Mentions(db.secrets[n].refs, o) ==> !Mentions(after.secrets[n].refs, o))
            && (ok ==> forall n :: n in names && n in db.secrets ==> !Mentions(after.secrets[n].refs, o))
            && ((forall k :: k >= i ==> faults(k) == Write(Reliable)) ==> ok)
    decreases |names| - i
  {
    if i < |names| && faults(i).Write? {
      var (after, ok) := DelStep(db, o, names[i], Read(db, names[i]), faults(i).f);
      DelStepEffect(db, o, names[i], faults(i).f);
      if ok {
        DeleteOldEffect(after, o, names, faults, i + 1);
      }
    }
  }

  lemma {:induction false} AddStepEffect(db: Db, o: Owner, input: Input, f: Fault)
    requires UniqueLists(db) && input.name in db.secrets && input.copy == db.secrets[input.name]
    ensures var (after, ok) := AddStep(db, o, input, f);
            && OnlyOwner(db, after, o) && UniqueLists(after)
            && (forall n :: n in db.secrets && n != input.name ==> after.secrets[n] == db.secrets[n])
            && after.secrets[input.name].refs in [db.secrets[input.name].refs, AddRef(db.secrets[input.name].refs, o)]
            && (ok ==> after.secrets[input.name].refs == AddRef(db.secrets[input.name].refs, o))
            && (f.Reliable? ==> ok)
  {
    AddRefEffect(input.copy.refs, o);
  }

  /** Adding the new back references to Secrets that were read current: each gets the owner if no write fails. */
  lemma {:induction false} AddNewEffect(db: Db, o: Owner, refs: seq<Input>, faults: Faults, i: nat)
    requires UniqueLists(db) && NoRepeats(refs, o.uid) && CurrentFrom(db, refs, i)
    ensures var (after, ok) := AddNew(db, o, refs, faults, i);
            && OnlyOwner(db, after, o) && UniqueLists(after)
            && (forall n :: n in db.secrets && (forall k :: i <= k < |refs| ==> refs[k].name != n)
                  ==> after.secrets[n] == db.secrets[n])
            && (ok ==> forall k :: i <= k < |refs| ==>
                  after.secrets[refs[k].name].refs == AddRef(db.secrets[refs[k].name].refs, o))
            && ((forall k :: k >= i ==> faults(k) == Reliable) ==> ok)
    decreases |refs| - i
  {
    if i < |refs| {
      var (after, ok) := AddStep(db, o, refs[i], faults(i));
      AddStepEffect(db, o, refs[i], faults(i));
      if ok {
        AddNewEffect(after, o, refs, faults, i + 1);
      }
    }
  }

  /** Adding a Secret twice that lacks the owner fails: the second update is made from the copy read before the first. */
  lemma {:induction false} RepeatFails(db: Db, o: Owner, refs: seq<Input>, faults: Faults, i: nat, j: nat, k: nat)
    requires i <= j < k < |refs| && refs[j].name == refs[k].name && !HasUid(refs[k].copy.refs, o.uid)
    requires !HasUid(refs[j].copy.refs, o.uid)
    requires refs[j].copy.version <= db.rev && refs[k].copy.version <= db.rev
    ensures !AddNew(db, o, refs, faults, i).1
    decreases k - i
  {
    var (after, ok) := AddStep(db, o, refs[i], faults(i));
    if ok {
      if i < j {
        RepeatFails(after, o, refs, faults, i + 1, j, k);
      } else {
        OutdatedFails(after, o, refs, faults, i + 1, k);
      }
    }
  }

  lemma {:induction false} OutdatedFails(db: Db, o: Owner, refs: seq<Input>, faults: Faults, i: nat, k: nat)
    requires i <= k < |refs| && !HasUid(refs[k].copy.refs, o.uid)
    requires refs[k].name in db.secrets ==> refs[k].copy.version < db.secrets[refs[k].name].version
    requires refs[k].copy.version <= db.rev
    ensures !AddNew(db, o, refs, faults, i).1
    decreases k - i
  {
    if i < k {
      var (after, ok) := AddStep(db, o, refs[i], faults(i));
      if ok {
        OutdatedFails(after, o, refs, faults, i + 1, k);
      }
    }
  }

  // ----- What a call achieves -----

  /** The ImageBuildEnv exists with its finalizer, and only its own entries bear its UID. */
  predicate Managed(g: Group, db: Db, name: string) {
    && name in db.envs && db.envs[name].finalizer
    && Safe(g, db) && UniqueLists(db)
    && (forall n :: n in db.secrets ==> db.secrets[n].version <= db.rev)
    && forall n, r :: n in db.secrets && r in db.secrets[n].refs && r.uid == db.envs[name].uid ==>
         Matches(r, OwnerOf(g, name, r.uid))
  }

  /** The status list is kept as it is when it has the requested Secrets in any order, and else becomes the request. */
  lemma PersistRefsEffect(db: Db, name: string, refs: seq<Input>, f: Fault)
    requires name in db.envs
    ensures var p, names := PersistRefs(db, name, db.envs[name], refs, f), Names(refs);
            && p.db.secrets == db.secrets
            && (ToSet(db.envs[name].statusRefs) == ToSet(names) ==> p == Outcome(db, db.envs[name], true))
            && (p.ok ==>
                  && name in p.db.envs && p.inst == p.db.envs[name] && p.db.envs.Keys == db.envs.Keys
                  && (forall e :: e in db.envs && e != name ==> p.db.envs[e] == db.envs[e])
                  && p.inst == db.envs[name].(
                       version := p.inst.version,
                       statusRefs := if ToSet(db.envs[name].statusRefs) == ToSet(names) then db.envs[name].statusRefs else names))
            && (f.Reliable? ==> p.ok)
  {
    NoDifference(db.envs[name].statusRefs, Names(refs));
  }

  /** After the deletion, a Secret that is not requested bears no back reference. */
  lemma DeletedNotBorne(g: Group, db: Db, name: string, names: seq<string>, faults: DelFaults, n: string)
    requires Managed(g, db, name) && n in db.secrets && n !in names
    ensures var o := OwnerOf(g, name, db.envs[name].uid);
            var (after, ok) := DeleteOld(db, o, Minus(db.envs[name].statusRefs, names), faults, 0);
            n in after.secrets && (ok ==> !Bears(after.secrets[n].refs, o))
  {
    var o, del := OwnerOf(g, name, db.envs[name].uid), Minus(db.envs[name].statusRefs, names);
    DeleteOldEffect(db, o, del, faults, 0);
    if Bears(db.secrets[n].refs, o) {
      SafeGivesFinalizer(g, db, n, name, db.envs[name].uid);
      assert n in del;
    }
  }

  /** Adding lists the owner's UID, and makes a back reference unless the owner controls the object. */
  lemma AddedBears(refs: Refs, o: Owner)
    requires Unique(refs)
    requires forall r :: r in refs && r.uid == o.uid ==> Matches(r, o)
    ensures HasUid(AddRef(refs, o), o.uid)
    ensures Bears(AddRef(refs, o), o) <==> !Controlled(refs, o)
  {
    if i :| 0 <= i < |refs| && refs[i].uid == o.uid {
      assert refs[i] in refs;
      assert forall j :: 0 <= j < |refs| && Matches(refs[j], o) ==> j == i;
      assert forall j :: 0 <= j < |refs| && refs[j].uid == o.uid ==> refs[j] in refs;
    } else {
      var d := DelRef(refs, o);
      assert AddRef(refs, o)[|d|] == NewRef(o);
    }
  }

  lemma ListAfterUpdate(db: Db, o: Owner, del: seq<string>, refs: seq<Input>, delFaults: DelFaults, addFaults: Faults,
                        persisted: Db, n: string)
    requires UniqueLists(db) && CurrentFrom(db, refs, 0) && NoRepeats(refs, o.uid) && n in db.secrets
    requires forall k :: 0 <= k < |refs| ==> refs[k].name !in del
    requires persisted.secrets == DeleteOld(db, o, del, delFaults, 0).0.secrets
    ensures var (added, ok) := AddNew(persisted, o, refs, addFaults, 0);
            && n in added.secrets && n in persisted.secrets
            && Others(added.secrets[n].refs, o) == Others(db.secrets[n].refs, o)
            && added.secrets[n].data == db.secrets[n].data
            && (n !in Names(refs) ==> added.secrets[n] == persisted.secrets[n])
            && (ok && n in Names(refs) ==> added.secrets[n].refs == AddRef(db.secrets[n].refs, o))
  {
    DeleteOldEffect(db, o, del, delFaults, 0);
    var names := Names(refs);
    if n in names {
      var k :| 0 <= k < |names| && names[k] == n;
      assert refs[k].name == n && n !in del;
      AddNewEffect(persisted, o, refs, addFaults, 0);
    } else {
      assert forall k :: 0 <= k < |refs| ==> names[k] == refs[k].name && refs[k].name != n;
      AddNewEffect(persisted, o, refs, addFaults, 0);
    }
  }

  /** Exactly the requested Secrets bear the owner; one that the owner controls lists its UID already and stays as it is. */
  predicate Borne(before: Refs, after: Refs, o: Owner, requested: bool) {
    && Others(after, o) == Others(before, o)
    && (requested ==> HasUid(after, o.uid))
    && (Bears(after, o) <==> requested && !Controlled(before, o))
  }

  lemma SecretAfterUpdate(g: Group, db: Db, name: string, refs: seq<Input>, delFaults: DelFaults, addFaults: Faults,
                          persisted: Db, n: string)
    requires Managed(g, db, name) && CurrentFrom(db, refs, 0) && NoRepeats(refs, db.envs[name].uid)
    requires n in db.secrets
    requires var (deleted, ok) :=
               DeleteOld(db, OwnerOf(g, name, db.envs[name].uid), Minus(db.envs[name].statusRefs, Names(refs)), delFaults, 0);
             ok && persisted.secrets == deleted.secrets
    ensures var o := OwnerOf(g, name, db.envs[name].uid);
            var (added, ok) := AddNew(persisted, o, refs, addFaults, 0);
            && n in added.secrets && added.secrets[n].data == db.secrets[n].data
            && (ok ==> Borne(db.secrets[n].refs, added.secrets[n].refs, o, n in Names(refs)))
  {
    var names := Names(refs);
    var o, del := OwnerOf(g, name, db.envs[name].uid), Minus(db.envs[name].statusRefs, names);
    assert forall k :: 0 <= k < |refs| ==> names[k] !in del;
    ListAfterUpdate(db, o, del, refs, delFaults, addFaults, persisted, n);
    if n in names {
      AddedBears(db.secrets[n].refs, o);
    } else {
      DeletedNotBorne(g, db, name, names, delFaults, n);
    }
  }

  /** A call from any safe state that reports success: the stored status names exactly the requested Secrets, exactly
      those carry the back reference, and all other owners' entries and all other ImageBuildEnvs are as before. */
  lemma UpdateReferencesSucceeds(g: Group, db: Db, name: string, refs: seq<Input>,
                                 delFaults: DelFaults, statusFault: Fault, addFaults: Faults)
    requires Managed(g, db, name) && CurrentFrom(db, refs, 0) && NoRepeats(refs, db.envs[name].uid)
    ensures var o := OwnerOf(g, name, db.envs[name].uid);
            var out := UpdateReferences(g, db, name, db.envs[name], refs, delFaults, statusFault, addFaults);
            out.ok ==>
              && out.db.secrets.Keys == db.secrets.Keys && out.db.envs.Keys == db.envs.Keys
              && out.inst == out.db.envs[name]
              && out.inst == db.envs[name].(version := out.inst.version, statusRefs := out.inst.statusRefs)
              && (forall e :: e in db.envs && e != name ==> out.db.envs[e] == db.envs[e])
              && ToSet(out.inst.statusRefs) == ToSet(Names(refs))
              && (forall n :: n in db.secrets ==>
                    && Borne(db.secrets[n].refs, out.db.secrets[n].refs, o, n in Names(refs))
                    && out.db.secrets[n].data == db.secrets[n].data)
  {
    var inst := db.envs[name];
    var o, del := OwnerOf(g, name, inst.uid), Minus(inst.statusRefs, Names(refs));
    if UpdateReferences(g, db, name, inst, refs, delFaults, statusFault, addFaults).ok {
      var deleted := DeleteOld(db, o, del, delFaults, 0).0;
      DeleteOldEffect(db, o, del, delFaults, 0);
      var p := PersistRefs(deleted, name, inst, refs, statusFault);
      PersistRefsEffect(deleted, name, refs, statusFault);
      AddNewKeepsEnvs(p.db, o, refs, addFaults, 0);
      forall n | n in db.secrets {
        SecretAfterUpdate(g, db, name, refs, delFaults, addFaults, p.db, n);
      }
    }
  }

  lemma {:induction false} AddNewKeepsEnvs(db: Db, o: Owner, refs: seq<Input>, faults: Faults, i: nat)
    ensures var after := AddNew(db, o, refs, faults, i).0;
            after.envs == db.envs && after.secrets.Keys == db.secrets.Keys
    decreases |refs| - i
  {
    if i < |refs| {
      AddNewKeepsEnvs(AddStep(db, o, refs[i], faults(i)).0, o, refs, faults, i + 1);
    }
  }

  /** A call whose writes all get through succeeds exactly when no Secret without the owner is requested twice. */
  lemma FaultFreeCallSucceeds(g: Group, db: Db, name: string, refs: seq<Input>)
    requires Managed(g, db, name) && CurrentFrom(db, refs, 0)
    ensures UpdateReferences(g, db, name, db.envs[name], refs, NoDelFault, Reliable, NoFault).ok
            <==> NoRepeats(refs, db.envs[name].uid)
  {
    var inst := db.envs[name];
    var o, del := OwnerOf(g, name, inst.uid), Minus(inst.statusRefs, Names(refs));
    DeleteOldEffect(db, o, del, NoDelFault, 0);
    DeleteOldRev(db, o, del, NoDelFault, 0);
    var deleted := DeleteOld(db, o, del, NoDelFault, 0).0;
    PersistRefsEffect(deleted, name, refs, Reliable);
    var p := PersistRefs(deleted, name, inst, refs, Reliable);
    assert forall k :: 0 <= k < |refs| ==> Names(refs)[k] !in del;
    FaultFreeAdding(p.db, o, refs, db);
  }

  lemma FaultFreeAdding(db: Db, o: Owner, refs: seq<Input>, read: Db)
    requires UniqueLists(db) && CurrentFrom(db, refs, 0) && CurrentFrom(read, refs, 0) && read.rev <= db.rev
    requires forall n :: n in read.secrets ==> read.secrets[n].version <= read.rev
    ensures AddNew(db, o, refs, NoFault, 0).1 <==> NoRepeats(refs, o.uid)
  {
    if NoRepeats(refs, o.uid) {
      AddNewEffect(db, o, refs, NoFault, 0);
    } else {
      var j, k :| 0 <= j < k < |refs| && refs[j].name == refs[k].name && !HasUid(refs[j].copy.refs, o.uid);
      RepeatFails(db, o, refs, NoFault, 0, j, k);
    }
  }

  lemma {:induction false} DeleteOldRev(db: Db, o: Owner, names: seq<string>, faults: DelFaults, i: nat)
    ensures DeleteOld(db, o, names, faults, i).0.rev >= db.rev
    decreases |names| - i
  {
    if i < |names| && faults(i).Write? {
      DeleteOldRev(DelStep(db, o, names[i], Read(db, names[i]), faults(i).f).0, o, names, faults, i + 1);
    }
  }

  /** A call whose request is stored and whose Secrets all carry the owner writes nothing, whatever happens to writes. */
  lemma NothingToWrite(g: Group, db: Db, name: string, refs: seq<Input>,
                       delFaults: DelFaults, statusFault: Fault, addFaults: Faults)
    requires name in db.envs && ToSet(db.envs[name].statusRefs) == ToSet(Names(refs))
    requires forall i :: 0 <= i < |refs| ==> HasUid(refs[i].copy.refs, db.envs[name].uid)
    ensures UpdateReferences(g, db, name, db.envs[name], refs, delFaults, statusFault, addFaults)
            == Outcome(db, db.envs[name], true)
  {
    NoDifference(db.envs[name].statusRefs, Names(refs));
    AddsNothing(db, OwnerOf(g, name, db.envs[name].uid), refs, addFaults, 0);
  }

  lemma {:induction false} AddsNothing(db: Db, o: Owner, refs: seq<Input>, faults: Faults, i: nat)
    requires forall k :: i <= k < |refs| ==> HasUid(refs[k].copy.refs, o.uid)
    ensures AddNew(db, o, refs, faults, i) == (db, true)
    decreases |refs| - i
  {
    if i < |refs| {
      AddsNothing(db, o, refs, faults, i + 1);
    }
  }

  /** A second call straight after a successful one, with the same Secrets read again, writes nothing. */
  lemma SecondCallWritesNothing(g: Group, db: Db, name: string, refs: seq<Input>, again: seq<Input>,
                                delFaults: DelFaults, statusFault: Fault, addFaults: Faults,
                                delFaults': DelFaults, statusFault': Fault, addFaults': Faults)
    requires Managed(g, db, name) && CurrentFrom(db, refs, 0) && NoRepeats(refs, db.envs[name].uid)
    requires UpdateReferences(g, db, name, db.envs[name], refs, delFaults, statusFault, addFaults).ok
    requires Names(again) == Names(refs)
    requires CurrentFrom(UpdateReferences(g, db, name, db.envs[name], refs, delFaults, statusFault, addFaults).db, again, 0)
    ensures var out := UpdateReferences(g, db, name, db.envs[name], refs, delFaults, statusFault, addFaults);
            UpdateReferences(g, out.db, name, out.inst, again, delFaults', statusFault', addFaults') == out
  {
    var out := UpdateReferences(g, db, name, db.envs[name], refs, delFaults, statusFault, addFaults);
    UpdateReferencesSucceeds(g, db, name, refs, delFaults, statusFault, addFaults);
    forall i | 0 <= i < |again|
      ensures HasUid(again[i].copy.refs, out.inst.uid)
    {
      assert again[i].name == Names(again)[i] && Names(again)[i] in Names(refs);
    }
    NothingToWrite(g, out.db, name, again, delFaults', statusFault', addFaults');
  }

  /** What a successful call stores: a list that differs from the stored one only in order or repetition is not written. */
  lemma StoredOrder(g: Group, db: Db, name: string, refs: seq<Input>,
                    delFaults: DelFaults, statusFault: Fault, addFaults: Faults)
    requires Managed(g, db, name) && CurrentFrom(db, refs, 0) && NoRepeats(refs, db.envs[name].uid)
    requires UpdateReferences(g, db, name, db.envs[name], refs, delFaults, statusFault, addFaults).ok
    ensures var before := db.envs[name].statusRefs;
            var out := UpdateReferences(g, db, name, db.envs[name], refs, delFaults, statusFault, addFaults);
            out.inst.statusRefs == Names(refs) <==> before == Names(refs) || ToSet(before) != ToSet(Names(refs))
  {
    var inst := db.envs[name];
    var o, del := OwnerOf(g, name, inst.uid), Minus(inst.statusRefs, Names(refs));
    DeleteOldEffect(db, o, del, delFaults, 0);
    PersistRefsEffect(DeleteOld(db, o, del, delFaults, 0).0, name, refs, statusFault);
  }

  /** The same two Secrets in the other order: the call succeeds and the stored list keeps the old order. */
  lemma OrderIsNotStored(a: string, b: string, db: Db, g: Group, name: string, refs: seq<Input>)
    requires a != b && name in db.envs && db.envs[name].statusRefs == [a, b] && Names(refs) == [b, a]
    requires forall i :: 0 <= i < |refs| ==> HasUid(refs[i].copy.refs, db.envs[name].uid)
    ensures var out := UpdateReferences(g, db, name, db.envs[name], refs, NoDelFault, Reliable, NoFault);
            out.ok && out.db == db && out.inst.statusRefs != Names(refs)
  {
    NothingToWrite(g, db, name, refs, NoDelFault, Reliable, NoFault);
    assert [a, b][0] != [b, a][0];
  }

  // ----- Controllers -----

  /** Adding an owner makes no controller and removes none of its UID. */
  lemma AddedControlled(refs: Refs, o: Owner)
    requires Unique(refs)
    requires forall r :: r in refs && r.uid == o.uid ==> Matches(r, o)
    ensures Controlled(AddRef(refs, o), o) <==> Controlled(refs, o)
  {
    if !HasUid(refs, o.uid) {
      DelRefEffect(refs, o);
      var d := DelRef(refs, o);
      assert forall i :: 0 <= i < |d| ==> d[i] in d && d[i] in refs;
      forall i | 0 <= i < |d|
        ensures d[i].uid != o.uid
      {
        var j :| 0 <= j < |refs| && refs[j] == d[i];
      }
      assert AddRef(refs, o) == d + [NewRef(o)];
    }
  }

  lemma UnmentionedUncontrolled(before: Refs, after: Refs, o: Owner)
    requires Others(after, o) == Others(before, o) && !Mentions(after, o)
    requires forall r :: r in before && r.uid == o.uid ==> Matches(r, o)
    ensures !Controlled(after, o)
  {
    OthersMembers(before, o);
    OthersMembers(after, o);
    forall i | 0 <= i < |after|
      ensures after[i].uid != o.uid
    {
      assert after[i] in after && !Matches(after[i], o);
      assert after[i] in Others(before, o);
    }
  }

  lemma ControllerAfterLists(db: Db, o: Owner, del: seq<string>, refs: seq<Input>, delFaults: DelFaults, addFaults: Faults,
                             persisted: Db, n: string)
    requires UniqueLists(db) && CurrentFrom(db, refs, 0) && NoRepeats(refs, o.uid) && n in db.secrets
    requires forall k :: 0 <= k < |refs| ==> refs[k].name !in del
    requires forall r :: r in db.secrets[n].refs && r.uid == o.uid ==> Matches(r, o)
    requires var (deleted, ok) := DeleteOld(db, o, del, delFaults, 0); ok && persisted.secrets == deleted.secrets
    requires AddNew(persisted, o, refs, addFaults, 0).1
    ensures var after := AddNew(persisted, o, refs, addFaults, 0).0;
            n in after.secrets
            && (Controlled(after.secrets[n].refs, o) <==> Controlled(db.secrets[n].refs, o) && n !in del)
  {
    ListAfterUpdate(db, o, del, refs, delFaults, addFaults, persisted, n);
    DeleteOldEffect(db, o, del, delFaults, 0);
    if n in Names(refs) {
      AddedControlled(db.secrets[n].refs, o);
    } else if n in del {
      UnmentionedUncontrolled(db.secrets[n].refs, persisted.secrets[n].refs, o);
    }
  }

  /** A deletion goes by name, kind and API version only. After a call that succeeds the owner controls a Secret if and only
      if it did before and the Secret is not one that was listed and no longer is. */
  lemma ControlledAfterUpdateIff(g: Group, db: Db, name: string, refs: seq<Input>,
                                 delFaults: DelFaults, statusFault: Fault, addFaults: Faults, n: string)
    requires Managed(g, db, name) && CurrentFrom(db, refs, 0) && NoRepeats(refs, db.envs[name].uid) && n in db.secrets
    ensures var o := OwnerOf(g, name, db.envs[name].uid);
            var out := UpdateReferences(g, db, name, db.envs[name], refs, delFaults, statusFault, addFaults);
            out.ok ==>
              n in out.db.secrets
              && (Controlled(out.db.secrets[n].refs, o)
                  <==> Controlled(db.secrets[n].refs, o) && (n !in db.envs[name].statusRefs || n in Names(refs)))
  {
    var inst := db.envs[name];
    var o, del := OwnerOf(g, name, inst.uid), Minus(inst.statusRefs, Names(refs));
    if UpdateReferences(g, db, name, inst, refs, delFaults, statusFault, addFaults).ok {
      var deleted := DeleteOld(db, o, del, delFaults, 0).0;
      DeleteOldEffect(db, o, del, delFaults, 0);
      PersistRefsEffect(deleted, name, refs, statusFault);
      assert forall k :: 0 <= k < |refs| ==> Names(refs)[k] !in del;
      ControllerAfterLists(db, o, del, refs, delFaults, addFaults,
                           PersistRefs(deleted, name, inst, refs, statusFault).db, n);
    }
  }

  /** So a Secret that the resource controls, listed as an input and then no longer, loses its controller. */
  lemma UnlistedOutputLosesController(g: Group, db: Db, name: string, refs: seq<Input>,
                                      delFaults: DelFaults, statusFault: Fault, addFaults: Faults, n: string)
    requires Managed(g, db, name) && CurrentFrom(db, refs, 0) && NoRepeats(refs, db.envs[name].uid) && n in db.secrets
    requires Controlled(db.secrets[n].refs, OwnerOf(g, name, db.envs[name].uid))
    requires n in db.envs[name].statusRefs && n !in Names(refs)
    ensures var out := UpdateReferences(g, db, name, db.envs[name], refs, delFaults, statusFault, addFaults);
            out.ok ==> n in out.db.secrets
                       && !Controlled(out.db.secrets[n].refs, OwnerOf(g, name, db.envs[name].uid))
  {
    ControlledAfterUpdateIff(g, db, name, refs, delFaults, statusFault, addFaults, n);
  }

  // ----- The handler -----

  class Api {
    var rev: nat
    var envs: map<string, Env>
    var secrets: map<string, Secret>

    constructor (db: Db)
      ensures View() == db
    {
      rev, envs, secrets := db.rev, db.envs, db.secrets;
    }

    function View(): Db
      reads this
    {
      Db(rev, envs, secrets)
    }

    method Update(name: string, s: Secret, f: Fault) returns (a: Answer)
      modifies this`rev, this`secrets
      ensures (View(), a) == UpdateSecret(old(View()), name, s, f)
    {
      if f.DroppedRequest? {
        return Rejected;
      }
      if name !in secrets {
        return if f.Reliable? then Missing else Rejected;
      }
      if secrets[name].version != s.version {
        return Rejected;
      }
      rev := rev + 1;
      secrets := secrets[name := s.(version := rev)];
      return if f.Reliable? then Accepted else Rejected;
    }

    method Create(name: string, refs: Refs, data: string, f: Fault) returns (ok: bool)
      modifies this`rev, this`secrets
      ensures (View(), ok)
           == if f.DroppedRequest? || name in old(secrets) then (old(View()), false)
              else (old(View()).(rev := old(rev) + 1, secrets := old(secrets)[name := Secret(old(rev) + 1, refs, data)]),
                    f.Reliable?)
    {
      if f.DroppedRequest? || name in secrets {
        return false;
      }
      rev := rev + 1;
      secrets := secrets[name := Secret(rev, refs, data)];
      return f.Reliable?;
    }

    method UpdateStatus(name: string, inst: Env, f: Fault) returns (stored: Option<Env>)
      modifies this`rev, this`envs
      ensures (View(), stored) == PutEnvStatus(old(View()), name, inst, f)
    {
      if f.DroppedRequest? || name !in envs || envs[name].version != inst.version {
        return None;
      }
      rev := rev + 1;
      var e := envs[name].(version := rev, statusRefs := inst.statusRefs, condition := inst.condition);
      envs := envs[name := e];
      return if f.Reliable? then Some(e) else None;
    }

    method UpdateFinalizer(name: string, inst: Env, finalizer: bool, f: Fault) returns (ok: bool)
      modifies this`rev, this`envs
      ensures (View(), ok) == PutEnvFinalizer(old(View()), name, inst, finalizer, f)
    {
      if f.DroppedRequest? || name !in envs || envs[name].version != inst.version {
        return false;
      }
      rev := rev + 1;
      var e := envs[name].(version := rev, finalizer := finalizer);
      envs := if e.deleting && !finalizer && !e.otherFinalizers then envs - {name} else envs[name := e];
      return f.Reliable?;
    }
  }

  /** The fetched ImageBuildEnv whose status the handler reads and rewrites. */
  class ReferenceOwner {
    const name: string
    var env: Env

    constructor (name: string, env: Env)
      ensures this.name == name && this.env == env
    {
      this.name, this.env := name, env;
    }

    method SetStatusReferences(refs: seq<Input>)
      modifies this
      ensures env == old(env).(statusRefs := Names(refs))
    {
      var names := [];
      for i := 0 to |refs|
        invariant env == old(env) && |names| == i
        invariant forall k :: 0 <= k < i ==> names[k] == refs[k].name
      {
        names := names + [refs[i].name];
      }
      assert names == Names(refs);
      env := env.(statusRefs := names);
    }
  }

  class Handler {
    const group: Group
    const api: Api

    constructor (group: Group, api: Api)
      ensures this.group == group && this.api == api
    {
      this.group := group;
      this.api := api;
    }

    method RefKeys(refs: seq<string>) returns (keys: set<string>)
      ensures keys == ToSet(refs)
    {
      keys := {};
      for i := 0 to |refs|
        invariant keys == ToSet(refs[..i])
      {
        assert refs[..i + 1] == refs[..i] + [refs[i]];
        keys := keys + {refs[i]};
      }
      assert refs[..|refs|] == refs;
    }

    method DiffRefs(oldRefs: seq<string>, newRefs: seq<string>) returns (del: seq<string>, add: seq<string>)
      ensures del == Minus(oldRefs, newRefs) && add == Minus(newRefs, oldRefs)
    {
      var oldKeys := RefKeys(oldRefs);
      var newKeys := RefKeys(newRefs);
      del := [];
      for i := 0 to |oldRefs|
        invariant del == Minus(oldRefs[..i], newRefs)
      {
        assert oldRefs[..i + 1][..i] == oldRefs[..i];
        if oldRefs[i] !in newKeys {
          del := del + [oldRefs[i]];
        }
      }
      assert oldRefs[..|oldRefs|] == oldRefs;
      add := [];
      for i := 0 to |newRefs|
        invariant add == Minus(newRefs[..i], oldRefs)
      {
        assert newRefs[..i + 1][..i] == newRefs[..i];
        if newRefs[i] !in oldKeys {
          add := add + [newRefs[i]];
        }
      }
      assert newRefs[..|newRefs|] == newRefs;
    }

    method DeleteOldRefs(o: Owner, names: seq<string>, faults: DelFaults) returns (ok: bool)
      modifies api
      ensures (api.View(), ok) == DeleteOld(old(api.View()), o, names, faults, 0)
    {
      for i := 0 to |names|
        invariant DeleteOld(old(api.View()), o, names, faults, 0) == DeleteOld(api.View(), o, names, faults, i)
      {
        var name := names[i];
        if faults(i).ReadFails? {
          return false;
        }
        if name in api.secrets {
          var secret := api.secrets[name];
          var referrer := new Referrer(secret.refs);
          var deleted := referrer.DelReference(o);
          if deleted {
            var refs := referrer.List();
            var a := api.Update(name, secret.(refs := refs), faults(i).f);
            if a == Rejected {
              return false;
            }
          }
        }
      }
      return true;
    }

    method AddNewRefs(o: Owner, refs: seq<Input>, faults: Faults) returns (ok: bool)
      modifies api
      ensures (api.View(), ok) == AddNew(old(api.View()), o, refs, faults, 0)
    {
      for i := 0 to |refs|
        invariant AddNew(old(api.View()), o, refs, faults, 0) == AddNew(api.View(), o, refs, faults, i)
      {
        var referrer := new Referrer(refs[i].copy.refs);
        var added := referrer.AddReference(o);
        if added {
          var list := referrer.List();
          var a := api.Update(refs[i].name, refs[i].copy.(refs := list), faults(i));
          if a != Accepted {
            return false;
          }
        }
      }
      return true;
    }

    /** Deletes the old back references, then persists the new list, then adds the new back references. */
    method UpdateRefs(owner: ReferenceOwner, refs: seq<Input>, delFaults: DelFaults, statusFault: Fault, addFaults: Faults)
      returns (ok: bool)
      modifies api, owner
      ensures Outcome(api.View(), owner.env, ok)
              == UpdateReferences(group, old(api.View()), owner.name, old(owner.env), refs, delFaults, statusFault, addFaults)
    {
      var o := OwnerOf(group, owner.name, owner.env.uid);
      var del, add := DiffRefs(owner.env.statusRefs, Names(refs));
      ok := DeleteOldRefs(o, del, delFaults);
      if !ok {
        return false;
      }
      if |del| > 0 || |add| > 0 {
        owner.SetStatusReferences(refs);
        var stored := api.UpdateStatus(owner.name, owner.env, statusFault);
        if stored.None? {
          return false;
        }
        owner.env := stored.value;
      }
      ok := AddNewRefs(o, refs, addFaults);
    }
  }
}
