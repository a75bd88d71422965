/** Owner references as back references: the list algebra of `AddReference` and `DelReference`. */
module OwnerRefs {

  datatype OwnerReference = OwnerReference(
    apiVersion: string, kind: string, name: string, uid: string, controller: bool, blockOwnerDeletion: bool)

  /** The referenced object; reading its kind requires that it was fetched. */
  datatype Owner = Owner(apiVersion: string, kind: string, name: string, uid: string)

  type Refs = seq<OwnerReference>

  predicate Matches(ref: OwnerReference, o: Owner) {
    ref.name == o.name && ref.kind == o.kind && ref.apiVersion == o.apiVersion
  }

  predicate SameOwner(a: OwnerReference, b: OwnerReference) {
    a.name == b.name && a.kind == b.kind && a.apiVersion == b.apiVersion
  }

  predicate HasUid(refs: Refs, uid: string) {
    exists i :: 0 <= i < |refs| && refs[i].uid == uid
  }

  predicate Mentions(refs: Refs, o: Owner) {
    exists i :: 0 <= i < |refs| && Matches(refs[i], o)
  }

  lemma MentionsTail(refs: Refs, o: Owner)
    requires refs != []
    ensures Mentions(refs, o) <==> Matches(refs[0], o) || Mentions(refs[1..], o)
  {
    assert forall i :: 0 < i < |refs| ==> refs[i] == refs[1..][i - 1];
    if Mentions(refs[1..], o) {
      var i :| 0 <= i < |refs[1..]| && Matches(refs[1..][i], o);
      assert Matches(refs[i + 1], o);
    }
  }

  /** At most one entry for each name, kind and API version. */
  predicate Unique(refs: Refs) {
    forall i, j :: 0 <= i < j < |refs| ==> !SameOwner(refs[i], refs[j])
  }

  function NewRef(o: Owner): OwnerReference {
    OwnerReference(o.apiVersion, o.kind, o.name, o.uid, false, false)
  }

  /** The list without the first entry that names the owner. */
  function DelRef(refs: Refs, o: Owner): (r: Refs)
    ensures !Mentions(refs, o) ==> r == refs
    ensures Mentions(refs, o) ==> |r| == |refs| - 1
  {
    if refs == [] then []
    else if Matches(refs[0], o) then refs[1..]
    else
      MentionsTail(refs, o);
      [refs[0]] + DelRef(refs[1..], o)
  }

  function AddRef(refs: Refs, o: Owner): Refs {
    if HasUid(refs, o.uid) then refs else DelRef(refs, o) + [NewRef(o)]
  }

  /** The entries of every owner but this one, in their order. */
  function Others(refs: Refs, o: Owner): Refs {
    if refs == [] then []
    else if Matches(refs[0], o) then Others(refs[1..], o)
    else [refs[0]] + Others(refs[1..], o)
  }

  lemma {:induction false} OthersConcat(a: Refs, b: Refs, o: Owner)
    ensures Others(a + b, o) == Others(a, o) + Others(b, o)
  {
    if a == [] {
      assert a + b == b;
    } else {
      assert (a + b)[1..] == a[1..] + b;
      OthersConcat(a[1..], b, o);
    }
  }

  lemma {:induction false} UniqueTail(refs: Refs)
    requires Unique(refs) && refs != []
    ensures Unique(refs[1..])
    ensures forall i :: 0 <= i < |refs[1..]| ==> !SameOwner(refs[0], refs[1..][i])
  {
    assert forall i :: 0 <= i < |refs[1..]| ==> refs[1..][i] == refs[i + 1];
  }

  lemma {:induction false} OthersMembers(refs: Refs, o: Owner)
    ensures forall r :: r in Others(refs, o) <==> r in refs && !Matches(r, o)
  {
    if refs != [] {
      assert refs == [refs[0]] + refs[1..];
      OthersMembers(refs[1..], o);
    }
  }

  lemma {:induction false} OthersUnique(refs: Refs, o: Owner)
    requires Unique(refs)
    ensures Unique(Others(refs, o))
  {
    if refs != [] {
      UniqueTail(refs);
      OthersUnique(refs[1..], o);
      OthersMembers(refs[1..], o);
      var rest := Others(refs[1..], o);
      forall i | 0 <= i < |rest|
        ensures !SameOwner(refs[0], rest[i])
      {
        assert rest[i] in refs[1..];
      }
    }
  }

  lemma {:induction false} OthersIdentity(refs: Refs, o: Owner)
    requires !Mentions(refs, o)
    ensures Others(refs, o) == refs
  {
    if refs != [] {
      MentionsTail(refs, o);
      OthersIdentity(refs[1..], o);
    }
  }

  lemma {:induction false} DelRefIsOthers(refs: Refs, o: Owner)
    requires Unique(refs)
    ensures DelRef(refs, o) == Others(refs, o)
  {
    if refs != [] {
      UniqueTail(refs);
      if Matches(refs[0], o) {
        assert !Mentions(refs[1..], o);
        OthersIdentity(refs[1..], o);
      } else {
        DelRefIsOthers(refs[1..], o);
      }
    }
  }

  /** Deleting: no entry of the owner is left, uniqueness stays, all other entries keep their order. */
  lemma DelRefEffect(refs: Refs, o: Owner)
    requires Unique(refs)
    ensures !Mentions(DelRef(refs, o), o)
    ensures DelRef(refs, o) == Others(refs, o)
    ensures Unique(DelRef(refs, o))
    ensures forall r :: r in DelRef(refs, o) <==> r in refs && !Matches(r, o)
  {
    DelRefIsOthers(refs, o);
    OthersUnique(refs, o);
    OthersMembers(refs, o);
    var d := DelRef(refs, o);
    assert forall i :: 0 <= i < |d| ==> d[i] in d;
  }

  /** Adding: the owner's UID is listed, uniqueness stays, all other owners' entries keep their order,
      and a list without the UID gets exactly one entry for the owner, replacing one with a stale UID. */
  lemma AddRefEffect(refs: Refs, o: Owner)
    requires Unique(refs)
    ensures HasUid(AddRef(refs, o), o.uid)
    ensures Unique(AddRef(refs, o))
    ensures Others(AddRef(refs, o), o) == Others(refs, o)
    ensures !HasUid(refs, o.uid) ==>
              AddRef(refs, o) == Others(refs, o) + [OwnerReference(o.apiVersion, o.kind, o.name, o.uid, false, false)]
              && forall r :: r in AddRef(refs, o) && Matches(r, o) ==> r.uid == o.uid
    ensures AddRef(AddRef(refs, o), o) == AddRef(refs, o)
  {
    if !HasUid(refs, o.uid) {
      DelRefEffect(refs, o);
      var d := DelRef(refs, o);
      assert AddRef(refs, o)[|d|] == NewRef(o);
      OthersConcat(d, [NewRef(o)], o);
      OthersIdentity(d, o);
      assert forall i :: 0 <= i < |d| ==> !Matches(d[i], o);
    }
  }

  /** Deleting after adding restores a list that did not have the owner. */
  lemma DelAfterAdd(refs: Refs, o: Owner)
    requires Unique(refs) && !Mentions(refs, o) && !HasUid(refs, o.uid)
    ensures DelRef(AddRef(refs, o), o) == refs
  {
    AddRefEffect(refs, o);
    DelRefEffect(refs, o);
    DelRefEffect(AddRef(refs, o), o);
    OthersIdentity(refs, o);
  }

  // ----- Sequences of operations -----

  datatype Op = Add(owner: Owner) | Del(owner: Owner)

  function Run(refs: Refs, ops: seq<Op>): Refs {
    if ops == [] then refs
    else
      var init := Run(refs, ops[..|ops| - 1]);
      match ops[|ops| - 1]
      case Add(o) => AddRef(init, o)
      case Del(o) => DelRef(init, o)
  }

  /** Entries of owners that no operation names. */
  function Untouched(refs: Refs, ops: seq<Op>): Refs {
    if ops == [] then refs else Others(Untouched(refs, ops[..|ops| - 1]), ops[|ops| - 1].owner)
  }

  lemma {:induction false} OthersCommute(refs: Refs, o: Owner, p: Owner)
    ensures Others(Others(refs, o), p) == Others(Others(refs, p), o)
  {
    if refs != [] {
      OthersCommute(refs[1..], o, p);
      assert !Matches(refs[0], o) ==> Others(refs, o)[1..] == Others(refs[1..], o);
      assert !Matches(refs[0], p) ==> Others(refs, p)[1..] == Others(refs[1..], p);
    }
  }

  lemma {:induction false} UntouchedOthers(refs: Refs, ops: seq<Op>, o: Owner)
    ensures Untouched(Others(refs, o), ops) == Others(Untouched(refs, ops), o)
  {
    if ops != [] {
      var n := |ops| - 1;
      UntouchedOthers(refs, ops[..n], o);
      OthersCommute(Untouched(refs, ops[..n]), o, ops[n].owner);
    }
  }

  /** Any sequence of operations keeps uniqueness and the entries, in order, of all owners it does not name. */
  lemma {:induction false} RunKeepsOthers(refs: Refs, ops: seq<Op>)
    requires Unique(refs)
    ensures Unique(Run(refs, ops))
    ensures Untouched(Run(refs, ops), ops) == Untouched(refs, ops)
  {
    if ops != [] {
      var n := |ops| - 1;
      var init, o := Run(refs, ops[..n]), ops[n].owner;
      RunKeepsOthers(refs, ops[..n]);
      DelRefEffect(init, o);
      AddRefEffect(init, o);
      OthersIdentity(DelRef(init, o), o);
      assert Others(Run(refs, ops), o) == Others(init, o);
      UntouchedOthers(Run(refs, ops), ops[..n], o);
      UntouchedOthers(init, ops[..n], o);
    }
  }

  // ----- The slice that the operator shifts in place -----

  /** An object's owner references: the first `len` cells of a backing array. */
  class Referrer {
    var cells: array<OwnerReference>
    var len: nat

    ghost predicate Valid()
      reads this
    {
      len <= cells.Length
    }

    ghost function Contents(): Refs
      requires Valid()
      reads this, cells
    {
      cells[..len]
    }

    constructor (refs: Refs)
      ensures Valid() && fresh(cells) && Contents() == refs
    {
      var a := new OwnerReference[|refs|](i requires 0 <= i < |refs| => refs[i]);
      cells := a;
      len := |refs|;
      new;
      assert cells[..len] == refs;
    }

    method List() returns (refs: Refs)
      requires Valid()
      ensures refs == Contents()
    {
      return cells[..len];
    }

    /** Removes the first entry of the owner by shifting its successors one cell down. */
    method DelReference(o: Owner) returns (deleted: bool)
      requires Valid()
      modifies this`len, cells
      ensures Valid() && cells == old(cells)
      ensures deleted == Mentions(old(Contents()), o)
      ensures Contents() == DelRef(old(Contents()), o)
    {
      ghost var before := Contents();
      for i := 0 to len
        invariant len == old(len) && Contents() == before
        invariant forall k :: 0 <= k < i ==> !Matches(before[k], o)
      {
        if Matches(cells[i], o) {
          assert Matches(before[i], o);
          Shift(i);
          DelRefAt(before, i, o);
          return true;
        }
      }
      return false;
    }

    method Shift(i: nat)
      requires Valid() && i < len
      modifies this`len, cells
      ensures Valid() && cells == old(cells)
      ensures Contents() == old(Contents()[..i] + Contents()[i + 1..])
    {
      ghost var before := Contents();
      for j := i to len - 1
        invariant len == old(len)
        invariant forall k :: 0 <= k < i ==> cells[k] == before[k]
        invariant forall k :: i <= k < j ==> cells[k] == before[k + 1]
        invariant forall k :: j <= k < len ==> cells[k] == before[k]
      {
        cells[j] := cells[j + 1];
      }
      len := len - 1;
      assert Contents() == before[..i] + before[i + 1..];
    }

    /** Adds the owner unless its UID is listed; the new entry reuses a spare cell when there is one. */
    method AddReference(o: Owner) returns (added: bool)
      requires Valid()
      modifies this, cells
      ensures Valid() && (cells == old(cells) || fresh(cells))
      ensures added == !HasUid(old(Contents()), o.uid)
      ensures Contents() == AddRef(old(Contents()), o)
    {
      ghost var before := Contents();
      for i := 0 to len
        invariant len == old(len) && cells == old(cells) && Contents() == before
        invariant forall k :: 0 <= k < i ==> before[k].uid != o.uid
      {
        if cells[i].uid == o.uid {
          assert before[i].uid == o.uid;
          return false;
        }
      }
      var _ := DelReference(o);
      Append(NewRef(o));
      return true;
    }

    /** Go's `append`: a full backing array is replaced by a larger one. */
    method Append(r: OwnerReference)
      requires Valid()
      modifies this, cells
      ensures Valid() && (cells == old(cells) || fresh(cells))
      ensures Contents() == old(Contents()) + [r]
    {
      ghost var before := Contents();
      if len == cells.Length {
        var grown := new OwnerReference[2 * len + 1](i requires 0 <= i && len <= cells.Length reads this, cells =>
          if i < len then cells[i] else r);
        assert grown[..len] == before;
        cells := grown;
      }
      cells[len] := r;
      len := len + 1;
      assert Contents() == before + [r];
    }
  }

  lemma {:induction false} DelRefAt(refs: Refs, i: nat, o: Owner)
    requires i < |refs| && Matches(refs[i], o)
    requires forall k :: 0 <= k < i ==> !Matches(refs[k], o)
    ensures DelRef(refs, o) == refs[..i] + refs[i + 1..]
  {
    if i > 0 {
      assert forall k :: 0 <= k < i - 1 ==> refs[1..][k] == refs[k + 1];
      DelRefAt(refs[1..], i - 1, o);
      assert refs[1..][..i - 1] == refs[1..i] && refs[1..][i..] == refs[i + 1..];
      assert refs[..i] == [refs[0]] + refs[1..i];
    }
  }
}
