/** The tracked state of a whole wrapper graph as a value: each wrapper's
    live property values and ledger, and its registered children in
    registration order. `AcceptChanges`, `RejectChanges` and `IsChanged` are
    specified here, once, on this value; the wrapper classes are proved to
    follow it. */
module Snapshots {
  import Ledger

  /** One `ModelWrapper`: its entity's properties with its ledger, and the
      views of its `_trackingObjects`. */
  datatype Snapshot = Snapshot(state: Ledger.State, kids: seq<Kid>)

  /** A registered tracking object: a complex child wrapper, or a collection
      with its member wrappers in order. */
  datatype Kid = ComplexKid(node: Snapshot) | CollectionKid(members: seq<Snapshot>)

  /** `IsChanged`: the ledger is non-empty or some registered child is
      changed. */
  predicate Changed(s: Snapshot) {
    |s.state.ledger| > 0 || exists i :: 0 <= i < |s.kids| && KidChanged(s.kids[i])
  }

  predicate KidChanged(k: Kid) {
    match k
    case ComplexKid(n) => Changed(n)
    case CollectionKid(ms) => exists j :: 0 <= j < |ms| && Changed(ms[j])
  }

  /** `AcceptChanges`: clear every ledger; no property value is touched. */
  function Accepted(s: Snapshot): Snapshot {
    Snapshot(Ledger.State(s.state.live, map[]),
             seq(|s.kids|, i requires 0 <= i < |s.kids| => AcceptedKid(s.kids[i])))
  }

  function AcceptedKid(k: Kid): Kid {
    match k
    case ComplexKid(n) => ComplexKid(Accepted(n))
    case CollectionKid(ms) => CollectionKid(seq(|ms|, j requires 0 <= j < |ms| => Accepted(ms[j])))
  }

  /** `RejectChanges`: write every recorded original back and clear every
      ledger. */
  function Rejected(s: Snapshot): Snapshot {
    Snapshot(Ledger.State(Ledger.Checkpoint(s.state), map[]),
             seq(|s.kids|, i requires 0 <= i < |s.kids| => RejectedKid(s.kids[i])))
  }

  function RejectedKid(k: Kid): Kid {
    match k
    case ComplexKid(n) => ComplexKid(Rejected(n))
    case CollectionKid(ms) => CollectionKid(seq(|ms|, j requires 0 <= j < |ms| => Rejected(ms[j])))
  }

  /** `s` with its first `n` children accepted (`accept`) or rejected, as
      the loops of `AcceptChanges` and `RejectChanges` leave it part-way. */
  ghost function Settled(s: Snapshot, n: nat, accept: bool): Snapshot {
    Snapshot(s.state, seq(|s.kids|, i requires 0 <= i < |s.kids| =>
      if i < n then SettledKid(s.kids[i], accept) else s.kids[i]))
  }

  function SettledKid(k: Kid, accept: bool): Kid {
    if accept then AcceptedKid(k) else RejectedKid(k)
  }

  /** One more step of either loop settles child `n`. */
  lemma SettleOneMore(s: Snapshot, n: nat, accept: bool)
    requires n < |s.kids|
    ensures var p := Settled(s, n, accept);
      p.kids[n] == s.kids[n] &&
      Settled(s, n + 1, accept) == Snapshot(s.state, p.kids[n := SettledKid(s.kids[n], accept)])
  {
    var p := Settled(s, n, accept);
    assert Settled(s, n + 1, accept).kids == p.kids[n := SettledKid(s.kids[n], accept)];
  }

  /** After the whole loop every child is settled. */
  lemma SettledAll(s: Snapshot, accept: bool)
    ensures Settled(s, |s.kids|, accept).kids == (if accept then Accepted(s) else Rejected(s)).kids
  {
  }

  /** The ledger invariant at every wrapper of the graph. */
  ghost predicate Consistent(s: Snapshot) {
    Ledger.Consistent(s.state) && forall i :: 0 <= i < |s.kids| ==> KidConsistent(s.kids[i])
  }

  ghost predicate KidConsistent(k: Kid) {
    match k
    case ComplexKid(n) => Consistent(n)
    case CollectionKid(ms) => forall j :: 0 <= j < |ms| ==> Consistent(ms[j])
  }

  /** After `AcceptChanges` nothing in the graph is changed. */
  lemma {:induction false} AcceptedIsUnchanged(s: Snapshot)
    ensures !Changed(Accepted(s))
  {
    forall i | 0 <= i < |s.kids| ensures !KidChanged(Accepted(s).kids[i]) {
      AcceptedKidIsUnchanged(s.kids[i]);
    }
  }

  lemma {:induction false} AcceptedKidIsUnchanged(k: Kid)
    ensures !KidChanged(AcceptedKid(k))
  {
    match k
    case ComplexKid(n) => AcceptedIsUnchanged(n);
    case CollectionKid(ms) =>
      forall j | 0 <= j < |ms| ensures !Changed(Accepted(ms[j])) {
        AcceptedIsUnchanged(ms[j]);
      }
  }

  /** After `RejectChanges` nothing in the graph is changed. */
  lemma {:induction false} RejectedIsUnchanged(s: Snapshot)
    ensures !Changed(Rejected(s))
  {
    forall i | 0 <= i < |s.kids| ensures !KidChanged(Rejected(s).kids[i]) {
      RejectedKidIsUnchanged(s.kids[i]);
    }
  }

  lemma {:induction false} RejectedKidIsUnchanged(k: Kid)
    ensures !KidChanged(RejectedKid(k))
  {
    match k
    case ComplexKid(n) => RejectedIsUnchanged(n);
    case CollectionKid(ms) =>
      forall j | 0 <= j < |ms| ensures !Changed(Rejected(ms[j])) {
        RejectedIsUnchanged(ms[j]);
      }
  }

  /** On an unchanged graph both `AcceptChanges` and `RejectChanges` leave
      the tracked state as it is. */
  lemma {:induction false} UnchangedIsFixpoint(s: Snapshot)
    requires !Changed(s)
    ensures Accepted(s) == s && Rejected(s) == s
  {
    assert s.state.ledger == map[];
    forall i | 0 <= i < |s.kids|
      ensures AcceptedKid(s.kids[i]) == s.kids[i] && RejectedKid(s.kids[i]) == s.kids[i]
    {
      UnchangedKidIsFixpoint(s.kids[i]);
    }
  }

  lemma {:induction false} UnchangedKidIsFixpoint(k: Kid)
    requires !KidChanged(k)
    ensures AcceptedKid(k) == k && RejectedKid(k) == k
  {
    match k
    case ComplexKid(n) => UnchangedIsFixpoint(n);
    case CollectionKid(ms) =>
      forall j | 0 <= j < |ms| ensures Accepted(ms[j]) == ms[j] && Rejected(ms[j]) == ms[j] {
        UnchangedIsFixpoint(ms[j]);
      }
  }

  /** `AcceptChanges` is idempotent, and a `RejectChanges` or
      `AcceptChanges` right after either one changes nothing. */
  lemma SecondCallChangesNothing(s: Snapshot)
    ensures Accepted(Accepted(s)) == Accepted(s)
    ensures Rejected(Accepted(s)) == Accepted(s)
    ensures Accepted(Rejected(s)) == Rejected(s)
    ensures Rejected(Rejected(s)) == Rejected(s)
  {
    AcceptedIsUnchanged(s);
    UnchangedIsFixpoint(Accepted(s));
    RejectedIsUnchanged(s);
    UnchangedIsFixpoint(Rejected(s));
  }

  /** Both operations leave the ledger invariant in place everywhere. */
  lemma {:induction false} ResultsAreConsistent(s: Snapshot)
    ensures Consistent(Accepted(s)) && Consistent(Rejected(s))
  {
    forall i | 0 <= i < |s.kids|
      ensures KidConsistent(AcceptedKid(s.kids[i])) && KidConsistent(RejectedKid(s.kids[i]))
    {
      KidResultsAreConsistent(s.kids[i]);
    }
  }

  lemma {:induction false} KidResultsAreConsistent(k: Kid)
    ensures KidConsistent(AcceptedKid(k)) && KidConsistent(RejectedKid(k))
  {
    match k
    case ComplexKid(n) => ResultsAreConsistent(n);
    case CollectionKid(ms) =>
      forall j | 0 <= j < |ms| ensures Consistent(Accepted(ms[j])) && Consistent(Rejected(ms[j])) {
        ResultsAreConsistent(ms[j]);
      }
  }

  /** Under the ledger invariant, a graph is changed exactly when rejecting
      and accepting would leave different property values somewhere, i.e.
      when some property differs from its checkpoint. */
  lemma {:induction false} ChangedIffRejectDiffersFromAccept(s: Snapshot)
    requires Consistent(s)
    ensures Changed(s) <==> Rejected(s) != Accepted(s)
  {
    if Changed(s) {
      if |s.state.ledger| > 0 {
        var f :| f in s.state.ledger;
        assert Rejected(s).state.live[f] != Accepted(s).state.live[f];
      } else {
        var i :| 0 <= i < |s.kids| && KidChanged(s.kids[i]);
        KidChangedIffRejectDiffers(s.kids[i]);
        assert Rejected(s).kids[i] != Accepted(s).kids[i];
      }
    } else {
      UnchangedIsFixpoint(s);
    }
  }

  lemma {:induction false} KidChangedIffRejectDiffers(k: Kid)
    requires KidConsistent(k)
    ensures KidChanged(k) <==> RejectedKid(k) != AcceptedKid(k)
  {
    match k
    case ComplexKid(n) => ChangedIffRejectDiffersFromAccept(n);
    case CollectionKid(ms) =>
      if KidChanged(k) {
        var j :| 0 <= j < |ms| && Changed(ms[j]);
        ChangedIffRejectDiffersFromAccept(ms[j]);
        assert RejectedKid(k).members[j] != AcceptedKid(k).members[j];
      } else {
        UnchangedKidIsFixpoint(k);
      }
  }
}
