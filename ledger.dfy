/** The original-value ledger of one wrapper, as pure functions: what
    `SetValue` and `UpdateOriginalValue` do to the wrapped entity's property
    values and to `_originalValues`, and which notifications they raise. */
module Ledger {
  import opened Values

  /** The live property values of one entity together with the wrapper's
      ledger, which maps a property name to the value it had at the last
      checkpoint. */
  datatype State = State(live: Fields, ledger: Fields)

  /** The value of every property at the last checkpoint: the ledger entry
      when there is one, the live value otherwise. This is what
      `GetOriginalValue` answers and what `RejectChanges` restores. */
  function Checkpoint(st: State): Fields {
    st.live + st.ledger
  }

  /** The ledger invariant: only properties of the entity are recorded, and
      each recorded original differs from the live value. */
  ghost predicate Consistent(st: State) {
    st.ledger.Keys <= st.live.Keys &&
    forall f :: f in st.ledger ==> st.ledger[f] != st.live[f]
  }

  /** The properties whose live value differs from `base`, each mapped to its
      value in `base`. */
  function Diff(live: Fields, base: Fields): Fields {
    map f | f in live && f in base && live[f] != base[f] :: base[f]
  }

  /** `UpdateOriginalValue`: record the current value the first time a
      property changes, drop the entry when the property is set back to its
      recorded original, and otherwise keep the recorded original. */
  function UpdateOriginal(ledger: Fields, name: string, current: Value, newValue: Value): (r: Fields)
    ensures r - {name} == ledger - {name}
    ensures name in r <==> name !in ledger || ledger[name] != newValue
    ensures name in r ==> r[name] == if name in ledger then ledger[name] else current
  {
    if name !in ledger then ledger[name := current]
    else if ledger[name] == newValue then ledger - {name}
    else ledger
  }

  /** Whether `UpdateOriginalValue` adds or removes the entry of `name`, which
      is when it raises "IsChanged". */
  predicate EntryToggles(ledger: Fields, name: string, newValue: Value) {
    name !in ledger || ledger[name] == newValue
  }

  /** `SetValue(newValue, name)` on a known property: nothing happens when
      the value is equal to the current one; otherwise the ledger is updated
      and the value written. */
  function Set(st: State, name: string, newValue: Value): (r: State)
    requires name in st.live
    ensures r.live == st.live[name := newValue]
    ensures Checkpoint(r) == Checkpoint(st)
    ensures Consistent(st) ==> (name in r.ledger <==> newValue != Checkpoint(st)[name])
  {
    if st.live[name] == newValue then st
    else State(st.live[name := newValue], UpdateOriginal(st.ledger, name, st.live[name], newValue))
  }

  /** The property names `SetValue` raises `PropertyChanged` for, in order. */
  function Notifications(st: State, name: string, newValue: Value): (r: seq<string>)
    requires name in st.live
    ensures r == [] <==> st.live[name] == newValue
    ensures r != [] ==> 2 <= |r| <= 3 && r[|r| - 2..] == [name, name + "IsChanged"]
    ensures |r| == 3 <==> st.live[name] != newValue && EntryToggles(st.ledger, name, newValue)
    ensures |r| == 3 ==> r[0] == "IsChanged"
  {
    if st.live[name] == newValue then []
    else (if EntryToggles(st.ledger, name, newValue) then ["IsChanged"] else []) + [name, name + "IsChanged"]
  }

  /** One assignment through a property setter. */
  datatype Write = Write(name: string, value: Value)

  ghost predicate Known(writes: seq<Write>, live: Fields) {
    forall i :: 0 <= i < |writes| ==> writes[i].name in live
  }

  /** The state after a sequence of assignments. */
  function SetAll(st: State, writes: seq<Write>): State
    requires Known(writes, st.live)
    decreases |writes|
  {
    if writes == [] then st
    else SetAll(Set(st, writes[0].name, writes[0].value), writes[1..])
  }

  /** One assignment keeps the ledger invariant and does not move the
      checkpoint. */
  lemma SetKeepsCheckpoint(st: State, name: string, newValue: Value)
    requires Consistent(st) && name in st.live
    ensures Consistent(Set(st, name, newValue))
    ensures Set(st, name, newValue).live.Keys == st.live.Keys
    ensures Checkpoint(Set(st, name, newValue)) == Checkpoint(st)
  {
    var st' := Set(st, name, newValue);
    if st.live[name] != newValue {
      forall f | f in st.live
        ensures Checkpoint(st')[f] == Checkpoint(st)[f]
      {
        if f == name && name in st.ledger && st.ledger[name] == newValue {
          assert f !in st'.ledger;
        }
      }
    }
  }

  /** The ledger is determined by the live values and the checkpoint: a
      state is consistent exactly when its ledger holds the properties that
      differ from the checkpoint, with their checkpoint values. */
  lemma ConsistentIffLedgerIsDiff(st: State)
    ensures Consistent(st) <==> st.ledger == Diff(st.live, Checkpoint(st))
  {
    var cp := Checkpoint(st);
    if Consistent(st) {
      forall f ensures f in st.ledger <==> f in Diff(st.live, cp) {
        if f in st.live && f !in st.ledger {
          assert cp[f] == st.live[f];
        }
      }
    }
    if st.ledger == Diff(st.live, cp) {
      forall f | f in st.ledger ensures f in st.live && st.ledger[f] != st.live[f] {
        assert f in Diff(st.live, cp);
      }
    }
  }

  /** Any sequence of assignments keeps the ledger invariant and the
      checkpoint. */
  lemma {:induction false} SetAllKeepsCheckpoint(st: State, writes: seq<Write>)
    requires Consistent(st) && Known(writes, st.live)
    ensures Consistent(SetAll(st, writes))
    ensures SetAll(st, writes).live.Keys == st.live.Keys
    ensures Checkpoint(SetAll(st, writes)) == Checkpoint(st)
    decreases |writes|
  {
    if writes != [] {
      var st' := Set(st, writes[0].name, writes[0].value);
      SetKeepsCheckpoint(st, writes[0].name, writes[0].value);
      assert Known(writes[1..], st'.live);
      SetAllKeepsCheckpoint(st', writes[1..]);
    }
  }

  /** Starting from a checkpoint `base` (an empty ledger), after any sequence
      of assignments a property is in the ledger exactly when its live value
      differs from its value in `base`, and the ledger holds that value. */
  lemma {:induction false} LedgerTracksBaseline(base: Fields, writes: seq<Write>)
    requires Known(writes, base)
    ensures SetAll(State(base, map[]), writes).ledger == Diff(SetAll(State(base, map[]), writes).live, base)
    ensures Checkpoint(SetAll(State(base, map[]), writes)) == base
  {
    var st := State(base, map[]);
    assert Checkpoint(st) == base;
    SetAllKeepsCheckpoint(st, writes);
    ConsistentIffLedgerIsDiff(SetAll(st, writes));
  }

  /** Once a property's original is recorded, assignments that never set the
      property back to that original leave the recorded value as it was: the
      ledger keeps the first captured original. */
  lemma {:induction false} OriginalIsKept(st: State, writes: seq<Write>, name: string)
    requires Known(writes, st.live) && name in st.ledger
    requires forall i :: 0 <= i < |writes| && writes[i].name == name ==> writes[i].value != st.ledger[name]
    ensures name in SetAll(st, writes).ledger
    ensures SetAll(st, writes).ledger[name] == st.ledger[name]
    decreases |writes|
  {
    if writes != [] {
      var st' := Set(st, writes[0].name, writes[0].value);
      assert Known(writes[1..], st'.live);
      OriginalIsKept(st', writes[1..], name);
    }
  }

  /** Setting a recorded property back to its original removes its entry. */
  lemma SetBackRemovesEntry(st: State, name: string)
    requires Consistent(st) && name in st.ledger
    ensures name in st.live
    ensures Set(st, name, st.ledger[name]).live[name] == st.ledger[name]
    ensures name !in Set(st, name, st.ledger[name]).ledger
  {
  }

  /** Every property other than `name` has the same value and the same
      ledger entry in `after` as in `before`. */
  ghost predicate OthersUnchanged(before: State, after: State, name: string) {
    forall f :: f in before.live && f != name ==>
      f in after.live && after.live[f] == before.live[f] &&
      (f in after.ledger <==> f in before.ledger) &&
      (f in before.ledger ==> after.ledger[f] == before.ledger[f])
  }

  /** An assignment leaves every other property's value and entry alone. */
  lemma SetLeavesOthers(st: State, name: string, newValue: Value)
    requires name in st.live
    ensures OthersUnchanged(st, Set(st, name, newValue), name)
  {
  }

  /** An assignment of a value of the property's type keeps the entity and
      its ledger well-typed. */
  lemma SetConforms(st: State, name: string, newValue: Value, schema: Schema)
    requires Conforms(st.live, schema) && LedgerConforms(st.ledger, schema)
    requires name in schema && KindOf(newValue) == schema[name]
    ensures Conforms(Set(st, name, newValue).live, schema)
    ensures LedgerConforms(Set(st, name, newValue).ledger, schema)
  {
  }

  /** The checkpoint of a well-typed state is well-typed. */
  lemma CheckpointConforms(st: State, schema: Schema)
    requires Conforms(st.live, schema) && LedgerConforms(st.ledger, schema)
    ensures Conforms(Checkpoint(st), schema)
  {
  }

  /** The notifications of one assignment: none when the value is equal to
      the current one; otherwise the property and its companion
      `...IsChanged` property, preceded by "IsChanged" exactly when the
      property's changed flag flips. */
  lemma NotificationsMatchFlags(st: State, name: string, newValue: Value)
    requires name in st.live
    ensures var n := Notifications(st, name, newValue);
      && (n == [] <==> st.live[name] == newValue)
      && (n != [] ==> n[|n| - 2..] == [name, name + "IsChanged"])
      && (|n| == 3 <==> (name in st.ledger) != (name in Set(st, name, newValue).ledger))
      && (|n| == 3 ==> n[0] == "IsChanged")
  {
  }
}
