/** `AddressWrapper`: a `ModelWrapper<Address>` with the accessor triple
    (value, `...OriginalValue`, `...IsChanged`) of each of the four `Address`
    properties, and no children. */
module AddressWrappers {
  import opened Values
  import Ledger
  import Snapshots
  import opened Tracking

  /** The properties of an `Address`. */
  const AddressSchema: Schema :=
    map["Id" := IntKind, "City" := StringKind, "Street" := StringKind, "StreetNumber" := StringKind]

  /** `w` is an `AddressWrapper`: a valid wrapper without children around an
      entity with exactly the `Address` properties. */
  ghost predicate IsAddress(w: ModelWrapper)
    reads w, w.Repr
  {
    w.Valid() && w.children == [] && AddressFields(w)
  }

  /** The part of `IsAddress` the property accessors need: the model and the
      ledger hold `Address` properties, and the ledger is consistent. */
  ghost predicate AddressFields(w: ModelWrapper)
    reads w, w.model
  {
    Ledger.Consistent(w.State()) &&
    Conforms(w.model.fields, AddressSchema) && LedgerConforms(w.original, AddressSchema)
  }

  /** `new AddressWrapper(model)`. */
  method NewAddressWrapper(model: Entity?) returns (r: Result<ModelWrapper>)
    requires model != null ==> Conforms(model.fields, AddressSchema)
    ensures r.Failure? <==> model == null
    ensures r.Failure? ==> r.error == ArgumentNullException("model")
    ensures r.Success? ==>
      (fresh(r.value) && r.value.Repr == {r.value, model} &&
       IsAddress(r.value) && r.value.model == model && !r.value.IsChanged())
  {
    r := NewModelWrapper(model);
  }

  // Id

  /** The current value of `Id`, which is its original exactly when it
      is not recorded as changed. */
  function Id(w: ModelWrapper): (r: int)
    requires AddressFields(w)
    reads w, w.model
    ensures IntValue(r) == w.State().live["Id"]
    ensures Ledger.Consistent(w.State()) ==>
      (IntValue(r) == Ledger.Checkpoint(w.State())["Id"] <==> "Id" !in w.original)
  {
    w.GetValue("Id").i
  }

  /** The value at the last checkpoint, which `RejectChanges` restores;
      the current one when `Id` is not changed. */
  function IdOriginalValue(w: ModelWrapper): (r: int)
    requires AddressFields(w)
    reads w, w.model
    ensures IntValue(r) == Ledger.Checkpoint(w.State())["Id"]
    ensures !IdIsChanged(w) ==> r == Id(w)
  {
    w.GetOriginalValue("Id").i
  }

  function IdIsChanged(w: ModelWrapper): (r: bool)
    requires AddressFields(w)
    reads w, w.model
    ensures r <==> w.GetValue("Id") != w.GetOriginalValue("Id")
  {
    w.GetIsChanged("Id")
  }

  method SetId(w: ModelWrapper, value: int)
    requires IsAddress(w)
    modifies w`original, w`log, w.model`fields
    ensures IsAddress(w) && Id(w) == value
    ensures IdOriginalValue(w) == old(IdOriginalValue(w))
    ensures IdIsChanged(w) <==> value != IdOriginalValue(w)
    ensures Ledger.OthersUnchanged(old(w.State()), w.State(), "Id")
    ensures w.log == old(w.log) + Ledger.Notifications(old(w.State()), "Id", IntValue(value))
  {
    w.SetValue("Id", IntValue(value));
  }

  // City

  /** The current value of `City`, which is its original exactly when it
      is not recorded as changed. */
  function City(w: ModelWrapper): (r: Option<string>)
    requires AddressFields(w)
    reads w, w.model
    ensures StringValue(r) == w.State().live["City"]
    ensures Ledger.Consistent(w.State()) ==>
      (StringValue(r) == Ledger.Checkpoint(w.State())["City"] <==> "City" !in w.original)
  {
    w.GetValue("City").s
  }

  /** The value at the last checkpoint, which `RejectChanges` restores;
      the current one when `City` is not changed. */
  function CityOriginalValue(w: ModelWrapper): (r: Option<string>)
    requires AddressFields(w)
    reads w, w.model
    ensures StringValue(r) == Ledger.Checkpoint(w.State())["City"]
    ensures !CityIsChanged(w) ==> r == City(w)
  {
    w.GetOriginalValue("City").s
  }

  function CityIsChanged(w: ModelWrapper): (r: bool)
    requires AddressFields(w)
    reads w, w.model
    ensures r <==> w.GetValue("City") != w.GetOriginalValue("City")
  {
    w.GetIsChanged("City")
  }

  method SetCity(w: ModelWrapper, value: Option<string>)
    requires IsAddress(w)
    modifies w`original, w`log, w.model`fields
    ensures IsAddress(w) && City(w) == value
    ensures CityOriginalValue(w) == old(CityOriginalValue(w))
    ensures CityIsChanged(w) <==> value != CityOriginalValue(w)
    ensures Ledger.OthersUnchanged(old(w.State()), w.State(), "City")
    ensures w.log == old(w.log) + Ledger.Notifications(old(w.State()), "City", StringValue(value))
  {
    w.SetValue("City", StringValue(value));
  }

  // Street

  /** The current value of `Street`, which is its original exactly when it
      is not recorded as changed. */
  function Street(w: ModelWrapper): (r: Option<string>)
    requires AddressFields(w)
    reads w, w.model
    ensures StringValue(r) == w.State().live["Street"]
    ensures Ledger.Consistent(w.State()) ==>
      (StringValue(r) == Ledger.Checkpoint(w.State())["Street"] <==> "Street" !in w.original)
  {
    w.GetValue("Street").s
  }

  /** The value at the last checkpoint, which `RejectChanges` restores;
      the current one when `Street` is not changed. */
  function StreetOriginalValue(w: ModelWrapper): (r: Option<string>)
    requires AddressFields(w)
    reads w, w.model
    ensures StringValue(r) == Ledger.Checkpoint(w.State())["Street"]
    ensures !StreetIsChanged(w) ==> r == Street(w)
  {
    w.GetOriginalValue("Street").s
  }

  function StreetIsChanged(w: ModelWrapper): (r: bool)
    requires AddressFields(w)
    reads w, w.model
    ensures r <==> w.GetValue("Street") != w.GetOriginalValue("Street")
  {
    w.GetIsChanged("Street")
  }

  method SetStreet(w: ModelWrapper, value: Option<string>)
    requires IsAddress(w)
    modifies w`original, w`log, w.model`fields
    ensures IsAddress(w) && Street(w) == value
    ensures StreetOriginalValue(w) == old(StreetOriginalValue(w))
    ensures StreetIsChanged(w) <==> value != StreetOriginalValue(w)
    ensures Ledger.OthersUnchanged(old(w.State()), w.State(), "Street")
    ensures w.log == old(w.log) + Ledger.Notifications(old(w.State()), "Street", StringValue(value))
  {
    w.SetValue("Street", StringValue(value));
  }

  // StreetNumber

  /** The current value of `StreetNumber`, which is its original exactly when it
      is not recorded as changed. */
  function StreetNumber(w: ModelWrapper): (r: Option<string>)
    requires AddressFields(w)
    reads w, w.model
    ensures StringValue(r) == w.State().live["StreetNumber"]
    ensures Ledger.Consistent(w.State()) ==>
      (StringValue(r) == Ledger.Checkpoint(w.State())["StreetNumber"] <==> "StreetNumber" !in w.original)
  {
    w.GetValue("StreetNumber").s
  }

  /** The value at the last checkpoint, which `RejectChanges` restores; the current one when
      `StreetNumber` is not changed. */
  function StreetNumberOriginalValue(w: ModelWrapper): (r: Option<string>)
    requires AddressFields(w)
    reads w, w.model
    ensures StringValue(r) == Ledger.Checkpoint(w.State())["StreetNumber"]
    ensures !StreetNumberIsChanged(w) ==> r == StreetNumber(w)
  {
    w.GetOriginalValue("StreetNumber").s
  }

  function StreetNumberIsChanged(w: ModelWrapper): (r: bool)
    requires AddressFields(w)
    reads w, w.model
    ensures r <==> w.GetValue("StreetNumber") != w.GetOriginalValue("StreetNumber")
  {
    w.GetIsChanged("StreetNumber")
  }

  method SetStreetNumber(w: ModelWrapper, value: Option<string>)
    requires IsAddress(w)
    modifies w`original, w`log, w.model`fields
    ensures IsAddress(w) && StreetNumber(w) == value
    ensures StreetNumberOriginalValue(w) == old(StreetNumberOriginalValue(w))
    ensures StreetNumberIsChanged(w) <==> value != StreetNumberOriginalValue(w)
    ensures Ledger.OthersUnchanged(old(w.State()), w.State(), "StreetNumber")
    ensures w.log == old(w.log) + Ledger.Notifications(old(w.State()), "StreetNumber", StringValue(value))
  {
    w.SetValue("StreetNumber", StringValue(value));
  }

  /** An `AddressWrapper` registers no children, so it is changed exactly
      when one of its four properties is. */
  lemma IsChangedIffSomeProperty(w: ModelWrapper)
    requires IsAddress(w)
    ensures w.IsChanged() <==>
      IdIsChanged(w) || CityIsChanged(w) || StreetIsChanged(w) || StreetNumberIsChanged(w)
  {
    if |w.original| > 0 {
      var f :| f in w.original;
      assert f in AddressSchema;
    }
  }

  /** `RejectChanges` and `AcceptChanges` keep an `AddressWrapper` one. */
  lemma StaysAddress(w: ModelWrapper, v: Snapshots.Snapshot)
    requires w.Valid() && w.children == []
    requires Conforms(v.state.live, AddressSchema) && LedgerConforms(v.state.ledger, AddressSchema)
    requires w.View() == Snapshots.Rejected(v) || w.View() == Snapshots.Accepted(v)
    ensures IsAddress(w)
  {
    Ledger.CheckpointConforms(v.state, AddressSchema);
  }

  /** City "Berlin" set to "Munich": the property is changed and remembers
      "Berlin"; after `RejectChanges` it is "Berlin" again and the wrapper is
      not changed. */
  method CityEditThenReject(model: Entity)
    returns (changed: bool, original: Option<string>, city: Option<string>, changedAfter: bool)
    requires Conforms(model.fields, AddressSchema)
    requires model.fields["City"] == StringValue(Some("Berlin"))
    modifies model
    ensures changed && original == Some("Berlin")
    ensures city == Some("Berlin") && !changedAfter
  {
    var w := new ModelWrapper(model);
    SetCity(w, Some("Munich"));
    changed := CityIsChanged(w);
    original := CityOriginalValue(w);
    ghost var v := w.View();
    w.RejectChanges();
    StaysAddress(w, v);
    Snapshots.RejectedIsUnchanged(v);
    city := City(w);
    changedAfter := w.IsChanged();
  }

  /** Setting `Street` to another value and back clears `StreetIsChanged`;
      `City` and `CityIsChanged` are never touched. */
  method StreetSetBack(w: ModelWrapper, other: Option<string>)
    requires IsAddress(w) && !StreetIsChanged(w) && other != Street(w)
    modifies w`original, w`log, w.model`fields
    ensures IsAddress(w) && Street(w) == old(Street(w)) && !StreetIsChanged(w)
    ensures City(w) == old(City(w)) && CityIsChanged(w) == old(CityIsChanged(w))
  {
    var street := Street(w);
    SetStreet(w, other);
    assert StreetIsChanged(w);
    SetStreet(w, street);
  }
}
