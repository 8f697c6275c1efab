/** `FriendWrapper`: a `ModelWrapper<Friend>` with the accessor triple of
    each of the six scalar `Friend` properties, the `Address` complex child,
    the `Emails` collection child, and `Validate`.

    The base class's constructor is taken to run `InitializeComplexProperties`
    and then `InitializeCollectionProperties` once the model is set. */
module FriendWrappers {
  import opened Values
  import Ledger
  import Snapshots
  import opened Tracking
  import AddressWrappers
  import FriendEmailWrappers

  /** The scalar properties of a `Friend`. */
  const FriendSchema: Schema :=
    map["Id" := IntKind, "FriendGroupId" := IntKind, "FirstName" := StringKind,
        "LastName" := StringKind, "Birthday" := DateKind, "IsDeveloper" := BoolKind]

  /** Every member of `k` is a `FriendEmailWrapper`. */
  ghost predicate EmailMembers(k: TrackingCollection)
    reads k, k.Repr
  {
    k.Valid() &&
    forall j :: 0 <= j < |k.members| ==> FriendEmailWrappers.IsFriendEmail(k.members[j])
  }

  /** `k` is the `Emails` collection of a friend whose model list is `list`:
      every member is a `FriendEmailWrapper`, the collection re-synchronises
      `list` and only it, and `list` holds the members' models in order. */
  ghost predicate EmailsWired(k: TrackingCollection, list: EntityList?)
    reads k, k.Repr
  {
    EmailMembers(k) && list != null && k.handlers == [list] && list.items == k.Models()
  }

  /** `w` is a `FriendWrapper`: its model has the `Friend` properties, and
      its children are, in registration order, the wrapper of the model's
      `Address` and the collection of the model's `Emails`. */
  ghost predicate IsFriend(w: ModelWrapper)
    reads w, w.Repr
  {
    && w.Valid() && FriendFields(w)
    && |w.children| == 2 && w.children[0].Complex? && w.children[1].Collection?
    && w.children[0].wrapper.model == w.model.address
    && AddressWrappers.IsAddress(w.children[0].wrapper)
    && EmailsWired(w.children[1].collection, w.model.emails)
  }

  /** The part of `IsFriend` the property accessors need: the model and the
      ledger hold `Friend` properties, and the ledger is consistent. */
  ghost predicate FriendFields(w: ModelWrapper)
    reads w, w.model
  {
    Ledger.Consistent(w.State()) &&
    Conforms(w.model.fields, FriendSchema) && LedgerConforms(w.original, FriendSchema)
  }

  /** `Address`. */
  function Address(w: ModelWrapper): (a: ModelWrapper)
    requires IsFriend(w)
    reads w, w.Repr
    ensures AddressWrappers.IsAddress(a) && a.model == w.model.address
    ensures Complex(a) in w.children
  {
    w.children[0].wrapper
  }

  /** `Emails`. */
  function Emails(w: ModelWrapper): (k: TrackingCollection)
    requires IsFriend(w)
    reads w, w.Repr
    ensures EmailsWired(k, w.model.emails)
    ensures Collection(k) in w.children
  {
    w.children[1].collection
  }

  /** `model.Emails.Select(e => new FriendEmailWrapper(e))`: one fresh
      `FriendEmailWrapper` per email, in order, each with an empty ledger and
      no children. */
  method EmailWrappers(items: seq<Entity>) returns (members: seq<ModelWrapper>)
    requires forall j :: 0 <= j < |items| ==> Conforms(items[j].fields, FriendEmailWrappers.EmailSchema)
    ensures |members| == |items|
    ensures forall m :: 0 <= m < |members| ==>
      fresh(members[m]) && members[m].Repr == {members[m], items[m]} && members[m].Valid()
    ensures forall m :: 0 <= m < |members| ==>
      members[m].model == items[m] && members[m].original == map[] && members[m].children == []
    ensures forall m, n :: 0 <= m < n < |members| ==> members[m] != members[n]
  {
    members := [];
    var j := 0;
    while j < |items|
      invariant 0 <= j <= |items| && |members| == j
      invariant forall m :: 0 <= m < j ==>
        fresh(members[m]) && members[m].Repr == {members[m], items[m]} && members[m].Valid()
      invariant forall m :: 0 <= m < j ==>
        members[m].model == items[m] && members[m].original == map[] && members[m].children == []
      invariant forall m, n :: 0 <= m < n < j ==> members[m] != members[n]
    {
      var e := new ModelWrapper(items[j]);
      members := members + [e];
      j := j + 1;
    }
  }

  /** The entities of `items` are pairwise different objects. */
  predicate DistinctEntities(items: seq<Entity>) {
    forall j, m :: 0 <= j < m < |items| ==> items[j] != items[m]
  }

  /** Entities of two classes whose property sets differ are different
      objects: a `Friend`, an `Address` and a `FriendEmail` never coincide. */
  lemma SeparateSchemas(e: Entity, f: Entity, s: Schema, t: Schema, key: string)
    requires Conforms(e.fields, s) && Conforms(f.fields, t)
    requires key in s && key !in t
    ensures e != f
  {
    assert key in e.fields && key !in f.fields;
  }

  /** `new ChangeTrackingCollection<FriendEmailWrapper>(...)` over the
      wrappers of the emails of `list`: fresh objects only, apart from the
      emails. A list holding one email twice is refused, since the two
      wrappers would share their model. */
  method NewEmailsCollection(list: EntityList, ghost avoid: set<object>) returns (r: Result<TrackingCollection>)
    requires forall j :: 0 <= j < |list.items| ==>
      Conforms(list.items[j].fields, FriendEmailWrappers.EmailSchema) && list.items[j] !in avoid
    ensures r.Failure? <==> !DistinctEntities(list.items)
    ensures r.Failure? ==> r.error == SharedEntity("model.Emails")
    ensures r.Success? ==>
      var k := r.value;
      && fresh(k) && k.Valid() && k.handlers == [] && k.Repr !! avoid
      && |k.members| == |list.items|
      && forall j :: 0 <= j < |k.members| ==>
           k.members[j].model == list.items[j] && k.members[j].original == map[] &&
           k.members[j].children == [] && list !in k.members[j].Repr
  {
    if !DistinctEntities(list.items) {
      return Failure(SharedEntity("model.Emails"));
    }
    var members := EmailWrappers(list.items);
    var k := new TrackingCollection(members);
    FootprintDisjoint(members, avoid);
    return Success(k);
  }

  /** A collection of fresh `FriendEmailWrapper`s around the emails of
      `list` holds `FriendEmailWrapper`s, has the emails as its models, and
      is not changed. */
  lemma FreshEmailsCollection(k: TrackingCollection, list: EntityList)
    requires k.Valid() && |k.members| == |list.items|
    requires forall j :: 0 <= j < |k.members| ==>
      k.members[j].model == list.items[j] && k.members[j].original == map[] && k.members[j].children == []
    requires forall j :: 0 <= j < |list.items| ==>
      Conforms(list.items[j].fields, FriendEmailWrappers.EmailSchema)
    ensures EmailMembers(k) && k.Models() == list.items && !k.IsChanged()
  {
    assert k.Models() == list.items;
    forall j | 0 <= j < |k.members|
      ensures FriendEmailWrappers.IsFriendEmail(k.members[j]) && !k.members[j].IsChanged()
    {
    }
  }

  /** The state between the two initialisers: an unchanged wrapper of a
      `Friend` whose only child is a fresh `AddressWrapper` of the model's
      address. */
  ghost predicate AddressReady(w: ModelWrapper)
    reads w, w.Repr
  {
    && w.Valid() && w.original == map[] && Conforms(w.model.fields, FriendSchema)
    && |w.children| == 1 && w.children[0].Complex?
    && var a := w.children[0].wrapper;
       && a.model == w.model.address && AddressWrappers.IsAddress(a) && !a.IsChanged()
       && w.Repr == {w, w.model, a, w.model.address}
  }

  /** No email of a wrapper ready for its collections is the friend, its
      address or one of their wrappers. */
  lemma EmailsOutsideReady(w: ModelWrapper)
    requires AddressReady(w) && w.model.emails != null
    requires forall j :: 0 <= j < |w.model.emails.items| ==>
      Conforms(w.model.emails.items[j].fields, FriendEmailWrappers.EmailSchema)
    ensures forall j :: 0 <= j < |w.model.emails.items| ==> w.model.emails.items[j] !in w.Repr
  {
    var items := w.model.emails.items;
    forall j | 0 <= j < |items|
      ensures items[j] !in w.Repr
    {
      SeparateSchemas(items[j], w.model, FriendEmailWrappers.EmailSchema, FriendSchema, "Email");
      SeparateSchemas(items[j], w.model.address, FriendEmailWrappers.EmailSchema, AddressWrappers.AddressSchema, "Email");
    }
  }

  /** `InitializeComplexProperties(model)`: refuse a missing `Address`,
      otherwise wrap it and register the wrapper as a complex child. */
  method InitializeComplexProperties(w: ModelWrapper) returns (err: Option<Error>)
    requires w.Valid() && w.children == [] && w.Repr == {w, w.model} && w.original == map[]
    requires Conforms(w.model.fields, FriendSchema)
    requires w.model.address != null ==> Conforms(w.model.address.fields, AddressWrappers.AddressSchema)
    modifies w`children, w`Repr
    ensures w.model.address == null <==> err.Some?
    ensures w.model.address == null ==>
      err == Some(ArgumentException("Address cannot be null")) && w.children == [] && w.Repr == old(w.Repr)
    ensures w.model.address != null ==> AddressReady(w)
  {
    if w.model.address == null {
      return Some(ArgumentException("Address cannot be null"));
    }
    SeparateSchemas(w.model, w.model.address, FriendSchema, AddressWrappers.AddressSchema, "FirstName");
    var r := AddressWrappers.NewAddressWrapper(w.model.address);
    var a := r.value;
    w.RegisterComplex(a);
    return None;
  }

  /** `InitializeCollectionProperties(model)`: refuse missing `Emails`,
      otherwise wrap every email, collect the wrappers in a tracking
      collection, and register it together with `model.Emails`. An email
      listed twice is refused (see `NewEmailsCollection`). */
  method InitializeCollectionProperties(w: ModelWrapper) returns (err: Option<Error>)
    requires AddressReady(w)
    requires w.model.emails != null ==>
      forall j :: 0 <= j < |w.model.emails.items| ==>
        Conforms(w.model.emails.items[j].fields, FriendEmailWrappers.EmailSchema)
    modifies w`children, w`Repr
    ensures err.None? <==> w.model.emails != null && DistinctEntities(w.model.emails.items)
    ensures w.model.emails == null ==>
      err == Some(ArgumentException("Emails cannot be null")) && w.children == old(w.children)
    ensures w.model.emails != null && !DistinctEntities(w.model.emails.items) ==>
      err == Some(SharedEntity("model.Emails")) && w.children == old(w.children)
    ensures err.None? ==> IsFriend(w) && !w.IsChanged()
  {
    if w.model.emails == null {
      return Some(ArgumentException("Emails cannot be null"));
    }
    var list := w.model.emails;
    EmailsOutsideReady(w);
    var r := NewEmailsCollection(list, w.Repr);
    if r.Failure? {
      return Some(r.error);
    }
    RegisterEmails(w, r.value, list);
    return None;
  }

  /** The tracked state of a wrapper between the two initialisers: `Friend`
      properties with an empty ledger, and one unchanged `Address`. */
  lemma ReadyView(w: ModelWrapper)
    requires AddressReady(w)
    ensures var v := w.View();
      && StateConforms(v.state, FriendSchema) && |v.kids| == 1
      && v.kids[0].ComplexKid? && v.kids[0].node.kids == [] && !Snapshots.Changed(v.kids[0].node)
      && StateConforms(v.kids[0].node.state, AddressWrappers.AddressSchema)
  {
    assert w.View().kids[0] == Snapshots.ComplexKid(w.children[0].wrapper.View());
  }

  /** The tracked state of a collection of `FriendEmailWrapper`s. */
  lemma EmailViews(k: TrackingCollection)
    requires EmailMembers(k)
    ensures forall j :: 0 <= j < |k.View()| ==>
      k.View()[j].kids == [] && (k.members[j].IsChanged() <==> Snapshots.Changed(k.View()[j])) &&
      StateConforms(k.View()[j].state, FriendEmailWrappers.EmailSchema)
  {
  }

  /** `RegisterCollection(Emails, model.Emails)` on a friend whose `Address`
      is registered: the wrapper becomes a `FriendWrapper`, not changed. */
  method RegisterEmails(w: ModelWrapper, k: TrackingCollection, list: EntityList)
    requires AddressReady(w) && list == w.model.emails
    requires k.Valid() && k.handlers == [] && |k.members| == |list.items|
    requires forall j :: 0 <= j < |k.members| ==>
      k.members[j].model == list.items[j] && k.members[j].original == map[] && k.members[j].children == []
    requires forall j :: 0 <= j < |list.items| ==>
      Conforms(list.items[j].fields, FriendEmailWrappers.EmailSchema)
    requires k.Repr !! w.Repr && list !in w.Repr
    requires forall j :: 0 <= j < |k.members| ==> list !in k.members[j].Repr
    modifies w`children, w`Repr, k`handlers, k`Repr
    ensures IsFriend(w) && !w.IsChanged()
  {
    FreshEmailsCollection(k, list);
    ReadyView(w);
    EmailViews(k);
    w.RegisterCollection(k, list);
    assert Contents(k.handlers) == [list.items];
    FriendOfShape(w, list.items, k.members);
    assert !Snapshots.KidChanged(w.View().kids[1]);
  }

  /** `new FriendWrapper(model)`: the base construction refuses a null model;
      then the complex and the collection properties are initialised, in that
      order, each refusing a missing reference. */
  method NewFriendWrapper(model: Entity?) returns (r: Result<ModelWrapper>)
    requires model != null ==> Conforms(model.fields, FriendSchema)
    requires model != null && model.address != null ==>
      Conforms(model.address.fields, AddressWrappers.AddressSchema)
    requires model != null && model.emails != null ==>
      forall j :: 0 <= j < |model.emails.items| ==>
        Conforms(model.emails.items[j].fields, FriendEmailWrappers.EmailSchema)
    ensures r.Success? <==>
      model != null && model.address != null && model.emails != null && DistinctEntities(model.emails.items)
    ensures model == null ==> r == Failure(ArgumentNullException("model"))
    ensures model != null && model.address == null ==> r == Failure(ArgumentException("Address cannot be null"))
    ensures model != null && model.address != null && model.emails == null ==>
      r == Failure(ArgumentException("Emails cannot be null"))
    ensures (model != null && model.address != null && model.emails != null &&
             !DistinctEntities(model.emails.items)) ==> r == Failure(SharedEntity("model.Emails"))
    ensures r.Success? ==>
      (fresh(r.value) && r.value.model == model && IsFriend(r.value) &&
       r.value.original == map[] && !r.value.IsChanged())
  {
    var b := NewModelWrapper(model);
    if b.Failure? {
      r := Failure(b.error);
    } else {
      var w := b.value;
      var err := InitializeComplexProperties(w);
      if err.None? {
        err := InitializeCollectionProperties(w);
      }
      r := if err.Some? then Failure(err.value) else Success(w);
    }
  }

  /** `SetValue` on one of the `Friend` properties: it touches only the
      friend's own model and ledger, so the wrapper stays a `FriendWrapper`. */
  method SetFriendValue(w: ModelWrapper, name: string, value: Value)
    requires IsFriend(w)
    requires name in FriendSchema && KindOf(value) == FriendSchema[name]
    modifies w`original, w`log, w.model`fields
    ensures IsFriend(w)
    ensures w.State() == Ledger.Set(old(w.State()), name, value)
    ensures w.log == old(w.log) + Ledger.Notifications(old(w.State()), name, value)
    ensures Ledger.Checkpoint(w.State()) == old(Ledger.Checkpoint(w.State()))
    ensures Ledger.OthersUnchanged(old(w.State()), w.State(), name)
  {
    ShapeOfFriend(w);
    Ledger.SetConforms(w.State(), name, value, FriendSchema);
    w.SetValue(name, value);
    FriendOfSyncedShape(w);
  }

  // Id

  /** The current value of `Id`, which is its original exactly when it
      is not recorded as changed. */
  function Id(w: ModelWrapper): (r: int)
    requires FriendFields(w)
    reads w, w.model
    ensures IntValue(r) == w.State().live["Id"]
    ensures Ledger.Consistent(w.State()) ==>
      (IntValue(r) == Ledger.Checkpoint(w.State())["Id"] <==> "Id" !in w.original)
  {
    w.GetValue("Id").i
  }

  /** The value at the last checkpoint, which `RejectChanges` restores;
      the current one when `Id` is not changed. */
  function IdOriginalValue(w: ModelWrapper): (r: int)
    requires FriendFields(w)
    reads w, w.model
    ensures IntValue(r) == Ledger.Checkpoint(w.State())["Id"]
    ensures !IdIsChanged(w) ==> r == Id(w)
  {
    w.GetOriginalValue("Id").i
  }

  function IdIsChanged(w: ModelWrapper): (r: bool)
    requires FriendFields(w)
    reads w, w.model
    ensures r <==> w.GetValue("Id") != w.GetOriginalValue("Id")
  {
    w.GetIsChanged("Id")
  }

  method SetId(w: ModelWrapper, value: int)
    requires IsFriend(w)
    modifies w`original, w`log, w.model`fields
    ensures IsFriend(w) && Id(w) == value
    ensures IdOriginalValue(w) == old(IdOriginalValue(w))
    ensures IdIsChanged(w) <==> value != IdOriginalValue(w)
    ensures Ledger.OthersUnchanged(old(w.State()), w.State(), "Id")
    ensures w.log == old(w.log) + Ledger.Notifications(old(w.State()), "Id", IntValue(value))
  {
    SetFriendValue(w, "Id", IntValue(value));
  }

  // FriendGroupId

  /** The current value of `FriendGroupId`, which is its original exactly when it
      is not recorded as changed. */
  function FriendGroupId(w: ModelWrapper): (r: int)
    requires FriendFields(w)
    reads w, w.model
    ensures IntValue(r) == w.State().live["FriendGroupId"]
    ensures Ledger.Consistent(w.State()) ==>
      (IntValue(r) == Ledger.Checkpoint(w.State())["FriendGroupId"] <==> "FriendGroupId" !in w.original)
  {
    w.GetValue("FriendGroupId").i
  }

  /** The value at the last checkpoint, which `RejectChanges` restores;
      the current one when `FriendGroupId` is not changed. */
  function FriendGroupIdOriginalValue(w: ModelWrapper): (r: int)
    requires FriendFields(w)
    reads w, w.model
    ensures IntValue(r) == Ledger.Checkpoint(w.State())["FriendGroupId"]
    ensures !FriendGroupIdIsChanged(w) ==> r == FriendGroupId(w)
  {
    w.GetOriginalValue("FriendGroupId").i
  }

  function FriendGroupIdIsChanged(w: ModelWrapper): (r: bool)
    requires FriendFields(w)
    reads w, w.model
    ensures r <==> w.GetValue("FriendGroupId") != w.GetOriginalValue("FriendGroupId")
  {
    w.GetIsChanged("FriendGroupId")
  }

  method SetFriendGroupId(w: ModelWrapper, value: int)
    requires IsFriend(w)
    modifies w`original, w`log, w.model`fields
    ensures IsFriend(w) && FriendGroupId(w) == value
    ensures FriendGroupIdOriginalValue(w) == old(FriendGroupIdOriginalValue(w))
    ensures FriendGroupIdIsChanged(w) <==> value != FriendGroupIdOriginalValue(w)
    ensures Ledger.OthersUnchanged(old(w.State()), w.State(), "FriendGroupId")
    ensures w.log == old(w.log) + Ledger.Notifications(old(w.State()), "FriendGroupId", IntValue(value))
  {
    SetFriendValue(w, "FriendGroupId", IntValue(value));
  }

  // FirstName

  /** The current value of `FirstName`, which is its original exactly when it
      is not recorded as changed. */
  function FirstName(w: ModelWrapper): (r: Option<string>)
    requires FriendFields(w)
    reads w, w.model
    ensures StringValue(r) == w.State().live["FirstName"]
    ensures Ledger.Consistent(w.State()) ==>
      (StringValue(r) == Ledger.Checkpoint(w.State())["FirstName"] <==> "FirstName" !in w.original)
  {
    w.GetValue("FirstName").s
  }

  /** The value at the last checkpoint, which `RejectChanges` restores;
      the current one when `FirstName` is not changed. */
  function FirstNameOriginalValue(w: ModelWrapper): (r: Option<string>)
    requires FriendFields(w)
    reads w, w.model
    ensures StringValue(r) == Ledger.Checkpoint(w.State())["FirstName"]
    ensures !FirstNameIsChanged(w) ==> r == FirstName(w)
  {
    w.GetOriginalValue("FirstName").s
  }

  function FirstNameIsChanged(w: ModelWrapper): (r: bool)
    requires FriendFields(w)
    reads w, w.model
    ensures r <==> w.GetValue("FirstName") != w.GetOriginalValue("FirstName")
  {
    w.GetIsChanged("FirstName")
  }

  method SetFirstName(w: ModelWrapper, value: Option<string>)
    requires IsFriend(w)
    modifies w`original, w`log, w.model`fields
    ensures IsFriend(w) && FirstName(w) == value
    ensures FirstNameOriginalValue(w) == old(FirstNameOriginalValue(w))
    ensures FirstNameIsChanged(w) <==> value != FirstNameOriginalValue(w)
    ensures Ledger.OthersUnchanged(old(w.State()), w.State(), "FirstName")
    ensures w.log == old(w.log) + Ledger.Notifications(old(w.State()), "FirstName", StringValue(value))
  {
    SetFriendValue(w, "FirstName", StringValue(value));
  }

  // LastName

  /** The current value of `LastName`, which is its original exactly when it
      is not recorded as changed. */
  function LastName(w: ModelWrapper): (r: Option<string>)
    requires FriendFields(w)
    reads w, w.model
    ensures StringValue(r) == w.State().live["LastName"]
    ensures Ledger.Consistent(w.State()) ==>
      (StringValue(r) == Ledger.Checkpoint(w.State())["LastName"] <==> "LastName" !in w.original)
  {
    w.GetValue("LastName").s
  }

  /** The value at the last checkpoint, which `RejectChanges` restores;
      the current one when `LastName` is not changed. */
  function LastNameOriginalValue(w: ModelWrapper): (r: Option<string>)
    requires FriendFields(w)
    reads w, w.model
    ensures StringValue(r) == Ledger.Checkpoint(w.State())["LastName"]
    ensures !LastNameIsChanged(w) ==> r == LastName(w)
  {
    w.GetOriginalValue("LastName").s
  }

  function LastNameIsChanged(w: ModelWrapper): (r: bool)
    requires FriendFields(w)
    reads w, w.model
    ensures r <==> w.GetValue("LastName") != w.GetOriginalValue("LastName")
  {
    w.GetIsChanged("LastName")
  }

  method SetLastName(w: ModelWrapper, value: Option<string>)
    requires IsFriend(w)
    modifies w`original, w`log, w.model`fields
    ensures IsFriend(w) && LastName(w) == value
    ensures LastNameOriginalValue(w) == old(LastNameOriginalValue(w))
    ensures LastNameIsChanged(w) <==> value != LastNameOriginalValue(w)
    ensures Ledger.OthersUnchanged(old(w.State()), w.State(), "LastName")
    ensures w.log == old(w.log) + Ledger.Notifications(old(w.State()), "LastName", StringValue(value))
  {
    SetFriendValue(w, "LastName", StringValue(value));
  }

  // Birthday

  /** The current value of `Birthday`, which is its original exactly when it
      is not recorded as changed. */
  function Birthday(w: ModelWrapper): (r: Option<Date>)
    requires FriendFields(w)
    reads w, w.model
    ensures DateValue(r) == w.State().live["Birthday"]
    ensures Ledger.Consistent(w.State()) ==>
      (DateValue(r) == Ledger.Checkpoint(w.State())["Birthday"] <==> "Birthday" !in w.original)
  {
    w.GetValue("Birthday").d
  }

  /** The value at the last checkpoint, which `RejectChanges` restores;
      the current one when `Birthday` is not changed. */
  function BirthdayOriginalValue(w: ModelWrapper): (r: Option<Date>)
    requires FriendFields(w)
    reads w, w.model
    ensures DateValue(r) == Ledger.Checkpoint(w.State())["Birthday"]
    ensures !BirthdayIsChanged(w) ==> r == Birthday(w)
  {
    w.GetOriginalValue("Birthday").d
  }

  function BirthdayIsChanged(w: ModelWrapper): (r: bool)
    requires FriendFields(w)
    reads w, w.model
    ensures r <==> w.GetValue("Birthday") != w.GetOriginalValue("Birthday")
  {
    w.GetIsChanged("Birthday")
  }

  method SetBirthday(w: ModelWrapper, value: Option<Date>)
    requires IsFriend(w)
    modifies w`original, w`log, w.model`fields
    ensures IsFriend(w) && Birthday(w) == value
    ensures BirthdayOriginalValue(w) == old(BirthdayOriginalValue(w))
    ensures BirthdayIsChanged(w) <==> value != BirthdayOriginalValue(w)
    ensures Ledger.OthersUnchanged(old(w.State()), w.State(), "Birthday")
    ensures w.log == old(w.log) + Ledger.Notifications(old(w.State()), "Birthday", DateValue(value))
  {
    SetFriendValue(w, "Birthday", DateValue(value));
  }

  // IsDeveloper

  /** The current value of `IsDeveloper`, which is its original exactly when it
      is not recorded as changed. */
  function IsDeveloper(w: ModelWrapper): (r: bool)
    requires FriendFields(w)
    reads w, w.model
    ensures BoolValue(r) == w.State().live["IsDeveloper"]
    ensures Ledger.Consistent(w.State()) ==>
      (BoolValue(r) == Ledger.Checkpoint(w.State())["IsDeveloper"] <==> "IsDeveloper" !in w.original)
  {
    w.GetValue("IsDeveloper").b
  }

  /** The value at the last checkpoint, which `RejectChanges` restores;
      the current one when `IsDeveloper` is not changed. */
  function IsDeveloperOriginalValue(w: ModelWrapper): (r: bool)
    requires FriendFields(w)
    reads w, w.model
    ensures BoolValue(r) == Ledger.Checkpoint(w.State())["IsDeveloper"]
    ensures !IsDeveloperIsChanged(w) ==> r == IsDeveloper(w)
  {
    w.GetOriginalValue("IsDeveloper").b
  }

  function IsDeveloperIsChanged(w: ModelWrapper): (r: bool)
    requires FriendFields(w)
    reads w, w.model
    ensures r <==> w.GetValue("IsDeveloper") != w.GetOriginalValue("IsDeveloper")
  {
    w.GetIsChanged("IsDeveloper")
  }

  method SetIsDeveloper(w: ModelWrapper, value: bool)
    requires IsFriend(w)
    modifies w`original, w`log, w.model`fields
    ensures IsFriend(w) && IsDeveloper(w) == value
    ensures IsDeveloperOriginalValue(w) == old(IsDeveloperOriginalValue(w))
    ensures IsDeveloperIsChanged(w) <==> value != IsDeveloperOriginalValue(w)
    ensures Ledger.OthersUnchanged(old(w.State()), w.State(), "IsDeveloper")
    ensures w.log == old(w.log) + Ledger.Notifications(old(w.State()), "IsDeveloper", BoolValue(value))
  {
    SetFriendValue(w, "IsDeveloper", BoolValue(value));
  }

  /** The ledger of a `FriendWrapper` is non-empty exactly when one of its
      six properties is changed. */
  lemma LedgerNonEmptyIffSomeProperty(w: ModelWrapper)
    requires FriendFields(w)
    ensures |w.original| > 0 <==>
      IdIsChanged(w) || FriendGroupIdIsChanged(w) || FirstNameIsChanged(w) ||
      LastNameIsChanged(w) || BirthdayIsChanged(w) || IsDeveloperIsChanged(w)
  {
    if |w.original| > 0 {
      var f :| f in w.original;
      assert f in FriendSchema;
    }
  }

  /** A `FriendWrapper` is changed exactly when one of its six properties,
      its `Address` or its `Emails` is. */
  lemma IsChangedIffSomePropertyOrChild(w: ModelWrapper)
    requires IsFriend(w)
    ensures w.IsChanged() <==>
      IdIsChanged(w) || FriendGroupIdIsChanged(w) || FirstNameIsChanged(w) ||
      LastNameIsChanged(w) || BirthdayIsChanged(w) || IsDeveloperIsChanged(w) ||
      Address(w).IsChanged() || Emails(w).IsChanged()
  {
    LedgerNonEmptyIffSomeProperty(w);
    assert ChildIsChanged(w.children[0]) == Address(w).IsChanged();
    assert ChildIsChanged(w.children[1]) == Emails(w).IsChanged();
    if exists i :: 0 <= i < |w.children| && ChildIsChanged(w.children[i]) {
      var i :| 0 <= i < |w.children| && ChildIsChanged(w.children[i]);
      assert i == 0 || i == 1;
    }
  }

  /** `ValidationResult(errorMessage, memberNames)`. */
  datatype ValidationResult = ValidationResult(message: string, memberNames: seq<string>)

  /** The result of the first `Validate` rule. */
  const FirstNameRequired := ValidationResult("Firstname is required", ["FirstName"])

  /** The result of the second `Validate` rule. */
  const DeveloperNeedsEmail :=
    ValidationResult("A developer must have an email-address", ["IsDeveloper", "Emails"])

  /** `char.IsWhiteSpace`: the Unicode space, line and paragraph separators,
      tab through carriage return, and next line (U+0085). Within ASCII that
      is space, tab, line feed, vertical tab, form feed and carriage return;
      no letter or digit is white space. */
  predicate IsWhiteSpace(c: char)
    ensures c <= '\U{7F}' ==> (IsWhiteSpace(c) <==> c in " \t\n\U{0B}\U{0C}\r")
    ensures IsWhiteSpace(c) ==> !('a' <= c <= 'z' || 'A' <= c <= 'Z' || '0' <= c <= '9')
  {
    || c == ' ' || '\t' <= c <= '\r' || c == '\U{85}' || c == '\U{A0}' || c == '\U{1680}'
    || '\U{2000}' <= c <= '\U{200A}' || c == '\U{2028}' || c == '\U{2029}' || c == '\U{202F}'
    || c == '\U{205F}' || c == '\U{3000}'
  }

  /** Every character of `s` is white space. */
  function AllWhiteSpace(s: string): (r: bool)
    ensures r <==> forall i :: 0 <= i < |s| ==> IsWhiteSpace(s[i])
  {
    if s == [] then true else IsWhiteSpace(s[0]) && AllWhiteSpace(s[1..])
  }

  /** `string.IsNullOrWhiteSpace`: null, empty, or only white space. */
  function IsNullOrWhiteSpace(s: Option<string>): (r: bool)
    ensures r <==> s.None? || forall i :: 0 <= i < |s.value| ==> IsWhiteSpace(s.value[i])
    ensures s == Some("") ==> r
  {
    s.None? || AllWhiteSpace(s.value)
  }

  /** `Validate`: a query over the current values, which reports a missing
      first name and then a developer without an email address. */
  function Validate(w: ModelWrapper): (r: seq<ValidationResult>)
    requires IsFriend(w)
    reads w.Repr
    ensures FirstNameRequired in r <==>
      FirstName(w).None? || forall i :: 0 <= i < |FirstName(w).value| ==> IsWhiteSpace(FirstName(w).value[i])
    ensures DeveloperNeedsEmail in r <==> IsDeveloper(w) && |Emails(w).members| == 0
    ensures forall i :: 0 <= i < |r| ==> r[i] == FirstNameRequired || r[i] == DeveloperNeedsEmail
    ensures |r| <= 2 && (|r| == 2 ==> r == [FirstNameRequired, DeveloperNeedsEmail])
  {
    (if IsNullOrWhiteSpace(FirstName(w)) then [FirstNameRequired] else []) +
    (if IsDeveloper(w) && Emails(w).Count() == 0 then [DeveloperNeedsEmail] else [])
  }

  /** A ledger state whose live values and recorded originals are values of
      the properties of `schema`. */
  ghost predicate StateConforms(st: Ledger.State, schema: Schema) {
    Conforms(st.live, schema) && LedgerConforms(st.ledger, schema)
  }

  /** The tracked state of a `FriendWrapper` as a value: `Friend` properties,
      then an `Address` and a collection of emails, none of which has
      children of its own. */
  ghost predicate FriendShaped(v: Snapshots.Snapshot) {
    && StateConforms(v.state, FriendSchema) && |v.kids| == 2
    && v.kids[0].ComplexKid? && v.kids[0].node.kids == []
    && StateConforms(v.kids[0].node.state, AddressWrappers.AddressSchema)
    && v.kids[1].CollectionKid?
    && forall j :: 0 <= j < |v.kids[1].members| ==>
         v.kids[1].members[j].kids == [] &&
         StateConforms(v.kids[1].members[j].state, FriendEmailWrappers.EmailSchema)
  }

  /** Replacing the `Address` by another childless, well-typed one keeps
      that shape. */
  lemma AddressEditKeepsShape(v: Snapshots.Snapshot, n: Snapshots.Snapshot)
    requires FriendShaped(v) && n.kids == [] && StateConforms(n.state, AddressWrappers.AddressSchema)
    ensures FriendShaped(Snapshots.Snapshot(v.state, v.kids[0 := Snapshots.ComplexKid(n)]))
  {
  }

  /** `AcceptChanges` and `RejectChanges` keep that shape: what they write
      back are recorded originals, which are values of the same properties. */
  lemma FriendShapeKept(v: Snapshots.Snapshot)
    requires FriendShaped(v)
    ensures FriendShaped(Snapshots.Accepted(v)) && FriendShaped(Snapshots.Rejected(v))
  {
    Ledger.CheckpointConforms(v.state, FriendSchema);
    Ledger.CheckpointConforms(v.kids[0].node.state, AddressWrappers.AddressSchema);
    var a, r := Snapshots.Accepted(v), Snapshots.Rejected(v);
    assert a.kids[0] == Snapshots.AcceptedKid(v.kids[0]) == Snapshots.ComplexKid(Snapshots.Accepted(v.kids[0].node));
    assert r.kids[0] == Snapshots.RejectedKid(v.kids[0]) == Snapshots.ComplexKid(Snapshots.Rejected(v.kids[0].node));
    assert a.kids[1] == Snapshots.AcceptedKid(v.kids[1]) && r.kids[1] == Snapshots.RejectedKid(v.kids[1]);
    var ms := v.kids[1].members;
    forall j | 0 <= j < |ms|
      ensures a.kids[1].members[j] == Snapshots.Accepted(ms[j])
      ensures r.kids[1].members[j] == Snapshots.Rejected(ms[j])
      ensures StateConforms(Snapshots.Rejected(ms[j]).state, FriendEmailWrappers.EmailSchema)
    {
      Ledger.CheckpointConforms(ms[j].state, FriendEmailWrappers.EmailSchema);
    }
  }

  /** Removing one email from a friend keeps the shape. */
  lemma RemovalKeepsShape(v: Snapshots.Snapshot, m: nat)
    requires FriendShaped(v) && m < |v.kids[1].members|
    ensures var ms := v.kids[1].members;
      FriendShaped(Snapshots.Snapshot(v.state, v.kids[1 := Snapshots.CollectionKid(ms[..m] + ms[m + 1..])]))
  {
    var ms := v.kids[1].members;
    var rest := ms[..m] + ms[m + 1..];
    assert forall j :: 0 <= j < |rest| ==> rest[j] == ms[if j < m then j else j + 1];
  }

  /** A `FriendWrapper` has that shape. */
  lemma ShapeOfFriend(w: ModelWrapper)
    requires IsFriend(w)
    ensures FriendShaped(w.View())
    ensures WiringOf(w.children[1]) ==
      Wiring(w.model.emails.items, [w.model.emails], [w.model.emails.items], Emails(w).members)
  {
    var k := Emails(w);
    assert w.View().kids[0] == Snapshots.ComplexKid(Address(w).View());
    assert w.View().kids[1] == Snapshots.CollectionKid(k.View());
    assert Contents(k.handlers) == [w.model.emails.items];
  }

  /** A wrapper with the children of a `FriendWrapper`, whose tracked state
      has that shape and whose email collection re-synchronises the model's
      list, is a `FriendWrapper`. */
  lemma FriendOfShape(w: ModelWrapper, items: seq<Entity>, members: seq<ModelWrapper>)
    requires w.Valid() && FriendShaped(w.View())
    requires |w.children| == 2 && w.children[0].Complex? && w.children[1].Collection?
    requires w.children[0].wrapper.model == w.model.address
    requires w.model.emails != null
    requires WiringOf(w.children[1]) == Wiring(items, [w.model.emails], [items], members)
    ensures IsFriend(w)
  {
    var a := w.children[0].wrapper;
    var k := w.children[1].collection;
    assert w.View().kids[0] == Snapshots.ComplexKid(a.View());
    assert w.View().kids[1] == Snapshots.CollectionKid(k.View());
    assert Contents(k.handlers)[0] == w.model.emails.items;
    forall j | 0 <= j < |k.members| ensures FriendEmailWrappers.IsFriendEmail(k.members[j]) {
      assert k.View()[j] == k.members[j].View();
    }
  }

  /** The same, with the `Emails` wiring stated through the collection's
      handler list and the backing list's contents. */
  lemma FriendOfSyncedShape(w: ModelWrapper)
    requires w.Valid() && FriendShaped(w.View())
    requires |w.children| == 2 && w.children[0].Complex? && w.children[1].Collection?
    requires w.children[0].wrapper.model == w.model.address
    requires w.model.emails != null && w.children[1].collection.handlers == [w.model.emails]
    requires w.model.emails.items == w.children[1].collection.Models()
    ensures IsFriend(w)
  {
    var list := w.model.emails;
    assert Contents([list]) == [list.items];
    FriendOfShape(w, list.items, w.children[1].collection.members);
  }

  /** `AcceptChanges` on a friend: the friend and its `Address` keep their
      values and clear their ledgers, every email wrapper accepts too, and
      nothing is changed any more. */
  method AcceptChanges(w: ModelWrapper)
    requires IsFriend(w)
    modifies w.Repr
    ensures IsFriend(w) && w.Repr == old(w.Repr) && w.children == old(w.children)
    ensures w.View() == Snapshots.Accepted(old(w.View()))
    ensures w.State() == Ledger.State(old(w.State()).live, map[])
    ensures Address(w).State() == Ledger.State(old(Address(w).State()).live, map[])
    ensures !w.IsChanged() && !Address(w).IsChanged() && !Emails(w).IsChanged()
    ensures w.model.emails.items == old(w.model.emails.items) && Emails(w).members == old(Emails(w).members)
  {
    ghost var v0 := w.View();
    ghost var a0 := Address(w).View();
    ShapeOfFriend(w);
    w.AcceptChanges();
    FriendShapeKept(v0);
    FriendOfShape(w, old(w.model.emails.items), old(Emails(w).members));
    Snapshots.AcceptedIsUnchanged(v0);
    assert !ChildIsChanged(w.children[0]) && !ChildIsChanged(w.children[1]);
    assert v0.kids[0] == Snapshots.ComplexKid(a0);
    assert w.View().kids[0] == Snapshots.ComplexKid(Address(w).View()) == Snapshots.ComplexKid(Snapshots.Accepted(a0));
  }

  /** `RejectChanges` on a friend: the friend and its `Address` are back at
      their checkpoints with empty ledgers, every email wrapper rejects too,
      and nothing is changed any more. */
  method RejectChanges(w: ModelWrapper)
    requires IsFriend(w)
    modifies w.Repr
    ensures IsFriend(w) && w.Repr == old(w.Repr) && w.children == old(w.children)
    ensures w.View() == Snapshots.Rejected(old(w.View()))
    ensures w.State() == Ledger.State(Ledger.Checkpoint(old(w.State())), map[])
    ensures Address(w).State() == Ledger.State(Ledger.Checkpoint(old(Address(w).State())), map[])
    ensures !w.IsChanged() && !Address(w).IsChanged() && !Emails(w).IsChanged()
    ensures w.model.emails.items == old(w.model.emails.items) && Emails(w).members == old(Emails(w).members)
  {
    ghost var v0 := w.View();
    ghost var a0 := Address(w).View();
    ShapeOfFriend(w);
    w.RejectChanges();
    FriendShapeKept(v0);
    FriendOfShape(w, old(w.model.emails.items), old(Emails(w).members));
    Snapshots.RejectedIsUnchanged(v0);
    assert !ChildIsChanged(w.children[0]) && !ChildIsChanged(w.children[1]);
    assert v0.kids[0] == Snapshots.ComplexKid(a0);
    assert w.View().kids[0] == Snapshots.ComplexKid(Address(w).View()) == Snapshots.ComplexKid(Snapshots.Rejected(a0));
  }

  /** An assignment to a property of the friend's `Address`
      (`friend.Address.City = value`): the Address runs `SetValue`, the friend
      re-raises each "IsChanged" it hears, and a changed Address property
      makes the friend changed. */
  method EditAddress(w: ModelWrapper, name: string, value: Value)
    requires IsFriend(w)
    requires name in AddressWrappers.AddressSchema && KindOf(value) == AddressWrappers.AddressSchema[name]
    modifies Address(w)`original, Address(w)`log, Address(w).model`fields, w`log
    ensures IsFriend(w) && Address(w) == old(Address(w))
    ensures Address(w).State() == Ledger.Set(old(Address(w).State()), name, value)
    ensures Address(w).log == old(Address(w).log) + Ledger.Notifications(old(Address(w).State()), name, value)
    ensures w.log == old(w.log) + Forwarded(Ledger.Notifications(old(Address(w).State()), name, value))
    ensures Address(w).GetIsChanged(name) ==> w.IsChanged()
  {
    ghost var a := Address(w);
    ghost var v0 := w.View();
    ShapeOfFriend(w);
    assert v0.kids[0] == Snapshots.ComplexKid(a.View());
    Ledger.SetConforms(a.State(), name, value, AddressWrappers.AddressSchema);
    w.EditComplexChild(0, name, value);
    assert a == w.children[0].wrapper && a.Valid() && a.children == [];
    AddressEditKeepsShape(v0, a.View());
    FriendOfShape(w, old(w.model.emails.items), old(Emails(w).members));
    assert ChildIsChanged(w.children[0]) == a.IsChanged();
  }

  /** `Emails.Add(email)`: the wrapper joins the collection at its end and
      the model's email list is re-synchronised. */
  method AddEmail(w: ModelWrapper, email: ModelWrapper)
    requires IsFriend(w) && FriendEmailWrappers.IsFriendEmail(email) && email.Repr !! w.Repr
    modifies w`Repr, Emails(w)`members, Emails(w)`Repr, w.model.emails
    ensures IsFriend(w) && Emails(w) == old(Emails(w)) && Address(w) == old(Address(w))
    ensures Emails(w).members == old(Emails(w).members) + [email]
    ensures w.model.emails.items == old(w.model.emails.items) + [email.model]
    ensures w.View() == Snapshots.Snapshot(old(w.View()).state,
      old(w.View()).kids[1 := Snapshots.CollectionKid(old(Emails(w).View()) + [email.View()])])
  {
    ghost var v0 := w.View();
    ghost var k, list := Emails(w), w.model.emails;
    ghost var items0 := list.items;
    ShapeOfFriend(w);
    w.AddToCollection(1, email);
    assert list.items == k.Models() == items0 + [email.model];
    FriendOfSyncedShape(w);
  }

  /** `Emails.Remove(email)`: when `email` is a member it leaves the
      collection and the model's email list is re-synchronised; otherwise
      nothing changes. */
  method RemoveEmail(w: ModelWrapper, email: ModelWrapper) returns (removed: bool)
    requires IsFriend(w)
    modifies w`Repr, Emails(w)`members, Emails(w)`Repr, w.model.emails
    ensures IsFriend(w) && Emails(w) == old(Emails(w)) && Address(w) == old(Address(w))
    ensures removed <==> email in old(Emails(w).members)
    ensures !removed ==> Emails(w).members == old(Emails(w).members) && w.View() == old(w.View())
    ensures removed ==> exists m :: (0 <= m < |old(Emails(w).members)| && old(Emails(w).members)[m] == email &&
      Emails(w).members == old(Emails(w).members)[..m] + old(Emails(w).members)[m + 1..])
  {
    ghost var v0 := w.View();
    ghost var k, list := Emails(w), w.model.emails;
    ghost var members0, views0 := k.members, v0.kids[1].members;
    ShapeOfFriend(w);
    removed := w.RemoveFromCollection(1, email);
    ghost var vs := w.View().kids[1].members;
    if removed {
      ghost var m :| 0 <= m < |members0| && members0[m] == email &&
        k.members == members0[..m] + members0[m + 1..] && vs == views0[..m] + views0[m + 1..];
      RemovalKeepsShape(v0, m);
      assert w.View() == Snapshots.Snapshot(v0.state, v0.kids[1 := Snapshots.CollectionKid(vs)]);
    } else {
      assert w.View() == v0;
    }
    FriendOfSyncedShape(w);
  }

  /** A new `FriendWrapper` around a developer without a first name and
      without emails. */
  method NewDeveloperWithoutEmail() returns (w: ModelWrapper)
    ensures fresh(w) && fresh(w.model) && IsFriend(w) && !w.IsChanged()
    ensures FirstName(w) == None && IsDeveloper(w) && |Emails(w).members| == 0
    ensures FirstNameOriginalValue(w) == None
  {
    var address := NewAddress();
    var emails := new EntityList([]);
    var friend := NewDeveloper(address, emails);
    var r := NewFriendWrapper(friend);
    w := r.value;
  }

  /** An `Address` entity in Berlin. */
  method NewAddress() returns (e: Entity)
    ensures fresh(e) && e.address == null && e.emails == null
    ensures Conforms(e.fields, AddressWrappers.AddressSchema)
  {
    e := new Entity(map["Id" := IntValue(1), "City" := StringValue(Some("Berlin")),
                        "Street" := StringValue(None), "StreetNumber" := StringValue(None)], null, null);
  }

  /** A `Friend` entity who is a developer and has no first name. */
  method NewDeveloper(address: Entity, emails: EntityList) returns (e: Entity)
    ensures fresh(e) && e.address == address && e.emails == emails
    ensures Conforms(e.fields, FriendSchema)
    ensures e.fields["FirstName"] == StringValue(None) && e.fields["IsDeveloper"] == BoolValue(true)
  {
    e := new Entity(map["Id" := IntValue(1), "FriendGroupId" := IntValue(1),
                        "FirstName" := StringValue(None), "LastName" := StringValue(Some("Huber")),
                        "Birthday" := DateValue(None), "IsDeveloper" := BoolValue(true)],
                    address, emails);
  }

  /** A developer friend with no first name and no emails is invalid on
      both rules, yet unchanged. */
  method DeveloperWithoutEmail() returns (w: ModelWrapper, results: seq<ValidationResult>, changed: bool)
    ensures fresh(w) && fresh(w.model) && IsFriend(w)
    ensures FirstName(w) == None && IsDeveloper(w) && |Emails(w).members| == 0 && !FirstNameIsChanged(w)
    ensures results == [FirstNameRequired, DeveloperNeedsEmail] && !changed
  {
    w := NewDeveloperWithoutEmail();
    results := Validate(w);
    changed := w.IsChanged();
    IsChangedIffSomePropertyOrChild(w);
  }

  /** `Validate` on a developer without emails who has a first name. */
  method ValidateNamedDeveloper(w: ModelWrapper) returns (results: seq<ValidationResult>)
    requires IsFriend(w) && !IsNullOrWhiteSpace(FirstName(w))
    requires IsDeveloper(w) && |Emails(w).members| == 0
    ensures results == [DeveloperNeedsEmail]
  {
    results := Validate(w);
    assert FirstNameRequired !in results && DeveloperNeedsEmail in results;
  }

  /** Giving a first name that does not start with white space to a
      developer without emails whose first name was never set, as after
      `DeveloperWithoutEmail`: the first name is no longer blank, so
      `ValidateNamedDeveloper` leaves only the second rule, and the friend
      is changed. */
  method NameDeveloper(w: ModelWrapper, name: string)
    requires IsFriend(w) && IsDeveloper(w) && |Emails(w).members| == 0 && FirstNameOriginalValue(w) == None
    requires name != [] && !IsWhiteSpace(name[0])
    modifies w`original, w`log, w.model`fields
    ensures IsFriend(w) && FirstName(w) == Some(name) && !IsNullOrWhiteSpace(FirstName(w)) && w.IsChanged()
    ensures IsDeveloper(w) && |Emails(w).members| == 0
  {
    ghost var k, st := Emails(w), w.State();
    SetFirstName(w, Some(name));
    assert FirstNameIsChanged(w);
    assert Emails(w) == k;
    assert w.State().live["IsDeveloper"] == st.live["IsDeveloper"];
    IsChangedIffSomePropertyOrChild(w);
  }

  /** Editing the `City` of an unchanged friend's `Address` makes the friend
      changed; `AcceptChanges` on the friend then keeps the new city and
      clears every flag down to the Address. */
  method AddressEditThenAccept(w: ModelWrapper) returns (changedMid: bool)
    requires IsFriend(w) && !w.IsChanged()
    requires AddressWrappers.City(Address(w)) != Some("Munich")
    modifies w.Repr
    ensures changedMid
    ensures IsFriend(w) && !w.IsChanged()
    ensures AddressWrappers.City(Address(w)) == Some("Munich") && !AddressWrappers.CityIsChanged(Address(w))
  {
    EditAddress(w, "City", StringValue(Some("Munich")));
    changedMid := w.IsChanged();
    AcceptChanges(w);
  }
}
