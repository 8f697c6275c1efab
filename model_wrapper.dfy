/** `ModelWrapper<T>`: a wrapper around a live model object that tracks, per
    property, the value at the last checkpoint, and that accepts or rejects
    the changes of itself and of its registered children in one call. */
module Tracking {
  import opened Values
  import Ledger
  import Snapshots

  /** A model object (a `Friend`, an `Address` or a `FriendEmail`). Its
      scalar properties are reached by name, as the wrapper does through
      reflection. `address` and `emails` are the nested properties of a
      `Friend`; the other two model classes have none and leave them null. */
  class Entity {
    var fields: Fields
    const address: Entity?
    const emails: EntityList?

    constructor (fields: Fields, address: Entity?, emails: EntityList?)
      ensures this.fields == fields && this.address == address && this.emails == emails
    {
      this.fields := fields;
      this.address := address;
      this.emails := emails;
    }
  }

  /** A `List<TModel>` of model objects held by a model, such as `Friend.Emails`. */
  class EntityList {
    var items: seq<Entity>

    constructor (items: seq<Entity>)
      ensures this.items == items
    {
      this.items := items;
    }
  }

  /** An `IRevertibleChangeTracking` registered in `_trackingObjects`. */
  datatype Child = Complex(wrapper: ModelWrapper) | Collection(collection: TrackingCollection)

  function Target(c: Child): object {
    match c
    case Complex(w) => w
    case Collection(k) => k
  }

  ghost function ReprOf(c: Child): set<object>
    reads Target(c)
  {
    match c
    case Complex(w) => w.Repr
    case Collection(k) => k.Repr
  }

  ghost predicate ChildValid(c: Child)
    reads Target(c), ReprOf(c)
    decreases ReprOf(c), 2
    ensures ChildValid(c) ==> Target(c) in ReprOf(c)
    ensures ChildValid(c) ==> match c
      case Complex(w) => w.Valid()
      case Collection(k) => k.Valid()
  {
    match c
    case Complex(w) => w.Valid()
    case Collection(k) => k.Valid()
  }

  ghost function KidView(c: Child): Snapshots.Kid
    requires ChildValid(c)
    reads Target(c), ReprOf(c)
    decreases ReprOf(c), 2
  {
    match c
    case Complex(w) => Snapshots.ComplexKid(w.View())
    case Collection(k) => Snapshots.CollectionKid(k.View())
  }

  /** What a registered collection is wired to: its members' models, each
      subscribed backing list with its contents, and the member wrappers
      themselves. A complex child has no wiring. */
  datatype Wiring = Wiring(models: seq<Entity>, lists: seq<EntityList>, contents: seq<seq<Entity>>,
                           members: seq<ModelWrapper>)

  ghost function WiringOf(c: Child): Wiring
    requires ChildValid(c)
    reads Target(c), ReprOf(c)
  {
    match c
    case Complex(_) => Wiring([], [], [], [])
    case Collection(k) =>
      assert k.Valid();
      Wiring(k.Models(), k.handlers, Contents(k.handlers), k.members)
  }

  ghost function Contents(lists: seq<EntityList>): (r: seq<seq<Entity>>)
    reads set i | 0 <= i < |lists| :: lists[i]
    ensures |r| == |lists|
    ensures forall i :: 0 <= i < |lists| ==> r[i] == lists[i].items
  {
    seq(|lists|, i requires 0 <= i < |lists| reads set j | 0 <= j < |lists| :: lists[j] => lists[i].items)
  }

  /** A child none of whose objects changed keeps its validity, view and
      wiring. */
  twostate lemma ChildUntouched(c: Child)
    requires old(ChildValid(c)) && unchanged(old(ReprOf(c)))
    ensures ReprOf(c) == old(ReprOf(c)) && ChildValid(c)
    ensures KidView(c) == old(KidView(c)) && WiringOf(c) == old(WiringOf(c))
  {
  }

  /** `t.IsChanged` for a registered tracking object. */
  function ChildIsChanged(c: Child): (r: bool)
    requires ChildValid(c)
    reads Target(c), ReprOf(c)
    decreases ReprOf(c), 2
    ensures r == Snapshots.KidChanged(KidView(c))
  {
    match c
    case Complex(w) => w.IsChanged()
    case Collection(k) => k.IsChanged()
  }

  /** The notifications a parent re-raises for the notifications of a
      registered child: only "IsChanged" is passed on. */
  function Forwarded(events: seq<string>): (r: seq<string>)
    ensures forall e :: e in r ==> e == "IsChanged"
    ensures |r| <= |events|
  {
    if events == [] then []
    else Forwarded(events[..|events| - 1])
         + (if events[|events| - 1] == "IsChanged" then ["IsChanged"] else [])
  }

  class ModelWrapper {
    /** `Model`: the wrapped object itself, not a copy. */
    const model: Entity
    /** `_originalValues`: property name to the value at the last checkpoint,
        for the properties that differ from it. */
    var original: Fields
    /** `_trackingObjects`, in registration order. */
    var children: seq<Child>
    /** The `PropertyChanged` notifications raised so far, by property name. */
    var log: seq<string>
    ghost var Repr: set<object>

    /** The wrapper, its model and its children form a tree of disjoint
        footprints, and the ledger invariant holds. */
    ghost predicate Valid()
      reads this, Repr
      decreases Repr, 1
      ensures Valid() ==> this in Repr && ChildrenValid()
    {
      this in Repr && model in Repr &&
      Ledger.Consistent(Ledger.State(model.fields, original)) &&
      ChildrenValid()
    }

    /** The part of `Valid` about the children, which reads neither the
        ledger nor the model. */
    ghost predicate ChildrenValid()
      reads this`children, this`Repr, Repr - {this, model}
      decreases Repr, 0
    {
      this in Repr &&
      (forall i :: 0 <= i < |children| ==>
        Target(children[i]) in Repr - {this, model} && ReprOf(children[i]) <= Repr &&
        this !in ReprOf(children[i]) && model !in ReprOf(children[i])) &&
      (forall i, j :: 0 <= i < j < |children| ==> ReprOf(children[i]) !! ReprOf(children[j])) &&
      (forall i :: 0 <= i < |children| ==> ChildValid(children[i]))
    }

    /** The tracked state of this wrapper and of everything registered
        below it. */
    ghost function View(): (v: Snapshots.Snapshot)
      requires Valid()
      reads this, Repr
      decreases Repr, 1
      ensures v.state == Ledger.State(model.fields, original)
      ensures |v.kids| == |children|
      ensures forall i :: 0 <= i < |children| ==> v.kids[i] == KidView(children[i])
    {
      Snapshots.Snapshot(Ledger.State(model.fields, original), KidViews())
    }

    /** The views of the children, in registration order. */
    ghost function KidViews(): (ks: seq<Snapshots.Kid>)
      requires ChildrenValid()
      reads this`children, this`Repr, Repr - {this, model}
      decreases Repr, 0
      ensures |ks| == |children|
      ensures forall i :: 0 <= i < |children| ==> ks[i] == KidView(children[i])
    {
      KidViewsUpTo(|children|)
    }

    ghost function KidViewsUpTo(n: nat): (ks: seq<Snapshots.Kid>)
      requires ChildrenValid() && n <= |children|
      reads this`children, this`Repr, Repr - {this, model}
      decreases Repr, 0, n
      ensures |ks| == n
      ensures forall i :: 0 <= i < n ==> ks[i] == KidView(children[i])
    {
      if n == 0 then [] else KidViewsUpTo(n - 1) + [KidView(children[n - 1])]
    }

    constructor (model: Entity)
      ensures Valid() && Repr == {this, model}
      ensures this.model == model && original == map[] && children == [] && log == []
      ensures View() == Snapshots.Snapshot(Ledger.State(model.fields, map[]), [])
    {
      this.model := model;
      original := map[];
      children := [];
      log := [];
      Repr := {this, model};
    }

    /** The wrapped entity's property values together with the ledger. */
    function State(): Ledger.State
      reads this, model
    {
      Ledger.State(model.fields, original)
    }

    /** `IsChanged`: the ledger is non-empty or a registered child is changed. */
    function IsChanged(): (r: bool)
      requires Valid()
      reads this, Repr
      decreases Repr, 1
      ensures r == Snapshots.Changed(View())
    {
      |original| > 0 || exists i :: 0 <= i < |children| && ChildIsChanged(children[i])
    }

    /** `GetValue(propertyName)` on a property of the model: its live value,
        which is its original exactly when the ledger records nothing for it. */
    function GetValue(name: string): (v: Value)
      requires name in model.fields
      reads this, model
      ensures v == State().live[name]
      ensures Ledger.Consistent(State()) ==> (v == Ledger.Checkpoint(State())[name] <==> name !in original)
    {
      model.fields[name]
    }

    /** `GetOriginalValue(propertyName)`: what the property would hold after
        `RejectChanges`, i.e. its value at the last checkpoint. */
    function GetOriginalValue(name: string): (v: Value)
      requires name in model.fields
      reads this, model
      ensures v == Ledger.Checkpoint(State())[name]
    {
      if name in original then original[name] else GetValue(name)
    }

    /** `GetIsChanged(propertyName)`: ledger membership, which is exactly
        "the property differs from its value at the last checkpoint". */
    function GetIsChanged(name: string): (r: bool)
      requires name in model.fields && Ledger.Consistent(State())
      reads this, model
      ensures r <==> GetValue(name) != GetOriginalValue(name)
    {
      name in original
    }

    /** `SetValue(newValue, propertyName)`. */
    method SetValue(name: string, newValue: Value)
      requires Valid() && name in model.fields
      modifies this`original, this`log, model`fields
      ensures Valid()
      ensures State() == Ledger.Set(old(State()), name, newValue)
      ensures log == old(log) + Ledger.Notifications(old(State()), name, newValue)
      ensures Ledger.Checkpoint(State()) == old(Ledger.Checkpoint(State()))
      ensures Ledger.OthersUnchanged(old(State()), State(), name)
      ensures View() == Snapshots.Snapshot(State(), old(View()).kids)
    {
      Ledger.SetKeepsCheckpoint(State(), name, newValue);
      Ledger.SetLeavesOthers(State(), name, newValue);
      WriteValue(name, newValue);
      assert ChildrenValid() && KidViews() == old(KidViews());
    }

    /** The body of `SetValue`: compare, update the ledger, write the value
        into the model, and raise the notifications. */
    method WriteValue(name: string, newValue: Value)
      requires name in model.fields
      modifies this`original, this`log, model`fields
      ensures State() == Ledger.Set(old(State()), name, newValue)
      ensures log == old(log) + Ledger.Notifications(old(State()), name, newValue)
    {
      var currentValue := model.fields[name];
      if currentValue != newValue {
        UpdateOriginalValue(currentValue, newValue, name);
        model.fields := model.fields[name := newValue];
        log := log + [name];
        log := log + [name + "IsChanged"];
      }
    }

    /** `UpdateOriginalValue(currentValue, newValue, propertyName)`. */
    method UpdateOriginalValue(currentValue: Value, newValue: Value, name: string)
      modifies this`original, this`log
      ensures original == Ledger.UpdateOriginal(old(original), name, currentValue, newValue)
      ensures log == old(log) + (if Ledger.EntryToggles(old(original), name, newValue) then ["IsChanged"] else [])
    {
      if name !in original {
        original := original[name := currentValue];
        log := log + ["IsChanged"];
      } else if original[name] == newValue {
        original := original - {name};
        log := log + ["IsChanged"];
      }
    }

    /** `AcceptChanges`: clear the ledger, accept every child in order, and
        raise the refresh notification "". */
    method AcceptChanges()
      requires Valid()
      modifies Repr
      decreases Repr, 2
      ensures Valid() && Repr == old(Repr) && children == old(children)
      ensures View() == Snapshots.Accepted(old(View()))
      ensures forall j :: 0 <= j < |children| ==> WiringOf(children[j]) == old(WiringOf(children[j]))
      ensures log == old(log) + [""]
    {
      ClearLedger();
      AcceptChildren();
      log := log + [""];
      assert View().kids == Snapshots.Accepted(old(View())).kids;
    }

    /** The `_trackingObjects` loop of `AcceptChanges`: every child is accepted in
        registration order; the wrapper's own state is left alone. */
    method AcceptChildren()
      requires Valid()
      modifies Repr
      decreases Repr, 1
      ensures Valid() && Repr == old(Repr) && children == old(children)
      ensures original == old(original) && model.fields == old(model.fields) && log == old(log)
      ensures View() == Snapshots.Snapshot(old(View()).state, Snapshots.Accepted(old(View())).kids)
      ensures forall j :: 0 <= j < |children| ==> WiringOf(children[j]) == old(WiringOf(children[j]))
    {
      ghost var v0 := View();
      var i := 0;
      while i < |children|
        invariant 0 <= i <= |children| && Valid()
        invariant Repr == old(Repr) && children == old(children)
        invariant original == old(original) && model.fields == old(model.fields) && log == old(log)
        invariant forall j :: 0 <= j < |children| ==> WiringOf(children[j]) == old(WiringOf(children[j]))
        invariant View() == Snapshots.Settled(v0, i, true)
        decreases |children| - i
      {
        Snapshots.SettleOneMore(v0, i, true);
        AcceptChild(i);
        i := i + 1;
      }
      Snapshots.SettledAll(v0, true);
    }

    /** `_originalValues.Clear()`. */
    method ClearLedger()
      requires Valid()
      modifies this`original
      ensures Valid() && original == map[]
      ensures View() == Snapshots.Snapshot(Ledger.State(model.fields, map[]), old(View()).kids)
    {
      original := map[];
      assert Valid();
      assert View().kids == old(View()).kids;
    }

    /** One step of the `_trackingObjects` loop of `AcceptChanges`: child `i` is
        accepted, nothing else is touched. */
    method AcceptChild(i: nat)
      requires Valid() && i < |children|
      modifies ReprOf(children[i])
      decreases Repr, 0
      ensures Valid() && Repr == old(Repr) && children == old(children)
      ensures original == old(original) && model.fields == old(model.fields) && log == old(log)
      ensures View() == Snapshots.Snapshot(old(View()).state,
                          old(View()).kids[i := Snapshots.AcceptedKid(old(View()).kids[i])])
      ensures forall j :: 0 <= j < |children| ==> WiringOf(children[j]) == old(WiringOf(children[j]))
    {
      match children[i] {
        case Complex(w) => w.AcceptChanges();
        case Collection(k) => k.AcceptChanges();
      }
      forall j | 0 <= j < |children| && j != i
        ensures ReprOf(children[j]) == old(ReprOf(children[j])) && ChildValid(children[j])
        ensures KidView(children[j]) == old(KidView(children[j]))
        ensures WiringOf(children[j]) == old(WiringOf(children[j]))
      {
        if i < j {
          assert ReprOf(children[i]) !! ReprOf(children[j]);
        } else {
          assert ReprOf(children[j]) !! ReprOf(children[i]);
        }
        ChildUntouched(children[j]);
      }
      assert Valid();
      assert View().kids == old(View()).kids[i := Snapshots.AcceptedKid(old(View()).kids[i])];
    }

    /** The first loop of `RejectChanges`: every recorded original is written
        back into the model, directly and without notifications. */
    method RestoreOriginals()
      requires original.Keys <= model.fields.Keys
      modifies model`fields
      ensures model.fields == Ledger.Checkpoint(old(Ledger.State(model.fields, original)))
    {
      var pending := original.Keys;
      while pending != {}
        invariant pending <= original.Keys
        invariant model.fields.Keys == old(model.fields.Keys)
        invariant forall f :: f in model.fields ==>
          model.fields[f] == if f in original && f !in pending then original[f] else old(model.fields[f])
        decreases pending
      {
        var f :| f in pending;
        model.fields := model.fields[f := original[f]];
        pending := pending - {f};
      }
    }

    /** The first loop of `RejectChanges` followed by
        `_originalValues.Clear()`: every property is back at its checkpoint
        value and the ledger is empty. */
    method RevertLedger()
      requires Valid()
      modifies this`original, model`fields
      ensures Valid() && original == map[]
      ensures model.fields == Ledger.Checkpoint(old(Ledger.State(model.fields, original)))
      ensures View() == Snapshots.Snapshot(Ledger.State(model.fields, map[]), old(View()).kids)
    {
      RestoreOriginals();
      original := map[];
      assert Valid();
      assert View().kids == old(View()).kids;
    }

    /** `RejectChanges`: write every recorded original back into the model,
        clear the ledger, reject every child in order, and raise "". */
    method RejectChanges()
      requires Valid()
      modifies Repr
      decreases Repr, 2
      ensures Valid() && Repr == old(Repr) && children == old(children)
      ensures View() == Snapshots.Rejected(old(View()))
      ensures forall j :: 0 <= j < |children| ==> WiringOf(children[j]) == old(WiringOf(children[j]))
      ensures log == old(log) + [""]
    {
      RevertLedger();
      RejectChildren();
      log := log + [""];
      assert View().kids == Snapshots.Rejected(old(View())).kids;
    }

    /** The `_trackingObjects` loop of `RejectChanges`: every child is rejected in
        registration order; the wrapper's own state is left alone. */
    method RejectChildren()
      requires Valid()
      modifies Repr
      decreases Repr, 1
      ensures Valid() && Repr == old(Repr) && children == old(children)
      ensures original == old(original) && model.fields == old(model.fields) && log == old(log)
      ensures View() == Snapshots.Snapshot(old(View()).state, Snapshots.Rejected(old(View())).kids)
      ensures forall j :: 0 <= j < |children| ==> WiringOf(children[j]) == old(WiringOf(children[j]))
    {
      ghost var v0 := View();
      var i := 0;
      while i < |children|
        invariant 0 <= i <= |children| && Valid()
        invariant Repr == old(Repr) && children == old(children)
        invariant original == old(original) && model.fields == old(model.fields) && log == old(log)
        invariant forall j :: 0 <= j < |children| ==> WiringOf(children[j]) == old(WiringOf(children[j]))
        invariant View() == Snapshots.Settled(v0, i, false)
        decreases |children| - i
      {
        Snapshots.SettleOneMore(v0, i, false);
        RejectChild(i);
        i := i + 1;
      }
      Snapshots.SettledAll(v0, false);
    }

    /** One step of the `_trackingObjects` loop of `RejectChanges`: child `i` is
        rejected, nothing else is touched. */
    method RejectChild(i: nat)
      requires Valid() && i < |children|
      modifies ReprOf(children[i])
      decreases Repr, 0
      ensures Valid() && Repr == old(Repr) && children == old(children)
      ensures original == old(original) && model.fields == old(model.fields) && log == old(log)
      ensures View() == Snapshots.Snapshot(old(View()).state,
                          old(View()).kids[i := Snapshots.RejectedKid(old(View()).kids[i])])
      ensures forall j :: 0 <= j < |children| ==> WiringOf(children[j]) == old(WiringOf(children[j]))
    {
      match children[i] {
        case Complex(w) => w.RejectChanges();
        case Collection(k) => k.RejectChanges();
      }
      forall j | 0 <= j < |children| && j != i
        ensures ReprOf(children[j]) == old(ReprOf(children[j])) && ChildValid(children[j])
        ensures KidView(children[j]) == old(KidView(children[j]))
        ensures WiringOf(children[j]) == old(WiringOf(children[j]))
      {
        if i < j {
          assert ReprOf(children[i]) !! ReprOf(children[j]);
        } else {
          assert ReprOf(children[j]) !! ReprOf(children[i]);
        }
        ChildUntouched(children[j]);
      }
      assert Valid();
      assert View().kids == old(View()).kids[i := Snapshots.RejectedKid(old(View()).kids[i])];
    }

    /** `RegisterTrackingObject(trackingObject)`: append a child unless it is
        already registered. */
    method RegisterTrackingObject(c: Child)
      requires Valid() && ChildValid(c)
      requires c in children || ReprOf(c) !! Repr
      modifies this`children, this`Repr
      ensures Valid()
      ensures children == if c in old(children) then old(children) else old(children) + [c]
      ensures Repr == if c in old(children) then old(Repr) else old(Repr) + ReprOf(c)
      ensures View() == Snapshots.Snapshot(old(View()).state,
                          if c in old(children) then old(View()).kids else old(View()).kids + [KidView(c)])
    {
      if c !in children {
        children := children + [c];
        Repr := Repr + ReprOf(c);
        assert View().kids == old(View()).kids + [KidView(c)];
      }
    }

    /** `RegisterComplex(wrapper)`. */
    method RegisterComplex(wrapper: ModelWrapper)
      requires Valid() && wrapper.Valid()
      requires Complex(wrapper) in children || wrapper.Repr !! Repr
      modifies this`children, this`Repr
      ensures Valid()
      ensures children == if Complex(wrapper) in old(children) then old(children)
                          else old(children) + [Complex(wrapper)]
      ensures Repr == old(Repr) + wrapper.Repr
      ensures View() == Snapshots.Snapshot(old(View()).state,
                          if Complex(wrapper) in old(children) then old(View()).kids
                          else old(View()).kids + [Snapshots.ComplexKid(wrapper.View())])
    {
      RegisterTrackingObject(Complex(wrapper));
    }

    /** `RegisterCollection(wrapperCollection, modelCollection)`: subscribe
        the re-synchronisation of `modelCollection` to the collection's
        changes, then register the collection. */
    method RegisterCollection(collection: TrackingCollection, modelCollection: EntityList)
      requires Valid() && collection.Valid()
      requires collection.Repr !! Repr && modelCollection !in Repr
      requires forall i :: 0 <= i < |collection.members| ==> modelCollection !in collection.members[i].Repr
      modifies this`children, this`Repr, collection`handlers, collection`Repr
      ensures Valid() && collection.Valid()
      ensures collection.handlers == old(collection.handlers) + [modelCollection]
      ensures collection.members == old(collection.members)
      ensures children == old(children) + [Collection(collection)]
      ensures Repr == old(Repr) + collection.Repr
      ensures View() == Snapshots.Snapshot(old(View()).state,
                          old(View()).kids + [Snapshots.CollectionKid(old(collection.View()))])
    {
      collection.Subscribe(modelCollection);
      RegisterTrackingObject(Collection(collection));
    }

    /** `Add(item)` on the registered collection `i` (as in
        `friend.Emails.Add(email)`): the member joins the collection, its
        footprint joins this wrapper's, and the collection's subscribed lists
        are re-synchronised. */
    method AddToCollection(i: nat, item: ModelWrapper)
      requires Valid() && i < |children| && children[i].Collection?
      requires item.Valid() && item.Repr !! Repr
      modifies this`Repr, children[i].collection`members, children[i].collection`Repr,
               set l | l in children[i].collection.handlers
      ensures Valid() && children == old(children) && Repr == old(Repr) + item.Repr
      ensures var k := children[i].collection;
        && k.members == old(k.members) + [item] && k.handlers == old(k.handlers)
        && (forall l :: l in k.handlers ==> l.items == k.Models())
      ensures View() == Snapshots.Snapshot(old(View()).state,
                          old(View()).kids[i := Snapshots.CollectionKid(old(children[i].collection.View()) + [item.View()])])
      ensures forall j :: 0 <= j < |children| && j != i ==> WiringOf(children[j]) == old(WiringOf(children[j]))
    {
      var k := children[i].collection;
      Repr := Repr + item.Repr;
      k.Add(item);
      forall j | 0 <= j < |children| && j != i
        ensures ReprOf(children[j]) == old(ReprOf(children[j])) && ChildValid(children[j])
        ensures KidView(children[j]) == old(KidView(children[j]))
        ensures WiringOf(children[j]) == old(WiringOf(children[j]))
      {
        if i < j {
          assert ReprOf(children[i]) !! ReprOf(children[j]);
        } else {
          assert ReprOf(children[j]) !! ReprOf(children[i]);
        }
        ChildUntouched(children[j]);
      }
      assert Valid();
      assert View().kids == old(View()).kids[i := Snapshots.CollectionKid(old(k.View()) + [item.View()])];
    }

    /** `Remove(item)` on the registered collection `i`: when `item` is a
        member it leaves the collection and this wrapper's footprint, and the
        collection's subscribed lists are re-synchronised. */
    method RemoveFromCollection(i: nat, item: ModelWrapper) returns (removed: bool)
      requires Valid() && i < |children| && children[i].Collection?
      modifies this`Repr, children[i].collection`members, children[i].collection`Repr,
               set l | l in children[i].collection.handlers
      ensures Valid() && children == old(children)
      ensures removed <==> item in old(children[i].collection.members)
      ensures !removed ==> Repr == old(Repr) && View() == old(View())
      ensures removed ==> Repr == old(Repr) - item.Repr
      ensures var k := children[i].collection;
        && k.handlers == old(k.handlers)
        && (removed ==> forall l :: l in k.handlers ==> l.items == k.Models())
        && (!removed ==> k.members == old(k.members) && forall l :: l in k.handlers ==> l.items == old(l.items))
        && (removed ==> exists m :: (0 <= m < |old(k.members)| && old(k.members)[m] == item &&
              k.members == old(k.members)[..m] + old(k.members)[m + 1..] &&
              View().kids[i].members == old(View()).kids[i].members[..m] + old(View()).kids[i].members[m + 1..]))
      ensures View() == Snapshots.Snapshot(old(View()).state,
                          old(View()).kids[i := Snapshots.CollectionKid(children[i].collection.View())])
      ensures forall j :: 0 <= j < |children| && j != i ==> WiringOf(children[j]) == old(WiringOf(children[j]))
    {
      var k := children[i].collection;
      removed := k.Remove(item);
      if removed {
        Repr := Repr - item.Repr;
      }
      forall j | 0 <= j < |children| && j != i
        ensures ReprOf(children[j]) == old(ReprOf(children[j])) && ChildValid(children[j])
        ensures KidView(children[j]) == old(KidView(children[j]))
        ensures WiringOf(children[j]) == old(WiringOf(children[j]))
      {
        if i < j {
          assert ReprOf(children[i]) !! ReprOf(children[j]);
        } else {
          assert ReprOf(children[j]) !! ReprOf(children[i]);
        }
        ChildUntouched(children[j]);
      }
      assert Valid();
      assert View().kids == old(View()).kids[i := Snapshots.CollectionKid(k.View())];
    }

    /** `TrackingObjectPropertyChanged(sender, e)`: a child's notification is
        re-raised only when it is "IsChanged". */
    method TrackingObjectPropertyChanged(propertyName: string)
      modifies this`log
      ensures log == old(log) + Forwarded([propertyName])
    {
      if propertyName == "IsChanged" {
        log := log + ["IsChanged"];
      }
    }

    /** An assignment through the setter of a registered complex child (as
        in `friend.Address.City = value`): the child runs `SetValue`, and
        each notification it raises reaches this wrapper's handler. */
    method EditComplexChild(i: nat, name: string, newValue: Value)
      requires Valid() && i < |children| && children[i].Complex?
      requires name in children[i].wrapper.model.fields
      modifies children[i].wrapper`original, children[i].wrapper`log,
               children[i].wrapper.model`fields, this`log
      ensures Valid() && children[i].wrapper.Valid()
      ensures var w := children[i].wrapper;
        && Ledger.State(w.model.fields, w.original)
           == Ledger.Set(old(Ledger.State(w.model.fields, w.original)), name, newValue)
        && w.log == old(w.log) + Ledger.Notifications(old(Ledger.State(w.model.fields, w.original)), name, newValue)
        && log == old(log) + Forwarded(Ledger.Notifications(old(Ledger.State(w.model.fields, w.original)), name, newValue))
      ensures View() == Snapshots.Snapshot(old(View()).state,
                          old(View()).kids[i := Snapshots.ComplexKid(children[i].wrapper.View())])
      ensures forall j :: 0 <= j < |children| && j != i ==> WiringOf(children[j]) == old(WiringOf(children[j]))
    {
      var w := children[i].wrapper;
      var seen := |w.log|;
      SetChildValue(i, name, newValue);
      ForwardAll(w.log[seen..]);
    }

    /** The child `i` runs `SetValue`; the graph stays valid. */
    method SetChildValue(i: nat, name: string, newValue: Value)
      requires Valid() && i < |children| && children[i].Complex?
      requires name in children[i].wrapper.model.fields
      modifies children[i].wrapper`original, children[i].wrapper`log, children[i].wrapper.model`fields
      ensures Valid() && children[i].wrapper.Valid()
      ensures var w := children[i].wrapper;
        && Ledger.State(w.model.fields, w.original)
           == Ledger.Set(old(Ledger.State(w.model.fields, w.original)), name, newValue)
        && w.log == old(w.log) + Ledger.Notifications(old(Ledger.State(w.model.fields, w.original)), name, newValue)
      ensures View() == Snapshots.Snapshot(old(View()).state,
                          old(View()).kids[i := Snapshots.ComplexKid(children[i].wrapper.View())])
      ensures forall j :: 0 <= j < |children| && j != i ==> WiringOf(children[j]) == old(WiringOf(children[j]))
    {
      var w := children[i].wrapper;
      w.SetValue(name, newValue);
      forall j | 0 <= j < |children| && j != i
        ensures ReprOf(children[j]) == old(ReprOf(children[j])) && ChildValid(children[j])
        ensures KidView(children[j]) == old(KidView(children[j]))
        ensures WiringOf(children[j]) == old(WiringOf(children[j]))
      {
        if i < j {
          assert ReprOf(children[i]) !! ReprOf(children[j]);
        } else {
          assert ReprOf(children[j]) !! ReprOf(children[i]);
        }
        ChildUntouched(children[j]);
      }
      assert Valid();
      assert View().kids == old(View()).kids[i := Snapshots.ComplexKid(w.View())];
    }

    /** `TrackingObjectPropertyChanged` for each of a child's notifications,
        in order. */
    method ForwardAll(events: seq<string>)
      modifies this`log
      ensures log == old(log) + Forwarded(events)
    {
      var k := 0;
      while k < |events|
        invariant 0 <= k <= |events|
        invariant log == old(log) + Forwarded(events[..k])
      {
        assert events[..k + 1][..k] == events[..k];
        TrackingObjectPropertyChanged(events[k]);
        k := k + 1;
      }
      assert events[..k] == events;
    }
  }

  /** `new ModelWrapper<T>(model)`: a null model is refused with an
      `ArgumentNullException` naming `model`; otherwise the wrapper starts with
      an empty ledger and no children, so it is not changed. */
  method NewModelWrapper(model: Entity?) returns (r: Result<ModelWrapper>)
    ensures r.Failure? <==> model == null
    ensures r.Failure? ==> r.error == ArgumentNullException("model")
    ensures r.Success? ==> var w := r.value;
      fresh(w) && w.Valid() && w.Repr == {w, model} && w.model == model &&
      w.original == map[] && w.children == [] && w.log == [] && !w.IsChanged()
  {
    if model == null {
      return Failure(ArgumentNullException("model"));
    }
    var w := new ModelWrapper(model);
    return Success(w);
  }

  /** The objects of a sequence of wrappers' footprints. */
  ghost function Footprint(ms: seq<ModelWrapper>): (r: set<object>)
    reads set i | 0 <= i < |ms| :: ms[i]
    ensures forall i :: 0 <= i < |ms| ==> ms[i].Repr <= r
    decreases |ms|
  {
    if ms == [] then {} else Footprint(ms[..|ms| - 1]) + ms[|ms| - 1].Repr
  }

  /** Wrappers whose footprints all avoid `s` have a joint footprint that
      avoids `s`. */
  lemma {:induction false} FootprintDisjoint(ms: seq<ModelWrapper>, s: set<object>)
    requires forall i :: 0 <= i < |ms| ==> ms[i].Repr !! s
    ensures Footprint(ms) !! s
    decreases |ms|
  {
    if ms != [] {
      FootprintDisjoint(ms[..|ms| - 1], s);
    }
  }

  /** A `ChangeTrackingCollection<TWrapper>` reduced to what the wrapper
      relies on: an ordered sequence of member wrappers, `IsChanged`,
      `AcceptChanges`, `RejectChanges`, and the `CollectionChanged` handlers
      that re-synchronise backing model lists. */
  class TrackingCollection {
    var members: seq<ModelWrapper>
    /** The backing lists whose re-synchronisation is subscribed to
        `CollectionChanged`, in subscription order. */
    var handlers: seq<EntityList>
    ghost var Repr: set<object>

    /** The members and the subscribed lists have disjoint footprints inside
        `Repr`, and every member is valid. */
    ghost predicate Valid()
      reads this, Repr
      decreases Repr, 1
      ensures Valid() ==> this in Repr
    {
      this in Repr &&
      (forall l :: l in handlers ==> l in Repr) &&
      (forall i :: 0 <= i < |members| ==>
        members[i] in Repr && members[i].Repr <= Repr && this !in members[i].Repr) &&
      (forall i, l :: 0 <= i < |members| && l in handlers ==> l !in members[i].Repr) &&
      (forall i, j :: 0 <= i < j < |members| ==> members[i].Repr !! members[j].Repr) &&
      (forall i :: 0 <= i < |members| ==> members[i].Valid())
    }

    ghost function View(): (v: seq<Snapshots.Snapshot>)
      requires Valid()
      reads this, Repr
      decreases Repr, 1
      ensures |v| == |members|
      ensures forall i :: 0 <= i < |members| ==> v[i] == members[i].View()
    {
      seq(|members|, i requires 0 <= i < |members| && Valid() reads this, Repr => members[i].View())
    }

    /** The members' models, in order. */
    function Models(): (r: seq<Entity>)
      reads this
      ensures |r| == |members|
      ensures forall i :: 0 <= i < |members| ==> r[i] == members[i].model
    {
      seq(|members|, i requires 0 <= i < |members| reads this => members[i].model)
    }

    constructor (members: seq<ModelWrapper>)
      requires forall i :: 0 <= i < |members| ==> members[i].Valid()
      requires forall i, j :: 0 <= i < j < |members| ==> members[i].Repr !! members[j].Repr
      ensures Valid() && Repr == {this} + Footprint(members)
      ensures this.members == members && handlers == []
    {
      this.members := members;
      handlers := [];
      Repr := {this} + Footprint(members);
    }

    function IsChanged(): (r: bool)
      requires Valid()
      reads this, Repr
      decreases Repr, 1
      ensures r == Snapshots.KidChanged(Snapshots.CollectionKid(View()))
    {
      exists i :: 0 <= i < |members| && members[i].IsChanged()
    }

    /** `Count`: the number of members, which is also the length of every
        subscribed list after it is re-synchronised. */
    function Count(): (n: nat)
      reads this
      ensures n == |Models()|
    {
      |members|
    }

    /** `AcceptChanges`: every member, in order. */
    method AcceptChanges()
      requires Valid()
      modifies Repr
      decreases Repr, 1
      ensures Valid() && Repr == old(Repr) && members == old(members) && handlers == old(handlers)
      ensures forall l :: l in handlers ==> l.items == old(l.items)
      ensures View() == Snapshots.AcceptedKid(Snapshots.CollectionKid(old(View()))).members
    {
      var i := 0;
      while i < |members|
        invariant 0 <= i <= |members| && Valid()
        invariant Repr == old(Repr) && members == old(members) && handlers == old(handlers)
        invariant forall l :: l in handlers ==> l.items == old(l.items)
        invariant var v := View();
          |v| == |old(View())| &&
          forall j :: 0 <= j < |v| ==> v[j] == if j < i then Snapshots.Accepted(old(View())[j]) else old(View())[j]
        decreases |members| - i
      {
        AcceptMember(i);
        i := i + 1;
      }
      assert View() == Snapshots.AcceptedKid(Snapshots.CollectionKid(old(View()))).members;
    }

    /** One step of `AcceptChanges`: member `i` only. */
    method AcceptMember(i: nat)
      requires Valid() && i < |members|
      modifies members[i].Repr
      decreases Repr, 0
      ensures Valid() && Repr == old(Repr) && members == old(members) && handlers == old(handlers)
      ensures forall l :: l in handlers ==> l.items == old(l.items)
      ensures View() == old(View())[i := Snapshots.Accepted(old(View())[i])]
    {
      members[i].AcceptChanges();
      forall j | 0 <= j < |members| && j != i
        ensures members[j].Repr == old(members[j].Repr) && members[j].Valid()
        ensures members[j].View() == old(members[j].View())
      {
        if i < j {
          assert members[i].Repr !! members[j].Repr;
        } else {
          assert members[j].Repr !! members[i].Repr;
        }
      }
      assert Valid();
      assert View() == old(View())[i := Snapshots.Accepted(old(View())[i])];
    }

    /** `RejectChanges`: every member, in order. */
    method RejectChanges()
      requires Valid()
      modifies Repr
      decreases Repr, 1
      ensures Valid() && Repr == old(Repr) && members == old(members) && handlers == old(handlers)
      ensures forall l :: l in handlers ==> l.items == old(l.items)
      ensures View() == Snapshots.RejectedKid(Snapshots.CollectionKid(old(View()))).members
    {
      var i := 0;
      while i < |members|
        invariant 0 <= i <= |members| && Valid()
        invariant Repr == old(Repr) && members == old(members) && handlers == old(handlers)
        invariant forall l :: l in handlers ==> l.items == old(l.items)
        invariant var v := View();
          |v| == |old(View())| &&
          forall j :: 0 <= j < |v| ==> v[j] == if j < i then Snapshots.Rejected(old(View())[j]) else old(View())[j]
        decreases |members| - i
      {
        RejectMember(i);
        i := i + 1;
      }
      assert View() == Snapshots.RejectedKid(Snapshots.CollectionKid(old(View()))).members;
    }

    /** One step of `RejectChanges`: member `i` only. */
    method RejectMember(i: nat)
      requires Valid() && i < |members|
      modifies members[i].Repr
      decreases Repr, 0
      ensures Valid() && Repr == old(Repr) && members == old(members) && handlers == old(handlers)
      ensures forall l :: l in handlers ==> l.items == old(l.items)
      ensures View() == old(View())[i := Snapshots.Rejected(old(View())[i])]
    {
      members[i].RejectChanges();
      forall j | 0 <= j < |members| && j != i
        ensures members[j].Repr == old(members[j].Repr) && members[j].Valid()
        ensures members[j].View() == old(members[j].View())
      {
        if i < j {
          assert members[i].Repr !! members[j].Repr;
        } else {
          assert members[j].Repr !! members[i].Repr;
        }
      }
      assert Valid();
      assert View() == old(View())[i := Snapshots.Rejected(old(View())[i])];
    }

    /** Subscribe the re-synchronisation of `modelCollection` to
        `CollectionChanged`. */
    method Subscribe(modelCollection: EntityList)
      requires Valid()
      requires forall i :: 0 <= i < |members| ==> modelCollection !in members[i].Repr
      modifies this`handlers, this`Repr
      ensures Valid() && members == old(members)
      ensures handlers == old(handlers) + [modelCollection]
      ensures Repr == old(Repr) + {modelCollection}
      ensures View() == old(View())
    {
      handlers := handlers + [modelCollection];
      Repr := Repr + {modelCollection};
    }

    /** The `CollectionChanged` handlers: each subscribed backing list is
        cleared and refilled with the members' models, in order. */
    method OnCollectionChanged()
      requires Valid()
      modifies set l | l in handlers
      ensures Valid() && View() == old(View())
      ensures forall l :: l in handlers ==> l.items == Models()
    {
      var k := 0;
      while k < |handlers|
        invariant 0 <= k <= |handlers|
        invariant forall j :: 0 <= j < k ==> handlers[j].items == Models()
      {
        handlers[k].items := [];
        handlers[k].items := handlers[k].items + Models();
        k := k + 1;
      }
    }

    /** `Add(item)`: append a member, then raise `CollectionChanged`. */
    method Add(item: ModelWrapper)
      requires Valid() && item.Valid() && item.Repr !! Repr
      modifies this`members, this`Repr, set l | l in handlers
      ensures Valid() && handlers == old(handlers)
      ensures members == old(members) + [item]
      ensures Repr == old(Repr) + item.Repr
      ensures forall l :: l in handlers ==> l.items == Models()
      ensures View() == old(View()) + [item.View()]
    {
      members := members + [item];
      Repr := Repr + item.Repr;
      assert Valid();
      assert View() == old(View()) + [item.View()];
      OnCollectionChanged();
    }

    /** `Remove(item)`: remove the member if present, then raise
        `CollectionChanged`; answer whether it was present. */
    method Remove(item: ModelWrapper) returns (removed: bool)
      requires Valid()
      modifies this`members, this`Repr, set l | l in handlers
      ensures Valid() && handlers == old(handlers)
      ensures removed <==> item in old(members)
      ensures !removed ==> members == old(members) && Repr == old(Repr) && View() == old(View())
      ensures !removed ==> forall l :: l in handlers ==> l.items == old(l.items)
      ensures removed ==> Repr == old(Repr) - item.Repr && forall l :: l in handlers ==> l.items == Models()
      ensures removed ==> exists i :: (0 <= i < |old(members)| && old(members)[i] == item &&
        members == old(members)[..i] + old(members)[i + 1..] &&
        View() == old(View())[..i] + old(View())[i + 1..])
    {
      var i := 0;
      while i < |members| && members[i] != item
        invariant 0 <= i <= |members|
        invariant forall j :: 0 <= j < i ==> members[j] != item
      {
        i := i + 1;
      }
      removed := i < |members|;
      if removed {
        members := members[..i] + members[i + 1..];
        Repr := Repr - item.Repr;
        assert Valid();
        assert View() == old(View())[..i] + old(View())[i + 1..];
        OnCollectionChanged();
      }
    }
  }
}
