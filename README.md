# FriendStorage change-tracking wrappers in Dafny

This project models the wrapper layer of FriendStorage's WPF client
(`FriendStorage.UI/Wrapper`). That layer has one generic mechanism and three
uses of it.

The generic mechanism is `ModelWrapper<T>`:
- It wraps a live model object and writes through to it.
- In the *original-value ledger* (`_originalValues`) it records, for each
  property whose value differs from its value at the last checkpoint, that
  checkpoint value. A property set back to its original loses its entry.
- It registers child tracking objects: a complex child wrapper, or a
  collection of wrappers. Its `IsChanged`, `AcceptChanges` and
  `RejectChanges` reach down into those children.
- It raises `PropertyChanged` notifications.

The three uses are `AddressWrapper`, `FriendEmailWrapper` and
`FriendWrapper`. A `FriendWrapper` owns an `Address` child and an `Emails`
collection, which keeps the model's email list in sync. It also has a
two-rule `Validate`.

The model has seven modules, one per file.

- `Values` (`values.dfy`) holds the property values and the error kinds. A
  boxed value is the datatype `Value`, and `==` on it stands for
  `object.Equals`. A C# `string` or `DateTime?` may be null, so both are
  options.
- `Ledger` (`ledger.dfy`) is the ledger as pure functions:
  - `Set` is what `SetValue`/`UpdateOriginalValue` do to the values and the ledger.
  - `Notifications` is what they raise.
  - `Checkpoint` is what `GetOriginalValue` answers and what `RejectChanges` restores.

  The ledger invariant, "first original kept" and the other ledger facts are
  lemmas over these functions.
- `Snapshots` (`snapshot.dfy`) is the tracked state of a whole wrapper graph
  as a value. `Changed`, `Accepted` and `Rejected` state, once,
  what `IsChanged`, `AcceptChanges` and `RejectChanges` mean. Lemmas state
  the following:
  - after either call nothing is changed;
  - a second call changes nothing;
  - the ledger invariant holds afterwards;
  - a graph is changed exactly when rejecting and accepting would disagree.
- `Tracking` (`model_wrapper.dfy`) has one class per object the code updates
  in place:
  - `Entity`, the model object. Its properties form a name-keyed map, standing
    for reflection.
  - `EntityList`, a model `List<T>`.
  - `ModelWrapper`.
  - `TrackingCollection`, the part of `ChangeTrackingCollection<T>` the
    wrapper relies on.

  Each `ModelWrapper` method is proved against the pure functions above. A
  ghost `View()` ties the heap to a `Snapshot`.
- `AddressWrappers`, `FriendEmailWrappers` and `FriendWrappers` hold the
  concrete wrappers. C# subclassing becomes a shape predicate on a
  `ModelWrapper` (`IsAddress`, `IsFriendEmail`, `IsFriend`) plus functions
  and methods for each accessor triple. Each module also has the scenarios
  its wrapper is known for.

Notifications are an append-only `log` of property names on each wrapper.
A parent hears a child's notification when the model runs
`TrackingObjectPropertyChanged` for it (`EditComplexChild`, `ForwardAll`).

Two points of the code are worth stating plainly, and the model follows the
code on both:
- `UpdateOriginalValue` (`ModelWrapper.cs:89-106`) raises "IsChanged" every
  time a ledger entry is added or removed, not only when the wrapper's
  `IsChanged` flips. It does so even when another property keeps the wrapper
  changed.
- `FriendWrapper.cs:16` and `:27` override `InitializeCollectionProperties`
  and `InitializeComplexProperties`. `ModelWrapper.cs` declares no
  `Initialize*` hooks, and its constructor (`ModelWrapper.cs:16-25`) calls
  none. The model takes `new FriendWrapper(model)` to be the base
  construction followed by the complex initialiser and then the collection
  initialiser (`FriendWrappers.NewFriendWrapper`).

## Model

| member | source | states |
|---|---|---|
| Ledger.UpdateOriginal | FriendStorage.UI/Wrapper/ModelWrapper.cs:89-106 | only the assigned property's entry can change: it is recorded with the current value the first time, dropped when the new value equals the recorded original, and otherwise keeps the first recorded original |
| Ledger.Set | FriendStorage.UI/Wrapper/ModelWrapper.cs:75-87 | after an assignment the property holds the new value and the others keep theirs; the checkpoint does not move; under the ledger invariant the property is recorded exactly when the new value differs from its original |
| Ledger.Notifications | FriendStorage.UI/Wrapper/ModelWrapper.cs:80-105 | none iff the new value equals the current one; otherwise two or three names ending with the property and its `...IsChanged` companion, led by "IsChanged" exactly when the ledger entry is added or removed |
| Ledger.SetKeepsCheckpoint | FriendStorage.UI/Wrapper/ModelWrapper.cs:75-106 | one assignment keeps the ledger invariant (every entry is a property whose value differs from its recorded original), keeps the set of properties, and leaves every property's checkpoint value where it was |
| Ledger.ConsistentIffLedgerIsDiff | FriendStorage.UI/Wrapper/ModelWrapper.cs:89-106 | the ledger invariant holds exactly when the ledger maps each property whose live value differs from its checkpoint, and only those, to its checkpoint value |
| Ledger.SetAllKeepsCheckpoint | FriendStorage.UI/Wrapper/ModelWrapper.cs:75-106 | any sequence of assignments keeps the ledger invariant, the property set and the checkpoint |
| Ledger.LedgerTracksBaseline | FriendStorage.UI/Wrapper/ModelWrapper.cs:89-106 | starting from an empty ledger, after any sequence of assignments a property is in the ledger iff it differs from its starting value, and the ledger holds that starting value |
| Ledger.OriginalIsKept | FriendStorage.UI/Wrapper/ModelWrapper.cs:97-105 | once a property has a ledger entry, assignments that never set it back to that original leave the entry and its value unchanged (the first captured original is kept) |
| Ledger.SetBackRemovesEntry | FriendStorage.UI/Wrapper/ModelWrapper.cs:99-104 | setting a recorded property back to its original writes the original and removes the entry |
| Ledger.SetLeavesOthers | FriendStorage.UI/Wrapper/ModelWrapper.cs:75-87 | an assignment to one property leaves every other property's value, ledger membership and ledger value alone |
| Ledger.SetConforms | FriendStorage.UI/Wrapper/ModelWrapper.cs:75-87 | assigning a value of the property's type keeps the entity and its ledger well-typed |
| Ledger.CheckpointConforms | FriendStorage.UI/Wrapper/ModelWrapper.cs:44-47 | the values `RejectChanges` writes back are well-typed when the entity and the ledger are |
| Ledger.NotificationsMatchFlags | FriendStorage.UI/Wrapper/ModelWrapper.cs:80-105 | no notification when the value equals the current one; otherwise the last two are the property name and name + "IsChanged", preceded by "IsChanged" exactly when the property's ledger membership flips |
| Snapshots.AcceptedIsUnchanged | FriendStorage.UI/Wrapper/ModelWrapper.cs:31-40 | after `AcceptChanges` no wrapper in the graph is changed |
| Snapshots.AcceptedKidIsUnchanged | FriendStorage.UI/Wrapper/ModelWrapper.cs:34-37 | an accepted child (complex or collection) is not changed |
| Snapshots.RejectedIsUnchanged | FriendStorage.UI/Wrapper/ModelWrapper.cs:42-55 | after `RejectChanges` no wrapper in the graph is changed |
| Snapshots.RejectedKidIsUnchanged | FriendStorage.UI/Wrapper/ModelWrapper.cs:49-52 | a rejected child (complex or collection) is not changed |
| Snapshots.UnchangedIsFixpoint | FriendStorage.UI/Wrapper/ModelWrapper.cs:29-55 | on an unchanged graph both `AcceptChanges` and `RejectChanges` leave the tracked state exactly as it is |
| Snapshots.UnchangedKidIsFixpoint | FriendStorage.UI/Wrapper/ModelWrapper.cs:34-52 | the same for one unchanged child |
| Snapshots.SecondCallChangesNothing | FriendStorage.UI/Wrapper/ModelWrapper.cs:31-40 | `AcceptChanges` is idempotent, and an accept or reject right after either one changes no tracked state |
| Snapshots.ResultsAreConsistent | FriendStorage.UI/Wrapper/ModelWrapper.cs:31-55 | both operations leave the ledger invariant in place at every wrapper of the graph |
| Snapshots.KidResultsAreConsistent | FriendStorage.UI/Wrapper/ModelWrapper.cs:34-52 | the same for one child |
| Snapshots.ChangedIffRejectDiffersFromAccept | FriendStorage.UI/Wrapper/ModelWrapper.cs:29 | under the ledger invariant a graph is changed exactly when rejecting and accepting would leave different values somewhere |
| Snapshots.KidChangedIffRejectDiffers | FriendStorage.UI/Wrapper/ModelWrapper.cs:29 | the same for one child |
| Tracking.ChildIsChanged | FriendStorage.UI/Wrapper/ModelWrapper.cs:29 | a child's `IsChanged` is the `Changed` of its tracked state |
| Tracking.Forwarded | FriendStorage.UI/Wrapper/ModelWrapper.cs:135-141 | a parent re-raises only "IsChanged", and never more notifications than it heard |
| Tracking.ModelWrapper.constructor | FriendStorage.UI/Wrapper/ModelWrapper.cs:16-25 | the wrapper holds the given model itself, with an empty ledger, no children and no notifications |
| Tracking.ModelWrapper.IsChanged | FriendStorage.UI/Wrapper/ModelWrapper.cs:29 | `IsChanged` is the `Changed` of the wrapper's tracked state: ledger non-empty or some registered child changed |
| Tracking.ModelWrapper.GetValue | FriendStorage.UI/Wrapper/ModelWrapper.cs:57-61 | the property's live value; under the ledger invariant it equals the original value exactly when the property has no ledger entry |
| Tracking.ModelWrapper.GetOriginalValue | FriendStorage.UI/Wrapper/ModelWrapper.cs:63-68 | the original value is the property's checkpoint value |
| Tracking.ModelWrapper.GetIsChanged | FriendStorage.UI/Wrapper/ModelWrapper.cs:70-73 | under the ledger invariant, ledger membership is exactly "the value differs from the original value" |
| Tracking.ModelWrapper.SetValue | FriendStorage.UI/Wrapper/ModelWrapper.cs:75-87 | the new state is `Ledger.Set` of the old one, the log grows by `Ledger.Notifications`, the checkpoint and every other property stay, the children's state is untouched, and the wrapper stays valid |
| Tracking.ModelWrapper.WriteValue | FriendStorage.UI/Wrapper/ModelWrapper.cs:78-86 | the body of `SetValue` performs `Ledger.Set` and appends `Ledger.Notifications` |
| Tracking.ModelWrapper.UpdateOriginalValue | FriendStorage.UI/Wrapper/ModelWrapper.cs:89-106 | the ledger becomes `Ledger.UpdateOriginal` of the old one, and "IsChanged" is logged exactly when an entry is added or removed |
| Tracking.ModelWrapper.AcceptChanges | FriendStorage.UI/Wrapper/ModelWrapper.cs:31-40 | the tracked state becomes `Accepted` of the old one (ledgers cleared everywhere, no value touched), the children and their wiring stay, and "" is logged once |
| Tracking.ModelWrapper.ClearLedger | FriendStorage.UI/Wrapper/ModelWrapper.cs:33 | the ledger is emptied and nothing else changes |
| Tracking.ModelWrapper.AcceptChildren | FriendStorage.UI/Wrapper/ModelWrapper.cs:34-37 | the loop accepts every child in registration order: the children's part of the tracked state becomes that of `Accepted`, while the wrapper's own values, ledger and log stay, and so do the children and their wiring |
| Tracking.ModelWrapper.AcceptChild | FriendStorage.UI/Wrapper/ModelWrapper.cs:34-37 | one loop step: child i is accepted and every other child, the ledger and the model stay |
| Tracking.ModelWrapper.RestoreOriginals | FriendStorage.UI/Wrapper/ModelWrapper.cs:44-47 | every recorded original is written back into the model: the model's values become the checkpoint |
| Tracking.ModelWrapper.RevertLedger | FriendStorage.UI/Wrapper/ModelWrapper.cs:44-48 | the model is at its checkpoint and the ledger is empty, the children untouched |
| Tracking.ModelWrapper.RejectChanges | FriendStorage.UI/Wrapper/ModelWrapper.cs:42-55 | the tracked state becomes `Rejected` of the old one (every value back at its checkpoint, ledgers cleared everywhere), the children and their wiring stay, and "" is logged once |
| Tracking.ModelWrapper.RejectChildren | FriendStorage.UI/Wrapper/ModelWrapper.cs:49-52 | the loop rejects every child in registration order: the children's part of the tracked state becomes that of `Rejected`, while the wrapper's own values, ledger and log stay, and so do the children and their wiring |
| Tracking.ModelWrapper.RejectChild | FriendStorage.UI/Wrapper/ModelWrapper.cs:49-52 | one loop step: child i is rejected and every other child, the ledger and the model stay |
| Tracking.ModelWrapper.RegisterTrackingObject | FriendStorage.UI/Wrapper/ModelWrapper.cs:125-133 | a child already registered is not added again; otherwise it is appended, so every tracking object is registered at most once |
| Tracking.ModelWrapper.RegisterComplex | FriendStorage.UI/Wrapper/ModelWrapper.cs:120-123 | the complex child is registered as by `RegisterTrackingObject` |
| Tracking.ModelWrapper.RegisterCollection | FriendStorage.UI/Wrapper/ModelWrapper.cs:108-118 | the collection subscribes the model list's re-synchronisation and is appended as the last child; its members stay |
| Tracking.ModelWrapper.AddToCollection | FriendStorage.UI/Wrapper/ModelWrapper.cs:112-116 | after adding a member to registered collection i, the member is last, every subscribed list equals the members' models in order, and the other children and their wiring stay |
| Tracking.ModelWrapper.RemoveFromCollection | FriendStorage.UI/Wrapper/ModelWrapper.cs:112-116 | removal happens iff the item is a member; it takes out exactly that member and its view, the subscribed lists are re-synchronised, and without a removal nothing changes |
| Tracking.ModelWrapper.TrackingObjectPropertyChanged | FriendStorage.UI/Wrapper/ModelWrapper.cs:135-141 | a child's notification is re-raised only when it is "IsChanged" |
| Tracking.ModelWrapper.EditComplexChild | FriendStorage.UI/Wrapper/ModelWrapper.cs:131-141 | an assignment inside complex child i performs `Ledger.Set` there; the child logs `Ledger.Notifications`, and this wrapper logs their `Forwarded` part |
| Tracking.ModelWrapper.SetChildValue | FriendStorage.UI/Wrapper/ModelWrapper.cs:75-87 | `SetValue` on child i changes only that child's state, and the graph stays valid |
| Tracking.ModelWrapper.ForwardAll | FriendStorage.UI/Wrapper/ModelWrapper.cs:135-141 | handling a child's notifications in order appends exactly their `Forwarded` part |
| Tracking.NewModelWrapper | FriendStorage.UI/Wrapper/ModelWrapper.cs:16-25 | fails with `ArgumentNullException("model")` iff the model is null; otherwise a fresh wrapper with an empty ledger and no children, which is not changed |
| Tracking.TrackingCollection.constructor | FriendStorage.UI/Wrapper/FriendWrapper.cs:22-23 | a valid collection holding exactly the given members, in order, with no subscribed list |
| Tracking.TrackingCollection.Count | FriendStorage.UI/Wrapper/FriendWrapper.cs:108 | the number of members, which is the number of models every re-synchronised list holds |
| Tracking.TrackingCollection.IsChanged | FriendStorage.UI/Wrapper/ModelWrapper.cs:29 | a collection is changed iff some member is |
| Tracking.TrackingCollection.AcceptChanges | FriendStorage.UI/Wrapper/ModelWrapper.cs:34-37 | every member is accepted, in order; members and subscribed lists stay |
| Tracking.TrackingCollection.AcceptMember | FriendStorage.UI/Wrapper/ModelWrapper.cs:36 | member i is accepted; the others stay |
| Tracking.TrackingCollection.RejectChanges | FriendStorage.UI/Wrapper/ModelWrapper.cs:49-52 | every member is rejected, in order; members and subscribed lists stay |
| Tracking.TrackingCollection.RejectMember | FriendStorage.UI/Wrapper/ModelWrapper.cs:51 | member i is rejected; the others stay |
| Tracking.TrackingCollection.Subscribe | FriendStorage.UI/Wrapper/ModelWrapper.cs:112 | the model list joins the handlers at the end; the members stay |
| Tracking.TrackingCollection.OnCollectionChanged | FriendStorage.UI/Wrapper/ModelWrapper.cs:112-116 | every subscribed list is cleared and refilled with the members' models, in order |
| Tracking.TrackingCollection.Add | FriendStorage.UI/Wrapper/ModelWrapper.cs:112-116 | the item is appended, and afterwards every subscribed list equals the members' models |
| Tracking.TrackingCollection.Remove | FriendStorage.UI/Wrapper/ModelWrapper.cs:112-116 | removal happens iff the item is a member; exactly that member leaves, the others keep their order, and the subscribed lists are re-synchronised; otherwise nothing changes |
| AddressWrappers.NewAddressWrapper | FriendStorage.UI/Wrapper/AddressWrapper.cs:13-15 | a null model gives `ArgumentNullException`; otherwise a fresh `AddressWrapper` that is not changed |
| AddressWrappers.Id | FriendStorage.UI/Wrapper/AddressWrapper.cs:19 | the live value of "Id"; under the ledger invariant it equals the original value exactly when "Id" has no ledger entry |
| AddressWrappers.IdOriginalValue | FriendStorage.UI/Wrapper/AddressWrapper.cs:23 | the checkpoint value of "Id", equal to `Id` when not changed |
| AddressWrappers.IdIsChanged | FriendStorage.UI/Wrapper/AddressWrapper.cs:25 | "Id" differs from its original value |
| AddressWrappers.SetId | FriendStorage.UI/Wrapper/AddressWrapper.cs:17-21 | writes "Id", keeps its original, flags it iff the new value differs from the original, leaves the other properties, and logs the "Id" notifications |
| AddressWrappers.City | FriendStorage.UI/Wrapper/AddressWrapper.cs:30 | the live value of "City"; under the ledger invariant it equals the original value exactly when "City" has no ledger entry |
| AddressWrappers.CityOriginalValue | FriendStorage.UI/Wrapper/AddressWrapper.cs:34 | the checkpoint value of "City", equal to `City` when not changed |
| AddressWrappers.CityIsChanged | FriendStorage.UI/Wrapper/AddressWrapper.cs:36 | "City" differs from its original value |
| AddressWrappers.SetCity | FriendStorage.UI/Wrapper/AddressWrapper.cs:28-32 | the same as `SetId`, for "City" |
| AddressWrappers.Street | FriendStorage.UI/Wrapper/AddressWrapper.cs:40 | the live value of "Street"; under the ledger invariant it equals the original value exactly when "Street" has no ledger entry |
| AddressWrappers.StreetOriginalValue | FriendStorage.UI/Wrapper/AddressWrapper.cs:44 | the checkpoint value of "Street", equal to `Street` when not changed |
| AddressWrappers.StreetIsChanged | FriendStorage.UI/Wrapper/AddressWrapper.cs:46 | "Street" differs from its original value |
| AddressWrappers.SetStreet | FriendStorage.UI/Wrapper/AddressWrapper.cs:38-42 | the same as `SetId`, for "Street" |
| AddressWrappers.StreetNumber | FriendStorage.UI/Wrapper/AddressWrapper.cs:50 | the live value of "StreetNumber"; under the ledger invariant it equals the original value exactly when "StreetNumber" has no ledger entry |
| AddressWrappers.StreetNumberOriginalValue | FriendStorage.UI/Wrapper/AddressWrapper.cs:54 | the checkpoint value of "StreetNumber", equal to `StreetNumber` when not changed |
| AddressWrappers.StreetNumberIsChanged | FriendStorage.UI/Wrapper/AddressWrapper.cs:56 | "StreetNumber" differs from its original value |
| AddressWrappers.SetStreetNumber | FriendStorage.UI/Wrapper/AddressWrapper.cs:48-52 | the same as `SetId`, for "StreetNumber" |
| AddressWrappers.IsChangedIffSomeProperty | FriendStorage.UI/Wrapper/AddressWrapper.cs:13-15 | an `AddressWrapper` is changed iff one of its four `...IsChanged` flags is set |
| AddressWrappers.StaysAddress | FriendStorage.UI/Wrapper/AddressWrapper.cs:13-15 | accepting or rejecting keeps a wrapper an `AddressWrapper` |
| AddressWrappers.CityEditThenReject | FriendStorage.UI/Wrapper/AddressWrapper.cs:28-36 | "Berlin" set to "Munich" is changed with original "Berlin"; after `RejectChanges` the city is "Berlin" and nothing is changed |
| AddressWrappers.StreetSetBack | FriendStorage.UI/Wrapper/AddressWrapper.cs:38-46 | setting `Street` away and back clears `StreetIsChanged` and never touches `City` or `CityIsChanged` |
| FriendEmailWrappers.NewFriendEmailWrapper | FriendStorage.UI/Wrapper/FriendEmailWrapper.cs:13-15 | a null model gives `ArgumentNullException`; otherwise a fresh `FriendEmailWrapper` that is not changed |
| FriendEmailWrappers.Id | FriendStorage.UI/Wrapper/FriendEmailWrapper.cs:19 | the live value of "Id"; under the ledger invariant it equals the original value exactly when "Id" has no ledger entry |
| FriendEmailWrappers.IdOriginalValue | FriendStorage.UI/Wrapper/FriendEmailWrapper.cs:23 | the checkpoint value of "Id", equal to `Id` when not changed |
| FriendEmailWrappers.IdIsChanged | FriendStorage.UI/Wrapper/FriendEmailWrapper.cs:25 | "Id" differs from its original value |
| FriendEmailWrappers.SetId | FriendStorage.UI/Wrapper/FriendEmailWrapper.cs:17-21 | writes "Id", keeps its original, flags it iff the new value differs from the original, leaves the other properties, and logs the "Id" notifications |
| FriendEmailWrappers.Email | FriendStorage.UI/Wrapper/FriendEmailWrapper.cs:31 | the live value of "Email"; under the ledger invariant it equals the original value exactly when "Email" has no ledger entry |
| FriendEmailWrappers.EmailOriginalValue | FriendStorage.UI/Wrapper/FriendEmailWrapper.cs:35 | the checkpoint value of "Email", equal to `Email` whenever `EmailIsChanged` is false |
| FriendEmailWrappers.EmailIsChanged | FriendStorage.UI/Wrapper/FriendEmailWrapper.cs:37 | "Email" differs from its original value |
| FriendEmailWrappers.SetEmail | FriendStorage.UI/Wrapper/FriendEmailWrapper.cs:29-33 | the same as `SetId`, for "Email" |
| FriendEmailWrappers.Comment | FriendStorage.UI/Wrapper/FriendEmailWrapper.cs:41 | the live value of "Comment"; under the ledger invariant it equals the original value exactly when "Comment" has no ledger entry |
| FriendEmailWrappers.CommentOriginalValue | FriendStorage.UI/Wrapper/FriendEmailWrapper.cs:45 | the checkpoint value of "Comment", equal to `Comment` when not changed |
| FriendEmailWrappers.CommentIsChanged | FriendStorage.UI/Wrapper/FriendEmailWrapper.cs:47 | "Comment" differs from its original value |
| FriendEmailWrappers.SetComment | FriendStorage.UI/Wrapper/FriendEmailWrapper.cs:39-43 | the same as `SetId`, for "Comment" |
| FriendEmailWrappers.IsChangedIffSomeProperty | FriendStorage.UI/Wrapper/FriendEmailWrapper.cs:13-15 | a `FriendEmailWrapper` is changed iff one of its three `...IsChanged` flags is set |
| FriendEmailWrappers.StaysFriendEmail | FriendStorage.UI/Wrapper/FriendEmailWrapper.cs:13-15 | accepting or rejecting keeps a wrapper a `FriendEmailWrapper` |
| FriendEmailWrappers.CommentThenAccept | FriendStorage.UI/Wrapper/FriendEmailWrapper.cs:39-47 | after editing `Comment` and accepting, the comment keeps the new value, `CommentIsChanged` is false, the original value is the new value, and nothing is changed |
| FriendWrappers.Address | FriendStorage.UI/Wrapper/FriendWrapper.cs:97 | `Address` is a registered `AddressWrapper` of the model's address |
| FriendWrappers.Emails | FriendStorage.UI/Wrapper/FriendWrapper.cs:99 | `Emails` is a registered collection of `FriendEmailWrapper`s that keeps the model's email list equal to its members' models |
| FriendWrappers.EmailWrappers | FriendStorage.UI/Wrapper/FriendWrapper.cs:22-23 | one fresh, distinct wrapper per email, in order, each with an empty ledger and no children |
| FriendWrappers.NewEmailsCollection | FriendStorage.UI/Wrapper/FriendWrapper.cs:22-23 | a list holding one email object twice gives `SharedEntity("model.Emails")`; otherwise a fresh collection whose members wrap the emails in order, with no handler yet |
| FriendWrappers.FreshEmailsCollection | FriendStorage.UI/Wrapper/FriendWrapper.cs:22-23 | that collection holds `FriendEmailWrapper`s, its models are the email list, and it is not changed |
| FriendWrappers.InitializeComplexProperties | FriendStorage.UI/Wrapper/FriendWrapper.cs:27-35 | fails with `ArgumentException("Address cannot be null")` iff the address is null, changing nothing; otherwise the address is wrapped and registered as the only child |
| FriendWrappers.InitializeCollectionProperties | FriendStorage.UI/Wrapper/FriendWrapper.cs:16-25 | fails with `ArgumentException("Emails cannot be null")` when the email list is null and with `SharedEntity("model.Emails")` when it holds one email object twice, changing no child either way; succeeds exactly otherwise, and the wrapper is then a `FriendWrapper` that is not changed |
| FriendWrappers.RegisterEmails | FriendStorage.UI/Wrapper/FriendWrapper.cs:24 | registering the email collection with the model's list completes an unchanged `FriendWrapper` |
| FriendWrappers.NewFriendWrapper | FriendStorage.UI/Wrapper/FriendWrapper.cs:11-14 | null model, null address and null emails each give their own exception, checked in that order, and a repeated email object gives `SharedEntity("model.Emails")`; success iff none of these holds, with a fresh, unchanged `FriendWrapper` around the model |
| FriendWrappers.SetFriendValue | FriendStorage.UI/Wrapper/FriendWrapper.cs:40 | a setter performs `Ledger.Set`, logs `Ledger.Notifications`, keeps the checkpoint and the other properties, and the wrapper stays a `FriendWrapper` |
| FriendWrappers.Id | FriendStorage.UI/Wrapper/FriendWrapper.cs:39 | the live value of "Id"; under the ledger invariant it equals the original value exactly when "Id" has no ledger entry |
| FriendWrappers.IdOriginalValue | FriendStorage.UI/Wrapper/FriendWrapper.cs:43 | the checkpoint value of "Id", equal to `Id` when not changed |
| FriendWrappers.IdIsChanged | FriendStorage.UI/Wrapper/FriendWrapper.cs:45 | "Id" differs from its original value |
| FriendWrappers.SetId | FriendStorage.UI/Wrapper/FriendWrapper.cs:37-41 | writes "Id", keeps its original, flags it iff the new value differs from the original, leaves the other properties, and logs the "Id" notifications |
| FriendWrappers.FriendGroupId | FriendStorage.UI/Wrapper/FriendWrapper.cs:49 | the live value of "FriendGroupId"; under the ledger invariant it equals the original value exactly when "FriendGroupId" has no ledger entry |
| FriendWrappers.FriendGroupIdOriginalValue | FriendStorage.UI/Wrapper/FriendWrapper.cs:53 | the checkpoint value of "FriendGroupId", equal to `FriendGroupId` when not changed |
| FriendWrappers.FriendGroupIdIsChanged | FriendStorage.UI/Wrapper/FriendWrapper.cs:55 | "FriendGroupId" differs from its original value |
| FriendWrappers.SetFriendGroupId | FriendStorage.UI/Wrapper/FriendWrapper.cs:47-51 | the same as `SetId`, for "FriendGroupId" |
| FriendWrappers.FirstName | FriendStorage.UI/Wrapper/FriendWrapper.cs:59 | the live value of "FirstName"; under the ledger invariant it equals the original value exactly when "FirstName" has no ledger entry |
| FriendWrappers.FirstNameOriginalValue | FriendStorage.UI/Wrapper/FriendWrapper.cs:63 | the checkpoint value of "FirstName", equal to `FirstName` when not changed |
| FriendWrappers.FirstNameIsChanged | FriendStorage.UI/Wrapper/FriendWrapper.cs:65 | "FirstName" differs from its original value |
| FriendWrappers.SetFirstName | FriendStorage.UI/Wrapper/FriendWrapper.cs:57-61 | the same as `SetId`, for "FirstName"; every other property keeps its value and flag |
| FriendWrappers.LastName | FriendStorage.UI/Wrapper/FriendWrapper.cs:69 | the live value of "LastName"; under the ledger invariant it equals the original value exactly when "LastName" has no ledger entry |
| FriendWrappers.LastNameOriginalValue | FriendStorage.UI/Wrapper/FriendWrapper.cs:73 | the checkpoint value of "LastName", equal to `LastName` when not changed |
| FriendWrappers.LastNameIsChanged | FriendStorage.UI/Wrapper/FriendWrapper.cs:75 | "LastName" differs from its original value |
| FriendWrappers.SetLastName | FriendStorage.UI/Wrapper/FriendWrapper.cs:67-71 | the same as `SetId`, for "LastName" |
| FriendWrappers.Birthday | FriendStorage.UI/Wrapper/FriendWrapper.cs:79 | the live value of "Birthday"; under the ledger invariant it equals the original value exactly when "Birthday" has no ledger entry |
| FriendWrappers.BirthdayOriginalValue | FriendStorage.UI/Wrapper/FriendWrapper.cs:83 | the checkpoint value of "Birthday", equal to `Birthday` when not changed |
| FriendWrappers.BirthdayIsChanged | FriendStorage.UI/Wrapper/FriendWrapper.cs:85 | "Birthday" differs from its original value |
| FriendWrappers.SetBirthday | FriendStorage.UI/Wrapper/FriendWrapper.cs:77-81 | the same as `SetId`, for "Birthday" |
| FriendWrappers.IsDeveloper | FriendStorage.UI/Wrapper/FriendWrapper.cs:89 | the live value of "IsDeveloper"; under the ledger invariant it equals the original value exactly when "IsDeveloper" has no ledger entry |
| FriendWrappers.IsDeveloperOriginalValue | FriendStorage.UI/Wrapper/FriendWrapper.cs:93 | the checkpoint value of "IsDeveloper", equal to `IsDeveloper` when not changed |
| FriendWrappers.IsDeveloperIsChanged | FriendStorage.UI/Wrapper/FriendWrapper.cs:95 | "IsDeveloper" differs from its original value |
| FriendWrappers.SetIsDeveloper | FriendStorage.UI/Wrapper/FriendWrapper.cs:87-91 | the same as `SetId`, for "IsDeveloper" |
| FriendWrappers.LedgerNonEmptyIffSomeProperty | FriendStorage.UI/Wrapper/FriendWrapper.cs:37-95 | the friend's ledger is non-empty iff one of the six `...IsChanged` flags is set |
| FriendWrappers.IsChangedIffSomePropertyOrChild | FriendStorage.UI/Wrapper/FriendWrapper.cs:33-34 | a `FriendWrapper` is changed iff one of its six flags is set, its `Address` is changed or its `Emails` is changed |
| FriendWrappers.IsWhiteSpace | FriendStorage.UI/Wrapper/FriendWrapper.cs:103 | `char.IsWhiteSpace`, as `string.IsNullOrWhiteSpace` applies it: within ASCII exactly space, tab, line feed, vertical tab, form feed and carriage return; never a letter or a digit |
| FriendWrappers.AllWhiteSpace | FriendStorage.UI/Wrapper/FriendWrapper.cs:103 | true iff every character is white space |
| FriendWrappers.IsNullOrWhiteSpace | FriendStorage.UI/Wrapper/FriendWrapper.cs:103 | true iff the string is null or all white space, so the empty string counts |
| FriendWrappers.Validate | FriendStorage.UI/Wrapper/FriendWrapper.cs:101-113 | "Firstname is required" is reported iff the first name is null, empty or white space; the developer-email result iff `IsDeveloper` and no emails; nothing else, at most two, and first-name result first |
| FriendWrappers.FriendShapeKept | FriendStorage.UI/Wrapper/ModelWrapper.cs:42-55 | accepting or rejecting a friend's graph keeps every value of the type its property has |
| FriendWrappers.RemovalKeepsShape | FriendStorage.UI/Wrapper/ModelWrapper.cs:112-116 | removing one email from a friend's graph keeps that shape |
| FriendWrappers.AcceptChanges | FriendStorage.UI/Wrapper/FriendWrapper.cs:33-34 | the friend stays a `FriendWrapper`; its and its `Address`'s values stay while their ledgers are cleared; neither it, the Address nor the Emails is changed; the model's email list and the `Emails` members stay |
| FriendWrappers.RejectChanges | FriendStorage.UI/Wrapper/FriendWrapper.cs:33-34 | the friend stays a `FriendWrapper`; it and its `Address` are back at their checkpoints with empty ledgers; nothing is changed; the model's email list and the `Emails` members stay |
| FriendWrappers.EditAddress | FriendStorage.UI/Wrapper/FriendWrapper.cs:33-34 | an Address assignment performs `Ledger.Set` on the Address, the Address logs its notifications, the friend logs their "IsChanged" part, and a flagged Address property makes the friend changed |
| FriendWrappers.AddEmail | FriendStorage.UI/Wrapper/FriendWrapper.cs:24 | the email joins `Emails` last and the model's list gets its model last; the friend stays a `FriendWrapper` |
| FriendWrappers.RemoveEmail | FriendStorage.UI/Wrapper/FriendWrapper.cs:24 | removal iff the email is a member; exactly that member leaves `Emails`; the model's list stays in sync; without removal nothing changes |
| FriendWrappers.NewDeveloperWithoutEmail | FriendStorage.UI/Wrapper/FriendWrapper.cs:11-14 | a fresh, unchanged `FriendWrapper` around a developer with no first name and no emails |
| FriendWrappers.DeveloperWithoutEmail | FriendStorage.UI/Wrapper/FriendWrapper.cs:101-113 | such a friend fails both rules, in order, and yet is not changed |
| FriendWrappers.ValidateNamedDeveloper | FriendStorage.UI/Wrapper/FriendWrapper.cs:101-113 | a developer with a non-blank first name and no emails fails the second rule only |
| FriendWrappers.NameDeveloper | FriendStorage.UI/Wrapper/FriendWrapper.cs:57-61 | giving that developer a first name makes it non-blank and the friend changed, and keeps `IsDeveloper` and the empty `Emails` |
| FriendWrappers.AddressEditThenAccept | FriendStorage.UI/Wrapper/FriendWrapper.cs:33-34 | editing the Address city makes an unchanged friend changed; accepting then keeps "Munich" and clears every flag down to the Address |

## Left out

- Reflection: `GetProperty`, `GetValue` and `SetValue` through `PropertyInfo`, and `[CallerMemberName]`. Properties are a name-keyed map, and every operation requires a known property name. The silent `?.` skip of an unknown name and the `(TValue)` cast failures are not modelled.
- Event dispatch: `Observable`, `INotifyPropertyChanged` and the `PropertyChanged`/`CollectionChanged` delegates. Notifications are a per-wrapper log of property names. The model has no invocation lists, no re-entrancy and no unsubscription.
- `ChangeTrackingCollection<T>` internals: added, removed and modified bookkeeping, and the membership baseline. `ChangeTrackingCollection.cs` is not part of this model. A collection is changed iff some member is, and its own notifications are not modelled.
- DataAnnotations `[Required]` and `[EmailAddress]` on `City` and `Email`. The .NET validation framework evaluates them, so they are not modelled.
- `DateTime?`: `Birthday` is an opaque token compared by equality.
- `Address` and `Emails` are registered once, at construction. Their setters are private and never run again, so they are not modelled as assignable.
- FriendWrappers.NewFriendWrapper: the initialiser order is taken to be complex then collection, because `ModelWrapper.cs` neither declares nor calls the hooks.
- FriendWrappers.NewFriendWrapper, FriendWrappers.InitializeComplexProperties, FriendWrappers.InitializeCollectionProperties and FriendWrappers.NewEmailsCollection: require every stored value to be of its property's type (`Conforms`). This only mirrors the static types of `Friend`, `Address` and `FriendEmail`, whose properties cannot hold an ill-typed value. That the friend, its address and its emails are different objects follows from those types (`FriendWrappers.SeparateSchemas`).
- FriendWrappers.NewEmailsCollection, FriendWrappers.InitializeCollectionProperties and FriendWrappers.NewFriendWrapper: a `model.Emails` that holds one `FriendEmail` object twice is refused with `SharedEntity("model.Emails")`, which the C# never raises. The C# wraps that object twice, and both wrappers write through to it. The model gives every entity one wrapper, so that the objects of a friend's wrappers stay disjoint.
- A null entry in `model.Emails` cannot be represented. `EntityList` holds non-null entities only.
- Tracking.NewModelWrapper and the concrete constructors: a fresh wrapper's log is stated empty only for the base wrapper. `NewFriendWrapper` does not state its log.
- Tracking.ModelWrapper.RegisterCollection: requires the collection's footprint to be disjoint from the wrapper's, so objects are not shared between two parents. The C# allows such aliasing.
- Tracking.ModelWrapper.AddToCollection and FriendWrappers.AddEmail: require the added wrapper to be disjoint from the friend's objects, so the same wrapper is never added twice.
- FriendWrappers.RemoveEmail: states the new `Emails` members, not the new model list. The list is re-synchronised to the members' models, which `IsFriend` states.
- The UI and persistence layers, and everything outside `FriendStorage.UI/Wrapper`.
