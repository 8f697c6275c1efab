/** `FriendEmailWrapper`: a `ModelWrapper<FriendEmail>` with the accessor
    triple (value, `...OriginalValue`, `...IsChanged`) of each of the three
    `FriendEmail` properties, and no children. */
module FriendEmailWrappers {
  import opened Values
  import Ledger
  import Snapshots
  import opened Tracking

  /** The properties of a `FriendEmail`. */
  const EmailSchema: Schema := map["Id" := IntKind, "Email" := StringKind, "Comment" := StringKind]

  /** `w` is a `FriendEmailWrapper`: a valid wrapper without children around
      an entity with exactly the `FriendEmail` properties. */
  ghost predicate IsFriendEmail(w: ModelWrapper)
    reads w, w.Repr
  {
    w.Valid() && w.children == [] && FriendEmailFields(w)
  }

  /** The part of `IsFriendEmail` the property accessors need: the model and
      the ledger hold `FriendEmail` properties, and the ledger is consistent. */
  ghost predicate FriendEmailFields(w: ModelWrapper)
    reads w, w.model
  {
    Ledger.Consistent(w.State()) &&
    Conforms(w.model.fields, EmailSchema) && LedgerConforms(w.original, EmailSchema)
  }

  /** `new FriendEmailWrapper(model)`. */
  method NewFriendEmailWrapper(model: Entity?) returns (r: Result<ModelWrapper>)
    requires model != null ==> Conforms(model.fields, EmailSchema)
    ensures r.Failure? <==> model == null
    ensures r.Failure? ==> r.error == ArgumentNullException("model")
    ensures r.Success? ==>
      (fresh(r.value) && r.value.Repr == {r.value, model} &&
       IsFriendEmail(r.value) && r.value.model == model && !r.value.IsChanged())
  {
    r := NewModelWrapper(model);
  }

  // Id

  /** The current value of `Id`, which is its original exactly when it
      is not recorded as changed. */
  function Id(w: ModelWrapper): (r: int)
    requires FriendEmailFields(w)
    reads w, w.model
    ensures IntValue(r) == w.State().live["Id"]
    ensures Ledger.Consistent(w.State()) ==>
      (IntValue(r) == Ledger.Checkpoint(w.State())["Id"] <==> "Id" !in w.original)
  {
    w.GetValue("Id").i
  }

  /** The value at the last checkpoint, which `RejectChanges` restores;
      the current one when `Id` is not changed. */
  function IdOriginalValue(w: ModelWrapper): (r: int)
    requires FriendEmailFields(w)
    reads w, w.model
    ensures IntValue(r) == Ledger.Checkpoint(w.State())["Id"]
    ensures !IdIsChanged(w) ==> r == Id(w)
  {
    w.GetOriginalValue("Id").i
  }

  function IdIsChanged(w: ModelWrapper): (r: bool)
    requires FriendEmailFields(w)
    reads w, w.model
    ensures r <==> w.GetValue("Id") != w.GetOriginalValue("Id")
  {
    w.GetIsChanged("Id")
  }

  method SetId(w: ModelWrapper, value: int)
    requires IsFriendEmail(w)
    modifies w`original, w`log, w.model`fields
    ensures IsFriendEmail(w) && Id(w) == value
    ensures IdOriginalValue(w) == old(IdOriginalValue(w))
    ensures IdIsChanged(w) <==> value != IdOriginalValue(w)
    ensures Ledger.OthersUnchanged(old(w.State()), w.State(), "Id")
    ensures w.log == old(w.log) + Ledger.Notifications(old(w.State()), "Id", IntValue(value))
  {
    w.SetValue("Id", IntValue(value));
  }

  // Email

  /** The current value of `Email`, which is its original exactly when it
      is not recorded as changed. */
  function Email(w: ModelWrapper): (r: Option<string>)
    requires FriendEmailFields(w)
    reads w, w.model
    ensures StringValue(r) == w.State().live["Email"]
    ensures Ledger.Consistent(w.State()) ==>
      (StringValue(r) == Ledger.Checkpoint(w.State())["Email"] <==> "Email" !in w.original)
  {
    w.GetValue("Email").s
  }

  /** The value at the last checkpoint, which `RejectChanges` restores;
      the current one when `Email` is not changed. */
  function EmailOriginalValue(w: ModelWrapper): (r: Option<string>)
    requires FriendEmailFields(w)
    reads w, w.model
    ensures StringValue(r) == Ledger.Checkpoint(w.State())["Email"]
    ensures !EmailIsChanged(w) ==> r == Email(w)
  {
    w.GetOriginalValue("Email").s
  }

  function EmailIsChanged(w: ModelWrapper): (r: bool)
    requires FriendEmailFields(w)
    reads w, w.model
    ensures r <==> w.GetValue("Email") != w.GetOriginalValue("Email")
  {
    w.GetIsChanged("Email")
  }

  method SetEmail(w: ModelWrapper, value: Option<string>)
    requires IsFriendEmail(w)
    modifies w`original, w`log, w.model`fields
    ensures IsFriendEmail(w) && Email(w) == value
    ensures EmailOriginalValue(w) == old(EmailOriginalValue(w))
    ensures EmailIsChanged(w) <==> value != EmailOriginalValue(w)
    ensures Ledger.OthersUnchanged(old(w.State()), w.State(), "Email")
    ensures w.log == old(w.log) + Ledger.Notifications(old(w.State()), "Email", StringValue(value))
  {
    w.SetValue("Email", StringValue(value));
  }

  // Comment

  /** The current value of `Comment`, which is its original exactly when it
      is not recorded as changed. */
  function Comment(w: ModelWrapper): (r: Option<string>)
    requires FriendEmailFields(w)
    reads w, w.model
    ensures StringValue(r) == w.State().live["Comment"]
    ensures Ledger.Consistent(w.State()) ==>
      (StringValue(r) == Ledger.Checkpoint(w.State())["Comment"] <==> "Comment" !in w.original)
  {
    w.GetValue("Comment").s
  }

  /** The value at the last checkpoint, which `RejectChanges` restores;
      the current one when `Comment` is not changed. */
  function CommentOriginalValue(w: ModelWrapper): (r: Option<string>)
    requires FriendEmailFields(w)
    reads w, w.model
    ensures StringValue(r) == Ledger.Checkpoint(w.State())["Comment"]
    ensures !CommentIsChanged(w) ==> r == Comment(w)
  {
    w.GetOriginalValue("Comment").s
  }

  function CommentIsChanged(w: ModelWrapper): (r: bool)
    requires FriendEmailFields(w)
    reads w, w.model
    ensures r <==> w.GetValue("Comment") != w.GetOriginalValue("Comment")
  {
    w.GetIsChanged("Comment")
  }

  method SetComment(w: ModelWrapper, value: Option<string>)
    requires IsFriendEmail(w)
    modifies w`original, w`log, w.model`fields
    ensures IsFriendEmail(w) && Comment(w) == value
    ensures CommentOriginalValue(w) == old(CommentOriginalValue(w))
    ensures CommentIsChanged(w) <==> value != CommentOriginalValue(w)
    ensures Ledger.OthersUnchanged(old(w.State()), w.State(), "Comment")
    ensures w.log == old(w.log) + Ledger.Notifications(old(w.State()), "Comment", StringValue(value))
  {
    w.SetValue("Comment", StringValue(value));
  }

  /** A `FriendEmailWrapper` registers no children, so it is changed exactly
      when one of its three properties is. */
  lemma IsChangedIffSomeProperty(w: ModelWrapper)
    requires IsFriendEmail(w)
    ensures w.IsChanged() <==> IdIsChanged(w) || EmailIsChanged(w) || CommentIsChanged(w)
  {
    if |w.original| > 0 {
      var f :| f in w.original;
      assert f in EmailSchema;
    }
  }

  /** `RejectChanges` and `AcceptChanges` keep a `FriendEmailWrapper` one. */
  lemma StaysFriendEmail(w: ModelWrapper, v: Snapshots.Snapshot)
    requires w.Valid() && w.children == []
    requires Conforms(v.state.live, EmailSchema) && LedgerConforms(v.state.ledger, EmailSchema)
    requires w.View() == Snapshots.Rejected(v) || w.View() == Snapshots.Accepted(v)
    ensures IsFriendEmail(w)
  {
    Ledger.CheckpointConforms(v.state, EmailSchema);
  }

  /** Editing `Comment` and then calling `AcceptChanges`: the new comment is
      kept, `CommentIsChanged` is false, the new comment is now the original
      value, and the wrapper is not changed. */
  method CommentThenAccept(w: ModelWrapper, comment: Option<string>)
    requires IsFriendEmail(w)
    modifies w.Repr
    ensures IsFriendEmail(w) && Comment(w) == comment
    ensures !CommentIsChanged(w) && CommentOriginalValue(w) == comment
    ensures !w.IsChanged()
  {
    SetComment(w, comment);
    ghost var v := w.View();
    w.AcceptChanges();
    StaysFriendEmail(w, v);
    Snapshots.AcceptedIsUnchanged(v);
  }
}
