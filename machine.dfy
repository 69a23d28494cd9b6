/**
 * The token manager's client state machine as values: the list snapshot, the
 * draft, the edit target and the log of calls made to the registry service,
 * with one transition per event handler. Each handler runs to completion; the
 * registry's answers to list-all and the user's answer to the delete
 * confirmation are parameters.
 */
module Machine {
  import opened Wrappers
  import opened Records
  import opened Form
  import Decimal

  datatype State = State(tokens: seq<Token>, form: Draft, editId: Option<Id>, calls: seq<RemoteCall>)

  /** The state before the mount-time refresh. */
  const Unmounted := State([], Empty, None, [])

  datatype Event =
    | Typed(field: Field, raw: string)
    | Submitted(listed: seq<Token>)
    | EditClicked(token: Token)
    | DeleteClicked(id: Id, confirmed: bool, listed: seq<Token>)
    | CancelClicked
    | Loaded(listed: seq<Token>)

  /** `loadTokens`: list all records and replace the snapshot with the answer. */
  function LoadTokens(s: State, listed: seq<Token>): (s': State)
    ensures Consistent(s) ==> Consistent(s')
  {
    s.(tokens := listed, calls := s.calls + [ListAll(listed)])
  }

  /** The mount effect: one refresh. */
  function Mount(listed: seq<Token>): (s: State)
    ensures Consistent(s)
  {
    LoadTokens(Unmounted, listed)
  }

  function HandleChange(s: State, f: Field, raw: string): (s': State)
    ensures Consistent(s) ==> Consistent(s')
  {
    s.(form := Change(s.form, f, raw))
  }

  function HandleSubmit(s: State, listed: seq<Token>): (s': State)
    ensures Consistent(s) ==> Consistent(s')
  {
    var issued := s.calls + SubmitCalls(s.form, s.editId);
    LoadTokens(s.(form := Empty, editId := None, calls := issued), listed)
  }

  function HandleEdit(s: State, t: Token): (s': State)
    ensures Consistent(s) ==> Consistent(s')
  {
    s.(editId := Some(t.id), form := FromRecord(t))
  }

  function HandleDelete(s: State, id: Id, confirmed: bool, listed: seq<Token>): (s': State)
    ensures Consistent(s) ==> Consistent(s')
  {
    if confirmed then LoadTokens(s.(calls := s.calls + [Delete(id)]), listed) else s
  }

  function HandleCancel(s: State): (s': State)
    ensures Consistent(s) ==> Consistent(s')
  {
    s.(editId := None, form := Empty)
  }

  function Step(s: State, e: Event): State {
    match e
    case Typed(f, raw) => HandleChange(s, f, raw)
    case Submitted(listed) => HandleSubmit(s, listed)
    case EditClicked(t) => HandleEdit(s, t)
    case DeleteClicked(id, confirmed, listed) => HandleDelete(s, id, confirmed, listed)
    case CancelClicked => HandleCancel(s)
    case Loaded(listed) => LoadTokens(s, listed)
  }

  /** The state after a sequence of events, each handled to completion. */
  function Run(s: State, events: seq<Event>): State
    decreases |events|
  {
    if events == [] then s else Run(Step(s, events[0]), events[1..])
  }

  /**
   * What holds in every reachable state: every mutation in the log was
   * followed by a refresh, and the snapshot is exactly what the last refresh
   * returned (empty before the first one).
   */
  predicate Consistent(s: State) {
    && RefreshFollowsMutations(s.calls)
    && (s.calls == [] ==> s.tokens == [])
    && (s.calls != [] ==> s.calls[|s.calls| - 1] == ListAll(s.tokens))
  }

  // ---- loadTokens and mount ----

  lemma LoadReplacesSnapshot(s: State, listed: seq<Token>)
    ensures LoadTokens(s, listed).tokens == listed
    ensures LoadTokens(s, listed).calls == s.calls + [ListAll(listed)]
    ensures LoadTokens(s, listed).form == s.form && LoadTokens(s, listed).editId == s.editId
  {
  }

  lemma MountRefreshesOnce(listed: seq<Token>)
    ensures Mount(listed) == State(listed, Empty, None, [ListAll(listed)])
    ensures Consistent(Mount(listed))
  {
  }

  // ---- handleChange ----

  lemma ChangeReplacesOneField(s: State, f: Field, raw: string)
    ensures var s' := HandleChange(s, f, raw);
      && Get(s'.form, f) == Coerce(f, raw)
      && (forall g :: g != f ==> Get(s'.form, g) == Get(s.form, g))
      && s'.tokens == s.tokens && s'.editId == s.editId && s'.calls == s.calls
  {
  }

  /** Typing back the supply the number input shows changes nothing. */
  lemma RetypingShownSupplyIsNoOp(s: State)
    ensures HandleChange(s, SupplyField, Decimal.IntText(s.form.initialSupply)) == s
  {
    Decimal.ToNumberIntText(s.form.initialSupply);
  }

  /**
   * Typing an integer into the supply input stores it; clearing the input
   * afterwards gives 0, not the previous number, because `Number("")` is 0.
   */
  lemma ClearedSupplyIsZero(s: State, n: int)
    ensures HandleChange(s, SupplyField, Decimal.IntText(n)).form.initialSupply == n
    ensures HandleChange(HandleChange(s, SupplyField, Decimal.IntText(n)), SupplyField, "").form.initialSupply == 0
  {
    Decimal.ToNumberIntText(n);
  }

  // ---- handleSubmit ----

  /** In create mode an add is issued exactly when name and symbol are both non-empty. */
  lemma SubmitInCreateMode(s: State, listed: seq<Token>)
    requires s.editId == None
    ensures s.form.name != "" && s.form.symbol != "" ==>
      HandleSubmit(s, listed).calls
        == s.calls + [Add(s.form.name, s.form.symbol, s.form.initialSupply), ListAll(listed)]
    ensures s.form.name == "" || s.form.symbol == "" ==>
      HandleSubmit(s, listed).calls == s.calls + [ListAll(listed)]
  {
  }

  /** In edit mode exactly one update of the edit target is issued, whatever the draft holds. */
  lemma SubmitInEditMode(s: State, listed: seq<Token>)
    requires s.editId.Some?
    ensures HandleSubmit(s, listed).calls
      == s.calls + [Update(s.editId.value, s.form.name, s.form.symbol, s.form.initialSupply), ListAll(listed)]
  {
  }

  /** Every submit, the create-mode no-op included, ends in create mode with an empty draft and a refresh. */
  lemma SubmitResets(s: State, listed: seq<Token>)
    ensures var s' := HandleSubmit(s, listed);
      && s'.form == Empty && s'.editId == None && s'.tokens == listed
      && |s'.calls| <= |s.calls| + 2
      && s'.calls[..|s.calls|] == s.calls
      && s'.calls[|s'.calls| - 1] == ListAll(listed)
  {
  }

  // ---- handleEdit ----

  lemma EditEntersEditMode(s: State, t: Token)
    ensures var s' := HandleEdit(s, t);
      && s'.editId == Some(t.id)
      && s'.form.name == t.name && s'.form.symbol == t.symbol
      && (t.totalSupply.Some? ==> s'.form.initialSupply == t.totalSupply.value)
      && (t.totalSupply.None? ==> s'.form.initialSupply == 0)
      && s'.form.initialSupply == Decimal.ToNumber(DisplaySupply(t))
      && s'.tokens == s.tokens && s'.calls == s.calls
  {
  }

  /**
   * The edit and delete buttons sit on the rows of the snapshot, so an edit
   * started from a row targets a record of the snapshot.
   */
  lemma EditFromRowTargetsListed(s: State, t: Token)
    requires t in s.tokens
    ensures HandleEdit(s, t).editId.Some?
    ensures exists r :: r in HandleEdit(s, t).tokens && Some(r.id) == HandleEdit(s, t).editId
  {
  }

  /** Editing a record and submitting at once sends the record back as it was listed. */
  lemma EditThenSubmit(s: State, t: Token, listed: seq<Token>)
    ensures var s' := HandleSubmit(HandleEdit(s, t), listed);
      && s'.calls == s.calls + [Update(t.id, t.name, t.symbol, SupplyOrZero(t)), ListAll(listed)]
      && s'.form == Empty && s'.editId == None && s'.tokens == listed
  {
  }

  // ---- handleCancel ----

  lemma CancelResets(s: State)
    ensures var s' := HandleCancel(s);
      s'.form == Empty && s'.editId == None && s'.tokens == s.tokens && s'.calls == s.calls
    ensures HandleCancel(HandleCancel(s)) == HandleCancel(s)
    ensures s.editId == None && s.form == Empty ==> HandleCancel(s) == s
  {
  }

  // ---- handleDelete ----

  lemma DeleteDeclined(s: State, id: Id, listed: seq<Token>)
    ensures HandleDelete(s, id, false, listed) == s
  {
  }

  lemma DeleteConfirmed(s: State, id: Id, listed: seq<Token>)
    ensures var s' := HandleDelete(s, id, true, listed);
      && s'.calls == s.calls + [Delete(id), ListAll(listed)]
      && s'.tokens == listed && s'.form == s.form && s'.editId == s.editId
  {
  }

  /**
   * Deleting the record being edited leaves it as the edit target, and the
   * next submit updates it even when the refreshed list no longer holds it.
   */
  lemma DeletingEditTargetDangles(s: State, listed: seq<Token>, listed': seq<Token>)
    requires s.editId.Some?
    ensures var s' := HandleDelete(s, s.editId.value, true, listed);
      && s'.editId == s.editId && s'.form == s.form
      && HandleSubmit(s', listed').calls
        == s.calls + [Delete(s.editId.value), ListAll(listed),
                      Update(s.editId.value, s.form.name, s.form.symbol, s.form.initialSupply),
                      ListAll(listed')]
  {
  }

  // ---- the invariant over all runs ----

  lemma StepKeepsConsistent(s: State, e: Event)
    requires Consistent(s)
    ensures Consistent(Step(s, e))
  {
  }

  lemma {:induction false} RunKeepsConsistent(s: State, events: seq<Event>)
    requires Consistent(s)
    ensures Consistent(Run(s, events))
    decreases |events|
  {
    if events != [] {
      StepKeepsConsistent(s, events[0]);
      RunKeepsConsistent(Step(s, events[0]), events[1..]);
    }
  }

  /** The call log only grows: no handler takes back or reorders a call. */
  lemma {:induction false} RunExtendsLog(s: State, events: seq<Event>)
    ensures |Run(s, events).calls| >= |s.calls|
    ensures Run(s, events).calls[..|s.calls|] == s.calls
    decreases |events|
  {
    if events != [] {
      var s1 := Step(s, events[0]);
      assert |s1.calls| >= |s.calls| && s1.calls[..|s.calls|] == s.calls;
      RunExtendsLog(s1, events[1..]);
      var r := Run(s1, events[1..]);
      assert r.calls[..|s.calls|] == r.calls[..|s1.calls|][..|s.calls|];
    }
  }

  /** Every state reachable from the mount satisfies the invariant. */
  lemma MountedRunConsistent(listed: seq<Token>, events: seq<Event>)
    ensures Consistent(Run(Mount(listed), events))
  {
    RunKeepsConsistent(Mount(listed), events);
  }

  // ---- an end-to-end scenario ----

  /**
   * Mount with one record, edit it, type a new supply and submit: one update
   * with the new supply, then one refresh, then create mode with an empty draft.
   */
  lemma GoldScenario(listed: seq<Token>)
    ensures var gold := Token(1, "Gold", "GLD", Some(1000));
      var editing := Run(Mount([gold]), [EditClicked(gold)]);
      var s := Run(Mount([gold]), [EditClicked(gold), Typed(SupplyField, "2000"), Submitted(listed)]);
      && editing.form == Draft("Gold", "GLD", 1000) && editing.editId == Some(1)
      && editing.calls == [ListAll([gold])]
      && s.calls == [ListAll([gold]), Update(1, "Gold", "GLD", 2000), ListAll(listed)]
      && s.form == Empty && s.editId == None && s.tokens == listed
  {
    var gold := Token(1, "Gold", "GLD", Some(1000));
    var s1 := HandleEdit(Mount([gold]), gold);
    assert s1.form == Draft("Gold", "GLD", 1000);
    Decimal.ToNumberNatText(2000);
    assert Decimal.NatText(2000) == "2000";
    var s2 := HandleChange(s1, SupplyField, "2000");
    assert s2.form == Draft("Gold", "GLD", 2000);
    var evs := [EditClicked(gold), Typed(SupplyField, "2000"), Submitted(listed)];
    assert Run(Mount([gold]), evs) == Run(s1, evs[1..]);
    assert Run(s1, evs[1..]) == Run(s2, evs[2..]);
    assert Run(s2, evs[2..]) == Run(HandleSubmit(s2, listed), []);
    assert Run(Mount([gold]), [EditClicked(gold)]) == Run(s1, []);
  }
}
