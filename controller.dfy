/**
 * The token manager component as an object: the three pieces of component
 * state are fields that the event handlers assign, and a ghost log records
 * every call made to the registry service. Each handler is proved to make
 * the transition `Machine` gives for it and to keep `Machine.Consistent`.
 */
module App {
  import opened Wrappers
  import opened Records
  import opened Form
  import Machine

  class Controller {
    /** The list snapshot, as the registry service last returned it. */
    var tokens: seq<Token>
    /** The draft behind the three form inputs. */
    var form: Draft
    /** The edit target: `None` in create mode. */
    var editId: Option<Id>
    /** Every call made to the registry service so far, in order. */
    ghost var calls: seq<RemoteCall>

    ghost function Abs(): Machine.State
      reads this
    {
      Machine.State(tokens, form, editId, calls)
    }

    ghost predicate Valid()
      reads this
    {
      Machine.Consistent(Abs())
    }

    /** Mounting the component: empty state, then one refresh. */
    constructor (listed: seq<Token>)
      ensures Valid()
      ensures Abs() == Machine.Mount(listed)
    {
      tokens := [];
      form := Empty;
      editId := None;
      calls := [];
      new;
      LoadTokens(listed);
      Machine.MountRefreshesOnce(listed);
    }

    /**
     * Calls list-all; `listed` is the registry's answer. It also ends a submit
     * or a delete, in the middle of which the object is not yet valid.
     */
    method LoadTokens(listed: seq<Token>)
      modifies this
      ensures old(Valid()) ==> Valid()
      ensures Abs() == Machine.LoadTokens(old(Abs()), listed)
    {
      calls := calls + [ListAll(listed)];
      tokens := listed;
      if old(Valid()) {
        Machine.StepKeepsConsistent(old(Abs()), Machine.Loaded(listed));
      }
    }

    method HandleChange(field: Field, raw: string)
      requires Valid()
      modifies this
      ensures Valid()
      ensures Abs() == Machine.HandleChange(old(Abs()), field, raw)
    {
      form := Change(form, field, raw);
    }

    /** `listed` is the registry's answer to the refresh that ends the submit. */
    method HandleSubmit(listed: seq<Token>)
      requires Valid()
      modifies this
      ensures Valid()
      ensures Abs() == Machine.HandleSubmit(old(Abs()), listed)
    {
      if editId == None {
        if Truthy(form.name) && Truthy(form.symbol) {
          calls := calls + [Add(form.name, form.symbol, form.initialSupply)];
        }
      } else {
        calls := calls + [Update(editId.value, form.name, form.symbol, form.initialSupply)];
      }
      form := Empty;
      editId := None;
      LoadTokens(listed);
      Machine.StepKeepsConsistent(old(Abs()), Machine.Submitted(listed));
    }

    method HandleEdit(t: Token)
      requires Valid()
      modifies this
      ensures Valid()
      ensures Abs() == Machine.HandleEdit(old(Abs()), t)
    {
      editId := Some(t.id);
      form := Draft(t.name, t.symbol, SupplyOrZero(t));
    }

    /** `confirmed` is the user's answer to the confirmation prompt. */
    method HandleDelete(id: Id, confirmed: bool, listed: seq<Token>)
      requires Valid()
      modifies this
      ensures Valid()
      ensures Abs() == Machine.HandleDelete(old(Abs()), id, confirmed, listed)
    {
      if confirmed {
        calls := calls + [Delete(id)];
        LoadTokens(listed);
        Machine.StepKeepsConsistent(old(Abs()), Machine.DeleteClicked(id, confirmed, listed));
      }
    }

    method HandleCancel()
      requires Valid()
      modifies this
      ensures Valid()
      ensures Abs() == Machine.HandleCancel(old(Abs()))
    {
      editId := None;
      form := Empty;
    }
  }
}
