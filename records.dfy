/**
 * What the client knows of the registry service: the records it lists, the
 * four remote operations it is called with, and how a record's supply is shown
 * in the table.
 */
module Records {
  import opened Wrappers
  import Decimal

  /** The identity the registry service assigns to a record. */
  type Id = nat

  /** A record as returned by list-all; the supply may be absent. */
  datatype Token = Token(id: Id, name: string, symbol: string, totalSupply: Option<nat>)

  /**
   * One call to the registry service. `ListAll` records the list the service
   * answered with, so that a call log also says what each refresh saw.
   */
  datatype RemoteCall =
    | Add(name: string, symbol: string, supply: int)
    | Update(id: Id, name: string, symbol: string, supply: int)
    | Delete(id: Id)
    | ListAll(returned: seq<Token>)

  predicate IsMutation(c: RemoteCall) {
    !c.ListAll?
  }

  /** Every mutation in the log is immediately followed by a list-all refresh. */
  predicate RefreshFollowsMutations(log: seq<RemoteCall>) {
    forall i :: 0 <= i < |log| && IsMutation(log[i]) ==> i + 1 < |log| && log[i + 1].ListAll?
  }

  /** Appending at most one call and then a refresh keeps every mutation refreshed. */
  lemma RefreshedRound(log: seq<RemoteCall>, issued: seq<RemoteCall>, listed: seq<Token>)
    requires RefreshFollowsMutations(log)
    requires |issued| <= 1
    ensures RefreshFollowsMutations(log + issued + [ListAll(listed)])
  {
    var log' := log + issued + [ListAll(listed)];
    forall i | 0 <= i < |log'| && IsMutation(log'[i])
      ensures i + 1 < |log'| && log'[i + 1].ListAll?
    {
      if i < |log| {
        assert log'[i] == log[i];
        if i + 1 < |log| {
          assert log'[i + 1] == log[i + 1];
        }
      }
    }
  }

  /** JavaScript truthiness of a record's supply: present and not zero. */
  predicate SupplyTruthy(supply: Option<nat>) {
    supply.Some? && supply.value != 0
  }

  /** `Number(token.totalSupply || 0)`: the supply an edit copies into the draft. */
  function SupplyOrZero(t: Token): (n: nat)
    ensures t.totalSupply.Some? ==> n == t.totalSupply.value
    ensures t.totalSupply.None? ==> n == 0
  {
    if SupplyTruthy(t.totalSupply) then t.totalSupply.value else 0
  }

  /**
   * The supply cell of a table row: the supply's decimal text when it is
   * truthy, the literal "0" otherwise. A record with supply zero and one
   * without a supply look the same, and the cell reads back as the number an
   * edit of the record puts into the draft.
   */
  function DisplaySupply(t: Token): (text: string)
    ensures text == "0" <==> SupplyOrZero(t) == 0
    ensures Decimal.AllDigits(text) && text != []
    ensures Decimal.ToNumber(text) == SupplyOrZero(t)
  {
    Decimal.ToNumberNatText(SupplyOrZero(t));
    if SupplyTruthy(t.totalSupply) then Decimal.NatText(t.totalSupply.value) else "0"
  }
}
