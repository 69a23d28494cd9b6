/** The editable draft of the form and the remote call a submission makes of it. */
module Form {
  import opened Wrappers
  import opened Records
  import Decimal

  /** The three form inputs, by their `name` attribute. */
  datatype Field = NameField | SymbolField | SupplyField

  datatype Draft = Draft(name: string, symbol: string, initialSupply: int)

  /** The value held by one draft field. */
  datatype FieldValue = Text(text: string) | Num(num: int)

  /** The draft at mount, after a submit and after a cancel. */
  const Empty := Draft("", "", 0)

  function Get(d: Draft, f: Field): FieldValue {
    match f
    case NameField => Text(d.name)
    case SymbolField => Text(d.symbol)
    case SupplyField => Num(d.initialSupply)
  }

  /** What an input event stores: the supply is coerced by `Number`, text is kept verbatim. */
  function Coerce(f: Field, raw: string): FieldValue {
    if f == SupplyField then Num(Decimal.ToNumber(raw)) else Text(raw)
  }

  /** A copy of the draft with exactly one field replaced. */
  function Change(d: Draft, f: Field, raw: string): (d': Draft)
    ensures Get(d', f) == Coerce(f, raw)
    ensures forall g :: g != f ==> Get(d', g) == Get(d, g)
  {
    match f
    case NameField => d.(name := raw)
    case SymbolField => d.(symbol := raw)
    case SupplyField => d.(initialSupply := Decimal.ToNumber(raw))
  }

  /**
   * The draft an edit of a record starts from: the number its supply cell
   * shows, with name and symbol verbatim.
   */
  function FromRecord(t: Token): (d: Draft)
    ensures d.name == t.name && d.symbol == t.symbol
    ensures d.initialSupply == Decimal.ToNumber(DisplaySupply(t))
  {
    Draft(t.name, t.symbol, SupplyOrZero(t))
  }

  /** JavaScript truthiness of a string. */
  predicate Truthy(s: string) {
    s != ""
  }

  /**
   * The remote mutation a submission makes: in create mode an add, only when
   * name and symbol are both non-empty; in edit mode always an update of the
   * edit target with the whole draft.
   */
  function SubmitCalls(d: Draft, editId: Option<Id>): (issued: seq<RemoteCall>)
    ensures |issued| <= 1
    ensures forall c :: c in issued ==> IsMutation(c)
    ensures editId.Some? ==> issued != []
  {
    match editId
    case None =>
      if Truthy(d.name) && Truthy(d.symbol) then [Add(d.name, d.symbol, d.initialSupply)] else []
    case Some(id) =>
      [Update(id, d.name, d.symbol, d.initialSupply)]
  }

  /** The submit button's label. */
  function SubmitLabel(editId: Option<Id>): (caption: string)
    ensures caption == "Add Token" <==> editId.None?
    ensures caption == "Update" <==> editId.Some?
  {
    if editId == None then "Add Token" else "Update"
  }
}
