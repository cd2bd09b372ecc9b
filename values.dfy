/** The values the ledger stores: one transaction record and the JavaScript
    values that can sit in its `id` slot. */
module Values {

  datatype Option<+T> = None | Some(value: T)

  /** A JavaScript value as it can appear in a record's `id` slot, or as the
      argument of a delete. Numbers are integers here (no NaN). */
  datatype JsValue = Undefined | Null | Bool(b: bool) | Num(n: int) | Str(s: string)

  /** JavaScript truthiness: `undefined`, `null`, `false`, `0` and `""` are falsy. */
  predicate Truthy(v: JsValue)
  {
    match v
    case Undefined => false
    case Null => false
    case Bool(b) => b
    case Num(n) => n != 0
    case Str(s) => s != ""
  }

  /** What `makeId` returns: `<milliseconds>_<random>`, never the empty string. */
  type FreshId = s: string | s != "" witness "0_0"

  /** One ledger record. `id` is None when the key is absent from the object;
      `kind` is the record's `type` field (a string that is neither "income"
      nor "expense" stands for any other value, including a missing one);
      `amount` is None when `t.amount` is missing or falsy; `category` and
      `date` are None when the key is missing. */
  datatype Tx = Tx(
    id: Option<JsValue>,
    kind: string,
    amount: Option<real>,
    category: Option<string>,
    note: string,
    date: Option<string>)

  /** `t.id`: reading an absent key gives `undefined`. */
  function IdOf(t: Tx): JsValue
  {
    if t.id.Some? then t.id.value else Undefined
  }

  /** `!!t.id` */
  predicate HasTruthyId(t: Tx)
  {
    Truthy(IdOf(t))
  }

  /** `Number(t.amount || 0)`: a missing or falsy amount counts as zero. */
  function AmountOf(t: Tx): real
  {
    if t.amount.Some? then t.amount.value else 0.0
  }
}
