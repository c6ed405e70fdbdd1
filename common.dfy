/** Small shared vocabulary: optional values, integer helpers and the `{success, error}` envelope. */
module Common {

  /** A value that may be missing (`undefined` / `null` in the application). */
  datatype Option<+T> = None | Some(value: T) {
    function GetOr(default: T): T {
      match this
      case Some(v) => v
      case None => default
    }
  }

  function Min(a: int, b: int): int { if a <= b then a else b }

  function Max(a: int, b: int): int { if a >= b then a else b }

  /** `Math.ceil(a / b)` for a positive divisor, computed exactly on integers
      (Dafny's `/` rounds down for a positive divisor, and ceil(x) = -floor(-x)). */
  function CeilDiv(a: int, b: int): (r: int)
    requires b > 0
    ensures r * b >= a
    ensures (r - 1) * b < a
  {
    var q := (-a) / b;
    assert -a == q * b + (-a) % b;
    -q
  }

  /** Multiplying by a positive number keeps the sign. */
  lemma SignOfProduct(c: int, k: int)
    requires k > 0
    ensures c * k >= 0 <==> c >= 0
    ensures c * k > 0 <==> c > 0
  {
    if c < 0 {
      assert c * k == -((-c) * k);
    }
  }

  /** The envelope every create/update/delete action resolves to. */
  datatype SaveResult = SaveResult(success: bool, error: Option<string>)

  /** The server action a delete handler calls: `removeTown(id)`, `deleteSector(id)` or `deleteCustomer(id)`. */
  datatype DeleteCall = DeleteCall(id: string)

  /** `handleDelete(id)` calls the server with the row's own id, and only after `confirm` says yes.
      The effects that follow the answer are each page's `DeleteEffects`. */
  function DeleteRequest(confirmed: bool, id: string): (call: Option<DeleteCall>)
    ensures call.Some? <==> confirmed
    ensures call.Some? ==> call.value.id == id
  {
    if confirmed then Some(DeleteCall(id)) else None
  }
}
