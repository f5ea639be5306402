/** Errors, results and validation outcomes shared by every use case.

    The backend reports failure by throwing. A `CustomError` carries an HTTP
    status and a message; anything else (a database error, a plain `Error`)
    carries only a message. Both become `Err` values here. */
module Outcome {

  /** HTTP status codes used by the backend (`src/types/index.ts`). */
  const OK: int := 200
  const BadRequest: int := 400
  const Unauthorized: int := 401
  const Forbidden: int := 403
  const NotFound: int := 404
  const Conflict: int := 409
  const InternalServerError: int := 500

  /** A thrown error: a `CustomError` with status, or any other error. */
  datatype Error =
    | Custom(status: int, message: string)
    | Plain(message: string)
  {
    predicate IsCustom() { Custom? }
  }

  datatype Option<+T> = None | Some(value: T) {
    function GetOr(default: T): T {
      match this
      case Some(v) => v
      case None => default
    }
  }

  /** The value of a call that either returns or throws. */
  datatype Result<+T> = Ok(value: T) | Err(error: Error) {
    predicate IsFailure() { Err? }

    function PropagateFailure<U>(): Result<U>
      requires Err?
    {
      Err(error)
    }

    function Extract(): T
      requires Ok?
    {
      value
    }
  }

  /** The outcome of a validator that returns `true` or throws. */
  datatype Check = Pass | Fail(error: Error) {
    predicate IsFailure() { Fail? }

    function PropagateFailure<U>(): Result<U>
      requires Fail?
    {
      Err(error)
    }

    function Extract(): ()
      requires Pass?
    {
      ()
    }
  }

  /** A validation outcome that passes exactly when `cond` holds. */
  function Need(cond: bool, status: int, message: string): (c: Check)
    ensures c.Pass? <==> cond
    ensures c.Fail? ==> c.error == Custom(status, message)
  {
    if cond then Pass else Fail(Custom(status, message))
  }

  /** Runs two validations in order: the first failure wins. */
  function Then(first: Check, second: Check): (c: Check)
    ensures c.Pass? <==> first.Pass? && second.Pass?
    ensures first.Fail? ==> c == first
    ensures first.Pass? ==> c == second
  {
    if first.Fail? then first else second
  }

  /** Runs validations in order: the first failure wins, and the whole
      passes when each one does. */
  function InOrder(cs: seq<Check>): (c: Check)
    ensures c.Pass? <==> forall i :: 0 <= i < |cs| ==> cs[i].Pass?
    ensures c.Fail? ==> exists i :: 0 <= i < |cs| && c == cs[i] && forall j :: 0 <= j < i ==> cs[j].Pass?
  {
    if |cs| == 0 then Pass
    else if cs[0].Fail? then cs[0]
    else
      var c := InOrder(cs[1..]);
      assert forall i :: 1 <= i < |cs| ==> cs[i] == cs[1..][i - 1];
      assert c.Fail? ==> exists i :: 0 <= i < |cs| && c == cs[i] && forall j :: 0 <= j < i ==> cs[j].Pass? by {
        if c.Fail? {
          var i :| 0 <= i < |cs[1..]| && c == cs[1..][i] && forall j :: 0 <= j < i ==> cs[1..][j].Pass?;
          assert c == cs[i + 1];
        }
      }
      c
  }

  /** JavaScript truthiness of an optional string: present and non-empty. */
  predicate Truthy(s: Option<string>) {
    s.Some? && s.value != ""
  }
}
