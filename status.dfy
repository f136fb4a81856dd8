/**
  The response codes of infra/status. Each constant sits alone in its own
  `const ( X = iota + N )` block, where iota is 0, so every code is N exactly;
  a handler writes the HTTP status `code / 1000`.
*/
module Status {

  const OK: int := 200000
  const Created: int := 201000
  const BadRequest: int := 400000
  const Unauthorized: int := 401000
  const Forbidden: int := 403000
  const NotFound: int := 404000
  const Conflict: int := 409000
  const InternalServerError: int := 500000

  /** Every code the package declares, success codes first. */
  const AllCodes: seq<int> := [OK, Created, BadRequest, Unauthorized, Forbidden, NotFound, Conflict, InternalServerError]

  /** Go's integer division `code / 1000`, which truncates toward zero. */
  function HttpStatus(code: int): (status: int)
    ensures 0 <= code ==> status * 1000 <= code < status * 1000 + 1000
    ensures code < 0 ==> status * 1000 - 1000 < code <= status * 1000
  {
    if code >= 0 then code / 1000 else -((-code) / 1000)
  }

  predicate IsError(code: int)
  {
    code >= BadRequest
  }

  /** The HTTP status each code stands for. */
  lemma HttpStatusOfCodes()
    ensures HttpStatus(OK) == 200 && HttpStatus(Created) == 201
    ensures HttpStatus(BadRequest) == 400 && HttpStatus(Unauthorized) == 401
    ensures HttpStatus(Forbidden) == 403 && HttpStatus(NotFound) == 404
    ensures HttpStatus(Conflict) == 409 && HttpStatus(InternalServerError) == 500
  {
  }

  /** Every code is an exact multiple of 1000, so dividing by 1000 loses nothing. */
  lemma CodesAreThousands(k: nat)
    requires k < |AllCodes|
    ensures AllCodes[k] % 1000 == 0
    ensures HttpStatus(AllCodes[k]) * 1000 == AllCodes[k]
  {
  }

  /** No two codes are equal, nor do two codes give the same HTTP status. */
  lemma CodesDistinct(j: nat, k: nat)
    requires j < k < |AllCodes|
    ensures AllCodes[j] != AllCodes[k]
    ensures HttpStatus(AllCodes[j]) != HttpStatus(AllCodes[k])
  {
  }

  /** OK and Created are the only success codes; every other code is an error code. */
  lemma SuccessBelowErrors(k: nat)
    requires k < |AllCodes|
    ensures !IsError(AllCodes[k]) <==> k < 2
    ensures IsError(AllCodes[k]) <==> 400 <= HttpStatus(AllCodes[k])
  {
  }
}
