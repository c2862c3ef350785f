/** The HTTP status codes the route handlers answer with. */
module Http {

  const Ok: int := 200
  const Created: int := 201
  const BadRequest: int := 400
  const Unauthorized: int := 401
  const Forbidden: int := 403
  const NotFound: int := 404

  /** A handler's early answer: the status code and the error text of the
      JSON body. */
  datatype Refusal = Refusal(status: int, error: string)
}
