/** The response a handler writes through `res.status(...).json(...)`. */
module Http {

  /** Status code and JSON body; `res.json(x)` without `res.status` answers 200. */
  datatype Response<+B> = Response(status: int, body: B)

  const OK := 200
  const CREATED := 201
  const NO_CONTENT := 204
  const BAD_REQUEST := 400
  const UNAUTHORIZED := 401
  const NOT_FOUND := 404
  const INTERNAL_SERVER_ERROR := 500
}
