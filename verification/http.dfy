/** The response envelope the handlers build, reduced to its status code, its message and
    what it carries under "details" (or "token"). */
module Http {
  import opened ProductModel
  import opened UserModel

  const Ok: int := 200
  const Created: int := 201
  const BadRequest: int := 400
  const Unauthorized: int := 401
  const Forbidden: int := 403
  const NotFound: int := 404
  const InternalServerError: int := 500

  datatype Payload =
    | NoPayload
    /** the product list `findAll` returns: one entry per stored row, given here by id
        (the list's order is not modelled) */
    | Products(productRows: map<int, Product>)
    | OneProduct(product: Product)
    /** the user list `findAll` returns, one entry per stored row, by id */
    | Users(userRows: map<int, User>)
    /** the names of the fields that failed validation */
    | InvalidFields(fields: set<string>)
    /** the message of an exception caught by the handler */
    | ExceptionMessage(text: string)
    /** an exception message the model does not know (raised inside the store or the JVM) */
    | OpaqueException
    | Token(token: string)

  datatype Response = Response(code: int, message: string, payload: Payload)
}
