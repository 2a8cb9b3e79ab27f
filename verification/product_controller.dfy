/** `ProductController`: the five product endpoints. The two readers are functions of the
    request's authentication and the product table; the three writers are methods on the
    store. Every handler is a chain of early returns ending in at most one store write. */
module ProductController {
  import opened Wrappers
  import opened UserModel
  import opened ProductModel
  import opened Security
  import opened Http
  import opened Repository

  /** `GET /products`. */
  function GetProducts(auth: Option<Authentication>, products: map<int, Product>): (r: Response)
    ensures r.code == Unauthorized <==> !Authenticated(auth)
    ensures r.code == NotFound <==> Authenticated(auth) && products == map[]
    ensures r.code == Ok <==> Authenticated(auth) && products != map[]
    ensures r.code == NotFound ==> r.payload == Products(map[])
    ensures r.code == Ok ==> r.payload == Products(products)
  {
    if !Authenticated(auth) then
      Response(Unauthorized, "User not authenticated", NoPayload)
    else if products == map[] then
      Response(NotFound, "No products found.", Products(map[]))
    else
      Response(Ok, "All products are available.", Products(products))
  }

  /** `GET /products/{id}`. */
  function GetProductById(auth: Option<Authentication>, products: map<int, Product>, productId: int): (r: Response)
    ensures r.code == Unauthorized <==> !Authenticated(auth)
    ensures r.code == NotFound <==> Authenticated(auth) && productId !in products
    ensures r.code == Ok <==> Authenticated(auth) && productId in products
    ensures r.code == Ok ==> r.payload == OneProduct(products[productId])
  {
    if !Authenticated(auth) then
      Response(Unauthorized, "User not authenticated", NoPayload)
    else if productId !in products then
      Response(NotFound, "Product not found.", NoPayload)
    else
      Response(Ok, "Product found.", OneProduct(products[productId]))
  }

  /** The two readers agree: a product found by id is the row the list holds under that id,
      and in a well-formed table it carries that id. */
  lemma GetByIdAgreesWithList(auth: Option<Authentication>, products: map<int, Product>,
                                                 users: map<int, User>, nextProductId: int, productId: int)
    requires ProductsWellFormed(products, users, nextProductId)
    requires GetProductById(auth, products, productId).code == Ok
    ensures var p := GetProductById(auth, products, productId).payload.product;
      && GetProducts(auth, products).code == Ok
      && GetProducts(auth, products).payload.productRows[productId] == p
      && p.id == Some(productId)
  {
  }

  /** The user `createProduct` stamps onto the new product: the lookup of the user id read
      from the authentication's credentials. */
  function CreatorOf(jwt: JwtService, auth: Option<Authentication>): Option<User>
    requires auth.Some?
  {
    jwt.getUserById(jwt.getUserIdFromToken(auth.value.credentials))
  }

  /** The user id the write handlers read from a bearer header's token. */
  function CallerId(jwt: JwtService, header: Option<string>): Option<int>
  {
    jwt.getUserIdFromToken(BearerToken(header))
  }

  /** The caller's id equals the stored product's owner id (`long` against an unboxed `Long`). */
  predicate CallerOwns(jwt: JwtService, header: Option<string>, p: Product)
  {
    CallerId(jwt, header).Some? && p.user.Some? && CallerId(jwt, header).value == p.user.value.id
  }

  /** `POST /products`. The id the client put in the body is cleared before saving, so the
      store always assigns a new one (see `CreatedRowsAsWritten` for the code as written). */
  method CreateProduct(db: Store, jwt: JwtService, auth: Option<Authentication>, body: Product) returns (r: Response)
    requires db.Valid()
    modifies db
    ensures db.Valid()
    ensures db.users == old(db.users) && db.nextUserId == old(db.nextUserId)
    ensures r.code in {Created, BadRequest, Unauthorized, NotFound, InternalServerError}
    ensures r.code == Unauthorized <==> !Authenticated(auth)
    ensures r.code == BadRequest <==> Authenticated(auth) && !ProductValid(body)
    ensures r.code == BadRequest ==> r.payload == InvalidFields(ProductFieldErrors(body))
    ensures r.code == NotFound <==> Authenticated(auth) && ProductValid(body) && CreatorOf(jwt, auth).None?
    ensures r.code == InternalServerError <==>
      Authenticated(auth) && ProductValid(body) && CreatorOf(jwt, auth).Some? && CreatorOf(jwt, auth).value.id !in db.users
    ensures r.code != Created ==> db.products == old(db.products) && db.nextProductId == old(db.nextProductId)
    ensures r.code == Created ==>
      && r.payload.OneProduct?
      && var p := r.payload.product;
      && p.id == Some(old(db.nextProductId)) && p.id.value !in old(db.products)
      && db.nextProductId == old(db.nextProductId) + 1
      && db.products == old(db.products)[p.id.value := p]
      && p.user == CreatorOf(jwt, auth)
      && p.productName == body.productName && p.description == body.description
      && p.price == body.price && p.image == body.image
  {
    if !Authenticated(auth) {
      return Response(Unauthorized, "User not authenticated", NoPayload);
    }
    var userId := jwt.getUserIdFromToken(auth.value.credentials);
    if !ProductValid(body) {
      return Response(BadRequest, "Invalid input data", InvalidFields(ProductFieldErrors(body)));
    }
    var user := jwt.getUserById(userId);
    if user.None? {
      return Response(NotFound, "User not found.", NoPayload);
    }
    var saved := db.SaveProduct(body.(user := Some(user.value), id := None));
    if saved.None? {
      return Response(InternalServerError, "An error occurred while creating the product.", OpaqueException);
    }
    r := Response(Created, "Product created successfully.", OneProduct(saved.value));
  }

  /** `PUT /products/{id}`. */
  method UpdateProduct(db: Store, jwt: JwtService, header: Option<string>, productId: int, body: Product)
    returns (r: Response)
    requires db.Valid()
    modifies db
    ensures db.Valid()
    ensures db.users == old(db.users)
    ensures db.nextProductId == old(db.nextProductId) && db.nextUserId == old(db.nextUserId)
    ensures r.code in {Ok, BadRequest, Unauthorized, Forbidden, NotFound, InternalServerError}
    ensures r.code == Unauthorized <==> !TokenAccepted(jwt, header)
    ensures r.code == BadRequest <==> TokenAccepted(jwt, header) && !ProductValid(body)
    ensures r.code == BadRequest ==> r.payload == InvalidFields(ProductFieldErrors(body))
    ensures r.code == NotFound <==>
      TokenAccepted(jwt, header) && ProductValid(body) && productId !in old(db.products)
    ensures r.code == InternalServerError <==>
      TokenAccepted(jwt, header) && ProductValid(body) && productId in old(db.products) && CallerId(jwt, header).None?
    ensures r.code == Forbidden <==>
      && TokenAccepted(jwt, header) && ProductValid(body) && productId in old(db.products)
      && CallerId(jwt, header).Some? && !CallerOwns(jwt, header, old(db.products)[productId])
    ensures r.code != Ok ==> db.products == old(db.products)
    ensures r.code == Ok ==>
      && CallerOwns(jwt, header, old(db.products)[productId])
      && db.products == old(db.products)[productId := WithEditableFields(old(db.products)[productId], body)]
      && r.payload == OneProduct(db.products[productId])
  {
    var token := BearerToken(header);
    if token.None? {
      return Response(Unauthorized, "Unauthorized access. No token provided.", NoPayload);
    }
    if !jwt.validateToken(token.value) {
      return Response(Unauthorized, "Invalid or expired token", NoPayload);
    }
    var userId := jwt.getUserIdFromToken(token);
    if !ProductValid(body) {
      return Response(BadRequest, "Invalid input data", InvalidFields(ProductFieldErrors(body)));
    }
    if productId !in db.products {
      return Response(NotFound, "Product not found.", NoPayload);
    }
    var product := db.products[productId];
    if userId.None? {
      // unboxing the null `Long` in the owner comparison throws
      return Response(InternalServerError, "An error occurred while updating the product.", OpaqueException);
    }
    if product.user.value.id != userId.value {
      return Response(Forbidden, "You are not authorized to update this product.", NoPayload);
    }
    var edited := WithEditableFields(product, body);
    EditedProductIsStorable(product, body, db.users);
    var saved := db.SaveProduct(edited);
    r := Response(Ok, "Product updated successfully.", OneProduct(saved.value));
  }

  /** `DELETE /products/{id}`. There is no request body and no validation step. */
  method DeleteProduct(db: Store, jwt: JwtService, header: Option<string>, productId: int) returns (r: Response)
    requires db.Valid()
    modifies db
    ensures db.Valid()
    ensures db.users == old(db.users)
    ensures db.nextProductId == old(db.nextProductId) && db.nextUserId == old(db.nextUserId)
    ensures r.code in {Ok, Unauthorized, Forbidden, NotFound, InternalServerError}
    ensures r.code == Unauthorized <==> !TokenAccepted(jwt, header)
    ensures r.code == NotFound <==> TokenAccepted(jwt, header) && productId !in old(db.products)
    ensures r.code == InternalServerError <==>
      TokenAccepted(jwt, header) && productId in old(db.products) && CallerId(jwt, header).None?
    ensures r.code == Forbidden <==>
      && TokenAccepted(jwt, header) && productId in old(db.products)
      && CallerId(jwt, header).Some? && !CallerOwns(jwt, header, old(db.products)[productId])
    ensures r.code != Ok ==> db.products == old(db.products)
    ensures r.code == Ok ==>
      && CallerOwns(jwt, header, old(db.products)[productId])
      && productId in old(db.products)
      && db.products == old(db.products) - {productId}
  {
    var token := BearerToken(header);
    if token.None? {
      return Response(Unauthorized, "Unauthorized access. No token provided.", NoPayload);
    }
    if !jwt.validateToken(token.value) {
      return Response(Unauthorized, "Invalid or expired token", NoPayload);
    }
    var userId := jwt.getUserIdFromToken(token);
    if productId !in db.products {
      return Response(NotFound, "Product not found.", NoPayload);
    }
    var product := db.products[productId];
    if userId.None? {
      return Response(InternalServerError, "An error occurred while deleting the product.", OpaqueException);
    }
    if product.user.value.id != userId.value {
      return Response(Forbidden, "You are not authorized to delete this product.", NoPayload);
    }
    db.DeleteProductById(productId);
    r := Response(Ok, "Product deleted successfully.", NoPayload);
  }

  /** Ownership across two requests: a product created by one user cannot then be updated
      by a request whose token resolves to a different user id, and the update leaves the
      table as the creation left it. */
  method ForeignTokenCannotUpdateNewProduct(db: Store, jwt: JwtService, auth: Option<Authentication>, body: Product,
                                            header: Option<string>, edit: Product)
    returns (created: Response, updated: Response)
    requires db.Valid()
    requires TokenAccepted(jwt, header) && ProductValid(edit)
    requires Authenticated(auth) && CreatorOf(jwt, auth).Some?
    requires CallerId(jwt, header).Some? && CallerId(jwt, header).value != CreatorOf(jwt, auth).value.id
    modifies db
    ensures db.Valid()
    ensures created.code == Created ==> created.payload.OneProduct? && created.payload.product.id.Some?
    ensures created.code == Created ==> updated.code == Forbidden
    ensures created.code == Created ==> db.products == old(db.products)[created.payload.product.id.value := created.payload.product]
  {
    created := CreateProduct(db, jwt, auth, body);
    var productId := if created.code == Created then created.payload.product.id.value else 0;
    updated := UpdateProduct(db, jwt, header, productId, edit);
  }

  /** The product table after `createProduct` as written: the request body, with the id
      the client chose, is saved with the caller set as its owner. */
  function CreatedRowsAsWritten(products: map<int, Product>, users: map<int, User>, nextProductId: int,
                                body: Product, owner: User): (rows: map<int, Product>)
    requires forall j | j in products :: j < nextProductId
    ensures var p := body.(user := Some(owner));
      ProductValid(p) && Storable(p, users) && body.id.Some? && body.id.value in products ==>
        rows == products[body.id.value := p]
  {
    var p := body.(user := Some(owner));
    if !ProductValid(p) || !Storable(p, users) then products
    else
      var k := ProductSaveKey(products, nextProductId, p.id);
      products[k := p.(id := Some(k))]
  }

  /** As written, any authenticated user whose token resolves to a stored user can take
      over another user's product: a valid body naming that product's id replaces the row
      and makes the caller its owner, with no ownership check. */
  lemma ClientIdTakesOverProduct(products: map<int, Product>, users: map<int, User>,
                                                    nextProductId: int, body: Product, caller: User, victim: int)
    requires ProductsWellFormed(products, users, nextProductId)
    requires victim in products && products[victim].user.value.id != caller.id
    requires ProductValid(body) && body.id == Some(victim) && caller.id in users
    ensures var rows := CreatedRowsAsWritten(products, users, nextProductId, body, caller);
      victim in rows && rows[victim].user == Some(caller) && rows[victim] != products[victim]
  {
  }

  /** The concrete instance: product 7 belongs to user 1; user 2 posts a body carrying id 7. */
  lemma ProductSevenChangesHands()
    ensures
      var alice := User(1, Some("A"), Some("B"), Some("a@x.com"), Some("h1"));
      var bob := User(2, Some("C"), Some("D"), Some("b@x.com"), Some("h2"));
      var seven := Product(Some(7), Some("P"), Some("D"), Some(10.0), Some("i.jpg"), Some(alice));
      var body := Product(Some(7), Some("Mine"), Some("D"), Some(1.0), Some("i.jpg"), None);
      CreatedRowsAsWritten(map[7 := seven], map[1 := alice, 2 := bob], 8, body, bob)[7].user == Some(bob)
  {
    var body := Product(Some(7), Some("Mine"), Some("D"), Some(1.0), Some("i.jpg"), None);
    assert body.productName.value[0] > ' ' && body.description.value[0] > ' ' && body.image.value[0] > ' ';
  }
}
