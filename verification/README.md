# Product marketplace backend: ownership-gated access to the product and user tables

This project models, in Dafny, the request-handling core of a Spring REST backend for a
product marketplace. Users register; authenticated users list and read products, create
products, and update or delete the products they own. The model covers:

- the two entities, `UserModel` and `ProductModel`, with their bean-validation constraints
  (`UserModel`, `ProductModel` modules) and the table constraints the database enforces
  (`Repository.Store.Valid`: keys are ids, not-null columns hold values, e-mails are
  unique, every product's owner is a stored user);
- the product and user tables as one class, `Repository.Store`, whose `save`,
  `deleteById` and `findByEmail` operations change or read its maps;
- the JWT filter (`JwtAuthenticationFilter.DoFilterInternal`), which maps the request's
  `Authorization` header and the authentication present before it to the authentication
  the handler sees;
- the five product endpoints (`ProductController`): `GET /products` and
  `GET /products/{id}` as functions of the authentication and the product table;
  `POST`, `PUT` and `DELETE` as methods on the store, each a chain of early returns
  (header, token, body, existence, ownership) that ends in at most one write;
- user registration and listing (`UserService`, `UserController`).

A response is reduced to its status code, its message text (the source's own strings) and
what it carries under "details" or "token" (`Http.Payload`).

Collaborators the model does not see are parameters:

- The token service is `Security.JwtService`, a record of function values
  (`validateToken`, `extractUsername`, `getUserIdFromToken`, `getUserById`,
  `generateToken`). `getUserIdFromToken` and `getUserById` are called by the product
  handlers but defined nowhere in the source. They are left uninterpreted, and `None`
  stands for the `null` they may return.
- The password encoder is a function `encode: string -> string`.
- The request's security context is passed in and out explicitly as an
  `Option<Authentication>`.

Java `null` is `None` throughout: nullable fields are `Option`s. `@NotBlank` means
"not null, and something is left after `String.trim`", which strips every character up to
U+0020. `@Size` and `@Email` accept `null`, as Hibernate Validator does, so only
`@NotBlank` rejects a missing password or e-mail.

The handlers test the principal against the literal `"anonymousUser"` with `==`, which is
reference equality. It matches the framework's anonymous marker and never a user name
decoded from a token. The model therefore has a principal kind of its own for the marker
(`Security.Principal.AnonymousUser`).

The owner check compares the stored owner's primitive `long` id with the unboxed `Long`
user id, which is exact integer equality. When the user id is `null`, the unboxing throws
and the handler's catch-all answers 500; the model has that outcome.

Notes on the code:

- Product creation reads the caller from the authentication the filter set. It does not
  read a bearer header. The user-id lookup is handed that authentication's credentials,
  which the filter always sets to `null` (`JwtAuthenticationFilter.DoFilterInternal`).
- The filter and the update/delete handlers parse and validate the bearer header
  separately. Both uses go through one definition, `Security.BearerToken`.
- The price is only required to be present; its sign is not checked.
- A duplicate e-mail at registration is answered with 400.
- Tokens carry only a subject; no user-id claim is issued.
- The endpoints are the five product endpoints, `GET /users` and `POST /user`. There is
  no login endpoint.
- Both repositories' `save` re-checks the entity's bean constraints before writing
  (Hibernate's default validation on persist and update). The store refuses such an
  entity, as it refuses a row the table's constraints reject.

## Model

| member | source | states |
|---|---|---|
| `UserModel.UserFieldErrors` | src/main/java/com/example/product/Model/UserModel.java:28-44 | each field is reported exactly when it breaks its own constraints: "firstName" and "lastName" when blank, "email" when blank or malformed, "password" when blank or shorter than 8 characters; no other name is reported, and the set is empty exactly when the user is valid |
| `UserModel.ValidUserIsPersistable` | src/main/java/com/example/product/Model/UserModel.java:28-44 | a body that passes validation fills every `nullable = false` column |
| `UserModel.WriteKeepsEmailsUnique` | src/main/java/com/example/product/Model/UserModel.java:36 | writing a user under a key, new or stored, keeps e-mails unique across the table when no other row holds its e-mail; under a new key that condition is exactly "the e-mail is not taken" |
| `ProductModel.ProductFieldErrors` | src/main/java/com/example/product/Model/ProductModel.java:20-34 | each field is reported exactly when it breaks its constraint: "productName", "description" and "image" when blank, "price" when null; no other name is reported, and the set is empty exactly when the product is valid |
| `ProductModel.WithEditableFields` | src/main/java/com/example/product/Controller/ProductController.java:222-225 | the edited product keeps the stored id and owner and takes name, description, price and image from the request body |
| `ProductModel.EditedProductIsStorable` | src/main/java/com/example/product/Model/ProductModel.java:20-38 | a stored product edited with a validated body still satisfies the table's not-null and owner constraints and the bean constraints re-checked on write |
| `Security.BearerToken` | src/main/java/com/example/product/Filter/JwtAuthenticationFilter.java:26-27 | a token is extracted exactly when the header is non-null and starts with "Bearer ", and the header is then "Bearer " followed by the token (the first 7 characters are stripped) |
| `Security.BearerTokenOfHeader` | src/main/java/com/example/product/Controller/ProductController.java:178-184 | for every token, the header "Bearer " + token yields exactly that token |
| `JwtAuthenticationFilter.DoFilterInternal` | src/main/java/com/example/product/Filter/JwtAuthenticationFilter.java:22-41 | when the header carries a bearer token that validates, the authentication becomes that token's subject with null credentials; otherwise the authentication present before is left untouched; there is no rejecting outcome |
| `JwtAuthenticationFilter.FilterAuthenticatesAcceptedHeaders` | src/main/java/com/example/product/Filter/JwtAuthenticationFilter.java:26-37 | after the filter the request is authenticated exactly when the header passes the same prefix-and-validity test the write handlers apply, or when it was authenticated already |
| `JwtAuthenticationFilter.FilterOnBearerHeader` | src/main/java/com/example/product/Filter/JwtAuthenticationFilter.java:26-33 | for a header "Bearer " + t, the principal becomes t's subject if t validates, and nothing changes otherwise |
| `Repository.ProductSaveKey` | src/main/java/com/example/product/Service/ProductService.java:23-25 | `save` writes over an existing row exactly when the entity's id names a stored row, and then that row is the one the id names; otherwise the key is the next value of the sequence |
| `Repository.UserSaveKey` | src/main/java/com/example/product/Service/UserService.java:31 | `save` of a user writes over a stored row exactly when the primitive id is non-zero and names that row, and then it is the row the id names; otherwise the key is the next value of the sequence |
| `Repository.Store.SaveProduct` | src/main/java/com/example/product/Service/ProductService.java:23-25 | a product that fails its bean constraints or the table's constraints is refused and changes nothing; otherwise exactly the key chosen by `ProductSaveKey` is written, with the product stamped with that id, and the sequence advances only when a new key was used; the user table is untouched and the store invariant is kept |
| `Repository.Store.DeleteProductById` | src/main/java/com/example/product/Service/ProductService.java:35-37 | removes exactly that key, leaves the user table and both sequences alone and keeps the store invariant |
| `Repository.Store.SaveUser` | src/main/java/com/example/product/Service/UserService.java:31 | a user that fails its bean constraints, or whose e-mail another row holds, is refused with no change; otherwise exactly the key chosen by `UserSaveKey` is written (a merge onto the account a non-zero id names, or a new row), the sequence advances only for a new row, and the store invariant (unique e-mails included) is kept |
| `ProductController.GetProducts` | src/main/java/com/example/product/Controller/ProductController.java:39-74 | 401 exactly when there is no authentication or it is anonymous; otherwise 404 with an empty list when the table is empty and 200 with every stored row when it is not |
| `ProductController.GetProductById` | src/main/java/com/example/product/Controller/ProductController.java:131-165 | 401 exactly when unauthenticated; otherwise 404 when the id is absent and 200 with exactly the stored record when present |
| `ProductController.GetByIdAgreesWithList` | src/main/java/com/example/product/Controller/ProductController.java:146-157 | a product found by id is the row the product list holds under that id, and it carries that id |
| `ProductController.CreateProduct` | src/main/java/com/example/product/Controller/ProductController.java:76-129 | 401 when unauthenticated; 400 with the invalid fields when the body fails validation; 404 when the token's user is not found; 500 when that user is not stored (foreign key); no write in any of these; on 201 exactly one new key, the next value of the sequence, is added, holding the body's four fields with the looked-up user as owner, whatever owner or id the client sent |
| `ProductController.UpdateProduct` | src/main/java/com/example/product/Controller/ProductController.java:167-241 | 401 exactly when the header lacks the "Bearer " prefix or the token fails validation, before the store is read; then 400 on an invalid body, 404 on an absent id, 500 on a null user id, 403 when the caller is not the owner; no write on any of these; on 200 the caller owns the product and only that row changes, taking the body's four fields and keeping its id and owner; the user table and both id sequences are untouched |
| `ProductController.DeleteProduct` | src/main/java/com/example/product/Controller/ProductController.java:243-300 | the same authentication, existence and ownership outcomes as update, with no body validation; on 200 the caller owned the product and exactly that key is removed; otherwise nothing changes; the user table and both id sequences are untouched |
| `ProductController.ForeignTokenCannotUpdateNewProduct` | src/main/java/com/example/product/Controller/ProductController.java:204-219 | across two requests: once a product has been created for one user, an update whose token resolves to a different user id is refused with 403 and leaves the table as the creation left it |
| `ProductController.CreatedRowsAsWritten` | src/main/java/com/example/product/Controller/ProductController.java:112-116 | as written, a storable body whose id names a stored row replaces that row, with the caller as owner |
| `ProductController.ClientIdTakesOverProduct` | src/main/java/com/example/product/Controller/ProductController.java:112-116 | as written, a caller can replace another user's product, and take it over, by posting a valid body that carries that product's id |
| `ProductController.ProductSevenChangesHands` | src/main/java/com/example/product/Controller/ProductController.java:112-116 | the concrete case: product 7 owned by user 1 belongs to user 2 after user 2 posts a body with id 7 |
| `UserService.Register` | src/main/java/com/example/product/Service/UserService.java:24-32 | fails with "Email is already in use." exactly when the e-mail is stored, and then saves nothing; succeeds exactly when the e-mail is free and the user, with its password replaced by the hash, passes the bean constraints; on success adds exactly one user, under the next key of the sequence whatever id the client sent, whose password is the encoding of the given one; the table stays well-formed |
| `UserService.RegisterAll` | src/main/java/com/example/product/Service/UserService.java:26-31 | any sequence of registrations, starting from a well-formed table, keeps it well-formed (e-mails unique) and, with the client's id cleared, never alters or removes an existing account |
| `UserService.GetAllUsers` | src/main/java/com/example/product/Service/UserService.java:20-22 | returns every row of the user table and modifies nothing |
| `UserService.RegisterUser` | src/main/java/com/example/product/Service/UserService.java:24-32 | the store after the call and the returned user (the caller's object, now holding the hash and its id) are those `Register` describes; the product table and its sequence are untouched |
| `UserController.GetUsers` | src/main/java/com/example/product/Controller/UserController.java:33-58 | 404 with an empty list exactly when there are no users, 200 with every user otherwise; the header plays no part |
| `UserController.Register` | src/main/java/com/example/product/Controller/UserController.java:60-87 | 400 "Validation failed" with the invalid fields, and no registration, when the body fails validation; 400 "Error occurred while adding user" with the exception's message when the e-mail is taken, and with an opaque exception when the hashed user fails its constraints, never with a token; 200 with a token for the user's e-mail exactly when the body is valid, the e-mail free and the hashed password still passes the password constraints, after the user has been added |
| `UserService.RegisteredRowsAsWritten` | src/main/java/com/example/product/Service/UserService.java:24-32 | as written, a valid registration with a free e-mail whose body carries a stored account's id replaces that account with the body, password hashed |
| `UserService.ClientIdTakesOverAccount` | src/main/java/com/example/product/Service/UserService.java:24-32 | as written, such a registration changes the named account, giving it the caller's e-mail and password hash, and adds no account |
| `UserService.AccountFiveIsOverwritten` | src/main/java/com/example/product/Service/UserService.java:24-32 | the concrete case: account 5 (ann@x.com) holds eve@x.com and Eve's hash after Eve registers with a body carrying id 5 |

## Findings

| source | as written | input that shows it | evidently intended | confidence | as-written member | corrected member |
|---|---|---|---|---|---|---|
| src/main/java/com/example/product/Controller/ProductController.java:112-116 | the request body is saved as sent, so its `id` reaches `save`, which merges an entity whose id names a stored row onto that row | product 7 belongs to user 1; user 2 posts a valid body with `"id": 7`; product 7 is overwritten and now belongs to user 2 | the store assigns a new product's id (ProductModel.java:16-18), and only its owner may change a product | medium: relies on Spring Data's `save` merging an entity whose id is set; not executed | `ProductController.CreatedRowsAsWritten` | `ProductController.CreateProduct` |
| src/main/java/com/example/product/Service/UserService.java:24-32 | the registration body is saved with the `id` the client sent; a non-zero primitive id marks the entity as not new, so `save` merges it onto the account with that id | account 5 is ann@x.com; `POST /user` with a valid body carrying `"id": 5`, e-mail eve@x.com and a new password; account 5 now has Eve's e-mail and password hash | registration creates a new account (UserModel.java:24-26) and never changes an existing one | medium: relies on Spring Data's `save` merging an entity whose primitive id is non-zero, and on the flush accepting the merged null `products` collection; not executed | `UserService.RegisteredRowsAsWritten` | `UserService.Register` |

`ProductController.ClientIdTakesOverProduct` proves the takeover for every such input, and
`ProductController.ProductSevenChangesHands` proves the concrete case. `CreateProduct`
clears the client's id before saving. Its contract then proves that every row stored before
the call is unchanged.

`UserService.ClientIdTakesOverAccount` and `UserService.AccountFiveIsOverwritten` do the
same for registration. `UserService.Register` and `UserService.RegisterUser` clear the
client's id before saving. `Register` then always adds a new key, and `UserService.RegisterAll`
proves that no sequence of registrations changes an existing account.

## Left out

- Token signing and parsing (the secret loaded from the environment, HMAC-SHA256, the clock, the 10-hour lifetime `1000*60*60*10` ms): `Security.JwtService` is a parameter. `validateToken` already folds every parse failure into `false`.
- `getUserIdFromToken` and `getUserById` are not defined in the source. Exceptions they might throw, which would turn a 400 or 404 into a 500, are not modelled.
- Password hashing: `encode` is an opaque function. A null password is taken to make the encoder throw, which the model records as `UserService.RegisterError.Rejected`.
- HTTP and Spring plumbing is not modelled: routing, `ResponseEntity`, the `"status"` string (it is "success" exactly for 2xx codes), and exception texts other than "Email is already in use." (`Http.Payload.OpaqueException`).
- Lists are modelled without their order: a list returned by `findAll` is modelled as the table's rows by id.
- Per-field error messages: only the names of the failing fields are modelled. When a field violates two constraints, which message the response keeps depends on the order the validator reports them.
- Store failures other than constraint violations (lost connection and the like) are not modelled. They would reach the catch-all 500 of any handler.
- Concurrency: the read-check-write sequence of update and delete is not atomic across requests. The model runs one request at a time.
- `ProductService.searchProductsByName` and `ProductRepository.findByProductNameContainingIgnoreCase`: no endpoint calls them.
- `UserModel.products` (`@JsonIgnore`, cascade with orphan removal): no modelled handler serializes a user's products or deletes a user. The product-to-owner link is kept on `Product.user` only.
- `UserService.RegisteredRowsAsWritten`: only the user table is modelled. The merge also copies the body's null, orphan-removing `products` collection onto the account. Depending on the persistence provider's version, that either clears the account's products or fails at flush because the orphan-removing collection is no longer referenced. The failure would turn the takeover into a 400 that changes nothing. The model takes the first outcome and does not say what happens to the products.
- `Repository.UserSaveKey`: a non-zero id that names no stored account gets a new key, as older Hibernate versions do. Newer versions throw instead. Only the as-written registration path can pass such an id.
- `Repository.ProductSaveKey`: an id that names no stored row gets a new key, as older Hibernate versions do. Newer versions throw instead. Only the as-written create path can pass such an id.
- `UserModel.WellFormedEmail`: checks only the split at the last '@' into a non-empty local part and domain. Hibernate's character classes and length limits for the two parts are not modelled.
- E-mail comparison is exact. A case-insensitive database collation would make more e-mails clash.
- String lengths count characters, not UTF-16 code units.
- Prices are `real` values. The model does no arithmetic on them and ignores NaN.
