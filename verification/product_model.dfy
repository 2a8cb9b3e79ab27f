/** The `ProductModel` entity: a product record and its bean-validation constraints. */
module ProductModel {
  import opened Wrappers
  import opened UserModel

  /** Java's `Double`, kept opaque: the model does no arithmetic on prices. */
  type Price = real

  /** A product row. `id` is a nullable `Long` the store assigns; `user` is the owning
      user (`@ManyToOne`, join column `user_id`, not nullable in the table). */
  datatype Product = Product(
    id: Option<int>,
    productName: Option<string>,
    description: Option<string>,
    price: Option<Price>,
    image: Option<string>,
    user: Option<User>)

  /** The constraints a request body is validated against. No constraint is declared on
      `id` or `user`, and `price` is only required to be present. */
  predicate ProductValid(p: Product)
  {
    && NotBlank(p.productName)
    && NotBlank(p.description)
    && p.price.Some?
    && NotBlank(p.image)
  }

  /** The names of the fields the binding result reports errors for. */
  function ProductFieldErrors(p: Product): (fields: set<string>)
    ensures fields == {} <==> ProductValid(p)
    ensures fields <= {"productName", "description", "price", "image"}
    ensures "productName" in fields <==> !NotBlank(p.productName)
    ensures "description" in fields <==> !NotBlank(p.description)
    ensures "price" in fields <==> p.price.None?
    ensures "image" in fields <==> !NotBlank(p.image)
  {
    (if NotBlank(p.productName) then {} else {"productName"})
    + (if NotBlank(p.description) then {} else {"description"})
    + (if p.price.Some? then {} else {"price"})
    + (if NotBlank(p.image) then {} else {"image"})
  }

  /** What the table accepts: every `nullable = false` column holds a value and the owner
      refers to a stored user (the foreign key of `user_id`). */
  predicate Storable(p: Product, users: map<int, User>)
  {
    && p.productName.Some? && p.description.Some? && p.price.Some? && p.image.Some?
    && p.user.Some? && p.user.value.id in users
  }

  /** The field-by-field update the `PUT` handler applies: the four editable fields come
      from the request body, the id and the owner are the stored record's. */
  function WithEditableFields(stored: Product, body: Product): (p: Product)
    ensures p.id == stored.id && p.user == stored.user
    ensures p.productName == body.productName && p.description == body.description
    ensures p.price == body.price && p.image == body.image
  {
    stored.(productName := body.productName, description := body.description,
            price := body.price, image := body.image)
  }

  /** A validated body, given the stored record's owner, is accepted by the table and
      passes the bean constraints re-checked when the row is written. */
  lemma EditedProductIsStorable(stored: Product, body: Product, users: map<int, User>)
    requires Storable(stored, users)
    requires ProductValid(body)
    ensures Storable(WithEditableFields(stored, body), users)
    ensures ProductValid(WithEditableFields(stored, body))
  {
  }
}
