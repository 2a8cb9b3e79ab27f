/** The two JPA repositories as one in-memory database: the product table and the user
    table, keyed by id, with the id sequences the store draws new keys from. The class
    invariant is the schema: keys are the rows' ids, not-null columns hold values, e-mails
    are unique and every product's owner is a stored user. */
module Repository {
  import opened Wrappers
  import opened UserModel
  import opened ProductModel

  predicate UsersWellFormed(users: map<int, User>, nextUserId: int)
  {
    && 1 <= nextUserId
    && (forall k | k in users :: 1 <= k < nextUserId && users[k].id == k && Persistable(users[k]))
    && EmailsUnique(users)
  }

  predicate ProductsWellFormed(products: map<int, Product>, users: map<int, User>, nextProductId: int)
  {
    && 1 <= nextProductId
    && forall k | k in products :: 1 <= k < nextProductId && products[k].id == Some(k) && Storable(products[k], users)
  }

  /** The key `save` writes a product under: an id naming a stored row is merged onto that
      row; otherwise the product is persisted under the next value of the sequence. */
  function ProductSaveKey(products: map<int, Product>, nextProductId: int, id: Option<int>): (k: int)
    requires forall j | j in products :: j < nextProductId
    ensures k in products <==> id.Some? && id.value in products
    ensures id.Some? && id.value in products ==> k == id.value
    ensures k !in products ==> k == nextProductId
  {
    if id.Some? && id.value in products then id.value else nextProductId
  }

  /** The key `save` writes a user under. The id is a primitive `long`, so 0 marks a new
      entity, which is persisted under the next value of the sequence; a non-zero id naming
      a stored row is merged onto that row. */
  function UserSaveKey(users: map<int, User>, nextUserId: int, id: int): (k: int)
    requires forall j | j in users :: j < nextUserId
    ensures k in users <==> id != 0 && id in users
    ensures id != 0 && id in users ==> k == id
    ensures k !in users ==> k == nextUserId
  {
    if id != 0 && id in users then id else nextUserId
  }

  class Store {
    var products: map<int, Product>
    var users: map<int, User>
    var nextProductId: int
    var nextUserId: int

    predicate Valid()
      reads this
    {
      UsersWellFormed(users, nextUserId) && ProductsWellFormed(products, users, nextProductId)
    }

    constructor ()
      ensures Valid()
      ensures products == map[] && users == map[]
    {
      products, users := map[], map[];
      nextProductId, nextUserId := 1, 1;
    }

    /** `productRepository.save`: merges onto the row the id names, or persists under a
        new key. A product that fails its bean constraints (re-checked when the row is
        written) or the table's constraints raises an exception and changes nothing. */
    method SaveProduct(p: Product) returns (saved: Option<Product>)
      requires Valid()
      modifies this
      ensures Valid()
      ensures users == old(users) && nextUserId == old(nextUserId)
      ensures saved.None? <==> !ProductValid(p) || !Storable(p, users)
      ensures saved.None? ==> products == old(products) && nextProductId == old(nextProductId)
      ensures saved.Some? ==>
        var k := ProductSaveKey(old(products), old(nextProductId), p.id);
        && saved.value == p.(id := Some(k)) && products == old(products)[k := saved.value]
        && nextProductId == (if k == old(nextProductId) then k + 1 else old(nextProductId))
    {
      if !ProductValid(p) || !Storable(p, users) {
        return None;
      }
      var k := ProductSaveKey(products, nextProductId, p.id);
      saved := Some(p.(id := Some(k)));
      products := products[k := saved.value];
      if k == nextProductId {
        nextProductId := nextProductId + 1;
      }
    }

    /** `productRepository.deleteById`: removes that row, if there is one. */
    method DeleteProductById(id: int)
      requires Valid()
      modifies this
      ensures Valid()
      ensures products == old(products) - {id}
      ensures users == old(users)
      ensures nextProductId == old(nextProductId) && nextUserId == old(nextUserId)
    {
      products := products - {id};
    }

    /** `userRepository.findByEmail(email).isPresent()`. */
    predicate FindByEmailIsPresent(email: Option<string>)
      reads this
    {
      EmailTaken(users, email)
    }

    /** `userRepository.save`: merges onto the row a non-zero id names, or persists under a
        new key. A user that fails its bean constraints (re-checked when the row is written),
        or whose e-mail another row holds, raises an exception and changes nothing. */
    method SaveUser(u: User) returns (saved: Option<User>)
      requires Valid()
      modifies this
      ensures Valid()
      ensures products == old(products) && nextProductId == old(nextProductId)
      ensures var k := UserSaveKey(old(users), old(nextUserId), u.id);
        && (saved.None? <==> !UserValid(u) || EmailTakenByOther(old(users), k, u.email))
        && (saved.None? ==> users == old(users) && nextUserId == old(nextUserId))
        && (saved.Some? ==>
              && saved.value == u.(id := k)
              && users == old(users)[k := saved.value]
              && nextUserId == (if k == old(nextUserId) then k + 1 else old(nextUserId)))
    {
      var k := UserSaveKey(users, nextUserId, u.id);
      if !UserValid(u) || EmailTakenByOther(users, k, u.email) {
        return None;
      }
      saved := Some(u.(id := k));
      ValidUserIsPersistable(u);
      WriteKeepsEmailsUnique(users, k, saved.value);
      users := users[k := saved.value];
      if k == nextUserId {
        nextUserId := k + 1;
      }
    }
  }
}
