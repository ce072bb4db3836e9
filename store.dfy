/** The server's in-memory store (`db`) and the handlers that write to it. */
module Db {
  import opened Js

  /** A registered user. The role of every user the server creates is `'user'`. */
  datatype User = User(
    id: string,
    email: string,
    passwordHash: string,
    role: string,
    createdAt: Time,
    updatedAt: Time)

  /** What a handler sends back. */
  datatype Body =
    | NoContent                          // res.sendStatus(204)
    | Error(error: string)               // { error }
    | Message(message: string)           // { message }
    | UserRecord(user: User)             // the registered user, hash included
    | Token(payload: User)               // { token }, a token signed over `payload`
    | Products(products: seq<Object>)    // { products }
    | Product(product: Option<Object>)   // { product }; `undefined` drops the key
    | Cart(cart: seq<Object>)            // { cart }
    | Orders(orders: seq<Object>)        // { orders }
    | Order(order: Option<Object>)       // { order }; `undefined` drops the key

  /** The result of one request: a status and a body, or a handler that threw
      (it dereferenced the `undefined` that a failed lookup returned). */
  datatype Outcome = Reply(status: nat, body: Body) | Failed

  /** The three sample products the store starts with; their ids come from
      `crypto.randomUUID()`. */
  function SeedProducts(id1: string, id2: string, id3: string): (ps: seq<Object>)
    ensures |ps| == 3
    ensures forall i :: 0 <= i < 3 ==> ps[i].Keys == {"id", "name", "price"}
    ensures ps[0]["id"] == Str(id1) && ps[1]["id"] == Str(id2) && ps[2]["id"] == Str(id3)
  {
    [ map["id" := Str(id1), "name" := Str("Apple iPhone"), "price" := Num(865.99)],
      map["id" := Str(id2), "name" := Str("Android"), "price" := Num(165.99)],
      map["id" := Str(id3), "name" := Str("Roomba"), "price" := Num(200.99)] ]
  }

  /** `p` is the seeded product `s` after any number of soft deletes: every
      seeded field is as it was, the only fields added are `deleted` (always
      `true`) and `updatedAt` (always a date). */
  ghost predicate SoftDeletedFrom(p: Object, s: Object)
  {
    && "deleted" !in s && "updatedAt" !in s
    && (forall k :: k in s ==> k in p && p[k] == s[k])
    && (forall k :: k in p ==> k in s || k == "deleted" || k == "updatedAt")
    && ("deleted" in p ==> p["deleted"] == Bool(true))
    && ("updatedAt" in p ==> p["updatedAt"].Date?)
  }

  class Store {
    var users: seq<User>
    var products: seq<Object>
    var orders: seq<Object>
    var cartItems: seq<Object>   // db.cart.items: one cart shared by everybody

    /** The products as they were seeded. */
    ghost const seed: seq<Object>

    /** What holds in every state the server can reach: no handler adds or
        removes a product, an order or a cart item, and the only change a
        product ever sees is a soft delete. */
    ghost predicate Invariant()
      reads this
    {
      && |seed| == 3
      && |products| == |seed|
      && orders == []
      && cartItems == []
      && forall i :: 0 <= i < |products| ==> SoftDeletedFrom(products[i], seed[i])
    }

    constructor (id1: string, id2: string, id3: string)
      ensures users == [] && orders == [] && cartItems == []
      ensures products == SeedProducts(id1, id2, id3) && seed == products
      ensures Invariant()
    {
      users, orders, cartItems := [], [], [];
      products := SeedProducts(id1, id2, id3);
      seed := products;
    }

    /** POST /auth/register: appends one user with role `'user'`, the hash of
        the password, a fresh id and the two clock readings, and sends it back
        with 201. Nothing else changes. */
    method Register(email: string, password: string, id: string, createdAt: Time, updatedAt: Time,
                    hash: string -> string)
      returns (out: Outcome)
      modifies this
      ensures users == old(users) + [User(id, email, hash(password), "user", createdAt, updatedAt)]
      ensures out == Reply(201, UserRecord(users[|users| - 1]))
      ensures products == old(products) && orders == old(orders) && cartItems == old(cartItems)
      ensures old(Invariant()) ==> Invariant()
    {
      var user := User(id, email, hash(password), "user", createdAt, updatedAt);
      users := users + [user];
      out := Reply(201, UserRecord(user));
    }

    /** DELETE /products/:id: marks the first product with that id deleted and
        stamps it; every other product and field is left alone. With no such
        product the handler throws before writing anything. */
    method DeleteProduct(id: string, now: Time) returns (out: Outcome)
      modifies this
      ensures users == old(users) && orders == old(orders) && cartItems == old(cartItems)
      ensures FindIndex(old(products), IdIs(id)).None? ==> out == Failed && products == old(products)
      ensures FindIndex(old(products), IdIs(id)).Some? ==>
        var i := FindIndex(old(products), IdIs(id)).value;
        && out == Reply(204, NoContent)
        && products == old(products)[i := Assign(Assign(old(products)[i], "deleted", Bool(true)), "updatedAt", Date(now))]
      ensures old(Invariant()) ==> Invariant()
    {
      var found := FindIndex(products, IdIs(id));
      if found.None? {
        out := Failed;
      } else {
        var i := found.value;
        ghost var before := products;
        products := products[i := Assign(Assign(products[i], "deleted", Bool(true)), "updatedAt", Date(now))];
        out := Reply(204, NoContent);
        if old(Invariant()) {
          forall j | 0 <= j < |products|
            ensures SoftDeletedFrom(products[j], seed[j])
          {
            if j == i {
              assert SoftDeletedFrom(before[j], seed[j]);
            }
          }
        }
      }
    }

    /** PUT /cart/items/:id: stamps the first cart item with that id and sends
        the cart back with 200; throws when there is none. */
    method UpdateCartItem(id: string, now: Time) returns (out: Outcome)
      modifies this
      ensures users == old(users) && products == old(products) && orders == old(orders)
      ensures FindIndex(old(cartItems), IdIs(id)).None? ==> out == Failed && cartItems == old(cartItems)
      ensures FindIndex(old(cartItems), IdIs(id)).Some? ==>
        var i := FindIndex(old(cartItems), IdIs(id)).value;
        && cartItems == old(cartItems)[i := Assign(old(cartItems)[i], "updatedAt", Date(now))]
        && out == Reply(200, Cart(cartItems))
      ensures old(Invariant()) ==> Invariant() && out == Failed
    {
      var found := FindIndex(cartItems, IdIs(id));
      if found.None? {
        out := Failed;
      } else {
        var i := found.value;
        cartItems := cartItems[i := Assign(cartItems[i], "updatedAt", Date(now))];
        out := Reply(200, Cart(cartItems));
      }
    }

    /** DELETE /cart/items/:id: stamps the first cart item with that id and
        sends 204; the item stays in the cart. Throws when there is none. */
    method DeleteCartItem(id: string, now: Time) returns (out: Outcome)
      modifies this
      ensures users == old(users) && products == old(products) && orders == old(orders)
      ensures FindIndex(old(cartItems), IdIs(id)).None? ==> out == Failed && cartItems == old(cartItems)
      ensures FindIndex(old(cartItems), IdIs(id)).Some? ==>
        var i := FindIndex(old(cartItems), IdIs(id)).value;
        && cartItems == old(cartItems)[i := Assign(old(cartItems)[i], "updatedAt", Date(now))]
        && out == Reply(204, NoContent)
      ensures |cartItems| == |old(cartItems)|
      ensures old(Invariant()) ==> Invariant() && out == Failed
    {
      var found := FindIndex(cartItems, IdIs(id));
      if found.None? {
        out := Failed;
      } else {
        var i := found.value;
        cartItems := cartItems[i := Assign(cartItems[i], "updatedAt", Date(now))];
        out := Reply(204, NoContent);
      }
    }

    /** POST /orders/:id/pay: sets `paid` on the first order with that id and
        sends 200; throws when there is none. */
    method PayOrder(id: string) returns (out: Outcome)
      modifies this
      ensures users == old(users) && products == old(products) && cartItems == old(cartItems)
      ensures FindIndex(old(orders), IdIs(id)).None? ==> out == Failed && orders == old(orders)
      ensures FindIndex(old(orders), IdIs(id)).Some? ==>
        var i := FindIndex(old(orders), IdIs(id)).value;
        && orders == old(orders)[i := Assign(old(orders)[i], "paid", Bool(true))]
        && out == Reply(200, Message("Paid order"))
      ensures old(Invariant()) ==> Invariant() && out == Failed
    {
      var found := FindIndex(orders, IdIs(id));
      if found.None? {
        out := Failed;
      } else {
        var i := found.value;
        orders := orders[i := Assign(orders[i], "paid", Bool(true))];
        out := Reply(200, Message("Paid order"));
      }
    }

    /** DELETE /orders/:id: sets `deleted` on the first order with that id
        (without stamping it) and sends 204; throws when there is none. */
    method DeleteOrder(id: string) returns (out: Outcome)
      modifies this
      ensures users == old(users) && products == old(products) && cartItems == old(cartItems)
      ensures FindIndex(old(orders), IdIs(id)).None? ==> out == Failed && orders == old(orders)
      ensures FindIndex(old(orders), IdIs(id)).Some? ==>
        var i := FindIndex(old(orders), IdIs(id)).value;
        && orders == old(orders)[i := Assign(old(orders)[i], "deleted", Bool(true))]
        && out == Reply(204, NoContent)
      ensures old(Invariant()) ==> Invariant() && out == Failed
    {
      var found := FindIndex(orders, IdIs(id));
      if found.None? {
        out := Failed;
      } else {
        var i := found.value;
        orders := orders[i := Assign(orders[i], "deleted", Bool(true))];
        out := Reply(204, NoContent);
      }
    }
  }
}
