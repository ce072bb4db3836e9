/** One request through the server: the gate installed in front of every
    route but registration and login, then the route's handler. */
module Server {
  import opened Js
  import opened Db
  import opened Auth
  import opened Handlers

  /** The routes, with what each handler reads from the path and the body. */
  datatype Route =
    | PostRegister(email: string, password: string)
    | PostLogin(email: string, password: string)
    | PostProducts
    | GetProducts
    | GetProductById(id: string)
    | PutProductById(id: string, body: Object)
    | DeleteProductById(id: string)
    | PostCartItems
    | GetCart
    | PutCartItemById(id: string)
    | DeleteCartItemById(id: string)
    | PostOrders
    | PostOrderPay(id: string)
    | GetOrders
    | GetOrderById(id: string)
    | DeleteOrderById(id: string)
  {
    /** Registered before the gate, so reachable without a token. */
    predicate Public()
    {
      PostRegister? || PostLogin?
    }
  }

  /** The library calls, as seen by the handlers: `bcrypt.hash` (salt
      included), `bcrypt.compare`, and `jwt.verify` with the server's key
      (`None` when it throws). */
  datatype Crypto = Crypto(
    hash: string -> string,
    matches: (string, string) -> bool,
    verify: string -> Option<Object>)

  /** Everything a request sees that does not come from the request or the
      store: a fresh `crypto.randomUUID()`, the readings of `new Date()` (a
      handler reads the clock at most twice) and the library calls. */
  datatype Env = Env(uuid: string, now: Time, nowAgain: Time, crypto: Crypto)

  /** The gate lets a request with this header through. */
  predicate GatePasses(authorization: Option<string>, verify: string -> Option<Object>)
  {
    BearerToken(authorization).Some? && verify(BearerToken(authorization).value).Some?
  }

  /** Serves one request against the store. */
  method Handle(db: Store, req: Request, route: Route, env: Env) returns (out: Outcome)
    modifies db, req
    // The gate: a protected route whose request it refuses never reaches its
    // handler, so the store is untouched.
    ensures !route.Public() && BearerToken(req.authorization).None? ==>
      out == Reply(401, Error("Missing token")) && unchanged(db)
    ensures !route.Public() && BearerToken(req.authorization).Some?
            && env.crypto.verify(BearerToken(req.authorization).value).None? ==>
      out == Reply(401, Error("Invalid token")) && unchanged(db)
    ensures route.Public() ==> req.user == old(req.user)
    ensures !route.Public() && GatePasses(req.authorization, env.crypto.verify) ==>
      req.user == env.crypto.verify(BearerToken(req.authorization).value)
    // Public routes.
    ensures route.PostRegister? ==>
      db.users == old(db.users) + [User(env.uuid, route.email, env.crypto.hash(route.password),
                                        "user", env.now, env.nowAgain)]
      && out == Reply(201, UserRecord(db.users[|db.users| - 1]))
    ensures route.PostLogin? ==>
      out == Login(db.users, route.email, route.password, env.crypto.matches)
    // Handlers that only read, once past the gate.
    ensures GatePasses(req.authorization, env.crypto.verify) ==>
      && (route.PostProducts? ==> out == CreateProduct(req.user.value))
      && (route.GetProducts? ==> out == Reply(200, Products(db.products)))
      && (route.GetProductById? ==> out == Reply(200, Product(Find(db.products, IdIs(route.id)))))
      && (route.PutProductById? ==> out == UpdateProduct(db.products, route.id, route.body, env.now))
      && (route.PostCartItems? ==> out == Reply(201, Cart(db.cartItems)))
      && (route.GetCart? ==> out == Reply(200, Cart(db.cartItems)))
      && (route.PostOrders? ==> out == Reply(201, Message("Created order")))
      && (route.GetOrders? ==> out == Reply(200, Orders(db.orders)))
      && (route.GetOrderById? ==> out == Reply(200, Order(Find(db.orders, IdIs(route.id)))))
    // Which collection each route may write; every other one keeps its value.
    ensures db.users == old(db.users) || route.PostRegister?
    ensures db.products == old(db.products) || route.DeleteProductById?
    ensures db.orders == old(db.orders) || route.PostOrderPay? || route.DeleteOrderById?
    ensures db.cartItems == old(db.cartItems) || route.PutCartItemById? || route.DeleteCartItemById?
    // No handler adds or removes a product, an order or a cart item.
    ensures |db.products| == |old(db.products)| && |db.orders| == |old(db.orders)|
    ensures |db.cartItems| == |old(db.cartItems)|
    // Lookups by id never throw; lookups whose result is written to do when
    // nothing matches.
    ensures route.GetProductById? || route.GetOrderById? || route.PutProductById? ==> out.Reply?
    ensures out.Failed? ==>
      && GatePasses(req.authorization, env.crypto.verify)
      && db.users == old(db.users) && db.products == old(db.products)
      && db.orders == old(db.orders) && db.cartItems == old(db.cartItems)
      && (|| (route.DeleteProductById? && FindIndex(db.products, IdIs(route.id)).None?)
          || (route.PutCartItemById? && FindIndex(db.cartItems, IdIs(route.id)).None?)
          || (route.DeleteCartItemById? && FindIndex(db.cartItems, IdIs(route.id)).None?)
          || (route.PostOrderPay? && FindIndex(db.orders, IdIs(route.id)).None?)
          || (route.DeleteOrderById? && FindIndex(db.orders, IdIs(route.id)).None?))
    // The invariant of every reachable state, and what follows from it: with
    // no orders and an empty cart, paying or deleting an order and updating
    // or deleting a cart item always fail once past the gate.
    ensures old(db.Invariant()) ==> db.Invariant()
    ensures old(db.Invariant()) && GatePasses(req.authorization, env.crypto.verify)
            && (route.PostOrderPay? || route.DeleteOrderById?
                || route.PutCartItemById? || route.DeleteCartItemById?) ==>
      out == Failed
  {
    if !route.Public() {
      var rejection := req.Authenticate(env.crypto.verify);
      if rejection.Some? {
        return rejection.value;
      }
    }
    match route {
      case PostRegister(email, password) =>
        out := db.Register(email, password, env.uuid, env.now, env.nowAgain, env.crypto.hash);
      case PostLogin(email, password) =>
        out := Login(db.users, email, password, env.crypto.matches);
      case PostProducts =>
        out := CreateProduct(req.user.value);
      case GetProducts =>
        out := Reply(200, Products(db.products));
      case GetProductById(id) =>
        out := Reply(200, Product(Find(db.products, IdIs(id))));
      case PutProductById(id, body) =>
        out := UpdateProduct(db.products, id, body, env.now);
      case DeleteProductById(id) =>
        out := db.DeleteProduct(id, env.now);
      case PostCartItems =>
        out := Reply(201, Cart(db.cartItems));
      case GetCart =>
        out := Reply(200, Cart(db.cartItems));
      case PutCartItemById(id) =>
        out := db.UpdateCartItem(id, env.now);
      case DeleteCartItemById(id) =>
        out := db.DeleteCartItem(id, env.now);
      case PostOrders =>
        out := Reply(201, Message("Created order"));
      case PostOrderPay(id) =>
        out := db.PayOrder(id);
      case GetOrders =>
        out := Reply(200, Orders(db.orders));
      case GetOrderById(id) =>
        out := Reply(200, Order(Find(db.orders, IdIs(id))));
      case DeleteOrderById(id) =>
        out := db.DeleteOrder(id);
    }
  }
}
