/** The handlers that only read the store: they compute a reply from the
    store's collections and the request, and change nothing. */
module Handlers {
  import opened Js
  import opened Db

  /** The lookup of login: `u => u.email === email`. */
  function EmailIs(email: string): (p: User -> bool)
  {
    (u: User) => u.email == email
  }

  /** `users[i]` is the first user, in order of registration, with this email. */
  ghost predicate FirstWithEmail(users: seq<User>, i: int, email: string)
  {
    0 <= i < |users| && users[i].email == email && forall j :: 0 <= j < i ==> users[j].email != email
  }

  /** POST /auth/login: succeeds with 200 and a token signed over the first
      user with the email exactly when the password matches that user's hash
      (`matches` stands for `bcrypt.compare`); every failure is the same 401,
      whether the email is unknown or the password wrong. */
  function Login(users: seq<User>, email: string, password: string,
                 matches: (string, string) -> bool): (out: Outcome)
    ensures out.Reply?
    ensures out.status == 200 <==>
      exists i :: FirstWithEmail(users, i, email) && matches(password, users[i].passwordHash)
    ensures out.status == 200 ==>
      out.body.Token? && exists i :: FirstWithEmail(users, i, email) && out.body.payload == users[i]
    ensures out.status != 200 ==> out == Reply(401, Error("Invalid credentials"))
  {
    match FindIndex(users, EmailIs(email))
    case None => Reply(401, Error("Invalid credentials"))
    case Some(i) =>
      if !matches(password, users[i].passwordHash) then Reply(401, Error("Invalid credentials"))
      else Reply(200, Token(users[i]))
  }

  /** A user who registers with an email nobody else has can then log in with
      the same password, and the token is signed over that very user;
      `matches` accepting what `hash` produced is what bcrypt promises. */
  lemma RegisterThenLogin(users: seq<User>, id: string, email: string, password: string,
                          hash: string -> string, matches: (string, string) -> bool,
                          createdAt: Time, updatedAt: Time)
    requires forall j :: 0 <= j < |users| ==> users[j].email != email
    requires matches(password, hash(password))
    ensures var user := User(id, email, hash(password), "user", createdAt, updatedAt);
      Login(users + [user], email, password, matches) == Reply(200, Token(user))
  {
    var user := User(id, email, hash(password), "user", createdAt, updatedAt);
    FindIndexAppend(users, user, EmailIs(email));
  }

  /** Emails are not unique: once some user has an email, registering it
      again changes nothing about logging in with it, since login only ever
      looks at the first user with that email. */
  lemma LaterUserShadowed(users: seq<User>, user: User, email: string, password: string,
                          matches: (string, string) -> bool)
    requires exists j :: 0 <= j < |users| && users[j].email == email
    ensures Login(users + [user], email, password, matches) == Login(users, email, password, matches)
  {
    FindIndexAppend(users, user, EmailIs(email));
  }

  /** The identity has role `'admin'`: `req.user.role === 'admin'`. */
  predicate IsAdmin(identity: Object)
  {
    "role" in identity && identity["role"] == Str("admin")
  }

  /** POST /products: refuses every caller whose role is not `'admin'` with
      403, and answers 201 otherwise; either way no product is stored. */
  function CreateProduct(identity: Object): (out: Outcome)
    ensures out.Reply? && (out.status == 201 || out.status == 403)
    ensures out.status == 201 <==> IsAdmin(identity)
    ensures out.status == 403 ==> out.body == Error("Only admins can add products")
    ensures out.status == 201 ==> out.body == Message("Product created")
  {
    if !IsAdmin(identity) then Reply(403, Error("Only admins can add products"))
    else Reply(201, Message("Product created"))
  }

  /** PUT /products/:id: `{ ...body, ...product }` stamped with `updatedAt`,
      where `product` is the first product with the id, or `undefined`. The
      stored product's fields win over the body's, so the body can only add
      fields the product lacks. The store is not written. */
  function UpdateProduct(products: seq<Object>, id: string, body: Object, now: Time): (out: Outcome)
    ensures out.Reply? && out.status == 200 && out.body.Product? && out.body.product.Some?
    ensures var r := out.body.product.value;
      var f := FindIndex(products, IdIs(id));
      && "updatedAt" in r && r["updatedAt"] == Date(now)
      && r.Keys == body.Keys + {"updatedAt"} + (if f.Some? then products[f.value].Keys else {})
  {
    var found := Find(products, IdIs(id));
    Reply(200, Product(Some(Assign(Spread(body, found), "updatedAt", Date(now)))))
  }

  /** Every field of the stored product other than `updatedAt` comes back
      unchanged, whatever the body says about it. */
  lemma UpdateKeepsStoredFields(products: seq<Object>, id: string, body: Object, now: Time, k: string)
    requires FindIndex(products, IdIs(id)).Some?
    requires k in products[FindIndex(products, IdIs(id)).value] && k != "updatedAt"
    ensures var r := UpdateProduct(products, id, body, now).body.product.value;
      k in r && r[k] == products[FindIndex(products, IdIs(id)).value][k]
  {
  }

  /** A body field that the first product with the id lacks (or every body
      field, when there is no such product) is passed through. */
  lemma UpdateAddsBodyFields(products: seq<Object>, id: string, body: Object, now: Time, k: string)
    requires k in body && k != "updatedAt"
    requires FindIndex(products, IdIs(id)).None? || k !in products[FindIndex(products, IdIs(id)).value]
    ensures UpdateProduct(products, id, body, now).body.product.value[k] == body[k]
  {
  }

  /** With no product of that id, `...undefined` spreads nothing: the reply is
      the body itself stamped with `updatedAt`, still with status 200. */
  lemma UpdateOfMissingProduct(products: seq<Object>, id: string, body: Object, now: Time)
    requires forall i :: 0 <= i < |products| ==> !IdIs(id)(products[i])
    ensures UpdateProduct(products, id, body, now) ==
      Reply(200, Product(Some(Assign(body, "updatedAt", Date(now)))))
  {
  }
}
