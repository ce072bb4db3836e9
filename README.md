# ecommerce-platform-api, modelled in Dafny

The server is a small Express application (`index.js`) that keeps all of its
data in one in-memory object, `db`: a sequence of users, a sequence of
products seeded with three sample records, a sequence of orders, and one cart
whose items are shared by every caller. Registration and login are public;
every other route sits behind `authenticate`, which takes the token from the
`Authorization` header, verifies it, and attaches the decoded user to the
request.

This project models that store and every route handler that reads or changes
it, and proves what each one does to the store and what it answers:

- `js.dfy` (module `Js`): the JavaScript semantics the handlers lean on:
  `undefined`, JSON values and plain objects (`map<string, Value>`), property
  assignment, object spread, `String.prototype.split` on one character (with
  its partner `Join` and both round trips), and `Array.prototype.find` /
  `findIndex` (first match in order).
- `store.dfy` (module `Db`): the records, the replies, and the `Store` class
  with the handlers that write to it (register, product delete, cart item
  update and delete, order pay and delete). Each method states its whole new
  state. `Store.Invariant` is what holds in every state the server can reach:
  exactly the three seeded products, each changed at most by soft deletes, no
  orders, an empty cart.
- `auth.dfy` (module `Auth`): the token extraction (`BearerToken`), with
  lemmas that characterise exactly which headers carry a token, and
  `Request.Authenticate`, the gate itself.
- `handlers.dfy` (module `Handlers`): the handlers that only read: login,
  product create, product update. Also the lemmas that tie registration to
  login and the ones about the update's merge order.
- `server.dfy` (module `Server`): `Handle`, one request through the gate
  (installed before every route except register and login) and then the
  route's handler. Its contract shows that the store invariant holds after
  every request, that only `users` ever grows, and that in a reachable state
  paying or deleting an order and updating or deleting a cart item always
  fail.

The model follows the code as written, quirks included:

- the update merge `{ ...req.body, ...product }` lets the stored fields win,
  and the result is never written back;
- with no matching product the update still answers 200 with the body;
- a cart item delete only stamps `updatedAt` and keeps the item;
- create product, add cart item and create order store nothing.

Three behaviours of the code worth spelling out:

- A get-by-id that finds nothing answers `{}` (serialising a property whose
  value is `undefined` drops the key), not a `null` value. The model answers
  `Product(None)` / `Order(None)`.
- The product update does not throw on a missing id.
- The cart delete stamps the item rather than doing nothing.

A handler that dereferences the `undefined` of a failed lookup is modelled as
the outcome `Failed`. Each such handler throws before its first write, so the
store is unchanged.

The library calls and the sources of nondeterminism are parameters:
`bcrypt.hash` and `bcrypt.compare` are the functions `hash` and `matches`,
`jwt.verify` is `verify` (`None` where it throws), and `crypto.randomUUID()`
and `new Date()` are values passed in (`Env`). A successful login answers
`Token(user)`: a token signed over that user record.

## Model

| member | source | states |
|---|---|---|
| Js.Assign | index.js:104-105 | assigning a property creates or overwrites that one property and leaves every other property as it was |
| Js.Spread | index.js:96 | object spread: the keys are the union; the second object's values win; spreading `undefined` copies nothing |
| Js.Split | index.js:175 | `split(' ')` gives at least one field and no field contains the separator |
| Js.JoinSplit | index.js:175 | joining the fields of a split with the separator gives back the original string |
| Js.SplitJoin | index.js:175 | splitting separator-free fields joined by the separator gives back exactly those fields |
| Js.FindIndex | index.js:57 | the result is the first position whose element satisfies the predicate; it is `undefined` exactly when no element does |
| Js.Find | index.js:89 | `find` returns the first element, in order, that satisfies the predicate; it returns `undefined` exactly when none does |
| Js.FindIndexAppend | index.js:51-57 | appending an element keeps any earlier match; the new element is found only when nothing before it matches |
| Db.SeedProducts | index.js:10-26 | the store starts with three products, each with exactly the fields id, name and price, and with the three given ids |
| Db.Store.constructor | index.js:8-31 | initial store: no users, no orders, empty cart, the three seeded products; the reachable-state invariant holds |
| Db.Store.Register | index.js:40-53 | appends exactly one user (submitted email, role `'user'`, hash of the password, fresh id, both clock readings) and answers 201 with it; products, orders and cart unchanged; invariant kept |
| Db.Store.DeleteProduct | index.js:101-107 | sets `deleted = true` and `updatedAt` on the first product with the id; no other product or field changes; answers 204; with no match it fails and changes nothing; invariant kept |
| Db.Store.UpdateCartItem | index.js:118-123 | stamps `updatedAt` on the first cart item with the id and answers 200 with the cart; fails with no match; in a reachable state always fails |
| Db.Store.DeleteCartItem | index.js:125-130 | stamps `updatedAt` on the first cart item with the id, keeps it in the cart, answers 204; fails with no match; in a reachable state always fails |
| Db.Store.PayOrder | index.js:136-141 | sets `paid = true` on the first order with the id and answers 200; fails with no match; in a reachable state always fails |
| Db.Store.DeleteOrder | index.js:153-158 | sets `deleted = true` on the first order with the id, with no timestamp, and answers 204; fails with no match; in a reachable state always fails |
| Auth.BearerToken | index.js:175-178 | no header means no token; a token is never empty and never holds a space |
| Auth.TokenAfterScheme | index.js:175 | any header made of a space-free scheme, one space, a non-empty space-free token and optionally more space-separated fields yields that token |
| Auth.TokenHasScheme | index.js:175 | conversely, every header that yields a token has exactly that shape |
| Auth.NoSpaceNoToken | index.js:175-177 | a header with no space (a bare token) yields no token: 401 "Missing token" |
| Auth.DoubleSpaceNoToken | index.js:175-177 | two spaces after the scheme leave the second field empty, which counts as a missing token |
| Auth.Request.Authenticate | index.js:174-186 | no token gives 401 "Missing token"; a token `verify` rejects gives 401 "Invalid token"; in both cases `req.user` is untouched; otherwise the decoded payload becomes `req.user` and the handler runs |
| Handlers.Login | index.js:55-66 | answers 200 with a token for the first user (in insertion order) with exactly that email, iff the password matches that user's hash; otherwise 401 "Invalid credentials"; reads the store only |
| Handlers.RegisterThenLogin | index.js:40-66 | after registering an email no user had, logging in with the same password succeeds and the token is signed over the new user |
| Handlers.LaterUserShadowed | index.js:51-57 | registering an email that is already taken has no effect on logging in with it |
| Handlers.CreateProduct | index.js:71-81 | 201 "Product created" iff the caller's role is `'admin'`, else 403 "Only admins can add products"; nothing is stored either way |
| Handlers.UpdateProduct | index.js:93-99 | always 200 with a record stamped with `updatedAt` whose keys are exactly the body's, `updatedAt` and those of the first product with the id (none when there is no such product) |
| Handlers.UpdateKeepsStoredFields | index.js:96 | every field of the first stored product with the id (other than `updatedAt`) comes back unchanged, whatever the body says |
| Handlers.UpdateAddsBodyFields | index.js:96 | a body field that the first product with the id lacks, or any body field when no product has the id, is passed through unchanged |
| Handlers.UpdateOfMissingProduct | index.js:95-98 | with no product of that id the answer is the body plus `updatedAt`, with status 200 and no error |
| Server.Handle | index.js:40-158 | the gate runs before every route except register and login, and a request it refuses leaves the store unchanged; the reply of each read-only route; the collections each route may write; lengths of products, orders and cart never change; get-by-id never fails; the store invariant is preserved; in a reachable state pay, order delete, cart update and cart delete always fail |

## Left out

- Password hashing and comparison (`bcrypt`, index.js:42, index.js:61) are
  library calls. They are the function parameters `hash` and `matches`;
  that `matches` accepts `hash`'s output is a hypothesis of
  `Handlers.RegisterThenLogin`.
- Token signing and verification (`jsonwebtoken`), the 5-minute expiry and
  the random per-process key (index.js:38, index.js:65, index.js:180) are
  library behaviour and time. Verification is the parameter `verify`, and a
  login reply names the payload that was signed, not the token string.
- `new Date()` and `crypto.randomUUID()` are nondeterministic and are passed
  in. Register's two clock readings are two separate parameters.
- Express routing, `helmet`, `morgan`, JSON body parsing, the 404 fallback, the
  500 error handler and `listen` (index.js:33-36, index.js:160-172) are HTTP
  plumbing and I/O. Whether a throw in an async handler reaches the 500 handler
  depends on the Express version. A throwing handler is therefore the abstract
  outcome `Failed`.
- The JSON serialisation of replies is not modelled: key order, dates as ISO
  strings, and keys dropped for `undefined` values.
- Concurrent requests interleaving at `await` points are not modelled; the
  model serves one request at a time.
- Product prices are JSON numbers (index.js:14, 19, 24) that nothing computes
  with. They are kept as the reals 865.99, 165.99 and 200.99.
- Request bodies whose `email` or `password` is not a string are not
  modelled. A missing password makes `bcrypt.hash` reject, and a missing email
  would be stored as `undefined`.
- A request body that is not a plain object (a JSON array) is not modelled.
- Records are values in sequences rather than shared object references. Each
  handler uses its lookup result only within itself, so no aliasing is lost.
- The product object that create-product builds and throws away
  (index.js:76-79) has no effect and is not modelled.
- Server.Handle: for the routes that write, it states only which collection
  changes, that lengths are kept and that the invariant holds. The exact new
  records are given by the `Store` method each route calls.
