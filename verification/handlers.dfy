/** The route handlers of the server, reduced to what they do with the
    resource files and the session: which file is read, what is written
    back, and which response is sent. Rendering, static files and routing
    are not modelled; a response names only the view or the status. */
module Handlers {
  import opened Values
  import opened Records
  import opened Catalog
  import opened Store
  import opened Sessions

  const LoginPath := "/admin/login"

  datatype Response =
    | Ack(status: nat, success: bool)            // `res.status(..).json({ success, ... })`
    | Text(status: nat)                          // `res.status(..).send(...)`
    | Redirect(location: string)                 // `res.redirect(...)`
    | Page(view: string, shown: seq<Record>)     // `res.render(view, ...)` with the records it lists
    | Dashboard(messages: nat, carts: nat, buys: nat)
    | ProductList(products: seq<Record>)         // `res.json(products)`
    | InternalError                              // an uncaught throw; Express answers 500

  /** Contact form: name, email and message must all be truthy. */
  predicate ContactComplete(name: Value, email: Value, message: Value)
    ensures ContactComplete(name, email, message) ==>
              && name !in [Undefined, Str("")] && email !in [Undefined, Str("")] && message !in [Undefined, Str("")]
    ensures name.Str? && email.Str? && message.Str? ==>
              (ContactComplete(name, email, message) <==> name.s != "" && email.s != "" && message.s != "")
  {
    Truthy(name) && Truthy(email) && Truthy(message)
  }

  /** Cart form: `cart` must be a non-empty array and `contact` truthy. */
  predicate CartComplete(cart: Value, contact: Value)
    ensures !cart.Arr? || cart.items == [] ==> !CartComplete(cart, contact)
    ensures CartComplete(cart, contact) ==> contact !in [Undefined, Str("")]
    ensures cart.Arr? && cart.items != [] && contact.Str? ==> (CartComplete(cart, contact) <==> contact.s != "")
  {
    cart.Arr? && |cart.items| > 0 && Truthy(contact)
  }

  /** `message || ''`: a falsy message is stored as the empty string. */
  function OrEmpty(message: Value): (r: Value)
    ensures Truthy(message) ==> r == message
    ensures !Truthy(message) ==> r == Str("")
    ensures r.Str? || Truthy(r)
  {
    if Truthy(message) then message else Str("")
  }

  // ===== Product pages =====

  /** `GET /products`: render every product; the file must exist. */
  method ProductsPage(products: JsonFile) returns (resp: Response)
    ensures products.data.None? ==> resp == InternalError
    ensures products.data.Some? ==> resp == Page("products", products.data.value)
  {
    var loaded := products.Load();
    if loaded.None? {
      return InternalError;
    }
    resp := Page("products", loaded.value);
  }

  /** `GET /product-detail/:id`: the first product with the id, or 404. */
  method ProductDetail(products: JsonFile, id: string) returns (resp: Response)
    ensures products.data.None? ==> resp == InternalError
    ensures products.data.Some? && !HasId(products.data.value, id) ==> resp == Text(404)
    ensures products.data.Some? && HasId(products.data.value, id) ==>
              var k := FirstIndex(products.data.value, id);
              resp == Page("product-detail", [products.data.value[k]])
  {
    var loaded := products.Load();
    if loaded.None? {
      return InternalError;
    }
    var product := Find(loaded.value, id);
    if product.None? {
      return Text(404);
    }
    resp := Page("product-detail", [product.value]);
  }

  /** `GET /api/products`: the product array as JSON. */
  method ApiProducts(products: JsonFile) returns (resp: Response)
    ensures products.data.None? ==> resp == InternalError
    ensures products.data.Some? ==> resp == ProductList(products.data.value)
  {
    var loaded := products.Load();
    if loaded.None? {
      return InternalError;
    }
    resp := ProductList(loaded.value);
  }

  // ===== Contact form =====

  /** `POST /contact`: a complete submission is appended to the messages
      file with a fresh id and the current time; an incomplete one is
      answered 400 and nothing is written. */
  method Contact(messages: JsonFile, name: Value, email: Value, message: Value, freshId: string, now: string)
    returns (resp: Response)
    modifies messages
    ensures !ContactComplete(name, email, message) ==>
              resp == Ack(400, false) && messages.data == old(messages.data)
    ensures ContactComplete(name, email, message) ==>
              && resp == Ack(200, true)
              && messages.data == Some(old(messages.Contents()) + [Message(freshId, name, email, message, now)])
  {
    if !Truthy(name) || !Truthy(email) || !Truthy(message) {
      return Ack(400, false);
    }
    messages.Append(Message(freshId, name, email, message, now));
    resp := Ack(200, true);
  }

  // ===== Admin login and logout =====

  /** `POST /admin/login`: on a match, set the flag and go to the dashboard;
      otherwise re-render the login page with an error. */
  method AdminLogin(session: Session, username: Value, password: Value) returns (resp: Response)
    modifies session
    ensures session.isLoggedIn == Step(old(session.isLoggedIn), LoginAttempt(username, password))
    ensures resp == if CredentialsMatch(username, password) then Redirect("/admin") else Page("admin-login", [])
  {
    var accepted := session.Login(username, password);
    if accepted {
      resp := Redirect("/admin");
    } else {
      resp := Page("admin-login", []);
    }
  }

  /** `GET /admin/logout`: destroy the session, go to the login page. */
  method AdminLogout(session: Session) returns (resp: Response)
    modifies session
    ensures !session.isLoggedIn
    ensures resp == Redirect(LoginPath)
  {
    session.Logout();
    resp := Redirect(LoginPath);
  }

  // ===== Admin pages that only read =====

  /** `GET /admin`: the number of messages, carts and buy requests, each
      absent file counting as empty. */
  method AdminDashboard(session: Session, messages: JsonFile, carts: JsonFile, buys: JsonFile)
    returns (resp: Response)
    ensures !session.AdminAuth() ==> resp == Redirect(LoginPath)
    ensures session.AdminAuth() ==>
              resp == Dashboard(|messages.Contents()|, |carts.Contents()|, |buys.Contents()|)
  {
    if !session.AdminAuth() {
      return Redirect(LoginPath);
    }
    var m := messages.LoadOrEmpty();
    var c := carts.LoadOrEmpty();
    var b := buys.LoadOrEmpty();
    resp := Dashboard(|m|, |c|, |b|);
  }

  /** `GET /admin/messages`, `/admin/carts`, `/admin/buy-requests`: list a
      resource, an absent file listing as empty. */
  method AdminList(session: Session, file: JsonFile, view: string) returns (resp: Response)
    ensures !session.AdminAuth() ==> resp == Redirect(LoginPath)
    ensures session.AdminAuth() ==> resp == Page(view, file.Contents())
  {
    if !session.AdminAuth() {
      return Redirect(LoginPath);
    }
    var rs := file.LoadOrEmpty();
    resp := Page(view, rs);
  }

  /** `GET /admin/products`: the product file has no fallback. */
  method AdminProducts(session: Session, products: JsonFile) returns (resp: Response)
    ensures !session.AdminAuth() ==> resp == Redirect(LoginPath)
    ensures session.AdminAuth() && products.data.None? ==> resp == InternalError
    ensures session.AdminAuth() && products.data.Some? ==> resp == Page("admin-products", products.data.value)
  {
    if !session.AdminAuth() {
      return Redirect(LoginPath);
    }
    var loaded := products.Load();
    if loaded.None? {
      return InternalError;
    }
    resp := Page("admin-products", loaded.value);
  }

  // ===== Admin deletes of messages, carts and buy requests =====

  /** `POST /admin/delete-message/:id`, `/admin/delete-cart/:id` and
      `/admin/delete-buy-request/:id`: behind the gate, rewrite the file
      without every record carrying the id (an absent file is written as
      the empty array), then go back to the list. */
  method AdminDelete(session: Session, file: JsonFile, id: string, listPath: string) returns (resp: Response)
    modifies file
    ensures !session.AdminAuth() ==> resp == Redirect(LoginPath) && file.data == old(file.data)
    ensures session.AdminAuth() ==>
              resp == Redirect(listPath) && file.data == Some(RemoveId(old(file.Contents()), id))
  {
    if !session.AdminAuth() {
      return Redirect(LoginPath);
    }
    file.DeleteById(id);
    resp := Redirect(listPath);
  }

  // ===== Product admin =====

  /** `POST /admin/add-product`: assemble the images (a non-string link
      throws), read the product file (which must exist), append the new
      product with a fresh id, write the file. */
  method AdminAddProduct(session: Session, products: JsonFile,
                         title: Value, description: Value, price: Value,
                         files: seq<string>, imageLinks: Value, freshId: string)
    returns (resp: Response)
    modifies products
    ensures !session.AdminAuth() ==> resp == Redirect(LoginPath) && products.data == old(products.data)
    ensures session.AdminAuth() && (LinkImages(imageLinks).None? || old(products.data).None?) ==>
              resp == InternalError && products.data == old(products.data)
    ensures session.AdminAuth() && LinkImages(imageLinks).Some? && old(products.data).Some? ==>
              var images := ImageList(files, LinkImages(imageLinks).value);
              && resp == Redirect("/admin/products")
              && products.data == Some(old(products.data.value) + [Product(freshId, title, description, price, images)])
  {
    if !session.AdminAuth() {
      return Redirect(LoginPath);
    }
    var images := AssembleImages(files, imageLinks);
    if images.None? {
      return InternalError;
    }
    var loaded := products.Load();
    if loaded.None? {
      return InternalError;
    }
    products.Save(loaded.value + [Product(freshId, title, description, price, images.value)]);
    resp := Redirect("/admin/products");
  }

  /** `POST /admin/delete-product/:id`: read the products (the file must
      exist); if the first product with the id is featured, answer 403 and
      write nothing; otherwise rewrite the file without every product
      carrying the id. */
  method AdminDeleteProduct(session: Session, products: JsonFile, id: string) returns (resp: Response)
    modifies products
    ensures !session.AdminAuth() ==> resp == Redirect(LoginPath) && products.data == old(products.data)
    ensures session.AdminAuth() && old(products.data).None? ==>
              resp == InternalError && products.data == old(products.data)
    ensures session.AdminAuth() && old(products.data).Some? ==>
              match ProductDelete(old(products.data.value), id)
              case Refused => resp == Text(403) && products.data == old(products.data)
              case Rewritten(rest) => resp == Redirect("/admin/products") && products.data == Some(rest)
  {
    if !session.AdminAuth() {
      return Redirect(LoginPath);
    }
    var loaded := products.Load();
    if loaded.None? {
      return InternalError;
    }
    var targetIndex := FirstIndex(loaded.value, id);
    if targetIndex >= 0 && targetIndex < FeaturedCount {
      return Text(403);
    }
    products.Save(RemoveId(loaded.value, id));
    resp := Redirect("/admin/products");
  }

  // ===== Cart sent to the admin =====

  /** `POST /api/send-cart`: a non-empty cart array with a truthy contact
      is appended to the carts file, its message defaulting to ''. */
  method SendCart(carts: JsonFile, cart: Value, contact: Value, message: Value, freshId: string, now: string)
    returns (resp: Response)
    modifies carts
    ensures !CartComplete(cart, contact) ==> resp == Ack(400, false) && carts.data == old(carts.data)
    ensures CartComplete(cart, contact) ==>
              && resp == Ack(200, true)
              && carts.data == Some(old(carts.Contents()) + [CartSubmission(freshId, contact, OrEmpty(message), cart.items, now)])
  {
    if !cart.Arr? || |cart.items| == 0 || !Truthy(contact) {
      return Ack(400, false);
    }
    carts.Append(CartSubmission(freshId, contact, OrEmpty(message), cart.items, now));
    resp := Ack(200, true);
  }

  // ===== Buy now =====

  /** `GET /buy-now?id=`: the first product whose id equals the query
      field, or 404. */
  method BuyNowPage(products: JsonFile, queryId: Value) returns (resp: Response)
    ensures products.data.None? ==> resp == InternalError
    ensures products.data.Some? && FindByValue(products.data.value, queryId).None? ==> resp == Text(404)
    ensures products.data.Some? && FindByValue(products.data.value, queryId).Some? ==>
              var p := FindByValue(products.data.value, queryId).value;
              resp == Page("buy-now", [p]) && p in products.data.value && queryId == Str(p.id)
  {
    var loaded := products.Load();
    if loaded.None? {
      return InternalError;
    }
    var product := FindByValue(loaded.value, queryId);
    if product.None? {
      return Text(404);
    }
    resp := Page("buy-now", [product.value]);
  }

  /** `POST /buy-now`: the products are read first (the file must exist);
      name and contact must be truthy and productId must name a product;
      the request is appended with a copy of that first matching product. */
  method BuyNow(products: JsonFile, buys: JsonFile,
                name: Value, contact: Value, message: Value, productId: Value,
                freshId: string, now: string)
    returns (resp: Response)
    modifies buys
    ensures old(products.data).None? ==> resp == InternalError && buys.data == old(buys.data)
    ensures old(products.data).Some? ==>
              var product := FindByValue(old(products.data.value), productId);
              if !Truthy(name) || !Truthy(contact) || product.None? then
                resp == Ack(400, false) && buys.data == old(buys.data)
              else
                && resp == Ack(200, true)
                && buys.data == Some(old(buys.Contents()) + [BuyRequest(freshId, name, contact, message, product.value, now)])
  {
    var loaded := products.Load();
    if loaded.None? {
      return InternalError;
    }
    var product := FindByValue(loaded.value, productId);
    if !Truthy(name) || !Truthy(contact) || product.None? {
      return Ack(400, false);
    }
    buys.Append(BuyRequest(freshId, name, contact, message, product.value, now));
    resp := Ack(200, true);
  }
}
