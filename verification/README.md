# Record store and admin gate of the scabimpex storefront server

The storefront server keeps four resources (products, contact messages,
cart submissions and buy-now requests), each as one JSON array file under
`./data`. Every handler that changes a resource reads the whole array,
changes it in memory (`push` of a new record with a fresh id, or `filter`
by id), and writes the whole array back. Messages, carts and buy requests
read a missing file as `[]`; the product file has no such fallback, so
reading it when it is absent throws. Products at positions 0, 1 and 2 are
the featured homepage products: a delete whose first match (`findIndex`)
is one of them is refused with 403 and nothing is written. Public forms
(contact, cart, buy now) are checked for required fields with JavaScript
truthiness. A new product's image list is its uploaded files
(`/uploads/<filename>`), then the trimmed typed-in link or links. Admin
routes are behind a session flag `isLoggedIn`, set by a login with the one
configured credential pair and cleared by logout.

The model, module by module:

- `Values` (values.dfy): request-body values (`Value`), JavaScript
  truthiness (`Truthy`), and `String.prototype.trim` over the ECMAScript
  whitespace and line-terminator characters.
- `Records` (records.dfy): the four record kinds as one `Record` datatype
  with a shared `id`, and `filter`/`find`/`findIndex` by id as functions
  on `seq<Record>` with their properties.
- `Catalog` (catalog.dfy): the featured-product delete rule
  (`ProductDelete`) and the image-list assembly, an imperative method
  (`AssembleImages`) proved against `ImageList`.
- `Store` (store.dfy): class `JsonFile`, one resource file, whose field
  `data: Option<seq<Record>>` is `None` while the file does not exist;
  `Append` and `DeleteById` are the load/change/overwrite sequences.
- `Sessions` (sessions.dfy): class `Session` with the `isLoggedIn` flag,
  the login and logout transitions, and a lemma about any sequence of
  them.
- `Handlers` (handlers.dfy): the route bodies, each returning a
  `Response` (status, redirect target or view) and changing only the
  files it writes.

The model keeps these details of the code: a failed login leaves the flag
as it was (it is not reset to logged-out); a delete removes every record
with the id; deleting an absent message, cart or buy
request still rewrites the file, and creates it as `[]` when it did not
exist (a product delete without `products.json` fails with a 500
instead); the buy-now handler reads the product file
before it validates the form, so a missing product file is a 500 even for
an incomplete form.

## Model

| member | source | states |
|---|---|---|
| Values.Truthy | server.js:76 | `!v` in the required-field checks (also lines 174 and 212): falsy exactly for a missing field, `null`, `false`, `0` and the empty string; arrays and objects are truthy |
| Values.TruthyString | server.js:76 | for a string-or-missing field, truthiness is exactly "present and non-empty" |
| Values.LeadingWhitespace | server.js:147 | the leading run that `trim` removes: all whitespace, and the next character is not |
| Values.TrailingWhitespace | server.js:147 | the trailing run that `trim` removes: all whitespace, and the character before it is not |
| Values.Trim | server.js:147 | `link.trim()` (also line 149): the result is a contiguous middle of the link, only whitespace is dropped on either side, and it neither starts nor ends with whitespace |
| Values.TrimEmptyIff | server.js:147 | a link trims to the empty string exactly when it is all whitespace |
| Values.TrimIdempotent | server.js:149 | trimming a trimmed link changes nothing |
| Records.CountId | server.js:166 | the number of records with an id is at most the length, and zero exactly when the id is absent |
| Records.RemoveId | server.js:125 | `filter(m => m.id !== id)`: no kept record has the id, and the list shrinks by exactly the number of matches |
| Records.RemoveIdAppend | server.js:125 | filtering distributes over concatenation, so kept records stay in their original order |
| Records.RemoveIdSingle | server.js:194 | a single record is kept exactly when its id differs |
| Records.RemoveIdMembers | server.js:194 | a record survives the delete iff it was present and its id differs |
| Records.RemoveIdMultiset | server.js:238 | each kept record occurs as often as before; records with the id occur zero times |
| Records.RemoveIdIdentity | server.js:238 | deleting an id no record has leaves the list unchanged |
| Records.RemoveIdUnchangedIff | server.js:125 | the delete leaves the list unchanged iff the id is absent |
| Records.RemoveIdIdempotent | server.js:125 | deleting the same id twice is deleting it once |
| Records.UniqueCount | server.js:166 | with unique ids, a present id matches exactly one record |
| Records.RemoveIdKeepsUnique | server.js:125 | a delete keeps ids unique |
| Records.AppendFreshKeepsUnique | server.js:81 | appending a record whose id is fresh keeps ids unique |
| Records.DeleteUndoesAppend | server.js:180-182 | deleting the id of a record appended with a fresh id restores the earlier list |
| Records.FirstIndex | server.js:160 | `findIndex`: -1 iff no record has the id; otherwise that record has it and no earlier one does |
| Records.Find | server.js:63-64 | `find`: absent iff `findIndex` is -1, otherwise the record at `findIndex` |
| Records.FindByValue | server.js:210 | `find` keyed by a request field: a match needs the field to be that id as a string, and it is the first record with that id (at `findIndex`); none iff the field is not a string or no record has it |
| Catalog.ProductDelete | server.js:160-167 | the delete is refused iff one of positions 0-2 holds the id (`findIndex` finds the first match, so that is where the first match is); otherwise the new list is the `filter` without every product with the id |
| Catalog.ProductDeleteKeepsFeatured | server.js:160-167 | a delete that goes through keeps the first three products, in order |
| Catalog.ProductDeleteAbsent | server.js:165-167 | deleting an absent product id passes the featured check and rewrites the unchanged list |
| Catalog.ProductDeleteShrinks | server.js:166-167 | a delete that goes through removes all matches and nothing else; with unique ids and a present id, exactly one |
| Catalog.DeleteFourthOfFour | server.js:158-169 | four products with distinct ids: deleting the fourth succeeds and leaves the first three |
| Catalog.DeleteOnlyProductRefused | server.js:162-163 | deleting the only product (position 0) is refused |
| Catalog.TrimAll | server.js:149 | `imageLinks.map(link => link.trim())`: fails iff some item is not a string, else each item trimmed, in order |
| Catalog.LinkImages | server.js:146-150 | the images a link field contributes: a non-empty string gives itself trimmed, an empty string nothing, an array each item trimmed in order, any other value nothing; a non-string array item is the throw |
| Catalog.ImageList | server.js:140-150 | the stored images are one `/uploads/` path per file in order, then the links; length is files plus links |
| Catalog.TrimLinks | server.js:149 | the trimming loop over an array of links yields exactly `TrimAll`: each item trimmed, or the throw at a non-string item |
| Catalog.AssembleImages | server.js:140-150 | the image list is built upload paths first, then the trimmed string link or each trimmed array link; a non-string array item throws |
| Store.JsonFile.LoadOrEmpty | server.js:78-79 | a missing messages/carts/buy-requests file loads as the empty array, otherwise as its contents |
| Store.JsonFile.Load | server.js:57 | loading the product file fails exactly when it is missing |
| Store.JsonFile.Save | server.js:82 | a write replaces the whole file |
| Store.JsonFile.Append | server.js:80-82 | the file becomes the old contents plus the new record at the end: one longer, earlier records unchanged; with a fresh id ids stay unique and deleting that id restores the old contents |
| Store.JsonFile.DeleteById | server.js:124-126 | the file becomes the old contents without every record with the id, written even when nothing matched |
| Sessions.CredentialsMatch | server.js:91 | `===` on both fields: the login succeeds only when both are strings equal to the one configured user name and password |
| Sessions.Step | server.js:91-100 | one event on the flag: logout clears it, a correct login sets it, a wrong login leaves it as it was |
| Sessions.Run | server.js:91-100 | the flag after a sequence of events: false after a trailing logout, unchanged by a sequence of wrong logins only |
| Sessions.GateAfterTrace | server.js:91-100 | from a new session, the gate admits after a sequence of logins and logouts iff a correct login happened with no logout after it |
| Sessions.Session.constructor | server.js:14-18 | a new session is not logged in |
| Sessions.Session.AdminAuth | server.js:39-42 | the admin gate lets a request through exactly when the session's flag is set |
| Sessions.Session.Login | server.js:89-97 | the flag is set only on an exact match of both credentials, otherwise left as it was |
| Sessions.Session.Logout | server.js:99-101 | logout returns the session to not logged in |
| Handlers.ContactComplete | server.js:76 | a missing or empty name, email or message fails the contact check; for string fields it passes iff all three are non-empty |
| Handlers.CartComplete | server.js:174 | a cart that is not an array or is empty fails, a missing or empty contact fails; for a non-empty cart and a string contact it passes iff the contact is non-empty |
| Handlers.OrEmpty | server.js:180 | the cart message default: a truthy message is kept, a falsy one becomes the empty string |
| Handlers.ProductsPage | server.js:56-59 | renders all products; a missing product file is a 500 |
| Handlers.ProductDetail | server.js:61-66 | renders the first product with the id, 404 when none has it, 500 without a product file |
| Handlers.ApiProducts | server.js:68-71 | answers the whole product array; a missing product file is a 500 |
| Handlers.Contact | server.js:74-84 | a missing or empty name, email or message gives 400 and no write; otherwise the message is appended and 200 sent |
| Handlers.AdminLogin | server.js:89-97 | a correct login sets the flag and redirects to the dashboard; a wrong one re-renders the login page and leaves the flag |
| Handlers.AdminLogout | server.js:99-101 | after logout the session is not logged in and the client goes to the login page |
| Handlers.AdminDashboard | server.js:104-114 | behind the gate, the counts of messages, carts and buy requests, absent files counting zero |
| Handlers.AdminList | server.js:117-120 | behind the gate, a list page of messages (likewise carts, lines 187-190, and buy requests, lines 225-228), an absent file listing empty |
| Handlers.AdminProducts | server.js:131-134 | behind the gate, the product list page; a missing product file is a 500 |
| Handlers.AdminDelete | server.js:122-128 | behind the gate, a message (likewise cart, lines 192-197, and buy request, lines 230-241) delete rewrites the file without every record with the id; without a login nothing is written |
| Handlers.AdminAddProduct | server.js:138-156 | behind the gate, appends a product with the fresh id and the assembled images; a non-string link or a missing product file is a 500 with no write |
| Handlers.AdminDeleteProduct | server.js:158-169 | behind the gate, 403 with no write when the first match is featured, otherwise the file is rewritten without every product with the id |
| Handlers.SendCart | server.js:172-184 | a cart that is not a non-empty array, or a falsy contact, gives 400 and no write; otherwise the cart is appended with its message defaulting to '' |
| Handlers.BuyNowPage | server.js:200-205 | renders the first product whose id equals the query field, 404 when there is none |
| Handlers.BuyNow | server.js:207-223 | 400 and no write unless name and contact are truthy and productId names a product; otherwise the request is appended with a copy of the first matching product |

## Left out

- Express routing, EJS rendering, `sendFile` static pages, the `/about` redirect and the catch-all 404 route: a `Response` names only the status, the redirect target or the view and the records it lists; the texts of error messages are not modelled.
- Real file I/O and `JSON.parse`/`JSON.stringify`: a file is an optional sequence of records. A file holding malformed JSON is an uncaught fatal error with nothing to specify, and is not modelled.
- `generateId` (`utils/generateId` is not part of this model): each handler that creates a record takes the new id as a parameter. Uniqueness of ids is stated as lemmas that assume the id is fresh, not enforced by the handlers.
- Timestamps (`new Date().toISOString()`, `Date.now()` in upload file names) are opaque parameters; uploaded file names are given as they come from the upload middleware.
- Multer disk storage and the creation of `public/uploads/`: filesystem side effects of the upload middleware, which runs before the add-product handler.
- Session middleware internals and its secret: a session is one object with the `isLoggedIn` flag; `destroy` is modelled as the flag being cleared, since the next request starts a fresh session.
- Lost updates between concurrent requests: each handler is modelled as running alone; the whole-file overwrite without locking is a concurrency matter.
- Record ids: every record's id is assumed to be a string. Messages, carts and buy requests get theirs from `generateId`. Products are never created by the server from nothing: every product route reads `products.json` first and fails when it is absent, so every product id, including the three featured ones, comes from the hand-written seed file. A product with a numeric or missing id is not representable. The route-parameter comparisons (server.js lines 63, 125, 160, 166, 194, 238) could never match such a product, but the two buy-now lookups could. At line 202 a request without `id` in the query compares `undefined === undefined` and matches a product that has no id. At line 210 a numeric `productId` in a JSON body matches a product with that numeric id. `Records.FindByValue`'s "a non-string key never matches" therefore holds only under this string-id assumption.
- Numbers in request fields: JavaScript numbers are modelled as integers, so floating point, `NaN` and `-0` (both falsy) are not represented.
