# PlantyOfFood API: validation and decision layer

This project models the request-handling core of the PlantyOfFood REST API. The API keeps three
collections: products, users and orders. An order lists product ids and user ids, plus a
`YYYY-MM-DD` date.

The model covers five parts, each written as pure Dafny functions over immutable data:

- **String helpers** (`Text`): `capitalizedFirstLetter`, the product-name normaliser, and
  `defaultDate`, the default date of a new order. The clock is replaced by year, month and day
  arguments.
- **Request rule tables and their validator** (`Rules`, `OrderSchema`, `UserSchema`,
  `ProductSchema`).
  - Each table is data: a list of field rules in declaration order.
  - One generic validator, `Rules.Validate`, reports the first violation as a `Messages.Message`.
  - Each entity module proves what its tables accept, in plain predicates, and which message each
    kind of bad body gets.
- **Identity checks** shared by the three controller utility files (`Http`, `OrderUtils`): id
  format, not-found, mapping of store errors to 409/500, and the ordered existence scan
  `isIdExists`.
- **The handler pipelines** (`Handlers`, `ProductController`, `UserController`,
  `OrderController`). Each handler is a function from a request and the collections to an
  `Outcome`, the response plus the collection afterwards.
- **The `getOrders` filter builder** (`OrderQuery`).

How the store and the messages are represented:

- A collection is a `map<Id, R>` keyed by the lower-case spelling of the 24-hex id. The store casts
  ids to ObjectIds, so two spellings that differ in hex-digit case name the same record.
- `newId` is the id the store assigns on creation. `fault` is an error the store throws at the
  handler's persistence call.
- Messages are values of `Messages.Message`, and `Messages.Text` gives the exact wording of each.

The rule tables' validator reports one violation. The declared fields are checked first, in
declaration order. An undeclared key is reported only once every declared field conforms, and the
undeclared keys are taken in `Object.keys` order: keys that are array indices ("0", "42") in
ascending numeric order, then the other keys in the order they were written.

## Model

| member | source | states |
|---|---|---|
| Text.Trim | models/utils.js:2 | the result has no whitespace at either end; it is the slice of the input after its leading whitespace, and only whitespace follows it |
| Text.TrimOfPadded | models/utils.js:2 | whitespace around an unpadded middle is exactly what trimming removes |
| Text.TrimUnpadded | models/utils.js:2 | a value with no whitespace at either end is its own trim |
| Text.CapitalizedFirstLetter | models/utils.js:1-4 | only defined on a value that is not blank, where the source would throw; the result has the trimmed length, the first trimmed character upper-cased and every other one lower-cased |
| Text.CapitalizedIsUnpadded | models/utils.js:2-3 | the normalised name has no whitespace at either end |
| Text.CapitalizedIdempotent | models/utils.js:1-4 | normalising a normalised name changes nothing |
| Text.CapitalizedEqualIff | models/utils.js:2-3 | two values normalise to the same name exactly when they agree up to ASCII case and surrounding whitespace |
| Text.NatToString | models/utils.js:12 | the template-literal form of a number is a run of decimal digits, with no leading zero, whose value is the number; it is one character exactly below 10 |
| Text.NatToStringOfDecimal | models/utils.js:12 | a digit string without leading zeros is the template-literal form of its own value |
| Text.PaddedMonth | models/utils.js:10 | the month is written as digits of its own value, always two digits for months below 100 |
| Text.DefaultDateLayout | models/utils.js:6-13 | the default date reads back as year digits, a dash, a two-digit month, a dash and the day; the day is not padded, so the date is one character short exactly on days 1 to 9 |
| Patterns.DateMeansRanges | models/orderSchema.js:62 | the date pattern accepts exactly ten characters: four digits, a dash, a month 01-12, a dash, a day 01-31, with no check of the day against the month |
| Patterns.EmailHasOneAt | models/userSchema.js:62 | an accepted address holds exactly one `@` |
| Patterns.EmailLower | models/userSchema.js:25-26 | lower-casing never changes whether an address matches the e-mail pattern |
| Rules.StringError | models/orderSchema.js:26-34 | a string rule reports nothing exactly when the value is a string that is not empty after the rule's conversion and matches its pattern |
| Rules.FirstBadItem | models/orderSchema.js:25-35 | the position of the first array element breaking the item rule, with every earlier one passing; nothing when all pass |
| Rules.KindError | models/orderSchema.js:22-40 | a present value gets no message exactly when it has the field's kind: a conforming string, or an array long enough whose every element conforms |
| Rules.FieldError | models/orderSchema.js:22-40 | a field gets no message exactly when it is absent and optional, or present and of its kind |
| Rules.FirstBadField | models/orderSchema.js:21-68 | the first declared field that does not conform, every earlier one conforming; nothing when all conform |
| Rules.FirstUnknownMember | models/orderSchema.js:69-72 | an undeclared member exactly when one exists, and `Object.keys` lists every other undeclared member no earlier: array-index keys in ascending numeric order first, then the rest as written |
| Rules.Validate | controller/order/utils.js:1-7 | the validator reports nothing exactly when every declared field conforms and no undeclared key is present |
| Rules.ValidateReportsFirstBadField | controller/order/utils.js:2-4 | when the fields before field i conform and field i does not, the one message reported is field i's |
| Rules.ValidateReportsFirstUnknownKey | models/orderSchema.js:69-72 | once every declared field conforms, the undeclared key listed first in `Object.keys` order is the one reported |
| Json.ListedOrderTotal | models/orderSchema.js:69-72 | the `Object.keys` listing order is total, and two members each listed no later than the other have the same key, so the key reported as not allowed is determined |
| Rules.ArrayReportsFirstBadItem | models/orderSchema.js:25-35 | a long-enough array reports the message of its first bad element |
| Rules.RelaxedAcceptsMore | models/userSchema.js:75-106 | a table with nothing required accepts all the creation table accepts and the empty body; on a body holding every declared key, both tables report the same message |
| OrderSchema.PutIsRelaxedPost | models/orderSchema.js:74-123 | the order update table is the creation table with nothing required |
| OrderSchema.PostAcceptsIff | models/orderSchema.js:21-72 | the creation table accepts a body exactly when both id lists are present, non-empty and made of 24-hex strings, any date matches the pattern, and no other key appears |
| OrderSchema.PutAcceptsIff | models/orderSchema.js:74-123 | the update table accepts the same bodies with every field optional, so `{}` is accepted |
| OrderSchema.PostMissingList | models/orderSchema.js:21-59 | a missing `products` is reported as required; so is a missing `users` once `products` is acceptable |
| OrderSchema.EmptyList | models/orderSchema.js:21-59 | an empty `products`, or an empty `users` after an acceptable `products`, is reported as too short, by either table |
| OrderSchema.BadProductId | models/orderSchema.js:25-35 | the first bad product id is reported: a non-string as such, `""` as empty, any other string quoted verbatim as a format error |
| OrderSchema.BadUserId | models/orderSchema.js:44-54 | the same for the first bad user id, once `products` is acceptable |
| OrderSchema.BadDate | models/orderSchema.js:60-67 | once both lists are acceptable, an empty date is reported as empty and any other non-matching date as a format error |
| OrderSchema.UnknownKey | models/orderSchema.js:69-72 | once the declared fields are acceptable, the key outside products, users and date that `Object.keys` lists first is reported as not allowed |
| OrderSchema.IndexKeyNamedFirst | models/orderSchema.js:69-72 | with valid lists, `{"products": [id], "users": [id], "x": 1, "0": 1}` is refused for "0", the array-index key, not for "x" written before it |
| OrderSchema.KeysOf | models/orderSchema.js:7-8 | an id list is stored as the canonical keys of its ids, in order, and is never empty |
| OrderSchema.NewOrder | models/orderSchema.js:5-12 | a created order holds the canonical keys of both lists, and the given date or, when none is given, the default date of the day |
| OrderSchema.UpdateOrder | controller/order/orderController.js:59 | each field the update body gives replaces the stored one; the others are kept |
| OrderSchema.RecordsOk | models/orderSchema.js:5-13 | created orders, and valid updates of stored orders, have non-empty lists of canonical keys |
| OrderSchema.DefaultDateMatchesIff | models/utils.js:12 | for a four-digit year, the default date matches the order date pattern exactly when the day is 10 or more |
| UserSchema.PutIsRelaxedPost | models/userSchema.js:75-106 | the user update table is the creation table with nothing required |
| UserSchema.PostAcceptsIff | models/userSchema.js:36-73 | the creation table accepts a body exactly when both names are strings of 2 to 25 characters with no line terminator, the address matches the e-mail pattern, and no other key appears |
| UserSchema.PutAcceptsIff | models/userSchema.js:75-106 | the update table accepts the same bodies with every field optional, so `{}` is accepted |
| UserSchema.PostMissingField | models/userSchema.js:36-69 | a missing field is reported as required, in the order name, last name, e-mail |
| UserSchema.BadName | models/userSchema.js:37-47 | a non-string name, an empty one and one of the wrong length each get their own message |
| UserSchema.BadLastName | models/userSchema.js:48-58 | the same for the last name, once the name is acceptable |
| UserSchema.BadEmail | models/userSchema.js:59-68 | the same for the address, once both names are acceptable |
| UserSchema.UnknownKey | models/userSchema.js:70-73 | once the declared fields are acceptable, the key outside name, last name and e-mail that `Object.keys` lists first is reported as not allowed |
| UserSchema.NewUser | models/userSchema.js:5-27 | a created user keeps the names as given and stores the address lower-cased |
| UserSchema.UpdateUser | controller/user/userController.js:39-41 | each field the update body gives replaces the stored one, the address lower-cased; the others are kept |
| UserSchema.RecordsOk | models/userSchema.js:21-27 | created users, and valid updates of stored users, have valid names and a valid lower-case address |
| UserSchema.StoreKeepsUsersOk | models/userSchema.js:21-27 | storing a well-formed user whose address no other user has keeps every user well formed and all addresses distinct |
| UserSchema.RemoveKeepsUsersOk | controller/user/userController.js:55 | removing a user keeps the collection well formed |
| UserSchema.EmailTakenIff | models/userSchema.js:24-25 | a new address collides with a stored one exactly when the two agree up to ASCII case |
| ProductSchema.AcceptsIff | models/productSchema.js:21-31 | the product table accepts a body exactly when `name` is a string that is not blank and no other key appears |
| ProductSchema.BadName | models/productSchema.js:22-26 | a missing name, a non-string name and a blank one each get their own message |
| ProductSchema.UnknownKey | models/productSchema.js:28-31 | once the name is acceptable, the other key that `Object.keys` lists first is reported as not allowed |
| ProductSchema.NewProduct | models/productSchema.js:7-12 | the stored name is in normal form and equals the given name up to case and surrounding whitespace |
| ProductSchema.NormalNameUnique | models/productSchema.js:10-11 | two names in normal form are equal exactly when they agree up to case and surrounding whitespace |
| ProductSchema.NameTakenIff | models/productSchema.js:10-11 | a new name collides with a stored one exactly when the two agree up to ASCII case and surrounding whitespace |
| ProductSchema.StoreKeepsProductsOk | models/productSchema.js:7-12 | storing a normal-form name no other product has keeps every name normal and all names distinct |
| ProductSchema.RemoveKeepsProductsOk | controller/product/productController.js:51 | removing a product keeps the collection well formed |
| Http.ValidateRequest | controller/order/utils.js:1-7 | a 400 carrying the first violation's message exactly when the body does not conform; nothing otherwise |
| Http.CheckIdFormat | controller/order/utils.js:9-16 | nothing exactly when the id is 24 hex digits; otherwise a 400 naming the entity and quoting the id |
| Http.CheckFound | controller/order/utils.js:18-25 | a 404 naming the entity and the id exactly when no record was found; nothing otherwise |
| Http.HandleError | controller/product/utils.js:9-17 | a duplicate-key error is a 409 with the entity's conflict message; any other error is a 500 with its own text |
| Http.FindIgnoresCase | controller/order/orderController.js:97 | two spellings of an id that differ only in letter case find the same record, and a record stored under its canonical key is found by it, as the ObjectId cast makes the lookup |
| Handlers.GetById | controller/order/orderController.js:91-106 | bad format 400, then store fault 500, then 404 when absent, else 200 with the record; the store is untouched |
| Handlers.DeleteById | controller/order/orderController.js:73-89 | 200 exactly when the id is well formed, nothing faults and the record exists; then the record read before deletion is returned and only it is removed; otherwise nothing changes |
| Handlers.ListAll | controller/product/productController.js:70-74 | without a fault, 200 with every record, even when there is none |
| Handlers.DeleteThenGet | controller/order/orderController.js:73-106 | a deleted record can no longer be read: the read answers 404 |
| Handlers.DeleteTwice | controller/product/productController.js:46-58 | a second delete of the same id answers 404 and changes nothing |
| Handlers.GetIgnoresHexCase | controller/order/orderController.js:97 | two spellings of an id differing in hex-digit case read the same record |
| Handlers.DeleteKeepsOthers | controller/order/orderController.js:82 | a delete leaves every other record untouched |
| OrderUtils.FirstMissing | controller/order/utils.js:27-37 | the position of the first id the store lacks, every earlier one present; nothing when all are present |
| OrderUtils.IsIdExists | controller/order/utils.js:27-37 | nothing exactly when every id exists; otherwise a 400 naming the model and the first absent id |
| OrderUtils.Scan | controller/order/utils.js:28-35 | the loop finds the same first miss, after one probe per id up to and including that miss |
| OrderUtils.IsIdExistsEmpty | controller/order/utils.js:27-37 | the empty list passes |
| OrderUtils.ScanStopsAtFirstMiss | controller/order/utils.js:28-34 | ids after the first miss cannot change the result |
| OrderController.PostOrder | controller/order/orderController.js:15-37 | 201 exactly when the body is valid, every product and every user exists and nothing faults; each failure answers in the order body, products, users, fault, and only a 201 changes the collection |
| OrderController.CheckGiven | controller/order/orderController.js:50-57 | a list the body leaves out is not checked; a given one gets the existence scan |
| OrderController.PutOrder | controller/order/orderController.js:39-49 | the id format is checked before the body; a bad id or body answers 400 and changes nothing |
| OrderController.PutChecked | controller/order/orderController.js:50-71 | 200 exactly when every given list exists, nothing faults and the order exists; failures answer in the order products, users, fault, 404; the 200 stores and returns the updated order |
| OrderController.DeleteOrder | controller/order/orderController.js:73-89 | 200 exactly when the id is well formed, nothing faults and the order exists; then the order read before deletion is returned and removed |
| OrderController.GetOrder | controller/order/orderController.js:91-106 | 200 with the order exactly when the id is well formed, nothing faults and the order exists; 404 when it does not |
| OrderController.PostKeepsOrdersOk | controller/order/orderController.js:28 | creating keeps every order keyed canonically with non-empty canonical lists |
| OrderController.PutKeepsOrdersOk | controller/order/orderController.js:59 | updating keeps the same invariant |
| OrderController.DeleteKeepsOrdersOk | controller/order/orderController.js:82 | deleting keeps the same invariant |
| OrderController.PostThenGet | controller/order/orderController.js:28-32 | a created order reads back by its id exactly as created |
| OrderController.PostStopsAtMissingProduct | controller/order/orderController.js:23-26 | when a product is missing, the answer does not depend on the users collection |
| OrderController.PutWithoutLists | controller/order/orderController.js:50-57 | an update giving neither list never consults the product or user collections |
| OrderController.PutEmptyBody | controller/order/orderController.js:44-66 | `{}` is a valid update that answers 200 and leaves an existing order as it was |
| OrderQuery.BuildFilter | controller/order/orderController.js:110-143 | the first malformed parameter, in the order date, product, user, answers its own message; otherwise the filter keeps exactly the given, non-empty parameters |
| OrderQuery.Selected | controller/order/orderController.js:145 | exactly the stored orders that satisfy the filter, unchanged |
| OrderQuery.GetOrders | controller/order/orderController.js:108-155 | 400 for a malformed parameter, then 500 for a fault, then 404 exactly when no order matches; 200 exactly when the query is well formed, the store does not fault and some order matches, carrying exactly the matching orders; the collection is untouched |
| OrderQuery.EmptyParamsAddNothing | controller/order/orderController.js:114-135 | empty parameters answer the same as absent ones |
| OrderQuery.NoFilterListsAll | controller/order/orderController.js:145-150 | with no parameter every order is listed, and the answer is 404 exactly when there is none |
| OrderQuery.MatchesIsConjunction | controller/order/orderController.js:112-143 | an order satisfies the filter exactly when it satisfies each one-parameter filter |
| OrderQuery.MoreParamsSelectFewer | controller/order/orderController.js:112-145 | adding a parameter can only narrow the selection |
| OrderQuery.DefaultDateNeverQueried | controller/order/orderController.js:114-118 | an order created without a date on days 1 to 9 matches no accepted date query |
| ProductController.PostProduct | controller/product/productController.js:9-22 | 201 exactly when the body is valid, nothing faults and no product has the normalised name; otherwise 400, 500 or 409 in that order, with the collection unchanged |
| ProductController.PutProduct | controller/product/productController.js:24-44 | the id format before the body, the body against the creation table, then fault, 404 and name clash; 200 stores and returns the renamed product |
| ProductController.DeleteProduct | controller/product/productController.js:46-58 | 200 exactly when the id is well formed, nothing faults and the product exists; then it is removed and returned |
| ProductController.GetProducts | controller/product/productController.js:60-78 | with a non-empty id, the single-record read; without one, the listing |
| ProductController.PostKeepsProductsOk | controller/product/productController.js:17 | creating keeps every name normal and all names distinct |
| ProductController.PutKeepsProductsOk | controller/product/productController.js:35-37 | updating keeps the same invariant |
| ProductController.DeleteKeepsProductsOk | controller/product/productController.js:51 | deleting keeps the same invariant |
| ProductController.PostThenGet | controller/product/productController.js:17-18 | a created product reads back by its id exactly as created |
| ProductController.PostTwiceConflicts | controller/product/productController.js:17-20 | creating the same product twice: the second answers 409 and changes nothing |
| ProductController.PostConflictsUpToCase | controller/product/productController.js:17-20 | a name equal to a stored one up to case and surrounding whitespace answers 409 |
| ProductController.PutRequiresName | controller/product/productController.js:29-34 | an update without a name is refused as missing the required name |
| ProductController.ListNever404 | controller/product/productController.js:70-74 | listing answers 200 with every product, even an empty collection |
| UserController.PostUser | controller/user/userController.js:13-26 | 201 exactly when the body is valid, nothing faults and no user has the lower-cased address; otherwise 400, 500 or 409 in that order, with the collection unchanged |
| UserController.PutUser | controller/user/userController.js:28-48 | the id format, then the body against the update table, then fault, 404 and address clash; 200 stores and returns the updated user |
| UserController.DeleteUser | controller/user/userController.js:50-62 | 200 exactly when the id is well formed, nothing faults and the user exists; then it is removed and returned |
| UserController.GetUsers | controller/user/userController.js:64-82 | with a non-empty id, the single-record read; without one, the listing |
| UserController.PostKeepsUsersOk | controller/user/userController.js:21 | creating keeps every user well formed and all addresses distinct |
| UserController.PutKeepsUsersOk | controller/user/userController.js:39-41 | updating keeps the same invariant |
| UserController.DeleteKeepsUsersOk | controller/user/userController.js:55 | deleting keeps the same invariant |
| UserController.PostThenGet | controller/user/userController.js:21-22 | a created user reads back by its id exactly as created |
| UserController.PostConflictsUpToCase | controller/user/userController.js:21-25 | an address equal to a stored one up to ASCII case answers 409 |
| UserController.PutWithoutEmail | controller/user/userController.js:39-41 | an update that gives no address cannot clash and answers 200 for an existing user |
| UserController.PutEmptyBody | controller/user/userController.js:28-48 | `{}` is a valid update that answers 200 and leaves an existing user as it was |
| UserController.ListNever404 | controller/user/userController.js:74-78 | listing answers 200 with every user, even an empty collection |

## Left out

- Bootstrap and routing (`server.js`, `app.js`, the route files) are not part of this model; the handlers are called directly.
- The store is a map from canonical id to record. Mongoose casting, indexes and query planning are not modelled beyond that.
- `populate` is not modelled: responses carry the stored record, whose lists hold ids.
- Ids of created records come from the caller (`newId`), because ObjectId generation is the store's job.
- The clock in `defaultDate` is replaced by the caller's calendar day.
- A store error is modelled only at each handler's main persistence call, through the `fault` parameter. The existence probes of `isIdExists` and the re-read after a write are taken not to fail.
- The re-read after creating or updating an order is taken to return the record just written.
- Concurrency is not modelled: each request runs atomically against the map, so writers racing on a unique index do not arise.
- Logging, security headers, and JSON and HTTP serialisation are not modelled.
- `Http.Payload.Many` holds a listing as a map from id to record, so the order in which the store returns the records, which the JSON array keeps, is not modelled; no contract depends on it.
- Only request bodies that are JSON objects are modelled (`Json.Body` is the member list of an object). `express.json()` also accepts a top-level array, which every rule table refuses with the validator's default object-type message; that request is not represented.
- Case mapping is ASCII only. `toUpperCase`/`toLowerCase` on other letters, and the UTF-16 length the name pattern counts, are not modelled; strings are sequences of characters.
- Duplicate keys in a JSON body: `Json.Lookup` takes the first member with a key, while `JSON.parse` keeps the last.
- Query parameters given more than once arrive as arrays; `OrderQuery.Query` holds one string per parameter.
- User names: models/userSchema.js:3 binds the whole utils module as the name setter, not the function, so the model stores user names as given and does not claim they are capitalised.
- The `404 {message}` branch of the product and user listings tests for a missing result, which a map store never gives, so the listings always answer 200. `ProductController.ListNever404` and `UserController.ListNever404` state this.
- The product table's `.trim()` conversion is modelled: a name that is blank once trimmed is reported as empty, and only a non-blank name reaches `capitalizedFirstLetter`.
