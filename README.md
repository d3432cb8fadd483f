# Book store: a verified model of the request handlers

This project models the request handlers of a small book store API: carts,
balance transfers, the book catalog, and user accounts. The MongoDB
collections become maps from ids to records, plus a creation-ordered list of
book ids and a transaction ledger. Each handler becomes one method of the
`BookStore.Store` class, and its HTTP answer becomes a `Result` value whose
error side names what the handler reports.

Files:

- `models.dfy` (module `Models`) holds:
  - the four record kinds: user, book, cart line and cart, transaction;
  - their schema defaults: balance 2300, stock 1, likes 0, quantity 1, line total 0;
  - the default avatar and cover URLs;
  - the `trim` + `lowercase` normalisation the user schema applies to names and emails;
  - password hashing, modelled as an injective digest.
- `carts.dfy` (module `Carts`) holds the cart line list as pure functions:
  - `findIndex`;
  - adding a book: bump-and-reprice, or append;
  - removing a book, as a filter;
  - setting a quantity.
  It also holds the count of copies per book and the lemmas about it.
- `ledger.dfy` (module `Ledger`) holds:
  - the cart total, which is the `reduce`;
  - the guard chain of a transfer;
  - the two balance updates of a transfer, and the update of a recharge;
  - conservation of the total balance.
- `catalog.dfy` (module `Catalog`) holds:
  - the create and update field checks;
  - the update write;
  - the like toggle and its round trips;
  - the newest-first listings.
- `identity.dfy` (module `Identity`) holds:
  - the register check chain;
  - the public and profile views of a user;
  - `extractPublicId`;
  - the profile update: which fields it writes and which media assets it destroys.
- `store.dfy` (module `BookStore`) holds:
  - the `Store` class, with its invariant `Valid()`;
  - one method per handler, plus the small write methods those share (`Save` is `user.save()`);
  - the lemmas that each write preserves the invariant.

The store invariant says:

- every user and book id is below the id counter;
- balances are never negative;
- the unique email index agrees with the users;
- every book has price and stock of at least 1, and a like counter equal to the length of a duplicate-free `likedBy`;
- `order` lists every book in increasing creation time;
- every cart is stored under its user, holds one line per book, and every line has quantity and total of at least 1;
- every ledger entry moved a positive amount between two different users.

The model makes these choices about the store and its inputs:

- **Ids and timestamps.** A single counter (`clock`) supplies fresh ids and `createdAt` stamps.
- **Email lookups.** Lookups by email go through the schema's normalisation, as the query setters do. The schema's unique index is the `emailIndex` field.
- **External services.** The email-syntax check is a function parameter. An uploaded file arrives as the URL its upload returned. A media destroy appends to the `destroyed` log.

## Model

| member | source | states |
|---|---|---|
| Models.SchemaLine | book-store/models/Cart.ts:27-34 | a line stored with only its book has quantity 1 and total 0 |
| Models.NewUserDefaults | book-store/models/User.ts:14-45 | a new user has balance 2300 and the given credential; name and email are fixed points of the normalisation; both default images are on the media host |
| Models.DefaultsHosted | book-store/models/User.ts:32-41 | both default image URLs contain `res.cloudinary.com` |
| Models.Trim | book-store/models/User.ts:20-26 | the trimmed value neither starts nor ends with whitespace |
| Models.Lower | book-store/models/User.ts:20-26 | lowercasing keeps the length, maps each A-Z letter to its lower-case letter and keeps every other character, leaving no upper-case letter |
| Models.NormalizeIdempotent | book-store/models/User.ts:14-26 | normalising a stored name or email again changes nothing |
| Models.HashInjective | book-store/controllers/user.controller.ts:85-88 | a password matches a stored digest exactly when it is the password that was hashed |
| Carts.FindIndex | book-store/controllers/cart.controller.ts:32-34 | the result is -1 or an index of the book; no earlier line holds the book, and none at all when the result is -1 |
| Carts.NewLine | book-store/controllers/cart.controller.ts:21-25 | a new line has quantity 1 and a total equal to the book's price |
| Carts.AddLine | book-store/controllers/cart.controller.ts:32-47 | the book's line gets quantity + 1, repriced at the current price, with the length unchanged; otherwise `[book, 1, price]` is appended; lines of other books are untouched |
| Carts.AddLineToEmpty | book-store/controllers/cart.controller.ts:20-30 | with no existing lines, the cart is exactly `[(book, 1, price)]` |
| Carts.AddLineCounts | book-store/controllers/cart.controller.ts:36-47 | adding adds exactly one copy of the book and no copy of any other book |
| Carts.AddLineKeepsItemsOk | book-store/controllers/cart.controller.ts:32-47 | adding keeps one line per book, and every line's quantity and total at least 1 |
| Carts.RemoveBook | book-store/controllers/cart.controller.ts:90 | no line of the book remains, the list does not grow, and every kept line comes from the input |
| Carts.RemoveBookCounts | book-store/controllers/cart.controller.ts:90 | removing leaves no copy of the book and every other book's count as it was |
| Carts.RemoveBookConcat | book-store/controllers/cart.controller.ts:90 | the filter distributes over concatenation, so kept lines keep their relative order |
| Carts.RemoveBookAbsent | book-store/controllers/cart.controller.ts:87-94 | removing a book the cart does not hold leaves the list exactly as it was |
| Carts.RemoveBookKeepsItemsOk | book-store/controllers/cart.controller.ts:90 | removing keeps one line per book and every line at least 1 |
| Carts.SetLine | book-store/controllers/cart.controller.ts:123-126 | only the line at the index changes: same book, the new quantity, total = quantity × price |
| Carts.SetLineSetsCount | book-store/controllers/cart.controller.ts:114-126 | with one line per book, setting the book's line makes the book's count equal to the quantity |
| Carts.SetLineCounts | book-store/controllers/cart.controller.ts:114-126 | setting the book's line leaves every other book's count unchanged |
| Carts.SetLineKeepsItemsOk | book-store/controllers/cart.controller.ts:108-126 | a quantity of at least 1 at a price of at least 1 keeps the line invariant |
| BookStore.CartsOkSet | book-store/models/Cart.ts:15-36 | a cart stored under its own user with valid lines keeps the carts invariant |
| BookStore.Store.AddToCart | book-store/controllers/cart.controller.ts:15-50 | an unknown book gives BookNotFound with carts unchanged; otherwise the caller's cart becomes `AddLine` of its old lines (no cart counts as no lines) and nothing else changes |
| BookStore.Store.GetCart | book-store/controllers/cart.controller.ts:65-72 | CartNotFound exactly when the caller has no cart; otherwise the stored cart, one line per book, every line at least 1 |
| BookStore.Store.DeleteItemCart | book-store/controllers/cart.controller.ts:87-94 | CartNotFound without a cart; otherwise success, even when nothing was removed, with the lines filtered by `RemoveBook` |
| BookStore.Store.UpdateQuantity | book-store/controllers/cart.controller.ts:108-130 | errors in the handler's order: QuantityTooSmall, CartNotFound, NotInCart, BookNotFound, each with carts unchanged; success exactly when all pass, with only the book's line set and the book's count equal to the quantity |
| Ledger.CartTotal | book-store/controllers/transaction.controller.ts:24-27 | the left-to-right sum of the line totals; at least the number of lines when every line is at least 1 |
| Ledger.TransferCheck | book-store/controllers/transaction.controller.ts:11-38 | the guard chain in order: each of ReceiverRequired, SelfTransfer, CartEmpty, UsersNotFound, InsufficientBalance exactly when the earlier checks pass and its own fails; success exactly when all pass, with the cart total as the amount |
| Ledger.Settle | book-store/controllers/transaction.controller.ts:40-44 | the sender loses the amount and the receiver gains it; their sum and every other user are unchanged |
| Ledger.SettleConserves | book-store/controllers/transaction.controller.ts:40-44 | a transfer leaves the total of all balances unchanged |
| Ledger.SettleKeepsSenderSolvent | book-store/controllers/transaction.controller.ts:36-41 | after the balance check, the sender's new balance is not negative |
| Ledger.TransferExample | book-store/controllers/transaction.controller.ts:24-44 | two copies of a 500 book from a fresh account: total 1000, sender 1300, receiver + 1000 |
| Ledger.Credit | book-store/controllers/transaction.controller.ts:77-78 | a recharge raises one balance by the amount and nothing else |
| Ledger.CreditAdds | book-store/controllers/transaction.controller.ts:77-78 | a recharge raises the total of all balances by exactly the amount |
| BookStore.LedgerOkAppend | book-store/models/Transaction.ts:10-25 | appending a positive transfer between two users keeps the ledger invariant |
| BookStore.Store.TransferBalance | book-store/controllers/transaction.controller.ts:11-59 | on a failed check, that error and no change to users, carts, ledger or clock; on success, users settled, one transaction `(sender, receiver, total)` appended, the sender's cart emptied, total balance conserved |
| BookStore.Store.Pay | book-store/controllers/transaction.controller.ts:40-53 | the writes of a passed transfer: settle, record, empty the cart |
| BookStore.Store.MoveBalance | book-store/controllers/transaction.controller.ts:40-44 | the two saves together give exactly `Settle` |
| BookStore.Store.Save | book-store/controllers/transaction.controller.ts:40-41 | `user.save()`: exactly one user record replaced, keeping the invariant |
| BookStore.Store.Record | book-store/controllers/transaction.controller.ts:46-53 | exactly one ledger entry appended, stamped with the current time; the sender's cart emptied |
| BookStore.Store.RechargeBalance | book-store/controllers/transaction.controller.ts:70-80 | InvalidAmount for a missing or non-positive amount, then UserNotFound; otherwise `Credit`, the new balance answered, total up by the amount, no ledger entry |
| Catalog.ValidateFields | book-store/controllers/book.controller.ts:132-145 | MissingFields, then NotANumber (absent stock included), then BelowOne, each exactly in its case; success gives the parsed fields, price and stock at least 1 |
| Catalog.ValidateCreate | book-store/controllers/book.controller.ts:54-70 | the missing-field check, then the image check, then the same numeric checks as update |
| Catalog.BlankStockBelowOne | book-store/controllers/book.controller.ts:61-70 | a blank or null stock (0 to `Number`) passes the NaN check and is rejected as below 1, by both create and update |
| Catalog.AbsentStockRejected | book-store/controllers/book.controller.ts:61-66 | an absent stock is rejected by both create and update |
| Catalog.NewBook | book-store/controllers/book.controller.ts:98-108 | a new book is owned by the caller, has 0 likes, an empty `likedBy`, the uploaded image and the validated fields |
| Catalog.ApplyUpdate | book-store/controllers/book.controller.ts:146-149 | the five form fields change; owner, image, likes and creation time do not |
| Catalog.Without | book-store/controllers/book.controller.ts:231-233 | the user is gone and every other id's membership is unchanged |
| Catalog.WithoutLength | book-store/controllers/book.controller.ts:231-233 | the filter removes exactly the user's occurrences |
| Catalog.Toggle | book-store/controllers/book.controller.ts:225-237 | membership flips for the user and no one else; an unlike floors the counter at 0; a like appends and adds 1; no other field changes |
| Catalog.ToggleKeepsCount | book-store/controllers/book.controller.ts:229-237 | when the user occurs at most once, counter = list length is preserved |
| Catalog.ToggleKeepsConsistent | book-store/controllers/book.controller.ts:225-237 | a consistent book (counter = length, no duplicates) stays consistent |
| Catalog.ToggleTwiceFromUnliked | book-store/controllers/book.controller.ts:225-237 | like then unlike gives back exactly the book |
| Catalog.ToggleTwiceFromLiked | book-store/controllers/book.controller.ts:225-237 | unlike then like restores who likes the book and the counter |
| Catalog.NewestFirst | book-store/controllers/book.controller.ts:195 | the listing holds exactly the stored books passing the owner filter |
| Catalog.NewestFirstSorted | book-store/controllers/book.controller.ts:15 | along a creation order, the listing's `createdAt` strictly decreases |
| BookStore.BooksOkInsert | book-store/controllers/book.controller.ts:98-108 | a new valid book under the fresh id, stamped now and listed last, keeps the book invariant |
| BookStore.BooksOkUpdate | book-store/controllers/book.controller.ts:146-149 | rewriting a book, keeping its creation time and the field rules, keeps the book invariant |
| BookStore.BooksOkDelete | book-store/controllers/book.controller.ts:174 | deleting a book and its place in the order keeps the book invariant |
| BookStore.Store.GetAllBooks | book-store/controllers/book.controller.ts:15-21 | NoBooks exactly when there is no book; otherwise exactly the stored books, strictly newest first |
| BookStore.Store.GetBookUser | book-store/controllers/book.controller.ts:195-200 | NoBooks exactly when the caller owns no book; otherwise exactly the caller's books, strictly newest first |
| BookStore.Store.GetBookById | book-store/controllers/book.controller.ts:37-41 | BookNotFound exactly for an unknown id; otherwise the stored book |
| BookStore.Store.CreateBook | book-store/controllers/book.controller.ts:54-110 | a rejected form changes nothing; otherwise one new book under a fresh id, last in creation order |
| BookStore.Store.UpdateBook | book-store/controllers/book.controller.ts:132-155 | field errors first; then BookNotFound unless the id exists and the caller owns it, with nothing changed; otherwise only that book is rewritten by `ApplyUpdate` |
| BookStore.Store.DeleteBook | book-store/controllers/book.controller.ts:174-180 | BookNotFound unless id and owner match, with nothing removed; otherwise the book and its order entry are removed |
| BookStore.Store.LikeBook | book-store/controllers/book.controller.ts:220-244 | BookNotFound for an unknown id; otherwise the book becomes `Toggle`, the answer says whether a like was removed and gives the new count, and counter = length holds |
| Identity.CheckRegistration | book-store/controllers/user.controller.ts:20-44 | each error exactly when the earlier checks pass and its own fails: MissingFields, InvalidEmail, WeakPassword, PasswordMismatch, EmailTaken |
| Identity.AcceptedRegistration | book-store/controllers/user.controller.ts:20-44 | an accepted form has all fields, a valid email, a confirmed password of at least 8 characters, and an unregistered email |
| Identity.AfterLast | book-store/controllers/user.controller.ts:148-149 | the last segment contains no separator |
| Identity.AfterLastSuffix | book-store/controllers/user.controller.ts:148-149 | the last segment is a suffix of the string, preceded by the separator unless it is the whole string |
| Identity.BeforeFirst | book-store/controllers/user.controller.ts:150 | the first part contains no separator |
| Identity.BeforeFirstPrefix | book-store/controllers/user.controller.ts:150 | the first part is a prefix, followed by the separator unless it is the whole string |
| Identity.ExtractPublicId | book-store/controllers/user.controller.ts:147-151 | the id contains neither `/` nor `.` and is no longer than the URL |
| Identity.ExtractPublicIdOf | book-store/controllers/user.controller.ts:147-151 | `dir/name.ext` yields exactly `name` |
| Identity.DefaultAvatarId | book-store/models/User.ts:32-36 | the default avatar's id is `avatar-default-image_yc4xy4` |
| Identity.DefaultCoverId | book-store/models/User.ts:37-41 | the default cover's id is `cover-default-image_uunwq6` |
| Identity.Destroyed | book-store/controllers/user.controller.ts:166-189 | an old image is destroyed exactly when its file was supplied and its URL is on the media host, and nothing else is; at most two, avatar before cover |
| Identity.ApplyUploads | book-store/controllers/user.controller.ts:145-191 | only the supplied images are written; every other field is unchanged |
| Identity.NoUploadsNoChange | book-store/controllers/user.controller.ts:145-193 | with no files, nothing is written and nothing is destroyed |
| Identity.FreshUserDestroysDefault | book-store/controllers/user.controller.ts:166-170 | a user who never changed the avatar still has the default avatar destroyed on upload |
| BookStore.IndexedEmails | book-store/models/User.ts:20-26 | the unique index holds exactly the stored emails, and no two users share one |
| BookStore.UsersOkInsert | book-store/models/User.ts:20-26 | a user with an unindexed email under a fresh id keeps the user invariant |
| BookStore.Store.Register | book-store/controllers/user.controller.ts:20-66 | a failed check answers its error and changes nothing; otherwise exactly one new user (normalised, hashed password, defaults) under a fresh id, indexed by email, with a session for that id |
| BookStore.Store.Enroll | book-store/controllers/user.controller.ts:48-52 | the insert: the user under a fresh id, its email added to the unique index |
| BookStore.Store.Login | book-store/controllers/user.controller.ts:78-100 | MissingFields; EmailInvalid exactly when no user has the normalised email; PasswordInvalid exactly when one does but the password does not match; otherwise that user's session |
| BookStore.Store.Me | book-store/controllers/user.controller.ts:109-121 | Unauthorized exactly for an unknown caller; otherwise the caller's profile fields unchanged |
| BookStore.Store.ProfileUser | book-store/controllers/user.controller.ts:132-198 | Unauthorized for an unknown caller; otherwise the user becomes `ApplyUploads`, the `Destroyed` assets are logged in order, and the updated user is answered |

## Left out

- HTTP status codes are not modelled. The 400 and 401 answers become `Error` kinds.
- The 500 paths are not modelled:
  - a malformed id that fails the ObjectId cast;
  - a failed upload;
  - a failed database call.
- Routing, the server, the database connection and the authentication middleware are not modelled. The handlers' checks for a missing route parameter or a missing `req.user` belong to that wiring. The caller arrives as an id.
- JWT signing, verification and expiry are not modelled: a token is the user id it is bound to.
- bcrypt is an injective digest, `Digest(password)`. The schema's `trim` on the stored password has no effect on a bcrypt digest, so it is not modelled. bcrypt reads only the first 72 bytes of a password, so the handler's login also accepts a password that agrees with the stored one on those bytes and differs after them; the model does not capture this truncation.
- Ids are compared as canonical values. The cart handlers compare `item.bookId.toString()` with the raw route parameter, while `Book.findById` also accepts an upper-case hex spelling of an id; with that spelling addToCart appends a second line for a book the cart already holds, and deleteItemCart removes nothing yet reports success. With that spelling transferBalance's self-transfer check (`senderId.toString() === receiverId`) also passes for the caller's own id; both `findById` calls load the same user, the second save writes B + T over the first's B − T, so the caller gains T, a self-transfer is recorded and the cart is emptied. In the model an id has one spelling, so one line per book always holds, and a transfer always conserves the total balance between two different users.
- `validator.isEmail` is a predicate parameter of `Register`.
- multer is not modelled, including its 5 MB size limit. Cloudinary upload is not modelled: the returned URL is an input. A destroy call is recorded in the `destroyed` log.
- Mongoose `populate` (the cart's book projection) and `createdAt`/`updatedAt` dates are not modelled. Creation times are a logical counter.
- Concurrency is not modelled. Each handler is one atomic step. The transfer handler runs four separate saves, and two concurrent requests can interleave between them.
- JS `Number` semantics are not modelled (floating point, `NaN`, string coercion). Prices, stock, quantities and balances are integers, and a form field is `Absent`, `NotNumber` or a `Number`.
- Models.Lower: lowercases ASCII letters only, while `String.prototype.toLowerCase` also maps non-ASCII letters.
- BookStore.Store.UpdateQuantity: the quantity is an integer. A missing or non-numeric quantity passes the handler's `quantity < 1` check (the comparison is false), makes the line total `NaN`, and the cart save then fails the Number cast, answering 500 with nothing stored; a numeric string such as `"3"` is stored as 3. Neither input is expressible in the model.
- BookStore.Store.RechargeBalance: the amount is an optional integer. The handler's `+amount` coercion of a numeric string is not modelled.
- BookStore.Store.CreateBook: answers the new book's id rather than the stored document. Its multipart body carries strings, so a price of `"0"` passes `!price` and is `BelowOne`, as modelled.
- Catalog.ValidateFields: every price that `!price` rejects (missing, blank, null, or a JSON number `0`) is encoded as `Absent`, so the model answers MissingFields for it as the handler does; a `Number(n)` price is a non-empty numeric input that passes `!price`. Only stock reads a blank or null value as `Number(0)`, which answers BelowOne, as `Number("")` and `Number(null)` are 0.
- BookStore.Store.UpdateBook: answers success only. The handler answers the document as it was before the update. It receives the form in `Catalog.ValidateFields`' input convention, so a JSON `0` price arrives as `Absent`.
- Identity.CheckRegistration: the password length is counted in Unicode scalar values, while `password.length` counts UTF-16 code units. A password with characters outside the Basic Multilingual Plane (four emoji have JS length 8) is `WeakPassword` in the model but accepted by the handler.
- BookStore.Store.GetAllBooks: answers book ids in order, not the documents.
- BookStore.Store.GetBookUser: answers book ids in order, not the documents.
- BookStore.Store.Register: a name or email that trims to the empty string passes the handler's presence check. The schema's `required` check then throws (a 500). The model stores the empty value instead.
- Identity.Destroyed: records each destroyed asset as (folder, public id). `AssetName` gives the `users/avatars/<id>` string that the destroy call receives.
