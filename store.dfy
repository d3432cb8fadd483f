/**
 * The store behind the request handlers: the users, books, carts and
 * transactions collections, and one method per handler. A handler runs as
 * one step; the caller is the id the authentication middleware attached.
 */
module BookStore {
  import opened Models
  import opened Carts
  import opened Ledger
  import opened Catalog
  import opened Identity

  /**
   * Every user id is taken and no balance is negative; `index`, the unique
   * index on email, maps each stored email to the one user holding it.
   */
  ghost predicate UsersOk(users: map<Id, User>, index: map<string, Id>, clock: nat)
  {
    && (forall u :: u in users ==>
          && u < clock && users[u].balance >= 0
          && users[u].email in index && index[users[u].email] == u)
    && (forall e :: e in index ==> index[e] in users && users[index[e]].email == e)
  }

  /** Every book passed the field checks, its likes agree, and `order` lists the books by creation. */
  ghost predicate BooksOk(books: map<Id, Book>, order: seq<Id>, clock: nat)
  {
    && (forall b :: b in books ==>
          && b < clock && books[b].createdAt < clock
          && books[b].price >= 1 && books[b].stock >= 1
          && LikesConsistent(books[b]))
    && (forall b :: b in books ==> b in order)
    && CreationOrdered(order, books)
  }

  /** A cart is stored under its user, with one line per book and every line at least 1. */
  ghost predicate CartsOk(carts: map<Id, Cart>)
  {
    forall u :: u in carts ==> carts[u].userId == u && ItemsOk(carts[u].items)
  }

  /** Every recorded transfer moved a positive amount between two different users. */
  ghost predicate LedgerOk(ledger: seq<Transaction>)
  {
    forall i :: 0 <= i < |ledger| ==> ledger[i].amount >= 1 && ledger[i].sender != ledger[i].receiver
  }

  /** The stored emails. */
  function Emails(users: map<Id, User>): set<string>
  {
    set u | u in users :: users[u].email
  }

  /** The unique index holds exactly the stored emails, and no two users share one. */
  lemma IndexedEmails(users: map<Id, User>, index: map<string, Id>, clock: nat)
    requires UsersOk(users, index, clock)
    ensures index.Keys == Emails(users)
    ensures forall u, v :: u in users && v in users && u != v ==> users[u].email != users[v].email
  {
    forall e | e in index ensures e in Emails(users) {
      assert users[index[e]].email == e;
    }
  }

  /** What likeBook answers: whether the like was removed, and the new count. */
  datatype LikeOutcome = LikeOutcome(removed: bool, likes: int)

  /** What transferBalance answers: the stored transaction and the amount moved. */
  datatype Receipt = Receipt(transaction: Transaction, totalAmount: int)

  /** Deleting one id from a creation order keeps it a creation order of what is left. */
  lemma {:induction false} WithoutKeepsOrder(order: seq<Id>, books: map<Id, Book>, id: Id)
    requires CreationOrdered(order, books)
    ensures CreationOrdered(Without(order, id), books - {id})
  {
    if |order| > 0 {
      var tail := order[1..];
      assert CreationOrdered(tail, books) by {
        forall i | 0 <= i < |tail| ensures tail[i] in books { assert tail[i] == order[i + 1]; }
        forall i, j | 0 <= i < j < |tail| ensures books[tail[i]].createdAt < books[tail[j]].createdAt {
          assert tail[i] == order[i + 1] && tail[j] == order[j + 1];
        }
      }
      WithoutKeepsOrder(tail, books, id);
      if order[0] != id {
        var w := Without(tail, id);
        var r := [order[0]] + w;
        forall j | 0 <= j < |w| ensures books[order[0]].createdAt < books[w[j]].createdAt {
          assert w[j] in tail;
          var k :| 0 <= k < |tail| && tail[k] == w[j];
          assert tail[k] == order[k + 1];
        }
        forall i, j | 0 <= i < j < |r|
          ensures (books - {id})[r[i]].createdAt < (books - {id})[r[j]].createdAt
        {
          assert r[j] == w[j - 1];
          if i > 0 { assert r[i] == w[i - 1]; }
        }
        assert forall i :: 0 <= i < |r| ==> r[i] in books - {id} by {
          forall i | 0 <= i < |r| ensures r[i] in books - {id} {
            if i > 0 { assert r[i] == w[i - 1]; }
          }
        }
      }
    }
  }

  /** Rewriting one user, same email and a balance still non-negative, keeps UsersOk. */
  lemma UsersOkUpdate(users: map<Id, User>, index: map<string, Id>, clock: nat, u: Id, x: User)
    requires UsersOk(users, index, clock) && u in users
    requires x.email == users[u].email && x.balance >= 0
    ensures UsersOk(users[u := x], index, clock)
  {
  }

  /** A new user under the fresh id, with an email the index lacks, keeps UsersOk. */
  lemma UsersOkInsert(users: map<Id, User>, index: map<string, Id>, clock: nat, x: User)
    requires UsersOk(users, index, clock)
    requires x.email !in index && x.balance >= 0
    ensures clock !in users
    ensures UsersOk(users[clock := x], index[x.email := clock], clock + 1)
  {
  }

  /** A later clock keeps UsersOk. */
  lemma UsersOkTick(users: map<Id, User>, index: map<string, Id>, clock: nat)
    requires UsersOk(users, index, clock)
    ensures UsersOk(users, index, clock + 1)
  {
  }

  /** A later clock keeps BooksOk. */
  lemma BooksOkTick(books: map<Id, Book>, order: seq<Id>, clock: nat)
    requires BooksOk(books, order, clock)
    ensures BooksOk(books, order, clock + 1)
  {
  }

  /** A book rewritten in place, keeping its creation time and the book rules, keeps BooksOk. */
  lemma BooksOkUpdate(books: map<Id, Book>, order: seq<Id>, clock: nat, id: Id, b: Book)
    requires BooksOk(books, order, clock) && id in books
    requires b.createdAt == books[id].createdAt && b.price >= 1 && b.stock >= 1 && LikesConsistent(b)
    ensures BooksOk(books[id := b], order, clock)
  {
    var m := books[id := b];
    forall i, j | 0 <= i < j < |order| ensures m[order[i]].createdAt < m[order[j]].createdAt {
      assert m[order[i]].createdAt == books[order[i]].createdAt;
      assert m[order[j]].createdAt == books[order[j]].createdAt;
    }
  }

  /** A new book under the fresh id, stamped with it and listed last, keeps BooksOk. */
  lemma BooksOkInsert(books: map<Id, Book>, order: seq<Id>, clock: nat, b: Book)
    requires BooksOk(books, order, clock)
    requires b.createdAt == clock && b.price >= 1 && b.stock >= 1 && LikesConsistent(b)
    ensures clock !in books
    ensures BooksOk(books[clock := b], order + [clock], clock + 1)
  {
    var m := books[clock := b];
    var o := order + [clock];
    forall i | 0 <= i < |o| ensures o[i] in m {
      if i < |order| { assert o[i] == order[i]; }
    }
    forall i, j | 0 <= i < j < |o| ensures m[o[i]].createdAt < m[o[j]].createdAt {
      assert o[i] == order[i] && order[i] in books && order[i] != clock;
      if j < |order| { assert o[j] == order[j] && order[j] != clock; }
    }
  }

  /** Deleting a book and its place in the order keeps BooksOk. */
  lemma BooksOkDelete(books: map<Id, Book>, order: seq<Id>, clock: nat, id: Id)
    requires BooksOk(books, order, clock)
    ensures BooksOk(books - {id}, Without(order, id), clock)
  {
    WithoutKeepsOrder(order, books, id);
  }

  /** A cart stored under its user with valid lines keeps CartsOk. */
  lemma CartsOkSet(carts: map<Id, Cart>, u: Id, items: seq<CartItem>)
    requires CartsOk(carts) && ItemsOk(items)
    ensures CartsOk(carts[u := Cart(u, items)])
  {
  }

  /** Recording a positive transfer between two users keeps LedgerOk. */
  lemma LedgerOkAppend(ledger: seq<Transaction>, t: Transaction)
    requires LedgerOk(ledger) && t.amount >= 1 && t.sender != t.receiver
    ensures LedgerOk(ledger + [t])
  {
  }

  class Store {
    var users: map<Id, User>
    /** The unique index on the users' email field. */
    var emailIndex: map<string, Id>
    var books: map<Id, Book>
    var carts: map<Id, Cart>
    var ledger: seq<Transaction>
    /** The book ids in creation order; the listings read it backwards. */
    var order: seq<Id>
    /** The next fresh id; a new document takes it both as its id and as its creation time. */
    var clock: nat
    /** The media assets the profile updates destroyed, oldest first. */
    var destroyed: seq<Asset>

    ghost predicate Valid()
      reads this
    {
      && UsersOk(users, emailIndex, clock)
      && BooksOk(books, order, clock)
      && CartsOk(carts)
      && LedgerOk(ledger)
    }

    constructor()
      ensures Valid()
      ensures users == map[] && books == map[] && carts == map[]
      ensures ledger == [] && order == [] && destroyed == []
    {
      users, emailIndex, books, carts := map[], map[], map[], map[];
      ledger, order, clock, destroyed := [], [], 0, [];
    }

    /** The items of a user's cart; a missing cart holds none. */
    function ItemsOf(user: Id): seq<CartItem>
      reads this
    {
      if user in carts then carts[user].items else []
    }

    // -------------------------------------------------------------------
    // Cart handlers

    /** addToCart: one more copy of the book in the caller's cart, the line repriced. */
    method AddToCart(caller: Id, bookId: Id) returns (r: Result<Cart>)
      requires Valid()
      modifies this`carts
      ensures Valid()
      ensures bookId !in books ==> r == Err(BookNotFound) && carts == old(carts)
      ensures bookId in books ==>
        && r == Ok(Cart(caller, AddLine(old(ItemsOf(caller)), bookId, books[bookId].price)))
        && carts == old(carts)[caller := r.value]
    {
      if bookId !in books {
        return Err(BookNotFound);
      }
      var book := books[bookId];
      var cart: Cart;
      if caller !in carts {
        cart := Cart(caller, [NewLine(bookId, book.price)]);
        assert cart.items == AddLine([], bookId, book.price);
      } else {
        cart := carts[caller];
        var itemIndex := FindIndex(cart.items, bookId);
        if itemIndex > -1 {
          var item := cart.items[itemIndex];
          item := item.(quantity := item.quantity + 1);
          item := item.(totalPrice := item.quantity * book.price);
          cart := cart.(items := cart.items[itemIndex := item]);
        } else {
          cart := cart.(items := cart.items + [NewLine(bookId, book.price)]);
        }
        assert cart.items == AddLine(carts[caller].items, bookId, book.price);
      }
      AddLineKeepsItemsOk(ItemsOf(caller), bookId, book.price);
      CartsOkSet(carts, caller, cart.items);
      carts := carts[caller := cart];
      r := Ok(cart);
    }

    /** getCartUser: the caller's cart, which holds each book on one line. */
    method GetCart(caller: Id) returns (r: Result<Cart>)
      requires Valid()
      ensures caller !in carts <==> r == Err(CartNotFound)
      ensures r.Ok? ==> r.value == carts[caller]
      ensures r.Ok? ==> r.value.userId == caller && DistinctBooks(r.value.items)
      ensures r.Ok? ==> forall i :: 0 <= i < |r.value.items| ==> LineOk(r.value.items[i])
    {
      if caller !in carts {
        return Err(CartNotFound);
      }
      r := Ok(carts[caller]);
    }

    /** deleteItemCart: drop every line of the book; succeeds even if there was none. */
    method DeleteItemCart(caller: Id, bookId: Id) returns (r: Result<()>)
      requires Valid()
      modifies this`carts
      ensures Valid()
      ensures caller !in old(carts) ==> r == Err(CartNotFound) && carts == old(carts)
      ensures caller in old(carts) ==>
        && r == Ok(())
        && carts == old(carts)[caller := Cart(caller, RemoveBook(old(carts)[caller].items, bookId))]
    {
      if caller !in carts {
        return Err(CartNotFound);
      }
      var cart := carts[caller];
      RemoveBookKeepsItemsOk(cart.items, bookId);
      CartsOkSet(carts, caller, RemoveBook(cart.items, bookId));
      cart := cart.(items := RemoveBook(cart.items, bookId));
      carts := carts[caller := cart];
      r := Ok(());
    }

    /** updateQuantity: set the quantity of the book's line and reprice it. */
    method UpdateQuantity(caller: Id, bookId: Id, quantity: int) returns (r: Result<Cart>)
      requires Valid()
      modifies this`carts
      ensures Valid()
      ensures r.Err? ==> carts == old(carts)
      ensures quantity < 1 ==> r == Err(QuantityTooSmall)
      ensures quantity >= 1 && caller !in old(carts) ==> r == Err(CartNotFound)
      ensures quantity >= 1 && caller in old(carts) && FindIndex(old(carts)[caller].items, bookId) == -1
        ==> r == Err(NotInCart)
      ensures quantity >= 1 && caller in old(carts) && FindIndex(old(carts)[caller].items, bookId) >= 0 && bookId !in books
        ==> r == Err(BookNotFound)
      ensures r.Ok? <==>
        quantity >= 1 && caller in old(carts) && FindIndex(old(carts)[caller].items, bookId) >= 0 && bookId in books
      ensures r.Ok? ==>
        var items := old(carts)[caller].items;
        && r.value == Cart(caller, SetLine(items, FindIndex(items, bookId), quantity, books[bookId].price))
        && carts == old(carts)[caller := r.value]
        && QuantityOf(r.value.items, bookId) == quantity
    {
      if quantity < 1 {
        return Err(QuantityTooSmall);
      }
      if caller !in carts {
        return Err(CartNotFound);
      }
      var cart := carts[caller];
      var itemIndex := FindIndex(cart.items, bookId);
      if itemIndex == -1 {
        return Err(NotInCart);
      }
      if bookId !in books {
        return Err(BookNotFound);
      }
      var price := books[bookId].price;
      SetLineKeepsItemsOk(cart.items, itemIndex, quantity, price);
      SetLineSetsCount(cart.items, bookId, quantity, price);
      CartsOkSet(carts, caller, SetLine(cart.items, itemIndex, quantity, price));
      cart := cart.(items := SetLine(cart.items, itemIndex, quantity, price));
      carts := carts[caller := cart];
      r := Ok(cart);
    }

    // -------------------------------------------------------------------
    // Transaction handlers

    /**
     * transferBalance: pay the whole cart to the receiver, record the
     * transaction and empty the cart; on any failed check nothing changes.
     */
    method TransferBalance(caller: Id, receiverId: Option<Id>) returns (r: Result<Receipt>)
      requires Valid()
      modifies this`users, this`carts, this`ledger, this`clock
      ensures Valid()
      ensures var check := TransferCheck(caller, receiverId, old(carts), old(users));
        && (check.Err? ==>
              && r == Err(check.error)
              && users == old(users) && carts == old(carts) && ledger == old(ledger) && clock == old(clock))
        && (check.Ok? ==>
              var t := Transaction(caller, receiverId.value, check.value, old(clock));
              && r == Ok(Receipt(t, check.value))
              && users == Settle(old(users), caller, receiverId.value, check.value)
              && ledger == old(ledger) + [t]
              && carts == old(carts)[caller := Cart(caller, [])]
              && clock == old(clock) + 1)
      ensures r.Ok? ==> r.value.totalAmount >= 1 && TotalBalance(users) == TotalBalance(old(users))
    {
      if receiverId.None? {
        return Err(ReceiverRequired);
      }
      var receiver := receiverId.value;
      if caller == receiver {
        return Err(SelfTransfer);
      }
      if caller !in carts || |carts[caller].items| == 0 {
        return Err(CartEmpty);
      }
      var totalAmount := CartTotal(carts[caller].items);
      if caller !in users || receiver !in users {
        return Err(UsersNotFound);
      }
      if users[caller].balance < totalAmount {
        return Err(InsufficientBalance);
      }
      SettleConserves(users, caller, receiver, totalAmount);
      var transaction := Pay(caller, receiver, totalAmount);
      r := Ok(Receipt(transaction, totalAmount));
    }

    /**
     * The writes of a transfer that passed every check: debit the sender,
     * credit the receiver, record the transaction, empty the sender's cart.
     */
    method Pay(sender: Id, receiver: Id, amount: int) returns (t: Transaction)
      requires Valid()
      requires sender in users && receiver in users && sender != receiver && sender in carts
      requires 1 <= amount <= users[sender].balance
      modifies this`users, this`carts, this`ledger, this`clock
      ensures Valid()
      ensures t == Transaction(sender, receiver, amount, old(clock))
      ensures users == Settle(old(users), sender, receiver, amount)
      ensures ledger == old(ledger) + [t]
      ensures carts == old(carts)[sender := Cart(sender, [])]
      ensures clock == old(clock) + 1
    {
      MoveBalance(sender, receiver, amount);
      t := Record(sender, receiver, amount);
    }

    /** The two balance writes of a transfer. */
    method MoveBalance(sender: Id, receiver: Id, amount: int)
      requires Valid()
      requires sender in users && receiver in users && sender != receiver
      requires 0 <= amount <= users[sender].balance
      modifies this`users
      ensures Valid()
      ensures users == Settle(old(users), sender, receiver, amount)
    {
      ghost var settled := Settle(users, sender, receiver, amount);
      var senderUser := users[sender];
      senderUser := senderUser.(balance := senderUser.balance - amount);
      Save(sender, senderUser);
      var receiverUser := users[receiver];
      receiverUser := receiverUser.(balance := receiverUser.balance + amount);
      Save(receiver, receiverUser);
      assert users == settled;
    }

    /** `user.save()`: one user's record replaced; the email is the indexed one. */
    method Save(id: Id, x: User)
      requires Valid()
      requires id in users && x.email == users[id].email && x.balance >= 0
      modifies this`users
      ensures Valid()
      ensures users == old(users)[id := x]
    {
      UsersOkUpdate(users, emailIndex, clock, id, x);
      users := users[id := x];
    }

    /** The ledger record of a transfer, and the emptied sender cart. */
    method Record(sender: Id, receiver: Id, amount: int) returns (t: Transaction)
      requires Valid()
      requires sender in carts && sender != receiver && amount >= 1
      modifies this`carts, this`ledger, this`clock
      ensures Valid()
      ensures t == Transaction(sender, receiver, amount, old(clock))
      ensures ledger == old(ledger) + [t]
      ensures carts == old(carts)[sender := Cart(sender, [])]
      ensures clock == old(clock) + 1
    {
      UsersOkTick(users, emailIndex, clock);
      BooksOkTick(books, order, clock);
      CartsOkSet(carts, sender, []);
      t := Transaction(sender, receiver, amount, clock);
      LedgerOkAppend(ledger, t);
      ledger := ledger + [t];
      clock := clock + 1;
      var senderCart := carts[sender];
      senderCart := senderCart.(items := []);
      carts := carts[sender := senderCart];
    }

    /** rechargeBalance: add a positive amount to the caller's balance. */
    method RechargeBalance(caller: Id, amount: Option<int>) returns (r: Result<int>)
      requires Valid()
      modifies this`users
      ensures Valid()
      ensures r.Err? ==> users == old(users)
      ensures amount.None? || amount.value <= 0 ==> r == Err(InvalidAmount)
      ensures amount.Some? && amount.value > 0 && caller !in old(users) ==> r == Err(UserNotFound)
      ensures amount.Some? && amount.value > 0 && caller in old(users) ==>
        && users == Credit(old(users), caller, amount.value)
        && r == Ok(old(users)[caller].balance + amount.value)
        && TotalBalance(users) == TotalBalance(old(users)) + amount.value
    {
      if amount.None? || amount.value <= 0 {
        return Err(InvalidAmount);
      }
      if caller !in users {
        return Err(UserNotFound);
      }
      CreditAdds(users, caller, amount.value);
      var user := users[caller];
      user := user.(balance := user.balance + amount.value);
      Save(caller, user);
      r := Ok(user.balance);
    }

    // -------------------------------------------------------------------
    // Book handlers

    /** getAllBooks: every book, newest first, or NoBooks when there is none. */
    method GetAllBooks() returns (r: Result<seq<Id>>)
      requires Valid()
      ensures r == Err(NoBooks) <==> books == map[]
      ensures r.Ok? ==> forall id :: id in r.value <==> id in books
      ensures r.Ok? ==> Descending(r.value, books)
    {
      var ids := NewestFirst(order, books, None);
      NewestFirstSorted(order, books, None);
      if |ids| == 0 {
        return Err(NoBooks);
      }
      r := Ok(ids);
    }

    /** getBookUser: the caller's books, newest first, or NoBooks when there is none. */
    method GetBookUser(caller: Id) returns (r: Result<seq<Id>>)
      requires Valid()
      ensures r == Err(NoBooks) <==> forall id :: id in books ==> books[id].owner != caller
      ensures r.Ok? ==> forall id :: id in r.value <==> id in books && books[id].owner == caller
      ensures r.Ok? ==> Descending(r.value, books)
    {
      var ids := NewestFirst(order, books, Some(caller));
      NewestFirstSorted(order, books, Some(caller));
      assert forall id :: id in books && books[id].owner == caller ==> id in ids by {
        forall id | id in books && books[id].owner == caller ensures id in ids {
          assert id in order;
        }
      }
      if |ids| == 0 {
        return Err(NoBooks);
      }
      assert ids[0] in books && books[ids[0]].owner == caller;
      r := Ok(ids);
    }

    /** getbookById. */
    method GetBookById(id: Id) returns (r: Result<Book>)
      requires Valid()
      ensures id !in books <==> r == Err(BookNotFound)
      ensures r.Ok? ==> r.value == books[id] && r.value.price >= 1 && r.value.stock >= 1
      ensures r.Ok? ==> r.value.likes == |r.value.likedBy|
    {
      if id !in books {
        return Err(BookNotFound);
      }
      r := Ok(books[id]);
    }

    /** createBook: a new book owned by the caller, at the end of the creation order. */
    method CreateBook(caller: Id, form: BookForm, image: Option<string>) returns (r: Result<Id>)
      requires Valid()
      modifies this`books, this`order, this`clock
      ensures Valid()
      ensures var check := ValidateCreate(form, image);
        && (check.Err? ==>
              r == Err(check.error) && books == old(books) && order == old(order) && clock == old(clock))
        && (check.Ok? ==>
              && r == Ok(old(clock)) && old(clock) !in old(books)
              && books == old(books)[old(clock) := NewBook(check.value, image.value, caller, old(clock))]
              && order == old(order) + [old(clock)]
              && clock == old(clock) + 1)
    {
      var check := ValidateCreate(form, image);
      if check.Err? {
        return Err(check.error);
      }
      var id := clock;
      var book := NewBook(check.value, image.value, caller, id);
      BooksOkInsert(books, order, clock, book);
      UsersOkTick(users, emailIndex, clock);
      books := books[id := book];
      order := order + [id];
      clock := clock + 1;
      r := Ok(id);
    }

    /** updateBook: rewrite the five fields of a book the caller owns. */
    method UpdateBook(caller: Id, id: Id, form: BookForm) returns (r: Result<()>)
      requires Valid()
      modifies this`books
      ensures Valid()
      ensures r.Err? ==> books == old(books)
      ensures ValidateFields(form).Err? ==> r == Err(ValidateFields(form).error)
      ensures ValidateFields(form).Ok? && !OwnedBy(old(books), id, caller) ==> r == Err(BookNotFound)
      ensures ValidateFields(form).Ok? && OwnedBy(old(books), id, caller) ==>
        && r == Ok(())
        && books == old(books)[id := ApplyUpdate(old(books)[id], ValidateFields(form).value)]
    {
      var check := ValidateFields(form);
      if check.Err? {
        return Err(check.error);
      }
      if id !in books || books[id].owner != caller {
        return Err(BookNotFound);
      }
      BooksOkUpdate(books, order, clock, id, ApplyUpdate(books[id], check.value));
      books := books[id := ApplyUpdate(books[id], check.value)];
      r := Ok(());
    }

    /** deleteBook: remove a book the caller owns. */
    method DeleteBook(caller: Id, id: Id) returns (r: Result<()>)
      requires Valid()
      modifies this`books, this`order
      ensures Valid()
      ensures !OwnedBy(old(books), id, caller) ==>
        r == Err(BookNotFound) && books == old(books) && order == old(order)
      ensures OwnedBy(old(books), id, caller) ==>
        r == Ok(()) && books == old(books) - {id} && order == Without(old(order), id)
    {
      if id !in books || books[id].owner != caller {
        return Err(BookNotFound);
      }
      BooksOkDelete(books, order, clock, id);
      books := books - {id};
      order := Without(order, id);
      r := Ok(());
    }

    /** likeBook: toggle the caller's like on the book. */
    method LikeBook(caller: Id, id: Id) returns (r: Result<LikeOutcome>)
      requires Valid()
      modifies this`books
      ensures Valid()
      ensures id !in old(books) ==> r == Err(BookNotFound) && books == old(books)
      ensures id in old(books) ==>
        && books == old(books)[id := Toggle(old(books)[id], caller)]
        && r == Ok(LikeOutcome(caller in old(books)[id].likedBy, books[id].likes))
        && books[id].likes == |books[id].likedBy|
    {
      if id !in books {
        return Err(BookNotFound);
      }
      var book := books[id];
      var hasLiked := caller in book.likedBy;
      ToggleKeepsConsistent(book, caller);
      if hasLiked {
        book := book.(likes := if book.likes - 1 > 0 then book.likes - 1 else 0,
                      likedBy := Without(book.likedBy, caller));
      } else {
        book := book.(likes := book.likes + 1, likedBy := book.likedBy + [caller]);
      }
      BooksOkUpdate(books, order, clock, id, book);
      books := books[id := book];
      r := Ok(LikeOutcome(hasLiked, book.likes));
    }

    // -------------------------------------------------------------------
    // User handlers

    /** register: the check chain, then a new user and a session for it. */
    method Register(form: RegisterForm, isEmail: string -> bool) returns (r: Result<Session>)
      requires Valid()
      modifies this`users, this`emailIndex, this`clock
      ensures Valid()
      ensures var check := CheckRegistration(form, isEmail, Emails(old(users)));
        && (check.Some? ==> r == Err(check.value) && users == old(users) && emailIndex == old(emailIndex) && clock == old(clock))
        && (check.None? ==>
              var id := old(clock);
              && id !in old(users)
              && users == old(users)[id := NewUser(form.fullname, form.email, Hash(form.password))]
              && emailIndex == old(emailIndex)[Normalize(form.email) := id]
              && r == Ok(Session(PublicView(id, users[id]), Token(id)))
              && clock == old(clock) + 1)
      ensures r.Ok? ==> |users| == |old(users)| + 1 && Matches(form.password, users[r.value.token.userId].password)
    {
      IndexedEmails(users, emailIndex, clock);
      var check := CheckRegistration(form, isEmail, emailIndex.Keys);
      if check.Some? {
        return Err(check.value);
      }
      var newUser := NewUser(form.fullname, form.email, Hash(form.password));
      AcceptedRegistration(form, isEmail, emailIndex.Keys);
      var id := Enroll(newUser);
      r := Ok(Session(PublicView(id, newUser), Token(id)));
    }

    /** The insert of a registration: the user under a fresh id, its email in the unique index. */
    method Enroll(u: User) returns (id: Id)
      requires Valid()
      requires u.email !in emailIndex && u.balance >= 0
      modifies this`users, this`emailIndex, this`clock
      ensures Valid()
      ensures id == old(clock) && id !in old(users)
      ensures users == old(users)[id := u]
      ensures emailIndex == old(emailIndex)[u.email := id]
      ensures clock == old(clock) + 1
    {
      UsersOkInsert(users, emailIndex, clock, u);
      BooksOkTick(books, order, clock);
      id := clock;
      users := users[id := u];
      emailIndex := emailIndex[u.email := id];
      clock := clock + 1;
    }

    /** login: find the user by normalised email and check the password. */
    method Login(email: string, password: string) returns (r: Result<Session>)
      requires Valid()
      ensures email == "" || password == "" <==> r == Err(MissingFields)
      ensures email != "" && password != "" && Normalize(email) !in Emails(users) <==> r == Err(EmailInvalid)
      ensures r == Err(PasswordInvalid) <==>
        email != "" && password != "" &&
        exists id :: id in users && users[id].email == Normalize(email) && !Matches(password, users[id].password)
      ensures r.Ok? ==>
        var id := r.value.token.userId;
        && id in users && users[id].email == Normalize(email) && Matches(password, users[id].password)
        && r.value == Session(PublicView(id, users[id]), Token(id))
      ensures r.Ok? || r.error in {MissingFields, EmailInvalid, PasswordInvalid}
    {
      if email == "" || password == "" {
        return Err(MissingFields);
      }
      var key := Normalize(email);
      IndexedEmails(users, emailIndex, clock);
      if key !in emailIndex {
        return Err(EmailInvalid);
      }
      var id := emailIndex[key];
      if !Matches(password, users[id].password) {
        return Err(PasswordInvalid);
      }
      r := Ok(Session(PublicView(id, users[id]), Token(id)));
    }

    /** me: the caller's profile, balance included. */
    method Me(caller: Id) returns (r: Result<Profile>)
      requires Valid()
      ensures caller !in users <==> r == Err(Unauthorized)
      ensures r.Ok? ==> r.value == ProfileView(caller, users[caller]) && r.value.balance >= 0
    {
      if caller !in users {
        return Err(Unauthorized);
      }
      r := Ok(ProfileView(caller, users[caller]));
    }

    /**
     * profileUser: for each supplied image, destroy the old one if it is on
     * the media host, then store the new URL.
     */
    method ProfileUser(caller: Id, up: Uploads) returns (r: Result<User>)
      requires Valid()
      modifies this`users, this`destroyed
      ensures Valid()
      ensures caller !in old(users) ==>
        r == Err(Unauthorized) && users == old(users) && destroyed == old(destroyed)
      ensures caller in old(users) ==>
        && users == old(users)[caller := ApplyUploads(old(users)[caller], up)]
        && destroyed == old(destroyed) + Destroyed(old(users)[caller], up)
        && r == Ok(users[caller])
    {
      if caller !in users {
        return Err(Unauthorized);
      }
      var user := users[caller];
      var avatar := user.avatar;
      var cover := user.cover;
      if up.avatar.Some? {
        if Hosted(user.avatar) {
          destroyed := destroyed + [Asset(Avatars, ExtractPublicId(user.avatar))];
        }
        avatar := up.avatar.value;
      }
      if up.cover.Some? {
        if Hosted(user.cover) {
          destroyed := destroyed + [Asset(Covers, ExtractPublicId(user.cover))];
        }
        cover := up.cover.value;
      }
      var updated := user.(avatar := avatar, cover := cover);
      Save(caller, updated);
      r := Ok(updated);
    }
  }
}
