/**
 * The ordered line-item list of a cart and the three edits the cart handlers
 * make to it: add a book, remove a book, set a book's quantity. Every edit
 * reprices the line it touches at the book's current price.
 */
module Carts {
  import opened Models

  /** Array.prototype.findIndex on the book id: first matching line, or -1. */
  function FindIndex(items: seq<CartItem>, bookId: Id): (i: int)
    ensures -1 <= i < |items|
    ensures i >= 0 ==> items[i].bookId == bookId
    ensures forall j :: 0 <= j < |items| && (i == -1 || j < i) ==> items[j].bookId != bookId
  {
    if |items| == 0 then -1
    else if items[0].bookId == bookId then 0
    else
      var k := FindIndex(items[1..], bookId);
      if k == -1 then -1 else k + 1
  }

  predicate Holds(items: seq<CartItem>, bookId: Id)
  {
    exists j :: 0 <= j < |items| && items[j].bookId == bookId
  }

  /** No book occupies two lines. */
  predicate DistinctBooks(items: seq<CartItem>)
  {
    forall i, j :: 0 <= i < j < |items| ==> items[i].bookId != items[j].bookId
  }

  /** A line's total is its quantity at the given unit price. */
  predicate PricedAt(item: CartItem, price: int)
  {
    item.totalPrice == item.quantity * price
  }

  /** The line invariant the handlers keep: quantity and total at least 1. */
  predicate LineOk(item: CartItem)
  {
    item.quantity >= 1 && item.totalPrice >= 1
  }

  predicate ItemsOk(items: seq<CartItem>)
  {
    DistinctBooks(items) && forall i :: 0 <= i < |items| ==> LineOk(items[i])
  }

  /** The number of copies of a book the cart holds, over all its lines. */
  function QuantityOf(items: seq<CartItem>, bookId: Id): int
  {
    if |items| == 0 then 0
    else (if items[0].bookId == bookId then items[0].quantity else 0) + QuantityOf(items[1..], bookId)
  }

  /** The fresh line addToCart writes for a book at a price. */
  function NewLine(bookId: Id, price: int): (item: CartItem)
    ensures item.bookId == bookId && item.quantity == DefaultQuantity && PricedAt(item, price)
  {
    CartItem(bookId, DefaultQuantity, price)
  }

  /**
   * addToCart on the item list (a missing cart is the empty list): bump the
   * first line of the book by one and reprice it, or append a new line.
   */
  function AddLine(items: seq<CartItem>, bookId: Id, price: int): (r: seq<CartItem>)
    ensures Holds(items, bookId) ==> |r| == |items|
    ensures !Holds(items, bookId) ==> r == items + [NewLine(bookId, price)]
    ensures var k := FindIndex(r, bookId);
      k >= 0 && PricedAt(r[k], price) && r[k].quantity == (if Holds(items, bookId) then items[k].quantity + 1 else 1)
    ensures forall j :: 0 <= j < |items| && items[j].bookId != bookId ==> r[j] == items[j]
  {
    var i := FindIndex(items, bookId);
    if i >= 0 then
      var q := items[i].quantity + 1;
      var r := items[i := items[i].(quantity := q, totalPrice := q * price)];
      FindIndexSameBooks(items, r, bookId);
      r
    else
      var r := items + [NewLine(bookId, price)];
      assert r[|items|].bookId == bookId;
      r
  }

  /** findIndex looks only at the book ids. */
  lemma FindIndexSameBooks(a: seq<CartItem>, b: seq<CartItem>, bookId: Id)
    requires |a| == |b| && forall j :: 0 <= j < |a| ==> a[j].bookId == b[j].bookId
    ensures FindIndex(a, bookId) == FindIndex(b, bookId)
  {
    var i, k := FindIndex(a, bookId), FindIndex(b, bookId);
    if i >= 0 && k >= 0 {
      assert !(i < k) && !(k < i);
    }
  }

  /** deleteItemCart's filter: every line of the book goes, the rest keep their order. */
  function RemoveBook(items: seq<CartItem>, bookId: Id): (r: seq<CartItem>)
    ensures |r| <= |items|
    ensures !Holds(r, bookId)
    ensures forall j :: 0 <= j < |r| ==> r[j] in items
  {
    if |items| == 0 then []
    else if items[0].bookId == bookId then RemoveBook(items[1..], bookId)
    else [items[0]] + RemoveBook(items[1..], bookId)
  }

  /** updateQuantity on the line at index i: set its quantity and reprice it. */
  function SetLine(items: seq<CartItem>, i: nat, quantity: int, price: int): (r: seq<CartItem>)
    requires i < |items|
    ensures |r| == |items| && r[i].bookId == items[i].bookId
    ensures r[i].quantity == quantity && PricedAt(r[i], price)
    ensures forall j :: 0 <= j < |items| && j != i ==> r[j] == items[j]
  {
    items[i := items[i].(quantity := quantity, totalPrice := quantity * price)]
  }

  // ---------------------------------------------------------------------
  // Lemmas

  lemma {:induction false} QuantityOfUpdate(items: seq<CartItem>, i: nat, x: CartItem, b: Id)
    requires i < |items|
    ensures QuantityOf(items[i := x], b) ==
      QuantityOf(items, b) - (if items[i].bookId == b then items[i].quantity else 0)
                           + (if x.bookId == b then x.quantity else 0)
  {
    if i > 0 {
      assert items[i := x][1..] == items[1..][i - 1 := x];
      QuantityOfUpdate(items[1..], i - 1, x, b);
    }
  }

  lemma {:induction false} QuantityOfAppend(items: seq<CartItem>, x: CartItem, b: Id)
    ensures QuantityOf(items + [x], b) == QuantityOf(items, b) + (if x.bookId == b then x.quantity else 0)
  {
    if |items| > 0 {
      assert (items + [x])[1..] == items[1..] + [x];
      QuantityOfAppend(items[1..], x, b);
    }
  }

  lemma {:induction false} QuantityOfAbsent(items: seq<CartItem>, b: Id)
    requires !Holds(items, b)
    ensures QuantityOf(items, b) == 0
  {
    if |items| > 0 {
      assert items[0].bookId != b;
      assert !Holds(items[1..], b) by {
        forall j | 0 <= j < |items[1..]| ensures items[1..][j].bookId != b {
          assert items[1..][j] == items[j + 1];
        }
      }
      QuantityOfAbsent(items[1..], b);
    }
  }

  /** Adding a book adds exactly one copy of it and no copy of any other book. */
  lemma AddLineCounts(items: seq<CartItem>, bookId: Id, price: int, other: Id)
    requires other != bookId
    ensures QuantityOf(AddLine(items, bookId, price), bookId) == QuantityOf(items, bookId) + 1
    ensures QuantityOf(AddLine(items, bookId, price), other) == QuantityOf(items, other)
  {
    var i := FindIndex(items, bookId);
    var r := AddLine(items, bookId, price);
    if i >= 0 {
      QuantityOfUpdate(items, i, r[i], bookId);
      QuantityOfUpdate(items, i, r[i], other);
      assert r == items[i := r[i]];
    } else {
      QuantityOfAppend(items, NewLine(bookId, price), bookId);
      QuantityOfAppend(items, NewLine(bookId, price), other);
    }
  }

  /** Adding keeps "one line per book" and the line invariant. */
  lemma AddLineKeepsItemsOk(items: seq<CartItem>, bookId: Id, price: int)
    requires ItemsOk(items) && price >= 1
    ensures ItemsOk(AddLine(items, bookId, price))
  {
    var r := AddLine(items, bookId, price);
    var i := FindIndex(items, bookId);
    if i >= 0 {
      assert r == items[i := r[i]];
      var q := items[i].quantity + 1;
      assert r[i].totalPrice == q * price;
      MulAtLeastOne(q, price);
      assert LineOk(r[i]);
      assert forall j :: 0 <= j < |r| ==> r[j].bookId == items[j].bookId;
    } else {
      assert forall j :: 0 <= j < |items| ==> r[j] == items[j];
    }
  }

  lemma MulAtLeastOne(a: int, b: int)
    requires a >= 1 && b >= 1
    ensures a * b >= a && a * b >= 1
  {
    assert a * b == a * (b - 1) + a;
    assert a * (b - 1) >= 0;
  }

  /** When the cart had no line for the book, the new cart is exactly one line. */
  lemma AddLineToEmpty(bookId: Id, price: int)
    ensures AddLine([], bookId, price) == [CartItem(bookId, 1, price)]
  {
  }

  /** Removing a book removes all its copies and keeps every other book's. */
  lemma {:induction false} RemoveBookCounts(items: seq<CartItem>, bookId: Id, other: Id)
    requires other != bookId
    ensures QuantityOf(RemoveBook(items, bookId), bookId) == 0
    ensures QuantityOf(RemoveBook(items, bookId), other) == QuantityOf(items, other)
  {
    if |items| > 0 {
      RemoveBookCounts(items[1..], bookId, other);
      var rest := RemoveBook(items[1..], bookId);
      if items[0].bookId != bookId {
        assert ([items[0]] + rest)[1..] == rest;
      }
    }
  }

  /** Filtering distributes over concatenation: the kept lines keep their order. */
  lemma {:induction false} RemoveBookConcat(xs: seq<CartItem>, ys: seq<CartItem>, bookId: Id)
    ensures RemoveBook(xs + ys, bookId) == RemoveBook(xs, bookId) + RemoveBook(ys, bookId)
  {
    if |xs| > 0 {
      assert (xs + ys)[1..] == xs[1..] + ys;
      RemoveBookConcat(xs[1..], ys, bookId);
    } else {
      assert xs + ys == ys;
    }
  }

  /** Removing a book the cart does not hold leaves the list as it was. */
  lemma {:induction false} RemoveBookAbsent(items: seq<CartItem>, bookId: Id)
    requires !Holds(items, bookId)
    ensures RemoveBook(items, bookId) == items
  {
    if |items| > 0 {
      assert items[0].bookId != bookId;
      assert !Holds(items[1..], bookId) by {
        forall j | 0 <= j < |items[1..]| ensures items[1..][j].bookId != bookId {
          assert items[1..][j] == items[j + 1];
        }
      }
      RemoveBookAbsent(items[1..], bookId);
      assert items == [items[0]] + items[1..];
    }
  }

  /** Removing keeps the line invariant and "one line per book". */
  lemma {:induction false} RemoveBookKeepsItemsOk(items: seq<CartItem>, bookId: Id)
    requires ItemsOk(items)
    ensures ItemsOk(RemoveBook(items, bookId))
  {
    if |items| > 0 {
      var tail := items[1..];
      assert ItemsOk(tail) by {
        forall j | 0 <= j < |tail| ensures LineOk(tail[j]) { assert tail[j] == items[j + 1]; }
        forall a, c | 0 <= a < c < |tail| ensures tail[a].bookId != tail[c].bookId {
          assert tail[a] == items[a + 1] && tail[c] == items[c + 1];
        }
      }
      RemoveBookKeepsItemsOk(tail, bookId);
      var rest := RemoveBook(tail, bookId);
      if items[0].bookId != bookId {
        var r := [items[0]] + rest;
        forall j | 0 <= j < |rest| ensures rest[j].bookId != items[0].bookId {
          var i :| 0 <= i < |tail| && rest[j] == tail[i];
          assert tail[i] == items[i + 1];
        }
        assert forall j :: 0 <= j < |rest| ==> r[j + 1] == rest[j];
      }
    }
  }

  /** Setting a quantity >= 1 at a book's positive price keeps the invariant. */
  lemma SetLineKeepsItemsOk(items: seq<CartItem>, i: nat, quantity: int, price: int)
    requires ItemsOk(items) && i < |items| && quantity >= 1 && price >= 1
    ensures ItemsOk(SetLine(items, i, quantity, price))
  {
    var r := SetLine(items, i, quantity, price);
    MulAtLeastOne(quantity, price);
    assert forall j :: 0 <= j < |r| ==> r[j].bookId == items[j].bookId;
  }

  /** In a cart with one line per book, setting a quantity sets that book's count. */
  lemma SetLineSetsCount(items: seq<CartItem>, bookId: Id, quantity: int, price: int)
    requires DistinctBooks(items) && FindIndex(items, bookId) >= 0
    ensures QuantityOf(SetLine(items, FindIndex(items, bookId), quantity, price), bookId) == quantity
  {
    var i := FindIndex(items, bookId);
    var r := SetLine(items, i, quantity, price);
    assert r == items[i := r[i]];
    QuantityOfUpdate(items, i, r[i], bookId);
    QuantityOfSingle(items, i);
  }

  /** Setting a book's quantity leaves every other book's count as it was. */
  lemma SetLineCounts(items: seq<CartItem>, bookId: Id, quantity: int, price: int, other: Id)
    requires FindIndex(items, bookId) >= 0 && other != bookId
    ensures QuantityOf(SetLine(items, FindIndex(items, bookId), quantity, price), other) == QuantityOf(items, other)
  {
    var i := FindIndex(items, bookId);
    var r := SetLine(items, i, quantity, price);
    assert r == items[i := r[i]];
    QuantityOfUpdate(items, i, r[i], other);
  }

  /** With one line per book, the count of the book at line i is that line's quantity. */
  lemma {:induction false} QuantityOfSingle(items: seq<CartItem>, i: nat)
    requires DistinctBooks(items) && i < |items|
    ensures QuantityOf(items, items[i].bookId) == items[i].quantity
  {
    var b := items[i].bookId;
    var tail := items[1..];
    assert DistinctBooks(tail) by {
      forall a, c | 0 <= a < c < |tail| ensures tail[a].bookId != tail[c].bookId {
        assert tail[a] == items[a + 1] && tail[c] == items[c + 1];
      }
    }
    if i == 0 {
      assert !Holds(tail, b) by {
        forall j | 0 <= j < |tail| ensures tail[j].bookId != b { assert tail[j] == items[j + 1]; }
      }
      QuantityOfAbsent(tail, b);
    } else {
      assert tail[i - 1] == items[i];
      QuantityOfSingle(tail, i - 1);
    }
  }
}
