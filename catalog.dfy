/**
 * Catalog rules: the field checks of createBook and updateBook, what an
 * update may change, the like toggle, and the newest-first listings.
 */
module Catalog {
  import opened Models

  /**
   * A numeric form field as the handlers read it. For price, every input
   * that `!price` rejects (missing, blank, null, or a JSON number 0) is
   * `Absent`. For stock, which has no presence check, `Absent` is a missing
   * field (undefined, which `Number` makes NaN) and a blank or null stock
   * reads as `Number(0)`. `NotNumber` is any other input `Number` makes NaN.
   */
  datatype NumInput = Absent | NotNumber | Number(n: int)

  /** The body of createBook and updateBook; an empty text field is an absent one. */
  datatype BookForm = BookForm(
    title: string,
    description: string,
    price: NumInput,
    stock: NumInput,
    category: string)

  /** The fields once validated and parsed. */
  datatype BookFields = BookFields(
    title: string,
    description: string,
    price: int,
    stock: int,
    category: string)

  /** `!title || !description || !price || !category`; stock is not among them. */
  predicate MissingRequired(form: BookForm)
  {
    form.title == "" || form.description == "" || form.price.Absent? || form.category == ""
  }

  /** The checks updateBook runs, in order, and the fields it then writes. */
  function ValidateFields(form: BookForm): (r: Result<BookFields>)
    ensures r == Err(MissingFields) <==> MissingRequired(form)
    ensures r == Err(NotANumber) <==>
      !MissingRequired(form) && (!form.price.Number? || !form.stock.Number?)
    ensures r == Err(BelowOne) <==>
      !MissingRequired(form) && form.price.Number? && form.stock.Number?
      && (form.price.n < 1 || form.stock.n < 1)
    ensures r.Ok? ==> r.value.price >= 1 && r.value.stock >= 1
    ensures r.Ok? ==> r.value == BookFields(form.title, form.description, form.price.n, form.stock.n, form.category)
  {
    if MissingRequired(form) then Err(MissingFields)
    else if !form.price.Number? || !form.stock.Number? then Err(NotANumber)
    else if form.price.n < 1 || form.stock.n < 1 then Err(BelowOne)
    else Ok(BookFields(form.title, form.description, form.price.n, form.stock.n, form.category))
  }

  /** The checks createBook runs: updateBook's, with the image required after the fields. */
  function ValidateCreate(form: BookForm, image: Option<string>): (r: Result<BookFields>)
    ensures MissingRequired(form) ==> r == Err(MissingFields)
    ensures !MissingRequired(form) && image.None? ==> r == Err(MissingImage)
    ensures image.Some? ==> r == ValidateFields(form)
  {
    if MissingRequired(form) then Err(MissingFields)
    else if image.None? then Err(MissingImage)
    else ValidateFields(form)
  }

  /** An absent stock reaches Number() as undefined, which is NaN. */
  lemma AbsentStockRejected(form: BookForm, image: Option<string>)
    requires form.stock.Absent?
    ensures ValidateCreate(form, image).Err? && ValidateFields(form).Err?
  {
  }

  /** A blank or null stock is 0 to `Number`: it passes the NaN check and fails the `< 1` one. */
  lemma BlankStockBelowOne(form: BookForm, image: string)
    requires !MissingRequired(form) && form.price.Number? && form.stock == Number(0)
    ensures ValidateFields(form) == Err(BelowOne)
    ensures ValidateCreate(form, Some(image)) == Err(BelowOne)
  {
  }

  /** The book createBook stores: owned by the caller, with no likes. */
  function NewBook(fields: BookFields, image: string, owner: Id, createdAt: nat): (b: Book)
    ensures b.owner == owner && b.likes == 0 && b.likedBy == [] && b.image == image
    ensures FieldsOf(b) == fields
  {
    Book(fields.title, fields.description, fields.price, fields.stock, image, fields.category,
         owner, DefaultLikes, [], createdAt)
  }

  function FieldsOf(b: Book): BookFields
  {
    BookFields(b.title, b.description, b.price, b.stock, b.category)
  }

  /** updateBook's write: the five form fields change, nothing else does. */
  function ApplyUpdate(book: Book, fields: BookFields): (b: Book)
    ensures FieldsOf(b) == fields
    ensures b.owner == book.owner && b.image == book.image && b.createdAt == book.createdAt
    ensures b.likes == book.likes && b.likedBy == book.likedBy
  {
    book.(title := fields.title, description := fields.description, price := fields.price,
          stock := fields.stock, category := fields.category)
  }

  /** Update and delete match on id and owner together. */
  predicate OwnedBy(books: map<Id, Book>, id: Id, user: Id)
  {
    id in books && books[id].owner == user
  }

  // ---------------------------------------------------------------------
  // Likes

  predicate Distinct(s: seq<Id>)
  {
    forall i, j :: 0 <= i < j < |s| ==> s[i] != s[j]
  }

  function Occurrences(s: seq<Id>, u: Id): nat
  {
    if |s| == 0 then 0 else (if s[0] == u then 1 else 0) + Occurrences(s[1..], u)
  }

  /** likedBy.filter(id => id !== user). */
  function Without(s: seq<Id>, u: Id): (r: seq<Id>)
    ensures u !in r
    ensures forall v :: v != u ==> (v in r <==> v in s)
  {
    if |s| == 0 then []
    else if s[0] == u then Without(s[1..], u)
    else [s[0]] + Without(s[1..], u)
  }

  /** The like counter agrees with the liking list, which names no one twice. */
  predicate LikesConsistent(b: Book)
  {
    b.likes == |b.likedBy| && Distinct(b.likedBy)
  }

  /** likeBook: unlike (floored at 0) if the user is in likedBy, else like. */
  function Toggle(book: Book, user: Id): (b: Book)
    ensures user in b.likedBy <==> user !in book.likedBy
    ensures forall v :: v != user ==> (v in b.likedBy <==> v in book.likedBy)
    ensures user in book.likedBy ==> b.likes == if book.likes >= 1 then book.likes - 1 else 0
    ensures user !in book.likedBy ==> b.likes == book.likes + 1 && b.likedBy == book.likedBy + [user]
    ensures b == book.(likes := b.likes, likedBy := b.likedBy)
  {
    if user in book.likedBy then
      book.(likes := if book.likes - 1 > 0 then book.likes - 1 else 0, likedBy := Without(book.likedBy, user))
    else
      book.(likes := book.likes + 1, likedBy := book.likedBy + [user])
  }

  lemma {:induction false} WithoutLength(s: seq<Id>, u: Id)
    ensures |Without(s, u)| == |s| - Occurrences(s, u)
  {
    if |s| > 0 {
      WithoutLength(s[1..], u);
    }
  }

  lemma {:induction false} WithoutAbsent(s: seq<Id>, u: Id)
    requires u !in s
    ensures Without(s, u) == s
  {
    if |s| > 0 {
      assert s[0] != u;
      WithoutAbsent(s[1..], u);
      assert s == [s[0]] + s[1..];
    }
  }

  lemma {:induction false} WithoutAppend(s: seq<Id>, u: Id)
    ensures Without(s + [u], u) == Without(s, u)
  {
    if |s| == 0 {
      assert s + [u] == [u];
    } else {
      assert (s + [u])[1..] == s[1..] + [u];
      WithoutAppend(s[1..], u);
    }
  }

  lemma {:induction false} DistinctOccursOnce(s: seq<Id>, u: Id)
    requires Distinct(s)
    ensures Occurrences(s, u) <= 1
    ensures u in s ==> Occurrences(s, u) == 1
  {
    if |s| > 0 {
      assert Distinct(s[1..]) by {
        forall i, j | 0 <= i < j < |s[1..]| ensures s[1..][i] != s[1..][j] {
          assert s[1..][i] == s[i + 1] && s[1..][j] == s[j + 1];
        }
      }
      DistinctOccursOnce(s[1..], u);
      if s[0] == u {
        assert u !in s[1..] by {
          forall j | 0 <= j < |s[1..]| ensures s[1..][j] != u { assert s[1..][j] == s[j + 1]; }
        }
        OccurrencesAbsent(s[1..], u);
      } else if u in s {
        var k :| 0 <= k < |s| && s[k] == u;
        assert s[1..][k - 1] == u;
      }
    }
  }

  lemma {:induction false} OccurrencesAbsent(s: seq<Id>, u: Id)
    requires u !in s
    ensures Occurrences(s, u) == 0
  {
    if |s| > 0 {
      assert s[0] != u && u !in s[1..];
      OccurrencesAbsent(s[1..], u);
    }
  }

  lemma {:induction false} WithoutDistinct(s: seq<Id>, u: Id)
    requires Distinct(s)
    ensures Distinct(Without(s, u))
  {
    if |s| > 0 {
      var t := s[1..];
      assert Distinct(t) by {
        forall i, j | 0 <= i < j < |t| ensures t[i] != t[j] { assert t[i] == s[i + 1] && t[j] == s[j + 1]; }
      }
      WithoutDistinct(t, u);
      if s[0] != u {
        var w := Without(t, u);
        assert s[0] !in t by {
          forall j | 0 <= j < |t| ensures t[j] != s[0] { assert t[j] == s[j + 1]; }
        }
        assert s[0] !in w;
        var r := [s[0]] + w;
        forall i, j | 0 <= i < j < |r| ensures r[i] != r[j] {
          if i == 0 { assert r[j] == w[j - 1]; } else { assert r[i] == w[i - 1] && r[j] == w[j - 1]; }
        }
      }
    }
  }

  /**
   * The counter stays equal to the list's length across a toggle, as long as
   * the user appears in the list at most once.
   */
  lemma ToggleKeepsCount(book: Book, user: Id)
    requires book.likes == |book.likedBy| && Occurrences(book.likedBy, user) <= 1
    ensures Toggle(book, user).likes == |Toggle(book, user).likedBy|
  {
    WithoutLength(book.likedBy, user);
    if user in book.likedBy {
      OccurrencesPositive(book.likedBy, user);
    }
  }

  lemma {:induction false} OccurrencesPositive(s: seq<Id>, u: Id)
    requires u in s
    ensures Occurrences(s, u) >= 1
  {
    if s[0] != u {
      var k :| 0 <= k < |s| && s[k] == u;
      assert s[1..][k - 1] == u;
      OccurrencesPositive(s[1..], u);
    }
  }

  /** The store's book invariant survives a toggle. */
  lemma ToggleKeepsConsistent(book: Book, user: Id)
    requires LikesConsistent(book)
    ensures LikesConsistent(Toggle(book, user))
  {
    DistinctOccursOnce(book.likedBy, user);
    ToggleKeepsCount(book, user);
    if user in book.likedBy {
      WithoutDistinct(book.likedBy, user);
    } else {
      var s := book.likedBy + [user];
      forall i, j | 0 <= i < j < |s| ensures s[i] != s[j] {
        if j == |s| - 1 { assert s[i] == book.likedBy[i]; }
      }
    }
  }

  /** Liking then unliking gives back exactly the book it started from. */
  lemma ToggleTwiceFromUnliked(book: Book, user: Id)
    requires user !in book.likedBy && book.likes >= 0
    ensures Toggle(Toggle(book, user), user) == book
  {
    assert user in book.likedBy + [user];
    WithoutAppend(book.likedBy, user);
    WithoutAbsent(book.likedBy, user);
  }

  /**
   * Unliking then liking restores who likes the book and, for a consistent
   * book, its counter; the user moves to the end of the list.
   */
  lemma ToggleTwiceFromLiked(book: Book, user: Id)
    requires user in book.likedBy && LikesConsistent(book)
    ensures forall v :: v in Toggle(Toggle(book, user), user).likedBy <==> v in book.likedBy
    ensures Toggle(Toggle(book, user), user).likes == book.likes
  {
    DistinctOccursOnce(book.likedBy, user);
    OccurrencesPositive(book.likedBy, user);
    assert book.likes >= 1;
  }

  // ---------------------------------------------------------------------
  // Listings

  /** The book ids are in creation order: createdAt strictly increases along it. */
  predicate CreationOrdered(order: seq<Id>, books: map<Id, Book>)
  {
    && (forall i :: 0 <= i < |order| ==> order[i] in books)
    && (forall i, j :: 0 <= i < j < |order| ==> books[order[i]].createdAt < books[order[j]].createdAt)
  }

  /** A listing filter: every book, or only the books of one owner. */
  predicate Selected(b: Book, owner: Option<Id>)
  {
    owner.None? || b.owner == owner.value
  }

  /** `find(filter)` read off the creation order backwards: the newest book first. */
  function NewestFirst(order: seq<Id>, books: map<Id, Book>, owner: Option<Id>): (r: seq<Id>)
    requires forall i :: 0 <= i < |order| ==> order[i] in books
    ensures forall i :: 0 <= i < |r| ==> r[i] in books && r[i] in order && Selected(books[r[i]], owner)
    ensures forall i :: 0 <= i < |order| && Selected(books[order[i]], owner) ==> order[i] in r
  {
    if |order| == 0 then []
    else
      var last := order[|order| - 1];
      var rest := NewestFirst(order[..|order| - 1], books, owner);
      assert forall i :: 0 <= i < |rest| ==> rest[i] in order;
      if Selected(books[last], owner) then [last] + rest else rest
  }

  /** Dropping the newest id keeps a creation order; every other id is older than it. */
  lemma CreationOrderedInit(order: seq<Id>, books: map<Id, Book>)
    requires CreationOrdered(order, books) && |order| > 0
    ensures CreationOrdered(order[..|order| - 1], books)
    ensures forall k :: 0 <= k < |order| - 1 ==> books[order[k]].createdAt < books[order[|order| - 1]].createdAt
  {
  }

  /** Strictly newest first: createdAt decreases along the list. */
  predicate Descending(r: seq<Id>, books: map<Id, Book>)
  {
    && (forall i :: 0 <= i < |r| ==> r[i] in books)
    && (forall i, j :: 0 <= i < j < |r| ==> books[r[i]].createdAt > books[r[j]].createdAt)
  }

  /** A book newer than everything in a descending list can go in front of it. */
  lemma DescendingCons(x: Id, rest: seq<Id>, books: map<Id, Book>)
    requires x in books && Descending(rest, books)
    requires forall j :: 0 <= j < |rest| ==> books[rest[j]].createdAt < books[x].createdAt
    ensures Descending([x] + rest, books)
  {
    var r := [x] + rest;
    forall i, j | 0 <= i < j < |r| ensures books[r[i]].createdAt > books[r[j]].createdAt {
      assert r[j] == rest[j - 1];
      if i > 0 { assert r[i] == rest[i - 1]; }
    }
  }

  /** `.sort({createdAt: -1})`: along a creation order the listing is strictly newest first. */
  lemma {:induction false} NewestFirstSorted(order: seq<Id>, books: map<Id, Book>, owner: Option<Id>)
    requires CreationOrdered(order, books)
    ensures Descending(NewestFirst(order, books, owner), books)
  {
    if |order| > 0 {
      var init := order[..|order| - 1];
      var last := order[|order| - 1];
      CreationOrderedInit(order, books);
      NewestFirstSorted(init, books, owner);
      var rest := NewestFirst(init, books, owner);
      if Selected(books[last], owner) {
        forall j | 0 <= j < |rest| ensures books[rest[j]].createdAt < books[last].createdAt {
          var k :| 0 <= k < |init| && init[k] == rest[j];
        }
        DescendingCons(last, rest, books);
      }
    }
  }
}
