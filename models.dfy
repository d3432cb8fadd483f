/**
 * The records of the four collections (users, books, carts, transactions),
 * their schema defaults, and the trim/lowercase normalisation that the user
 * schema applies to names and emails.
 */
module Models {

  /** A document identifier (an ObjectId in the store). */
  type Id = nat

  datatype Option<+T> = None | Some(value: T)

  /** What a handler answers: a value, or the kind of error it reports. */
  datatype Result<+T> = Ok(value: T) | Err(error: Error)

  /** The error kinds the handlers report; HTTP status codes are not modelled. */
  datatype Error =
    | MissingFields        // a required body field is absent or empty
    | MissingImage         // createBook without an uploaded image
    | NotANumber           // price or stock does not parse as a number
    | BelowOne             // price or stock below 1
    | BookNotFound
    | NoBooks              // a listing came back empty
    | CartNotFound
    | NotInCart            // updateQuantity on a book the cart does not hold
    | QuantityTooSmall
    | ReceiverRequired
    | SelfTransfer
    | CartEmpty
    | UsersNotFound        // transfer: sender or receiver missing
    | InsufficientBalance
    | InvalidAmount
    | UserNotFound
    | Unauthorized
    | InvalidEmail         // register: email fails the syntax check
    | WeakPassword
    | PasswordMismatch
    | EmailTaken
    | EmailInvalid         // login: no user has this email
    | PasswordInvalid      // login: the password does not match

  /**
   * A stored password. Registration stores a bcrypt digest; here the digest is
   * an injective constructor, so it is never the plaintext string itself.
   */
  datatype Credential = Digest(secret: string)

  datatype User = User(
    fullname: string,
    email: string,
    password: Credential,
    avatar: string,
    cover: string,
    balance: int)

  datatype Book = Book(
    title: string,
    description: string,
    price: int,
    stock: int,
    image: string,
    category: string,
    owner: Id,            // the schema's userId
    likes: int,
    likedBy: seq<Id>,
    createdAt: nat)

  /** One line of a cart. */
  datatype CartItem = CartItem(bookId: Id, quantity: int, totalPrice: int)

  /** A user's cart: the owning user and its ordered lines. */
  datatype Cart = Cart(userId: Id, items: seq<CartItem>)

  /** A ledger record; no handler ever updates one. */
  datatype Transaction = Transaction(sender: Id, receiver: Id, amount: int, createdAt: nat)

  const DefaultBalance: int := 2300
  /**
   * The schema's stock default. createBook rejects an absent stock (it parses
   * to NaN) before any write, so no stored book ever takes this default.
   */
  const DefaultStock: int := 1
  const DefaultLikes: int := 0
  const DefaultQuantity: int := 1
  const DefaultLineTotal: int := 0
  /** The host whose assets the profile update destroys before replacing them. */
  const MediaHost: string := "res.cloudinary.com"
  const MediaRoot: string := "https://" + MediaHost + "/dgagbheuj/image/upload"

  /** The default avatar: <root>/v1763194734/avatar-default-image_yc4xy4.jpg */
  const DefaultAvatar: string := MediaRoot + "/v1763194734" + "/" + "avatar-default-image_yc4xy4" + "." + "jpg"
  /** The default cover: <root>/v1763194811/cover-default-image_uunwq6.jpg */
  const DefaultCover: string := MediaRoot + "/v1763194811" + "/" + "cover-default-image_uunwq6" + "." + "jpg"

  /** A cart line as the schema stores it when only its book is given. */
  function SchemaLine(bookId: Id): (item: CartItem)
    ensures item.bookId == bookId && item.quantity == 1 && item.totalPrice == 0
  {
    CartItem(bookId, DefaultQuantity, DefaultLineTotal)
  }

  predicate StartsWith(s: string, prefix: string)
  {
    |prefix| <= |s| && s[..|prefix|] == prefix
  }

  /** String.prototype.includes: `part` starts at some position of `s`. */
  predicate Contains(s: string, part: string)
    decreases |s|
  {
    StartsWith(s, part) || (|s| > 0 && Contains(s[1..], part))
  }

  lemma {:induction false} ContainsMiddle(a: string, b: string, c: string)
    ensures Contains(a + b + c, b)
  {
    var s := a + b + c;
    if |a| == 0 {
      assert s[..|b|] == b;
    } else {
      assert s[1..] == a[1..] + b + c;
      ContainsMiddle(a[1..], b, c);
    }
  }

  /** Both default images live on the media host. */
  lemma DefaultsHosted()
    ensures Contains(DefaultAvatar, MediaHost) && Contains(DefaultCover, MediaHost)
  {
    var avatarTail := DefaultAvatar[|"https://" + MediaHost|..];
    assert DefaultAvatar == "https://" + MediaHost + avatarTail;
    ContainsMiddle("https://", MediaHost, avatarTail);
    var coverTail := DefaultCover[|"https://" + MediaHost|..];
    assert DefaultCover == "https://" + MediaHost + coverTail;
    ContainsMiddle("https://", MediaHost, coverTail);
  }

  /**
   * A user as the schema stores a registration: name and email trimmed and
   * lowercased, the default images and the starting balance.
   */
  function NewUser(fullname: string, email: string, password: Credential): User
  {
    User(Normalize(fullname), Normalize(email), password, DefaultAvatar, DefaultCover, DefaultBalance)
  }

  /**
   * A registered user starts with 2300, keeps the stored credential, has a
   * name and email the schema would not change again, and both images on
   * the media host.
   */
  lemma NewUserDefaults(fullname: string, email: string, password: Credential)
    ensures var u := NewUser(fullname, email, password);
      && u.balance == 2300 && u.password == password
      && Normalize(u.email) == u.email && Normalize(u.fullname) == u.fullname
      && Contains(u.avatar, MediaHost) && Contains(u.cover, MediaHost)
  {
    NormalizeIdempotent(fullname);
    NormalizeIdempotent(email);
    DefaultsHosted();
  }

  /** The hash the registration stores. */
  function Hash(password: string): Credential
  {
    Digest(password)
  }

  /** bcrypt.compare: does the plaintext match the stored digest? */
  predicate Matches(password: string, stored: Credential)
  {
    stored == Hash(password)
  }

  lemma HashInjective(p: string, q: string)
    ensures Hash(p) == Hash(q) <==> p == q
    ensures Matches(p, Hash(q)) <==> p == q
  {
  }

  // ---------------------------------------------------------------------
  // String normalisation (the schema's `trim: true` and `lowercase: true`)

  /** The characters String.prototype.trim removes. */
  predicate IsSpace(c: char)
  {
    || c == ' ' || c == '\t' || c == '\n' || c == '\r'
    || c == '\U{0B}' || c == '\U{0C}' || c == '\U{A0}' || c == '\U{1680}'
    || ('\U{2000}' <= c <= '\U{200A}')
    || c == '\U{2028}' || c == '\U{2029}' || c == '\U{202F}' || c == '\U{205F}'
    || c == '\U{3000}' || c == '\U{FEFF}'
  }

  /** Drops the leading whitespace. */
  function TrimStart(s: string): (r: string)
    ensures |r| <= |s| && r == s[|s| - |r|..]
    ensures forall i :: 0 <= i < |s| - |r| ==> IsSpace(s[i])
    ensures r == [] || !IsSpace(r[0])
  {
    if |s| > 0 && IsSpace(s[0]) then TrimStart(s[1..]) else s
  }

  /** Drops the trailing whitespace. */
  function TrimEnd(s: string): (r: string)
    ensures |r| <= |s| && r == s[..|r|]
    ensures forall i :: |r| <= i < |s| ==> IsSpace(s[i])
    ensures r == [] || !IsSpace(r[|r| - 1])
  {
    if |s| > 0 && IsSpace(s[|s| - 1]) then TrimEnd(s[..|s| - 1]) else s
  }

  function Trim(s: string): (r: string)
    ensures r == [] || (!IsSpace(r[0]) && !IsSpace(r[|r| - 1]))
  {
    TrimEnd(TrimStart(s))
  }

  function LowerChar(c: char): char
  {
    if 'A' <= c <= 'Z' then (c as int + 32) as char else c
  }

  predicate IsUpper(c: char)
  {
    'A' <= c <= 'Z'
  }

  /** ASCII lowercasing, character by character. */
  function Lower(s: string): (r: string)
    ensures |r| == |s|
    ensures forall i :: 0 <= i < |r| ==> !IsUpper(r[i])
    ensures forall i :: 0 <= i < |r| ==> (IsSpace(r[i]) <==> IsSpace(s[i]))
    ensures forall i :: 0 <= i < |s| ==>
      && (IsUpper(s[i]) ==> r[i] as int == s[i] as int + 32)
      && (!IsUpper(s[i]) ==> r[i] == s[i])
  {
    seq(|s|, i requires 0 <= i < |s| => LowerChar(s[i]))
  }

  /** What the schema stores for a `trim` + `lowercase` field. */
  function Normalize(s: string): string
  {
    Lower(Trim(s))
  }

  lemma TrimNoop(s: string)
    requires s == [] || (!IsSpace(s[0]) && !IsSpace(s[|s| - 1]))
    ensures Trim(s) == s
  {
    assert TrimStart(s) == s;
  }

  lemma LowerNoop(s: string)
    requires forall i :: 0 <= i < |s| ==> !IsUpper(s[i])
    ensures Lower(s) == s
  {
  }

  /** Normalising a stored value again changes nothing. */
  lemma NormalizeIdempotent(s: string)
    ensures Normalize(Normalize(s)) == Normalize(s)
  {
    var n := Normalize(s);
    TrimNoop(n);
    LowerNoop(n);
  }
}
