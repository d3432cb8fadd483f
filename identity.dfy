/**
 * Identity rules: the register check chain, the two views of a user the
 * handlers answer with, the session token, extractPublicId, and what the
 * profile update writes and destroys.
 */
module Identity {
  import opened Models

  const MinPasswordLength: nat := 8
  const AvatarFolder: string := "users/avatars"
  const CoverFolder: string := "users/covers"

  /** The register body; an empty string is an absent field. */
  datatype RegisterForm = RegisterForm(
    fullname: string,
    email: string,
    password: string,
    confirmPassword: string)

  /** The signed identity token, reduced to the id it is bound to. */
  datatype Token = Token(userId: Id)

  /** The user fields register and login answer with (no balance, no password). */
  datatype PublicUser = PublicUser(id: Id, fullname: string, email: string, avatar: string, cover: string)

  /** The user fields `me` answers with. */
  datatype Profile = Profile(id: Id, fullname: string, email: string, balance: int, avatar: string, cover: string)

  datatype Session = Session(user: PublicUser, token: Token)

  function PublicView(id: Id, u: User): PublicUser
  {
    PublicUser(id, u.fullname, u.email, u.avatar, u.cover)
  }

  function ProfileView(id: Id, u: User): Profile
  {
    Profile(id, u.fullname, u.email, u.balance, u.avatar, u.cover)
  }

  predicate AnyMissing(form: RegisterForm)
  {
    form.fullname == "" || form.email == "" || form.password == "" || form.confirmPassword == ""
  }

  /**
   * register's checks in order; the first that fails names the error. The
   * email-syntax check is a parameter; `registered` holds the stored emails,
   * and the lookup goes through the schema's normalisation.
   */
  function CheckRegistration(form: RegisterForm, isEmail: string -> bool, registered: set<string>): (r: Option<Error>)
    ensures r == Some(MissingFields) <==> AnyMissing(form)
    ensures r == Some(InvalidEmail) <==> !AnyMissing(form) && !isEmail(form.email)
    ensures r == Some(WeakPassword) <==>
      !AnyMissing(form) && isEmail(form.email) && |form.password| < MinPasswordLength
    ensures r == Some(PasswordMismatch) <==>
      !AnyMissing(form) && isEmail(form.email) && |form.password| >= MinPasswordLength
      && form.password != form.confirmPassword
    ensures r == Some(EmailTaken) <==>
      !AnyMissing(form) && isEmail(form.email) && |form.password| >= MinPasswordLength
      && form.password == form.confirmPassword && Normalize(form.email) in registered
    ensures r.Some? ==> r.value in {MissingFields, InvalidEmail, WeakPassword, PasswordMismatch, EmailTaken}
  {
    if AnyMissing(form) then Some(MissingFields)
    else if !isEmail(form.email) then Some(InvalidEmail)
    else if |form.password| < MinPasswordLength then Some(WeakPassword)
    else if form.password != form.confirmPassword then Some(PasswordMismatch)
    else if Normalize(form.email) in registered then Some(EmailTaken)
    else None
  }

  /** An accepted registration has a password of at least 8 characters, confirmed. */
  lemma AcceptedRegistration(form: RegisterForm, isEmail: string -> bool, registered: set<string>)
    requires CheckRegistration(form, isEmail, registered) == None
    ensures !AnyMissing(form) && isEmail(form.email)
    ensures |form.password| >= 8 && form.password == form.confirmPassword
    ensures Normalize(form.email) !in registered
  {
  }

  // ---------------------------------------------------------------------
  // extractPublicId

  /** The part after the last separator: `s.split(sep).pop()`. */
  function AfterLast(s: string, sep: char): (r: string)
    ensures sep !in r && |r| <= |s|
  {
    if |s| == 0 then []
    else if s[|s| - 1] == sep then []
    else AfterLast(s[..|s| - 1], sep) + [s[|s| - 1]]
  }

  /** The part before the first separator: `s.split(sep)[0]`. */
  function BeforeFirst(s: string, sep: char): (r: string)
    ensures sep !in r && |r| <= |s|
  {
    if |s| == 0 then []
    else if s[0] == sep then []
    else [s[0]] + BeforeFirst(s[1..], sep)
  }

  /** The last part is a suffix of the string, preceded by the separator unless it is all of it. */
  lemma {:induction false} AfterLastSuffix(s: string, sep: char)
    ensures var r := AfterLast(s, sep);
      r == s[|s| - |r|..] && (|r| < |s| ==> s[|s| - |r| - 1] == sep)
  {
    if |s| > 0 && s[|s| - 1] != sep {
      var init := s[..|s| - 1];
      AfterLastSuffix(init, sep);
      var r := AfterLast(s, sep);
      assert s[|s| - |r|..] == init[|init| - (|r| - 1)..] + [s[|s| - 1]];
    }
  }

  /** The first part is a prefix of the string, followed by the separator unless it is all of it. */
  lemma {:induction false} BeforeFirstPrefix(s: string, sep: char)
    ensures var r := BeforeFirst(s, sep);
      r == s[..|r|] && (|r| < |s| ==> s[|r|] == sep)
  {
    if |s| > 0 && s[0] != sep {
      BeforeFirstPrefix(s[1..], sep);
    }
  }

  /** The media asset id in a URL: the last path segment up to its first dot. */
  function ExtractPublicId(url: string): (id: string)
    ensures '/' !in id && '.' !in id && |id| <= |url|
  {
    var file := AfterLast(url, '/');
    BeforeFirstPrefix(file, '.');
    BeforeFirst(file, '.')
  }

  /** The last segment is exactly what follows the last separator. */
  lemma {:induction false} AfterLastOf(prefix: string, sep: char, tail: string)
    requires sep !in tail
    ensures AfterLast(prefix + [sep] + tail, sep) == tail
  {
    var s := prefix + [sep] + tail;
    if |tail| > 0 {
      var init := tail[..|tail| - 1];
      assert s[|s| - 1] == tail[|tail| - 1] != sep;
      assert s[..|s| - 1] == prefix + [sep] + init;
      assert sep !in init;
      AfterLastOf(prefix, sep, init);
      assert tail == init + [tail[|tail| - 1]];
    }
  }

  /** The first part is exactly what precedes the first separator. */
  lemma {:induction false} BeforeFirstOf(head: string, sep: char, rest: string)
    requires sep !in head
    ensures BeforeFirst(head + [sep] + rest, sep) == head
  {
    var s := head + [sep] + rest;
    if |head| > 0 {
      assert s[1..] == head[1..] + [sep] + rest;
      assert sep !in head[1..];
      BeforeFirstOf(head[1..], sep, rest);
      assert head == [head[0]] + head[1..];
    }
  }

  /** `dir/name.ext` yields `name`, whatever the directory and extension hold. */
  lemma ExtractPublicIdOf(dir: string, name: string, ext: string)
    requires '/' !in name && '.' !in name && '/' !in ext
    ensures ExtractPublicId(dir + "/" + name + "." + ext) == name
  {
    var tail := name + "." + ext;
    assert '/' !in tail;
    assert dir + "/" + name + "." + ext == dir + ['/'] + tail;
    AfterLastOf(dir, '/', tail);
    BeforeFirstOf(name, '.', ext);
  }

  lemma DefaultAvatarId()
    ensures ExtractPublicId(DefaultAvatar) == "avatar-default-image_yc4xy4"
  {
    var name := "avatar-default-image_yc4xy4";
    assert '/' !in name && '.' !in name && '/' !in "jpg";
    ExtractPublicIdOf(MediaRoot + "/v1763194734", name, "jpg");
  }

  lemma DefaultCoverId()
    ensures ExtractPublicId(DefaultCover) == "cover-default-image_uunwq6"
  {
    var name := "cover-default-image_uunwq6";
    assert '/' !in name && '.' !in name && '/' !in "jpg";
    ExtractPublicIdOf(MediaRoot + "/v1763194811", name, "jpg");
  }

  // ---------------------------------------------------------------------
  // profileUser

  /** The files supplied to profileUser, each as the URL its upload returned. */
  datatype Uploads = Uploads(avatar: Option<string>, cover: Option<string>)

  /** `url && url.includes("res.cloudinary.com")`. */
  predicate Hosted(url: string)
  {
    url != "" && Contains(url, MediaHost)
  }

  /** The two media folders the profile images are uploaded to. */
  datatype Folder = Avatars | Covers

  /** A media asset as a destroy call names it: `<folder path>/<public id>`. */
  datatype Asset = Asset(folder: Folder, publicId: string)

  function FolderPath(f: Folder): string
  {
    match f
    case Avatars => AvatarFolder
    case Covers => CoverFolder
  }

  /** The name the destroy call receives. */
  function AssetName(a: Asset): string
  {
    FolderPath(a.folder) + "/" + a.publicId
  }

  /** The asset ids profileUser destroys, avatar first. */
  function Destroyed(user: User, up: Uploads): (ids: seq<Asset>)
    ensures |ids| <= 2
    ensures Asset(Avatars, ExtractPublicId(user.avatar)) in ids
      <== up.avatar.Some? && Hosted(user.avatar)
    ensures Asset(Covers, ExtractPublicId(user.cover)) in ids
      <== up.cover.Some? && Hosted(user.cover)
    ensures (up.avatar.None? || !Hosted(user.avatar)) && (up.cover.None? || !Hosted(user.cover)) ==> ids == []
    ensures forall a :: a in ids ==>
      || (a == Asset(Avatars, ExtractPublicId(user.avatar)) && up.avatar.Some? && Hosted(user.avatar))
      || (a == Asset(Covers, ExtractPublicId(user.cover)) && up.cover.Some? && Hosted(user.cover))
    ensures |ids| == 2 ==> ids[0].folder == Avatars && ids[1].folder == Covers
  {
    (if up.avatar.Some? && Hosted(user.avatar) then [Asset(Avatars, ExtractPublicId(user.avatar))] else [])
    + (if up.cover.Some? && Hosted(user.cover) then [Asset(Covers, ExtractPublicId(user.cover))] else [])
  }

  /** The fields profileUser writes: only the images whose file was supplied. */
  function ApplyUploads(user: User, up: Uploads): (u: User)
    ensures u == user.(avatar := u.avatar, cover := u.cover)
    ensures up.avatar.Some? ==> u.avatar == up.avatar.value
    ensures up.avatar.None? ==> u.avatar == user.avatar
    ensures up.cover.Some? ==> u.cover == up.cover.value
    ensures up.cover.None? ==> u.cover == user.cover
  {
    user.(avatar := if up.avatar.Some? then up.avatar.value else user.avatar,
          cover := if up.cover.Some? then up.cover.value else user.cover)
  }

  /** With no files the update is empty: nothing is written and nothing destroyed. */
  lemma NoUploadsNoChange(user: User)
    ensures ApplyUploads(user, Uploads(None, None)) == user
    ensures Destroyed(user, Uploads(None, None)) == []
  {
  }

  /** A user who never changed images still has the default avatar destroyed. */
  lemma FreshUserDestroysDefault(fullname: string, email: string, password: Credential, url: string)
    ensures Destroyed(NewUser(fullname, email, password), Uploads(Some(url), None))
      == [Asset(Avatars, ExtractPublicId(DefaultAvatar))]
  {
    DefaultsHosted();
  }
}
