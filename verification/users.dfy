/**
 * The user registry: the user document's defaults and normalisation, the
 * pre-save rule that hashes a password only when it was changed, and the
 * register, login, profile, preferences and change-password handlers.
 */
module Users {
  import opened Wrappers
  import opened Text

  type UserId = nat

  const DefaultName := "New User"
  const DefaultAvatar := "https://i.pravatar.cc/150"

  /** A stored email: lowercased, then trimmed. */
  function NormalEmail(e: string): string {
    Trim(ToLower(e))
  }

  /** No capital letters and no white space at either end: what a stored email looks like. */
  predicate Normalised(e: string) {
    && (forall i :: 0 <= i < |e| ==> !('A' <= e[i] <= 'Z'))
    && (|e| > 0 ==> !IsSpace(e[0]) && !IsSpace(e[|e| - 1]))
  }

  /** Normalising gives a normalised email. */
  lemma NormalEmailShape(e: string)
    ensures Normalised(NormalEmail(e))
  {
    TrimIsSlice(ToLower(e));
  }

  /** The trimmed string is a contiguous slice of the original. */
  lemma TrimIsSlice(s: string)
    ensures exists i, j :: 0 <= i <= j <= |s| && Trim(s) == s[i..j]
  {
    var a := TrimStart(s);
    var i := |s| - |a|;
    assert Trim(s) == a[..|Trim(s)|] == s[i..i + |Trim(s)|];
  }

  /** A string with no capital letters is its own lowercase. */
  lemma {:induction false} LowerFixed(s: string)
    requires forall i :: 0 <= i < |s| ==> !('A' <= s[i] <= 'Z')
    ensures ToLower(s) == s
  {
    if s != [] {
      LowerFixed(s[1..]);
    }
  }

  /** A normalised email is left as it is. */
  lemma NormalisedFixed(e: string)
    requires Normalised(e)
    ensures NormalEmail(e) == e
  {
    LowerFixed(e);
    var a := TrimStart(e);
    assert a == e;
  }

  /** Normalising an already stored email leaves it unchanged. */
  lemma NormalEmailIdempotent(e: string)
    ensures NormalEmail(NormalEmail(e)) == NormalEmail(e)
  {
    NormalEmailShape(e);
    NormalisedFixed(NormalEmail(e));
  }

  /**
   * A password field: the text as assigned, or a digest of it. `bcrypt.hash`
   * is modelled as `Digest`, which never equals its argument; the salt is not
   * modelled.
   */
  datatype Secret = Plain(text: string) | Digest(of: Secret)

  /** `bcrypt.compare(candidate, stored)`. */
  predicate PasswordMatches(candidate: string, stored: Secret) {
    stored == Digest(Plain(candidate))
  }

  /**
   * The pre-save hook: a modified password field is replaced by its digest,
   * an unmodified one is saved as it is.
   */
  function PreSave(password: Secret, modified: bool): (s: Secret)
    ensures modified ==> forall c :: PasswordMatches(c, s) <==> password == Plain(c)
    ensures !modified ==> forall c :: PasswordMatches(c, s) <==> PasswordMatches(c, password)
  {
    if modified then Digest(password) else password
  }

  /** Hashing a stored digest again would make every login fail: why only a modified field is hashed. */
  lemma RehashLocksOut(stored: Secret, c: string)
    requires stored.Digest?
    ensures !PasswordMatches(c, PreSave(stored, true))
  {
  }

  datatype User = User(
    id: UserId,
    name: string,
    email: string,
    password: Secret,
    avatar: string,
    notifications: bool)

  /** A user as sent back to the client: every field except the password. */
  datatype PublicUser = PublicUser(id: UserId, name: string, email: string, avatar: string, notifications: bool)

  function Public(u: User): PublicUser {
    PublicUser(u.id, u.name, u.email, u.avatar, u.notifications)
  }

  /**
   * A new user document: the email is normalised and required (it must not be
   * blank after trimming), the password is required and hashed, and an absent
   * name, the avatar and the notification preference take their defaults.
   */
  function NewUser(id: UserId, name: Option<string>, email: string, password: string): (r: Option<User>)
    ensures r.Some? <==> NormalEmail(email) != "" && password != ""
    ensures r.Some? ==>
      && r.value.id == id && r.value.email == NormalEmail(email)
      && (forall c :: PasswordMatches(c, r.value.password) <==> c == password)
      && r.value.name == (if name.None? then DefaultName else name.value)
      && r.value.avatar == DefaultAvatar && r.value.notifications
  {
    if NormalEmail(email) == "" || password == "" then None
    else
      var n := if name.None? then DefaultName else name.value;
      Some(User(id, n, NormalEmail(email), PreSave(Plain(password), true), DefaultAvatar, true))
  }

  /** The errors the user handlers raise. */
  datatype UserFailure =
    | MissingCredentials  // a required field is empty
    | EmailTaken          // registering an email already in use
    | NoSuchUser          // no user with that email or id
    | BadCredentials      // the password does not match
    | UploadFailed        // the avatar upload returned nothing
    | Crashed             // an exception without a status (a schema refusal, a missing user dereferenced)

  function UserStatus(f: UserFailure): (code: int)
    ensures code == 400 <==> f == MissingCredentials
    ensures code == 409 <==> f == EmailTaken
    ensures code == 404 <==> f == NoSuchUser
    ensures code == 401 <==> f == BadCredentials
    ensures code == 500 <==> f in {UploadFailed, Crashed}
  {
    match f
    case MissingCredentials => 400
    case EmailTaken => 409
    case NoSuchUser => 404
    case BadCredentials => 401
    case UploadFailed => 500
    case Crashed => 500
  }

  /** `User.findOne({ email })`: the position of the user with that stored email. */
  function IndexOfEmail(users: seq<User>, key: string): (r: Option<nat>)
    ensures r.Some? ==> r.value < |users| && users[r.value].email == key
    ensures r.None? <==> forall i :: 0 <= i < |users| ==> users[i].email != key
  {
    if users == [] then None
    else if users[0].email == key then Some(0)
    else match IndexOfEmail(users[1..], key)
      case None => None
      case Some(i) => Some(i + 1)
  }

  /** The outcome of an avatar upload attempted with the request. */
  datatype Upload = NoFile | Uploaded(url: string) | UploadError

  /**
   * Users are numbered by position; stored emails are normalised, non-empty
   * and unique; stored passwords are digests of the text last assigned.
   */
  ghost predicate WellFormed(users: seq<User>) {
    && (forall i :: 0 <= i < |users| ==> users[i].id == i)
    && (forall i :: 0 <= i < |users| ==> users[i].email != "" && Normalised(users[i].email))
    && (forall i :: 0 <= i < |users| ==> users[i].password.Digest? && users[i].password.of.Plain?)
    && (forall i, j :: 0 <= i < j < |users| ==> users[i].email != users[j].email)
  }

  /** Appending a well-formed user with a new email keeps the users well formed. */
  lemma AppendWellFormed(users: seq<User>, u: User)
    requires WellFormed(users)
    requires u.id == |users| && u.email != "" && Normalised(u.email)
    requires u.password.Digest? && u.password.of.Plain?
    requires forall i :: 0 <= i < |users| ==> users[i].email != u.email
    ensures WellFormed(users + [u])
  {
  }

  class Registry {
    var users: seq<User>

    /** The stored users are well formed: see `WellFormed`. */
    ghost predicate Valid()
      reads this
    {
      WellFormed(users)
    }

    constructor ()
      ensures Valid() && users == []
    {
      users := [];
    }

    /** The emails of the users who have not switched notifications off. */
    function Notifiable(): (r: set<string>)
      reads this
      ensures forall e :: e in r <==> exists i :: 0 <= i < |users| && users[i].email == e && users[i].notifications
    {
      set i | 0 <= i < |users| && users[i].notifications :: users[i].email
    }

    /**
     * Logging in: 400 without an email or password, then 404 for an unknown
     * email, then 401 for a wrong password; otherwise the user without the
     * password.
     */
    function Login(email: string, password: string): (r: Result<PublicUser, UserFailure>)
      reads this
      ensures r == Err(MissingCredentials) <==> email == "" || password == ""
      ensures r == Err(NoSuchUser) <==>
        email != "" && password != "" && forall i :: 0 <= i < |users| ==> users[i].email != NormalEmail(email)
      ensures r == Err(BadCredentials) ==>
        exists i :: 0 <= i < |users| && users[i].email == NormalEmail(email) && !PasswordMatches(password, users[i].password)
      ensures r.Ok? ==>
        exists i :: 0 <= i < |users| && users[i].email == NormalEmail(email)
          && PasswordMatches(password, users[i].password) && r.value == Public(users[i])
    {
      if email == "" || password == "" then Err(MissingCredentials)
      else
        var key := NormalEmail(email);
        match IndexOfEmail(users, key)
        case None => Err(NoSuchUser)
        case Some(i) =>
          if !PasswordMatches(password, users[i].password) then Err(BadCredentials)
          else Ok(Public(users[i]))
    }

    /**
     * Registering: 400 without a name, email or password, then 409 when the
     * email is in use; a blank email after trimming is refused by the schema.
     * Otherwise one user is appended, the reply carries no password, and a login
     * with the same email and password succeeds.
     */
    method Register(name: string, email: string, password: string) returns (r: Result<PublicUser, UserFailure>)
      requires Valid()
      modifies this
      ensures Valid()
      ensures r == Err(MissingCredentials) <==> name == "" || email == "" || password == ""
      ensures r == Err(EmailTaken) <==>
        name != "" && email != "" && password != "" &&
        exists i :: 0 <= i < |old(users)| && old(users)[i].email == NormalEmail(email)
      ensures r == Err(Crashed) <==> name != "" && email != "" && password != "" && NormalEmail(email) == ""
      ensures r.Ok? <==>
        && name != "" && email != "" && password != "" && NormalEmail(email) != ""
        && forall i :: 0 <= i < |old(users)| ==> old(users)[i].email != NormalEmail(email)
      ensures r.Err? ==> users == old(users)
      ensures r.Ok? ==>
        && NewUser(|old(users)|, Some(name), email, password).Some?
        && users == old(users) + [NewUser(|old(users)|, Some(name), email, password).value]
        && r.value == Public(users[|old(users)|])
        && Login(email, password) == Ok(r.value)
    {
      if name == "" || email == "" || password == "" {
        return Err(MissingCredentials);
      }
      var key := NormalEmail(email);
      if IndexOfEmail(users, key).Some? {
        return Err(EmailTaken);
      }
      var created := NewUser(|users|, Some(name), email, password);
      if created.None? {
        return Err(Crashed);
      }
      NormalEmailShape(email);
      AppendWellFormed(users, created.value);
      users := users + [created.value];
      r := Ok(Public(created.value));
      LoginFindsUser(this, |users| - 1, email, password);
    }

    /**
     * Updating the profile: 404 for an unknown user; an empty name keeps the
     * old one; a successful upload replaces the avatar and a failed one gives
     * 500 with nothing saved. The password is saved unmodified, so it still
     * logs in.
     */
    method UpdateProfile(id: UserId, name: string, upload: Upload) returns (r: Result<User, UserFailure>)
      requires Valid()
      modifies this
      ensures Valid()
      ensures r == Err(NoSuchUser) <==> id >= |old(users)|
      ensures r == Err(UploadFailed) <==> id < |old(users)| && upload == UploadError
      ensures r.Ok? <==> id < |old(users)| && upload != UploadError
      ensures r.Err? ==> users == old(users)
      ensures r.Ok? ==>
        var u := old(users)[id];
        && users == old(users)[id := r.value]
        && r.value.name == (if name == "" then u.name else name)
        && r.value.avatar == (if upload.Uploaded? then upload.url else u.avatar)
        && r.value.id == u.id && r.value.email == u.email && r.value.notifications == u.notifications
        && forall c :: PasswordMatches(c, r.value.password) <==> PasswordMatches(c, u.password)
    {
      if id >= |users| {
        return Err(NoSuchUser);
      }
      var u := users[id];
      var newName := if name == "" then u.name else name;
      var avatar := u.avatar;
      match upload {
        case NoFile =>
        case Uploaded(url) => avatar := url;
        case UploadError => return Err(UploadFailed);
      }
      var saved := User(u.id, newName, u.email, PreSave(u.password, false), avatar, u.notifications);
      users := users[id := saved];
      r := Ok(saved);
    }

    /**
     * Updating preferences: only a boolean `notifications` changes anything.
     * Without one the user is returned as stored (none for an unknown id);
     * with one an unknown id gives 404 and a known one has only that flag set.
     */
    method UpdatePreferences(id: UserId, notifications: Option<bool>) returns (r: Result<Option<PublicUser>, UserFailure>)
      requires Valid()
      modifies this
      ensures Valid()
      ensures notifications.None? ==>
        users == old(users) && r == Ok(if id < |users| then Some(Public(users[id])) else None)
      ensures notifications.Some? && id >= |old(users)| ==> users == old(users) && r == Err(NoSuchUser)
      ensures notifications.Some? && id < |old(users)| ==>
        && users == old(users)[id := old(users)[id].(notifications := notifications.value)]
        && r == Ok(Some(Public(users[id])))
    {
      if notifications.None? {
        return Ok(if id < |users| then Some(Public(users[id])) else None);
      }
      if id >= |users| {
        return Err(NoSuchUser);
      }
      users := users[id := users[id].(notifications := notifications.value)];
      r := Ok(Some(Public(users[id])));
    }

    /**
     * Changing the password: 400 unless both are given; an unknown id is
     * dereferenced and crashes; 401 when the old password does not match;
     * otherwise the new password, hashed on save, is the only one that logs in.
     */
    method ChangePassword(id: UserId, oldPassword: string, newPassword: string) returns (r: Result<(), UserFailure>)
      requires Valid()
      modifies this
      ensures Valid()
      ensures r == Err(MissingCredentials) <==> oldPassword == "" || newPassword == ""
      ensures r == Err(Crashed) <==> oldPassword != "" && newPassword != "" && id >= |old(users)|
      ensures r == Err(BadCredentials) <==>
        oldPassword != "" && newPassword != "" && id < |old(users)| && !PasswordMatches(oldPassword, old(users)[id].password)
      ensures r.Ok? <==>
        oldPassword != "" && newPassword != "" && id < |old(users)| && PasswordMatches(oldPassword, old(users)[id].password)
      ensures r.Err? ==> users == old(users)
      ensures r.Ok? ==>
        && id < |old(users)| == |users|
        && users == old(users)[id := old(users)[id].(password := users[id].password)]
        && forall c :: PasswordMatches(c, users[id].password) <==> c == newPassword
    {
      if oldPassword == "" || newPassword == "" {
        return Err(MissingCredentials);
      }
      if id >= |users| {
        return Err(Crashed);
      }
      if !PasswordMatches(oldPassword, users[id].password) {
        return Err(BadCredentials);
      }
      users := users[id := users[id].(password := PreSave(Plain(newPassword), true))];
      r := Ok(());
    }
  }

  /** With unique emails, the right password for a stored email logs in as that user, and a wrong one is refused. */
  lemma LoginFindsUser(reg: Registry, i: nat, email: string, password: string)
    requires reg.Valid()
    requires i < |reg.users| && reg.users[i].email == NormalEmail(email)
    requires email != "" && password != ""
    ensures PasswordMatches(password, reg.users[i].password) ==> reg.Login(email, password) == Ok(Public(reg.users[i]))
    ensures !PasswordMatches(password, reg.users[i].password) ==> reg.Login(email, password) == Err(BadCredentials)
  {
    var k := IndexOfEmail(reg.users, NormalEmail(email));
    assert k == Some(i);
  }
}
