/** The credential store of daemon/userdb.py: user records keyed by username,
    with the password kept only as its hash. The hash function is a parameter
    of the store, so every property below holds whatever hash is used. */
module Users {
  import opened Collections

  type Username = string

  /** One entry of `users`. */
  datatype UserRecord = UserRecord(passwordHash: string, email: string, fullName: string, createdAt: nat, isActive: bool)

  /** What `get_user_info` returns: the record without its password hash. */
  datatype UserInfo = UserInfo(email: string, fullName: string, createdAt: nat, isActive: bool)

  /** One element of the list `list_users` returns. */
  datatype UserListing = UserListing(username: Username, email: string, fullName: string, isActive: bool)

  /** One keyword argument of `update_user`; `Other` is any keyword but these four. */
  datatype Kwarg =
    | Email(email: string)
    | FullName(fullName: string)
    | IsActive(active: bool)
    | Password(password: string)
    | Other(key: string)

  datatype Field = EmailField | FullNameField | ActiveField | PasswordField

  function FieldOf(k: Kwarg): Option<Field> {
    match k
    case Email(_) => Some(EmailField)
    case FullName(_) => Some(FullNameField)
    case IsActive(_) => Some(ActiveField)
    case Password(_) => Some(PasswordField)
    case Other(_) => None
  }

  /** The keywords `update_user` copies into the record: `email`, `full_name`, `is_active`. */
  predicate Allowed(k: Kwarg) {
    k.Email? || k.FullName? || k.IsActive?
  }

  /** The last keyword argument naming `field`, if any (the one a dict of keywords keeps). */
  function Last(kwargs: seq<Kwarg>, field: Field): (r: Option<Kwarg>)
    ensures r.Some? ==> FieldOf(r.value) == Some(field) && r.value in kwargs
    ensures r.None? ==> forall k :: k in kwargs ==> FieldOf(k) != Some(field)
    ensures r.Some? ==> exists i :: 0 <= i < |kwargs| && kwargs[i] == r.value
                          && forall j :: i < j < |kwargs| ==> FieldOf(kwargs[j]) != Some(field)
  {
    if kwargs == [] then None
    else if FieldOf(kwargs[|kwargs| - 1]) == Some(field) then Some(kwargs[|kwargs| - 1])
    else
      var r := Last(kwargs[..|kwargs| - 1], field);
      assert kwargs == kwargs[..|kwargs| - 1] + [kwargs[|kwargs| - 1]];
      r
  }

  /** The record `update_user` leaves, stated field by field: each allowed field
      takes its supplied value, a supplied password replaces the hash, and the
      creation time never changes. */
  function Updated(r: UserRecord, kwargs: seq<Kwarg>, hash: string -> string): UserRecord {
    var email, fullName, active, password :=
      Last(kwargs, EmailField), Last(kwargs, FullNameField), Last(kwargs, ActiveField), Last(kwargs, PasswordField);
    UserRecord(
      if password.Some? then hash(password.value.password) else r.passwordHash,
      if email.Some? then email.value.email else r.email,
      if fullName.Some? then fullName.value.fullName else r.fullName,
      r.createdAt,
      if active.Some? then active.value.active else r.isActive)
  }

  /** One pass of the keyword loop: copy an allowed field into the record. */
  function ApplyField(r: UserRecord, k: Kwarg): UserRecord {
    match k
    case Email(e) => r.(email := e)
    case FullName(f) => r.(fullName := f)
    case IsActive(a) => r.(isActive := a)
    case _ => r
  }

  /** The keyword loop over a prefix of the arguments. */
  function ApplyFields(r: UserRecord, kwargs: seq<Kwarg>): UserRecord {
    if kwargs == [] then r
    else ApplyField(ApplyFields(r, kwargs[..|kwargs| - 1]), kwargs[|kwargs| - 1])
  }

  /** The keyword loop followed by the password step gives `Updated`. */
  lemma {:induction false} ApplyFieldsUpdates(r: UserRecord, kwargs: seq<Kwarg>, hash: string -> string)
    ensures var a := ApplyFields(r, kwargs);
      Updated(r, kwargs, hash)
      == a.(passwordHash := if Last(kwargs, PasswordField).Some? then hash(Last(kwargs, PasswordField).value.password) else r.passwordHash)
  {
    if kwargs != [] {
      var init := kwargs[..|kwargs| - 1];
      ApplyFieldsUpdates(r, init, hash);
      assert ApplyFields(r, init).passwordHash == r.passwordHash by { KeepsHash(r, init); }
    }
  }

  lemma {:induction false} KeepsHash(r: UserRecord, kwargs: seq<Kwarg>)
    ensures ApplyFields(r, kwargs).passwordHash == r.passwordHash
    ensures ApplyFields(r, kwargs).createdAt == r.createdAt
  {
    if kwargs != [] {
      KeepsHash(r, kwargs[..|kwargs| - 1]);
    }
  }

  function Info(r: UserRecord): UserInfo {
    UserInfo(r.email, r.fullName, r.createdAt, r.isActive)
  }

  function Listing(username: Username, r: UserRecord): UserListing {
    UserListing(username, r.email, r.fullName, r.isActive)
  }

  class UserDatabase {
    const hash: string -> string
    var users: Dict<Username, UserRecord>

    ghost predicate Valid()
      reads this
    {
      users.Valid()
    }

    constructor (hash: string -> string)
      ensures Valid()
      ensures this.hash == hash && users == EmptyDict()
    {
      this.hash := hash;
      users := EmptyDict();
    }

    /** `register_user`: refuse a taken name; otherwise store an active record
        holding the password's hash. */
    method RegisterUser(username: Username, password: string, email: string, fullName: string, now: nat)
      returns (ok: bool)
      requires Valid()
      modifies this`users
      ensures Valid()
      ensures ok <==> username !in old(users.entries)
      ensures !ok ==> users == old(users)
      ensures ok ==> users == Put(old(users), username, UserRecord(hash(password), email, fullName, now, true))
      ensures ok ==> Authenticate(username, password)
      ensures ok ==> GetUserInfo(username) == Some(UserInfo(email, fullName, now, true))
    {
      if username in users.entries {
        return false;
      }
      users := Put(users, username, UserRecord(hash(password), email, fullName, now, true));
      return true;
    }

    /** `authenticate`: the user exists, is active, and the password hashes to the stored hash. */
    function Authenticate(username: Username, password: string): (ok: bool)
      reads this
      ensures username !in users.entries ==> !ok
      ensures username in users.entries && !users.entries[username].isActive ==> !ok
      ensures username in users.entries && users.entries[username].isActive ==>
        (ok <==> hash(password) == users.entries[username].passwordHash)
    {
      if username !in users.entries then false
      else
        var user := users.entries[username];
        if !user.isActive then false
        else hash(password) == user.passwordHash
    }

    /** `get_user_info`: a known user's record without the password hash. */
    function GetUserInfo(username: Username): (info: Option<UserInfo>)
      reads this
      ensures info.None? <==> username !in users.entries
      ensures info.Some? ==>
        var r := users.entries[username];
        info.value.email == r.email && info.value.fullName == r.fullName
        && info.value.createdAt == r.createdAt && info.value.isActive == r.isActive
    {
      if username in users.entries then Some(Info(users.entries[username])) else None
    }

    /** `update_user`: refuse an unknown user; otherwise copy the allowed keywords
        into the record, rehash a supplied password, and keep everything else. */
    method UpdateUser(username: Username, kwargs: seq<Kwarg>) returns (ok: bool)
      requires Valid()
      modifies this`users
      ensures Valid()
      ensures ok <==> username in old(users.entries)
      ensures !ok ==> users == old(users)
      ensures ok ==> users == Put(old(users), username, Updated(old(users.entries[username]), kwargs, hash))
      ensures ok ==> users.keys == old(users.keys)
      ensures ok ==> forall p :: (Last(kwargs, PasswordField) == Some(Password(p)) && users.entries[username].isActive)
                                   ==> Authenticate(username, p)
    {
      if username !in users.entries {
        return false;
      }
      ghost var before := users.entries[username];
      var i := 0;
      while i < |kwargs|
        invariant 0 <= i <= |kwargs|
        invariant users == Put(old(users), username, ApplyFields(before, kwargs[..i]))
      {
        assert kwargs[..i + 1] == kwargs[..i] + [kwargs[i]];
        assert kwargs[..i + 1][..i] == kwargs[..i];
        if Allowed(kwargs[i]) {
          users := Put(users, username, ApplyField(users.entries[username], kwargs[i]));
        }
        i := i + 1;
      }
      assert kwargs[..i] == kwargs;
      ApplyFieldsUpdates(before, kwargs, hash);
      KeepsHash(before, kwargs);
      var password := Last(kwargs, PasswordField);
      if password.Some? {
        users := Put(users, username, users.entries[username].(passwordHash := hash(password.value.password)));
      }
      return true;
    }

    /** `delete_user`: true exactly when the user existed; afterwards the user is gone. */
    method DeleteUser(username: Username) returns (existed: bool)
      requires Valid()
      modifies this`users
      ensures Valid()
      ensures existed <==> username in old(users.entries)
      ensures username !in users.entries
      ensures existed ==> users == Remove(old(users), username)
      ensures !existed ==> users == old(users)
    {
      if username in users.entries {
        users := Remove(users, username);
        return true;
      }
      return false;
    }

    /** `list_users`: one password-free listing per user, in registration order. */
    method ListUsers() returns (listing: seq<UserListing>)
      requires Valid()
      ensures |listing| == |users.keys|
      ensures forall i :: 0 <= i < |listing| ==>
        listing[i] == Listing(users.keys[i], users.entries[users.keys[i]])
      ensures forall u :: u in users.entries <==> exists i :: 0 <= i < |listing| && listing[i].username == u
      ensures forall i, j :: 0 <= i < j < |listing| ==> listing[i].username != listing[j].username
    {
      var names := users.keys;
      listing := [];
      var i := 0;
      while i < |names|
        invariant 0 <= i <= |names|
        invariant |listing| == i
        invariant forall j :: 0 <= j < i ==> listing[j] == Listing(names[j], users.entries[names[j]])
      {
        var username := names[i];
        var userData := users.entries[username];
        listing := listing + [UserListing(username, userData.email, userData.fullName, userData.isActive)];
        i := i + 1;
      }
      forall u | u in users.entries
        ensures exists i :: 0 <= i < |listing| && listing[i].username == u
      {
        var i :| 0 <= i < |names| && names[i] == u;
        assert listing[i].username == u;
      }
    }
  }
}
