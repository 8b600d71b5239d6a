/**
 * `GET` and `PUT /api/profile` (src/app/api/profile/route.ts): read the
 * signed-in user's profile, and change their name, avatar and password.
 */
module ProfileRoute {
  import opened Wrappers
  import opened Text
  import opened Json
  import opened Users

  /** The columns `GET` selects. */
  datatype ProfileView = ProfileView(id: string, name: Option<string>, email: string, image: Option<string>, createdAt: int)

  /** The user part of `PUT`'s answer (the schema-maintained `updatedAt` is not part of this model). */
  datatype UpdatedView = UpdatedView(id: string, name: Option<string>, email: string, image: Option<string>)

  datatype Updated = Updated(message: string, user: UpdatedView)

  /** The fields `PUT` destructures from the parsed body; a missing key is `Undefined`. */
  datatype PutBody = PutBody(name: Value, currentPassword: Value, newPassword: Value, image: Value)

  const NameRequired := "Имя обязательно"
  // The two longer texts are written in two parts so that the prover can read the word "пароль" off them.
  const CurrentRequired := "Текущий пароль" + " обязателен для смены пароля"
  const WrongCurrent := "Текущий пароль неверный"
  const NewTooShort := "Новый пароль" + " должен содержать минимум 6 символов"
  const SavedMessage := "Профиль успешно обновлен"

  /**
   * `GET`: 401 without a signed-in user, 404 for an unknown one, otherwise the
   * five selected columns. `dbUp` is whether the query runs (500 when not).
   */
  function Get(store: Store, sessionUserId: Option<string>, dbUp: bool): (r: Reply<ProfileView>)
    ensures !Authorized(sessionUserId) <==> r == Fail(401, Unauthorized)
    ensures Authorized(sessionUserId) && dbUp && sessionUserId.value !in store <==> r == Fail(404, UserNotFound)
    ensures r.Ok? <==> Authorized(sessionUserId) && dbUp && sessionUserId.value in store
    ensures r.Ok? ==> var u := store[sessionUserId.value];
              r.body == ProfileView(u.id, u.name, u.email, u.image, u.createdAt)
  {
    if !Authorized(sessionUserId) then Fail(401, Unauthorized)
    else if !dbUp then Fail(500, InternalError)
    else if sessionUserId.value !in store then Fail(404, UserNotFound)
    else
      var u := store[sessionUserId.value];
      Ok(ProfileView(u.id, u.name, u.email, u.image, u.createdAt))
  }

  /**
   * `updateData`: the new name, the image when the body has the key (even as
   * `null`), and the new hash when a password is changed. `None` means the key
   * is absent and the column is left alone.
   */
  datatype UpdateData = UpdateData(name: string, image: Option<Option<string>>, password: Option<string>)

  /** The image value Prisma accepts for a nullable string column; any other JSON value is refused. */
  predicate ImageStorable(image: Value) {
    image.Undefined? || image.Null? || image.Str?
  }

  /** `updateData` applied to a row: only the columns it lists change. */
  function ApplyUpdate(u: User, d: UpdateData): (r: User)
    ensures r.id == u.id && r.email == u.email && r.createdAt == u.createdAt && r.tarif == u.tarif
    ensures r.name == Some(d.name)
    ensures r.image == (if d.image.Some? then d.image.value else u.image)
    ensures r.password == (if d.password.Some? then d.password else u.password)
  {
    var u := u.(name := Some(d.name));
    var u := if d.image.Some? then u.(image := d.image.value) else u;
    if d.password.Some? then u.(password := d.password) else u
  }

  /** `bcrypt.compare` and `bcrypt.hash(_, 12)`, which the model does not interpret. */
  type Compare = (string, string) -> bool
  type Hash = string -> string

  /**
   * Builds `updateData` field by field, as the handler does once every check
   * has passed: `name` a string, `image` storable and, when the new password is
   * truthy, a string to hash.
   */
  method BuildUpdateData(name: string, image: Value, newPassword: Value, hash: Hash) returns (d: UpdateData)
    requires ImageStorable(image)
    requires Truthy(newPassword) ==> newPassword.Str?
    ensures d.name == Trim(name)
    ensures d.image.Some? <==> !image.Undefined?
    ensures image.Null? ==> d.image == Some(None)
    ensures image.Str? ==> d.image == Some(Some(image.s))
    ensures d.password.Some? <==> Truthy(newPassword)
    ensures d.password.Some? ==> d.password.value == hash(newPassword.s)
  {
    d := UpdateData(Trim(name), None, None);
    if !image.Undefined? {
      d := d.(image := Some(if image.Str? then Some(image.s) else None));
    }
    if Truthy(newPassword) {
      d := d.(password := Some(hash(newPassword.s)));
    }
  }

  /** `newPassword.length < 6`: a string or an array has a length; for any other value the test is false. */
  predicate ShorterThanSix(v: Value) {
    (v.Str? && |v.s| < 6) || (v.Arr? && v.length < 6)
  }

  /**
   * The early-return chain of `PUT` up to the update, in its order: the
   * failure it answers with, or `None` when every check passes. `body` is the
   * parsed request (`None` when `request.json()` throws or gives `null`),
   * `compare` stands for bcrypt and `dbUp` for whether the database answers. A
   * call the code makes on a value of the wrong type (`trim` on a non-string
   * name, bcrypt on a non-string password, Prisma on a non-string image)
   * throws, and the handler answers 500.
   */
  function Checks(store: Store, sessionUserId: Option<string>, body: Option<PutBody>, compare: Compare, dbUp: bool)
    : (r: Option<Reply<Updated>>)
    ensures r.Some? ==> r.value.Fail? && r.value.status in {400, 401, 404, 500}
  {
    if !Authorized(sessionUserId) then Some(Fail(401, Unauthorized))
    else if body.None? then Some(Fail(500, InternalError))
    else
      var b := body.value;
      if !Truthy(b.name) then Some(Fail(400, NameRequired))
      else if !b.name.Str? then Some(Fail(500, InternalError))
      else if |Trim(b.name.s)| == 0 then Some(Fail(400, NameRequired))
      else if !dbUp then Some(Fail(500, InternalError))
      else if sessionUserId.value !in store then Some(Fail(404, UserNotFound))
      else
        var user := store[sessionUserId.value];
        if Truthy(b.newPassword) && !Truthy(b.currentPassword) then Some(Fail(400, CurrentRequired))
        else if Truthy(b.newPassword) && !b.currentPassword.Str? then Some(Fail(500, InternalError))
        else if Truthy(b.newPassword) && !compare(b.currentPassword.s, StoredHash(user)) then Some(Fail(400, WrongCurrent))
        else if Truthy(b.newPassword) && ShorterThanSix(b.newPassword) then Some(Fail(400, NewTooShort))
        else if !ImageStorable(b.image) || (Truthy(b.newPassword) && !b.newPassword.Str?) then Some(Fail(500, InternalError))
        else None
  }

  /** The chain lets through exactly the requests that reach the update. */
  lemma ChecksPassExactly(store: Store, sessionUserId: Option<string>, body: Option<PutBody>, compare: Compare, dbUp: bool)
    ensures Checks(store, sessionUserId, body, compare, dbUp).None? <==> PutSucceeds(store, sessionUserId, body, compare, dbUp)
  {
    if NameOk(sessionUserId, body) && dbUp && sessionUserId.value in store {
      var b, user := body.value, store[sessionUserId.value];
      assert |Trim(b.name.s)| != 0;
      if Truthy(b.newPassword) {
        assert Truthy(b.currentPassword) && b.currentPassword.Str? <==> b.currentPassword.Str? && b.currentPassword.s != "";
        assert !ShorterThanSix(b.newPassword) && b.newPassword.Str? <==> b.newPassword.Str? && |b.newPassword.s| >= 6;
      }
    }
  }

  /**
   * The first checks of `PUT`, in order: 401 before the body is looked at; a
   * falsy or blank name 400 before the user lookup; then an unknown user 404.
   */
  lemma ChecksBeforeLookup(store: Store, sessionUserId: Option<string>, body: Option<PutBody>, compare: Compare, dbUp: bool)
    ensures var r := Checks(store, sessionUserId, body, compare, dbUp);
      && (!Authorized(sessionUserId) ==> r == Some(Fail(401, Unauthorized)))
      && (Authorized(sessionUserId) && body.Some? && !Truthy(body.value.name) ==> r == Some(Fail(400, NameRequired)))
      && (Authorized(sessionUserId) && body.Some? && body.value.name.Str? && IsBlank(body.value.name.s) ==>
            r == Some(Fail(400, NameRequired)))
      && (NameOk(sessionUserId, body) && dbUp && sessionUserId.value !in store ==> r == Some(Fail(404, UserNotFound)))
  {
  }

  /** After the lookup, the password block runs in its order, and only when a new password is sent. */
  lemma ChecksPasswordBlock(store: Store, sessionUserId: Option<string>, body: Option<PutBody>, compare: Compare)
    requires NameOk(sessionUserId, body) && sessionUserId.value in store
    ensures PasswordChecked(store, sessionUserId, body, compare, Checks(store, sessionUserId, body, compare, true))
  {
  }

  /**
   * `PUT`: the checks, then `updateData` built and written to the caller's
   * row. Nothing is written on any failure.
   */
  method Put(store: Store, sessionUserId: Option<string>, body: Option<PutBody>,
             compare: Compare, hash: Hash, dbUp: bool)
    returns (reply: Reply<Updated>, newStore: Store)
    ensures reply.Fail? <==> !PutSucceeds(store, sessionUserId, body, compare, dbUp)
    ensures reply.Fail? ==> Some(reply) == Checks(store, sessionUserId, body, compare, dbUp) && newStore == store
    ensures reply.Ok? ==> var id, b := sessionUserId.value, body.value;
              && newStore == store[id := ApplyUpdate(store[id], UpdateOf(b, hash))]
              && reply.body == Updated(SavedMessage, View(newStore[id]))
  {
    ChecksPassExactly(store, sessionUserId, body, compare, dbUp);
    var failure := Checks(store, sessionUserId, body, compare, dbUp);
    if failure.Some? {
      return failure.value, store;
    }
    var id, b := sessionUserId.value, body.value;
    var d := BuildUpdateData(b.name.s, b.image, b.newPassword, hash);
    var updated := ApplyUpdate(store[id], d);
    newStore := store[id := updated];
    reply := Ok(Updated(SavedMessage, View(updated)));
  }

  /** `user.password || ""`: the hash bcrypt compares against. */
  function StoredHash(u: User): string {
    if u.password.Some? && u.password.value != "" then u.password.value else ""
  }

  function View(u: User): UpdatedView {
    UpdatedView(u.id, u.name, u.email, u.image)
  }

  /** The update a body that passed every check produces. */
  function UpdateOf(b: PutBody, hash: Hash): UpdateData
    requires b.name.Str?
    requires Truthy(b.newPassword) ==> b.newPassword.Str?
  {
    UpdateData(Trim(b.name.s),
               if b.image.Undefined? then None else Some(if b.image.Str? then Some(b.image.s) else None),
               if Truthy(b.newPassword) then Some(hash(b.newPassword.s)) else None)
  }

  /** Signed in, with a body whose name is a non-blank string: the checks before the user lookup pass. */
  predicate NameOk(sessionUserId: Option<string>, body: Option<PutBody>) {
    Authorized(sessionUserId) && body.Some? && body.value.name.Str? && !IsBlank(body.value.name.s)
  }

  /**
   * The password block, in its order: with a truthy new password, a missing
   * current password, then a wrong one, then a new one shorter than 6, each
   * answer 400; with no new password none of these is looked at.
   */
  predicate PasswordChecked(store: Store, sessionUserId: Option<string>, body: Option<PutBody>, compare: Compare,
                            r: Option<Reply<Updated>>)
    requires NameOk(sessionUserId, body) && sessionUserId.value in store
  {
    var b, user := body.value, store[sessionUserId.value];
    if !Truthy(b.newPassword) then r.None? || r == Some(Fail(500, InternalError))
    else if !Truthy(b.currentPassword) then r == Some(Fail(400, CurrentRequired))
    else if !b.currentPassword.Str? then r == Some(Fail(500, InternalError))
    else if !compare(b.currentPassword.s, StoredHash(user)) then r == Some(Fail(400, WrongCurrent))
    else if ShorterThanSix(b.newPassword) then r == Some(Fail(400, NewTooShort))
    else r.None? || r == Some(Fail(500, InternalError))
  }

  /** Exactly the requests that reach the update. */
  predicate PutSucceeds(store: Store, sessionUserId: Option<string>, body: Option<PutBody>, compare: Compare, dbUp: bool) {
    && NameOk(sessionUserId, body) && dbUp && sessionUserId.value in store
    && var b, user := body.value, store[sessionUserId.value];
    && (Truthy(b.newPassword) ==>
          b.currentPassword.Str? && b.currentPassword.s != ""
          && compare(b.currentPassword.s, StoredHash(user))
          && b.newPassword.Str? && |b.newPassword.s| >= 6)
    && ImageStorable(b.image)
  }

  /**
   * Without a new password the current password plays no part: whatever is
   * sent in its place, the answer and the store are the same, and the stored
   * hash is kept.
   */
  lemma CurrentPasswordIgnoredWithoutNewPassword(store: Store, sessionUserId: Option<string>, b: PutBody,
                                                 other: Value, compare: Compare, hash: Hash, dbUp: bool)
    requires !Truthy(b.newPassword)
    ensures PutSucceeds(store, sessionUserId, Some(b), compare, dbUp)
            == PutSucceeds(store, sessionUserId, Some(b.(currentPassword := other)), compare, dbUp)
    ensures b.name.Str? ==> UpdateOf(b, hash) == UpdateOf(b.(currentPassword := other), hash)
    ensures b.name.Str? ==> UpdateOf(b, hash).password.None?
  {
  }

  /**
   * Nothing is written unless every check passed; an update changes only the
   * caller's row, and in it only the name, the image (when sent) and the hash
   * (when a new password is sent).
   */
  lemma UpdateIsLocal(store: Store, id: string, b: PutBody, hash: Hash)
    requires id in store && b.name.Str? && (Truthy(b.newPassword) ==> b.newPassword.Str?)
    ensures var s := store[id := ApplyUpdate(store[id], UpdateOf(b, hash))];
      && SameExcept(store, s, id)
      && s[id].email == store[id].email && s[id].tarif == store[id].tarif && s[id].createdAt == store[id].createdAt
      && s[id].name == Some(Trim(b.name.s))
      && (b.image.Undefined? ==> s[id].image == store[id].image)
      && (!Truthy(b.newPassword) ==> s[id].password == store[id].password)
      && (Truthy(b.newPassword) ==> s[id].password == Some(hash(b.newPassword.s)))
  {
  }

  /** The profile `GET` shows after a successful `PUT` carries the trimmed new name. */
  lemma PutThenGet(store: Store, sessionUserId: Option<string>, b: PutBody, compare: Compare, hash: Hash)
    requires PutSucceeds(store, sessionUserId, Some(b), compare, true)
    ensures var id := sessionUserId.value;
            var s := store[id := ApplyUpdate(store[id], UpdateOf(b, hash))];
            Get(s, sessionUserId, true).Ok? && Get(s, sessionUserId, true).body.name == Some(Trim(b.name.s))
  {
  }
}
