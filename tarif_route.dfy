/**
 * `GET` and `PUT /api/user/tarif` (src/app/api/user/tarif/route.ts): read and
 * change the signed-in user's plan, restricted to three plan names.
 */
module TarifRoute {
  import opened Wrappers
  import opened Json
  import opened Users

  const Plans: seq<string> := ["free", "prof", "corp"]

  const BadTarif := "Неверный тариф"

  /**
   * `!tarif || !['free', 'prof', 'corp'].includes(tarif)` fails; `includes`
   * compares without conversion, so only a string equal to one of the three
   * passes.
   */
  predicate Accepted(tarif: Value) {
    Truthy(tarif) && exists i :: 0 <= i < |Plans| && tarif == Str(Plans[i])
  }

  /** The whitelist, stated outright. */
  lemma AcceptedIff(tarif: Value)
    ensures Accepted(tarif) <==> tarif == Str("free") || tarif == Str("prof") || tarif == Str("corp")
  {
    if tarif == Str("free") {
      assert tarif == Str(Plans[0]);
    } else if tarif == Str("prof") {
      assert tarif == Str(Plans[1]);
    } else if tarif == Str("corp") {
      assert tarif == Str(Plans[2]);
    }
  }

  /**
   * `GET`: 401 without a signed-in user, 404 for an unknown one, otherwise the
   * stored plan. `dbUp` is whether the query runs; when Prisma throws the
   * answer is 500.
   */
  function Get(store: Store, sessionUserId: Option<string>, dbUp: bool): (r: Reply<string>)
    ensures !Authorized(sessionUserId) <==> r == Fail(401, Unauthorized)
    ensures Authorized(sessionUserId) && dbUp && sessionUserId.value !in store <==> r == Fail(404, UserNotFound)
    ensures r.Ok? <==> Authorized(sessionUserId) && dbUp && sessionUserId.value in store
    ensures r.Ok? ==> r.body == store[sessionUserId.value].tarif
    ensures r.Fail? ==> r.status in {401, 404, 500}
  {
    if !Authorized(sessionUserId) then Fail(401, Unauthorized)
    else if !dbUp then Fail(500, InternalError)
    else if sessionUserId.value !in store then Fail(404, UserNotFound)
    else Ok(store[sessionUserId.value].tarif)
  }

  /**
   * `PUT`. `body` is the parsed request (`None` when `request.json()` throws or
   * the body is `null`, so that taking `tarif` from it fails). A missing user
   * makes `prisma.user.update` throw, which answers 500.
   */
  function Put(store: Store, sessionUserId: Option<string>, body: Option<Value>, dbUp: bool): (r: (Reply<string>, Store))
    ensures !Authorized(sessionUserId) ==> r.0 == Fail(401, Unauthorized)
    ensures Authorized(sessionUserId) && body.Some? && !Accepted(body.value) ==> r.0 == Fail(400, BadTarif)
    ensures r.0.Ok? <==> Authorized(sessionUserId) && body.Some? && Accepted(body.value) && dbUp
                         && sessionUserId.value in store
    ensures Authorized(sessionUserId)
            && (body.None? || (Accepted(body.value) && (!dbUp || sessionUserId.value !in store)))
            ==> r.0 == Fail(500, InternalError)
    ensures r.0.Fail? ==> r.1 == store && r.0.status in {400, 401, 500}
    ensures r.0.Ok? ==> var id := sessionUserId.value;
              && r.1 == store[id := store[id].(tarif := body.value.s)]
              && r.0.body == r.1[id].tarif
  {
    if !Authorized(sessionUserId) then (Fail(401, Unauthorized), store)
    else if body.None? then (Fail(500, InternalError), store)
    else if !Accepted(body.value) then (Fail(400, BadTarif), store)
    else if !dbUp || sessionUserId.value !in store then (Fail(500, InternalError), store)
    else
      var id := sessionUserId.value;
      var updated := store[id].(tarif := body.value.s);
      (Ok(updated.tarif), store[id := updated])
  }

  /** A successful change writes only the tarif column of the caller's row; every other row and column stays. */
  lemma PutTouchesOnlyTarif(store: Store, sessionUserId: Option<string>, body: Option<Value>, dbUp: bool)
    requires Put(store, sessionUserId, body, dbUp).0.Ok?
    ensures var s := Put(store, sessionUserId, body, dbUp).1; var id := sessionUserId.value;
      && SameExcept(store, s, id)
      && s[id] == store[id].(tarif := s[id].tarif)
      && (s[id].tarif == "free" || s[id].tarif == "prof" || s[id].tarif == "corp")
  {
    AcceptedIff(body.value);
  }

  /** Reading after a successful change gives the new plan: `PUT` then `GET` round-trips. */
  lemma PutThenGet(store: Store, sessionUserId: Option<string>, body: Option<Value>, dbUp: bool)
    requires Put(store, sessionUserId, body, dbUp).0.Ok?
    ensures Get(Put(store, sessionUserId, body, dbUp).1, sessionUserId, dbUp) == Ok(body.value.s)
  {
  }

  /** Setting the plan the user already has changes nothing. */
  lemma PutIdempotent(store: Store, sessionUserId: Option<string>, body: Option<Value>, dbUp: bool)
    requires Put(store, sessionUserId, body, dbUp).0.Ok?
    ensures var s := Put(store, sessionUserId, body, dbUp).1; Put(s, sessionUserId, body, dbUp) == (Ok(body.value.s), s)
  {
    var id := sessionUserId.value;
    var s := Put(store, sessionUserId, body, dbUp).1;
    assert s[id := s[id].(tarif := body.value.s)] == s;
  }
}
