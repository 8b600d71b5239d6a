/**
 * `POST /api/auth/check-email` (src/app/api/auth/check-email/route.ts): the
 * sign-up form asks whether an address is already registered.
 */
module CheckEmailRoute {
  import opened Wrappers
  import opened Json
  import opened Text
  import opened Users

  datatype Answer = Answer(registered: bool, message: string)

  const Taken := "Email уже зарегистрирован"
  const Free := "Email доступен"
  const EmailRequired := "Email обязателен"

  /** The unique-key lookup `findUnique({ where: { email } })`: some stored user has exactly this address. */
  predicate Registered(store: Store, email: string) {
    exists id :: id in store && store[id].email == email
  }

  /** `email.toLowerCase().trim()`: lower-cased first, then trimmed. */
  function Normalize(email: string): (r: string)
    ensures |r| <= |email| && Trim(r) == r
  {
    TrimIdempotent(Lower(email));
    Trim(Lower(email))
  }

  /**
   * `POST`. `email` is the `email` field of the parsed body (`None` when
   * `request.json()` throws or the body is `null`); `dbUp` is whether the query
   * runs. Only a non-empty string is looked up.
   */
  function Post(store: Store, email: Option<Value>, dbUp: bool): (r: Reply<Answer>)
    ensures email.Some? && !(email.value.Str? && email.value.s != "") ==> r == Fail(400, EmailRequired)
    ensures r.Ok? <==> email.Some? && email.value.Str? && email.value.s != "" && dbUp
    ensures r.Ok? ==> (r.body.registered <==> Registered(store, Normalize(email.value.s)))
    ensures r.Ok? ==> r.body.message == if r.body.registered then Taken else Free
  {
    if email.None? then Fail(500, InternalError)
    else if !Truthy(email.value) || !email.value.Str? then Fail(400, EmailRequired)
    else if !dbUp then Fail(500, InternalError)
    else
      var found := Registered(store, Normalize(email.value.s));
      Ok(Answer(found, if found then Taken else Free))
  }

  /** Two addresses that differ only in letter case. */
  predicate SameUpToCase(a: string, b: string) {
    Lower(a) == Lower(b)
  }

  /**
   * Addresses that differ only in letter case and in white space around them
   * normalise to the same key, and so get the same answer.
   */
  lemma NormalizeIgnoresCaseAndPadding(a: string, b: string, p: string, q: string)
    requires SameUpToCase(a, b) && AllSpace(p) && AllSpace(q)
    ensures Normalize(p + a + q) == Normalize(b)
  {
    LowerAppend(p + a, q);
    LowerAppend(p, a);
    LowerKeepsSpace(p);
    LowerKeepsSpace(q);
    assert AllSpace(Lower(p)) && AllSpace(Lower(q));
    TrimSurrounding(Lower(p), Lower(a), Lower(q));
  }

  lemma SameAnswer(store: Store, a: string, b: string, p: string, q: string, dbUp: bool)
    requires SameUpToCase(a, b) && AllSpace(p) && AllSpace(q) && b != ""
    ensures Post(store, Some(Str(p + a + q)), dbUp) == Post(store, Some(Str(b)), dbUp)
  {
    NormalizeIgnoresCaseAndPadding(a, b, p, q);
    var e := p + a + q;
    assert e != "" by {
      assert |e| >= |a| == |Lower(a)| == |Lower(b)| == |b|;
    }
    PostOfAddress(store, e, dbUp);
    PostOfAddress(store, b, dbUp);
  }

  /** A non-empty address is answered from its normalised key alone. */
  lemma PostOfAddress(store: Store, e: string, dbUp: bool)
    requires e != ""
    ensures Post(store, Some(Str(e)), dbUp)
         == if dbUp then Ok(Answer(Registered(store, Normalize(e)),
                                   if Registered(store, Normalize(e)) then Taken else Free))
            else Fail(500, InternalError)
  {
  }
}
