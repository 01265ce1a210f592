/** Sign-up with email and password: the checks of the request body, the
    duplicate-email rule and the single insert into the `users` table. The table is
    keyed by the normalised (lower-cased, trimmed) email, which is also the email
    stored. */
module Register {
  import opened Common

  /** The fields of the JSON body; a field that is missing or `null` is `None`. */
  datatype RegisterBody = RegisterBody(name: Option<string>, email: Option<string>, password: Option<string>)

  datatype User = User(id: string, name: string, email: string, password_hash: string)

  datatype Reply = Failure(message: string) | Success

  datatype Response = Response(status: int, reply: Reply)

  const MissingFields: string := "Name, email, and password are required."
  const ShortPassword: string := "Password must be at least 8 characters."
  const EmailTaken: string := "An account with that email already exists."
  const Failed: string := "Registration failed. Please try again."

  const MinPasswordLength: nat := 8

  /** `email.toLowerCase().trim()`. */
  function NormalizeEmail(email: string): (r: string)
    ensures NoUpper(r)
    ensures r == [] || (!IsSpace(r[0]) && !IsSpace(r[|r| - 1]))
  {
    var lower := Lower(email);
    var r := Trim(lower);
    TrimIsSlice(lower);
    r
  }

  /** Lower-casing changes no white space, so lower-casing and trimming commute:
      the normal form is also the trimmed address, lower-cased. */
  lemma NormalizeEmailIsLowerTrim(email: string)
    ensures NormalizeEmail(email) == Lower(Trim(email))
  {
    LowerTrimStart(email);
    LowerTrimEnd(TrimStart(email));
  }

  /** The normal form is the address without the white space around it,
      lower-cased: what comes before it is the address's leading white space,
      and only white space comes after it. */
  lemma NormalizeEmailSlice(email: string)
    ensures LeadingSpace(email) + |NormalizeEmail(email)| <= |email|
    ensures NormalizeEmail(email)
            == Lower(email[LeadingSpace(email)..LeadingSpace(email) + |NormalizeEmail(email)|])
    ensures AllSpace(email[LeadingSpace(email) + |NormalizeEmail(email)|..])
  {
    NormalizeEmailIsLowerTrim(email);
    TrimSlice(email);
    LowerOfSlice(email, LeadingSpace(email), Trim(email), NormalizeEmail(email));
  }

  lemma LowerOfSlice(x: string, k: nat, r: string, n: string)
    requires k + |r| <= |x| && r == x[k..k + |r|] && AllSpace(x[k + |r|..])
    requires n == Lower(r)
    ensures k + |n| <= |x| && n == Lower(x[k..k + |n|]) && AllSpace(x[k + |n|..])
  {
    assert |n| == |r|;
  }

  lemma {:induction false} LowerTrimStart(s: string)
    ensures TrimStart(Lower(s)) == Lower(TrimStart(s))
  {
    if s != [] {
      assert Lower(s)[0] == LowerChar(s[0]);
      if IsSpace(s[0]) {
        assert Lower(s)[1..] == Lower(s[1..]);
        LowerTrimStart(s[1..]);
      }
    }
  }

  lemma {:induction false} LowerTrimEnd(s: string)
    ensures TrimEnd(Lower(s)) == Lower(TrimEnd(s))
  {
    if s != [] {
      var n := |s| - 1;
      assert Lower(s)[n] == LowerChar(s[n]);
      if IsSpace(s[n]) {
        assert Lower(s)[..n] == Lower(s[..n]);
        LowerTrimEnd(s[..n]);
      }
    }
  }

  /** `Trim` keeps a slice of its argument. */
  lemma TrimIsSlice(s: string)
    ensures NoUpper(s) ==> NoUpper(Trim(s))
  {
    if NoUpper(s) {
      var t := TrimStart(s);
      forall i | 0 <= i < |t| ensures !IsUpper(t[i]) {
        assert t[i] == s[|s| - |t| + i];
      }
      var r := TrimEnd(t);
      forall i | 0 <= i < |r| ensures !IsUpper(r[i]) {
        assert r[i] == t[i];
      }
    }
  }

  /** `!value?.trim()`: missing, or only white space. */
  predicate Blank(value: Option<string>) {
    value.None? || Trim(value.value) == []
  }

  /** The 400 reply of the body checks, in the order the route makes them, or `None`
      when the body passes. */
  function Validate(body: RegisterBody): (r: Option<Response>)
    ensures r.Some? <==> Blank(body.name) || Blank(body.email) || body.password.None?
                         || body.password.value == [] || |body.password.value| < MinPasswordLength
    ensures r.Some? ==> r.value.status == 400
  {
    if Blank(body.name) || Blank(body.email) || body.password.None? || body.password.value == [] then
      Some(Response(400, Failure(MissingFields)))
    else if |body.password.value| < MinPasswordLength then
      Some(Response(400, Failure(ShortPassword)))
    else None
  }

  /** The outcome of one request: the reply and the table after it. */
  datatype Outcome = Outcome(response: Response, users: map<string, User>)

  /** One sign-up request. `body` is `None` when the request is not JSON; `id` is
      the fresh identifier; `hash` is the password hash, `None` when hashing or the
      `INSERT` fails (both answer 500). */
  function Handle(users: map<string, User>, body: Option<RegisterBody>, id: string,
                  hash: Option<string>): (r: Outcome)
    ensures r.response.status != 200 ==> r.users == users
    ensures r.response.status in {200, 400, 409, 500}
  {
    if body.None? then Outcome(Response(500, Failure(Failed)), users)
    else
      var b := body.value;
      match Validate(b)
      case Some(rejection) => Outcome(rejection, users)
      case None =>
        var email := NormalizeEmail(b.email.value);
        if email in users then Outcome(Response(409, Failure(EmailTaken)), users)
        else if hash.None? then Outcome(Response(500, Failure(Failed)), users)
        else
          Outcome(Response(200, Success),
                  users[email := User(id, Trim(b.name.value), email, hash.value)])
  }

  /** The presence check comes first: a blank name is reported as a missing field
      even when the password is also too short. */
  lemma PresenceCheckedFirst(body: RegisterBody)
    requires Blank(body.name) || Blank(body.email) || body.password.None? || body.password.value == []
    ensures Validate(body) == Some(Response(400, Failure(MissingFields)))
  {
  }

  /** With a name and an email present, the password alone decides: empty is a
      missing field, 1 to 7 characters are too short, 8 or more pass. The length is
      all that counts; the password is not trimmed. */
  lemma PasswordLengthBoundary(name: string, email: string, password: string)
    requires Trim(name) != [] && Trim(email) != []
    ensures password == [] ==>
              Validate(RegisterBody(Some(name), Some(email), Some(password)))
              == Some(Response(400, Failure(MissingFields)))
    ensures 0 < |password| < MinPasswordLength ==>
              Validate(RegisterBody(Some(name), Some(email), Some(password)))
              == Some(Response(400, Failure(ShortPassword)))
    ensures |password| >= MinPasswordLength ==>
              Validate(RegisterBody(Some(name), Some(email), Some(password))) == None
  {
    assert !Blank(Some(name)) && !Blank(Some(email));
  }

  /** Eight spaces are a valid password. */
  lemma SpacesArePassword(name: string, email: string)
    requires Trim(name) != [] && Trim(email) != []
    ensures Validate(RegisterBody(Some(name), Some(email), Some("        "))) == None
  {
    PasswordLengthBoundary(name, email, "        ");
  }

  /** A taken email is refused with 409 and the table is left alone. */
  lemma TakenEmailConflicts(users: map<string, User>, body: RegisterBody, id: string, hash: Option<string>)
    requires Validate(body) == None
    requires NormalizeEmail(body.email.value) in users
    ensures Handle(users, Some(body), id, hash) == Outcome(Response(409, Failure(EmailTaken)), users)
  {
  }

  /** A request succeeds exactly when the body passes, the email is free and the
      hash is computed; the new user holds the trimmed name and the normalised email. */
  lemma SuccessInsertsOneUser(users: map<string, User>, body: Option<RegisterBody>, id: string,
                              hash: Option<string>)
    ensures var r := Handle(users, body, id, hash);
            r.response == Response(200, Success) <==>
              && body.Some? && Validate(body.value) == None
              && NormalizeEmail(body.value.email.value) !in users && hash.Some?
    ensures var r := Handle(users, body, id, hash);
            r.response.status == 200 ==>
              var email := NormalizeEmail(body.value.email.value);
              && r.users[email] == User(id, Trim(body.value.name.value), email, hash.value)
              && |r.users| == |users| + 1
              && forall e :: e in users ==> r.users[e] == users[e]
  {
  }

  /** After a sign-up succeeds, signing up again with the same normalised email
      (whatever the case and the surrounding white space) is refused with 409. */
  lemma SecondSignUpConflicts(users: map<string, User>, body: RegisterBody, id: string, hash: string,
                              again: RegisterBody, id2: string, hash2: Option<string>)
    requires Handle(users, Some(body), id, Some(hash)).response.status == 200
    requires Validate(again) == None
    requires NormalizeEmail(again.email.value) == NormalizeEmail(body.email.value)
    ensures var after := Handle(users, Some(body), id, Some(hash)).users;
            Handle(after, Some(again), id2, hash2).response == Response(409, Failure(EmailTaken))
  {
    var email := NormalizeEmail(body.email.value);
    var after := users[email := User(id, Trim(body.name.value), email, hash)];
    assert Validate(body).None?;
    assert email !in users;
    assert Handle(users, Some(body), id, Some(hash)) == Outcome(Response(200, Success), after);
    TakenEmailConflicts(after, again, id2, hash2);
  }

  /** The emails that normalise alike: the same letters up to case, with any white
      space around them. */
  lemma SameEmailUpToCaseAndSpace(email: string, variant: string, before: string, after: string)
    requires Lower(variant) == Lower(email)
    requires AllSpace(before) && AllSpace(after)
    ensures NormalizeEmail(before + variant + after) == NormalizeEmail(email)
  {
    calc {
      Lower(before + variant + after);
    ==  { LowerConcat(before + variant, after); }
      Lower(before + variant) + Lower(after);
    ==  { LowerConcat(before, variant); }
      Lower(before) + Lower(variant) + Lower(after);
    ==  { LowerOfNoUpper(before); LowerOfNoUpper(after); }
      before + Lower(email) + after;
    }
    TrimSkipsSurroundingSpace(before, Lower(email), after);
  }

  /** `x` is the text `e`, in any case, with only white space around it. */
  predicate Spelled(x: string, e: string) {
    exists k | 0 <= k <= |x| :: SpelledAt(x, e, k)
  }

  /** `x` holds `e`, in any case, at position `k`, and only white space around it. */
  predicate SpelledAt(x: string, e: string, k: int) {
    && 0 <= k <= |x| - |e| && Lower(x[k..k + |e|]) == e
    && AllSpace(x[..k]) && AllSpace(x[k + |e|..])
  }

  /** The addresses with a given normal form are exactly that form, in any case,
      with any white space around it. */
  lemma NormalFormIffSpelled(x: string, e: string)
    requires NormalizeEmail(e) == e
    ensures NormalizeEmail(x) == e <==> Spelled(x, e)
  {
    if NormalizeEmail(x) == e {
      NormalFormIsSpelled(x);
    }
    if Spelled(x, e) {
      SpelledNormalizes(x, e);
    }
  }

  lemma NormalFormIsSpelled(x: string)
    ensures Spelled(x, NormalizeEmail(x))
  {
    var e := NormalizeEmail(x);
    var k := LeadingSpace(x);
    NormalizeEmailSlice(x);
    assert SpelledAt(x, e, k);
  }

  lemma SpelledNormalizes(x: string, e: string)
    requires NormalizeEmail(e) == e && Spelled(x, e)
    ensures NormalizeEmail(x) == e
  {
    var k :| 0 <= k <= |x| && SpelledAt(x, e, k);
    assert k + |e| <= |x| && Lower(x[k..k + |e|]) == e;
    var before, variant, after := x[..k], x[k..k + |e|], x[k + |e|..];
    calc {
      NormalizeEmail(x);
    ==  { NormalizeEmailIsLowerTrim(x); }
      Lower(Trim(x));
    ==  { ThreeParts(x, k, k + |e|); TrimSkipsSurroundingSpace(before, variant, after); }
      Lower(Trim(variant));
    ==  { NormalizeEmailIsLowerTrim(variant); }
      Trim(Lower(variant));
    ==
      Trim(e);
    }
  }

  lemma ThreeParts(x: string, i: nat, j: nat)
    requires i <= j <= |x|
    ensures x == x[..i] + x[i..j] + x[j..]
  {
    assert x[..j] == x[..i] + x[i..j];
    assert x == x[..j] + x[j..];
  }

  /** Every user is stored under its own email. */
  predicate Keyed(users: map<string, User>) {
    forall e :: e in users ==> users[e].email == e
  }

  /** Handling a request keeps every user under its own email. */
  lemma HandleKeepsKeyed(users: map<string, User>, body: Option<RegisterBody>, id: string,
                         hash: Option<string>)
    requires Keyed(users)
    ensures Keyed(Handle(users, body, id, hash).users)
  {
    if body.Some? && Validate(body.value).None? && hash.Some? {
      var email := NormalizeEmail(body.value.email.value);
      if email !in users {
        AddKeepsKeyed(users, User(id, Trim(body.value.name.value), email, hash.value));
      }
    }
  }

  lemma AddKeepsKeyed(users: map<string, User>, u: User)
    requires Keyed(users)
    ensures Keyed(users[u.email := u])
  {
    var m := users[u.email := u];
    forall e | e in m ensures m[e].email == e {
      if e != u.email {
        assert m[e] == users[e];
      }
    }
  }

  /** The `users` table. */
  class Database {
    var users: map<string, User>

    predicate Valid()
      reads this
    {
      Keyed(users)
    }

    constructor ()
      ensures Valid() && users == map[]
    {
      users := map[];
    }

    /** The route handler: the checks in order, then one insert. */
    method Post(body: Option<RegisterBody>, id: string, hash: Option<string>) returns (response: Response)
      requires Valid()
      modifies this
      ensures Valid()
      ensures response == Handle(old(users), body, id, hash).response
      ensures users == Handle(old(users), body, id, hash).users
    {
      if body.None? {
        return Response(500, Failure(Failed));
      }
      var b := body.value;
      var rejection := Validate(b);
      if rejection.Some? {
        return rejection.value;
      }
      var email := NormalizeEmail(b.email.value);
      if email in users {
        return Response(409, Failure(EmailTaken));
      }
      if hash.None? {
        return Response(500, Failure(Failed));
      }
      HandleKeepsKeyed(users, body, id, hash);
      users := users[email := User(id, Trim(b.name.value), email, hash.value)];
      response := Response(200, Success);
    }
  }

  lemma NormalizeEmailIdempotent(email: string)
    ensures NormalizeEmail(NormalizeEmail(email)) == NormalizeEmail(email)
  {
    var e := NormalizeEmail(email);
    LowerOfNoUpper(e);
  }
}
