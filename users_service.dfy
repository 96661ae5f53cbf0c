/** The registrar: registration with a pre-check and a duplicate-key
    fallback, and the user listing. Password hashing is a parameter
    (`PasswordHasher`); ids, clocks and store failures are inputs. */
module Users {
  import opened Wrappers
  import opened Text
  import opened JsValues
  import opened Errors
  import opened UsersRepo

  /** bcrypt, seen only through its two operations. `hash` takes the
      password, the cost factor and the random salt. */
  datatype PasswordHasher = PasswordHasher(hash: (string, nat, string) -> string,
                                           compare: (string, string) -> bool)

  /** The one property of bcrypt the core relies on: a password matches every
      hash made from it. */
  ghost predicate Sound(h: PasswordHasher)
  {
    forall p, cost, salt :: h.compare(p, h.hash(p, cost, salt))
  }

  const SaltRounds: nat := 10

  datatype RegisterRequest = RegisterRequest(email: string, password: string)

  /** The public view of a user: no password hash. `createdAt` stands for
      the instant that `toISOString` renders. */
  datatype UserView = UserView(id: string, email: string, createdAt: int)

  /** `toUserRto`; `now` is the clock reading used when the document has no timestamp. */
  function ToUserView(u: UserRecord, now: int): (v: UserView)
    ensures v.id == u.id && v.email == u.email
    ensures u.createdAt.Some? ==> v.createdAt == u.createdAt.value
    ensures u.createdAt.None? ==> v.createdAt == now
  {
    UserView(u.id, u.email, if u.createdAt.Some? then u.createdAt.value else now)
  }

  /** What `register` throws: the RpcException with a ServiceError, the
      store's own error rethrown, or an engine error raised while
      classifying the store's error. */
  datatype RegisterFailure = Rejected(error: ServiceError) | Rethrown(storeError: JsValue) | Raised(engineError: JsError)

  /** A key-pattern or key-value field holding an `email` key. */
  predicate HasEmailKey(v: JsValue)
  {
    v.Obj? && "email" in v.props
  }

  /** A value that `v && "email" in v` throws on. */
  predicate ThrowsOnIn(v: JsValue)
  {
    Truthy(v) && IsPrimitive(v)
  }

  /** The error message as a string, `""` when it is not one. */
  function MessageText(err: JsValue): string
  {
    var m := Get(err, "message");
    if m.Str? then m.s else ""
  }

  /** `isDuplicateEmailMongoError`: is a store error the unique email index
      firing? Structured fields first, then the message. As written, the `in`
      operator throws a TypeError when `keyPattern` or `keyValue` is a truthy
      primitive. */
  function IsDuplicateEmailMongoError(err: JsValue): (r: Result<bool, JsError>)
    ensures Get(err, "code") != Num(11000.0) ==> r == Ok(false)
    ensures Get(err, "code") == Num(11000.0) && HasEmailKey(Get(err, "keyPattern")) ==> r == Ok(true)
    ensures (Get(err, "code") == Num(11000.0) && !ThrowsOnIn(Get(err, "keyPattern"))
             && HasEmailKey(Get(err, "keyValue"))) ==> r == Ok(true)
    ensures (Get(err, "code") == Num(11000.0)
             && !ThrowsOnIn(Get(err, "keyPattern")) && !HasEmailKey(Get(err, "keyPattern"))
             && !ThrowsOnIn(Get(err, "keyValue")) && !HasEmailKey(Get(err, "keyValue"))) ==>
              r == Ok(Contains(MessageText(err), "E11000") && Contains(MessageText(err), "email"))
    ensures r.Err? ==> ThrowsOnIn(Get(err, "keyPattern")) || ThrowsOnIn(Get(err, "keyValue"))
    ensures r.Err? <==> Get(err, "code") == Num(11000.0)
                        && (ThrowsOnIn(Get(err, "keyPattern"))
                            || (!HasEmailKey(Get(err, "keyPattern")) && ThrowsOnIn(Get(err, "keyValue"))))
    ensures r.Err? ==> r.error == TypeError
  {
    if Get(err, "code") != Num(11000.0) then Ok(false)
    else
      var msg := MessageText(err);
      var keyPattern := Get(err, "keyPattern");
      var keyValue := Get(err, "keyValue");
      var inPattern := if Truthy(keyPattern) then HasProperty("email", keyPattern) else Ok(false);
      if inPattern.Err? then Err(inPattern.error)
      else if inPattern.value then Ok(true)
      else
        var inValue := if Truthy(keyValue) then HasProperty("email", keyValue) else Ok(false);
        if inValue.Err? then Err(inValue.error)
        else if inValue.value then Ok(true)
        else Ok(Contains(msg, "E11000") && Contains(msg, "email"))
  }

  /** The error the unique index raises is recognised. */
  lemma DuplicateKeyErrorRecognised(email: string)
    ensures IsDuplicateEmailMongoError(DuplicateKeyError(email)) == Ok(true)
  {
  }

  /** With no structured fields, the message decides: a message that
      starts with "E11000" and later names "email" is recognised. */
  lemma MessageOnlyDuplicateRecognised(middle: string, tail: string)
    ensures IsDuplicateEmailMongoError(Obj(map[
              "code" := Num(11000.0),
              "message" := Str("E11000" + middle + "email" + tail)])) == Ok(true)
  {
    var msg := "E11000" + middle + "email" + tail;
    assert OccursAt(msg, "E11000", 0) by {
      assert msg[0..6] == "E11000";
    }
    assert OccursAt(msg, "email", 6 + |middle|) by {
      assert msg[6 + |middle|..11 + |middle|] == "email";
    }
  }

  /** The same code as a string is not the duplicate-key code. */
  lemma StringCodeNotDuplicate()
    ensures IsDuplicateEmailMongoError(Obj(map[
              "code" := Str("11000"),
              "keyPattern" := Obj(map["email" := Num(1.0)])])) == Ok(false)
  {
  }

  /** A truthy non-object `keyPattern` makes the predicate itself throw. */
  lemma PrimitiveKeyPatternThrows()
    ensures IsDuplicateEmailMongoError(Obj(map[
              "code" := Num(11000.0),
              "keyPattern" := Str("email")])) == Err(TypeError)
  {
  }

  /** `register` up to the pre-check: the lower-cased email, or the rejection when it is taken. */
  function PreCheckSpec(docs: seq<UserRecord>, rawEmail: string): Result<string, ServiceError>
  {
    var email := ToLower(rawEmail);
    if Lookup(docs, ToLower(email)).Some? then Err(EmailExistsError) else Ok(email)
  }

  /** Outcome of a registration step: the reply or the failure, and the collection afterwards. */
  datatype Registered = Registered(outcome: Result<UserView, RegisterFailure>, docs: seq<UserRecord>)

  /** `register` after hashing: insert, then map a recognised duplicate to the pre-check's
      error and rethrow every other store error. */
  function CommitSpec(docs: seq<UserRecord>, email: string, passwordHash: string, id: string, now: int,
                      fault: Option<JsValue>): (r: Registered)
    ensures r.docs == Save(docs, email, passwordHash, id, now, fault).docs
    ensures Consistent(docs) ==> Consistent(r.docs)
  {
    var s := Save(docs, email, passwordHash, id, now, fault);
    match s.outcome
    case Ok(created) => Registered(Ok(ToUserView(created, now)), s.docs)
    case Err(err) =>
      match IsDuplicateEmailMongoError(err)
      case Ok(true) => Registered(Err(Rejected(EmailExistsError)), s.docs)
      case Ok(false) => Registered(Err(Rethrown(err)), s.docs)
      case Err(e) => Registered(Err(Raised(e)), s.docs)
  }

  function RegisterSpec(docs: seq<UserRecord>, dto: RegisterRequest, hasher: PasswordHasher, salt: string,
                        id: string, now: int, fault: Option<JsValue>): (r: Registered)
  {
    match PreCheckSpec(docs, dto.email)
    case Err(e) => Registered(Err(Rejected(e)), docs)
    case Ok(email) => CommitSpec(docs, email, hasher.hash(dto.password, SaltRounds, salt), id, now, fault)
  }

  /** A taken email (in any letter case) is rejected by the pre-check:
      nothing is inserted. */
  lemma RegisterTakenEmail(docs: seq<UserRecord>, dto: RegisterRequest, hasher: PasswordHasher, salt: string,
                           id: string, now: int, fault: Option<JsValue>)
    requires Lookup(docs, ToLower(dto.email)).Some?
    ensures RegisterSpec(docs, dto, hasher, salt, id, now, fault) == Registered(Err(Rejected(EmailExistsError)), docs)
  {
    ToLowerIdempotent(dto.email);
  }

  /** A successful registration stores one document under the lower-cased
      email with the hash of the password, and replies with its view. */
  lemma RegisterStoresNormalisedEmail(docs: seq<UserRecord>, dto: RegisterRequest, hasher: PasswordHasher,
                                      salt: string, id: string, now: int, fault: Option<JsValue>)
    requires RegisterSpec(docs, dto, hasher, salt, id, now, fault).outcome.Ok?
    ensures var r := RegisterSpec(docs, dto, hasher, salt, id, now, fault);
            var u := UserRecord(id, ToLower(dto.email), hasher.hash(dto.password, SaltRounds, salt), Some(now));
            && fault.None?
            && Lookup(docs, ToLower(dto.email)).None?
            && r.docs == docs + [u]
            && r.outcome.value == UserView(id, ToLower(dto.email), now)
  {
    ToLowerIdempotent(dto.email);
  }

  /** The store's duplicate error becomes exactly the pre-check's error;
      every error the predicate does not recognise is rethrown unchanged. */
  lemma {:induction false} CommitFailureMapping(docs: seq<UserRecord>, email: string, passwordHash: string,
                                                id: string, now: int, fault: Option<JsValue>)
    requires Save(docs, email, passwordHash, id, now, fault).outcome.Err?
    ensures var err := Save(docs, email, passwordHash, id, now, fault).outcome.error;
            var r := CommitSpec(docs, email, passwordHash, id, now, fault);
            && r.docs == docs
            && (IsDuplicateEmailMongoError(err) == Ok(true) ==> r.outcome == Err(Rejected(EmailExistsError)))
            && (IsDuplicateEmailMongoError(err) == Ok(false) ==> r.outcome == Err(Rethrown(err)))
            && (IsDuplicateEmailMongoError(err).Err? ==> r.outcome == Err(Raised(IsDuplicateEmailMongoError(err).error)))
            && (!ThrowsOnIn(Get(err, "keyPattern")) && !ThrowsOnIn(Get(err, "keyValue")) ==>
                  r.outcome.error.Rejected? || r.outcome == Err(Rethrown(err)))
  {
  }

  /** A commit of an email the collection already holds, in any letter
      case, fails on the unique index and surfaces as the pre-check's error. */
  lemma CommitTakenEmail(docs: seq<UserRecord>, email: string, passwordHash: string, id: string, now: int)
    requires Lookup(docs, ToLower(email)).Some?
    ensures CommitSpec(docs, email, passwordHash, id, now, None) == Registered(Err(Rejected(EmailExistsError)), docs)
  {
    DuplicateKeyErrorRecognised(ToLower(email));
  }

  /** Registering an email twice in a row: the second attempt, in any letter
      case, is rejected. */
  lemma {:induction false} RegisterTwice(docs: seq<UserRecord>, first: RegisterRequest, second: RegisterRequest,
                                         hasher: PasswordHasher, salt1: string, salt2: string,
                                         id1: string, id2: string, now1: int, now2: int,
                                         fault2: Option<JsValue>)
    requires Consistent(docs)
    requires RegisterSpec(docs, first, hasher, salt1, id1, now1, None).outcome.Ok?
    requires SameIgnoringCase(first.email, second.email)
    ensures var after := RegisterSpec(docs, first, hasher, salt1, id1, now1, None).docs;
            RegisterSpec(after, second, hasher, salt2, id2, now2, fault2).outcome == Err(Rejected(EmailExistsError))
  {
    RegisterStoresNormalisedEmail(docs, first, hasher, salt1, id1, now1, None);
    var after := RegisterSpec(docs, first, hasher, salt1, id1, now1, None).docs;
    CreatedUserIsFound(docs, ToLower(first.email), hasher.hash(first.password, SaltRounds, salt1), id1, now1,
                       second.email);
    ToLowerIdempotent(first.email);
    RegisterTakenEmail(after, second, hasher, salt2, id2, now2, fault2);
  }

  /** One registration attempt that has already passed the pre-check. */
  datatype Attempt = Attempt(passwordHash: string, id: string, now: int)

  /** The commits of attempts that all passed the pre-check, run one after
      another on the shared collection (the order the store serialises them in). */
  function CommitAll(docs: seq<UserRecord>, email: string, attempts: seq<Attempt>): (r: (seq<Result<UserView, RegisterFailure>>, seq<UserRecord>))
    ensures |r.0| == |attempts|
    decreases |attempts|
  {
    if attempts == [] then ([], docs)
    else
      var a := attempts[0];
      var step := CommitSpec(docs, email, a.passwordHash, a.id, a.now, None);
      var rest := CommitAll(step.docs, email, attempts[1..]);
      ([step.outcome] + rest.0, rest.1)
  }

  /** Once the email is stored, every later commit of it is rejected with the
      pre-check's error and the collection does not change. */
  lemma {:induction false} CommitAllAfterWinner(docs: seq<UserRecord>, email: string, attempts: seq<Attempt>)
    requires Lookup(docs, ToLower(email)).Some?
    ensures CommitAll(docs, email, attempts).1 == docs
    ensures forall i :: 0 <= i < |attempts| ==> CommitAll(docs, email, attempts).0[i] == Err(Rejected(EmailExistsError))
    decreases |attempts|
  {
    if attempts != [] {
      var a := attempts[0];
      DuplicateKeyErrorRecognised(ToLower(email));
      assert CommitSpec(docs, email, a.passwordHash, a.id, a.now, None) == Registered(Err(Rejected(EmailExistsError)), docs);
      CommitAllAfterWinner(docs, email, attempts[1..]);
    }
  }

  /** The registration race: N attempts with one email all pass the
      pre-check against a collection without it, then commit. Exactly one
      succeeds, every other one observes "Email already exists", and the
      collection ends with that one document added. */
  lemma {:induction false} RaceExactlyOneWins(docs: seq<UserRecord>, rawEmails: seq<string>, attempts: seq<Attempt>)
    requires Consistent(docs)
    requires |rawEmails| == |attempts| > 0
    requires forall i :: 0 <= i < |rawEmails| ==> PreCheckSpec(docs, rawEmails[i]).Ok?
    requires forall i :: 0 <= i < |rawEmails| ==> SameIgnoringCase(rawEmails[i], rawEmails[0])
    ensures var email := PreCheckSpec(docs, rawEmails[0]).value;
            var r := CommitAll(docs, email, attempts);
            && r.0[0].Ok?
            && (forall i :: 1 <= i < |attempts| ==> r.0[i] == Err(Rejected(EmailExistsError)))
            && r.1 == docs + [UserRecord(attempts[0].id, email, attempts[0].passwordHash, Some(attempts[0].now))]
            && Consistent(r.1)
  {
    var email := PreCheckSpec(docs, rawEmails[0]).value;
    ToLowerIdempotent(rawEmails[0]);
    var a := attempts[0];
    var step := CommitSpec(docs, email, a.passwordHash, a.id, a.now, None);
    assert step.docs == docs + [UserRecord(a.id, email, a.passwordHash, Some(a.now))];
    LookupFindsUnique(step.docs, |docs|);
    CommitAllAfterWinner(step.docs, email, attempts[1..]);
    var r := CommitAll(docs, email, attempts);
    assert r.0 == [step.outcome] + CommitAll(step.docs, email, attempts[1..]).0;
    forall i | 1 <= i < |attempts| ensures r.0[i] == Err(Rejected(EmailExistsError)) {
      assert r.0[i] == CommitAll(step.docs, email, attempts[1..]).0[i - 1];
    }
  }

  class UsersService {
    const repo: UsersRepository

    constructor (repo: UsersRepository)
      ensures this.repo == repo
    {
      this.repo := repo;
    }

    /** Lower-cases the email and rejects it when a user already has it. */
    method PreCheck(rawEmail: string) returns (r: Result<string, ServiceError>)
      ensures r == PreCheckSpec(repo.docs, rawEmail)
      ensures r.Ok? ==> r.value == ToLower(rawEmail) && repo.FindByEmail(r.value).None?
      ensures r.Err? ==> r.error == EmailExistsError && repo.FindByEmail(rawEmail).Some?
    {
      var email := ToLower(rawEmail);
      ToLowerIdempotent(rawEmail);
      var existing := repo.FindByEmail(email);
      if existing.Some? {
        r := Err(EmailExistsError);
      } else {
        r := Ok(email);
      }
    }

    /** Hashes, inserts, and maps the insert's failure. */
    method Commit(email: string, password: string, hasher: PasswordHasher, salt: string, id: string, now: int,
                  fault: Option<JsValue>)
      returns (r: Result<UserView, RegisterFailure>)
      requires repo.Valid()
      modifies repo
      ensures repo.Valid()
      ensures Registered(r, repo.docs)
              == CommitSpec(old(repo.docs), email, hasher.hash(password, SaltRounds, salt), id, now, fault)
    {
      var passwordHash := hasher.hash(password, SaltRounds, salt);
      var created := repo.CreateUser(email, passwordHash, id, now, fault);
      match created {
        case Ok(u) =>
          r := Ok(ToUserView(u, now));
        case Err(err) =>
          var duplicate := IsDuplicateEmailMongoError(err);
          match duplicate {
            case Ok(true) => r := Err(Rejected(EmailExistsError));
            case Ok(false) => r := Err(Rethrown(err));
            case Err(e) => r := Err(Raised(e));
          }
      }
    }

    /** `register`: the pre-check, then the commit. */
    method Register(dto: RegisterRequest, hasher: PasswordHasher, salt: string, id: string, now: int,
                    fault: Option<JsValue>)
      returns (r: Result<UserView, RegisterFailure>)
      requires repo.Valid()
      modifies repo
      ensures repo.Valid()
      ensures Registered(r, repo.docs) == RegisterSpec(old(repo.docs), dto, hasher, salt, id, now, fault)
    {
      var checked := PreCheck(dto.email);
      if checked.Err? {
        r := Err(Rejected(checked.error));
        return;
      }
      r := Commit(checked.value, dto.password, hasher, salt, id, now, fault);
    }

    /** `listUsers`: one view per stored user, newest first. */
    function ListUsers(now: int): (items: seq<UserView>)
      reads this, repo
      ensures |items| == |repo.docs|
      ensures forall i :: 0 <= i < |items| ==> items[i] == ToUserView(repo.FindAll()[i], now)
    {
      var all := repo.FindAll();
      seq(|all|, i requires 0 <= i < |all| => ToUserView(all[i], now))
    }
  }

  /** Two registrations of one email that both pass the pre-check before
      either commits: the first commit wins, the second is rejected with the
      pre-check's error, and exactly one document is added. */
  method RegistrationRace(service: UsersService, a: RegisterRequest, b: RegisterRequest, hasher: PasswordHasher,
                          saltA: string, saltB: string, idA: string, idB: string, now: int)
    returns (ra: Result<UserView, RegisterFailure>, rb: Result<UserView, RegisterFailure>)
    requires service.repo.Valid()
    requires SameIgnoringCase(a.email, b.email)
    requires service.repo.FindByEmail(a.email).None?
    modifies service.repo
    ensures ra.Ok? && rb == Err(Rejected(EmailExistsError))
    ensures service.repo.docs
            == old(service.repo.docs) + [UserRecord(idA, ToLower(a.email), hasher.hash(a.password, SaltRounds, saltA), Some(now))]
  {
    var checkA := service.PreCheck(a.email);
    var checkB := service.PreCheck(b.email);
    ToLowerIdempotent(a.email);
    ghost var record := UserRecord(idA, ToLower(a.email), hasher.hash(a.password, SaltRounds, saltA), Some(now));
    ra := service.Commit(checkA.value, a.password, hasher, saltA, idA, now, None);
    assert service.repo.docs == old(service.repo.docs) + [record];
    CreatedUserIsFound(old(service.repo.docs), checkA.value, hasher.hash(a.password, SaltRounds, saltA), idA, now,
                       b.email);
    CommitTakenEmail(service.repo.docs, checkB.value, hasher.hash(b.password, SaltRounds, saltB), idB, now);
    ghost var before := service.repo.docs;
    rb := service.Commit(checkB.value, b.password, hasher, saltB, idB, now, None);
    assert service.repo.docs == before;
  }
}
