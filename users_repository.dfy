/** The user store adapter: one collection of user documents with a unique
    index on the (lower-cased) email. The collection is kept in insertion
    order, as the database keeps it; `FindAll` sorts newest first the way
    the query's `sort({ createdAt: -1 })` does. */
module UsersRepo {
  import opened Wrappers
  import opened Text
  import opened JsValues

  /** A stored user document. `id` is the hexadecimal form of the `_id` the
      store assigns; `createdAt` is the timestamp the store writes on insert. */
  datatype UserRecord = UserRecord(id: string, email: string, passwordHash: string, createdAt: Option<int>)

  predicate EmailsNormalised(docs: seq<UserRecord>)
  {
    forall i :: 0 <= i < |docs| ==> docs[i].email == ToLower(docs[i].email)
  }

  predicate EmailsUnique(docs: seq<UserRecord>)
  {
    forall i, j :: 0 <= i < j < |docs| ==> docs[i].email != docs[j].email
  }

  /** What the unique email index guarantees of the collection. */
  predicate Consistent(docs: seq<UserRecord>)
  {
    EmailsNormalised(docs) && EmailsUnique(docs)
  }

  /** `findOne({ email })`: the first document whose email is exactly `email`. */
  function Lookup(docs: seq<UserRecord>, email: string): (r: Option<UserRecord>)
    ensures r.Some? ==> r.value in docs && r.value.email == email
    ensures r.None? <==> forall i :: 0 <= i < |docs| ==> docs[i].email != email
  {
    if docs == [] then None
    else if docs[0].email == email then Some(docs[0])
    else Lookup(docs[1..], email)
  }

  /** In a consistent collection a lookup finds the one document with that email. */
  lemma {:induction false} LookupFindsUnique(docs: seq<UserRecord>, k: nat)
    requires EmailsUnique(docs) && k < |docs|
    ensures Lookup(docs, docs[k].email) == Some(docs[k])
  {
    if k > 0 {
      assert docs[0].email != docs[k].email;
      assert docs[1..][k - 1] == docs[k];
      LookupFindsUnique(docs[1..], k - 1);
    }
  }

  /** The MongoServerError the unique email index raises for `email`. */
  function DuplicateKeyError(email: string): JsValue
  {
    Obj(map[
      "code" := Num(11000.0),
      "keyPattern" := Obj(map["email" := Num(1.0)]),
      "keyValue" := Obj(map["email" := Str(email)]),
      "message" := Str("E11000 duplicate key error collection: authentication.users index: email_1 dup key: { email: \""
                       + email + "\" }")])
  }

  /** Outcome of one insert: the created document or the thrown error, and
      the collection afterwards. */
  datatype SaveResult = SaveResult(outcome: Result<UserRecord, JsValue>, docs: seq<UserRecord>)

  /** `new userModel({ email: email.toLowerCase(), passwordHash }).save()`.
      `fault` is a failure of the store other than the index (a lost
      connection, a write concern error): it aborts the insert. Otherwise the
      unique index rejects an email already stored. */
  function Save(docs: seq<UserRecord>, email: string, passwordHash: string, id: string, now: int,
                fault: Option<JsValue>): (r: SaveResult)
    ensures fault.Some? ==> r == SaveResult(Err(fault.value), docs)
    ensures fault.None? && Lookup(docs, ToLower(email)).Some? ==>
              r == SaveResult(Err(DuplicateKeyError(ToLower(email))), docs)
    ensures r.outcome.Ok? <==> fault.None? && Lookup(docs, ToLower(email)).None?
    ensures r.outcome.Ok? ==>
              && r.outcome.value == UserRecord(id, ToLower(email), passwordHash, Some(now))
              && r.docs == docs + [r.outcome.value]
    ensures Consistent(docs) ==> Consistent(r.docs)
  {
    var normalised := ToLower(email);
    if fault.Some? then SaveResult(Err(fault.value), docs)
    else if Lookup(docs, normalised).Some? then SaveResult(Err(DuplicateKeyError(normalised)), docs)
    else
      ToLowerIdempotent(email);
      SaveResult(Ok(UserRecord(id, normalised, passwordHash, Some(now))), docs + [UserRecord(id, normalised, passwordHash, Some(now))])
  }

  /** `a` sorts no later than `b` under `createdAt` descending; a document
      without a timestamp sorts after every document that has one. */
  predicate AtLeastAsNew(a: UserRecord, b: UserRecord)
  {
    match (a.createdAt, b.createdAt)
    case (_, None) => true
    case (None, Some(_)) => false
    case (Some(x), Some(y)) => x >= y
  }

  predicate NewestFirst(s: seq<UserRecord>)
  {
    forall i, j :: 0 <= i < j < |s| ==> AtLeastAsNew(s[i], s[j])
  }

  /** Inserts `u` into a newest-first sequence, after every document at least as new. */
  function InsertByAge(u: UserRecord, s: seq<UserRecord>): (r: seq<UserRecord>)
    ensures multiset(r) == multiset(s) + multiset{u}
    ensures |r| == |s| + 1
  {
    if s == [] || !AtLeastAsNew(s[0], u) then [u] + s
    else
      assert s == [s[0]] + s[1..];
      [s[0]] + InsertByAge(u, s[1..])
  }

  lemma {:induction false} InsertByAgeSorted(u: UserRecord, s: seq<UserRecord>)
    requires NewestFirst(s)
    ensures NewestFirst(InsertByAge(u, s))
  {
    if s == [] || !AtLeastAsNew(s[0], u) {
      forall j | 0 <= j < |s| ensures AtLeastAsNew(u, s[j]) {
        if j > 0 { assert AtLeastAsNew(s[0], s[j]); }
      }
    } else {
      InsertByAgeSorted(u, s[1..]);
      var r := InsertByAge(u, s[1..]);
      forall j | 0 <= j < |r| ensures AtLeastAsNew(s[0], r[j]) {
        assert r[j] in multiset(r);
        assert r[j] == u || r[j] in multiset(s[1..]);
        if r[j] != u {
          var k :| 0 <= k < |s[1..]| && s[1..][k] == r[j];
          assert AtLeastAsNew(s[0], s[k + 1]);
        }
      }
    }
  }

  /** `find({}).sort({ createdAt: -1 })`, with documents of equal timestamps
      kept in insertion order. */
  function SortNewestFirst(docs: seq<UserRecord>): (r: seq<UserRecord>)
    ensures multiset(r) == multiset(docs)
    ensures |r| == |docs|
  {
    if docs == [] then []
    else
      assert docs == docs[..|docs| - 1] + [docs[|docs| - 1]];
      InsertByAge(docs[|docs| - 1], SortNewestFirst(docs[..|docs| - 1]))
  }

  lemma {:induction false} SortNewestFirstSorted(docs: seq<UserRecord>)
    ensures NewestFirst(SortNewestFirst(docs))
  {
    if docs != [] {
      SortNewestFirstSorted(docs[..|docs| - 1]);
      InsertByAgeSorted(docs[|docs| - 1], SortNewestFirst(docs[..|docs| - 1]));
    }
  }

  class UsersRepository {
    /** The users collection, in insertion order. */
    var docs: seq<UserRecord>

    ghost predicate Valid()
      reads this
    {
      Consistent(docs)
    }

    constructor ()
      ensures Valid() && docs == []
    {
      docs := [];
    }

    /** Looks up by the lower-cased email, so the letter case of the
        argument does not matter. */
    function FindByEmail(email: string): (r: Option<UserRecord>)
      reads this
      ensures r.Some? ==> r.value in docs && r.value.email == ToLower(email)
      ensures r.None? <==> forall i :: 0 <= i < |docs| ==> docs[i].email != ToLower(email)
      ensures forall other :: SameIgnoringCase(other, email) ==> r == Lookup(docs, ToLower(other))
    {
      Lookup(docs, ToLower(email))
    }

    /** Inserts a user with the lower-cased email and the given hash, or
        throws the store's error and leaves the collection as it was. */
    method CreateUser(email: string, passwordHash: string, id: string, now: int, fault: Option<JsValue>)
      returns (r: Result<UserRecord, JsValue>)
      requires Valid()
      modifies this
      ensures Valid()
      ensures SaveResult(r, docs) == Save(old(docs), email, passwordHash, id, now, fault)
    {
      var s := Save(docs, email, passwordHash, id, now, fault);
      r := s.outcome;
      docs := s.docs;
    }

    /** Every stored user, newest first. */
    function FindAll(): (r: seq<UserRecord>)
      reads this
      ensures multiset(r) == multiset(docs)
      ensures NewestFirst(r)
    {
      SortNewestFirstSorted(docs);
      SortNewestFirst(docs)
    }
  }

  /** After a successful insert, every case variant of the email finds the
      new document. */
  lemma CreatedUserIsFound(docs: seq<UserRecord>, email: string, passwordHash: string, id: string,
                           now: int, variant: string)
    requires Consistent(docs)
    requires Save(docs, email, passwordHash, id, now, None).outcome.Ok?
    requires SameIgnoringCase(variant, email)
    ensures var s := Save(docs, email, passwordHash, id, now, None);
            Lookup(s.docs, ToLower(variant)) == Some(s.outcome.value)
  {
    var s := Save(docs, email, passwordHash, id, now, None);
    LookupFindsUnique(s.docs, |docs|);
  }
}
