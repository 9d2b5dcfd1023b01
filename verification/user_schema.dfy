/** The user collection. Each document has an email, a name, a password
    field and the `_id` the store assigns; email carries a unique index,
    which is why the collection is a map keyed by email. Lookups compare the
    email verbatim: no case folding and no trimming. */
module UserSchema {
  import opened JsText
  import opened Outcomes

  /** The store-assigned document identifier. */
  type ObjectId = nat

  datatype User = User(id: ObjectId, email: JsString, name: JsString, password: JsString)

  /** The documents keyed by email, and the identifier the next inserted
      document receives. */
  datatype Store = Store(records: map<JsString, User>, nextId: ObjectId)

  const Empty := Store(map[], 0)

  /** The driver's error for a write that breaks the unique index. */
  datatype StoreError = DuplicateKey(key: JsString)

  /** What the collection guarantees: each document sits under its own
      email, and identifiers are distinct and already handed out. */
  ghost predicate Valid(s: Store) {
    && (forall e | e in s.records :: s.records[e].email == e && s.records[e].id < s.nextId)
    && (forall e1, e2 | e1 in s.records && e2 in s.records && e1 != e2 :: s.records[e1].id != s.records[e2].id)
  }

  /** `findOne({ email })`: in a well-formed store the result is a document
      whose email equals the query exactly, and there is none only when no
      document has that email. */
  function FindOne(s: Store, email: JsString): (r: Option<User>)
    ensures Valid(s) ==> (r.Some? <==> exists e | e in s.records :: s.records[e].email == email)
    ensures r.Some? ==> r.value in s.records.Values
    ensures Valid(s) && r.Some? ==> r.value.email == email
  {
    if email in s.records then Some(s.records[email]) else None
  }

  datatype Inserted = Inserted(user: User, store: Store)

  /** `new userModel({...}).save()`: the unique index refuses a second
      document with the same email; otherwise the new document gets a fresh
      identifier and every other document is left as it was. */
  function Insert(s: Store, email: JsString, name: JsString, password: JsString): (r: Result<Inserted, StoreError>)
    ensures email in s.records <==> r.Failure?
    ensures r.Failure? ==> r.error == DuplicateKey(email)
    ensures r.Success? ==>
              && r.value.user == User(s.nextId, email, name, password)
              && r.value.store.records.Keys == s.records.Keys + {email}
              && r.value.store.records[email] == r.value.user
              && (forall e | e in s.records :: r.value.store.records[e] == s.records[e])
    ensures Valid(s) && r.Success? ==>
              && Valid(r.value.store)
              && (forall e | e in s.records :: s.records[e].id != r.value.user.id)
  {
    if email in s.records then Failure(DuplicateKey(email))
    else
      var user := User(s.nextId, email, name, password);
      Success(Inserted(user, Store(s.records[email := user], s.nextId + 1)))
  }

  /** Email is unique: two documents of a well-formed store with the same
      email are the same document. */
  lemma EmailIsUnique(s: Store, e1: JsString, e2: JsString)
    requires Valid(s)
    requires e1 in s.records && e2 in s.records
    requires s.records[e1].email == s.records[e2].email
    ensures e1 == e2 && s.records[e1] == s.records[e2]
  {
  }

  /** Neither name nor password is unique: a well-formed store may hold two
      documents with the same name and the same stored password value. */
  lemma NameAndPasswordMayRepeat()
    ensures exists s: Store, e1, e2 ::
              && Valid(s) && e1 in s.records && e2 in s.records && e1 != e2
              && s.records[e1].name == s.records[e2].name
              && s.records[e1].password == s.records[e2].password
  {
    var a, b := Units("a@x.io"), Units("b@x.io");
    assert a[0] != b[0];
    var s := Store(map[a := User(0, a, Units("Sam"), Units("h")), b := User(1, b, Units("Sam"), Units("h"))], 2);
    assert Valid(s) && a in s.records && b in s.records && a != b;
    assert s.records[a].name == s.records[b].name && s.records[a].password == s.records[b].password;
  }
}
