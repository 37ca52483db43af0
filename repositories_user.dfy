/** The in-memory user repository (internal/repositories/user.go): a map from
    the key "family-email" to the JSON text of the user. */
module Repositories {
  import opened Results
  import opened Domain
  import UserJson

  const UserDoesNotExist: string := "User does not exists"

  /** `getInMemoryKey`: the family, a dash, the email. */
  function InMemoryKey(family: string, email: string): (k: string)
    ensures |k| == |family| + 1 + |email|
    ensures k[..|family|] == family && k[|family|] == '-' && k[|family| + 1..] == email
  {
    family + "-" + email
  }

  /** What `GetByEmail` answers for a given content of the map. */
  function Find(kvs: map<string, string>, family: string, email: string): (r: Result<User>)
    ensures InMemoryKey(family, email) !in kvs ==> r == Err(UserDoesNotExist)
  {
    var key := InMemoryKey(family, email);
    if key in kvs then UserJson.Unmarshal(kvs[key]) else Err(UserDoesNotExist)
  }

  /** What `Create` makes of the map: the user's text under the user's key. */
  function Put(kvs: map<string, string>, u: User): (m: map<string, string>)
    ensures InMemoryKey(u.family, u.email) in m
    ensures m.Keys == kvs.Keys + {InMemoryKey(u.family, u.email)}
  {
    kvs[InMemoryKey(u.family, u.email) := UserJson.Marshal(u)]
  }

  /** Every entry is the text of a user filed under that user's own key; `Create`
      is the only writer, so the map always satisfies this. */
  ghost predicate Stored(kvs: map<string, string>) {
    forall k | k in kvs ::
      UserJson.Unmarshal(kvs[k]).Ok?
      && InMemoryKey(UserJson.Unmarshal(kvs[k]).value.family, UserJson.Unmarshal(kvs[k]).value.email) == k
  }

  class InMemoryUserRepository {
    var kvs: map<string, string>

    ghost predicate Valid()
      reads this
    {
      Stored(kvs)
    }

    /** `NewInMemoryUserRepository`: an empty map. */
    constructor ()
      ensures Valid() && kvs == map[]
    {
      kvs := map[];
    }

    /** Looks the key up and decodes the entry; the map is not touched. */
    method GetByEmail(family: string, email: string) returns (r: Result<User>)
      ensures r == Find(kvs, family, email)
      ensures Valid() ==> (r.Ok? <==> InMemoryKey(family, email) in kvs)
      ensures Valid() && r.Ok? ==> InMemoryKey(r.value.family, r.value.email) == InMemoryKey(family, email)
      ensures r.Err? ==> r.error in {UserDoesNotExist, UserJson.CouldNotUnmarshal}
    {
      var key := InMemoryKey(family, email);
      if key in kvs {
        r := UserJson.Unmarshal(kvs[key]);
      } else {
        r := Err(UserDoesNotExist);
      }
    }

    /** Stores the user's text under its key, replacing any entry already there,
        and hands the same user back. */
    method Create(user: User) returns (r: Result<User>)
      modifies this
      ensures old(Valid()) ==> Valid()
      ensures kvs == Put(old(kvs), user)
      ensures r == Ok(user)
    {
      PutKeepsStored(kvs, user);
      kvs := kvs[InMemoryKey(user.family, user.email) := UserJson.Marshal(user)];
      r := Ok(user);
    }
  }

  /** Storing a user keeps every entry readable and filed under its own key. */
  lemma PutKeepsStored(kvs: map<string, string>, u: User)
    ensures Stored(kvs) ==> Stored(Put(kvs, u))
  {
  }

  /** A new repository knows no user. */
  lemma FindInEmpty(family: string, email: string)
    ensures Find(map[], family, email) == Err(UserDoesNotExist)
  {
  }

  /** In a well-formed map a lookup succeeds exactly when the key is present, and
      the user it finds is filed under the requested key. */
  lemma FindStored(kvs: map<string, string>, family: string, email: string)
    requires Stored(kvs)
    ensures Find(kvs, family, email).Ok? <==> InMemoryKey(family, email) in kvs
    ensures Find(kvs, family, email).Ok? ==>
              InMemoryKey(Find(kvs, family, email).value.family, Find(kvs, family, email).value.email)
                == InMemoryKey(family, email)
  {
  }

  /** Read after write: the user just stored is found under its own family and
      email, whatever was there before. */
  lemma FindAfterPut(kvs: map<string, string>, u: User)
    ensures Find(Put(kvs, u), u.family, u.email) == Ok(u)
  {
  }

  /** Storing a user leaves every other key's answer as it was. */
  lemma FindAfterPutElsewhere(kvs: map<string, string>, u: User, family: string, email: string)
    requires InMemoryKey(family, email) != InMemoryKey(u.family, u.email)
    ensures Find(Put(kvs, u), family, email) == Find(kvs, family, email)
  {
  }

  /** Storing under a key already present replaces the old user: the set of keys
      does not grow and only the new user is found there. */
  lemma PutOverwrites(kvs: map<string, string>, earlier: User, u: User)
    requires InMemoryKey(earlier.family, earlier.email) == InMemoryKey(u.family, u.email)
    ensures Put(Put(kvs, earlier), u).Keys == Put(kvs, earlier).Keys
    ensures Find(Put(Put(kvs, earlier), u), earlier.family, earlier.email) == Ok(u)
  {
  }

  /** Keys of families of one length identify the pair: distinct pairs never
      share a key. */
  lemma {:induction false} KeyInjectiveForEqualFamilyLength(f1: string, e1: string, f2: string, e2: string)
    requires |f1| == |f2|
    ensures InMemoryKey(f1, e1) == InMemoryKey(f2, e2) <==> f1 == f2 && e1 == e2
  {
    if InMemoryKey(f1, e1) == InMemoryKey(f2, e2) {
      var k := InMemoryKey(f1, e1);
      assert f1 == k[..|f1|] == f2;
      assert e1 == k[|f1| + 1..] == e2;
    }
  }

  /** The key is not injective in general: ("a-b", "c") and ("a", "b-c") share
      "a-b-c", so a lookup of family "a" finds a user of family "a-b". */
  lemma KeyCollision(name: string, password: string)
    ensures InMemoryKey("a-b", "c") == InMemoryKey("a", "b-c")
    ensures Find(Put(map[], User("a-b", "c", name, password)), "a", "b-c") == Ok(User("a-b", "c", name, password))
  {
    assert InMemoryKey("a-b", "c") == InMemoryKey("a", "b-c");
    FindAfterPut(map[], User("a-b", "c", name, password));
  }
}
