/**
 * The user-record store of the authentication module: a dictionary from
 * string user IDs to records, kept in insertion order the way a Python dict
 * (and the JSON object it is saved as) keeps it.
 */
module Auth {
  import opened Wrappers

  // ---------------------------------------------------------------------------
  // Decimal user IDs: `str(n)` for a natural number n
  // ---------------------------------------------------------------------------

  function DigitChar(d: nat): char
    requires d < 10
  {
    ('0' as int + d) as char
  }

  function DigitValue(c: char): nat
  {
    if '0' <= c <= '9' then c as int - '0' as int else 0
  }

  /** Python's `str(n)` on a non-negative int: its decimal digits, no leading zero. */
  function NatToString(n: nat): (s: string)
    ensures |s| >= 1
    ensures forall i :: 0 <= i < |s| ==> '0' <= s[i] <= '9'
  {
    if n < 10 then [DigitChar(n)] else NatToString(n / 10) + [DigitChar(n % 10)]
  }

  /** Reads a string of decimal digits back as a number: the inverse of `NatToString`, used to prove that IDs of different counts differ. */
  function ParseNat(s: string): nat
  {
    if |s| == 0 then 0 else ParseNat(s[..|s| - 1]) * 10 + DigitValue(s[|s| - 1])
  }

  lemma {:induction false} ParseNatToString(n: nat)
    ensures ParseNat(NatToString(n)) == n
  {
    var s := NatToString(n);
    if n < 10 {
      assert s[..|s| - 1] == [];
    } else {
      ParseNatToString(n / 10);
      assert s[..|s| - 1] == NatToString(n / 10);
    }
  }

  /** Distinct counts give distinct IDs, so `str(len(users) + 1)` differs from every `str(i)`, i <= len(users). */
  lemma NatToStringInjective(m: nat, n: nat)
    requires m != n
    ensures NatToString(m) != NatToString(n)
  {
    ParseNatToString(m);
    ParseNatToString(n);
  }

  // ---------------------------------------------------------------------------
  // Records, users and the store as a value
  // ---------------------------------------------------------------------------

  /**
   * One JSON object under a user ID. `username` is always present (every
   * lookup indexes it); the other fields are `None` when the object lacks
   * the key, as `create_user` and `create_azure_ad_user` each leave some out.
   */
  datatype Record = Record(
    username: string,
    passwordHash: Option<string>,
    email: Option<string>,
    isAzureAd: Option<bool>)

  /** An instance of the `User` class as the lookups build it. */
  datatype User = User(
    id: string,
    username: string,
    passwordHash: Option<string>,
    email: Option<string>,
    isAzureAd: bool)

  /** What a local account creation returns: the new user, or the reason it was refused. */
  datatype Creation = Created(user: User) | Rejected(message: string)

  const UsernameExists := "Username already exists"

  /** The dictionary: its entries and the order in which its keys were inserted. */
  datatype Store = Store(users: map<string, Record>, order: seq<string>)

  predicate WellFormed(s: Store)
  {
    && (forall k :: k in s.users ==> k in s.order)
    && (forall k :: k in s.order ==> k in s.users)
    && (forall i, j :: 0 <= i < j < |s.order| ==> s.order[i] != s.order[j])
  }

  const Empty := Store(map[], [])

  /** The record a local account is created with: a username and a hash, no e-mail, no federated flag. */
  function LocalRecord(username: string, passwordHash: string): (r: Record)
    ensures Matches(r, ByUsername(username)) && Matches(r, ByEmail(None))
    ensures forall id :: !ToUser(id, r).isAzureAd && ToUser(id, r).passwordHash == Some(passwordHash)
  {
    Record(username, Some(passwordHash), None, None)
  }

  /** The record a federated account is created with: a username, the e-mail and the federated flag. */
  function AzureRecord(username: string, email: Option<string>): (r: Record)
    ensures Matches(r, ByUsername(username)) && Matches(r, ByEmail(email))
    ensures forall id :: ToUser(id, r).isAzureAd && ToUser(id, r).passwordHash.None?
  {
    Record(username, None, email, Some(true))
  }

  /** The user a lookup builds from a record: its fields as stored, federated only when stored as such. */
  function ToUser(id: string, r: Record): (u: User)
    ensures u.id == id && u.username == r.username
    ensures u.passwordHash == r.passwordHash && u.email == r.email
    ensures u.isAzureAd <==> r.isAzureAd == Some(true)
  {
    User(id, r.username, r.passwordHash, r.email, r.isAzureAd.GetOr(false))
  }

  /** The key both creation operations choose: `str(len(users) + 1)`, not checked for freshness. */
  function NewId(s: Store): (id: string)
    ensures ParseNat(id) == |s.users| + 1
    ensures Dense(s) ==> id !in s.users
  {
    ParseNatToString(|s.users| + 1);
    KeyRangeExcludes(|s.users|, |s.users| + 1);
    NatToString(|s.users| + 1)
  }

  /** `users[k] = r`: a new key goes to the end of the order, an existing one keeps its place. */
  function Put(s: Store, k: string, r: Record): (s': Store)
    ensures k in s'.users && s'.users[k] == r
    ensures |s'.order| == if k in s.users then |s.order| else |s.order| + 1
    ensures forall i :: 0 <= i < |s.order| ==> s'.order[i] == s.order[i]
    ensures k !in s.users ==> s'.order[|s.order|] == k
  {
    Store(s.users[k := r], if k in s.users then s.order else s.order + [k])
  }

  lemma PutWellFormed(s: Store, k: string, r: Record)
    requires WellFormed(s)
    ensures WellFormed(Put(s, k, r))
  {
  }

  /** Storing under one key replaces exactly that record and leaves every other entry as it was. */
  lemma PutFrame(s: Store, k: string, r: Record)
    ensures k in Put(s, k, r).users && Put(s, k, r).users[k] == r
    ensures forall k' :: k' != k ==> (k' in Put(s, k, r).users <==> k' in s.users)
    ensures forall k' :: k' != k && k' in s.users ==> Put(s, k, r).users[k'] == s.users[k']
    ensures |Put(s, k, r).users| == if k in s.users then |s.users| else |s.users| + 1
  {
  }

  // ---------------------------------------------------------------------------
  // The dense-key invariant: the keys are exactly "1" .. "n"
  // ---------------------------------------------------------------------------

  function KeyRange(n: nat): set<string>
  {
    if n == 0 then {} else KeyRange(n - 1) + {NatToString(n)}
  }

  lemma {:induction false} KeyRangeExcludes(n: nat, m: nat)
    requires m > n
    ensures NatToString(m) !in KeyRange(n)
  {
    if n > 0 {
      NatToStringInjective(m, n);
      KeyRangeExcludes(n - 1, m);
    }
  }

  predicate Dense(s: Store)
  {
    s.users.Keys == KeyRange(|s.users|)
  }

  lemma EmptyIsDense()
    ensures WellFormed(Empty) && Dense(Empty)
  {
  }

  /**
   * While the keys are exactly "1" .. "n", the key `str(len(users) + 1)` is
   * fresh, so storing under it grows the store by one and keeps it dense.
   */
  lemma {:induction false} NewIdFreshWhenDense(s: Store, r: Record)
    requires Dense(s)
    ensures NewId(s) !in s.users
    ensures |Put(s, NewId(s), r).users| == |s.users| + 1
    ensures Dense(Put(s, NewId(s), r))
  {
    var n := |s.users|;
    KeyRangeExcludes(n, n + 1);
    var s' := Put(s, NewId(s), r);
    assert s'.users.Keys == s.users.Keys + {NatToString(n + 1)};
  }

  /**
   * Without the dense-key invariant the chosen key need not be fresh: with the
   * single key "2", the next ID is "2" again and the old record is overwritten.
   */
  lemma NewIdCanOverwrite(alice: Record, bob: Record)
    ensures var s := Store(map["2" := alice], ["2"]);
      && WellFormed(s) && !Dense(s)
      && NewId(s) == "2" && NewId(s) in s.users
      && Put(s, NewId(s), bob) == Store(map["2" := bob], ["2"])
  {
    var s := Store(map["2" := alice], ["2"]);
    assert NatToString(2) == "2";
    assert NatToString(1) == "1";
    assert KeyRange(1) == {"1"};
  }

  // ---------------------------------------------------------------------------
  // First match in insertion order
  // ---------------------------------------------------------------------------

  /** What a scan compares: the record's username, or its e-mail (`None` when the record has none). */
  datatype Query = ByUsername(name: string) | ByEmail(email: Option<string>)

  predicate Matches(r: Record, q: Query)
  {
    match q
    case ByUsername(name) => r.username == name
    case ByEmail(email) => r.email == email
  }

  /** The key of the first record, in insertion order, that matches `q`. */
  function FirstKey(order: seq<string>, users: map<string, Record>, q: Query): (k: Option<string>)
    ensures k.Some? ==> k.value in order && k.value in users && Matches(users[k.value], q)
  {
    if |order| == 0 then None
    else if order[0] in users && Matches(users[order[0]], q) then Some(order[0])
    else FirstKey(order[1..], users, q)
  }

  /** A matching key with no match before it is the one the scan returns. */
  lemma {:induction false} FirstKeyAt(order: seq<string>, users: map<string, Record>, q: Query, i: nat)
    requires i < |order| && order[i] in users && Matches(users[order[i]], q)
    requires forall j :: 0 <= j < i && order[j] in users ==> !Matches(users[order[j]], q)
    ensures FirstKey(order, users, q) == Some(order[i])
  {
    if i > 0 {
      FirstKeyAt(order[1..], users, q, i - 1);
    }
  }

  /** The scan finds nothing exactly when no listed record matches. */
  lemma {:induction false} FirstKeyNone(order: seq<string>, users: map<string, Record>, q: Query)
    ensures FirstKey(order, users, q).None? <==>
      forall j :: 0 <= j < |order| && order[j] in users ==> !Matches(users[order[j]], q)
  {
    if |order| > 0 {
      FirstKeyNone(order[1..], users, q);
      assert forall j :: 1 <= j < |order| ==> order[j] == order[1..][j - 1];
    }
  }

  /** The scan result as a `User`, or `None`. */
  function FindUser(s: Store, q: Query): (u: Option<User>)
    ensures u.None? <==> FirstKey(s.order, s.users, q).None?
    ensures u.Some? ==>
      && u.value.id in s.users && Matches(s.users[u.value.id], q)
      && u.value == ToUser(u.value.id, s.users[u.value.id])
  {
    match FirstKey(s.order, s.users, q)
    case None => None
    case Some(k) => Some(ToUser(k, s.users[k]))
  }

  predicate UsernameTaken(s: Store, name: string)
  {
    exists k :: k in s.users && s.users[k].username == name
  }

  lemma FindUserByUsername(s: Store, name: string)
    requires WellFormed(s)
    ensures FindUser(s, ByUsername(name)).None? <==> !UsernameTaken(s, name)
    ensures FindUser(s, ByUsername(name)).Some? ==>
      && FindUser(s, ByUsername(name)).value.username == name
      && FindUser(s, ByUsername(name)).value.id in s.users
  {
    FirstKeyNone(s.order, s.users, ByUsername(name));
    if UsernameTaken(s, name) {
      var k :| k in s.users && s.users[k].username == name;
      assert k in s.order;
    }
  }

  predicate UniqueUsernames(users: map<string, Record>)
  {
    forall a, b :: a in users && b in users && users[a].username == users[b].username ==> a == b
  }

  /**
   * After a record with a username nobody else has is stored, the lookup by
   * that username finds it, whether its key was fresh or not.
   */
  lemma {:induction false} StoredUsernameIsFound(s: Store, k: string, r: Record)
    requires WellFormed(s)
    requires !UsernameTaken(s, r.username)
    ensures FindUser(Put(s, k, r), ByUsername(r.username)) == Some(ToUser(k, r))
  {
    var s' := Put(s, k, r);
    var q := ByUsername(r.username);
    var i: nat;
    if k in s.users {
      assert k in s.order;
      i :| 0 <= i < |s.order| && s.order[i] == k;
    } else {
      i := |s.order|;
    }
    assert s'.order[i] == k;
    forall j | 0 <= j < i && s'.order[j] in s'.users
      ensures !Matches(s'.users[s'.order[j]], q)
    {
      assert s'.order[j] == s.order[j] && s.order[j] in s.users;
    }
    FirstKeyAt(s'.order, s'.users, q, i);
  }

  lemma StoreFreshUsernameKeepsUnique(s: Store, k: string, r: Record)
    requires UniqueUsernames(s.users)
    requires !UsernameTaken(s, r.username)
    ensures UniqueUsernames(Put(s, k, r).users)
  {
  }

  /** A federated account is stored without a username check, so two records can share a username. */
  lemma AzureRecordCanDuplicateUsername(hash: string, email: string)
    ensures var s := Store(map["1" := LocalRecord("alice", hash)], ["1"]);
      && WellFormed(s) && UniqueUsernames(s.users)
      && FirstKey(s.order, s.users, ByEmail(Some(email))).None?
      && !UniqueUsernames(Put(s, NewId(s), AzureRecord("alice", Some(email))).users)
  {
    var s := Store(map["1" := LocalRecord("alice", hash)], ["1"]);
    assert NatToString(2) == "2";
    var s' := Put(s, NewId(s), AzureRecord("alice", Some(email)));
    assert "1" in s'.users && "2" in s'.users;
  }

  /**
   * An email of `None` compares equal to the missing email of every local
   * record, so the federated lookup then returns a local account, marked federated.
   */
  lemma NoEmailMatchesLocalRecord(hash: string)
    ensures var s := Store(map["1" := LocalRecord("alice", hash)], ["1"]);
      FirstKey(s.order, s.users, ByEmail(None)) == Some("1")
  {
  }

  /** Storing under the next ID keeps the store well formed and, when they were, its keys dense. */
  lemma StoreNewIdEffect(s: Store, r: Record)
    requires WellFormed(s)
    ensures WellFormed(Put(s, NewId(s), r))
    ensures Dense(s) ==> Dense(Put(s, NewId(s), r))
  {
    PutWellFormed(s, NewId(s), r);
    if Dense(s) {
      NewIdFreshWhenDense(s, r);
    }
  }

  /** What storing a record with a username nobody has yet does to the store's invariants. */
  lemma CreateUserEffect(s: Store, k: string, r: Record)
    requires WellFormed(s) && !UsernameTaken(s, r.username) && k == NewId(s)
    ensures WellFormed(Put(s, k, r))
    ensures FindUser(Put(s, k, r), ByUsername(r.username)) == Some(ToUser(k, r))
    ensures UniqueUsernames(s.users) ==> UniqueUsernames(Put(s, k, r).users)
    ensures Dense(s) ==> Dense(Put(s, k, r)) && |Put(s, k, r).users| == |s.users| + 1
  {
    PutWellFormed(s, k, r);
    StoredUsernameIsFound(s, k, r);
    if Dense(s) {
      NewIdFreshWhenDense(s, r);
    }
    if UniqueUsernames(s.users) {
      StoreFreshUsernameKeepsUnique(s, k, r);
    }
  }

  // ---------------------------------------------------------------------------
  // Password check
  // ---------------------------------------------------------------------------

  /**
   * `User.check_password`: federated users never log in with a password; for
   * the others the answer is the hash check's, `hashMatches` standing for
   * werkzeug's `check_password_hash(hash, password)`.
   */
  function CheckPassword(u: User, password: string, hashMatches: (Option<string>, string) -> bool): (ok: bool)
    ensures u.isAzureAd ==> !ok
    ensures !u.isAzureAd ==> (ok <==> hashMatches(u.passwordHash, password))
  {
    if u.isAzureAd then false else hashMatches(u.passwordHash, password)
  }

  // ---------------------------------------------------------------------------
  // The store as the module's persistent state
  // ---------------------------------------------------------------------------

  /**
   * The users dictionary. Each operation of the module loads it, possibly
   * updates it and saves it; the fields stand for the saved content, so
   * "saved" means "the fields were reassigned".
   */
  class UserStore {
    var users: map<string, Record>
    var order: seq<string>

    function State(): Store
      reads this
    {
      Store(users, order)
    }

    predicate Valid()
      reads this
    {
      WellFormed(State())
    }

    /** The store as `load_users` returns it. */
    constructor (loaded: Store)
      requires WellFormed(loaded)
      ensures Valid() && State() == loaded
    {
      users := loaded.users;
      order := loaded.order;
    }

    /** `get_user`: the record under the ID, as a `User`, or `None` when the ID is absent. */
    function GetUser(id: string): (u: Option<User>)
      reads this
      ensures u.None? <==> id !in users
      ensures u.Some? ==> u.value == ToUser(id, users[id])
      ensures u.Some? && users[id].isAzureAd.None? ==> !u.value.isAzureAd
    {
      if id in users then Some(ToUser(id, users[id])) else None
    }

    /** `get_user_by_username`: the first record in insertion order with that username. */
    method GetUserByUsername(username: string) returns (u: Option<User>)
      requires Valid()
      ensures u == FindUser(State(), ByUsername(username))
      ensures u.None? <==> forall k :: k in users ==> users[k].username != username
      ensures u.Some? ==> u.value.username == username && u.value.id in users
    {
      var i := 0;
      while i < |order|
        invariant 0 <= i <= |order|
        invariant forall j :: 0 <= j < i ==> order[j] in users && users[order[j]].username != username
      {
        var id := order[i];
        var data := users[id];
        if data.username == username {
          FirstKeyAt(order, users, ByUsername(username), i);
          FindUserByUsername(State(), username);
          return Some(ToUser(id, data));
        }
        i := i + 1;
      }
      FirstKeyNone(order, users, ByUsername(username));
      FindUserByUsername(State(), username);
      return None;
    }

    /**
     * `create_user`: rejects a username some record already has and leaves
     * the store unsaved; otherwise stores a local record under
     * `str(len(users) + 1)`. `passwordHash` is what werkzeug's
     * `generate_password_hash(password)` produced.
     */
    method CreateUser(username: string, passwordHash: string) returns (r: Creation)
      requires Valid()
      modifies this
      ensures Valid()
      ensures UsernameTaken(old(State()), username) ==>
        r == Rejected(UsernameExists) && State() == old(State())
      ensures !UsernameTaken(old(State()), username) ==>
        && r == Created(User(NewId(old(State())), username, Some(passwordHash), None, false))
        && State() == Put(old(State()), NewId(old(State())), LocalRecord(username, passwordHash))
      ensures r.Created? ==> FindUser(State(), ByUsername(username)) == Some(r.user)
      ensures old(UniqueUsernames(users)) ==> UniqueUsernames(users)
      ensures old(Dense(State())) ==> Dense(State())
      ensures old(Dense(State())) && r.Created? ==> |users| == old(|users|) + 1
    {
      var i := 0;
      while i < |order|
        invariant 0 <= i <= |order|
        invariant forall j :: 0 <= j < i ==> order[j] in users && users[order[j]].username != username
      {
        if users[order[i]].username == username {
          assert State() == old(State());
          return Rejected(UsernameExists);
        }
        i := i + 1;
      }
      assert !UsernameTaken(State(), username) by {
        forall k | k in users ensures users[k].username != username {
          assert k in order;
        }
      }
      var old0 := State();
      var id := NewId(State());
      var rec := LocalRecord(username, passwordHash);
      CreateUserEffect(old0, id, rec);
      var s' := Put(old0, id, rec);
      users, order := s'.users, s'.order;
      r := Created(User(id, username, Some(passwordHash), None, false));
    }

    /**
     * `create_azure_ad_user`: the first record whose email equals `email` is
     * returned as a federated user and nothing is saved; otherwise a
     * federated record is stored under `str(len(users) + 1)`.
     */
    method CreateAzureAdUser(email: Option<string>, username: string) returns (u: User)
      requires Valid()
      modifies this
      ensures Valid()
      ensures u.passwordHash.None? && u.isAzureAd && u.email == email
      ensures match FirstKey(old(order), old(users), ByEmail(email))
        case Some(k) =>
          u == User(k, old(users)[k].username, None, email, true) && State() == old(State())
        case None =>
          && u == User(NewId(old(State())), username, None, email, true)
          && State() == Put(old(State()), NewId(old(State())), AzureRecord(username, email))
      ensures u.id in users
      ensures old(Dense(State())) ==> Dense(State())
    {
      var i := 0;
      while i < |order|
        invariant 0 <= i <= |order|
        invariant forall j :: 0 <= j < i ==> order[j] in users && users[order[j]].email != email
      {
        var id := order[i];
        if users[id].email == email {
          FirstKeyAt(order, users, ByEmail(email), i);
          assert State() == old(State());
          return User(id, users[id].username, None, email, true);
        }
        i := i + 1;
      }
      FirstKeyNone(order, users, ByEmail(email));
      var old0 := State();
      var id := NewId(State());
      var rec := AzureRecord(username, email);
      StoreNewIdEffect(old0, rec);
      var s' := Put(old0, id, rec);
      users, order := s'.users, s'.order;
      u := User(id, username, None, email, true);
    }

    /** `init_demo_user`: on an empty store only, creates the local account "demo". */
    method InitDemoUser(demoPasswordHash: string)
      requires Valid()
      modifies this
      ensures Valid()
      ensures old(|users|) == 0 ==>
        State() == Store(map["1" := LocalRecord("demo", demoPasswordHash)], ["1"])
      ensures old(|users|) != 0 ==> State() == old(State())
    {
      if |users| == 0 {
        assert NatToString(1) == "1";
        var _ := CreateUser("demo", demoPasswordHash);
      }
    }
  }

  // ---------------------------------------------------------------------------
  // Properties across operations
  // ---------------------------------------------------------------------------

  /**
   * Whatever password is offered, a user that a successful federated
   * creation stored cannot pass the password check when looked up again.
   */
  lemma AzureUserNeverPasswordLogin(s: Store, email: Option<string>, username: string,
                                    password: string, hashMatches: (Option<string>, string) -> bool)
    ensures var s' := Put(s, NewId(s), AzureRecord(username, email));
      !CheckPassword(ToUser(NewId(s), s'.users[NewId(s)]), password, hashMatches)
  {
  }

  /** A local account created by `create_user` checks its password with the stored hash. */
  lemma LocalUserPasswordCheck(s: Store, username: string, passwordHash: string,
                               password: string, hashMatches: (Option<string>, string) -> bool)
    ensures var s' := Put(s, NewId(s), LocalRecord(username, passwordHash));
      CheckPassword(ToUser(NewId(s), s'.users[NewId(s)]), password, hashMatches)
        == hashMatches(Some(passwordHash), password)
  {
  }
}
