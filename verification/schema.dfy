/**
 * bcrypt, as the handlers see it: `hash(plain, cost)` draws a fresh salt,
 * `compare(attempt, hash)` says whether the attempt is the secret the hash was
 * made from. bcrypt reads only the first 72 bytes of a secret, so two secrets
 * that agree there are the same secret to it. A digest is kept as a symbolic
 * term; only Compare looks inside it.
 */
module Password {

  /** The cost factor the handlers pass to the hasher. */
  const Cost: nat := 10

  /** How much of a secret bcrypt reads. */
  const MaxSecretLength: nat := 72

  datatype Digest = Bcrypt(cost: nat, salt: nat, secret: string)

  /** The part of a secret bcrypt reads: its first 72 characters. */
  function Significant(s: string): (r: string)
    ensures |r| <= MaxSecretLength && r <= s
    ensures |s| <= MaxSecretLength ==> r == s
    ensures |s| > MaxSecretLength ==> |r| == MaxSecretLength
  {
    if |s| <= MaxSecretLength then s else s[..MaxSecretLength]
  }

  /** `bcrypt.hash(plain, 10)`; the random salt is a parameter. */
  function Hash(plain: string, salt: nat): (h: Digest)
    ensures Compare(plain, h)
    ensures h.cost == Cost
  {
    Bcrypt(Cost, salt, plain)
  }

  /** `bcrypt.compare(attempt, h)`. */
  predicate Compare(attempt: string, h: Digest) {
    Significant(attempt) == Significant(h.secret)
  }

  /** Two hashes of the same secret under different salts differ. */
  lemma SaltsSeparateHashes(plain: string, salt1: nat, salt2: nat)
    requires salt1 != salt2
    ensures Hash(plain, salt1) != Hash(plain, salt2)
  {
  }

  /**
   * A hash accepts an attempt exactly when the attempt agrees with the secret
   * on the part bcrypt reads: for secrets of at most 72 characters, exactly
   * the secret itself.
   */
  lemma CompareHashIff(plain: string, attempt: string, salt: nat)
    ensures Compare(attempt, Hash(plain, salt)) <==> Significant(attempt) == Significant(plain)
    ensures |plain| <= MaxSecretLength && |attempt| <= MaxSecretLength ==>
              (Compare(attempt, Hash(plain, salt)) <==> attempt == plain)
  {
  }

  /** Any two secrets that share their first 72 characters unlock each other's hash. */
  lemma LongSecretsCollide(plain: string, attempt: string, salt: nat)
    requires |plain| >= MaxSecretLength && |attempt| >= MaxSecretLength
    requires plain[..MaxSecretLength] == attempt[..MaxSecretLength]
    ensures Compare(attempt, Hash(plain, salt))
  {
    assert Significant(plain) == plain[..MaxSecretLength];
    assert Significant(attempt) == attempt[..MaxSecretLength];
  }
}

/**
 * The user record schema: field constraints that every stored record meets,
 * and the unique index on `username`.
 */
module Schema {
  import opened Text
  import opened Password

  type Id = nat

  /** The role enum, in the order the schema lists it. */
  const Roles: seq<string> := ["teacher", "student", "admin"]

  /** A stored record: `_id`, the four schema fields (timestamps are not modelled). */
  datatype User = User(id: Id, username: string, name: string, password: Digest, role: string)

  /** `required`, `match: /^[a-zA-Z0-9]+$/` and `lowercase: true` on `username`. */
  predicate WellFormedUsername(s: string) {
    IsAlphanumeric(s) && IsLowerCase(s)
  }

  /** One record obeys the schema; a digest is never empty, so `password` is always present. */
  predicate WellFormedUser(u: User) {
    WellFormedUsername(u.username) && u.name != "" && u.role in Roles
  }

  /** The unique index on `username`. */
  predicate UniqueUsernames(users: map<Id, User>) {
    forall a, b :: a in users && b in users && users[a].username == users[b].username ==> a == b
  }

  /** The store invariant: every record is keyed by its own id, obeys the schema, and usernames are unique. */
  predicate WellFormedStore(users: map<Id, User>) {
    (forall k :: k in users ==> users[k].id == k && WellFormedUser(users[k]))
    && UniqueUsernames(users)
  }

  /** Some record already holds `name`. */
  predicate Taken(users: map<Id, User>, name: string) {
    exists k :: k in users && users[k].username == name
  }

  /** The schema's setter: `lowercase: true` folds the username before it is saved. */
  function ApplySetters(u: User): (v: User)
    ensures WellFormedUser(u) ==> v == u
    ensures v.id == u.id && v.name == u.name && v.password == u.password && v.role == u.role
    ensures IsLowerCase(v.username)
    ensures v.username == ToLower(u.username)
  {
    ToLowerProperties(u.username);
    var v := u.(username := ToLower(u.username));
    assert WellFormedUser(u) ==> v == u by {
      if WellFormedUser(u) {
        ToLowerFixesLowerCase(u.username);
      }
    }
    v
  }

  /** Document validation at save time: the setters run first, then the `required`, `match` and `enum` validators. */
  predicate PassesValidation(u: User) {
    WellFormedUser(ApplySetters(u))
  }

  /** Adding a valid record under a fresh id with a free username keeps the store invariant. */
  lemma InsertKeepsWellFormed(users: map<Id, User>, u: User)
    requires WellFormedStore(users)
    requires u.id !in users && WellFormedUser(u) && !Taken(users, u.username)
    ensures WellFormedStore(users[u.id := u])
    ensures Taken(users[u.id := u], u.username)
  {
    var m := users[u.id := u];
    assert m[u.id] == u;
  }

  /** Renaming record `id` to a free (or its own) well-formed username keeps the store invariant. */
  lemma RenameKeepsWellFormed(users: map<Id, User>, id: Id, username: string, name: string)
    requires WellFormedStore(users) && id in users
    requires WellFormedUsername(username) && name != ""
    requires forall k :: k in users && users[k].username == username ==> k == id
    ensures WellFormedStore(users[id := users[id].(username := username, name := name)])
  {
  }

  /** Removing any record keeps the store invariant. */
  lemma RemoveKeepsWellFormed(users: map<Id, User>, id: Id)
    requires WellFormedStore(users)
    ensures WellFormedStore(users - {id})
  {
  }

  /** In a well-formed store a username that is not lower case names no record. */
  lemma UpperCaseNeverStored(users: map<Id, User>, name: string)
    requires WellFormedStore(users)
    requires !IsLowerCase(name)
    ensures !Taken(users, name)
  {
  }
}
