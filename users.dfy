/** The user record, its external-safe view, the password hasher and the
    e-mail normalisation shared by the repository, the service and the
    controller. */
module UserModel {

  datatype Option<+T> = None | Some(value: T)

  /** The document identifier (`_id`), assigned by the store. */
  type Id = nat

  /** One document of the user collection. `password` holds the hash. */
  datatype User = User(name: string, email: string, password: string)

  /** A document together with its identifier, as a query returns it. */
  datatype Record = Record(id: Id, user: User)

  /** The sanitized projection `{id, name, email}`: it has no password field,
      so no value of this type can carry one. */
  datatype View = View(id: Id, name: string, email: string)

  function Sanitize(id: Id, u: User): View
  {
    View(id, u.name, u.email)
  }

  /** The password utilities the service calls: `hashPassword` and
      `passwordMatched`. Both are foreign code, so the model only receives
      them; a caller may pass a different hasher on every call, which
      stands for the random salt of each hash. */
  datatype Hasher = Hasher(hash: string -> string, matched: (string, string) -> bool)

  /** `toLowerCase` on one character, restricted to ASCII. */
  function LowerChar(c: char): char
  {
    if 'A' <= c <= 'Z' then (c as int - 'A' as int + 'a' as int) as char else c
  }

  predicate IsLowerCase(s: string)
  {
    forall i :: 0 <= i < |s| ==> !('A' <= s[i] <= 'Z')
  }

  /** `toLowerCase` on a string, restricted to ASCII. */
  function Lower(s: string): (r: string)
    ensures |r| == |s|
    ensures forall i :: 0 <= i < |s| ==> r[i] == LowerChar(s[i])
    ensures IsLowerCase(r)
    ensures IsLowerCase(s) ==> r == s
  {
    if s == [] then [] else [LowerChar(s[0])] + Lower(s[1..])
  }

  /** Normalising twice is normalising once. */
  lemma LowerIdempotent(s: string)
    ensures Lower(Lower(s)) == Lower(s)
  {
  }

  /** Some stored user has exactly this e-mail (no case folding). */
  predicate EmailTaken(users: map<Id, User>, email: string)
  {
    exists id :: id in users && users[id].email == email
  }

  /** No two stored users share an e-mail. */
  ghost predicate EmailsUnique(users: map<Id, User>)
  {
    forall a, b :: a in users && b in users && a != b ==> users[a].email != users[b].email
  }

  /** Every stored e-mail is in normalised (lower-case) form. */
  ghost predicate EmailsLowerCase(users: map<Id, User>)
  {
    forall id :: id in users ==> IsLowerCase(users[id].email)
  }

  /** Inserting a user under a fresh id keeps e-mails unique exactly when
      the new e-mail is not taken yet. */
  lemma InsertKeepsEmailsUnique(users: map<Id, User>, id: Id, u: User)
    requires EmailsUnique(users) && id !in users
    ensures EmailsUnique(users[id := u]) <==> !EmailTaken(users, u.email)
  {
    if EmailTaken(users, u.email) {
      var other :| other in users && users[other].email == u.email;
      assert users[id := u][other].email == users[id := u][id].email;
    }
  }

  /** Giving an existing user an e-mail nobody has keeps e-mails unique. */
  lemma SetEmailKeepsEmailsUnique(users: map<Id, User>, id: Id, name: string, email: string)
    requires EmailsUnique(users) && id in users && !EmailTaken(users, email)
    ensures EmailsUnique(users[id := users[id].(name := name, email := email)])
  {
  }
}
