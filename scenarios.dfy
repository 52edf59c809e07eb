/** Request sequences against a fresh user collection, showing what the
    handlers' contracts promise together: e-mail normalisation, the order
    of the guards, and that a failed guard leaves the stored hash alone. */
module UsersScenarios {
  import opened UserModel
  import opened UsersRepository
  import opened UsersController

  /** A spelling of Ann's e-mail that differs from the stored form only in
      letter case normalises to the stored form. */
  lemma LowersToAnnEmail(s: string)
    requires |s| == 10
    requires forall i :: 0 <= i < 10 ==> LowerChar(s[i]) == "ann@ex.com"[i]
    ensures Lower(s) == "ann@ex.com"
  {
  }

  /** Signs Ann up, with an upper-case e-mail, on an empty collection. */
  method SignUpAnn(store: UserStore, hasher: Hasher) returns (id: Id, resp: Response)
    requires store.Valid() && store.users == map[] && store.order == []
    modifies store
    ensures store.Valid()
    ensures resp == Ok(NameEmail("Ann", "ann@ex.com"))
    ensures store.users == map[id := User("Ann", "ann@ex.com", hasher.hash("secret1"))]
    ensures store.order == [id]
  {
    var email := "ANN@EX.COM";
    LowersToAnnEmail(email);
    assert !EmailTaken(map[], "ann@ex.com");
    resp := CreateUser(store, hasher, "Ann", email, "secret1", "secret1", false);
    id := store.order[0];
  }

  /** Sign-up stores the lower-cased e-mail and the hash of the password,
      and answers `{name, email}` without the password. */
  method SignUpNormalisesEmail(hasher: Hasher) returns (resp: Response, stored: User)
    ensures resp == Ok(NameEmail("Ann", "ann@ex.com"))
    ensures stored == User("Ann", "ann@ex.com", hasher.hash("secret1"))
  {
    var store := new UserStore();
    var ann;
    ann, resp := SignUpAnn(store, hasher);
    stored := store.users[ann];
  }

  /** A second sign-up with the same e-mail in other letter case is refused
      as taken, although its confirmation also mismatches, and writes
      nothing. */
  method SecondSignUpSameEmail(hasher: Hasher) returns (resp: Response, count: nat)
    ensures resp == Error(EmailAlreadyTaken, "Email already exist")
    ensures count == 1
  {
    var store := new UserStore();
    var ann, _ := SignUpAnn(store, hasher);
    var email := "Ann@Ex.Com";
    LowersToAnnEmail(email);
    assert store.users[ann].email == "ann@ex.com";
    resp := CreateUser(store, hasher, "Bob", email, "secret2", "mismatch", false);
    count := |store.order|;
  }

  /** Renaming a user while keeping the same e-mail is refused as taken:
      the check does not exclude the user's own record. */
  method RenameKeepingEmail(hasher: Hasher) returns (resp: Response, stored: User)
    ensures resp == Error(EmailAlreadyTaken, "Email already exist")
    ensures stored == User("Ann", "ann@ex.com", hasher.hash("secret1"))
  {
    var store := new UserStore();
    var ann, _ := SignUpAnn(store, hasher);
    var email := "ann@ex.com";
    LowersToAnnEmail(email);
    assert store.users[ann].email == "ann@ex.com";
    resp := UpdateUser(store, ann, "Annie", email, false);
    stored := store.users[ann];
  }

  /** A wrong old password is refused before the confirmation is compared,
      and the stored hash stays. */
  method WrongOldPassword(hasher: Hasher) returns (resp: Response, stored: User)
    requires !hasher.matched("wrong", hasher.hash("secret1"))
    ensures resp == Error(InvalidPassword, "Invalid Old Password")
    ensures stored.password == hasher.hash("secret1")
  {
    var store := new UserStore();
    var ann, _ := SignUpAnn(store, hasher);
    resp := UpdatePassword(store, hasher, ann, "wrong", "newpass1", "different", false);
    stored := store.users[ann];
  }

  /** An unknown id answers "Invalid Old Password" too, not a not-found
      error. */
  method UnknownIdPassword(hasher: Hasher) returns (resp: Response)
    ensures resp == Error(InvalidPassword, "Invalid Old Password")
  {
    var store := new UserStore();
    var ann, _ := SignUpAnn(store, hasher);
    resp := UpdatePassword(store, hasher, ann + 1, "secret1", "newpass1", "newpass1", false);
  }

  /** A correct old password with a mismatched confirmation is refused, and
      the stored hash stays. */
  method MismatchedNewPassword(hasher: Hasher) returns (resp: Response, stored: User)
    requires hasher.matched("secret1", hasher.hash("secret1"))
    ensures resp == Error(InvalidPassword, "Invalid Confirm Password")
    ensures stored.password == hasher.hash("secret1")
  {
    var store := new UserStore();
    var ann, _ := SignUpAnn(store, hasher);
    resp := UpdatePassword(store, hasher, ann, "secret1", "newpass1", "different", false);
    stored := store.users[ann];
  }

  /** After a user is deleted, fetching that id answers "Unknown user", and
      deleting it again fails. */
  method DeleteThenGet(hasher: Hasher) returns (deleted: Response, fetched: Response, again: Response)
    ensures deleted.Ok? && deleted.body.IdOnly?
    ensures fetched == Error(UnprocessableEntity, "Unknown user")
    ensures again == Error(UnprocessableEntity, "Failed to delete user")
  {
    var store := new UserStore();
    var ann, _ := SignUpAnn(store, hasher);
    deleted := DeleteUser(store, ann, false);
    fetched := GetUser(store, ann);
    again := DeleteUser(store, ann, false);
  }

  /** Once a user is deleted, the e-mail can sign up again, and the new
      record gets an id other than the deleted one. */
  method DeletedIdNotReused(hasher: Hasher) returns (first: Id, second: Id, resp: Response)
    ensures resp == Ok(NameEmail("Bob", "ann@ex.com"))
    ensures first != second
  {
    var store := new UserStore();
    var signedUp;
    first, signedUp := SignUpAnn(store, hasher);
    var deleted := DeleteUser(store, first, false);
    assert store.users == map[];
    var email := "ann@ex.com";
    LowersToAnnEmail(email);
    resp := CreateUser(store, hasher, "Bob", email, "secret2", "secret2", false);
    second := store.order[|store.order| - 1];
  }
}
