/** The request handlers of the user routes: each runs its guards in order,
    stops at the first that fails, and ends in one response, either an
    error kind with its message or a success body. */
module UsersController {
  import opened UserModel
  import opened UsersRepository
  import UsersService

  /** The error kinds the handlers raise. */
  datatype ErrorType = UnprocessableEntity | EmailAlreadyTaken | InvalidPassword | WrongResetPasswordToken

  /** The success bodies; none of them has a password field. */
  datatype Body =
    | UserList(users: seq<View>)
    | UserDetail(user: View)
    | NameEmail(name: string, email: string)
    | IdOnly(id: Id)
    | IdMessage(id: Id, message: string)

  datatype Response = Error(kind: ErrorType, message: string) | Ok(body: Body)

  /** `getUsers`: the list of sanitized views. */
  method GetUsers(store: UserStore) returns (resp: Response)
    requires store.Valid()
    ensures resp.Ok? && resp.body.UserList?
    ensures |resp.body.users| == |store.users| == |store.order|
    ensures forall k :: 0 <= k < |resp.body.users| ==>
              resp.body.users[k] == Sanitize(store.order[k], store.users[store.order[k]])
  {
    var users := UsersService.GetUsers(store);
    resp := Ok(UserList(users));
  }

  /** `getUser`: "Unknown user" for an unknown id, otherwise the view. */
  method GetUser(store: UserStore, id: Id) returns (resp: Response)
    ensures id !in store.users ==> resp == Error(UnprocessableEntity, "Unknown user")
    ensures id in store.users ==> resp == Ok(UserDetail(View(id, store.users[id].name, store.users[id].email)))
  {
    var user := UsersService.GetUser(store, id);
    if user.None? {
      return Error(UnprocessableEntity, "Unknown user");
    }
    resp := Ok(UserDetail(user.value));
  }

  /** `createUser`: lower-cases the e-mail, then rejects a taken e-mail,
      then a mismatched confirmation, then a failed insert; only success
      writes, and it answers `{name, email}` with the normalised e-mail. */
  method CreateUser(store: UserStore, hasher: Hasher, name: string, emailBefore: string,
                    password: string, passwordConfirm: string, storeFails: bool)
    returns (resp: Response)
    requires store.Valid()
    modifies store
    ensures store.Valid()
    ensures EmailTaken(old(store.users), Lower(emailBefore)) ==>
              resp == Error(EmailAlreadyTaken, "Email already exist")
    ensures !EmailTaken(old(store.users), Lower(emailBefore)) && passwordConfirm != password ==>
              resp == Error(InvalidPassword, "Invalid Confirm Password")
    ensures !EmailTaken(old(store.users), Lower(emailBefore)) && passwordConfirm == password && storeFails ==>
              resp == Error(UnprocessableEntity, "Failed to create user")
    ensures !EmailTaken(old(store.users), Lower(emailBefore)) && passwordConfirm == password && !storeFails ==>
              resp == Ok(NameEmail(name, Lower(emailBefore)))
    ensures resp.Error? ==> store.users == old(store.users) && store.order == old(store.order)
    ensures old(store.nextId) <= store.nextId
    ensures resp.Ok? ==> exists id :: && id !in old(store.users)
                                      && old(store.nextId) <= id < store.nextId
                                      && store.users == old(store.users)[id := User(name, Lower(emailBefore), hasher.hash(password))]
                                      && store.order == old(store.order) + [id]
    ensures EmailsUnique(old(store.users)) ==> EmailsUnique(store.users)
    ensures EmailsLowerCase(old(store.users)) ==> EmailsLowerCase(store.users)
  {
    var email := Lower(emailBefore);
    var checkEmail := UsersService.GetCheckEmail(store, email);
    if !checkEmail {
      return Error(EmailAlreadyTaken, "Email already exist");
    }
    if passwordConfirm != password {
      return Error(InvalidPassword, "Invalid Confirm Password");
    }
    ghost var before := store.users;
    var success := UsersService.CreateUser(store, hasher, name, email, password, storeFails);
    if !success {
      return Error(UnprocessableEntity, "Failed to create user");
    }
    ghost var id :| id !in before && store.users == before[id := User(name, email, hasher.hash(password))];
    if EmailsUnique(before) {
      InsertKeepsEmailsUnique(before, id, User(name, email, hasher.hash(password)));
    }
    resp := Ok(NameEmail(name, email));
  }

  /** `updateUser`: lower-cases the e-mail, then rejects any stored e-mail,
      the user's own current one included, before an unknown id or a failed
      write; success changes only that user's name and e-mail. */
  method UpdateUser(store: UserStore, id: Id, name: string, emailBefore: string, storeFails: bool)
    returns (resp: Response)
    requires store.Valid()
    modifies store
    ensures store.Valid() && store.order == old(store.order)
    ensures EmailTaken(old(store.users), Lower(emailBefore)) ==>
              resp == Error(EmailAlreadyTaken, "Email already exist")
    ensures !EmailTaken(old(store.users), Lower(emailBefore)) && (id !in old(store.users) || storeFails) ==>
              resp == Error(UnprocessableEntity, "Failed to update user")
    ensures !EmailTaken(old(store.users), Lower(emailBefore)) && id in old(store.users) && !storeFails ==>
              resp == Ok(IdOnly(id))
    ensures store.users == if resp.Ok?
                           then old(store.users)[id := old(store.users)[id].(name := name, email := Lower(emailBefore))]
                           else old(store.users)
    ensures store.nextId == old(store.nextId)
    ensures EmailsUnique(old(store.users)) ==> EmailsUnique(store.users)
    ensures EmailsLowerCase(old(store.users)) ==> EmailsLowerCase(store.users)
  {
    var email := Lower(emailBefore);
    var checkEmail := UsersService.GetCheckEmail(store, email);
    if !checkEmail {
      return Error(EmailAlreadyTaken, "Email already exist");
    }
    ghost var before := store.users;
    var success := UsersService.UpdateUser(store, id, name, email, storeFails);
    if !success {
      return Error(UnprocessableEntity, "Failed to update user");
    }
    if EmailsUnique(before) {
      SetEmailKeepsEmailsUnique(before, id, name, email);
    }
    resp := Ok(IdOnly(id));
  }

  /** `updatePassword`: an unknown id or a wrong old password answers
      "Invalid Old Password" before the confirmation is looked at; a failed
      write answers the reset-token error; success changes only that user's
      password, to the hash of the new one. */
  method UpdatePassword(store: UserStore, hasher: Hasher, id: Id, oldPassword: string,
                        password: string, passwordConfirm: string, storeFails: bool)
    returns (resp: Response)
    requires store.Valid()
    modifies store
    ensures store.Valid() && store.order == old(store.order)
    ensures !(id in old(store.users) && hasher.matched(oldPassword, old(store.users)[id].password)) ==>
              resp == Error(InvalidPassword, "Invalid Old Password")
    ensures id in old(store.users) && hasher.matched(oldPassword, old(store.users)[id].password) ==>
              resp == if passwordConfirm != password then Error(InvalidPassword, "Invalid Confirm Password")
                      else if storeFails then Error(WrongResetPasswordToken, "Invalid update password")
                      else Ok(IdMessage(id, "Password Success Change"))
    ensures store.users == if resp.Ok?
                           then old(store.users)[id := old(store.users)[id].(password := hasher.hash(password))]
                           else old(store.users)
    ensures store.nextId == old(store.nextId)
    ensures EmailsUnique(old(store.users)) ==> EmailsUnique(store.users)
    ensures EmailsLowerCase(old(store.users)) ==> EmailsLowerCase(store.users)
  {
    var checkPasswordOld := UsersService.GetCheckPasswordOld(store, hasher, id, oldPassword);
    if !checkPasswordOld {
      return Error(InvalidPassword, "Invalid Old Password");
    }
    if passwordConfirm != password {
      return Error(InvalidPassword, "Invalid Confirm Password");
    }
    var success := UsersService.UpdatePassword(store, hasher, id, password, storeFails);
    if !success {
      return Error(WrongResetPasswordToken, "Invalid update password");
    }
    resp := Ok(IdMessage(id, "Password Success Change"));
  }

  /** `deleteUser`: "Failed to delete user" for an unknown id or a failed
      delete; success removes exactly that user and answers `{id}`. */
  method DeleteUser(store: UserStore, id: Id, storeFails: bool) returns (resp: Response)
    requires store.Valid()
    modifies store
    ensures store.Valid()
    ensures id in old(store.users) && !storeFails ==> resp == Ok(IdOnly(id))
    ensures !(id in old(store.users) && !storeFails) ==> resp == Error(UnprocessableEntity, "Failed to delete user")
    ensures store.users == if resp.Ok? then old(store.users) - {id} else old(store.users)
    ensures store.order == if resp.Ok? then RemoveId(old(store.order), id) else old(store.order)
    ensures store.nextId == old(store.nextId)
    ensures EmailsUnique(old(store.users)) ==> EmailsUnique(store.users)
    ensures EmailsLowerCase(old(store.users)) ==> EmailsLowerCase(store.users)
  {
    var success := UsersService.DeleteUser(store, id, storeFails);
    if !success {
      return Error(UnprocessableEntity, "Failed to delete user");
    }
    resp := Ok(IdOnly(id));
  }
}
