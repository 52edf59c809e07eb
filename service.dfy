/** The user service: guarded operations over the repository that answer
    with sanitized views, `true`, or `null` (here `false`). */
module UsersService {
  import opened UserModel
  import opened UsersRepository

  /** `getUsers`: one `{id, name, email}` view per stored user, in the
      collection's order, built by a loop that pushes one projection per
      document. */
  method GetUsers(store: UserStore) returns (results: seq<View>)
    requires store.Valid()
    ensures |results| == |store.users| == |store.order|
    ensures forall k :: 0 <= k < |results| ==> results[k] == Sanitize(store.order[k], store.users[store.order[k]])
    ensures forall id :: id in store.users ==> exists k :: 0 <= k < |results| && results[k].id == id
  {
    var users := store.GetUsers();
    results := [];
    for i := 0 to |users|
      invariant |results| == i
      invariant forall k :: 0 <= k < i ==> results[k] == Sanitize(users[k].id, users[k].user)
    {
      var user := users[i];
      results := results + [Sanitize(user.id, user.user)];
    }
  }

  /** `getUser`: null for an unknown id, otherwise the sanitized view of
      that user. */
  function GetUser(store: UserStore, id: Id): (r: Option<View>)
    reads store
    ensures r.None? <==> id !in store.users
    ensures r.Some? ==> r.value.id == id
    ensures r.Some? ==> r.value.name == store.users[id].name && r.value.email == store.users[id].email
  {
    match store.GetUser(id)
    case None => None
    case Some(user) => Some(Sanitize(id, user))
  }

  /** `getCheckEmail`: true exactly when no stored user has this e-mail,
      compared as given (no case folding here). */
  function GetCheckEmail(store: UserStore, email: string): (free: bool)
    reads store
    requires store.Valid()
    ensures free <==> !EmailTaken(store.users, email)
  {
    store.GetUserEmail(email).None?
  }

  /** `getCheckPasswordOld`: false for an unknown id, otherwise whether the
      old password matches the stored hash. */
  function GetCheckPasswordOld(store: UserStore, hasher: Hasher, id: Id, oldPassword: string): (ok: bool)
    reads store
    ensures id !in store.users ==> !ok
    ensures id in store.users ==> ok == hasher.matched(oldPassword, store.users[id].password)
  {
    match store.GetUser(id)
    case None => false
    case Some(user) => hasher.matched(oldPassword, user.password)
  }

  /** `createUser`: stores the hash of the password, never the plaintext;
      true on success, null (false) when the insert fails, which leaves the
      collection as it was. */
  method CreateUser(store: UserStore, hasher: Hasher, name: string, email: string, password: string, storeFails: bool)
    returns (ok: bool)
    requires store.Valid()
    modifies store
    ensures store.Valid()
    ensures ok == !storeFails
    ensures !ok ==> store.users == old(store.users) && store.order == old(store.order)
    ensures old(store.nextId) <= store.nextId
    ensures ok ==> exists id :: && id !in old(store.users)
                                && old(store.nextId) <= id < store.nextId
                                && store.users == old(store.users)[id := User(name, email, hasher.hash(password))]
                                && store.order == old(store.order) + [id]
  {
    var hashedPassword := hasher.hash(password);
    var created := store.CreateUser(name, email, hashedPassword, storeFails);
    ok := created.Some?;
  }

  /** `updateUser`: null and no change for an unknown id or a failed write;
      otherwise only that user's name and e-mail change. */
  method UpdateUser(store: UserStore, id: Id, name: string, email: string, storeFails: bool) returns (ok: bool)
    requires store.Valid()
    modifies store
    ensures store.Valid() && store.order == old(store.order)
    ensures ok == (id in old(store.users) && !storeFails)
    ensures store.users == if ok
                           then old(store.users)[id := old(store.users)[id].(name := name, email := email)]
                           else old(store.users)
    ensures store.nextId == old(store.nextId)
  {
    if store.GetUser(id).None? {
      return false;
    }
    ok := store.UpdateUser(id, name, email, storeFails);
  }

  /** `updatePassword`: the hash is computed first, but an unknown id still
      answers null with nothing changed; otherwise only that user's password
      becomes the hash of the new one. */
  method UpdatePassword(store: UserStore, hasher: Hasher, id: Id, password: string, storeFails: bool) returns (ok: bool)
    requires store.Valid()
    modifies store
    ensures store.Valid() && store.order == old(store.order)
    ensures ok == (id in old(store.users) && !storeFails)
    ensures store.users == if ok
                           then old(store.users)[id := old(store.users)[id].(password := hasher.hash(password))]
                           else old(store.users)
    ensures store.nextId == old(store.nextId)
  {
    var user := store.GetUser(id);
    var hashedPassword := hasher.hash(password);
    if user.None? {
      return false;
    }
    ok := store.UpdatePassword(id, hashedPassword, storeFails);
  }

  /** `deleteUser`: null for an unknown id or a failed delete; otherwise
      exactly that user is removed and a later `getUser` finds nothing. */
  method DeleteUser(store: UserStore, id: Id, storeFails: bool) returns (ok: bool)
    requires store.Valid()
    modifies store
    ensures store.Valid()
    ensures ok == (id in old(store.users) && !storeFails)
    ensures store.users == if ok then old(store.users) - {id} else old(store.users)
    ensures store.order == if ok then RemoveId(old(store.order), id) else old(store.order)
    ensures store.nextId == old(store.nextId)
    ensures ok ==> GetUser(store, id).None?
  {
    if store.GetUser(id).None? {
      return false;
    }
    ok := store.DeleteUser(id, storeFails);
  }
}
