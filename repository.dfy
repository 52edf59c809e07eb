/** The user collection and the queries and writes the repository issues
    against it: `find`, `findById`, `findOne({email})`, `create`,
    `updateOne` with `$set`, and `deleteOne`. */
module UsersRepository {
  import opened UserModel

  /** No identifier occurs twice. */
  predicate Distinct(ids: seq<Id>)
  {
    forall i, j :: 0 <= i < j < |ids| ==> ids[i] != ids[j]
  }

  /** `ids` without `x`, the others kept in their order. */
  function RemoveId(ids: seq<Id>, x: Id): (r: seq<Id>)
    ensures forall y :: y in r <==> y in ids && y != x
    ensures |r| <= |ids|
    ensures Distinct(ids) ==> Distinct(r)
    ensures x !in ids ==> r == ids
  {
    if ids == [] then []
    else if ids[0] == x then RemoveId(ids[1..], x)
    else
      var rest := RemoveId(ids[1..], x);
      assert Distinct(ids) ==> ids[0] !in ids[1..];
      [ids[0]] + rest
  }

  /** A duplicate-free enumeration of a map's keys has one entry per key. */
  lemma {:induction false} DistinctCovers(ids: seq<Id>, users: map<Id, User>)
    requires Distinct(ids)
    requires forall id :: id in ids <==> id in users
    ensures |ids| == |users|
  {
    if ids == [] {
      assert users.Keys == {};
    } else {
      var rest := users - {ids[0]};
      assert ids[0] !in ids[1..];
      assert forall id :: id in ids[1..] <==> id in rest by {
        forall id ensures id in ids[1..] <==> id in rest {
          assert id in ids <==> id == ids[0] || id in ids[1..];
        }
      }
      DistinctCovers(ids[1..], rest);
      assert users.Keys == rest.Keys + {ids[0]};
    }
  }

  /** The records of `ids`, in that order. */
  function RecordsOf(users: map<Id, User>, ids: seq<Id>): (r: seq<Record>)
    requires forall i :: 0 <= i < |ids| ==> ids[i] in users
    ensures |r| == |ids|
    ensures forall k :: 0 <= k < |r| ==> r[k] == Record(ids[k], users[ids[k]])
  {
    if ids == [] then [] else [Record(ids[0], users[ids[0]])] + RecordsOf(users, ids[1..])
  }

  /** The id of a user among `ids` whose e-mail is exactly `email`, if any. */
  function FindByEmail(users: map<Id, User>, ids: seq<Id>, email: string): (r: Option<Id>)
    requires forall i :: 0 <= i < |ids| ==> ids[i] in users
    ensures r.Some? ==> r.value in ids && users[r.value].email == email
    ensures r.None? <==> forall i :: 0 <= i < |ids| ==> users[ids[i]].email != email
  {
    if ids == [] then None
    else if users[ids[0]].email == email then Some(ids[0])
    else
      var r := FindByEmail(users, ids[1..], email);
      assert forall i :: 1 <= i < |ids| ==> ids[i] == ids[1..][i - 1];
      r
  }

  /** The user collection. `order` is the collection's natural order, in
      which `find` returns documents; `nextId` stands for the generator of
      fresh identifiers, so an identifier is never handed out twice. */
  class UserStore {
    var users: map<Id, User>
    var order: seq<Id>
    var nextId: Id

    ghost predicate Valid()
      reads this
    {
      && Distinct(order)
      && (forall id :: id in order <==> id in users)
      && (forall id :: id in users ==> id < nextId)
    }

    constructor ()
      ensures Valid()
      ensures users == map[] && order == []
    {
      users := map[];
      order := [];
      nextId := 0;
    }

    /** `find({})`: every record of the collection, each once, in the
        collection's order, and nothing else. */
    function GetUsers(): (r: seq<Record>)
      reads this
      requires Valid()
      ensures |r| == |users| == |order|
      ensures forall k :: 0 <= k < |r| ==> r[k].id in users && r[k].user == users[r[k].id]
      ensures forall id :: id in users ==> exists k :: 0 <= k < |r| && r[k].id == id
      ensures forall k :: 0 <= k < |r| ==> r[k].id == order[k]
    {
      DistinctCovers(order, users);
      RecordsOf(users, order)
    }

    /** `findById(id)`: the document with that id, or nothing. */
    function GetUser(id: Id): (r: Option<User>)
      reads this
      ensures r.Some? <==> id in users
      ensures r.Some? ==> r.value == users[id]
    {
      if id in users then Some(users[id]) else None
    }

    /** `findOne({email})`: some document whose e-mail is exactly `email`,
        or nothing when there is none. */
    function GetUserEmail(email: string): (r: Option<Record>)
      reads this
      requires Valid()
      ensures r.Some? ==> r.value.id in users && r.value.user == users[r.value.id]
      ensures r.Some? ==> r.value.user.email == email
      ensures r.None? <==> !EmailTaken(users, email)
    {
      match FindByEmail(users, order, email)
      case None =>
        assert forall id :: id in users ==> exists i :: 0 <= i < |order| && order[i] == id;
        None
      case Some(id) => Some(Record(id, users[id]))
    }

    /** `create({name, email, password})`: a new document under a fresh id,
        or, when the store fails, nothing written at all. */
    method CreateUser(name: string, email: string, password: string, storeFails: bool)
      returns (r: Option<Id>)
      requires Valid()
      modifies this
      ensures Valid()
      ensures r.None? <==> storeFails
      ensures r.None? ==> users == old(users) && order == old(order)
      ensures r.Some? ==> r.value !in old(users)
      ensures r.Some? ==> users == old(users)[r.value := User(name, email, password)]
      ensures r.Some? ==> order == old(order) + [r.value]
      ensures old(nextId) <= nextId
      ensures r.Some? ==> old(nextId) <= r.value < nextId
    {
      if storeFails {
        return None;
      }
      var id := nextId;
      assert id !in order;
      users := users[id := User(name, email, password)];
      order := order + [id];
      nextId := nextId + 1;
      r := Some(id);
    }

    /** `updateOne({_id: id}, {$set: {name, email}})`: only the name and
        e-mail of that document change; no document matching is a no-op. */
    method UpdateUser(id: Id, name: string, email: string, storeFails: bool) returns (ok: bool)
      requires Valid()
      modifies this
      ensures Valid() && order == old(order)
      ensures ok == !storeFails
      ensures users == if ok && id in old(users)
                       then old(users)[id := old(users)[id].(name := name, email := email)]
                       else old(users)
      // the frame above, spelled out for the field `$set` leaves alone
      ensures id in users ==> users[id].password == old(users)[id].password
      ensures nextId == old(nextId)
    {
      ok := !storeFails;
      if ok && id in users {
        users := users[id := users[id].(name := name, email := email)];
      }
    }

    /** `updateOne({_id: id}, {$set: {password}})`: only the password of
        that document changes; no document matching is a no-op. */
    method UpdatePassword(id: Id, password: string, storeFails: bool) returns (ok: bool)
      requires Valid()
      modifies this
      ensures Valid() && order == old(order)
      ensures ok == !storeFails
      ensures users == if ok && id in old(users)
                       then old(users)[id := old(users)[id].(password := password)]
                       else old(users)
      // the frame above, spelled out for the fields `$set` leaves alone
      ensures id in users ==> users[id].name == old(users)[id].name && users[id].email == old(users)[id].email
      ensures nextId == old(nextId)
    {
      ok := !storeFails;
      if ok && id in users {
        users := users[id := users[id].(password := password)];
      }
    }

    /** `deleteOne({_id: id})`: only that document goes; no document
        matching is a no-op. */
    method DeleteUser(id: Id, storeFails: bool) returns (ok: bool)
      requires Valid()
      modifies this
      ensures Valid()
      ensures ok == !storeFails
      ensures users == if ok then old(users) - {id} else old(users)
      ensures order == if ok then RemoveId(old(order), id) else old(order)
      ensures nextId == old(nextId)
    {
      ok := !storeFails;
      if ok {
        users := users - {id};
        order := RemoveId(order, id);
      }
    }
  }
}
