/** The user repository the services and middlewares talk to: one record per
    Google identity, primary keys assigned by the store. A database fault is
    an explicit parameter of each operation. */
module Store {
  import opened Base
  import opened Models

  datatype Lookup = Found(user: User) | NotFound | Failed(error: string)

  /** The store's refusal of a second record for one Google identity. */
  const DuplicateKey: string := "duplicated key not allowed"

  class UserRepository {
    var users: map<string, User>
    var nextId: nat

    /** Records are keyed by their own Google identity and carry distinct, already issued ids. */
    ghost predicate Valid()
      reads this
    {
      && (forall g :: g in users ==> users[g].googleId == g && users[g].id < nextId)
      && (forall g, h :: g in users && h in users && users[g].id == users[h].id ==> g == h)
    }

    constructor ()
      ensures Valid() && users == map[] && nextId == 1
    {
      users := map[];
      nextId := 1;
    }

    /** `GetByGoogleID`: the record, "not found", or the database's own error. */
    function GetByGoogleID(googleId: string, fault: Option<string>): (r: Lookup)
      reads this
      ensures fault.Some? ==> r == Failed(fault.value)
      ensures fault.None? ==> (r.Found? <==> googleId in users) && (r.NotFound? <==> googleId !in users)
      ensures r.Found? ==> r.user == users[googleId]
    {
      if fault.Some? then Failed(fault.value)
      else if googleId in users then Found(users[googleId])
      else NotFound
    }

    /** `Update`: save a previously fetched record over the stored one. */
    method Update(u: User, fault: Option<string>) returns (err: Option<string>)
      requires Valid() && u.googleId in users && u.id == users[u.googleId].id
      modifies this
      ensures Valid() && nextId == old(nextId) && err == fault
      ensures users == if fault.None? then old(users)[u.googleId := u] else old(users)
    {
      err := fault;
      if fault.None? {
        users := users[u.googleId := u];
      }
    }

    /** `Create`: insert a new record under a fresh primary key. */
    method Create(u: User, fault: Option<string>) returns (created: User, err: Option<string>)
      requires Valid()
      modifies this
      ensures Valid()
      ensures created == u.(id := old(nextId))
      ensures fault.Some? ==> err == fault
      ensures fault.None? && u.googleId in old(users) ==> err == Some(DuplicateKey)
      ensures err.None? <==> fault.None? && u.googleId !in old(users)
      ensures err.None? ==> users == old(users)[u.googleId := created] && nextId == old(nextId) + 1
      ensures err.Some? ==> users == old(users) && nextId == old(nextId)
    {
      created := u.(id := nextId);
      if fault.Some? {
        err := fault;
      } else if u.googleId in users {
        err := Some(DuplicateKey);
      } else {
        err := None;
        users := users[u.googleId := created];
        nextId := nextId + 1;
      }
    }
  }
}
