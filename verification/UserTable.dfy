/** The `users` table; emails are stored normalised and nothing deletes a user. */
module UserTable {
  import opened Types

  /** A password is represented by what bcrypt compares it to. */
  datatype User = User(email: string, password: Hash, active: bool, verified: bool)

  type Users = map<Id, User>

  predicate Taken(users: Users, email: string)
  {
    exists id | id in users :: users[id].email == email
  }

  /** The unique index on the email. */
  ghost predicate UniqueEmails(users: Users)
  {
    forall i, j | i in users && j in users && users[i].email == users[j].email :: i == j
  }

  class UserRepo {
    var users: Users

    constructor ()
      ensures users == map[]
    {
      users := map[];
    }

    /** One transaction: the insert of user and role takes effect as a whole, or the email was taken. */
    method CreateWithRole(id: Id, email: string, password: Hash, fault: Fault) returns (user: Result<Id>)
      requires UniqueEmails(users) && id !in users
      modifies this
      ensures UniqueEmails(users)
      ensures fault.NoFault? ==> user == if Taken(old(users), email) then Err(Conflict) else Ok(id)
      ensures !fault.NoFault? ==> user == Err(Internal)
      ensures users == if fault.Applied() && !Taken(old(users), email)
                       then old(users)[id := User(email, password, true, false)] else old(users)
    {
      var taken := Taken(users, email);
      if fault.Applied() && !taken {
        users := users[id := User(email, password, true, false)];
      }
      user := if !fault.NoFault? then Err(Internal) else if taken then Err(Conflict) else Ok(id);
    }

    /** The lookup by email has one answer, because emails are unique. */
    method GetByEmail(email: string, fault: Fault) returns (user: Result<Id>)
      requires UniqueEmails(users)
      ensures user.Ok? <==> fault.NoFault? && Taken(users, email)
      ensures forall id | id in users && users[id].email == email && user.Ok? :: user.value == id
      ensures user.Ok? ==> user.value in users && users[user.value].email == email
      ensures user.Err? ==> user.error == if fault.NoFault? then NotFound else Internal
    {
      if !fault.NoFault? {
        return Err(Internal);
      }
      if id :| id in users && users[id].email == email {
        return Ok(id);
      }
      user := Err(NotFound);
    }

    method UpdatePassword(id: Id, password: Hash, fault: Fault) returns (done: Result<()>)
      modifies this
      ensures users == if fault.Applied() && id in old(users)
                       then old(users)[id := old(users)[id].(password := password)] else old(users)
      ensures done == if !fault.NoFault? then Err(Internal) else if id in old(users) then Ok(()) else Err(NotFound)
      ensures UniqueEmails(old(users)) ==> UniqueEmails(users)
    {
      var found := id in users;
      if fault.Applied() && found {
        users := users[id := users[id].(password := password)];
      }
      done := if !fault.NoFault? then Err(Internal) else if found then Ok(()) else Err(NotFound);
    }

    method MarkEmailVerified(id: Id, fault: Fault) returns (done: Result<()>)
      modifies this
      ensures users == if fault.Applied() && id in old(users)
                       then old(users)[id := old(users)[id].(verified := true)] else old(users)
      ensures done == if !fault.NoFault? then Err(Internal) else if id in old(users) then Ok(()) else Err(NotFound)
      ensures UniqueEmails(old(users)) ==> UniqueEmails(users)
    {
      var found := id in users;
      if fault.Applied() && found {
        users := users[id := users[id].(verified := true)];
      }
      done := if !fault.NoFault? then Err(Internal) else if found then Ok(()) else Err(NotFound);
    }
  }
}
