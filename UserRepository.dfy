/** The user table with the lookups the services use. */
module UserRepository {
  import opened Linq
  import opened Domain

  function HasId(id: int): User -> bool { (u: User) => u.id == id }
  function HasEmail(email: string): User -> bool { (u: User) => u.email == email }
  function HasUsername(username: string): User -> bool { (u: User) => u.username == username }

  /** Users in insertion order; `nextId` is the next identity value. */
  class UserStore {
    var users: seq<User>
    var nextId: int

    ghost predicate Valid()
      reads this
    {
      forall i | 0 <= i < |users| :: users[i].id < nextId
    }

    constructor ()
      ensures Valid() && users == [] && nextId == 1
    {
      users := [];
      nextId := 1;
    }

    function GetById(id: int): (r: Option<User>)
      reads this
      ensures r.None? <==> forall i | 0 <= i < |users| :: users[i].id != id
      ensures r.Some? ==> r.value in users && r.value.id == id
    {
      FirstOrDefault(users, HasId(id))
    }

    function GetByEmail(email: string): (r: Option<User>)
      reads this
      ensures r.None? <==> forall i | 0 <= i < |users| :: users[i].email != email
      ensures r.Some? ==> r.value in users && r.value.email == email
    {
      FirstOrDefault(users, HasEmail(email))
    }

    function GetByUsername(username: string): (r: Option<User>)
      reads this
      ensures r.None? <==> forall i | 0 <= i < |users| :: users[i].username != username
      ensures r.Some? ==> r.value in users && r.value.username == username
    {
      FirstOrDefault(users, HasUsername(username))
    }
  }
}
