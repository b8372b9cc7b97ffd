/** The in-memory user list: seeded with two users, searched by numeric id,
    grown by appending a user whose id is one more than the largest, updated
    by merging a request into the stored record, and shrunk by splicing. */
module Users {
  import opened Common

  /** An element of the in-memory list. A created user holds exactly the fields
      of its request, so every field but `id` may be absent. */
  datatype User = User(
    id: int,
    name: Option<string>,
    birthdate: Option<string>,
    email: Option<string>,
    role: Option<seq<string>>)

  datatype CreateUserDto = CreateUserDto(name: Option<string>, birthdate: Option<string>, email: Option<string>)

  datatype UpdateUserDto = UpdateUserDto(name: Option<string>, email: Option<string>)

  const UserNotFound: Exception := Plain("User not found")

  /** The list the service starts with. */
  function InitialUsers(): (s: seq<User>)
    ensures |s| == 2 && s[0].id == 1 && s[1].id == 2
  {
    [ User(1, Some("John Doe"), Some("1990-01-01"), None, Some(["user"])),
      User(2, Some("Jane Smith"), Some("1992-05-15"), None, Some(["admin"])) ]
  }

  ghost predicate IdsDistinct(s: seq<User>) {
    forall i, j :: 0 <= i < j < |s| ==> s[i].id != s[j].id
  }

  /** `{ ...user, ...dto }`: each field the request carries replaces the stored
      one; the id, birthdate and role are not request fields. */
  function Merge(u: User, dto: UpdateUserDto): (m: User)
    ensures m.id == u.id && m.birthdate == u.birthdate && m.role == u.role
    ensures dto.name.Some? ==> m.name == dto.name
    ensures dto.name.None? ==> m.name == u.name
    ensures dto.email.Some? ==> m.email == dto.email
    ensures dto.email.None? ==> m.email == u.email
  {
    User(u.id,
         if dto.name.Some? then dto.name else u.name,
         u.birthdate,
         if dto.email.Some? then dto.email else u.email,
         u.role)
  }

  class UsersService {
    /** The private `users` array. */
    var users: seq<User>

    ghost predicate Valid()
      reads this
    {
      IdsDistinct(users)
    }

    constructor ()
      ensures Valid() && users == InitialUsers()
    {
      users := InitialUsers();
    }

    /** Returns the list as it stands. */
    method FindAll() returns (r: seq<User>)
      ensures r == users
    {
      r := users;
    }

    /** `findIndex((user) => user.id === id)`: the first position holding `id`, or -1. */
    method FindIndex(id: int) returns (idx: int)
      ensures -1 <= idx < |users|
      ensures idx == -1 <==> forall j :: 0 <= j < |users| ==> users[j].id != id
      ensures idx >= 0 ==> users[idx].id == id
      ensures idx >= 0 ==> forall j :: 0 <= j < idx ==> users[j].id != id
    {
      var i := 0;
      while i < |users|
        invariant 0 <= i <= |users|
        invariant forall j :: 0 <= j < i ==> users[j].id != id
      {
        if users[i].id == id {
          return i;
        }
        i := i + 1;
      }
      idx := -1;
    }

    /** `Math.max(...this.users.map((u) => u.id))` over a non-empty list. */
    method MaxId() returns (m: int)
      requires |users| > 0
      ensures forall j :: 0 <= j < |users| ==> users[j].id <= m
      ensures exists j :: 0 <= j < |users| && users[j].id == m
    {
      m := users[0].id;
      var i := 1;
      while i < |users|
        invariant 1 <= i <= |users|
        invariant forall j :: 0 <= j < i ==> users[j].id <= m
        invariant exists j :: 0 <= j < i && users[j].id == m
      {
        if users[i].id > m {
          m := users[i].id;
        }
        i := i + 1;
      }
    }

    /** Finds the user with the given id, throwing NotFound when none has it. */
    method FindOne(id: int) returns (r: Result<User>)
      ensures r.Ok? <==> exists j :: 0 <= j < |users| && users[j].id == id
      ensures r.Ok? ==> r.value in users && r.value.id == id
      ensures r.Err? ==> r.error == NotFound
    {
      var idx := FindIndex(id);
      if idx == -1 {
        return Err(NotFound);
      }
      r := Ok(users[idx]);
    }

    /** Appends the request's fields under an id one above the current largest
        and returns the appended user. */
    method Create(dto: CreateUserDto) returns (u: User)
      requires Valid() && |users| > 0
      modifies this
      ensures Valid()
      ensures users == old(users) + [u]
      ensures forall j :: 0 <= j < |old(users)| ==> old(users)[j].id < u.id
      ensures exists j :: 0 <= j < |old(users)| && old(users)[j].id + 1 == u.id
      ensures u.name == dto.name && u.birthdate == dto.birthdate && u.email == dto.email && u.role.None?
    {
      var m := MaxId();
      u := User(m + 1, dto.name, dto.birthdate, dto.email, None);
      users := users + [u];
    }

    /** Merges the request into the user with the given id, throwing
        "User not found" and leaving the list alone when none has it. */
    method Update(id: int, dto: UpdateUserDto) returns (r: Result<User>)
      requires Valid()
      modifies this
      ensures Valid()
      ensures r.Err? <==> forall j :: 0 <= j < |old(users)| ==> old(users)[j].id != id
      ensures r.Err? ==> r.error == UserNotFound && users == old(users)
      ensures |users| == |old(users)|
      ensures forall j :: 0 <= j < |users| ==>
        users[j] == if old(users)[j].id == id then Merge(old(users)[j], dto) else old(users)[j]
      ensures r.Ok? ==> r.value in users && r.value.id == id
    {
      var idx := FindIndex(id);
      if idx == -1 {
        return Err(UserNotFound);
      }
      users := users[idx := Merge(users[idx], dto)];
      r := Ok(users[idx]);
    }

    /** Splices out the user with the given id, throwing "User not found" and
        leaving the list alone when none has it. */
    method Remove(id: int) returns (r: Result<()>)
      requires Valid()
      modifies this
      ensures Valid()
      ensures r.Err? <==> forall j :: 0 <= j < |old(users)| ==> old(users)[j].id != id
      ensures r.Err? ==> r.error == UserNotFound && users == old(users)
      ensures r.Ok? ==> exists i :: 0 <= i < |old(users)| && old(users)[i].id == id && users == RemoveAt(old(users), i)
      ensures r.Ok? ==> forall u :: u in users <==> u in old(users) && u.id != id
    {
      var idx := FindIndex(id);
      if idx == -1 {
        return Err(UserNotFound);
      }
      users := RemoveAt(users, idx);
      r := Ok(());
    }
  }
}
