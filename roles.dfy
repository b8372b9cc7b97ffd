/** The role table: roles listed, found by id, created from a name, renamed by
    id and removed by id. Every operation on an unknown id throws NotFound
    before anything is written. */
module Roles {
  import opened Common

  /** One row of the `roles` table. */
  datatype Role = Role(id: string, name: string)

  datatype CreateRoleDto = CreateRoleDto(name: string)

  /** Body of an update: the creation body with every field optional. */
  datatype UpdateRoleDto = UpdateRoleDto(name: Option<string>)

  ghost predicate IdsUnique(s: seq<Role>) {
    forall i, j :: 0 <= i < j < |s| ==> s[i].id != s[j].id
  }

  /** The row `preload({ ...dto, id })` assembles from the stored role. */
  function Renamed(role: Role, dto: UpdateRoleDto): (r: Role)
    ensures r.id == role.id
    ensures dto.name.Some? ==> r.name == dto.name.value
    ensures dto.name.None? ==> r == role
  {
    role.(name := dto.name.GetOr(role.name))
  }

  class RolesService {
    /** The `roles` table, in storage order. */
    var roles: seq<Role>

    /** The primary key on `id`. */
    ghost predicate Valid()
      reads this
    {
      IdsUnique(roles)
    }

    constructor (table: seq<Role>)
      requires IdsUnique(table)
      ensures Valid() && roles == table
    {
      roles := table;
    }

    /** Lists every role. The guard `!roles` never fires, since `find` always
        yields an array: an empty table gives an empty list, not NotFound. */
    method FindAll() returns (r: Result<seq<Role>>)
      ensures r.Ok? && r.value == roles
    {
      r := Ok(roles);
    }

    /** Finds the role with the given id, throwing NotFound when none has it. */
    method FindOne(id: string) returns (r: Result<Role>)
      requires Valid()
      ensures r.Ok? <==> exists x :: x in roles && x.id == id
      ensures r.Ok? ==> r.value in roles && r.value.id == id
      ensures r.Ok? ==> forall x :: x in roles && x.id == id ==> x == r.value
      ensures r.Err? ==> r.error == NotFound
    {
      var k := FirstIndex(roles, (x: Role) => x.id == id);
      if k.None? {
        return Err(NotFound);
      }
      r := Ok(roles[k.value]);
    }

    /** Saves one new role with the requested name. `freshId` is the primary
        key the database generates. */
    method Create(freshId: string, dto: CreateRoleDto) returns (r: Role)
      requires Valid()
      requires forall x :: x in roles ==> x.id != freshId
      modifies this
      ensures Valid()
      ensures r.id == freshId && r.name == dto.name
      ensures roles == old(roles) + [r]
    {
      r := Role(freshId, dto.name);
      roles := roles + [r];
    }

    /** Merges the request into the role with the given id and saves it,
        throwing NotFound and saving nothing when none has it. */
    method Update(id: string, dto: UpdateRoleDto) returns (r: Result<Role>)
      requires Valid()
      modifies this
      ensures Valid()
      ensures r.Err? <==> forall x :: x in old(roles) ==> x.id != id
      ensures r.Err? ==> r.error == NotFound && roles == old(roles)
      ensures |roles| == |old(roles)|
      ensures forall j :: 0 <= j < |roles| ==>
        roles[j] == if old(roles)[j].id == id then Renamed(old(roles)[j], dto) else old(roles)[j]
      ensures r.Ok? ==> r.value in roles && r.value.id == id
    {
      var k := FirstIndex(roles, (x: Role) => x.id == id);
      if k.None? {
        return Err(NotFound);
      }
      var i := k.value;
      var merged := Renamed(roles[i], dto);
      roles := roles[i := merged];
      r := Ok(merged);
    }

    /** Deletes the role with the given id and returns it, throwing NotFound
        and deleting nothing when none has it. */
    method Remove(id: string) returns (r: Result<Role>)
      requires Valid()
      modifies this
      ensures Valid()
      ensures r.Err? <==> forall x :: x in old(roles) ==> x.id != id
      ensures r.Err? ==> r.error == NotFound && roles == old(roles)
      ensures r.Ok? ==> r.value in old(roles) && r.value.id == id
      ensures r.Ok? ==> exists i :: 0 <= i < |old(roles)| && old(roles)[i] == r.value && roles == RemoveAt(old(roles), i)
      ensures r.Ok? ==> forall x :: x in roles <==> x in old(roles) && x.id != id
      ensures r.Ok? ==> |roles| == |old(roles)| - 1
    {
      var k := FirstIndex(roles, (x: Role) => x.id == id);
      if k.None? {
        return Err(NotFound);
      }
      var i := k.value;
      r := Ok(roles[i]);
      roles := RemoveAt(roles, i);
    }
  }
}
