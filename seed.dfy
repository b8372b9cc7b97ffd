/** The seeder: makes sure an `admin` role and an `admin@admin.com` user
    exist, creating each only when it is missing. */
module Seed {
  import opened Common
  import opened Roles

  /** One row of the repository-backed `users` table; `roleId` is the foreign
      key of the `role` relation and `active` has column default true. */
  datatype UserRecord = UserRecord(
    id: string,
    name: string,
    email: string,
    password: string,
    birthdate: string,
    roleId: Option<string>,
    active: bool)

  /** The two tables the seeder writes. */
  datatype Tables = Tables(roles: seq<Role>, users: seq<UserRecord>)

  const AdminRoleName: string := "admin"
  const AdminName: string := "Admin"
  const AdminEmail: string := "admin@admin.com"
  const AdminPlainPassword: string := "admin123"
  const AdminBirthdate: string := "1990-01-01"
  /** The cost factor the seeder passes to the hasher. */
  const SaltRounds: nat := 10
  /** What the hasher returns for cost 10: the `$2b$10$` header followed by
      22 characters of salt and 31 of digest, 60 characters in all. */
  predicate IsBcryptHash(h: string) {
    |h| == 60 && h[..7] == "$2b$10$"
  }

  /** No bcrypt hash is the seeded plaintext password: a 60-character hash
      cannot equal the 8-character plaintext. */
  lemma HashIsNotPlaintext(h: string)
    requires IsBcryptHash(h)
    ensures h != AdminPlainPassword
  {
  }

  predicate IsAdminRole(x: Role) {
    x.name == AdminRoleName
  }

  predicate HasAdminEmail(u: UserRecord) {
    u.email == AdminEmail
  }

  ghost predicate TablesValid(t: Tables) {
    && (forall i, j :: 0 <= i < j < |t.roles| ==> t.roles[i].id != t.roles[j].id)
    && (forall i, j :: 0 <= i < j < |t.users| ==> t.users[i].id != t.users[j].id)
    && (forall i, j :: 0 <= i < j < |t.users| ==> t.users[i].email != t.users[j].email)
  }

  /** The user the seeder creates, holding the admin role's id. */
  function AdminUser(userId: string, hashed: string, roleId: string): UserRecord {
    UserRecord(userId, AdminName, AdminEmail, hashed, AdminBirthdate, Some(roleId), true)
  }

  /** The tables after one seeding run: `roleId` and `userId` are the keys the
      database would generate, `hashed` what the hasher returned. A run only
      appends, at most one row to each table, and never rewrites a stored row. */
  function SeedTables(t: Tables, roleId: string, userId: string, hashed: string): (r: Tables)
    ensures t.roles <= r.roles && |r.roles| <= |t.roles| + 1
    ensures t.users <= r.users && |r.users| <= |t.users| + 1
  {
    var k := FirstIndex(t.roles, IsAdminRole);
    var adminRole := if k.Some? then t.roles[k.value] else Role(roleId, AdminRoleName);
    var roles := if k.Some? then t.roles else t.roles + [adminRole];
    var users := if FirstIndex(t.users, HasAdminEmail).Some? then t.users
                 else t.users + [AdminUser(userId, hashed, adminRole.id)];
    Tables(roles, users)
  }

  /** The role table gains one `admin` role exactly when it had none;
      otherwise it is left as it was. Either way an `admin` role exists. */
  lemma SeedRoles(t: Tables, roleId: string, userId: string, hashed: string)
    ensures (exists x :: x in t.roles && IsAdminRole(x)) ==> SeedTables(t, roleId, userId, hashed).roles == t.roles
    ensures (forall x :: x in t.roles ==> !IsAdminRole(x)) ==>
      SeedTables(t, roleId, userId, hashed).roles == t.roles + [Role(roleId, AdminRoleName)]
    ensures exists x :: x in SeedTables(t, roleId, userId, hashed).roles && IsAdminRole(x)
  {
    var k := FirstIndex(t.roles, IsAdminRole);
    if k.Some? {
      assert t.roles[k.value] in t.roles;
    } else {
      var r := SeedTables(t, roleId, userId, hashed).roles;
      assert r[|r| - 1] == Role(roleId, AdminRoleName);
      assert r[|r| - 1] in r && IsAdminRole(r[|r| - 1]);
    }
  }

  /** An existing admin user is neither duplicated nor changed; when there is
      none, exactly one is appended, with the name, birthdate and hashed
      password of the seed and the id of a role named `admin`. Either way a
      user with the admin e-mail exists afterwards. */
  lemma SeedUsers(t: Tables, roleId: string, userId: string, hashed: string)
    ensures (exists u :: u in t.users && HasAdminEmail(u)) ==> SeedTables(t, roleId, userId, hashed).users == t.users
    ensures (forall u :: u in t.users ==> !HasAdminEmail(u)) ==>
      exists x :: x in SeedTables(t, roleId, userId, hashed).roles && IsAdminRole(x) &&
        SeedTables(t, roleId, userId, hashed).users == t.users + [AdminUser(userId, hashed, x.id)]
    ensures exists u :: u in SeedTables(t, roleId, userId, hashed).users && HasAdminEmail(u)
  {
    var s := SeedTables(t, roleId, userId, hashed);
    var k := FirstIndex(t.roles, IsAdminRole);
    var adminRole := if k.Some? then t.roles[k.value] else Role(roleId, AdminRoleName);
    assert adminRole in s.roles && IsAdminRole(adminRole) by {
      if k.None? { assert s.roles[|s.roles| - 1] == adminRole; }
    }
    var e := FirstIndex(t.users, HasAdminEmail);
    if e.Some? {
      assert t.users[e.value] in s.users;
    } else {
      assert s.users[|s.users| - 1] == AdminUser(userId, hashed, adminRole.id);
      assert s.users[|s.users| - 1] in s.users && HasAdminEmail(s.users[|s.users| - 1]);
    }
  }

  /** A second run changes nothing, whatever keys and hash it is given. */
  lemma SeedIdempotent(t: Tables, roleId: string, userId: string, hashed: string,
                       roleId2: string, userId2: string, hashed2: string)
    ensures SeedTables(SeedTables(t, roleId, userId, hashed), roleId2, userId2, hashed2)
         == SeedTables(t, roleId, userId, hashed)
  {
    var s := SeedTables(t, roleId, userId, hashed);
    SeedRoles(t, roleId, userId, hashed);
    SeedUsers(t, roleId, userId, hashed);
    var x :| x in s.roles && IsAdminRole(x);
    var u :| u in s.users && HasAdminEmail(u);
    SeedRoles(s, roleId2, userId2, hashed2);
    SeedUsers(s, roleId2, userId2, hashed2);
  }

  /** With fresh keys, seeding keeps both primary keys and the unique e-mail. */
  lemma SeedKeepsValid(t: Tables, roleId: string, userId: string, hashed: string)
    requires TablesValid(t)
    requires forall x :: x in t.roles ==> x.id != roleId
    requires forall u :: u in t.users ==> u.id != userId
    ensures TablesValid(SeedTables(t, roleId, userId, hashed))
  {
  }

  class SeederService {
    /** The roles repository's table. */
    var roles: seq<Role>
    /** The users repository's table. */
    var users: seq<UserRecord>

    ghost predicate Valid()
      reads this
    {
      TablesValid(Tables(roles, users))
    }

    constructor (roleTable: seq<Role>, userTable: seq<UserRecord>)
      requires TablesValid(Tables(roleTable, userTable))
      ensures Valid() && roles == roleTable && users == userTable
    {
      roles := roleTable;
      users := userTable;
    }

    /** Finds or creates the admin role, then finds or creates the admin user
        with the password `hash(AdminPlainPassword, SaltRounds)`. `hash` is the
        bcrypt hasher; what it returns for the seed's input must have
        bcrypt's form. */
    method Seed(roleId: string, userId: string, hash: (string, nat) -> string)
      requires Valid()
      requires IsBcryptHash(hash(AdminPlainPassword, SaltRounds))
      requires forall x :: x in roles ==> x.id != roleId
      requires forall u :: u in users ==> u.id != userId
      modifies this
      ensures Valid()
      ensures Tables(roles, users) == SeedTables(old(Tables(roles, users)), roleId, userId, hash(AdminPlainPassword, SaltRounds))
      ensures forall u :: u in users && u !in old(users) ==>
        u.password == hash(AdminPlainPassword, SaltRounds) && u.password != AdminPlainPassword
    {
      ghost var before := Tables(roles, users);
      var hashed := hash(AdminPlainPassword, SaltRounds);
      SeedKeepsValid(before, roleId, userId, hashed);
      HashIsNotPlaintext(hashed);
      var found := FirstIndex(roles, IsAdminRole);
      var adminRole: Role;
      if found.Some? {
        adminRole := roles[found.value];
      } else {
        adminRole := Role(roleId, AdminRoleName);
        roles := roles + [adminRole];
      }
      var existingAdmin := FirstIndex(users, HasAdminEmail);
      if existingAdmin.None? {
        var password := hashed;
        var adminUser := UserRecord(userId, AdminName, AdminEmail, password, AdminBirthdate, Some(adminRole.id), true);
        users := users + [adminUser];
      }
    }
  }
}
