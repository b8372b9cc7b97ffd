# cashapp service layer in Dafny

This project models the service layer of the cashapp banking back end (NestJS/TypeORM):

- **Account store** (`Accounts`). Accounts are keyed by a six-character code cut from a UUID. A new account starts with a zero balance and is active unless the request says otherwise. Only active accounts are listed. Lookup is by code. A status change works by primary key.
- **In-memory user list** (`Users`). It starts with users 1 and 2. A new user gets the largest id plus one and is appended to the list. An update merges the request fields into the stored record. A removal splices the record out.
- **Role table** (`Roles`). It supports listing, lookup, creation, renaming and removal. Any operation on an unknown id throws NotFound before anything is written.
- **Seeder** (`Seed`). It finds or creates the `admin` role, then finds or creates the `admin@admin.com` user.
- **Guards** (`RolesGuard`, `IsSelfGuard`). These are the allow/forbid decisions for role-restricted routes and for "own data only" routes.

Each service that changes a table is a class. Its tables are `seq` fields, and an object invariant `Valid()` states the primary-key and unique-column constraints, including the unique join column of an account's one-to-one owner. Every mutating method promises to keep `Valid()` and gives its whole new state in terms of the old one. Lookups that would throw return `Result.Err`, using NotFound, Forbidden, or a plain `Error` with its message. A repository `findOne({ where })` is `Common.FirstIndex`, the first row in table order that satisfies the condition. The seeder is also described by the function `Seed.SeedTables`, so that its guarantees, idempotence among them, can be stated as lemmas. The guards are pure functions. Their inputs are what the framework would look up: the role lists on the handler and on the class, the recorded parameter key, the route parameters, and the authenticated user.

Values the runtime generates are parameters:
- the UUID that the account code is cut from;
- the primary keys that the database assigns on save;
- the bcrypt hasher, as a function parameter of the seeder.

The seeder stores the hasher's result for `admin123` at cost 10. That result must have bcrypt's cost-10 form (`$2b$10$`, 60 characters), which is what shows the stored password is never the plaintext.

Two behaviours of the code are worth stating up front:
- A code collision in account creation throws `NotFoundException`.
- The role list never fails: `find` always yields an array, so an empty table gives an empty list.

## Model

| member | source | states |
|---|---|---|
| Common.FirstIndex | src/roles/roles.service.ts:24-26 | the index found satisfies the condition and no earlier row does; `None` exactly when no row satisfies it |
| Common.RemoveAt | src/users/users.service.ts:63 | taking out one element drops the length by one; elements before it stay in place and those after it shift down by one, in order |
| Accounts.CodeOf | src/accounts/accounts.service.ts:15 | the code is a prefix of the UUID text of length min(6, length); for a canonical UUID it is exactly 6 lower-case hex digits |
| Accounts.ActiveOnly | src/accounts/accounts.service.ts:35-38 | an account is listed exactly when it is stored and active, and each active row as often as it is stored |
| Accounts.WithStatus | src/accounts/accounts.service.ts:56-59 | the merged row keeps id, code, owner and balance; `active` is taken from the request when given, else the row is unchanged |
| Accounts.AccountsService.Create | src/accounts/accounts.service.ts:14-31 | fails with NotFound and saves nothing when a stored account has the cut code; otherwise the save fails on the unique owner column, saving nothing, when the owner already has an account; otherwise appends one account with that code, the requested owner, the new id, balance 0 and `active` defaulting to true; codes, owners and ids stay unique |
| Accounts.AccountsService.FindAll | src/accounts/accounts.service.ts:34-41 | returns exactly the stored accounts whose `active` is true, each as often as it is stored |
| Accounts.AccountsService.FindOne | src/accounts/accounts.service.ts:43-53 | returns the one account with the code, or NotFound exactly when no account has it |
| Accounts.AccountsService.ChangeStatus | src/accounts/accounts.service.ts:55-64 | an unknown id gives NotFound with nothing saved; otherwise only the account with that id changes, and only its `active` |
| Users.InitialUsers | src/users/users.service.ts:13-26 | the initial list holds two users, with ids 1 and 2 |
| Users.Merge | src/users/users.service.ts:54 | fields the request carries replace the stored ones; absent fields, the id, birthdate and role are kept |
| Users.UsersService.FindAll | src/users/users.service.ts:28-30 | returns the current list as it stands |
| Users.UsersService.FindIndex | src/users/users.service.ts:50 | returns the first index holding the id, or -1 exactly when no element holds it |
| Users.UsersService.MaxId | src/users/users.service.ts:43 | returns an id present in the non-empty list that no element exceeds |
| Users.UsersService.FindOne | src/users/users.service.ts:32-38 | returns a stored user with that id, or NotFound exactly when no user has it |
| Users.UsersService.Create | src/users/users.service.ts:40-47 | appends exactly one user and returns it; its id is one more than the largest, so above every existing id; its fields come from the request, and it has no role |
| Users.UsersService.Update | src/users/users.service.ts:49-56 | an absent id throws "User not found" and leaves the list unchanged; otherwise only the user with that id is replaced by the merge, with length and id kept |
| Users.UsersService.Remove | src/users/users.service.ts:58-64 | an absent id throws "User not found" and leaves the list unchanged; otherwise the match is spliced out and the rest keep their order |
| Roles.Renamed | src/roles/roles.service.ts:40-43 | the merged role keeps its id and takes the requested name when one is given |
| Roles.RolesService.FindAll | src/roles/roles.service.ts:15-21 | never fails; returns every stored role, so an empty table gives an empty list |
| Roles.RolesService.FindOne | src/roles/roles.service.ts:23-31 | returns the one role with that id, or NotFound exactly when none has it |
| Roles.RolesService.Create | src/roles/roles.service.ts:33-36 | stores exactly one new role with the requested name and returns it |
| Roles.RolesService.Update | src/roles/roles.service.ts:38-48 | an unknown id gives NotFound with nothing saved; otherwise only that role changes, keeping its id and taking the requested name |
| Roles.RolesService.Remove | src/roles/roles.service.ts:50-59 | an unknown id gives NotFound with nothing removed; otherwise exactly that role is deleted and returned, and the other rows keep their order |
| Seed.HashIsNotPlaintext | src/seed/seed.service.ts:35 | a cost-10 bcrypt hash is never the plaintext `admin123` |
| Seed.SeedTables | src/seed/seed.service.ts:17-50 | one seeding run only appends, at most one role and one user, and leaves every stored row as it was |
| Seed.SeedRoles | src/seed/seed.service.ts:19-27 | an `admin` role exists afterwards; one is created only when none existed, and otherwise the roles stay unchanged |
| Seed.SeedUsers | src/seed/seed.service.ts:30-49 | an existing admin user is neither duplicated nor changed; otherwise exactly one is appended, referencing a role named `admin`; either way an admin user exists |
| Seed.SeedIdempotent | src/seed/seed.service.ts:17-50 | a second run, with any keys and hash, leaves the tables of the first run unchanged |
| Seed.SeedKeepsValid | src/seed/seed.service.ts:17-50 | seeding keeps role ids, user ids and user e-mails unique |
| Seed.SeederService.Seed | src/seed/seed.service.ts:17-50 | the tables become those of one seeding run with the password `hash(admin123, 10)`; any user it adds stores that hash, not the plaintext |
| RolesGuard.MergedRoles | src/auth/roles.guard.ts:24-27 | the required roles are the handler's and the class's lists together, lengths added |
| RolesGuard.RoleName | src/auth/roles.guard.ts:35 | the caller's role name is present exactly when the user, its role and a non-empty name all exist |
| RolesGuard.CanActivate | src/auth/roles.guard.ts:23-42 | the guard returns true or throws Forbidden, never false; it admits exactly when no role is required or the caller's non-empty role name is in the handler's or the class's list |
| IsSelfGuard.DecoratorKey | src/auth/is-self.decorator.ts:5-6 | the decorator records `id` unless given another key |
| IsSelfGuard.DecoratedKey | src/auth/is-self.decorator.ts:5-6 | a handler decorated with a non-empty key is checked against that key; one decorated without a key, or with an empty one, against `id` |
| IsSelfGuard.EffectiveKey | src/auth/is-self.guard.ts:26 | a missing or empty recorded key falls back to `id`; otherwise the recorded key is used |
| IsSelfGuard.CanActivate | src/auth/is-self.guard.ts:18-33 | the guard returns true or throws Forbidden, never false; a missing user or a missing or empty id is Forbidden; it admits exactly when the route parameter equals the caller's id |

## Left out

- Ledger operations (deposit, withdraw, transfer, account statements, reversal): no service code implements them, only mock expectations in the tests, so modelling them would invent behaviour.
- src/auth/auth.service.ts: it wraps bcrypt hashing and comparison and JWT signing, which are foreign crypto libraries.
- Controllers, modules, database configuration, the seed entry script and the current-user decorator: these are HTTP routing, dependency injection and request extraction. The controllers' inline id and role checks repeat the guard decisions.
- Request validation annotations on the DTOs model JS floats and are not modelled. The DTOs serve only as record shapes.
- UUID generation, generated primary keys and bcrypt hashing are parameters of the model, not computed by it. For the keys, the methods require that they are not already in use.
- Logging to the console in the seeder.
- `createdAt` / `updatedAt` timestamps, and the `user` relation that listing and lookup load alongside an account.
- Users.UsersService.Create: requires a non-empty list. On an empty list, `Math.max()` yields -Infinity and the new id is -Infinity, a floating-point value that integer ids cannot carry.
- Users.UsersService.FindAll: returns the list as a value. The source hands out the live array, so a caller could mutate it; that aliasing is not modelled.
- Roles.RolesService.Remove: returns the role as it was loaded. The ORM's `remove` also clears the primary key of the object it returns; that is not modelled.
- Accounts.AccountsService.ChangeStatus: the `userId` field of the update body is not a property of the account entity, so the merge ignores it. Only `active` is merged.
- Accounts.AccountsService.ChangeStatus: an id that Postgres cannot read as a uuid makes the query fail rather than return NotFound; the uuid spellings Postgres accepts are not modelled, so the contract promises NotFound for every unknown id.
- Roles.RolesService.FindOne: an id that Postgres cannot read as a uuid makes the query fail rather than return NotFound; the uuid spellings Postgres accepts are not modelled, so the contract promises NotFound for every unknown id.
- Roles.RolesService.Update: an id that Postgres cannot read as a uuid makes the query fail rather than return NotFound; the uuid spellings Postgres accepts are not modelled, so the contract promises NotFound for every unknown id.
- Roles.RolesService.Remove: an id that Postgres cannot read as a uuid makes the query fail rather than return NotFound; the uuid spellings Postgres accepts are not modelled, so the contract promises NotFound for every unknown id.
- Roles.RolesService.Remove: deleting a role that a user still references fails on the users' foreign key; the role table does not see the users table, so the model always deletes.
- Accounts.AccountsService.Create: an owner id that names no user fails on the foreign key; the account store does not see the users table, so the model accepts any owner id.
- Users.Merge: a request field is either absent or a value; an explicit JSON `null`, which the spread would store in the user, is not modelled.
- Roles.Renamed: an explicit JSON `null` name is treated as absent; the source would copy it and the save would fail on the NOT NULL `name` column.
- Accounts.WithStatus: an explicit JSON `null` for `active` is treated as absent; the source would copy it and the save would fail on the NOT NULL `active` column.
- Accounts.AccountsService.Create: an explicit JSON `null` for `active` is treated as absent and gets the default; the source would pass it on and the save would fail on the NOT NULL `active` column.
- Table order: the repositories' `find` and `findOne` give no ordering guarantee. The model uses storage order and returns the first match.
- The repository-backed users service in the user tests and the roles empty-list test: they describe another revision of the code. The model follows the in-memory service in src/users/users.service.ts.
- Concurrency: every service method is `async`, and another request can run at each `await` between a lookup and the write that depends on it. The model runs each request as one uninterrupted step. Two interleaved account creations that cut the same code both pass the lookup, and the second save then fails on the unique `code` column rather than throwing NotFound; two interleaved seeding runs can each create an `admin` role, since `name` carries no unique constraint.
- Users.UsersService.FindOne: returns the user as a value. The source returns the stored element object itself, so a caller that mutates it changes the list; that aliasing is not modelled.
- Users.UsersService.Create: returns the new user as a value. The source pushes the same object it returns, so a caller that mutates it changes the list; that aliasing is not modelled.
- Users.UsersService.Update: returns the merged user as a value. The source stores the same object it returns, so a caller that mutates it changes the list; that aliasing is not modelled.
