/** The account store: accounts keyed by a six-character code cut from a UUID,
    created with a zero balance, listed when active, found by code, and switched
    on or off by id. */
module Accounts {
  import opened Common

  /** One row of the `accounts` table. The decimal(10,2) balance is held in
      cents, so no binary floating point is involved. */
  datatype Account = Account(id: string, code: string, user: string, balanceCents: int, active: bool)

  /** Body of a creation request: the owner and an optional status. */
  datatype CreateAccountsDto = CreateAccountsDto(userId: string, active: Option<bool>)

  /** Body of a status change: every field of the creation body, all optional. */
  datatype UpdateAccountsDto = UpdateAccountsDto(userId: Option<string>, active: Option<bool>)

  const CodeLength: nat := 6
  /** Column default of `balance` (0.00). */
  const InitialBalanceCents: int := 0
  /** Column default of `active`. */
  const DefaultActive: bool := true

  predicate IsLowerHexDigit(c: char) {
    '0' <= c <= '9' || 'a' <= c <= 'f'
  }

  /** The canonical text form of a UUID: 36 characters, hyphens at positions
      8, 13, 18 and 23, lower-case hexadecimal digits everywhere else. */
  predicate IsUuidText(u: string) {
    |u| == 36 &&
    forall i :: 0 <= i < |u| ==>
      if i == 8 || i == 13 || i == 18 || i == 23 then u[i] == '-' else IsLowerHexDigit(u[i])
  }

  /** The account code: a UUID's text sliced to its first six characters
      (`slice` stops early on a shorter string). */
  function CodeOf(uuid: string): (code: string)
    ensures code <= uuid
    ensures |code| == if |uuid| < CodeLength then |uuid| else CodeLength
    ensures IsUuidText(uuid) ==> |code| == CodeLength
    ensures IsUuidText(uuid) ==> forall i :: 0 <= i < |code| ==> IsLowerHexDigit(code[i])
  {
    if |uuid| < CodeLength then uuid else uuid[..CodeLength]
  }

  ghost predicate CodesUnique(s: seq<Account>) {
    forall i, j :: 0 <= i < j < |s| ==> s[i].code != s[j].code
  }

  /** The one-to-one `user` relation: its join column is unique. */
  ghost predicate OwnersUnique(s: seq<Account>) {
    forall i, j :: 0 <= i < j < |s| ==> s[i].user != s[j].user
  }

  ghost predicate IdsUnique(s: seq<Account>) {
    forall i, j :: 0 <= i < j < |s| ==> s[i].id != s[j].id
  }

  /** The active accounts of `s`, in table order: each active row is listed
      as often as it is stored, an inactive one never. */
  function ActiveOnly(s: seq<Account>): (r: seq<Account>)
    ensures forall a :: a in r <==> a in s && a.active
    ensures forall a :: multiset(r)[a] == if a.active then multiset(s)[a] else 0
    ensures |r| <= |s|
  {
    if |s| == 0 then []
    else
      assert s == [s[0]] + s[1..];
      (if s[0].active then [s[0]] else []) + ActiveOnly(s[1..])
  }

  /** The row a status change produces: `preload` merges the request body into
      the stored row. Only `active` names a column; `userId` is not a property
      of the entity and is dropped. */
  function WithStatus(a: Account, dto: UpdateAccountsDto): (b: Account)
    ensures b.id == a.id && b.code == a.code && b.user == a.user && b.balanceCents == a.balanceCents
    ensures dto.active.Some? ==> b.active == dto.active.value
    ensures dto.active.None? ==> b == a
  {
    a.(active := dto.active.GetOr(a.active))
  }

  class AccountsService {
    /** The `accounts` table, in storage order. */
    var accounts: seq<Account>

    /** The unique constraints on `code` and on the owner's join column, and
        the primary key on `id`. */
    ghost predicate Valid()
      reads this
    {
      CodesUnique(accounts) && OwnersUnique(accounts) && IdsUnique(accounts)
    }

    constructor (table: seq<Account>)
      requires CodesUnique(table) && OwnersUnique(table) && IdsUnique(table)
      ensures Valid() && accounts == table
    {
      accounts := table;
    }

    /** Cuts the code from `uuid`, refuses it when some stored account (active
        or not) already has it, and otherwise saves a new account for the
        requested owner; the save itself fails when that owner already has an
        account. `freshId` is the primary key the database generates. */
    method Create(uuid: string, freshId: string, dto: CreateAccountsDto) returns (r: Result<Account>)
      requires Valid()
      requires forall a :: a in accounts ==> a.id != freshId
      modifies this
      ensures Valid()
      ensures r.Err? <==> exists a :: a in old(accounts) && (a.code == CodeOf(uuid) || a.user == dto.userId)
      ensures r.Err? ==> accounts == old(accounts)
      ensures r.Err? ==> r.error == if exists a :: a in old(accounts) && a.code == CodeOf(uuid) then NotFound else QueryFailed
      ensures r.Ok? ==> accounts == old(accounts) + [r.value]
      ensures r.Ok? ==> r.value.id == freshId && r.value.code == CodeOf(uuid) && r.value.user == dto.userId
      ensures r.Ok? ==> r.value.balanceCents == InitialBalanceCents
      ensures r.Ok? ==> r.value.active == (if dto.active.Some? then dto.active.value else DefaultActive)
    {
      var code := CodeOf(uuid);
      var existing := FirstIndex(accounts, (a: Account) => a.code == code);
      if existing.Some? {
        assert accounts[existing.value] in accounts;
        return Err(NotFound);
      }
      var owned := FirstIndex(accounts, (a: Account) => a.user == dto.userId);
      if owned.Some? {
        assert accounts[owned.value] in accounts;
        return Err(QueryFailed);
      }
      var account := Account(freshId, code, dto.userId, InitialBalanceCents, dto.active.GetOr(DefaultActive));
      accounts := accounts + [account];
      r := Ok(account);
    }

    /** Lists the accounts whose `active` is true. */
    method FindAll() returns (r: seq<Account>)
      ensures r == ActiveOnly(accounts)
      ensures forall a :: a in r <==> a in accounts && a.active
      ensures forall a :: multiset(r)[a] == if a.active then multiset(accounts)[a] else 0
    {
      r := ActiveOnly(accounts);
    }

    /** Finds the account with the given code, throwing NotFound when none has it. */
    method FindOne(code: string) returns (r: Result<Account>)
      requires Valid()
      ensures r.Ok? <==> exists a :: a in accounts && a.code == code
      ensures r.Ok? ==> r.value in accounts && r.value.code == code
      ensures r.Ok? ==> forall a :: a in accounts && a.code == code ==> a == r.value
      ensures r.Err? ==> r.error == NotFound
    {
      var k := FirstIndex(accounts, (a: Account) => a.code == code);
      if k.None? {
        return Err(NotFound);
      }
      r := Ok(accounts[k.value]);
    }

    /** Merges the request into the account with primary key `id` and saves it,
        throwing NotFound when no account has that id. */
    method ChangeStatus(id: string, dto: UpdateAccountsDto) returns (r: Result<Account>)
      requires Valid()
      modifies this
      ensures Valid()
      ensures r.Err? <==> forall a :: a in old(accounts) ==> a.id != id
      ensures r.Err? ==> r.error == NotFound && accounts == old(accounts)
      ensures |accounts| == |old(accounts)|
      ensures forall j :: 0 <= j < |accounts| ==>
        accounts[j] == if old(accounts)[j].id == id then WithStatus(old(accounts)[j], dto) else old(accounts)[j]
      ensures r.Ok? ==> r.value in accounts && r.value.id == id
    {
      var k := FirstIndex(accounts, (a: Account) => a.id == id);
      if k.None? {
        return Err(NotFound);
      }
      var i := k.value;
      var updated := WithStatus(accounts[i], dto);
      accounts := accounts[i := updated];
      r := Ok(updated);
    }
  }
}
