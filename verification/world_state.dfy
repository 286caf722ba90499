// The account map and what committing an execution's changes does to it.
module WorldStates {
  import opened Blocks
  import opened Compact

  type Slot = nat

  // `code` is a code hash; code itself is content-addressed and never undone.
  datatype AccountInfo = AccountInfo(balance: U256, nonce: nat, code: nat)

  datatype AccountState = AccountState(info: AccountInfo, storage: map<Slot, U256>)

  type Accounts = map<Address, AccountState>

  // One account's entry in an execution's result, with the flags commit reads.
  datatype Change = Change(
    touched: bool,
    selfdestructed: bool,
    created: bool,
    loadedAsNotExisting: bool,
    info: AccountInfo,
    storage: map<Slot, U256>)

  type Changes = map<Address, Change>

  const EMPTY_CODE: nat := 0xc5d2460186f7233c927e7db2dcc703c0e500b653ca82273b7bfad8045d85a470
  const EMPTY_ACCOUNT := AccountState(AccountInfo(0, 0, EMPTY_CODE), map[])

  function Get(accounts: Accounts, a: Address): Option<AccountState> {
    if a in accounts then Some(accounts[a]) else None
  }

  // The map with one account set or removed.
  function Put(accounts: Accounts, a: Address, v: Option<AccountState>): Accounts {
    match v
    case Some(account) => accounts[a := account]
    case None => accounts - {a}
  }

  predicate IsEmptyInfo(info: AccountInfo) {
    info.balance == 0 && info.nonce == 0 && (info.code == EMPTY_CODE || info.code == 0)
  }

  // Slots after writing: a zero value clears its slot.
  function Written(storage: map<Slot, U256>, writes: map<Slot, U256>): map<Slot, U256> {
    map s | s in storage.Keys + writes.Keys && !(s in writes && writes[s] == 0) ::
      if s in writes then writes[s] else storage[s]
  }

  // What `commit` leaves at one address.
  function CommitOne(prior: Option<AccountState>, c: Change): Option<AccountState> {
    if !c.touched then prior
    else if c.selfdestructed then None
    else if IsEmptyInfo(c.info) && c.loadedAsNotExisting then None
    else
      var storage := if c.created || prior.None? then map[] else prior.value.storage;
      Some(AccountState(c.info, Written(storage, c.storage)))
  }

  function After(accounts: Accounts, changes: Changes, a: Address): Option<AccountState> {
    if a in changes then CommitOne(Get(accounts, a), changes[a]) else Get(accounts, a)
  }

  // `commit`, as a whole.
  function Committed(accounts: Accounts, changes: Changes): Accounts {
    map a | a in accounts.Keys + changes.Keys && After(accounts, changes, a).Some? :: After(accounts, changes, a).value
  }

  lemma CommittedAt(accounts: Accounts, changes: Changes, a: Address)
    ensures Get(Committed(accounts, changes), a) == After(accounts, changes, a)
  {
  }

  // Account maps are equal when they give the same answer everywhere.
  lemma SameAccounts(s: Accounts, s': Accounts)
    requires forall a :: Get(s, a) == Get(s', a)
    ensures s == s'
  {
    forall a ensures a in s <==> a in s' {
      assert Get(s, a) == Get(s', a);
    }
    forall a | a in s ensures s[a] == s'[a] {
      assert Get(s, a) == Get(s', a);
    }
  }

  class WorldState {
    var accounts: Accounts

    constructor (accounts: Accounts)
      ensures this.accounts == accounts
    {
      this.accounts := accounts;
    }

    method InsertAccount(a: Address, account: AccountState)
      modifies this
      ensures accounts == Put(old(accounts), a, Some(account))
    {
      accounts := accounts[a := account];
    }

    method RemoveAccount(a: Address)
      modifies this
      ensures accounts == Put(old(accounts), a, None)
    {
      accounts := accounts - {a};
    }

    // `commit`: entry by entry, in whatever order the map yields them.
    method Commit(changes: Changes)
      modifies this
      ensures accounts == Committed(old(accounts), changes)
    {
      var pending := changes.Keys;
      ghost var before := accounts;
      while pending != {}
        invariant pending <= changes.Keys
        invariant forall a :: Get(accounts, a) == if a in pending then Get(before, a) else After(before, changes, a)
        decreases pending
      {
        var a :| a in pending;
        pending := pending - {a};
        CommitEntry(a, changes[a]);
      }
      forall a ensures Get(accounts, a) == Get(Committed(before, changes), a) {
        CommittedAt(before, changes, a);
      }
      SameAccounts(accounts, Committed(before, changes));
    }

    method CommitEntry(a: Address, c: Change)
      modifies this
      ensures Get(accounts, a) == CommitOne(old(Get(accounts, a)), c)
      ensures forall b :: b != a ==> Get(accounts, b) == old(Get(accounts, b))
    {
      if !c.touched {
        return;
      }
      if c.selfdestructed || (IsEmptyInfo(c.info) && c.loadedAsNotExisting) {
        accounts := accounts - {a};
        return;
      }
      var entry := if a in accounts then accounts[a] else EMPTY_ACCOUNT;
      var storage := if c.created then map[] else entry.storage;
      storage := WriteSlots(storage, c.storage);
      accounts := accounts[a := AccountState(c.info, storage)];
    }
  }

  method WriteSlots(storage0: map<Slot, U256>, writes: map<Slot, U256>) returns (storage: map<Slot, U256>)
    ensures storage == Written(storage0, writes)
  {
    storage := storage0;
    var pending := writes.Keys;
    while pending != {}
      invariant pending <= writes.Keys
      invariant forall t :: t in storage <==> if t in writes && t !in pending then writes[t] != 0 else t in storage0
      invariant forall t :: t in storage ==> storage[t] == if t in writes && t !in pending then writes[t] else storage0[t]
      decreases pending
    {
      var s :| s in pending;
      pending := pending - {s};
      storage := if writes[s] == 0 then storage - {s} else storage[s := writes[s]];
    }
  }
}
