// Undo records: the pre-value of every account a chain block touched.
module Journal {
  import opened Blocks
  import opened WorldStates

  type UndoRecord = map<Address, Option<AccountState>>

  // `note`: only the first call for an address has an effect.
  function Note(record: UndoRecord, a: Address, accounts: Accounts): UndoRecord {
    if a in record then record else record[a := Get(accounts, a)]
  }

  // `note` for every address of an execution's result.
  function NoteAll(record: UndoRecord, addresses: set<Address>, accounts: Accounts): UndoRecord {
    (map a | a in addresses :: Get(accounts, a)) + record
  }

  // `merge`: the earlier pre-value wins.
  function Merge(record: UndoRecord, other: UndoRecord): UndoRecord {
    other + record
  }

  // `apply`, as a whole.
  function Restored(accounts: Accounts, record: UndoRecord): Accounts {
    map a | a in accounts.Keys + record.Keys && RestoredAt(accounts, record, a).Some? :: RestoredAt(accounts, record, a).value
  }

  function RestoredAt(accounts: Accounts, record: UndoRecord, a: Address): Option<AccountState> {
    if a in record then record[a] else Get(accounts, a)
  }

  // `apply`: account by account, removing those that did not exist.
  method Apply(record: UndoRecord, state: WorldState)
    modifies state
    ensures state.accounts == Restored(old(state.accounts), record)
  {
    var pending := record.Keys;
    ghost var before := state.accounts;
    while pending != {}
      invariant pending <= record.Keys
      invariant forall a :: Get(state.accounts, a) == if a in pending then Get(before, a) else RestoredAt(before, record, a)
      decreases pending
    {
      var a :| a in pending;
      pending := pending - {a};
      match record[a]
      case Some(account) => state.InsertAccount(a, account);
      case None => state.RemoveAccount(a);
    }
    SameAccounts(state.accounts, Restored(before, record));
  }

  // A record covers a run from `before` to `now`: it holds the pre-value of
  // every account that differs, and only pre-values.
  ghost predicate Covers(before: Accounts, now: Accounts, record: UndoRecord) {
    forall a :: RestoredAt(now, record, a) == Get(before, a) && (a in record ==> record[a] == Get(before, a))
  }

  // Undoing what a covering record describes restores the earlier state exactly.
  lemma UndoRestores(before: Accounts, now: Accounts, record: UndoRecord)
    requires Covers(before, now, record)
    ensures Restored(now, record) == before
  {
    forall a ensures Get(Restored(now, record), a) == Get(before, a) {
      assert RestoredAt(now, record, a) == Get(before, a);
    }
    SameAccounts(Restored(now, record), before);
  }

  lemma EmptyCovers(accounts: Accounts)
    ensures Covers(accounts, accounts, map[])
  {
  }

  // Noting a set of accounts and then changing only noted accounts.
  lemma NotedChangesCover(before: Accounts, now: Accounts, next: Accounts, record: UndoRecord, addresses: set<Address>)
    requires Covers(before, now, record)
    requires forall a :: a !in addresses && a !in record ==> Get(next, a) == Get(now, a)
    ensures Covers(before, next, NoteAll(record, addresses, now))
  {
    forall a ensures RestoredAt(next, NoteAll(record, addresses, now), a) == Get(before, a) {
      assert RestoredAt(now, record, a) == Get(before, a);
    }
    forall a | a in addresses && a !in record ensures Get(now, a) == Get(before, a) {
      assert RestoredAt(now, record, a) == Get(before, a);
    }
  }

  // A record of a second run folds into the record of the first.
  lemma MergedCovers(before: Accounts, now: Accounts, next: Accounts, record: UndoRecord, other: UndoRecord)
    requires Covers(before, now, record) && Covers(now, next, other)
    ensures Covers(before, next, Merge(record, other))
  {
    forall a
      ensures RestoredAt(next, Merge(record, other), a) == Get(before, a)
      ensures a in Merge(record, other) ==> Merge(record, other)[a] == Get(before, a)
    {
      assert RestoredAt(now, record, a) == Get(before, a);
      assert RestoredAt(next, other, a) == Get(now, a);
    }
  }
}
