/** The in-memory behaviour of the ledger's storage layer: the category,
    bank-account and transaction tables, the default-category bootstrap,
    category get-or-create and protected delete, account and transaction
    creation, and the conjunctive transaction query. */
module Storage {
  import opened Records

  /** The categories every ledger starts with; they cannot be deleted. */
  const DefaultCategories: seq<string> :=
    ["Food", "Housing", "Transportation", "Utilities",
     "Healthcare", "Entertainment", "Shopping",
     "Education", "Income", "Other"]

  lemma DefaultsDistinct()
    ensures Distinct(DefaultCategories)
  {
    var d := DefaultCategories;
    forall i, j | 0 <= i < j < |d| ensures d[i] != d[j] {
      assert d[i][0] != d[j][0] || d[i][1] != d[j][1];
    }
  }

  // ---------------------------------------------------------------------
  // The category table as a sequence of distinct names
  // ---------------------------------------------------------------------

  /** The names of `defaults`, in order, that `existing` lacks. */
  function Missing(defaults: seq<string>, existing: seq<string>): (r: seq<string>)
    ensures forall x :: x in r <==> x in defaults && x !in existing
    ensures Distinct(defaults) ==> Distinct(r)
  {
    if defaults == [] then []
    else
      var last := defaults[|defaults| - 1];
      var front := defaults[..|defaults| - 1];
      var rest := Missing(front, existing);
      assert Distinct(defaults) ==> last !in front by {
        if Distinct(defaults) {
          forall k | 0 <= k < |front| ensures front[k] != last {
            assert defaults[k] != defaults[|defaults| - 1];
          }
        }
      }
      if last !in existing then rest + [last] else rest
  }

  /** Looking at one more default appends it exactly when it is absent. */
  lemma MissingStep(defaults: seq<string>, i: int, existing: seq<string>)
    requires 0 <= i < |defaults|
    ensures Missing(defaults[..i + 1], existing)
         == Missing(defaults[..i], existing) + (if defaults[i] !in existing then [defaults[i]] else [])
  {
    var done := defaults[..i + 1];
    assert done[..i] == defaults[..i];
  }

  /** The category table after the default bootstrap: the existing rows,
      followed by every default name that was not yet present. */
  function Seeded(cats: seq<string>): (r: seq<string>)
    ensures forall d :: d in DefaultCategories ==> d in r
    ensures |cats| <= |r| && r[..|cats|] == cats
    ensures forall x :: x in r <==> x in cats || x in DefaultCategories
    ensures Distinct(cats) ==> Distinct(r)
  {
    DefaultsDistinct();
    var extra := Missing(DefaultCategories, cats);
    var r := cats + extra;
    assert Distinct(cats) ==> Distinct(r) by {
      if Distinct(cats) {
        forall i, j | 0 <= i < j < |r| ensures r[i] != r[j] {
          if j >= |cats| && i < |cats| {
            assert r[j] in extra && r[i] in cats;
          } else if i >= |cats| {
            assert r[i] == extra[i - |cats|] && r[j] == extra[j - |cats|];
          }
        }
      }
    }
    r
  }

  /** Nothing in `defaults` is missing from a table that holds them all. */
  lemma {:induction false} NoneMissing(defaults: seq<string>, existing: seq<string>)
    requires forall d :: d in defaults ==> d in existing
    ensures Missing(defaults, existing) == []
  {
    if defaults != [] {
      NoneMissing(defaults[..|defaults| - 1], existing);
    }
  }

  /** Bootstrapping a second time changes nothing. */
  lemma SeededIdempotent(cats: seq<string>)
    ensures Seeded(Seeded(cats)) == Seeded(cats)
  {
    NoneMissing(DefaultCategories, Seeded(cats));
  }

  /** The category table after get-or-create of `name`. */
  function WithCategory(cats: seq<string>, name: string): (r: seq<string>)
    ensures name in r
    ensures forall x :: x in r <==> x in cats || x == name
    ensures name in cats ==> r == cats
    ensures name !in cats ==> r == cats + [name]
    ensures Distinct(cats) ==> Distinct(r)
  {
    if name in cats then cats else cats + [name]
  }

  /** In a table of distinct names a stored name has exactly one row; so
      get-or-create called any number of times leaves one row for it. */
  lemma {:induction false} OneRowPerName(cats: seq<string>, name: string)
    requires Distinct(cats) && name in cats
    ensures multiset(cats)[name] == 1
  {
    var front, last := cats[..|cats| - 1], cats[|cats| - 1];
    assert cats == front + [last];
    assert Distinct(front) by {
      forall i, j | 0 <= i < j < |front| ensures front[i] != front[j] {
        assert cats[i] != cats[j];
      }
    }
    if last == name {
      forall k | 0 <= k < |front| ensures front[k] != name {
        assert cats[k] != cats[|cats| - 1];
      }
      assert multiset(front)[name] == 0;
    } else {
      OneRowPerName(front, name);
    }
  }

  /** The category table with the row named `name` deleted; the other rows
      keep their order. */
  function Without(cats: seq<string>, name: string): (r: seq<string>)
    ensures name !in r
    ensures forall x :: x != name ==> (x in r <==> x in cats)
    ensures name !in cats ==> r == cats
    ensures Distinct(cats) ==> Distinct(r)
    ensures Distinct(cats) && name in cats ==> |r| == |cats| - 1
  {
    if cats == [] then []
    else
      var last := cats[|cats| - 1];
      var front := cats[..|cats| - 1];
      var rest := Without(front, name);
      assert Distinct(cats) ==> last !in front by {
        if Distinct(cats) {
          forall k | 0 <= k < |front| ensures front[k] != last {
            assert cats[k] != cats[|cats| - 1];
          }
        }
      }
      assert cats == front + [last];
      if last == name then rest else rest + [last]
  }

  /** In a table of unique names, deleting the row at index `k` leaves the
      rows before it and the rows after it, each in their order. */
  lemma {:induction false} WithoutKeepsOrder(cats: seq<string>, k: int)
    requires Distinct(cats) && 0 <= k < |cats|
    ensures Without(cats, cats[k]) == cats[..k] + cats[k + 1..]
  {
    var name := cats[k];
    var front, last := cats[..|cats| - 1], cats[|cats| - 1];
    assert Distinct(front) by {
      forall i, j | 0 <= i < j < |front| ensures front[i] != front[j] {
        assert front[i] == cats[i] && front[j] == cats[j];
      }
    }
    if k == |cats| - 1 {
      assert name !in front by {
        forall i | 0 <= i < |front| ensures front[i] != name {
          assert front[i] == cats[i];
        }
      }
      assert cats[..k] == front;
      assert cats[k + 1..] == [];
    } else {
      assert last != name;
      WithoutKeepsOrder(front, k);
      assert front[k] == name;
      assert cats[..k] == front[..k];
      assert cats[k + 1..] == front[k + 1..] + [last];
    }
  }

  /** Deleting a category that get-or-create has just added restores the
      table it was added to. */
  lemma {:induction false} DeleteUndoesCreate(cats: seq<string>, name: string)
    requires name !in cats
    ensures Without(WithCategory(cats, name), name) == cats
  {
    var grown := cats + [name];
    assert grown[..|grown| - 1] == cats;
  }

  // ---------------------------------------------------------------------
  // Accounts
  // ---------------------------------------------------------------------

  /** Point lookup by id: the first account with that id, or None. */
  function FindAccount(accounts: seq<Account>, id: int): (r: Option<Account>)
    ensures r.None? <==> forall a :: a in accounts ==> a.id != id
    ensures r.Some? ==> r.value in accounts && r.value.id == id
  {
    if accounts == [] then None
    else if accounts[0].id == id then Some(accounts[0])
    else FindAccount(accounts[1..], id)
  }

  /** Adding an account leaves every other lookup as it was, and a lookup of
      the new account's id finds it when no earlier account has that id. */
  lemma {:induction false} FindAfterAppend(accounts: seq<Account>, a: Account, id: int)
    ensures FindAccount(accounts + [a], id) ==
      if FindAccount(accounts, id).Some? then FindAccount(accounts, id)
      else if a.id == id then Some(a) else None
  {
    if accounts != [] {
      assert (accounts + [a])[1..] == accounts[1..] + [a];
      FindAfterAppend(accounts[1..], a, id);
    }
  }

  // ---------------------------------------------------------------------
  // Transactions and the conjunctive query
  // ---------------------------------------------------------------------

  /** The optional filters of a transaction query. */
  datatype TxnFilter = TxnFilter(startDate: Option<int>, endDate: Option<int>,
                                 category: Option<string>, accountId: Option<int>)

  const NoFilter := TxnFilter(None, None, None, None)

  /** A transaction passes every filter that is supplied. A date filter is
      applied whenever it is present (a date is never falsy); an empty
      category and an account id of 0 are falsy and impose nothing. */
  predicate Matches(t: Txn, f: TxnFilter)
  {
    && (f.startDate.Some? ==> f.startDate.value <= t.date)
    && (f.endDate.Some? ==> t.date <= f.endDate.value)
    && (HasText(f.category) ==> t.category == f.category)
    && (f.accountId.Some? && f.accountId.value != 0 ==> t.accountId == f.accountId.value)
  }

  /** The stored transactions, in table order, that pass the filter. */
  function Query(txns: seq<Txn>, f: TxnFilter): (r: seq<Txn>)
    ensures forall t :: t in r <==> t in txns && Matches(t, f)
    ensures |r| <= |txns|
  {
    if txns == [] then []
    else
      var last := txns[|txns| - 1];
      var front := txns[..|txns| - 1];
      assert txns == front + [last];
      Query(front, f) + (if Matches(last, f) then [last] else [])
  }

  /** The query returns each matching transaction as often as it is stored,
      and no other. */
  lemma {:induction false} QueryMultiplicity(txns: seq<Txn>, f: TxnFilter, t: Txn)
    ensures multiset(Query(txns, f))[t] == if Matches(t, f) then multiset(txns)[t] else 0
  {
    if txns != [] {
      var front, last := txns[..|txns| - 1], txns[|txns| - 1];
      assert txns == front + [last];
      QueryMultiplicity(front, f, t);
    }
  }

  /** A new transaction shows up at the end of every query it matches, and
      nowhere else. */
  lemma QueryAppend(txns: seq<Txn>, t: Txn, f: TxnFilter)
    ensures Query(txns + [t], f) == Query(txns, f) + (if Matches(t, f) then [t] else [])
  {
    assert (txns + [t])[..|txns|] == txns;
  }

  /** A query without filters returns the whole table, in order. */
  lemma {:induction false} QueryNoFilter(txns: seq<Txn>)
    ensures Query(txns, NoFilter) == txns
  {
    if txns != [] {
      QueryNoFilter(txns[..|txns| - 1]);
      assert txns == txns[..|txns| - 1] + [txns[|txns| - 1]];
    }
  }

  /** A date-range query keeps exactly the transactions dated from `d1` to
      `d2`, both ends included. */
  lemma DateRangeInclusive(txns: seq<Txn>, d1: int, d2: int, t: Txn)
    requires t in txns
    ensures t in Query(txns, TxnFilter(Some(d1), Some(d2), None, None)) <==> d1 <= t.date <= d2
  {
  }

  // ---------------------------------------------------------------------
  // The store
  // ---------------------------------------------------------------------

  /** The three tables of one ledger database. */
  class Store {
    var categories: seq<string>
    var accounts: seq<Account>
    var transactions: seq<Txn>

    /** Category names are unique, and so are account and transaction ids. */
    ghost predicate Valid()
      reads this
    {
      && Distinct(categories)
      && Distinct(Ids(accounts, AccountId))
      && Distinct(Ids(transactions, TxnId))
    }

    /** A freshly created database: three empty tables. */
    constructor ()
      ensures Valid()
      ensures categories == [] && accounts == [] && transactions == []
    {
      categories := [];
      accounts := [];
      transactions := [];
    }

    /** Adds every default category the table lacks, judged against the
        names present before the loop starts. */
    method InitializeDefaultCategories()
      requires Valid()
      modifies this
      ensures Valid()
      ensures categories == Seeded(old(categories))
      ensures accounts == old(accounts) && transactions == old(transactions)
    {
      ghost var before := categories;
      AddMissing(DefaultCategories);
      assert categories == Seeded(before);
    }

    /** The bootstrap loop for any list of names: appends, in list order,
        each name the table lacked when the loop started. */
    method AddMissing(defaults: seq<string>)
      modifies this
      ensures categories == old(categories) + Missing(defaults, old(categories))
      ensures accounts == old(accounts) && transactions == old(transactions)
    {
      var existing := categories;
      for i := 0 to |defaults|
        invariant categories == existing + Missing(defaults[..i], existing)
        invariant accounts == old(accounts) && transactions == old(transactions)
      {
        MissingStep(defaults, i, existing);
        if defaults[i] !in existing {
          categories := categories + [defaults[i]];
        }
      }
      assert defaults[..|defaults|] == defaults;
    }

    /** Looks the category up by name and inserts it when absent. */
    method GetOrCreateCategory(name: string) returns (r: string)
      requires Valid()
      modifies this
      ensures Valid()
      ensures r == name
      ensures categories == WithCategory(old(categories), name)
      ensures accounts == old(accounts) && transactions == old(transactions)
    {
      if name !in categories {
        categories := categories + [name];
      }
      assert categories == WithCategory(old(categories), name);
      r := name;
    }

    /** Deletes a non-default category. Returns false, changing nothing, for
        a default name or a name that is not stored. Transactions that carry
        the name keep it. */
    method DeleteCategory(name: string) returns (deleted: bool)
      requires Valid()
      modifies this
      ensures Valid()
      ensures deleted <==> name !in DefaultCategories && name in old(categories)
      ensures categories == if deleted then Without(old(categories), name) else old(categories)
      ensures accounts == old(accounts) && transactions == old(transactions)
    {
      if name in DefaultCategories {
        return false;
      }
      if name in categories {
        categories := Without(categories, name);
        return true;
      }
      return false;
    }

    /** Inserts an account under the next free row id and returns it. */
    method CreateBankAccount(name: string, accountType: string, description: Option<string>)
      returns (a: Account)
      requires Valid()
      modifies this
      ensures Valid()
      ensures a == Account(a.id, name, accountType, description)
      ensures a.id !in Ids(old(accounts), AccountId) && FindAccount(old(accounts), a.id).None?
      ensures accounts == old(accounts) + [a]
      ensures categories == old(categories) && transactions == old(transactions)
    {
      a := Account(NextRowId(Ids(accounts, AccountId)), name, accountType, description);
      AppendFreshId(Ids(accounts, AccountId), a.id);
      assert Ids(accounts + [a], AccountId) == Ids(accounts, AccountId) + [a.id];
      accounts := accounts + [a];
    }

    /** Every stored account, in table order. */
    function GetBankAccounts(): (r: seq<Account>)
      reads this
      ensures |r| == |accounts|
      ensures forall i :: 0 <= i < |r| ==> r[i] == accounts[i]
    {
      accounts
    }

    /** The account with id `id`, or None when there is none. */
    function GetBankAccount(id: int): (r: Option<Account>)
      reads this
      ensures r.None? <==> forall a :: a in accounts ==> a.id != id
      ensures r.Some? ==> r.value in accounts && r.value.id == id
    {
      FindAccount(accounts, id)
    }

    /** Stores a transaction. A non-empty category is first made to exist
        through get-or-create, which writes on its own; the account id is
        stored as given, without checking that such an account exists. */
    method CreateTransaction(date: int, description: string, amount: int,
                             accountId: int, category: Option<string>)
      returns (t: Txn)
      requires Valid()
      modifies this
      ensures Valid()
      ensures t == Txn(t.id, date, description, amount, category, accountId)
      ensures t.id !in Ids(old(transactions), TxnId)
      ensures transactions == old(transactions) + [t]
      ensures categories == if HasText(category) then WithCategory(old(categories), category.value)
                            else old(categories)
      ensures HasText(category) ==> category.value in categories
      ensures accounts == old(accounts)
    {
      var stored := category;
      if HasText(category) {
        var canonical := GetOrCreateCategory(category.value);
        stored := Some(canonical);
      }
      t := Txn(NextRowId(Ids(transactions, TxnId)), date, description, amount, stored, accountId);
      AppendFreshId(Ids(transactions, TxnId), t.id);
      assert Ids(transactions + [t], TxnId) == Ids(transactions, TxnId) + [t.id];
      transactions := transactions + [t];
    }

    /** The stored transactions that pass every supplied filter. */
    function GetTransactions(startDate: Option<int>, endDate: Option<int>,
                             category: Option<string>, accountId: Option<int>): (r: seq<Txn>)
      reads this
      ensures forall t :: t in r <==> t in transactions && Matches(t, TxnFilter(startDate, endDate, category, accountId))
    {
      Query(transactions, TxnFilter(startDate, endDate, category, accountId))
    }
  }
}
