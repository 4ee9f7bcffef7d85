/** A client of the store: category and transaction scenarios, checked
    against the contracts of the storage and analysis modules alone. */
module Scenarios {
  import opened Records
  import opened Storage
  import opened Analysis

  method CategoryScenario()
  {
    var store := new Store();
    store.InitializeDefaultCategories();
    assert "Food" in DefaultCategories;
    assert "Food" in store.categories;

    // get-or-create of an existing name returns it and adds no row
    var before := store.categories;
    var first := store.GetOrCreateCategory("Food");
    var second := store.GetOrCreateCategory("Food");
    assert first == "Food" && second == "Food";
    assert store.categories == before;
    OneRowPerName(store.categories, "Food");
    assert multiset(store.categories)["Food"] == 1;

    // a default category is protected
    var deleted := store.DeleteCategory("Food");
    assert !deleted && "Food" in store.categories;

    // a custom category can be created and deleted again
    assert "Custom1" !in DefaultCategories;
    var custom := store.GetOrCreateCategory("Custom1");
    assert "Custom1" in store.categories;
    deleted := store.DeleteCategory("Custom1");
    assert deleted && "Custom1" !in store.categories;
  }

  method TransactionScenario()
  {
    var store := new Store();
    var account := store.CreateBankAccount("Everyday", "Checking", None);
    assert store.GetBankAccount(account.id) == Some(account);

    var t := store.CreateTransaction(738000, "Groceries", -4250, account.id, Some("Food"));
    assert "Food" in store.categories;
    assert store.transactions == [t];
    QueryNoFilter(store.transactions);
    assert store.GetTransactions(None, None, None, None) == [t];
    assert t in store.GetTransactions(Some(738000), Some(738000), None, None);
    assert t !in store.GetTransactions(Some(738001), None, None, None);

    // an unknown account id is stored as given
    var orphan := store.CreateTransaction(738001, "Refund", 1000, account.id + 1, None);
    assert orphan.accountId != account.id && store.GetBankAccount(orphan.accountId).None?;
  }
}
