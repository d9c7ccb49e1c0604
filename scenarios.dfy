/**
 * Client code that drives a machine through the situations the
 * repository's own tests describe, using only the contracts of the
 * machine's methods.
 */
module Scenarios {
  import opened Wrappers
  import opened Money
  import opened Text
  import opened Change
  import opened Vending

  /** Insert 1.00, 0.05 and 0.50, then buy a snickers bar at 1.20. */
  method SnickersWithChange() {
    var m := new VendingMachine();
    var r1 := m.InsertCoin(100);
    var r2 := m.InsertCoin(5);
    var r3 := m.InsertCoin(50);
    assert r1 == None && r2 == None && r3 == None;
    assert m.deposit == [100, 5, 50];
    assert Sum([50]) == 50 && Sum([5, 50]) == 55 && Sum([100, 5, 50]) == 155;
    assert m.products["snickers"] == 120;
    assert Lower("snickers") == "snickers";
    var outcome := m.BuyProduct("snickers");
    assert outcome.Sold?;
    assert outcome.product == "snickers";
    assert Sum(outcome.change) == 35;
    ChangeOf35();
    assert outcome.change == [20, 10, 5];
    // The sale leaves the deposit in place.
    assert m.deposit == [100, 5, 50];
  }

  /** Asking for a product the catalog does not list hands the deposit back as it is. */
  method UnknownProduct() {
    var m := new VendingMachine();
    var _ := m.InsertCoin(100);
    var _ := m.InsertCoin(5);
    var _ := m.InsertCoin(50);
    assert Lower("machine itself") == "machine itself";
    var outcome := m.BuyProduct("machine itself");
    assert outcome == NotAvailable([100, 5, 50]);
    assert Sum([50]) == 50 && Sum([5, 50]) == 55 && Sum(outcome.deposit) == 155;
  }

  /** Too little money: no result at all, and nothing changes. */
  method NotEnoughMoney() {
    var m := new VendingMachine();
    var _ := m.InsertCoin(100);
    assert Lower("mars") == "mars";
    var outcome := m.BuyProduct("mars");
    assert outcome == NoResult;
    assert m.deposit == [100];
  }

  /** A coin of 5.00 is not accepted and comes straight back. */
  method FakeCoin() {
    var m := new VendingMachine();
    var returned := m.InsertCoin(500);
    assert returned == Some(500);
    assert m.deposit == [];
  }

  /** Inserting 1.00, 2.00 and 3.00 keeps only the first two: 3.00 is no coin. */
  method OnlyAcceptedCoinsKept() {
    var m := new VendingMachine();
    var _ := m.InsertCoin(100);
    var _ := m.InsertCoin(200);
    var returned := m.InsertCoin(300);
    assert returned == Some(300);
    assert m.deposit == [100, 200];
  }

  /** The refund returns the coins inserted; a second refund returns nothing. */
  method RefundTwice() {
    var m := new VendingMachine();
    var _ := m.InsertCoin(100);
    var _ := m.InsertCoin(5);
    var _ := m.InsertCoin(50);
    var coins := m.GetDepositBack();
    assert coins == [100, 5, 50];
    var again := m.GetDepositBack();
    assert again == [];
  }

  /** Add, remove, overwrite, and remove a name that is not listed. */
  method CatalogMaintenance() {
    var m := new VendingMachine();
    assert Lower("coke") == "coke";
    var _ := m.AddProductToList("coke", 100);
    assert "coke" in m.products;
    var raised := m.RemoveProductFromList("coke");
    assert raised == None && "coke" !in m.products;
    assert Lower("snickers") == "snickers";
    var _ := m.AddProductToList("snickers", 150);
    assert m.products["snickers"] == 150;
    assert Lower("you") == "you";
    raised := m.RemoveProductFromList("you");
    assert raised == Some(ProductNotFound("you"));
    assert Message(raised.value) == "No product found with name 'you'";
  }
}
