/**
 * The vending machine: a product catalog (lower-cased name to price), the
 * coins deposited so far, and the fixed list of accepted denominations.
 * Money is in cents.
 */
module Vending {
  import opened Wrappers
  import opened Money
  import opened Text
  import opened Change

  /** What buying hands back. */
  datatype Purchase =
    /** Enough money: the change coins and the normalised product name. */
    | Sold(change: seq<int>, product: string)
    /** Unknown product: the whole current deposit and no product. */
    | NotAvailable(deposit: seq<int>)
    /** Known product, too little money: the routine returns nothing at all. */
    | NoResult
    /** Known product, but the change can never be paid in accepted coins. */
    | ChangeNeverCompletes

  /** The exception catalog maintenance raises. */
  datatype CatalogError = ProductNotFound(name: string)

  function Message(e: CatalogError): (msg: string) {
    "No product found with name '" + e.name + "'"
  }

  /** The catalog a new machine starts with. */
  function DefaultCatalog(): (catalog: map<string, int>) {
    map["snickers" := 120, "mars" := 130, "twix" := 100]
  }

  /**
   * The catalog after setting the price of `name`: the lower-cased name now
   * maps to `price`, whether or not it was there before, and every other
   * entry is as it was.
   */
  function WithProduct(catalog: map<string, int>, name: string, price: int): (r: map<string, int>)
    ensures r.Keys == catalog.Keys + {Lower(name)}
    ensures r[Lower(name)] == price
    ensures forall k :: k in catalog && k != Lower(name) ==> r[k] == catalog[k]
  {
    catalog[Lower(name) := price]
  }

  /**
   * The catalog after removing `name`: when the lower-cased name is listed,
   * exactly that entry goes and every other one stays; otherwise the
   * removal fails, naming the lower-cased name.
   */
  function WithoutProduct(catalog: map<string, int>, name: string): (r: Result<map<string, int>, CatalogError>)
    ensures r.Ok? <==> Lower(name) in catalog
    ensures r.Ok? ==> r.value.Keys == catalog.Keys - {Lower(name)}
    ensures r.Ok? ==> forall k :: k in r.value ==> r.value[k] == catalog[k]
    ensures r.Err? ==> r.error == ProductNotFound(Lower(name))
  {
    var key := Lower(name);
    if key in catalog then Ok(catalog - {key}) else Err(ProductNotFound(key))
  }

  /** Adding a product that was not listed and removing it again restores the catalog. */
  lemma RemoveUndoesAdd(catalog: map<string, int>, name: string, price: int)
    requires Lower(name) !in catalog
    ensures WithoutProduct(WithProduct(catalog, name, price), name) == Ok(catalog)
  {
    var key := Lower(name);
    var added := WithProduct(catalog, name, price);
    assert added - {key} == catalog;
  }

  /** Setting a price twice keeps only the second price. */
  lemma AddOverwrites(catalog: map<string, int>, name: string, first: int, second: int)
    ensures WithProduct(WithProduct(catalog, name, first), name, second) == WithProduct(catalog, name, second)
  {
  }

  /** Removing twice fails the second time, and the failure names the product. */
  lemma RemoveTwiceFails(catalog: map<string, int>, name: string)
    requires Lower(name) in catalog
    ensures WithoutProduct(catalog, name).Ok?
    ensures WithoutProduct(WithoutProduct(catalog, name).value, name) == Err(ProductNotFound(Lower(name)))
  {
  }

  /** The error message quotes the name it was given. */
  lemma MessageNamesProduct(e: CatalogError)
    ensures var prefix := "No product found with name '";
      Message(e)[|prefix|..|prefix| + |e.name|] == e.name
  {
  }

  class VendingMachine {
    /** Lower-cased product name to price in cents. */
    var products: map<string, int>
    /** The coins inserted and not yet handed back, in insertion order. */
    var deposit: seq<int>

    /** Only accepted coins ever reach the deposit. */
    ghost predicate Valid()
      reads this
    {
      AllAccepted(deposit)
    }

    constructor ()
      ensures Valid()
      ensures products == DefaultCatalog() && deposit == []
    {
      products := DefaultCatalog();
      deposit := [];
    }

    /**
     * An accepted coin is appended to the deposit and nothing is returned;
     * any other coin is handed back and the deposit stays as it was.
     */
    method InsertCoin(coin: int) returns (returned: Option<int>)
      requires Valid()
      modifies this
      ensures Valid()
      ensures IsAccepted(coin) ==> returned == None && deposit == old(deposit) + [coin]
      ensures !IsAccepted(coin) ==> returned == Some(coin) && deposit == old(deposit)
      ensures products == old(products)
    {
      if coin in AcceptedCoins {
        deposit := deposit + [coin];
        returned := None;
      } else {
        returned := Some(coin);
      }
    }

    /** Hands back exactly the coins deposited and empties the deposit. */
    method GetDepositBack() returns (coins: seq<int>)
      requires Valid()
      modifies this
      ensures Valid()
      ensures coins == old(deposit) && deposit == []
      ensures products == old(products)
    {
      coins := deposit;
      deposit := [];
    }

    /**
     * Buying looks the lower-cased name up and compares the deposit's value
     * with the price. It changes nothing: the deposit is kept even after a
     * sale.
     */
    method BuyProduct(product: string) returns (outcome: Purchase)
      ensures Lower(product) !in products ==> outcome == NotAvailable(deposit)
      ensures Lower(product) in products && Sum(deposit) < products[Lower(product)] ==> outcome == NoResult
      ensures Lower(product) in products && Sum(deposit) >= products[Lower(product)] ==>
        outcome.Sold? || outcome == ChangeNeverCompletes
      ensures outcome == ChangeNeverCompletes <==>
        (Lower(product) in products && Sum(deposit) >= products[Lower(product)]
         && (Sum(deposit) - products[Lower(product)]) % SmallestCoin != 0)
      ensures outcome.Sold? ==>
        && outcome.product == Lower(product)
        && Lower(product) in products
        && GreedyChange(Sum(deposit) - products[Lower(product)], AcceptedCoins) == Some(outcome.change)
        && AllAccepted(outcome.change)
        && Sum(outcome.change) == Sum(deposit) - products[Lower(product)]
      ensures (Valid() && Lower(product) in products && Sum(deposit) >= products[Lower(product)]
               && products[Lower(product)] % SmallestCoin == 0) ==> outcome.Sold?
    {
      var name := Lower(product);
      if name in products {
        var price := products[name];
        if Sum(deposit) - price >= 0 {
          var excess := Sum(deposit) - price;
          AcceptedCoinsAreDenominations();
          GreedyChangeFails(excess, AcceptedCoins);
          GreedyChangeSound(excess, AcceptedCoins);
          var change := CalcChange(AcceptedCoins, excess, []);
          if change.Some? {
            assert change.value == GreedyChange(excess, AcceptedCoins).value;
            outcome := Sold(change.value, name);
          } else {
            outcome := ChangeNeverCompletes;
          }
          if Valid() && price % SmallestCoin == 0 {
            AcceptedSum(deposit);
            ResidueAfterPaying(Sum(deposit), price);
          }
        } else {
          outcome := NoResult;
        }
      } else {
        outcome := NotAvailable(deposit);
      }
    }

    /**
     * Sets the price of the lower-cased name, adding or overwriting it, and
     * returns the updated catalog.
     */
    method AddProductToList(newProductName: string, price: int) returns (catalog: map<string, int>)
      modifies this
      ensures products == WithProduct(old(products), newProductName, price)
      ensures catalog == products
      ensures deposit == old(deposit)
    {
      products := products[Lower(newProductName) := price];
      catalog := products;
    }

    /**
     * Deletes the lower-cased name when it is listed; otherwise raises
     * ProductNotFound and leaves the catalog alone.
     */
    method RemoveProductFromList(productName: string) returns (raised: Option<CatalogError>)
      modifies this
      ensures WithoutProduct(old(products), productName).Ok? ==>
        raised == None && products == WithoutProduct(old(products), productName).value
      ensures WithoutProduct(old(products), productName).Err? ==>
        raised == Some(WithoutProduct(old(products), productName).error) && products == old(products)
      ensures deposit == old(deposit)
    {
      var name := Lower(productName);
      if name in products {
        products := products - {name};
        raised := None;
      } else {
        raised := Some(ProductNotFound(name));
      }
    }
  }
}
