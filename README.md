# Vending machine, modelled in Dafny

This project models the coin-operated vending machine of `vending/machine.py`.
The machine keeps three pieces of state:

- a product catalog, mapping lower-cased product names to prices;
- the deposit, the list of coins inserted and not yet handed back;
- the fixed list of accepted denominations (0.05, 0.10, 0.20, 0.50, 1.00 and 2.00).

Its operations are:

- inserting a coin;
- handing the deposit back;
- buying a product, which computes change coin by coin;
- adding or overwriting a catalog entry;
- removing a catalog entry.

All money is modelled as integer cents. The accepted coins are
`[5, 10, 20, 50, 100, 200]`. The default catalog is snickers 120, mars 130
and twix 100.

Files and modules:

- `wrappers.dfy` (`Wrappers`): `Option` (Python's `None` or a value) and `Result` (a value or a raised exception).
- `money.dfy` (`Money`): the accepted coins, `Sum` (Python's `sum`), and what makes a denomination list usable.
- `rounding.dfy` (`Rounding`): the `truncate` helper, over exact reals.
- `text.dfy` (`Text`): lower-casing of product names.
- `change.dfy` (`Change`): the change routine `_calc_change`.
  - `Pass` is one descending pass as a function.
  - `GreedyChange` is the specification of the whole repeated-pass process.
  - `PassOver` is the `for` loop, as a method with loop invariants.
  - `CalcChange` is the recursive routine.
- `machine.dfy` (`Vending`): the class `VendingMachine` with fields `products` and `deposit`. It also holds the pure catalog functions its methods are specified by.
- `scenarios.dfy` (`Scenarios`): client methods that replay the situations of the repository's tests. Each relies only on the method contracts.

How the model treats a few points:

- **Buying changes nothing.** `BuyProduct` has no `modifies` clause. It keeps the deposit even after a successful sale, as the code does, because line 53-58 never touches `self.deposit`. So the deposit unchanged and the catalog unchanged are guaranteed by the frame.
- **Insufficient funds.** Here the code falls off the end of the method and returns Python `None`. This is modelled as the outcome `NoResult`.
- **Change that never completes.** `_calc_change` recurses for ever when a positive remainder is not a multiple of 5 cents. A pass then eventually finds no coin while money is still left. The model returns an explicit failure instead: `None` from `CalcChange` and `GreedyChange`, and `ChangeNeverCompletes` from `BuyProduct`. `GreedyChangeFails` proves that this happens exactly when the remainder is positive and not a multiple of 5 cents. With the default prices it never happens.
- **Negative remainder.** A remainder of zero or less yields no coins, as in the code.
- **What the code does not do.** The model follows the code:
  - The code never clears or reduces the deposit after a sale (vending/machine.py:53-58).
  - `add_product_to_list` accepts any price, including 0 or a negative one (vending/machine.py:103-104).
  - Several tests expect stock counts, a three-argument `add_product_to_list`, and the coin 3 being kept in the deposit. The code has no stock, takes two arguments, and rejects 3. `Scenarios.OnlyAcceptedCoinsKept` shows the last of these.

## Model

| member | source | states |
|---|---|---|
| Money.AcceptedCoinsAreDenominations | vending/machine.py:17 | The accepted coins are strictly ascending, start at 5 cents, and each is a whole number of 5 cents. |
| Money.SumConcat | vending/machine.py:55-56 | The value of two coin lists put together is the sum of their values. |
| Money.SumOfDenominations | vending/machine.py:55-56 | A list of coins from the denominations is worth a non-negative multiple of 5 cents, and is worth 0 exactly when it is empty. |
| Money.AcceptedSum | vending/machine.py:27-28 | A deposit made of accepted coins is worth a non-negative multiple of 5 cents. |
| Rounding.TruncateRounds | vending/machine.py:91-92 | `truncate` lands on a whole number of 1/10^decimals. It lies in (n - half unit, n + half unit], which is within 1/200 of n for two decimals. |
| Rounding.TruncateFixesGrid | vending/machine.py:91-92 | A value that is already a whole number of units is returned unchanged. |
| Rounding.TruncateIdempotent | vending/machine.py:91-92 | Truncating twice gives the same as truncating once. |
| Rounding.TruncateWholeCents | vending/machine.py:56 | Two-decimal truncation leaves every whole number of cents unchanged, so change arithmetic in cents needs no rounding step. |
| Rounding.TruncateHalfUp | vending/machine.py:92 | Ties round up, not to even, also below zero: 0.375 becomes 0.38, 0.125 becomes 0.13, and -0.125 becomes -0.12. |
| Text.Lower | vending/machine.py:53 | A lower-cased name keeps its length, turns each upper-case letter A-Z into its lower-case letter, keeps every other character, and has no upper-case letter left. An already lower-case name is left as it is, so lower-casing is idempotent. |
| Text.LowerIgnoresCase | vending/machine.py:53-54 | Two names lower-case to the same catalog key exactly when they have the same length and differ at most in the case of their letters. |
| Change.PassPays | vending/machine.py:73-76 | One pass removes from the remainder exactly the value of the coins it appends. Every appended coin is a denomination no larger than the largest one visited. |
| Change.PassShape | vending/machine.py:73-76 | Within one pass each denomination appears at most once, in strictly descending order. A non-negative remainder never goes negative. |
| Change.PassTakesCoin | vending/machine.py:73-76 | A full pass takes some coin exactly when the remainder is at least 5 cents. |
| Change.PassProgress | vending/machine.py:73-78 | A pass that takes coins strictly lowers the remainder. Every pass keeps the remainder modulo 5. |
| Change.GreedyChangeFails | vending/machine.py:63-79 | The repeated passes never finish exactly when the remainder is positive and not a multiple of 5 cents. |
| Change.GreedyChangeSound | vending/machine.py:63-79 | When the repeated passes finish, every coin is a denomination and the coins sum to exactly the remainder (0 for a remainder of 0 or less). |
| Change.PassOver | vending/machine.py:73-76 | The loop appends exactly the coins of one descending pass to the list, and leaves exactly that pass's remainder. |
| Change.CalcChange | vending/machine.py:63-79 | Returns the given list with the greedy change appended, keeping the list as a prefix. Fails exactly where the source would recurse for ever. |
| Change.ChangeOf35 | tests/test_vending_machine.py:62-71 | 35 cents of change is paid as 20, 10 and 5. |
| Change.ChangeOf400 | vending/machine.py:77-78 | 4.00 needs a second pass: the first pass takes one coin of each kind and leaves 15 cents, which the second pass pays as 10 and 5. |
| Vending.WithProduct | vending/machine.py:103-106 | The lower-cased name now maps to the given price, added or overwritten. Every other entry is unchanged. |
| Vending.WithoutProduct | vending/machine.py:115-119 | Removal succeeds exactly when the lower-cased name is listed, and then drops only that entry. Otherwise it fails with ProductNotFound of the lower-cased name. |
| Vending.RemoveUndoesAdd | vending/machine.py:103-117 | Adding a product that was not listed and then removing it restores the catalog. |
| Vending.AddOverwrites | vending/machine.py:103-104 | Setting a price twice keeps only the second price. |
| Vending.RemoveTwiceFails | vending/machine.py:115-119 | After a successful removal, removing the same name again raises ProductNotFound. |
| Vending.MessageNamesProduct | vending/machine.py:119 | The error message `No product found with name '<name>'` quotes the lower-cased name. |
| Vending.VendingMachine.constructor | vending/machine.py:10-17 | A new machine has the default catalog (snickers 120, mars 130, twix 100) and an empty deposit. |
| Vending.VendingMachine.InsertCoin | vending/machine.py:19-31 | An accepted coin is appended to the deposit and nothing is returned. Any other coin is returned and the deposit is unchanged. The catalog is unchanged, and only accepted coins are ever in the deposit. |
| Vending.VendingMachine.GetDepositBack | vending/machine.py:33-43 | Returns exactly the previous deposit and leaves the deposit empty, so an immediate second call returns []. |
| Vending.VendingMachine.BuyProduct | vending/machine.py:45-61 | Unknown name: returns the deposit and no product. Known name but too little money: no result. Enough money: change coins that are all accepted and sum to deposit minus price, plus the lower-cased name. Change is always paid when the price is a multiple of 5 cents. State is never changed. |
| Vending.VendingMachine.AddProductToList | vending/machine.py:94-106 | The catalog becomes WithProduct of the old catalog, the updated catalog is returned, and the deposit is unchanged. |
| Vending.VendingMachine.RemoveProductFromList | vending/machine.py:108-119 | The catalog becomes WithoutProduct of the old catalog. An absent name raises ProductNotFound and the catalog is unchanged. The deposit is unchanged. |

## Left out

- Floating-point money:
  - The source adds, subtracts and compares Python floats.
  - It tests coin membership with float equality, so `1` and `1.0` are the same coin.
  - The model uses exact integer cents, and `Rounding.Truncate` uses exact reals.
  - Rounding artefacts of binary floats, and amounts finer than a cent, are not modelled.
- Change.CalcChange: where the source recurses without end (until Python's recursion limit stops it), the model returns `None`. The failing pass is detected as one that takes no coin while money is left.
- Console diagnostics: "Coin type not accepted" and "'<name>' is not available" are printed by the source. In the model they are only the outcomes `Some(coin)` and `NotAvailable`.
- Aliasing: the unknown-product branch of `buy_product` returns the live deposit list (vending/machine.py:61), and `add_product_to_list` returns the live catalog dictionary (vending/machine.py:106). A caller mutating either would change the machine. The model returns values. (`get_deposit_back` is not affected: it rebinds the deposit to a fresh empty list before returning the old one.)
- A catalog entry whose price is Python `None` counts as absent in `buy_product` (line 54). Prices here are integers, so no such entry exists.
- Name normalisation: only the ASCII letters A-Z are lower-cased, not all of Unicode.
- `truncate`'s default argument `decimals=2`: the number of decimals is always passed explicitly.
- The accepted-coin list is a module constant rather than an instance field, since nothing ever changes it. The change routine takes the list as a parameter, `ds`.
- Stock counts, restocking and the three-argument `add_product_to_list` exist only in tests; the code has no price validation. None of these is modelled.
