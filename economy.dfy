// Money and trade, src/systems/economy.py: a wallet of gold, silver and copper
// (ten copper to the silver, ten silver to the gold), a shop with a stock list
// and its own gold, and the closing summary of a trading session. Prices are
// passed in: they come from a price table through floating-point multipliers.

module Economy {

  import opened Util
  import opened Components

  /** An amount of money in the three coins. */
  datatype Coins = Coins(gold: int, silver: int, copper: int)

  /** `total_in_copper`. */
  function CopperValue(c: Coins): int
  {
    c.gold * 100 + c.silver * 10 + c.copper
  }

  /** A normalised amount: fewer than ten silver and ten copper. */
  predicate Normal(c: Coins)
  {
    0 <= c.silver <= 9 && 0 <= c.copper <= 9
  }

  /** `_normalize()` on a total in copper: `//` and `%` by a positive divisor
      floor in Python as they do here, negative totals included. */
  function Split(total: int): (c: Coins)
    ensures Normal(c) && CopperValue(c) == total
  {
    var g, rest := total / 100, total % 100;
    var s, k := rest / 10, rest % 10;
    assert total == g * 100 + rest && 0 <= rest < 100;
    assert rest == s * 10 + k && 0 <= k < 10;
    Coins(g, s, k)
  }

  /** A normalised amount is the only one with its value: normalising it changes nothing. */
  lemma SplitOfValue(c: Coins)
    requires Normal(c)
    ensures Split(CopperValue(c)) == c
  {
    var t := CopperValue(c);
    var s := c.silver * 10 + c.copper;
    assert 0 <= s < 100;
    assert t == c.gold * 100 + s;
    assert t / 100 == c.gold && t % 100 == s;
    assert s / 10 == c.silver && s % 10 == c.copper;
  }

  /** The text of each coin that `str(wallet)` shows. */
  function WalletParts(c: Coins): (r: seq<string>)
    ensures 1 <= |r| <= 3
    ensures c.gold > 0 <==> |r| > 0 && r[0] == IntToString(c.gold) + "G"
    ensures (c.gold <= 0 && c.silver <= 0) ==> r == [IntToString(c.copper) + "C"]
  {
    var g := if c.gold > 0 then [IntToString(c.gold) + "G"] else [];
    var s := if c.silver > 0 then [IntToString(c.silver) + "S"] else [];
    var parts := g + s;
    var all := parts + if c.copper > 0 || parts == [] then [IntToString(c.copper) + "C"] else [];
    assert c.gold <= 0 && |all| > 0 ==> all[0][|all[0]| - 1] != 'G';
    all
  }

  /** `str(wallet)`. */
  function WalletText(c: Coins): string
  {
    Join(WalletParts(c), " ")
  }

  /** An empty wallet shows "0C". */
  lemma EmptyWalletText()
    ensures WalletText(Coins(0, 0, 0)) == "0C"
  {
    assert NatToString(0) == "0";
  }

  /** A wallet with only copper shows only its copper. */
  lemma CopperOnlyText(copper: int)
    ensures WalletText(Coins(0, 0, copper)) == IntToString(copper) + "C"
  {
  }

  class Wallet {
    var gold: int
    var silver: int
    var copper: int

    constructor(gold: int, silver: int, copper: int)
      ensures this.gold == gold && this.silver == silver && this.copper == copper
    {
      this.gold, this.silver, this.copper := gold, silver, copper;
    }

    function Contents(): Coins
      reads this
    {
      Coins(gold, silver, copper)
    }

    function TotalInCopper(): int
      reads this
    {
      CopperValue(Contents())
    }

    /** `total_in_gold`. */
    function TotalInGold(): int
      reads this
    {
      TotalInCopper() / 100
    }

    /** `can_afford(gold, silver, copper)`. */
    predicate CanAfford(g: int, s: int, c: int)
      reads this
    {
      TotalInCopper() >= CopperValue(Coins(g, s, c))
    }

    function Text(): string
      reads this
    {
      WalletText(Contents())
    }

    /** `_normalize()`: the same value, in normal form. */
    method Normalize()
      modifies this
      ensures Contents() == Split(old(TotalInCopper()))
    {
      var total := TotalInCopper();
      gold := total / 100;
      total := total % 100;
      silver := total / 10;
      copper := total % 10;
    }

    /** `add(gold, silver, copper)`: the value grows by exactly the amount added. */
    method Add(g: int, s: int, c: int)
      modifies this
      ensures Contents() == Split(old(TotalInCopper()) + CopperValue(Coins(g, s, c)))
      ensures TotalInCopper() == old(TotalInCopper()) + CopperValue(Coins(g, s, c)) && Normal(Contents())
    {
      ghost var total := TotalInCopper() + CopperValue(Coins(g, s, c));
      gold := gold + g;
      silver := silver + s;
      copper := copper + c;
      assert TotalInCopper() == total;
      Normalize();
    }

    /** `remove(gold, silver, copper)`: refused, with nothing changed, when the
        wallet holds less; otherwise the value drops by exactly the amount. */
    method Remove(g: int, s: int, c: int) returns (ok: bool)
      modifies this
      ensures ok == old(CanAfford(g, s, c))
      ensures ok ==> Contents() == Split(old(TotalInCopper()) - CopperValue(Coins(g, s, c)))
      ensures ok ==> TotalInCopper() == old(TotalInCopper()) - CopperValue(Coins(g, s, c)) && Normal(Contents())
      ensures !ok ==> Contents() == old(Contents())
    {
      var totalRemove := g * 100 + s * 10 + c;
      if TotalInCopper() < totalRemove {
        return false;
      }
      var total := TotalInCopper() - totalRemove;
      gold := total / 100;
      total := total % 100;
      silver := total / 10;
      copper := total % 10;
      return true;
    }
  }

  // ---------------------------------------------------------------------------
  // The stock of a shop: a list of (item, quantity), items told apart by name

  type Stock = seq<(Entity, int)>

  /** The first entry for a name, as the search loops of the shop find it. */
  function StockOf(inv: Stock, name: string): (r: Option<(Entity, int)>)
    ensures r.None? <==> forall i | 0 <= i < |inv| :: inv[i].0.name != name
    ensures r.Some? ==> r.value in inv && r.value.0.name == name
  {
    if inv == [] then None
    else if inv[0].0.name == name then Some(inv[0])
    else
      assert forall i | 0 < i < |inv| :: inv[i] == inv[1..][i - 1];
      StockOf(inv[1..], name)
  }

  /** How many items of a name the stock holds over all its entries. */
  function Quantity(inv: Stock, name: string): int
  {
    if inv == [] then 0
    else (if inv[0].0.name == name then inv[0].1 else 0) + Quantity(inv[1..], name)
  }

  /** No name has two entries. */
  predicate UniqueNames(inv: Stock)
  {
    forall i, j | 0 <= i < j < |inv| :: inv[i].0.name != inv[j].0.name
  }

  /** `add_item(item, quantity)`: the first entry of the item's name grows, or a
      new entry goes to the end. */
  function StockAdded(inv: Stock, item: Entity, quantity: int): Stock
  {
    if inv == [] then [(item, quantity)]
    else if inv[0].0.name == item.name then [(inv[0].0, inv[0].1 + quantity)] + inv[1..]
    else [inv[0]] + StockAdded(inv[1..], item, quantity)
  }

  /** `remove_item(name, quantity)`: the first entry of the name shrinks, or is
      dropped when it holds no more than the quantity asked. */
  function StockRemoved(inv: Stock, name: string, quantity: int): Stock
  {
    if inv == [] then []
    else if inv[0].0.name == name then
      (if inv[0].1 > quantity then [(inv[0].0, inv[0].1 - quantity)] + inv[1..] else inv[1..])
    else [inv[0]] + StockRemoved(inv[1..], name, quantity)
  }

  /** Adding grows the item's quantity by what is added and leaves every other
      name alone. */
  lemma {:induction false} QuantityAdded(inv: Stock, item: Entity, quantity: int, name: string)
    ensures Quantity(StockAdded(inv, item, quantity), name)
      == Quantity(inv, name) + if name == item.name then quantity else 0
  {
    if inv != [] && inv[0].0.name != item.name {
      QuantityAdded(inv[1..], item, quantity, name);
      assert ([inv[0]] + StockAdded(inv[1..], item, quantity))[1..] == StockAdded(inv[1..], item, quantity);
    } else if inv != [] {
      assert ([(inv[0].0, inv[0].1 + quantity)] + inv[1..])[1..] == inv[1..];
    } else {
      assert [(item, quantity)][1..] == [];
    }
  }

  predicate HasName(inv: Stock, name: string)
  {
    exists j | 0 <= j < |inv| :: inv[j].0.name == name
  }

  lemma HasNameTail(inv: Stock, name: string)
    requires inv != []
    ensures HasName(inv, name) <==> inv[0].0.name == name || HasName(inv[1..], name)
  {
    if HasName(inv[1..], name) {
      var j :| 0 <= j < |inv| - 1 && inv[1..][j].0.name == name;
      assert inv[j + 1].0.name == name;
    }
    if HasName(inv, name) && inv[0].0.name != name {
      var j :| 0 <= j < |inv| && inv[j].0.name == name;
      assert inv[1..][j - 1].0.name == name;
    }
  }

  /** The names of the stock after adding are the old ones and the item's. */
  lemma {:induction false} AddedNames(inv: Stock, item: Entity, quantity: int, name: string)
    ensures HasName(StockAdded(inv, item, quantity), name) <==> name == item.name || HasName(inv, name)
  {
    var r := StockAdded(inv, item, quantity);
    if inv == [] {
      assert r[0].0.name == item.name;
    } else {
      HasNameTail(inv, name);
      HasNameTail(r, name);
      if inv[0].0.name != item.name {
        AddedNames(inv[1..], item, quantity, name);
        assert r[1..] == StockAdded(inv[1..], item, quantity);
      } else {
        assert r[1..] == inv[1..];
      }
    }
  }

  /** Adding merges with an entry of the same name, never duplicating a name:
      the stock grows by one entry exactly when the name was not there. */
  lemma {:induction false} AddedNamesUnique(inv: Stock, item: Entity, quantity: int)
    requires UniqueNames(inv)
    ensures UniqueNames(StockAdded(inv, item, quantity))
    ensures |StockAdded(inv, item, quantity)| == |inv| + if HasName(inv, item.name) then 0 else 1
  {
    if inv != [] {
      HasNameTail(inv, item.name);
      var r := StockAdded(inv, item, quantity);
      forall i | 0 <= i < |inv| - 1 ensures inv[1..][i].0.name != inv[0].0.name {
        assert inv[1..][i] == inv[i + 1];
      }
      if inv[0].0.name != item.name {
        AddedNamesUnique(inv[1..], item, quantity);
        AddedNames(inv[1..], item, quantity, inv[0].0.name);
        var rest := StockAdded(inv[1..], item, quantity);
        assert r == [inv[0]] + rest;
        forall i, j | 0 <= i < j < |r| ensures r[i].0.name != r[j].0.name {
          if i == 0 {
            assert r[j] == rest[j - 1];
          } else {
            assert r[i] == rest[i - 1] && r[j] == rest[j - 1];
          }
        }
      }
    }
  }

  /** Quantity of a name the stock does not hold is zero. */
  lemma {:induction false} QuantityAbsent(inv: Stock, name: string)
    requires !HasName(inv, name)
    ensures Quantity(inv, name) == 0
  {
    if inv != [] {
      HasNameTail(inv, name);
      QuantityAbsent(inv[1..], name);
    }
  }

  /** Removing takes away the quantity asked, or all the first entry holds when
      that is less, and leaves every other name alone. */
  lemma {:induction false} QuantityRemoved(inv: Stock, name: string, quantity: int, other: string)
    ensures Quantity(StockRemoved(inv, name, quantity), other)
      == Quantity(inv, other)
         - if other == name && StockOf(inv, name).Some? then Min(StockOf(inv, name).value.1, quantity) else 0
  {
    if inv != [] {
      if inv[0].0.name == name {
        if inv[0].1 > quantity {
          assert ([(inv[0].0, inv[0].1 - quantity)] + inv[1..])[1..] == inv[1..];
        }
      } else {
        QuantityRemoved(inv[1..], name, quantity, other);
        assert ([inv[0]] + StockRemoved(inv[1..], name, quantity))[1..] == StockRemoved(inv[1..], name, quantity);
      }
    }
  }

  /** Entries of other names ahead of the rest are passed over by `add_item`. */
  lemma {:induction false} AddedAfter(a: Stock, b: Stock, item: Entity, quantity: int)
    requires forall j | 0 <= j < |a| :: a[j].0.name != item.name
    ensures StockAdded(a + b, item, quantity) == a + StockAdded(b, item, quantity)
  {
    if a != [] {
      assert (a + b)[0] == a[0] && (a + b)[1..] == a[1..] + b;
      assert forall j | 0 <= j < |a| - 1 :: a[1..][j] == a[j + 1];
      AddedAfter(a[1..], b, item, quantity);
      assert a == [a[0]] + a[1..];
    } else {
      assert a + b == b;
    }
  }

  /** Entries of other names ahead of the rest are passed over by `remove_item`
      and by the search. */
  lemma {:induction false} RemovedAfter(a: Stock, b: Stock, name: string, quantity: int)
    requires forall j | 0 <= j < |a| :: a[j].0.name != name
    ensures StockRemoved(a + b, name, quantity) == a + StockRemoved(b, name, quantity)
    ensures StockOf(a + b, name) == StockOf(b, name)
  {
    if a != [] {
      assert (a + b)[0] == a[0] && (a + b)[1..] == a[1..] + b;
      assert forall j | 0 <= j < |a| - 1 :: a[1..][j] == a[j + 1];
      RemovedAfter(a[1..], b, name, quantity);
      assert a == [a[0]] + a[1..];
    } else {
      assert a + b == b;
    }
  }

  /** `add_item` at the first entry of the item's name, the `i`-th, or past the
      end when there is none. */
  lemma StockAddedAt(inv: Stock, item: Entity, quantity: int, i: int)
    requires 0 <= i <= |inv| && forall j | 0 <= j < i :: inv[j].0.name != item.name
    requires i < |inv| ==> inv[i].0.name == item.name
    ensures i < |inv| ==>
      StockAdded(inv, item, quantity) == inv[..i] + [(inv[i].0, inv[i].1 + quantity)] + inv[i + 1..]
    ensures i == |inv| ==> StockAdded(inv, item, quantity) == inv + [(item, quantity)]
  {
    assert inv == inv[..i] + inv[i..];
    AddedAfter(inv[..i], inv[i..], item, quantity);
    if i < |inv| {
      assert inv[i..][0] == inv[i] && inv[i..][1..] == inv[i + 1..];
    } else {
      assert inv[i..] == [] && inv[..i] == inv;
    }
  }

  /** `remove_item` at the first entry of the name, the `i`-th, or past the end
      when there is none. */
  lemma StockRemovedAt(inv: Stock, name: string, quantity: int, i: int)
    requires 0 <= i <= |inv| && forall j | 0 <= j < i :: inv[j].0.name != name
    requires i < |inv| ==> inv[i].0.name == name
    ensures i < |inv| ==> StockOf(inv, name) == Some(inv[i])
    ensures i < |inv| && inv[i].1 > quantity ==>
      StockRemoved(inv, name, quantity) == inv[..i] + [(inv[i].0, inv[i].1 - quantity)] + inv[i + 1..]
    ensures i < |inv| && inv[i].1 <= quantity ==> StockRemoved(inv, name, quantity) == inv[..i] + inv[i + 1..]
    ensures i == |inv| ==> StockRemoved(inv, name, quantity) == inv
  {
    assert inv == inv[..i] + inv[i..];
    RemovedAfter(inv[..i], inv[i..], name, quantity);
    if i < |inv| {
      assert inv[i..][0] == inv[i] && inv[i..][1..] == inv[i + 1..];
    } else {
      assert inv[i..] == [] && inv[..i] == inv;
    }
  }

  /** The search loop of `buy_from_shop`, which stops at the first entry of the name. */
  method FindStock(inv: Stock, name: string) returns (found: Option<(Entity, int)>)
    ensures found == StockOf(inv, name)
  {
    var i := 0;
    while i < |inv|
      invariant 0 <= i <= |inv|
      invariant StockOf(inv, name) == StockOf(inv[i..], name)
    {
      if inv[i].0.name == name {
        return Some(inv[i]);
      }
      assert inv[i..][1..] == inv[i + 1..];
      i := i + 1;
    }
    return None;
  }

  function BuyMessage(found: Option<(Entity, int)>, quantity: int, total: int, itemName: string, affordable: bool): string
  {
    if found.None? then "그 물건은 없네."
    else if found.value.1 < quantity then "재고가 부족하네. (" + IntToString(found.value.1) + "개 남음)"
    else if !affordable then "돈이 부족하네. (" + IntToString(total) + "G 필요)"
    else itemName + "을(를) " + IntToString(total) + "G에 구매했다."
  }

  class Shop {
    const name: string
    var inventory: Stock
    var gold: int

    /** `Shop(name)`: an empty stock and 500 gold. */
    constructor(name: string)
      ensures this.name == name && inventory == [] && gold == 500
    {
      this.name := name;
      inventory := [];
      gold := 500;
    }

    /** `add_item(item, quantity)`. */
    method AddItem(item: Entity, quantity: int)
      modifies this`inventory
      ensures inventory == StockAdded(old(inventory), item, quantity)
    {
      var i := 0;
      while i < |inventory|
        invariant 0 <= i <= |inventory| && inventory == old(inventory)
        invariant forall j | 0 <= j < i :: inventory[j].0.name != item.name
      {
        var (existing, qty) := inventory[i];
        if existing.name == item.name {
          StockAddedAt(inventory, item, quantity, i);
          inventory := inventory[..i] + [(existing, qty + quantity)] + inventory[i + 1..];
          return;
        }
        i := i + 1;
      }
      StockAddedAt(inventory, item, quantity, i);
      inventory := inventory + [(item, quantity)];
    }

    /** `remove_item(item_name, quantity)`: the item of the first entry of that
        name, or null when there is none. */
    method RemoveItem(itemName: string, quantity: int) returns (item: Entity?)
      modifies this`inventory
      ensures inventory == StockRemoved(old(inventory), itemName, quantity)
      ensures item == if StockOf(old(inventory), itemName).Some? then StockOf(old(inventory), itemName).value.0 else null
    {
      var i := 0;
      while i < |inventory|
        invariant 0 <= i <= |inventory| && inventory == old(inventory)
        invariant forall j | 0 <= j < i :: inventory[j].0.name != itemName
      {
        var (entry, qty) := inventory[i];
        if entry.name == itemName {
          StockRemovedAt(inventory, itemName, quantity, i);
          if qty > quantity {
            inventory := inventory[..i] + [(entry, qty - quantity)] + inventory[i + 1..];
          } else {
            inventory := inventory[..i] + inventory[i + 1..];
          }
          return entry;
        }
        i := i + 1;
      }
      StockRemovedAt(inventory, itemName, quantity, i);
      return null;
    }

    /** `buy_from_shop(item_name, wallet, quantity)` at `unitPrice` gold apiece:
        refused, with nothing changed, when the item is missing, the stock is
        short or the buyer cannot pay; otherwise the price passes from the
        wallet to the shop and the stock shrinks. */
    method BuyFromShop(itemName: string, wallet: Wallet, quantity: int, unitPrice: int)
      returns (success: bool, message: string, item: Entity?)
      modifies this`inventory, this`gold, wallet
      ensures var found := StockOf(old(inventory), itemName);
        var total := unitPrice * quantity;
        var affordable := old(wallet.CanAfford(total, 0, 0));
        && success == (found.Some? && found.value.1 >= quantity && affordable)
        && message == BuyMessage(found, quantity, total, itemName, affordable)
        && (success ==>
              && wallet.Contents() == Split(old(wallet.TotalInCopper()) - total * 100)
              && gold == old(gold) + total
              && inventory == StockRemoved(old(inventory), itemName, quantity)
              && item == found.value.0)
        && (!success ==>
              && wallet.Contents() == old(wallet.Contents())
              && gold == old(gold) && inventory == old(inventory) && item == null)
      ensures wallet.TotalInCopper() + 100 * gold == old(wallet.TotalInCopper()) + 100 * old(gold)
    {
      var found := FindStock(inventory, itemName);
      var total := unitPrice * quantity;
      var affordable := wallet.CanAfford(total, 0, 0);
      message := BuyMessage(found, quantity, total, itemName, affordable);
      if found.None? || found.value.1 < quantity || !affordable {
        return false, message, null;
      }
      var paid := wallet.Remove(total, 0, 0);
      gold := gold + total;
      item := RemoveItem(itemName, quantity);
      success := true;
    }

    /** `sell_to_shop(item, wallet, quantity)` at `unitPrice` gold apiece:
        refused, with nothing changed, when the shop has less gold than the
        price; otherwise the price passes from the shop to the wallet and the
        item joins the stock. */
    method SellToShop(item: Entity, wallet: Wallet, quantity: int, unitPrice: int)
      returns (success: bool, message: string)
      modifies this`inventory, this`gold, wallet
      ensures var total := unitPrice * quantity;
        && success == (old(gold) >= total)
        && (success ==>
              && wallet.Contents() == Split(old(wallet.TotalInCopper()) + total * 100)
              && gold == old(gold) - total
              && inventory == StockAdded(old(inventory), item, quantity)
              && message == item.name + "을(를) " + IntToString(total) + "G에 판매했다.")
        && (!success ==>
              && wallet.Contents() == old(wallet.Contents())
              && gold == old(gold) && inventory == old(inventory)
              && message == "상점에 돈이 부족하군.")
      ensures wallet.TotalInCopper() + 100 * gold == old(wallet.TotalInCopper()) + 100 * old(gold)
    {
      var total := unitPrice * quantity;
      if gold < total {
        return false, "상점에 돈이 부족하군.";
      }
      wallet.Add(total, 0, 0);
      gold := gold - total;
      AddItem(item, quantity);
      return true, item.name + "을(를) " + IntToString(total) + "G에 판매했다.";
    }
  }

  // ---------------------------------------------------------------------------
  // The end of a trading session

  /** `(item name, quantity, price)`, one per purchase or sale. */
  type Trade = (string, int, int)

  /** `sum(price for _, _, price in trades)`. */
  function PriceTotal(trades: seq<Trade>): int
  {
    if trades == [] then 0 else trades[0].2 + PriceTotal(trades[1..])
  }

  /** Trades at non-negative prices add up to a non-negative total, which is
      zero only when every price is. */
  lemma {:induction false} PriceTotalZero(trades: seq<Trade>)
    requires forall i | 0 <= i < |trades| :: trades[i].2 >= 0
    ensures PriceTotal(trades) >= 0
    ensures PriceTotal(trades) == 0 <==> forall i | 0 <= i < |trades| :: trades[i].2 == 0
  {
    if trades != [] {
      assert forall i | 0 <= i < |trades| - 1 :: trades[1..][i] == trades[i + 1];
      PriceTotalZero(trades[1..]);
      if PriceTotal(trades) == 0 {
        forall i | 0 <= i < |trades| ensures trades[i].2 == 0 {
          if i > 0 { assert trades[1..][i - 1] == trades[i]; }
        }
      }
    }
  }

  const NoTradeMessage := "거래 없이 종료했다."

  /** The closing message of `end_session` for the amounts spent and earned. */
  function SessionSummary(spent: int, earned: int): (r: string)
  {
    if spent == 0 && earned == 0 then NoTradeMessage
    else
      var parts := (if spent > 0 then ["구매: " + IntToString(spent) + "G"] else [])
                   + (if earned > 0 then ["판매: " + IntToString(earned) + "G"] else []);
      "거래 완료. " + Join(parts, ", ")
  }

  /** The session ends without trade exactly when nothing was spent or earned. */
  lemma NoTradeExactly(spent: int, earned: int)
    ensures SessionSummary(spent, earned) == NoTradeMessage <==> spent == 0 && earned == 0
  {
    if spent != 0 || earned != 0 {
      var r := SessionSummary(spent, earned);
      assert r[3] == '완' && NoTradeMessage[3] == '없';
    }
  }

  class TradeSession {
    var isActive: bool
    var purchases: seq<Trade>
    var sales: seq<Trade>

    constructor()
      ensures isActive && purchases == [] && sales == []
    {
      isActive := true;
      purchases := [];
      sales := [];
    }

    /** `end_session()`. */
    method EndSession() returns (message: string)
      modifies this`isActive
      ensures !isActive
      ensures message == SessionSummary(PriceTotal(purchases), PriceTotal(sales))
    {
      isActive := false;
      var totalSpent := PriceTotal(purchases);
      var totalEarned := PriceTotal(sales);
      message := SessionSummary(totalSpent, totalEarned);
    }
  }
}
