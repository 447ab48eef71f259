/**
 * The arsenal: buying rockets or defense systems by burning tokens, then recording the
 * new count for the player.
 */
module ArsenalPage {
  import opened Wrappers
  import opened GameTypes

  datatype Item = Rockets | DefenseSystems

  /**
   * A quantity typed into the field: `Math.max(1, parseInt(text) || 1)`.  `parsed` is
   * what `parseInt` returns, `None` for NaN.
   */
  function TypedQuantity(parsed: Option<int>): (q: int)
    ensures q >= 1
    ensures parsed.Some? && parsed.value >= 1 ==> q == parsed.value
    ensures parsed.None? || parsed.value < 1 ==> q == 1
  {
    var v := if parsed.None? || parsed.value == 0 then 1 else parsed.value;
    if v > 1 then v else 1
  }

  /** The total price of a purchase. */
  function TotalCost(unitPrice: nat, quantity: int): int {
    unitPrice * quantity
  }

  /** The purchase button is disabled while that item is being bought or when the balance is too low. */
  predicate PurchaseDisabled(purchasing: Option<Item>, item: Item, tokenBalance: int, unitPrice: nat, quantity: int) {
    purchasing == Some(item) || tokenBalance < TotalCost(unitPrice, quantity)
  }

  /** The equipment after a purchase: only the bought item's count grows, by the quantity. */
  function AfterPurchase(e: PlayerEquipment, item: Item, quantity: int): (r: PlayerEquipment)
    ensures r.id == e.id && r.playerId == e.playerId && r.defenseCharges == e.defenseCharges
    ensures item == Rockets ==> r.rockets == e.rockets + quantity && r.defenseSystems == e.defenseSystems
    ensures item == DefenseSystems ==> r.defenseSystems == e.defenseSystems + quantity && r.rockets == e.rockets
  {
    match item
    case Rockets => e.(rockets := e.rockets + quantity)
    case DefenseSystems => e.(defenseSystems := e.defenseSystems + quantity)
  }

  /**
   * How far the asynchronous purchase gets: which awaited step throws, if any.  The
   * steps run in this order: build the burn transaction, send it, confirm it, write the
   * new count, refresh the player data.
   */
  datatype PurchaseOutcome = BuildFails | SendFails | ConfirmFails | WriteFails | RefreshFails | Completes

  /** The steps after the burn is confirmed, so the new count is written. */
  predicate ReachesWrite(o: PurchaseOutcome) {
    o == WriteFails || o == RefreshFails || o == Completes
  }

  /** The arsenal's quantity and progress state. */
  class ArsenalState {
    var rocketQuantity: int
    var defenseQuantity: int
    var purchasing: Option<Item>

    predicate Valid()
      reads this
    {
      rocketQuantity >= 1 && defenseQuantity >= 1
    }

    function Quantity(item: Item): int
      reads this
    {
      match item
      case Rockets => rocketQuantity
      case DefenseSystems => defenseQuantity
    }

    constructor ()
      ensures Valid() && rocketQuantity == 1 && defenseQuantity == 1 && purchasing.None?
    {
      rocketQuantity := 1;
      defenseQuantity := 1;
      purchasing := None;
    }

    /** Sets the quantity of one item and leaves the other alone. */
    method SetQuantity(item: Item, q: int)
      requires q >= 1
      modifies this
      ensures Quantity(item) == q
      ensures item == Rockets ==> defenseQuantity == old(defenseQuantity)
      ensures item == DefenseSystems ==> rocketQuantity == old(rocketQuantity)
      ensures purchasing == old(purchasing)
    {
      match item
      case Rockets => rocketQuantity := q;
      case DefenseSystems => defenseQuantity := q;
    }

    /** The minus button: one less, but never below 1. */
    method Decrement(item: Item)
      requires Valid()
      modifies this
      ensures Valid()
      ensures Quantity(item) == if old(Quantity(item)) > 1 then old(Quantity(item)) - 1 else 1
      ensures item == Rockets ==> defenseQuantity == old(defenseQuantity)
      ensures item == DefenseSystems ==> rocketQuantity == old(rocketQuantity)
      ensures purchasing == old(purchasing)
    {
      var q := Quantity(item) - 1;
      SetQuantity(item, if q > 1 then q else 1);
    }

    /** The plus button. */
    method Increment(item: Item)
      requires Valid()
      modifies this
      ensures Valid()
      ensures Quantity(item) == old(Quantity(item)) + 1
      ensures item == Rockets ==> defenseQuantity == old(defenseQuantity)
      ensures item == DefenseSystems ==> rocketQuantity == old(rocketQuantity)
      ensures purchasing == old(purchasing)
    {
      SetQuantity(item, Quantity(item) + 1);
    }

    /** Typing into the quantity field. */
    method Type(item: Item, parsed: Option<int>)
      requires Valid()
      modifies this
      ensures Valid()
      ensures Quantity(item) == TypedQuantity(parsed)
      ensures item == Rockets ==> defenseQuantity == old(defenseQuantity)
      ensures item == DefenseSystems ==> rocketQuantity == old(rocketQuantity)
      ensures purchasing == old(purchasing)
    {
      SetQuantity(item, TypedQuantity(parsed));
    }

    /**
     * `handlePurchaseRockets` / `handlePurchaseDefense`.  Returns the burn amount the
     * handler requests once its guards pass (whether or not the transaction is then
     * built), the equipment record written (if the burn was confirmed) and whether
     * `purchasing` named the item while the steps ran.  The button's `disabled` rule
     * repeats the handler's balance guard, so a click on an enabled button by a loaded
     * player with a wallet always requests the burn.
     */
    method HandlePurchase(item: Item, hasPlayer: bool, equipment: Option<PlayerEquipment>, hasPublicKey: bool,
                          tokenBalance: int, unitPrice: nat, outcome: PurchaseOutcome)
      returns (burnAmount: Option<int>, written: Option<PlayerEquipment>, busyDuringCall: bool)
      requires Valid()
      modifies this
      ensures Valid()
      ensures var cost := TotalCost(unitPrice, old(Quantity(item)));
        var attempted := hasPlayer && equipment.Some? && hasPublicKey && tokenBalance >= cost;
        && (!attempted ==> burnAmount.None? && written.None? && !busyDuringCall && unchanged(this))
        && (attempted ==> burnAmount == Some(cost) && busyDuringCall && purchasing.None?)
        && (attempted && ReachesWrite(outcome) ==>
              written == Some(AfterPurchase(equipment.value, item, old(Quantity(item)))))
        && (attempted && !ReachesWrite(outcome) ==> written.None?)
      ensures old(purchasing) != Some(item) ==>
        (burnAmount.Some? <==> hasPlayer && equipment.Some? && hasPublicKey
                               && !PurchaseDisabled(old(purchasing), item, tokenBalance, unitPrice, old(Quantity(item))))
      ensures old(Valid()) && (burnAmount.Some? && outcome == Completes) ==> Quantity(item) == 1
      ensures !(burnAmount.Some? && outcome == Completes) ==> Quantity(item) == old(Quantity(item))
      ensures item == Rockets ==> defenseQuantity == old(defenseQuantity)
      ensures item == DefenseSystems ==> rocketQuantity == old(rocketQuantity)
    {
      burnAmount, written, busyDuringCall := None, None, false;
      if !hasPlayer || equipment.None? || !hasPublicKey {
        return;
      }
      var totalCost := TotalCost(unitPrice, Quantity(item));
      if tokenBalance < totalCost {
        return;
      }
      purchasing := Some(item);
      busyDuringCall := purchasing == Some(item);
      burnAmount := Some(totalCost);
      if ReachesWrite(outcome) {
        written := Some(AfterPurchase(equipment.value, item, Quantity(item)));
      }
      if outcome == Completes {
        SetQuantity(item, 1);
      }
      purchasing := None;
    }
  }
}
