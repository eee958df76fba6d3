/**
 * The damage-class item filter of Content/Filters/ItemFilters/DamageClassFilter.cs. A filter's
 * predicate answers "exclude?": true hides a button of the item browser, false keeps it.
 *
 * The engine's `DamageClass.CountsAsClass` and `DamageClass.DisplayName` are not visible here;
 * they are the parameters `countsAsClass(damageType, damageClass)` and `displayName(damageClass)`.
 */
module ItemFilters {

  /** The two fields of an item that the filter reads. */
  datatype Item<DC> = Item(damage: int, damageType: DC)

  /** A button of the browser: an item button, or a button for any other kind of entry. */
  datatype BrowserButton<DC> = ItemButton(item: Item<DC>) | OtherButton

  /** Default deny: keep only item buttons that deal damage and whose damage type counts as the class. */
  function FilterByDamageClass<DC>(button: BrowserButton<DC>, damageClass: DC, countsAsClass: (DC, DC) -> bool): (exclude: bool)
    ensures button.OtherButton? ==> exclude
    ensures button.ItemButton? && button.item.damage <= 0 ==> exclude
    ensures button.ItemButton? && button.item.damage > 0 && countsAsClass(button.item.damageType, damageClass) ==> !exclude
    ensures button.ItemButton? && !countsAsClass(button.item.damageType, damageClass) ==> exclude
  {
    match button
    case ItemButton(item) =>
      if item.damage > 0 && countsAsClass(item.damageType, damageClass) then false else true
    case OtherButton => true
  }

  /**
   * An independent statement of what the filter keeps: a button is kept exactly when it is the
   * button of some damaging item whose type counts as the class.
   */
  lemma KeptExactlyDamagingMembers<DC>(button: BrowserButton<DC>, damageClass: DC, countsAsClass: (DC, DC) -> bool)
    ensures !FilterByDamageClass(button, damageClass, countsAsClass)
      <==> exists damage: int, damageType: DC ::
             button == ItemButton(Item(damage, damageType)) && damage > 0 && countsAsClass(damageType, damageClass)
  {
    if !FilterByDamageClass(button, damageClass, countsAsClass) {
      assert button == ItemButton(Item(button.item.damage, button.item.damageType));
    }
  }

  /**
   * Class matching goes through the relation, not identity: an item of another damage type that
   * counts as the class is kept, and one of the class itself is excluded unless it counts as it.
   */
  lemma MatchIsByRelation<DC>(damage: int, damageType: DC, damageClass: DC, countsAsClass: (DC, DC) -> bool)
    requires damage > 0
    ensures !FilterByDamageClass(ItemButton(Item(damage, damageType)), damageClass, countsAsClass)
      == countsAsClass(damageType, damageClass)
  {
  }

  /**
   * When the relation is transitive, a filter for a class keeps everything that a filter for any
   * class counting as it keeps.
   */
  lemma BroaderClassKeepsMore<DC>(narrow: DC, broad: DC, countsAsClass: (DC, DC) -> bool, button: BrowserButton<DC>)
    requires forall x, y, z :: countsAsClass(x, y) && countsAsClass(y, z) ==> countsAsClass(x, z)
    requires countsAsClass(narrow, broad)
    requires !FilterByDamageClass(button, narrow, countsAsClass)
    ensures !FilterByDamageClass(button, broad, countsAsClass)
  {
  }

  /**
   * A damage-class filter as its constructor builds it: the display fields, the predicate handed
   * to the base `Filter`, and the stored `damageClass`.
   */
  class DamageClassFilter<DC> {
    const texture: string
    const name: string
    const description: string
    /** The predicate handed to the base filter; true means exclude. */
    const shouldExclude: BrowserButton<DC> -> bool
    var damageClass: DC

    constructor (damageClass: DC, texture: string, displayName: DC -> string, countsAsClass: (DC, DC) -> bool)
      ensures this.damageClass == damageClass && this.texture == texture
      ensures name == displayName(damageClass) && description == "Items with " + displayName(damageClass)
      ensures forall button :: shouldExclude(button) == FilterByDamageClass(button, this.damageClass, countsAsClass)
    {
      this.texture := texture;
      name := displayName(damageClass);
      description := "Items with " + displayName(damageClass);
      shouldExclude := button => FilterByDamageClass(button, damageClass, countsAsClass);
      this.damageClass := damageClass;
    }
  }

  /** With amount 10 an item of the target class is kept; with amount 0 it is excluded. */
  lemma PositiveAmountDecides<DC>(target: DC, countsAsClass: (DC, DC) -> bool)
    requires countsAsClass(target, target)
    ensures !FilterByDamageClass(ItemButton(Item(10, target)), target, countsAsClass)
    ensures FilterByDamageClass(ItemButton(Item(0, target)), target, countsAsClass)
  {
  }
}
