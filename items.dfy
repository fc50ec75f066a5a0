/** An object the player can carry (item.py). */
module Items {

  /** `weight` is in whole kilograms; `name` is the key the object is filed under. */
  datatype Item = Item(name: string, description: string, weight: int)

  /** Total weight of a list of items. */
  function Load(items: seq<Item>): int {
    if items == [] then 0 else Load(items[..|items| - 1]) + items[|items| - 1].weight
  }
}
