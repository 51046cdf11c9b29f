/** The already-parsed recipe input and the graph records the extractor builds. */
module RecipeModel {
  import opened Wrappers

  /** One entry of an operation's `ingredients` or `products` list. The three
      quantity fields are optional, as the keys `amount`, `amount_min` and
      `amount_max` may each be absent. */
  datatype Item = Item(name: string, amount: Option<real>, amountMin: Option<real>, amountMax: Option<real>)

  /** One operation record. A list whose key is absent is `None`. The mapping
      key under which the operation is stored is not used by the extractor
      and is not kept. */
  datatype Operation = Operation(name: string, ingredients: Option<seq<Item>>, products: Option<seq<Item>>)

  /** Which of the two lists an item comes from. */
  datatype Role = AsIngredient | AsProduct

  /** The `type` field of a node record. */
  datatype NodeType = OperationType | IngredientType | ProductType

  /** A node record `{id, type}`. */
  datatype Node = Node(id: string, nodeType: NodeType)

  /** A link record `{source, target, value}`. */
  datatype Link = Link(source: string, target: string, value: real)

  /** The pair `(nodes, links)` the extractor returns. */
  datatype Graph = Graph(nodes: seq<Node>, links: seq<Link>)

  /** The abort on an item without usable quantity data: the operation's name,
      the list the item is in, and the item itself. */
  datatype MissingQuantity = MissingQuantity(operation: string, role: Role, item: Item)

  /** `operation.get('ingredients', [])` and `operation.get('products', [])`. */
  function ItemsOf(op: Operation, role: Role): seq<Item> {
    match role
    case AsIngredient => op.ingredients.GetOr([])
    case AsProduct => op.products.GetOr([])
  }

  /** The node type given to a newly seen item name. */
  function TypeOf(role: Role): NodeType {
    match role
    case AsIngredient => IngredientType
    case AsProduct => ProductType
  }

  /** The edge an item contributes: ingredient -> operation, or operation -> product. */
  function LinkFor(opName: string, role: Role, itemName: string, amount: real): Link {
    match role
    case AsIngredient => Link(itemName, opName, amount)
    case AsProduct => Link(opName, itemName, amount)
  }

  /** An item carries usable quantity data: a fixed amount, or both range bounds. */
  predicate HasQuantity(item: Item) {
    item.amount.Some? || (item.amountMin.Some? && item.amountMax.Some?)
  }

  /** The quantity rule. A fixed amount wins whenever it is present; otherwise
      the midpoint of the range; otherwise there is no quantity. Rounding of
      the midpoint to a float is not modelled. */
  function ResolveAmount(item: Item): (r: Option<real>)
    ensures r.Some? <==> HasQuantity(item)
    ensures item.amount.Some? ==> r == item.amount
    ensures item.amount.None? && r.Some? ==>
              r.value - item.amountMin.value == item.amountMax.value - r.value
  {
    if item.amount.Some? then item.amount
    else if item.amountMin.Some? && item.amountMax.Some? then
      Some((item.amountMin.value + item.amountMax.value) / 2.0)
    else None
  }
}
