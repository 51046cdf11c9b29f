/** The extractor as a function: a left fold over the operations in the
    mapping's iteration order, each step appending to the nodes and links
    built so far. Also the independent reference definitions the lemmas in
    GraphProperties compare it with. */
module GraphSpec {
  import opened Wrappers
  import opened RecipeModel

  /** Some node already carries this id (the `any(node['id'] == name ...)` scan). */
  predicate HasId(nodes: seq<Node>, id: string) {
    exists i | 0 <= i < |nodes| :: nodes[i].id == id
  }

  /** Operation nodes are appended unless an equal RECORD is already present. */
  function WithOperationNode(nodes: seq<Node>, name: string): seq<Node> {
    var n := Node(name, OperationType);
    if n in nodes then nodes else nodes + [n]
  }

  /** Ingredient and product nodes are appended unless a node with that ID is present. */
  function WithItemNode(nodes: seq<Node>, name: string, t: NodeType): seq<Node> {
    if HasId(nodes, name) then nodes else nodes + [Node(name, t)]
  }

  /** One ingredient or product: its node first, then its quantity, then its link. */
  function AddItem(g: Graph, opName: string, role: Role, item: Item): Result<Graph, MissingQuantity> {
    var nodes := WithItemNode(g.nodes, item.name, TypeOf(role));
    match ResolveAmount(item)
    case None => Err(MissingQuantity(opName, role, item))
    case Some(amount) => Ok(Graph(nodes, g.links + [LinkFor(opName, role, item.name, amount)]))
  }

  /** The items of one list, in order; the first missing quantity aborts. */
  function AddItems(g: Graph, opName: string, role: Role, items: seq<Item>): Result<Graph, MissingQuantity>
    decreases |items|
  {
    if items == [] then Ok(g)
    else
      match AddItem(g, opName, role, items[0])
      case Err(e) => Err(e)
      case Ok(g') => AddItems(g', opName, role, items[1..])
  }

  /** One operation: its node, then its ingredients, then its products. */
  function AddOperation(g: Graph, op: Operation): Result<Graph, MissingQuantity> {
    var g1 := Graph(WithOperationNode(g.nodes, op.name), g.links);
    match AddItems(g1, op.name, AsIngredient, ItemsOf(op, AsIngredient))
    case Err(e) => Err(e)
    case Ok(g2) => AddItems(g2, op.name, AsProduct, ItemsOf(op, AsProduct))
  }

  /** The operations from `g` on, in order. */
  function ExtractFrom(g: Graph, recipe: seq<Operation>): Result<Graph, MissingQuantity>
    decreases |recipe|
  {
    if recipe == [] then Ok(g)
    else
      match AddOperation(g, recipe[0])
      case Err(e) => Err(e)
      case Ok(g') => ExtractFrom(g', recipe[1..])
  }

  /** The whole extraction, starting from empty `nodes` and `links`. */
  function Extract(recipe: seq<Operation>): Result<Graph, MissingQuantity> {
    ExtractFrom(Graph([], []), recipe)
  }

  // ---------------------------------------------------------------------
  // Reference definitions

  /** Every item of the list has usable quantity data. */
  predicate AllQuantified(items: seq<Item>) {
    forall i | 0 <= i < |items| :: HasQuantity(items[i])
  }

  predicate OperationQuantified(op: Operation) {
    AllQuantified(ItemsOf(op, AsIngredient)) && AllQuantified(ItemsOf(op, AsProduct))
  }

  predicate RecipeQuantified(recipe: seq<Operation>) {
    forall k | 0 <= k < |recipe| :: OperationQuantified(recipe[k])
  }

  /** One link per item, in list order, weighted by the resolved quantity. */
  function ItemLinks(opName: string, role: Role, items: seq<Item>): seq<Link>
    requires AllQuantified(items)
    decreases |items|
  {
    if items == [] then []
    else [LinkFor(opName, role, items[0].name, ResolveAmount(items[0]).value)]
         + ItemLinks(opName, role, items[1..])
  }

  function OperationLinks(op: Operation): seq<Link>
    requires OperationQuantified(op)
  {
    ItemLinks(op.name, AsIngredient, ItemsOf(op, AsIngredient))
    + ItemLinks(op.name, AsProduct, ItemsOf(op, AsProduct))
  }

  function RecipeLinks(recipe: seq<Operation>): seq<Link>
    requires RecipeQuantified(recipe)
    decreases |recipe|
  {
    if recipe == [] then []
    else OperationLinks(recipe[0]) + RecipeLinks(recipe[1..])
  }

  /** The number of ingredient and product entries across all operations. */
  function ItemCount(recipe: seq<Operation>): nat
    decreases |recipe|
  {
    if recipe == [] then 0
    else |ItemsOf(recipe[0], AsIngredient)| + |ItemsOf(recipe[0], AsProduct)| + ItemCount(recipe[1..])
  }

  function NamesOf(items: seq<Item>): set<string> {
    set i | 0 <= i < |items| :: items[i].name
  }

  /** The node's id and type come from this operation: its own name for an
      operation node, an ingredient's or a product's name otherwise. */
  predicate MentionedBy(n: Node, op: Operation) {
    match n.nodeType
    case OperationType => n.id == op.name
    case IngredientType => n.id in NamesOf(ItemsOf(op, AsIngredient))
    case ProductType => n.id in NamesOf(ItemsOf(op, AsProduct))
  }

  /** The nodes hold the operation's own record and an id for each of its items. */
  predicate Covers(nodes: seq<Node>, op: Operation) {
    && Node(op.name, OperationType) in nodes
    && (forall x | x in NamesOf(ItemsOf(op, AsIngredient)) :: HasId(nodes, x))
    && (forall x | x in NamesOf(ItemsOf(op, AsProduct)) :: HasId(nodes, x))
  }

  /** No node record occurs twice. */
  predicate UniqueRecords(nodes: seq<Node>) {
    forall i, j | 0 <= i < j < |nodes| :: nodes[i] != nodes[j]
  }

  /** An ingredient or product node never repeats the id of an earlier node. */
  predicate ItemIdsFirstSeen(nodes: seq<Node>) {
    forall i, j | 0 <= i < j < |nodes| && nodes[j].nodeType != OperationType :: nodes[i].id != nodes[j].id
  }

  /** Both ends of every link name some node. */
  predicate LinksClosed(g: Graph) {
    forall l | l in g.links :: HasId(g.nodes, l.source) && HasId(g.nodes, l.target)
  }

  predicate WellFormed(g: Graph) {
    UniqueRecords(g.nodes) && ItemIdsFirstSeen(g.nodes) && LinksClosed(g)
  }

  /** The error names an item lacking quantity data, and every item before it
      in its list has some. */
  predicate FirstMissing(items: seq<Item>, item: Item) {
    exists i | 0 <= i < |items| :: items[i] == item && !HasQuantity(item) && AllQuantified(items[..i])
  }

  /** The error is the first missing quantity of this operation: ingredients
      are processed before products. */
  predicate OperationFirstMissing(op: Operation, e: MissingQuantity) {
    && e.operation == op.name
    && match e.role
       case AsIngredient => FirstMissing(ItemsOf(op, AsIngredient), e.item)
       case AsProduct => AllQuantified(ItemsOf(op, AsIngredient)) && FirstMissing(ItemsOf(op, AsProduct), e.item)
  }

  /** The error is the first missing quantity of the recipe, in iteration order. */
  predicate RecipeFirstMissing(recipe: seq<Operation>, e: MissingQuantity) {
    exists k | 0 <= k < |recipe| :: RecipeQuantified(recipe[..k]) && OperationFirstMissing(recipe[k], e)
  }
}
