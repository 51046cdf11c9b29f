/** The extractor as the program runs it: `nodes` and `links` are lists that
    grow by appending inside nested loops, guarded by linear membership scans.
    Each method is proved to compute what GraphSpec defines. */
module Extractor {
  import opened Wrappers
  import opened RecipeModel
  import opened GraphSpec

  /** `record in nodes`: a scan for an equal record. */
  method ContainsNode(nodes: seq<Node>, n: Node) returns (found: bool)
    ensures found <==> n in nodes
  {
    for i := 0 to |nodes|
      invariant forall j | 0 <= j < i :: nodes[j] != n
    {
      if nodes[i] == n {
        return true;
      }
    }
    return false;
  }

  /** `any(node['id'] == id for node in nodes)`: a scan that stops at the first match. */
  method AnyHasId(nodes: seq<Node>, id: string) returns (found: bool)
    ensures found <==> HasId(nodes, id)
  {
    for i := 0 to |nodes|
      invariant forall j | 0 <= j < i :: nodes[j].id != id
    {
      if nodes[i].id == id {
        return true;
      }
    }
    return false;
  }

  /** The loop over one operation's ingredients (or products): for each item,
      add its node if its id is new, resolve its quantity, append its link;
      abort with the operation and item on a missing quantity. */
  method ProcessItems(nodes0: seq<Node>, links0: seq<Link>, opName: string, role: Role, items: seq<Item>)
    returns (r: Result<Graph, MissingQuantity>)
    ensures r == AddItems(Graph(nodes0, links0), opName, role, items)
  {
    var nodes, links := nodes0, links0;
    for j := 0 to |items|
      invariant AddItems(Graph(nodes, links), opName, role, items[j..])
                == AddItems(Graph(nodes0, links0), opName, role, items)
    {
      var item := items[j];
      assert items[j..][0] == item && items[j..][1..] == items[j + 1..];
      var seen := AnyHasId(nodes, item.name);
      if !seen {
        nodes := nodes + [Node(item.name, TypeOf(role))];
      }
      var amount := ResolveAmount(item);
      if amount.None? {
        return Err(MissingQuantity(opName, role, item));
      }
      links := links + [LinkFor(opName, role, item.name, amount.value)];
    }
    assert items[|items|..] == [];
    return Ok(Graph(nodes, links));
  }

  /** The whole loop over the recipe's operations, in iteration order. */
  method ExtractData(recipe: seq<Operation>) returns (r: Result<Graph, MissingQuantity>)
    ensures r == Extract(recipe)
  {
    var nodes: seq<Node> := [];
    var links: seq<Link> := [];
    for k := 0 to |recipe|
      invariant ExtractFrom(Graph(nodes, links), recipe[k..]) == Extract(recipe)
    {
      var op := recipe[k];
      assert recipe[k..][0] == op && recipe[k..][1..] == recipe[k + 1..];
      var opNode := Node(op.name, OperationType);
      var present := ContainsNode(nodes, opNode);
      if !present {
        nodes := nodes + [opNode];
      }
      var afterIngredients := ProcessItems(nodes, links, op.name, AsIngredient, ItemsOf(op, AsIngredient));
      if afterIngredients.Err? {
        return Err(afterIngredients.error);
      }
      var afterProducts := ProcessItems(afterIngredients.value.nodes, afterIngredients.value.links,
                                        op.name, AsProduct, ItemsOf(op, AsProduct));
      if afterProducts.Err? {
        return Err(afterProducts.error);
      }
      nodes, links := afterProducts.value.nodes, afterProducts.value.links;
    }
    assert recipe[|recipe|..] == [];
    return Ok(Graph(nodes, links));
  }
}
