/** What the extractor promises, proved about the functional definition in
    GraphSpec: success exactly when every item has quantity data, one link per
    item, the first missing quantity reported, append-only growth, and the
    shape of the node list (including the operation-node quirk). */
module GraphProperties {
  import opened Wrappers
  import opened RecipeModel
  import opened GraphSpec

  // ---------------------------------------------------------------------
  // Small facts about sequences of items and nodes

  lemma AllQuantifiedTail(items: seq<Item>)
    requires items != []
    ensures AllQuantified(items) <==> HasQuantity(items[0]) && AllQuantified(items[1..])
  {
    if HasQuantity(items[0]) && AllQuantified(items[1..]) {
      forall i | 0 <= i < |items| ensures HasQuantity(items[i]) {
        if i > 0 { assert items[i] == items[1..][i - 1]; }
      }
    }
  }

  lemma RecipeQuantifiedTail(recipe: seq<Operation>)
    requires recipe != []
    ensures RecipeQuantified(recipe) <==> OperationQuantified(recipe[0]) && RecipeQuantified(recipe[1..])
  {
    if OperationQuantified(recipe[0]) && RecipeQuantified(recipe[1..]) {
      forall k | 0 <= k < |recipe| ensures OperationQuantified(recipe[k]) {
        if k > 0 { assert recipe[k] == recipe[1..][k - 1]; }
      }
    }
  }

  lemma NamesOfTail(items: seq<Item>)
    requires items != []
    ensures NamesOf(items) == {items[0].name} + NamesOf(items[1..])
  {
    forall x | x in NamesOf(items) ensures x == items[0].name || x in NamesOf(items[1..]) {
      var i :| 0 <= i < |items| && items[i].name == x;
      if i > 0 { assert items[1..][i - 1].name == x; }
    }
    forall x | x in NamesOf(items[1..]) ensures x in NamesOf(items) {
      var i :| 0 <= i < |items[1..]| && items[1..][i].name == x;
      assert items[i + 1].name == x;
    }
    assert items[0].name in NamesOf(items) by { assert 0 <= 0 < |items|; }
  }

  lemma HasIdExtends(a: seq<Node>, b: seq<Node>, x: string)
    requires a <= b && HasId(a, x)
    ensures HasId(b, x)
  {
    var i :| 0 <= i < |a| && a[i].id == x;
    assert b[i] == a[i];
  }

  lemma CoversExtends(a: seq<Node>, b: seq<Node>, op: Operation)
    requires a <= b && Covers(a, op)
    ensures Covers(b, op)
  {
    var i :| 0 <= i < |a| && a[i] == Node(op.name, OperationType);
    assert b[i] == a[i];
    forall x | x in NamesOf(ItemsOf(op, AsIngredient)) ensures HasId(b, x) { HasIdExtends(a, b, x); }
    forall x | x in NamesOf(ItemsOf(op, AsProduct)) ensures HasId(b, x) { HasIdExtends(a, b, x); }
  }

  lemma LinksClosedExtends(g: Graph, nodes: seq<Node>)
    requires LinksClosed(g) && g.nodes <= nodes
    ensures LinksClosed(Graph(nodes, g.links))
  {
    forall l | l in g.links ensures HasId(nodes, l.source) && HasId(nodes, l.target) {
      HasIdExtends(g.nodes, nodes, l.source);
      HasIdExtends(g.nodes, nodes, l.target);
    }
  }

  // ---------------------------------------------------------------------
  // Links, and when extraction succeeds

  lemma {:induction false} AddItemsLinks(g: Graph, opName: string, role: Role, items: seq<Item>)
    ensures AddItems(g, opName, role, items).Ok? <==> AllQuantified(items)
    ensures AllQuantified(items) ==>
              AddItems(g, opName, role, items).value.links == g.links + ItemLinks(opName, role, items)
    decreases |items|
  {
    if items != [] {
      AllQuantifiedTail(items);
      match AddItem(g, opName, role, items[0])
      case Err(_) =>
      case Ok(g') =>
        AddItemsLinks(g', opName, role, items[1..]);
    }
  }

  lemma AddOperationLinks(g: Graph, op: Operation)
    ensures AddOperation(g, op).Ok? <==> OperationQuantified(op)
    ensures OperationQuantified(op) ==> AddOperation(g, op).value.links == g.links + OperationLinks(op)
  {
    var g1 := Graph(WithOperationNode(g.nodes, op.name), g.links);
    AddItemsLinks(g1, op.name, AsIngredient, ItemsOf(op, AsIngredient));
    match AddItems(g1, op.name, AsIngredient, ItemsOf(op, AsIngredient))
    case Err(_) =>
    case Ok(g2) =>
      AddItemsLinks(g2, op.name, AsProduct, ItemsOf(op, AsProduct));
  }

  lemma {:induction false} ExtractFromLinks(g: Graph, recipe: seq<Operation>)
    ensures ExtractFrom(g, recipe).Ok? <==> RecipeQuantified(recipe)
    ensures RecipeQuantified(recipe) ==> ExtractFrom(g, recipe).value.links == g.links + RecipeLinks(recipe)
    decreases |recipe|
  {
    if recipe != [] {
      RecipeQuantifiedTail(recipe);
      AddOperationLinks(g, recipe[0]);
      match AddOperation(g, recipe[0])
      case Err(_) =>
      case Ok(g') =>
        ExtractFromLinks(g', recipe[1..]);
    }
  }

  /** Extraction succeeds exactly when every ingredient and product of every
      operation has usable quantity data, and its links are then one per
      item, in input order: ingredient -> operation, operation -> product. */
  lemma ExtractLinks(recipe: seq<Operation>)
    ensures Extract(recipe).Ok? <==> RecipeQuantified(recipe)
    ensures Extract(recipe).Ok? ==> Extract(recipe).value.links == RecipeLinks(recipe)
  {
    ExtractFromLinks(Graph([], []), recipe);
  }

  lemma {:induction false} ItemLinksLength(opName: string, role: Role, items: seq<Item>)
    requires AllQuantified(items)
    ensures |ItemLinks(opName, role, items)| == |items|
    decreases |items|
  {
    if items != [] {
      AllQuantifiedTail(items);
      ItemLinksLength(opName, role, items[1..]);
    }
  }

  lemma {:induction false} RecipeLinksLength(recipe: seq<Operation>)
    requires RecipeQuantified(recipe)
    ensures |RecipeLinks(recipe)| == ItemCount(recipe)
    decreases |recipe|
  {
    if recipe != [] {
      RecipeQuantifiedTail(recipe);
      ItemLinksLength(recipe[0].name, AsIngredient, ItemsOf(recipe[0], AsIngredient));
      ItemLinksLength(recipe[0].name, AsProduct, ItemsOf(recipe[0], AsProduct));
      RecipeLinksLength(recipe[1..]);
    }
  }

  /** On success there are exactly as many links as ingredient and product
      entries: repeated entries are not merged, and an absent list adds none. */
  lemma ExtractLinkCount(recipe: seq<Operation>)
    ensures Extract(recipe).Ok? ==> |Extract(recipe).value.links| == ItemCount(recipe)
  {
    ExtractLinks(recipe);
    if Extract(recipe).Ok? {
      RecipeLinksLength(recipe);
    }
  }

  // ---------------------------------------------------------------------
  // The error

  lemma {:induction false} AddItemsError(g: Graph, opName: string, role: Role, items: seq<Item>)
    ensures AddItems(g, opName, role, items).Err? ==>
              var e := AddItems(g, opName, role, items).error;
              e.operation == opName && e.role == role && FirstMissing(items, e.item)
    decreases |items|
  {
    if items != [] {
      match AddItem(g, opName, role, items[0])
      case Err(e) =>
        assert items[..0] == [];
        assert items[0] == e.item && !HasQuantity(e.item) && AllQuantified(items[..0]);
      case Ok(g') =>
        var rest := items[1..];
        AddItemsError(g', opName, role, rest);
        if AddItems(g', opName, role, rest).Err? {
          var e := AddItems(g', opName, role, rest).error;
          var i :| 0 <= i < |rest| && rest[i] == e.item && !HasQuantity(e.item) && AllQuantified(rest[..i]);
          assert items[..i + 1] == [items[0]] + rest[..i];
          AllQuantifiedTail(items[..i + 1]);
          assert items[i + 1] == e.item;
        }
    }
  }

  lemma AddOperationError(g: Graph, op: Operation)
    ensures AddOperation(g, op).Err? ==> OperationFirstMissing(op, AddOperation(g, op).error)
  {
    var g1 := Graph(WithOperationNode(g.nodes, op.name), g.links);
    AddItemsError(g1, op.name, AsIngredient, ItemsOf(op, AsIngredient));
    AddItemsLinks(g1, op.name, AsIngredient, ItemsOf(op, AsIngredient));
    match AddItems(g1, op.name, AsIngredient, ItemsOf(op, AsIngredient))
    case Err(_) =>
    case Ok(g2) =>
      AddItemsError(g2, op.name, AsProduct, ItemsOf(op, AsProduct));
  }

  lemma {:induction false} ExtractFromError(g: Graph, recipe: seq<Operation>)
    ensures ExtractFrom(g, recipe).Err? ==> RecipeFirstMissing(recipe, ExtractFrom(g, recipe).error)
    decreases |recipe|
  {
    if recipe != [] {
      AddOperationError(g, recipe[0]);
      match AddOperation(g, recipe[0])
      case Err(e) =>
        assert recipe[..0] == [];
        assert RecipeQuantified(recipe[..0]) && OperationFirstMissing(recipe[0], e);
      case Ok(g') =>
        var rest := recipe[1..];
        AddOperationLinks(g, recipe[0]);
        ExtractFromError(g', rest);
        if ExtractFrom(g', rest).Err? {
          var e := ExtractFrom(g', rest).error;
          var k :| 0 <= k < |rest| && RecipeQuantified(rest[..k]) && OperationFirstMissing(rest[k], e);
          assert recipe[..k + 1] == [recipe[0]] + rest[..k];
          RecipeQuantifiedTail(recipe[..k + 1]);
          assert recipe[k + 1] == rest[k];
        }
    }
  }

  /** Extraction fails exactly when some item lacks quantity data, and the
      failure names the first such item in processing order, with its
      operation and whether it is an ingredient or a product. No graph is
      returned alongside it. */
  lemma ExtractError(recipe: seq<Operation>)
    ensures Extract(recipe).Err? <==> !RecipeQuantified(recipe)
    ensures Extract(recipe).Err? ==> RecipeFirstMissing(recipe, Extract(recipe).error)
  {
    ExtractLinks(recipe);
    ExtractFromError(Graph([], []), recipe);
  }

  // ---------------------------------------------------------------------
  // Append-only growth and the shape of the node list

  lemma AddItemGrows(g: Graph, opName: string, role: Role, item: Item)
    requires WellFormed(g) && HasId(g.nodes, opName)
    ensures AddItem(g, opName, role, item).Ok? ==>
              var g' := AddItem(g, opName, role, item).value;
              && g'.links == g.links + [LinkFor(opName, role, item.name, ResolveAmount(item).value)]
              && (if HasId(g.nodes, item.name) then g'.nodes == g.nodes
                  else g'.nodes == g.nodes + [Node(item.name, TypeOf(role))])
              && HasId(g'.nodes, item.name)
              && WellFormed(g')
  {
    if AddItem(g, opName, role, item).Ok? {
      var g' := AddItem(g, opName, role, item).value;
      var nodes := g'.nodes;
      if !HasId(g.nodes, item.name) {
        assert nodes[|g.nodes|].id == item.name;
        forall i | 0 <= i < |g.nodes| ensures nodes[i] != nodes[|g.nodes|] && nodes[i].id != item.name {
          assert g.nodes[i].id != item.name;
        }
      } else {
        assert nodes == g.nodes;
      }
      LinksClosedExtends(g, nodes);
      HasIdExtends(g.nodes, nodes, opName);
    }
  }

  lemma {:induction false} AddItemsGrows(g: Graph, opName: string, role: Role, items: seq<Item>)
    requires WellFormed(g) && HasId(g.nodes, opName)
    ensures AddItems(g, opName, role, items).Ok? ==>
              var g' := AddItems(g, opName, role, items).value;
              && g.nodes <= g'.nodes && g.links <= g'.links
              && WellFormed(g')
              && (forall x | x in NamesOf(items) :: HasId(g'.nodes, x))
              && (forall i | |g.nodes| <= i < |g'.nodes| ::
                    g'.nodes[i].nodeType == TypeOf(role) && g'.nodes[i].id in NamesOf(items))
    decreases |items|
  {
    if items != [] && AddItems(g, opName, role, items).Ok? {
      var g1 := AddItem(g, opName, role, items[0]).value;
      var g' := AddItems(g, opName, role, items).value;
      AddItemGrows(g, opName, role, items[0]);
      HasIdExtends(g.nodes, g1.nodes, opName);
      AddItemsGrows(g1, opName, role, items[1..]);
      NamesOfTail(items);
      HasIdExtends(g1.nodes, g'.nodes, items[0].name);
      forall i | |g.nodes| <= i < |g'.nodes|
        ensures g'.nodes[i].nodeType == TypeOf(role) && g'.nodes[i].id in NamesOf(items)
      {
        if i < |g1.nodes| {
          assert g'.nodes[i] == g1.nodes[i] == Node(items[0].name, TypeOf(role));
        }
      }
    }
  }

  lemma AddOperationGrows(g: Graph, op: Operation)
    requires WellFormed(g)
    ensures AddOperation(g, op).Ok? ==>
              var g' := AddOperation(g, op).value;
              && g.nodes <= g'.nodes && g.links <= g'.links
              && WellFormed(g')
              && Covers(g'.nodes, op)
              && (forall i | |g.nodes| <= i < |g'.nodes| :: MentionedBy(g'.nodes[i], op))
  {
    if AddOperation(g, op).Ok? {
      var n := Node(op.name, OperationType);
      var g1 := Graph(WithOperationNode(g.nodes, op.name), g.links);
      var ingredients, products := ItemsOf(op, AsIngredient), ItemsOf(op, AsProduct);
      var g2 := AddItems(g1, op.name, AsIngredient, ingredients).value;
      var g' := AddOperation(g, op).value;
      assert g' == AddItems(g2, op.name, AsProduct, products).value;
      // the operation node is in g1, and g1 is well formed
      var at :| 0 <= at < |g1.nodes| && g1.nodes[at] == n;
      assert HasId(g1.nodes, op.name) by { assert g1.nodes[at].id == op.name; }
      if n !in g.nodes {
        forall i | 0 <= i < |g.nodes| ensures g1.nodes[i] != g1.nodes[|g.nodes|] { }
      }
      LinksClosedExtends(g, g1.nodes);
      assert WellFormed(g1);
      AddItemsGrows(g1, op.name, AsIngredient, ingredients);
      HasIdExtends(g1.nodes, g2.nodes, op.name);
      AddItemsGrows(g2, op.name, AsProduct, products);
      // coverage
      assert g'.nodes[at] == n;
      forall x | x in NamesOf(ingredients) ensures HasId(g'.nodes, x) {
        HasIdExtends(g2.nodes, g'.nodes, x);
      }
      // every new node comes from this operation
      forall i | |g.nodes| <= i < |g'.nodes| ensures MentionedBy(g'.nodes[i], op) {
        if i < |g1.nodes| {
          assert g'.nodes[i] == g1.nodes[i] == n;
        } else if i < |g2.nodes| {
          assert g'.nodes[i] == g2.nodes[i];
        }
      }
    }
  }

  lemma {:induction false} ExtractFromGrows(g: Graph, recipe: seq<Operation>)
    requires WellFormed(g)
    ensures ExtractFrom(g, recipe).Ok? ==>
              var g' := ExtractFrom(g, recipe).value;
              && g.nodes <= g'.nodes && g.links <= g'.links
              && WellFormed(g')
              && (forall k | 0 <= k < |recipe| :: Covers(g'.nodes, recipe[k]))
              && (forall i | |g.nodes| <= i < |g'.nodes| ::
                    exists k | 0 <= k < |recipe| :: MentionedBy(g'.nodes[i], recipe[k]))
    decreases |recipe|
  {
    if recipe != [] && ExtractFrom(g, recipe).Ok? {
      var g1 := AddOperation(g, recipe[0]).value;
      var rest := recipe[1..];
      var g' := ExtractFrom(g, recipe).value;
      AddOperationGrows(g, recipe[0]);
      ExtractFromGrows(g1, rest);
      forall k | 0 <= k < |recipe| ensures Covers(g'.nodes, recipe[k]) {
        if k == 0 {
          CoversExtends(g1.nodes, g'.nodes, recipe[0]);
        } else {
          assert recipe[k] == rest[k - 1];
        }
      }
      forall i | |g.nodes| <= i < |g'.nodes|
        ensures exists k | 0 <= k < |recipe| :: MentionedBy(g'.nodes[i], recipe[k])
      {
        if i < |g1.nodes| {
          assert g'.nodes[i] == g1.nodes[i];
          assert MentionedBy(g'.nodes[i], recipe[0]);
        } else {
          var k :| 0 <= k < |rest| && MentionedBy(g'.nodes[i], rest[k]);
          assert rest[k] == recipe[k + 1];
        }
      }
    }
  }

  /** On success no node record occurs twice (so each operation name has
      exactly one operation node), and an ingredient or product node never
      repeats an earlier node's id: the first type given to a name is kept. */
  lemma ExtractNodesUnique(recipe: seq<Operation>)
    ensures Extract(recipe).Ok? ==>
              UniqueRecords(Extract(recipe).value.nodes) && ItemIdsFirstSeen(Extract(recipe).value.nodes)
  {
    ExtractFromGrows(Graph([], []), recipe);
  }

  /** On success each operation name has exactly one operation node: one
      index holds its record, and no other index does. */
  lemma ExtractOneOperationNode(recipe: seq<Operation>)
    ensures Extract(recipe).Ok? ==>
              var nodes := Extract(recipe).value.nodes;
              forall k | 0 <= k < |recipe| ::
                exists i | 0 <= i < |nodes| :: nodes[i] == Node(recipe[k].name, OperationType)
                  && forall j | 0 <= j < |nodes| && nodes[j] == nodes[i] :: j == i
  {
    ExtractNodesUnique(recipe);
    ExtractNodesExact(recipe);
  }

  /** On success the nodes are exactly those the input names: every operation
      has its operation node and every ingredient and product name has a node,
      and every node's id and type come from some operation of the input. */
  lemma ExtractNodesExact(recipe: seq<Operation>)
    ensures Extract(recipe).Ok? ==>
              var nodes := Extract(recipe).value.nodes;
              && (forall k | 0 <= k < |recipe| :: Covers(nodes, recipe[k]))
              && (forall i | 0 <= i < |nodes| :: exists k | 0 <= k < |recipe| :: MentionedBy(nodes[i], recipe[k]))
  {
    ExtractFromGrows(Graph([], []), recipe);
  }

  /** On success both ends of every link are the id of some node. */
  lemma ExtractLinksClosed(recipe: seq<Operation>)
    ensures Extract(recipe).Ok? ==> LinksClosed(Extract(recipe).value)
  {
    ExtractFromGrows(Graph([], []), recipe);
  }

  lemma {:induction false} ExtractFromAppend(g: Graph, a: seq<Operation>, b: seq<Operation>)
    ensures ExtractFrom(g, a + b) ==
              match ExtractFrom(g, a)
              case Err(e) => Err(e)
              case Ok(g') => ExtractFrom(g', b)
    decreases |a|
  {
    if a == [] {
      assert a + b == b;
    } else {
      assert (a + b)[0] == a[0];
      assert (a + b)[1..] == a[1..] + b;
      match AddOperation(g, a[0])
      case Err(_) =>
      case Ok(g1) => ExtractFromAppend(g1, a[1..], b);
    }
  }

  /** Processing further operations only appends: the nodes and links
      extracted from a prefix of the input are prefixes of those extracted
      from the whole, and the rest is processed starting from them. */
  lemma ExtractAppendOnly(a: seq<Operation>, b: seq<Operation>)
    ensures Extract(a).Err? ==> Extract(a + b) == Extract(a)
    ensures Extract(a).Ok? ==> Extract(a + b) == ExtractFrom(Extract(a).value, b)
    ensures Extract(a + b).Ok? ==>
              && Extract(a).Ok?
              && Extract(a).value.nodes <= Extract(a + b).value.nodes
              && Extract(a).value.links <= Extract(a + b).value.links
  {
    ExtractFromAppend(Graph([], []), a, b);
    if Extract(a).Ok? {
      ExtractFromGrows(Graph([], []), a);
      ExtractFromGrows(Extract(a).value, b);
    }
  }
}
