/** Concrete inputs and what the extractor returns for them. */
module Scenarios {
  import opened Wrappers
  import opened RecipeModel
  import opened GraphSpec

  /** A fixed amount is used as it is; a range contributes its midpoint. */
  lemma BakeBread()
    ensures Extract([Operation("Bake",
                               Some([Item("Flour", Some(2.0), None, None)]),
                               Some([Item("Bread", None, Some(1.0), Some(3.0))]))])
            == Ok(Graph([Node("Bake", OperationType), Node("Flour", IngredientType), Node("Bread", ProductType)],
                        [Link("Flour", "Bake", 2.0), Link("Bake", "Bread", 2.0)]))
  {
    var flour, bread := Item("Flour", Some(2.0), None, None), Item("Bread", None, Some(1.0), Some(3.0));
    var bake := Operation("Bake", Some([flour]), Some([bread]));
    var g1 := Graph([Node("Bake", OperationType)], []);
    var g2 := Graph([Node("Bake", OperationType), Node("Flour", IngredientType)], [Link("Flour", "Bake", 2.0)]);
    var g3 := Graph(g2.nodes + [Node("Bread", ProductType)], g2.links + [Link("Bake", "Bread", 2.0)]);
    assert WithOperationNode([], "Bake") == g1.nodes;
    assert !HasId(g1.nodes, "Flour");
    assert WithItemNode(g1.nodes, "Flour", IngredientType) == g1.nodes + [Node("Flour", IngredientType)] == g2.nodes;
    assert ResolveAmount(flour) == Some(2.0);
    assert g1.links + [Link("Flour", "Bake", 2.0)] == g2.links;
    assert AddItem(g1, "Bake", AsIngredient, flour) == Ok(g2);
    assert AddItems(g1, "Bake", AsIngredient, [flour]) == Ok(g2);
    assert !HasId(g2.nodes, "Bread");
    assert AddItem(g2, "Bake", AsProduct, bread) == Ok(g3);
    assert AddItems(g2, "Bake", AsProduct, [bread]) == Ok(g3);
    assert AddOperation(Graph([], []), bake) == Ok(g3);
    assert g3 == Graph([Node("Bake", OperationType), Node("Flour", IngredientType), Node("Bread", ProductType)],
                       [Link("Flour", "Bake", 2.0), Link("Bake", "Bread", 2.0)]);
    assert [bake][1..] == [];
  }

  /** With a fixed amount and both bounds present, the fixed amount wins. */
  lemma AmountBeatsRange()
    ensures Extract([Operation("Smelt", None, Some([Item("Plate", Some(5.0), Some(1.0), Some(3.0))]))])
            == Ok(Graph([Node("Smelt", OperationType), Node("Plate", ProductType)],
                        [Link("Smelt", "Plate", 5.0)]))
  {
    var plate := Item("Plate", Some(5.0), Some(1.0), Some(3.0));
    var smelt := Operation("Smelt", None, Some([plate]));
    var g1 := Graph([Node("Smelt", OperationType)], []);
    var g2 := Graph([Node("Smelt", OperationType), Node("Plate", ProductType)], [Link("Smelt", "Plate", 5.0)]);
    assert WithOperationNode([], "Smelt") == g1.nodes;
    assert AddItems(g1, "Smelt", AsIngredient, ItemsOf(smelt, AsIngredient)) == Ok(g1);
    assert !HasId(g1.nodes, "Plate");
    assert WithItemNode(g1.nodes, "Plate", ProductType) == g1.nodes + [Node("Plate", ProductType)] == g2.nodes;
    assert g1.links + [Link("Smelt", "Plate", 5.0)] == g2.links;
    assert AddItem(g1, "Smelt", AsProduct, plate) == Ok(g2);
    assert AddItems(g1, "Smelt", AsProduct, [plate]) == Ok(g2);
    assert AddOperation(Graph([], []), smelt) == Ok(g2);
    assert [smelt][1..] == [];
  }

  /** A name first seen as an ingredient keeps its ingredient node; when an
      operation of that name follows, its record differs, so a second node with
      the same id is appended. Node records stay unique; node ids do not. */
  lemma OperationNodeRepeatsId()
    ensures Extract([Operation("Mix", Some([Item("Dough", Some(1.0), None, None)]), None),
                     Operation("Dough", None, None)])
            == Ok(Graph([Node("Mix", OperationType), Node("Dough", IngredientType), Node("Dough", OperationType)],
                        [Link("Dough", "Mix", 1.0)]))
  {
    var dough := Item("Dough", Some(1.0), None, None);
    var mix, doughOp := Operation("Mix", Some([dough]), None), Operation("Dough", None, None);
    var recipe := [mix, doughOp];
    var g1 := Graph([Node("Mix", OperationType)], []);
    var g2 := Graph([Node("Mix", OperationType), Node("Dough", IngredientType)], [Link("Dough", "Mix", 1.0)]);
    var g3 := Graph(g2.nodes + [Node("Dough", OperationType)], g2.links);
    assert WithOperationNode([], "Mix") == g1.nodes;
    assert !HasId(g1.nodes, "Dough");
    assert WithItemNode(g1.nodes, "Dough", IngredientType) == g1.nodes + [Node("Dough", IngredientType)] == g2.nodes;
    assert g1.links + [Link("Dough", "Mix", 1.0)] == g2.links;
    assert AddItem(g1, "Mix", AsIngredient, dough) == Ok(g2);
    assert AddItems(g1, "Mix", AsIngredient, [dough]) == Ok(g2);
    assert AddOperation(Graph([], []), mix) == Ok(g2);
    assert Node("Dough", OperationType) !in g2.nodes;
    assert WithOperationNode(g2.nodes, "Dough") == g3.nodes;
    assert AddOperation(g2, doughOp) == Ok(g3);
    assert recipe[1..] == [doughOp] && recipe[1..][1..] == [];
    assert ExtractFrom(g2, [doughOp]) == Ok(g3);
    assert g3.nodes == [Node("Mix", OperationType), Node("Dough", IngredientType), Node("Dough", OperationType)];
  }

  /** A single bound is not enough: the item aborts the extraction, naming the
      operation and the item, and no graph is produced. */
  lemma HalfRangeAborts()
    ensures Extract([Operation("Mine", None, Some([Item("Ore", None, Some(1.0), None)]))])
            == Err(MissingQuantity("Mine", AsProduct, Item("Ore", None, Some(1.0), None)))
  {
  }
}
