# Recipe graph extractor, in Dafny

A model of the graph extractor of `recipe-to-d3html`: the routine that turns a
recipe mapping (operation key → `{name, ingredients, products}`) into the two
lists a force-directed diagram is drawn from:

- `nodes`: `{id, type}` records, `type` one of operation, ingredient, product,
  appended in processing order;
- `links`: `{source, target, value}` records, one per ingredient
  (ingredient → operation) and one per product (operation → product),
  weighted by the item's resolved quantity.

An item's quantity is its `amount` when present; otherwise the midpoint of
`amount_min` and `amount_max` when both are present; otherwise the extraction
aborts, reporting the operation and the item, and no lists are returned.

The input is taken as already parsed: a sequence of `Operation` values in the
mapping's iteration order, each with a name and optional `ingredients` and
`products` lists whose items carry optional `amount`, `amount_min` and
`amount_max` fields. The mapping key itself is never read by the extractor and
is not kept.

Files:

- `Wrappers.dfy`: `Option` and `Result`.
- `RecipeModel.dfy`: the input records, the node and link records, the
  `MissingQuantity` failure, and the quantity rule `ResolveAmount`.
- `GraphSpec.dfy`: the extractor as a function (`Extract`, a left fold of
  `AddOperation`, itself built from `AddItems` and `AddItem`), plus independent
  reference definitions: the expected links (`RecipeLinks`), the item count,
  the well-formedness predicates on the node list, and the "first missing
  quantity" predicates.
- `GraphProperties.dfy`: the lemmas relating `Extract` to those references.
- `Extractor.dfy`: the extractor as the program runs it, with the two lists
  as local sequences grown by appending in nested loops, and the membership
  scans as loops of their own; `ExtractData` is proved to return exactly
  `Extract(recipe)`.
- `Scenarios.dfy`: concrete inputs and their results.

Two behaviours of the code that the model keeps as written:

- Operation nodes are deduplicated by whole record (`{'id': name, 'type':
  'operation'} not in nodes`), ingredient and product nodes by id. So an
  operation whose name was already seen as an ingredient or product gets a
  second node with the same id (`Scenarios.OperationNodeRepeatsId`); node
  records are unique, node ids are not (`GraphProperties.ExtractNodesUnique`
  states exactly what is unique).
- An item may carry `amount` together with both bounds; `amount` then wins
  (`Scenarios.AmountBeatsRange`).

## Model

| member | source | states |
|---|---|---|
| RecipeModel.ResolveAmount | bin/recipe-to-d3html.py:20-25 | a quantity exists exactly when `amount` or both bounds are present; `amount` is used whenever present, even beside both bounds; otherwise the result is the midpoint, equidistant from `amount_min` and `amount_max` |
| Extractor.ContainsNode | bin/recipe-to-d3html.py:13 | the scan finds the record exactly when an equal record is in `nodes` |
| Extractor.AnyHasId | bin/recipe-to-d3html.py:17 | the scan finds a match exactly when some node carries the id |
| Extractor.ProcessItems | bin/recipe-to-d3html.py:15-29 | the item loop (ingredients, and likewise products at lines 30-44) returns exactly what `GraphSpec.AddItems` defines: the nodes and links after the items, or the first missing quantity |
| Extractor.ExtractData | bin/recipe-to-d3html.py:8-46 | the whole extraction returns exactly `GraphSpec.Extract(recipe)`, so every lemma below about `Extract` holds of it |
| GraphProperties.AddItemsLinks | bin/recipe-to-d3html.py:15-29 | one item list succeeds exactly when every item has quantity data, and then appends one link per item, in order, to the links it started from |
| GraphProperties.AddOperationLinks | bin/recipe-to-d3html.py:12-44 | one operation succeeds exactly when all its ingredients and products have quantity data, and then appends its ingredient links followed by its product links |
| GraphProperties.ExtractFromLinks | bin/recipe-to-d3html.py:11-44 | from any starting lists, the extraction succeeds exactly when the whole recipe is quantified, and then appends `RecipeLinks(recipe)` to the links it started from |
| GraphProperties.ExtractLinks | bin/recipe-to-d3html.py:15-44 | extraction succeeds exactly when every item has quantity data; its links are then one per item, ingredient → operation and operation → product, weighted by the resolved quantity, in input order; an absent list contributes none |
| GraphProperties.ExtractLinkCount | bin/recipe-to-d3html.py:15-41 | on success the number of links equals the number of ingredient and product entries; repeated entries are not merged |
| GraphProperties.AddItemsError | bin/recipe-to-d3html.py:19-29 | a failing item list reports its operation, its role, and its first item without quantity data |
| GraphProperties.AddOperationError | bin/recipe-to-d3html.py:19-44 | a failing operation reports the first item without quantity data, ingredients before products |
| GraphProperties.ExtractFromError | bin/recipe-to-d3html.py:11-44 | a failing extraction reports an item of an operation whose predecessors are all fully quantified, and which is that operation's first missing quantity |
| GraphProperties.ExtractError | bin/recipe-to-d3html.py:19-44 | extraction fails exactly when some item lacks quantity data, and the failure names the first such item in processing order with its operation; no lists are returned with it |
| GraphProperties.AddItemGrows | bin/recipe-to-d3html.py:17-26 | one item appends its node only when no node has its id (otherwise the nodes are unchanged, first type kept), appends exactly one link carrying its resolved quantity, and keeps the node list well formed |
| GraphProperties.AddItemsGrows | bin/recipe-to-d3html.py:15-29 | an item list only appends; every item name then has a node; every node it adds has the list's type and the name of one of its items |
| GraphProperties.AddOperationGrows | bin/recipe-to-d3html.py:12-44 | one operation only appends; afterwards its operation record and every item name are present, and every node it added comes from that operation |
| GraphProperties.ExtractFromGrows | bin/recipe-to-d3html.py:11-46 | from well-formed starting lists, the extraction only appends, keeps records unique, item ids first-seen and links closed, covers every operation, and adds only nodes the recipe names |
| GraphProperties.ExtractNodesUnique | bin/recipe-to-d3html.py:13-33 | on success no node record occurs twice, so each operation name has at most one operation node; an ingredient or product node never repeats an earlier node's id |
| GraphProperties.ExtractOneOperationNode | bin/recipe-to-d3html.py:12-14 | on success each operation name has exactly one operation node: exactly one index holds its record |
| GraphProperties.ExtractNodesExact | bin/recipe-to-d3html.py:12-33 | on success every operation has its operation node and every ingredient and product name has a node; every node's id and type come from some operation of the input |
| GraphProperties.ExtractLinksClosed | bin/recipe-to-d3html.py:13-41 | on success both ends of every link are the id of some node |
| GraphProperties.ExtractFromAppend | bin/recipe-to-d3html.py:11-46 | processing `a + b` is processing `a`, then `b` from its result; a failure in `a` is the failure of the whole |
| GraphProperties.ExtractAppendOnly | bin/recipe-to-d3html.py:11-46 | the nodes and links extracted from a prefix of the input are prefixes of those extracted from the whole: entries are never removed, reordered or changed |
| Scenarios.BakeBread | bin/recipe-to-d3html.py:11-41 | a one-operation recipe with a fixed-amount ingredient and a ranged product yields three nodes and two links of weight 2 |
| Scenarios.AmountBeatsRange | bin/recipe-to-d3html.py:35-41 | an item with `amount` and both bounds is weighted by `amount` |
| Scenarios.OperationNodeRepeatsId | bin/recipe-to-d3html.py:13-18 | an operation named like an earlier ingredient gets a second node with the same id |
| Scenarios.HalfRangeAborts | bin/recipe-to-d3html.py:37-44 | a product with only `amount_min` aborts the extraction with that operation and item |

## Left out

- Reading the input file and JSON parsing (bin/recipe-to-d3html.py:5-6): the model starts from the parsed operations.
- `generate_html` (bin/recipe-to-d3html.py:48-141): writing a fixed HTML template with the lists serialised by a JSON library; rendering happens in the browser.
- The command line and its exit codes (bin/recipe-to-d3html.py:143-151), and the diagnostic messages printed before re-raising (lines 28, 43): the failure carries the operation, the role and the item as data instead.
- RecipeModel.ResolveAmount: quantities are exact reals; the float rounding of Python's `/` in the midpoint is not modelled.
- Inputs of other shapes: an operation or item without `name` (a KeyError at lines 12, 16, 31); a null or non-numeric `amount`, which the code copies unchanged into the link's value (lines 20-21, 26, 35-36, 41); null or non-numeric bounds, which make the midpoint raise a TypeError that is re-raised (lines 23, 27-29, 38, 42-44); an `ingredients` or `products` value that is null or a number (a TypeError at lines 15 and 30), or a string or object (iterated: empty ones add no items, non-empty ones fail at lines 16 and 31). In the model names are always present, amounts and bounds are numbers, and each list is either absent or a list of items.
- The mapping key of each operation: the extractor never reads it.
