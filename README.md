# Simulation adapter graph, verified model

This project models the Rust adapter graph of the `simulation` library (`src/graph/networkx_graph.rs`).
The adapter turns a host graph into a `NetworkXGraph` and hands it to a simulation engine. The model covers three parts:

- **Label matching.** Attributes are maps from string keys to host values. The native matcher `native_same_label_fn` checks only key coverage. It does compare the values of keys that both maps have, but both outcomes of that comparison go on to the next key, so values never change the verdict. `label_same` uses a caller-installed comparator if there is one and the native matcher otherwise. `Attributes::eq` is map equality: same size, and every key present with a value the host's `__eq__` accepts.
- **The graph builder.** A class with a `nodes` list, an `edges` list and a `nodeIndices` map from external identifiers to dense indices. It has the host-facing `add_node` and `add_edge` and the `Graph` trait's `add_node` and `add_edge`. The trait's `add_node` stores its node under the key `Node{index}.`.
- **Read-only queries.** Node and edge counts, the node-attribute and edge-attribute lookups, and `get_edges_pair`.

Host values are a type parameter `V`. The host's `__eq__` (`test_eq` in the source) is a total parameter `valEq: (V, V) -> bool`. A host call that raises, or that returns a non-bool, collapses to `false`, as the source does. A Rust `unwrap` on a missing entry, which panics, becomes a `Failure` that names the missing identifier or index. A method that fails this way leaves the graph unchanged, since the source panics before it mutates anything.

Modules: `Wrappers` (`Option`, `Result`), `Labels` (attribute maps and matchers), `NetworkX` (the graph class and its queries).

Usage scenario: `NetworkX.BuildPattern` builds the two-node pattern graph user -> order through the host-facing methods. It also shows that an edge to an unknown node fails without changing the graph. `NetworkX.QueryPattern` then queries that graph. Its assertions follow from the contracts alone: the counts, the edge lookup in both directions, and the edge pairs.

## Model

| member | source | states |
|---|---|---|
| `Labels.NativeSameLabel` | src/graph/networkx_graph.rs:314-326 | The loop over the pattern's keys returns true exactly when every pattern key is a target key. The result does not depend on `valEq`. |
| `Labels.NativeIgnoresValues` | src/graph/networkx_graph.rs:314-326 | Maps with the same key sets get the same verdict, whatever their values. |
| `Labels.EmptyPatternMatches` | src/graph/networkx_graph.rs:314-326 | An empty pattern map matches every target. |
| `Labels.TargetOnlyKeysIrrelevant` | src/graph/networkx_graph.rs:314-326 | Adding keys the pattern lacks to the target, or cutting the target down to the pattern's keys, never changes the verdict. |
| `Labels.MissingKeyRejects` | src/graph/networkx_graph.rs:321-323 | One pattern key missing from the target makes the verdict false. |
| `Labels.CoverageScenarios` | src/graph/networkx_graph.rs:314-326 | `{a:1}` matches `{a:2, b:3}` despite the value mismatch. `{a:1}` does not match `{b:3}`. |
| `Labels.AttributesEq` | src/graph/networkx_graph.rs:47-68 | False when the sizes differ. True exactly when the sizes agree and every key of `self` is in `other` with a `valEq`-equal value. A true result implies equal key sets. |
| `Labels.EqualAttributesMatch` | src/graph/networkx_graph.rs:47-68 | Equal attribute maps cover each other's keys, so the native matcher accepts them both ways. |
| `Labels.AttributesEqReflexive` | src/graph/networkx_graph.rs:47-68 | Attribute equality is reflexive when `valEq` is. |
| `Labels.AttributesEqSymmetric` | src/graph/networkx_graph.rs:47-68 | Attribute equality is symmetric when `valEq` is. |
| `NetworkX.NetworkXGraph.LabelSame` | src/graph/networkx_graph.rs:328-331 | With a comparator installed, the result is that comparator's answer. Without one, it is true exactly when the first node's attribute keys are among the second's. |
| `NetworkX.NetworkXGraph.constructor` | src/graph/networkx_graph.rs:141-149 | The new graph is empty, has no comparator, and satisfies the invariant. |
| `NetworkX.NetworkXGraph.AddNode` | src/graph/networkx_graph.rs:216-221 | Appends `Node(n, attributes)`, where `n` is the old node count, and sets `nodeIndices[name] := n`, overwriting any old entry. Edges and the comparator are unchanged. Each of the three invariants is preserved, and the node count rises by one. Afterwards `GetNodeAttributes(name)` returns `attributes`. |
| `NetworkX.NetworkXGraph.AddEdge` | src/graph/networkx_graph.rs:223-237 | Fails naming the source if the source is unknown, otherwise naming the target if that is unknown. On success it appends exactly `Edge(nodeIndices[source], nodeIndices[target], attributes)`. Nodes and indices are never changed. The invariant is preserved, and the edge count rises by one exactly on success. |
| `NetworkX.NetworkXGraph.GraphAddNode` | src/graph/networkx_graph.rs:294-298 | Appends the given node and records `Node{n}.` as mapping to `n`. Indices stay in range. Ids stay equal to positions exactly when the node's id is `n`. Afterwards the key `Node{n}.` looks up the new node's attributes. |
| `NetworkX.NetworkXGraph.GraphAddEdge` | src/graph/networkx_graph.rs:300-302 | Appends the edge unchecked. Edges stay in range exactly when both endpoints are existing positions. |
| `NetworkX.Decimal` | src/graph/networkx_graph.rs:296 | Rust's `{}` formatting of an index: at least one digit, all characters decimal digits, and no leading zero (a leading `0` means the text is `"0"` and the index is 0). |
| `NetworkX.NodeKey` | src/graph/networkx_graph.rs:296 | The trait's key for index `i`: the prefix `Node`, then digits that read back as `i` (no leading zero), then `.`. |
| `NetworkX.NodeKeyInjective` | src/graph/networkx_graph.rs:296 | Distinct indices give distinct `Node{i}.` keys. |
| `NetworkX.DecimalRoundTrip` | src/graph/networkx_graph.rs:296 | Reading the decimal text of an index back gives the index. |
| `NetworkX.NetworkXGraph.NodeCount` | src/graph/networkx_graph.rs:239-241 | The number of nodes. Every recorded identifier resolves below it. |
| `NetworkX.NetworkXGraph.EdgeCount` | src/graph/networkx_graph.rs:243-245 | The number of edges (`AddEdge` raises it by one exactly on success). |
| `NetworkX.NetworkXGraph.GetNodeAttributes` | src/graph/networkx_graph.rs:248-256 | Returns some attributes exactly when the name is recorded. They are the attributes of the node at the recorded index. |
| `NetworkX.FindEdge` | src/graph/networkx_graph.rs:264-272 | Unknown source: panics if there is any edge, else returns none. Known source with unknown target: panics exactly when some edge leaves the source. Both known: returns the attributes of the first edge in order that joins them, and none exactly when no edge does. |
| `NetworkX.NetworkXGraph.GetEdgeAttributes` | src/graph/networkx_graph.rs:259-273 | On known endpoints, the attributes of the first edge in insertion order between them, or none when no edge joins them. An unknown source panics exactly when there is an edge. A known source with an unknown target panics exactly when some edge leaves the source, and otherwise returns none. A panic names an unrecorded identifier. |
| `NetworkX.IdMap` | src/graph/networkx_graph.rs:290 | The id map's keys are exactly the ids the nodes carry. `IdMapLastWins` states which node each entry holds. |
| `NetworkX.IdMapLastWins` | src/graph/networkx_graph.rs:290 | When several nodes share an id, the id map holds the last of them in node order, as the in-order `HashMap::from_iter` does. |
| `NetworkX.EdgePairsLastWins` | src/graph/networkx_graph.rs:290-291 | Each pair of a successful edge-pair list holds the last nodes in node order that carry the edge's source and target ids. |
| `NetworkX.IdMapOfDenseNodes` | src/graph/networkx_graph.rs:290 | When ids are positions, the id map sends each position to the node there. |
| `NetworkX.EdgePairs` | src/graph/networkx_graph.rs:291 | Succeeds exactly when every endpoint is in the id map, and then pairs each edge with its endpoint nodes, in edge order. A failure names a missing id. |
| `NetworkX.NetworkXGraph.GetEdgesPair` | src/graph/networkx_graph.rs:289-292 | Succeeds exactly when every endpoint is some node's id. It yields one pair per edge, holding the last nodes in node order that carry the edge's endpoint ids. On a valid graph it always succeeds, and the pair of edge `i` is the nodes at its endpoints' positions. |

The invariant `Valid()` combines three facts. Every recorded index is below the node count. Every node's id is its position. Every edge endpoint is below the node count. `new`, `add_node` and `add_edge` keep all three. The trait's `add_node` always keeps the first, and `get_node_attributes` needs only the first.

## Left out

- The simulation fixpoint and the existence check (`get_simulation_inter` and `has_simulation`, lines 371 and 391). These belong to the external `graph_simulation` crate, which is not part of this model.
- Conversion to and from host graphs: `from_networkx`, `to_networkx`, `to_nx_node`, `convert_to_string` and the two `#[pyfunction]` entry points. These are calls into the host interpreter.
- `Hash for Attributes`, the `Display` impls and `Clone for Attributes`. They depend on host `__hash__`, host `__str__` and reference counting.
- The host's `__eq__` is an opaque total function parameter. Its side effects and the GIL are not modelled.
- `NetworkX.NetworkXGraph.LabelSame`: `map_or` evaluates the native matcher even when a comparator is installed. The only effect of that is host `__eq__` calls, which the model does not observe.
- The comparator's `Send + Sync` bounds and its shared ownership through `Arc`. The comparator is a plain total function in an `Option`. No code here installs one.
- `HashMap` iteration order is unspecified. The native matcher picks its next key arbitrarily. No other result depends on that order.
- `usize` is modelled as unbounded `nat`. A vector's length cannot reach the `usize` limit.
- The `Graph` trait's `nodes()` and `edges()` iterators are plain reads of the two lists: the fields themselves.
- The module registration in `src/lib.rs`, `src/graph/mod.rs` and `src/utils.rs`, and the packaging in `setup.py`.
