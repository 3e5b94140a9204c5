# java-graphviz core in Dafny

A model of the two stateful components of java-graphviz, with proofs:

- the `Digraph` container, a directed-graph builder;
- the `GraphvizEngine` that prepares a run of the Graphviz layout program.

**The `Digraph` container** (`digraph.dfy`, module `Digraphs`, class `Digraph`) holds:

- the graph's attribute store and the node-default and edge-default stores;
- a Java `int` counter `idCount`;
- a map from node id to node, a list of edges and a list of subgraphs.

Its operations:

- `AddNode` files a new node under its own name. A name that is already taken gets the id `name + idCount`, and the counter then goes up, wrapping like a Java `int`. The suffixed id is not checked: it can silently replace a node already filed under it (`Scenarios.SuffixCollision`).
- `TryAddNode` reuses the node already filed under the name.
- `AddEdge` appends an edge when its source is found by the recursive `ContainsNode`. The guard looks the source up twice and never looks at the target, so an edge to a node outside the graph is accepted (`Scenarios.EdgeToOutsider`).
- `Output` serialises the graph as DOT text:
  - ` graph [...];`, ` node [...];` and ` edge [...];` blocks, each only when its store is non-empty;
  - then each subgraph's text;
  - then ` ` + the statement of each node, in the order the node map enumerates;
  - then ` ` + the statement of each edge, in insertion order;
  - all inside `digraph name {` … `}`.

  Map enumeration order is not fixed, so `Output` records the order it used as a ghost result and is proved to render exactly that order (`Digraph.Rendering`). `Digraph.Renders(text)` says `text` is the rendering for some enumeration.

**Supporting modules:**

- `elements.dfy`: nodes and edges, which are objects whose attributes change in place, their DOT statements, and subgraphs as values.
- `attributes.dfy`: attribute stores, where an update overwrites in place or appends.
- `decimal.dfy`: Java `int` arithmetic and the decimal text of the id counter.
- `enumerations.dfy`: hash-map enumeration.

**The engine** (`engine.dfy`, module `Engine`, class `GraphvizEngine`) keeps:

- a registry from format name to `OutputType`, which is never empty;
- the layout program's name;
- the working directory.

Its operations:

- `AddType` is idempotent.
- `RemoveType` refuses to remove the last type.
- `ToFilePath` only works while exactly one type is registered.
- `Output` resolves the layout program and builds the argument vector: the program, then `-T<format>` `-o<path>` for each registered type in the registry's enumeration order, then the DOT file.

`executables.dfy` (module `Executables`) models how the program is found:

- the case-insensitive lookup of `PATH` in the environment;
- Java's `String.split` of its value;
- the first-match search over `dir/prog` and then `dir/prog.exe` for each directory.

The environment is a map and the file system is two sets of paths: the executable files and the directories.

`scenarios.dfy` states verified call sequences and their outcomes:

- the text of a one-node graph;
- duplicate names;
- the suffix collision;
- removing types down to one;
- setting the file path of the sole type.

## Model

| member | source | states |
|---|---|---|
| Decimal.Int32Succ | src/main/java/com/couggi/javagraphviz/Digraph.java:100 | `idCount++` on a Java `int`: one more, except that the largest `int` wraps to the smallest |
| Decimal.IntText | src/main/java/com/couggi/javagraphviz/Digraph.java:100 | the text appended by `name + idCount` is a decimal literal, with a leading minus exactly for negative counters |
| Decimal.ParseIntText | src/main/java/com/couggi/javagraphviz/Digraph.java:100 | the counter's text reads back as the counter, so the suffix determines the counter value |
| Decimal.IntTextInjective | src/main/java/com/couggi/javagraphviz/Digraph.java:100 | distinct counter values give distinct suffixes |
| Decimal.SuffixedIdsDistinct | src/main/java/com/couggi/javagraphviz/Digraph.java:100 | ids suffixed with distinct counters differ from each other and from the bare name |
| Attributes.Put | src/main/java/com/couggi/javagraphviz/Digraph.java:62-64 | `attr(key).value(v)`: the key then maps to `v`, every other key keeps its value, and the key is appended to the names only when it was absent |
| Attributes.PutUnchanged | src/main/java/com/couggi/javagraphviz/Digraph.java:62-64 | setting an attribute to the value it already has leaves the store exactly as it was |
| Attributes.PutIdempotent | src/main/java/com/couggi/javagraphviz/Digraph.java:62-64 | setting one attribute to one value twice is the same as setting it once |
| Attributes.Touch | src/main/java/com/couggi/javagraphviz/Digraph.java:62-64 | `attr(key)` alone: a present key keeps its value; an absent key is created with the store's initial value and appended to the names; every other key is unchanged; the store is non-empty afterwards |
| Attributes.PutAfterTouch | src/main/java/com/couggi/javagraphviz/Digraph.java:62-64 | `attr(key).value(v)` is `attr(key)` followed by the overwrite: whatever `attr(key)` created, the store ends up as `Put` leaves it |
| Attributes.AttrListConcat | src/main/java/com/couggi/javagraphviz/Digraph.java:165-168 | the `k = v` list of two stores placed end to end is their two lists joined by `", "` |
| Attributes.Block | src/main/java/com/couggi/javagraphviz/Digraph.java:164-170 | a ` graph/node/edge [...];` block is empty exactly when its store is empty |
| Elements.Node.constructor | src/main/java/com/couggi/javagraphviz/Digraph.java:101 | a new node has the given display name and id and no attributes |
| Elements.Node.SetAttr | src/main/java/com/couggi/javagraphviz/Digraph.java:62-64 | a node's attribute update is the store update `Put` |
| Elements.Edge.constructor | src/main/java/com/couggi/javagraphviz/Digraph.java:112 | a new edge joins the given nodes and has no attributes |
| Elements.Edge.SetAttr | src/main/java/com/couggi/javagraphviz/Digraph.java:119 | an edge's attribute update is the store update `Put` |
| Elements.NodeStatementsSnoc | src/main/java/com/couggi/javagraphviz/Digraph.java:209-211 | one more node appends exactly `" "` and its statement to the node statements |
| Elements.WrapParts | src/main/java/com/couggi/javagraphviz/Digraph.java:218-223 | a wrapped text is the header `keyword name {`, then the body (recoverable by slicing), then `}` |
| Elements.AnyContainsIff | src/main/java/com/couggi/javagraphviz/Digraph.java:127-130 | the in-order subgraph search succeeds exactly when some subgraph contains the node |
| Enumerations.ValuesAt | src/main/java/com/couggi/javagraphviz/Digraph.java:146 | the map's values listed in a key order: same length, and position `i` holds the value of key `i` |
| Enumerations.EnumerationStep | src/main/java/com/couggi/javagraphviz/Digraph.java:209 | taking one more unvisited key keeps a map walk listing each visited key once |
| Enumerations.SingletonEnumeration | src/main/java/com/couggi/javagraphviz/Digraph.java:209 | a map with one key can only be walked in one way |
| Digraphs.EmptyDigraphText | src/main/java/com/couggi/javagraphviz/Digraph.java:157-227 | with nothing in it, a digraph's text is exactly `digraph name {}` |
| Digraphs.DigraphTextFrame | src/main/java/com/couggi/javagraphviz/Digraph.java:217-223 | every digraph text opens with `digraph name {` and ends with `}` |
| Digraphs.AppendEdgeText | src/main/java/com/couggi/javagraphviz/Digraph.java:213-223 | adding an edge inserts exactly `" "` and its statement just before the closing brace, after everything else |
| Digraphs.Digraph.constructor | src/main/java/com/couggi/javagraphviz/Digraph.java:49-57 | a new digraph has the given name, empty stores, counter 0, and no nodes, edges or subgraphs |
| Digraphs.Digraph.GetAttr | src/main/java/com/couggi/javagraphviz/Digraph.java:62-64 | a bare `attr(key)` changes only the graph store, by `Touch`, and from then on the ` graph [...];` block is emitted; the graph stays valid |
| Digraphs.Digraph.SetAttr | src/main/java/com/couggi/javagraphviz/Digraph.java:62-64 | updates only the graph's own attribute store, by `Put`; the graph stays valid |
| Digraphs.Digraph.SetNodeDefault | src/main/java/com/couggi/javagraphviz/Digraph.java:84-86 | updates only the node-default store, by `Put`; the graph stays valid |
| Digraphs.Digraph.SetEdgeDefault | src/main/java/com/couggi/javagraphviz/Digraph.java:137-139 | updates only the edge-default store, by `Put`; the graph stays valid |
| Digraphs.Digraph.AddNode | src/main/java/com/couggi/javagraphviz/Digraph.java:99-104 | a free name is its own id with the counter unchanged; a taken name gets `name + idCount` and the counter advances by one (Java `int`). The node keeps `name` as display name and is filed under its id, replacing any node already there. Nothing else changes and every node stays filed under its own id |
| Digraphs.Digraph.TryAddNode | src/main/java/com/couggi/javagraphviz/Digraph.java:88-94 | an existing node under `name` is returned with nothing changed; otherwise it acts as `addNode` on a free name; afterwards the result is filed under `name` |
| Digraphs.Digraph.ContainsNode | src/main/java/com/couggi/javagraphviz/Digraph.java:124-132 | true exactly when the node is one of the graph's own nodes or some subgraph contains it |
| Digraphs.Digraph.AddEdge | src/main/java/com/couggi/javagraphviz/Digraph.java:109-115 | succeeds exactly when the source is contained (the target is never checked), then appends one fresh edge `(from, to)` after the existing ones; otherwise fails with `nodes not found` and changes nothing; the graph stays valid |
| Digraphs.Digraph.AddUndirectedEdge | src/main/java/com/couggi/javagraphviz/Digraph.java:117-121 | the effect of `addEdge`, and the new edge carries `dir = none`; the graph stays valid |
| Digraphs.Digraph.AddSubGraph | src/main/java/com/couggi/javagraphviz/Digraph.java:229-231 | appends the subgraph and changes nothing else; the graph stays valid |
| Digraphs.Digraph.EmptyRendering | src/main/java/com/couggi/javagraphviz/Digraph.java:157-227 | an empty digraph can render only as `digraph name {}` |
| Digraphs.Digraph.Output | src/main/java/com/couggi/javagraphviz/Digraph.java:157-227 | changes nothing and returns the DOT text for an enumeration order of the node map that lists every id once |
| Digraphs.Digraph.Render | src/main/java/com/couggi/javagraphviz/Digraph.java:157-227 | the text is the rendering for some enumeration of the node map |
| Digraphs.Digraph.WithSubGraphs | src/main/java/com/couggi/javagraphviz/Digraph.java:202-205 | the subgraph texts go after the default blocks and before the statements, all wrapped as `digraph name {...}` |
| Digraphs.Digraph.StatementOutputs | src/main/java/com/couggi/javagraphviz/Digraph.java:207-215 | all node statements, in map order, then all edge statements |
| Digraphs.Digraph.NodeOutputs | src/main/java/com/couggi/javagraphviz/Digraph.java:208-211 | one statement per node, in an order that lists every id exactly once |
| Digraphs.EdgeOutputs | src/main/java/com/couggi/javagraphviz/Digraph.java:212-215 | one statement per edge, in insertion order |
| Digraphs.DefaultOutputs | src/main/java/com/couggi/javagraphviz/Digraph.java:163-200 | the graph, node and edge blocks, in that order |
| Digraphs.AttrBlock | src/main/java/com/couggi/javagraphviz/Digraph.java:164-170 | ` keyword [...];` for a non-empty store, nothing for an empty one |
| Digraphs.JoinAttrs | src/main/java/com/couggi/javagraphviz/Digraph.java:165-168 | the separator loop yields the pairs joined by `", "` |
| Executables.EqualsIgnoreCaseUpper | src/main/java/com/couggi/javagraphviz/GraphvizEngine.java:105 | two names match ignoring case exactly when their upper-case forms are equal |
| Executables.PathKeySpellings | src/main/java/com/couggi/javagraphviz/GraphvizEngine.java:105 | the keys accepted are exactly those whose upper-case form is `PATH` |
| Executables.PathEnvName | src/main/java/com/couggi/javagraphviz/GraphvizEngine.java:101-115 | returns an environment key matching `PATH` ignoring case, the first such key in the map's walk; fails with `Path environment variable not found` exactly when no key matches |
| Executables.JoinFields | src/main/java/com/couggi/javagraphviz/GraphvizEngine.java:122 | the fields of a string between separators join back into the string |
| Executables.JavaSplit | src/main/java/com/couggi/javagraphviz/GraphvizEngine.java:122 | `split`: no piece holds the separator; with no separator the string alone; otherwise the fields up to the last non-empty one, every dropped field being empty |
| Executables.Candidates | src/main/java/com/couggi/javagraphviz/GraphvizEngine.java:123-133 | the files tried: `dir/prog` then `dir/prog.exe`, for each directory in order |
| Executables.FirstRunnable | src/main/java/com/couggi/javagraphviz/GraphvizEngine.java:123-133 | the first candidate that is executable and not a directory; none exactly when no candidate qualifies |
| Executables.FirstRunnableAt | src/main/java/com/couggi/javagraphviz/GraphvizEngine.java:123-133 | a qualifying candidate with none qualifying before it is the one found |
| Executables.SearchSoleDirectory | src/main/java/com/couggi/javagraphviz/GraphvizEngine.java:117-135 | a program runnable in exactly one place on the path is found there as `dir/prog` |
| Executables.FindExecutable | src/main/java/com/couggi/javagraphviz/GraphvizEngine.java:117-135 | without a `PATH` key, fails as `pathEnvName` does; otherwise returns the first runnable candidate along the split `PATH` value of a matching key, or fails with `<prog> program not found.` |
| Engine.OutputType.constructor | src/main/java/com/couggi/javagraphviz/GraphvizEngine.java:181 | a new output type has the given format and no path set |
| Engine.OutputType.ToFilePath | src/main/java/com/couggi/javagraphviz/GraphvizEngine.java:219 | sets the type's path |
| Engine.TypeArgs | src/main/java/com/couggi/javagraphviz/GraphvizEngine.java:65-72 | two arguments per type: `-T` + format, then `-o` + path |
| Engine.TypeArgsSnoc | src/main/java/com/couggi/javagraphviz/GraphvizEngine.java:65-72 | one more type appends exactly its two arguments |
| Engine.CommandLineShape | src/main/java/com/couggi/javagraphviz/GraphvizEngine.java:61-75 | the vector has `2 + 2 * types` entries: program first, DOT file last, and the two flags of type `i` at positions `1 + 2i` and `2 + 2i` |
| Engine.GraphvizEngine.constructor | src/main/java/com/couggi/javagraphviz/GraphvizEngine.java:36-46 | a new engine has exactly the type `png`, layout `dot` and working directory `.` |
| Engine.GraphvizEngine.FromDirectoryPath | src/main/java/com/couggi/javagraphviz/GraphvizEngine.java:170-173 | sets only the working directory |
| Engine.GraphvizEngine.Layout | src/main/java/com/couggi/javagraphviz/GraphvizEngine.java:204-207 | sets only the layout program's name |
| Engine.GraphvizEngine.AddType | src/main/java/com/couggi/javagraphviz/GraphvizEngine.java:178-186 | a registered format returns its type with nothing changed; otherwise exactly one fresh type is added and returned; the registry stays non-empty |
| Engine.GraphvizEngine.RemoveType | src/main/java/com/couggi/javagraphviz/GraphvizEngine.java:191-199 | fails with `must be a type defined.` and changes nothing exactly when one type is registered; otherwise removes only that key (nothing if absent); the registry is never empty |
| Engine.GraphvizEngine.ToFilePath | src/main/java/com/couggi/javagraphviz/GraphvizEngine.java:214-222 | fails with `there was more of a type defined.` and changes no path exactly when several types are registered; otherwise the sole type's path is set |
| Engine.GraphvizEngine.DotText | src/main/java/com/couggi/javagraphviz/GraphvizEngine.java:55 | the DOT text is the graph's own rendering |
| Engine.GraphvizEngine.Output | src/main/java/com/couggi/javagraphviz/GraphvizEngine.java:58-75 | the program is resolved as `findExecutable` does; a failure is passed on; otherwise the vector is the program, the flags of every registered type in an enumeration of the registry, then the DOT file |
| Engine.GraphvizEngine.TypeArguments | src/main/java/com/couggi/javagraphviz/GraphvizEngine.java:65-72 | the loop over the registry yields the flags of each type once |
| Scenarios.OneNodeOutput | src/main/java/com/couggi/javagraphviz/Digraph.java:157-227 | digraph `G` with one plain node `n` serialises as `digraph G { n;}` |
| Scenarios.SameNameTwice | src/main/java/com/couggi/javagraphviz/Digraph.java:99-104 | the same name added twice yields ids `name` and `name0`, two nodes |
| Scenarios.SuffixCollision | src/main/java/com/couggi/javagraphviz/Digraph.java:99-115 | after `a0`, `a`, `a` the first node has been replaced, is no longer contained, and an edge from it is refused |
| Scenarios.TryAddTwice | src/main/java/com/couggi/javagraphviz/Digraph.java:88-94 | two `tryAddNode` calls with one name give the same node and one entry |
| Scenarios.EdgeToOutsider | src/main/java/com/couggi/javagraphviz/Digraph.java:109-115 | an edge to a node outside the graph is accepted |
| Scenarios.AddTypeTwice | src/main/java/com/couggi/javagraphviz/GraphvizEngine.java:178-186 | two `addType` calls with one name return the same type and register it once |
| Scenarios.RemoveDownToOne | src/main/java/com/couggi/javagraphviz/GraphvizEngine.java:191-199 | from `png` and `svg`, removing `svg` succeeds, then removing `png` fails and the same `png` type stays |
| Scenarios.FilePathOfSoleType | src/main/java/com/couggi/javagraphviz/GraphvizEngine.java:214-222 | `toFilePath` fails with two types and sets the sole type's path once one is left |

## Left out

- Spawning the layout program, waiting for it and logging its error stream (`GraphvizEngine.java:77-83`) are process I/O. The model stops at the argument vector.
- Creating and writing the temporary DOT file (`GraphvizEngine.java:143-155`) is file I/O. Its path is the `dotFile` parameter. The text written to it is `GraphvizEngine.DotText`, a separate method from `GraphvizEngine.Output`: the text has no other use in `output()`, and nothing links the two.
- Wrapping `IOException` and `InterruptedException` with logging (`GraphvizEngine.java:84-97`) only reacts to I/O failures.
- `System.getenv`, `File.canExecute` and `File.isDirectory` are inputs: a map for the environment, and two sets of paths in `FileSystem`. `File.separator` and `File.pathSeparator` are fixed to the POSIX `/` and `:`.
- Executables.EqualsIgnoreCase: folds ASCII letters only. Java's `equalsIgnoreCase` also folds non-ASCII letters, which no spelling of `PATH` needs.
- The unreachable null branches in `findExecutable` are left out. The value of a key taken from the environment is never null (`GraphvizEngine.java:119-120`). `split` never yields a null piece (`GraphvizEngine.java:124`, `129`).
- `types()` (`GraphvizEngine.java:160-162`) and the getters of `Digraph` are left out: `attrs`, `name`, `node`, `edge`, `edges`, `nodes`, `subGraphs`, `getType`. The model reads the fields directly.
- The `Attrs`, `Attr`, `Node`, `Edge`, `SubGraph` and `OutputType` classes are not part of this model. The model assumes the following about them:
  - Attribute values are stored already rendered, as `AttributeValue.toGv()` would give them; quoting is not modelled.
  - A node's statement is `id [k = v, ...];` and an edge's is `from -> to [k = v, ...];`, the brackets omitted when there are no attributes.
  - Nodes compare by reference.
  - `Attrs.get(key)` creates an absent attribute with an initial value, given as the `initial` parameter of `Touch` and `Digraph.GetAttr`. A bare `attr(key)` on a node, an edge or a default template (`node().attr(key)`, `edge().attr(key)`) creates the entry the same way, but only the graph's own store has a member for it.
  - A new `Node` or `Edge` has no attributes (`Node` and `Edge` constructors in `elements.dfy`).
  - The default node and edge templates start with no attributes (`Digraph` constructor).
  - A subgraph renders as `subgraph name {...}` with the same body layout as the digraph, and its `containsNode` searches its own nodes and then its subgraphs in the same way (`SubGraphText` and `SubContains` in `elements.dfy`).
  - `OutputType.filePath()` falls back to a per-format default, given as the `defaultPath` parameter.
- A subgraph is a value snapshot of its parts, not a live object. The model does not capture changes made through a subgraph after it is added, nor the live list that `subGraphs()` hands out.
- A node's back-reference to its graph (`new Node(name, id, this)`) is not modelled.
- Digraphs.Digraph.Output: does not fix the node order. `HashMap` enumeration order is unspecified, so the contract covers every order that lists each id once. The same holds for the output types in `GraphvizEngine.Output` and the environment keys in `PathEnvName`.
- The engine's graph is a `Digraph`. The `Graph` interface and its other implementations are not part of this model.
