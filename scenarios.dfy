/**
 * Concrete call sequences on fresh graphs and engines, with the outcome the
 * code gives for each.
 */
module Scenarios {
  import opened Wrappers
  import opened Decimal
  import opened Enumerations
  import opened Elements
  import opened Digraphs
  import opened Executables
  import opened Engine

  /** A digraph `G` holding one plain node `n` serialises as `digraph G { n;}`. */
  method OneNodeOutput() returns (text: string)
    ensures text == "digraph G { n;}"
  {
    var g := new Digraph("G");
    var n := g.AddNode("n");
    ghost var order;
    text, order := g.Output();
    SingletonEnumeration(order, "n");
    assert ValuesAt(g.nodes, order) == [n];
    OneNodeText(n);
  }

  lemma OneNodeText(n: Node)
    requires n.id == "n" && n.attrs == []
    ensures DigraphText("G", [], [], [], [], [n], []) == "digraph G { n;}"
  {
    assert NodeStatements([n]) == " n;" by {
      assert [n][..0] == [];
    }
    assert Body([], [], [], SubGraphBlocks([]), [n], []) == " n;";
  }

  /** Adding the same name twice gives ids `name` and `name0`, two distinct nodes. */
  method SameNameTwice(name: string) returns (first: string, second: string, size: int)
    ensures first == name && second == name + "0"
    ensures size == 2
  {
    var g := new Digraph("G");
    var a := g.AddNode(name);
    var b := g.AddNode(name);
    assert IntText(0) == "0";
    assert |b.id| > |a.id|;
    first, second, size := a.id, b.id, |g.nodes|;
  }

  /**
   * The suffixed id is not checked: after `a0`, `a`, `a`, the third node is
   * filed under `a0` and the first one drops out of the graph, so an edge
   * from it is refused.
   */
  method SuffixCollision() returns (stillThere: bool, r: Result<Edge, GraphError>, size: int)
    ensures !stillThere
    ensures r == Err(IllegalArgument("nodes not found"))
    ensures size == 2
  {
    var g := new Digraph("G");
    var x := g.AddNode("a0");
    var y := g.AddNode("a");
    var z := g.AddNode("a");
    assert IntText(0) == "0";
    assert z.id == "a0";
    assert g.nodes == map["a0" := z, "a" := y];
    stillThere := g.ContainsNode(x);
    r := g.AddEdge(x, y);
    size := |g.nodes|;
  }

  /** `tryAddNode` twice with one name yields one node, the same both times. */
  method TryAddTwice(name: string) returns (same: bool, size: int)
    ensures same && size == 1
  {
    var g := new Digraph("G");
    var a := g.TryAddNode(name);
    var b := g.TryAddNode(name);
    same, size := a == b, |g.nodes|;
  }

  /** Only the edge's source is looked up: an edge to a node outside the graph is accepted. */
  method EdgeToOutsider() returns (r: Result<Edge, GraphError>, inGraph: bool)
    ensures r.Ok? && r.value.to.id == "b"
    ensures !inGraph
  {
    var g := new Digraph("G");
    var a := g.AddNode("a");
    var b := new Node("b", "b");
    inGraph := g.ContainsNode(b);
    r := g.AddEdge(a, b);
  }

  /** `addType` twice with one name registers one type and returns it both times. */
  method AddTypeTwice(g: Digraph) returns (same: bool, names: set<string>)
    ensures same && names == {"png", "svg"}
  {
    var e := new GraphvizEngine(g);
    var s1 := e.AddType("svg");
    var s2 := e.AddType("svg");
    same, names := s1 == s2, e.types.Keys;
  }

  /**
   * With `png` and `svg` registered, removing `svg` succeeds; removing the
   * last type then fails and leaves it in place.
   */
  method RemoveDownToOne(g: Digraph) returns (first: Outcome<EngineError>, second: Outcome<EngineError>,
                                              names: set<string>, kept: bool)
    ensures first == Pass
    ensures second == Fail(IllegalState("must be a type defined."))
    ensures names == {"png"} && kept
  {
    var e := new GraphvizEngine(g);
    var png := e.types["png"];
    var svg := e.AddType("svg");
    first := e.RemoveType("svg");
    second := e.RemoveType("png");
    names, kept := e.types.Keys, e.types["png"] == png;
  }

  /** `toFilePath` is refused while two types are registered and sets the sole type's path once one is left. */
  method FilePathOfSoleType(g: Digraph, path: string) returns (refused: Outcome<EngineError>,
                                                               accepted: Outcome<EngineError>, filePath: Option<string>)
    ensures refused == Fail(IllegalState("there was more of a type defined."))
    ensures accepted == Pass && filePath == Some(path)
  {
    var e := new GraphvizEngine(g);
    var svg := e.AddType("svg");
    refused := e.ToFilePath("ignored");
    var removed := e.RemoveType("svg");
    accepted := e.ToFilePath(path);
    filePath := e.types["png"].filePath;
  }
}
