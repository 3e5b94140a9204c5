/**
 * The root graph container: a directed-graph builder that assigns node ids,
 * records edges and subgraphs, and serialises itself as DOT text.
 */
module Digraphs {
  import opened Wrappers
  import opened Decimal
  import opened Attributes
  import opened Elements
  import opened Enumerations

  /** The `IllegalArgumentException` thrown by `addEdge`. */
  datatype GraphError = IllegalArgument(message: string)

  /** The whole DOT program of a digraph whose nodes are emitted in the order given. */
  function DigraphText(name: string, attrs: seq<Attr>, nodeDefaults: seq<Attr>, edgeDefaults: seq<Attr>,
                       subGraphs: seq<SubGraph>, nodes: seq<Node>, edges: seq<Edge>): string
    reads nodes, edges, ObjectsOf(subGraphs)
  {
    Wrap("digraph", name,
      Body(attrs, nodeDefaults, edgeDefaults, SubGraphBlocks(subGraphs), nodes, edges))
  }

  /** Whatever the graph holds, its text opens with `digraph name {` and closes with `}`. */
  lemma DigraphTextFrame(name: string, attrs: seq<Attr>, nodeDefaults: seq<Attr>, edgeDefaults: seq<Attr>,
                         subGraphs: seq<SubGraph>, nodes: seq<Node>, edges: seq<Edge>)
    ensures var text := DigraphText(name, attrs, nodeDefaults, edgeDefaults, subGraphs, nodes, edges);
      && |text| >= |name| + 11
      && text[..|name| + 10] == "digraph " + name + " {"
      && text[|text| - 1] == '}'
  {
    WrapParts("digraph", name, Body(attrs, nodeDefaults, edgeDefaults, SubGraphBlocks(subGraphs), nodes, edges));
    assert "digraph" + " " == "digraph ";
  }

  /** With nothing in it, a digraph's text is the bare frame `digraph name {}`. */
  lemma EmptyDigraphText(name: string)
    ensures DigraphText(name, [], [], [], [], [], []) == "digraph " + name + " {}"
  {
    assert Body([], [], [], SubGraphBlocks([]), [], []) == "";
  }

  /**
   * Appending an edge adds exactly its statement, after everything else,
   * just before the closing brace.
   */
  lemma AppendEdgeText(name: string, attrs: seq<Attr>, nodeDefaults: seq<Attr>, edgeDefaults: seq<Attr>,
                       subGraphs: seq<SubGraph>, nodes: seq<Node>, edges: seq<Edge>, e: Edge)
    ensures var before := DigraphText(name, attrs, nodeDefaults, edgeDefaults, subGraphs, nodes, edges);
      && |before| > 0
      && DigraphText(name, attrs, nodeDefaults, edgeDefaults, subGraphs, nodes, edges + [e])
         == before[..|before| - 1] + " " + EdgeText(e) + "}"
  {
    assert (edges + [e])[..|edges|] == edges;
    AppendInside("digraph" + " " + name + " {",
      Defaults(attrs, nodeDefaults, edgeDefaults) + SubGraphBlocks(subGraphs),
      NodeStatements(nodes), EdgeStatements(edges), " ", EdgeText(e));
  }

  /** String algebra behind `AppendEdgeText`: text added at the end of a wrapped body lands before the brace. */
  lemma AppendInside(head: string, front: string, mid: string, tail: string, sep: string, item: string)
    ensures var before := head + (front + (mid + tail)) + "}";
      && |before| > 0
      && head + (front + (mid + (tail + sep + item))) + "}" == before[..|before| - 1] + sep + item + "}"
  {
    var before := head + (front + (mid + tail)) + "}";
    assert before[..|before| - 1] == head + (front + (mid + tail));
    assert front + (mid + (tail + sep + item)) == (front + (mid + tail)) + sep + item;
  }

  class Digraph {
    const name: string
    /** Graph-level attributes, emitted as ` graph [...];`. */
    var attrs: seq<Attr>
    /** Attributes of the default node template, emitted as ` node [...];`. */
    var nodeDefaults: seq<Attr>
    /** Attributes of the default edge template, emitted as ` edge [...];`. */
    var edgeDefaults: seq<Attr>
    /** The Java `int` counter that suffixes duplicate node names. */
    var idCount: int
    /** Node id to node. */
    var nodes: map<string, Node>
    var edges: seq<Edge>
    var subGraphs: seq<SubGraph>

    /** Every node is filed under its own id, and the counter stays a Java `int`. */
    ghost predicate Valid()
      reads this
    {
      && IsInt32(idCount)
      && forall k :: k in nodes ==> nodes[k].id == k
    }

    constructor (name: string)
      ensures Valid()
      ensures this.name == name && attrs == [] && nodeDefaults == [] && edgeDefaults == []
      ensures idCount == 0 && nodes == map[] && edges == [] && subGraphs == []
    {
      this.name := name;
      attrs := [];
      nodeDefaults := [];
      edgeDefaults := [];
      idCount := 0;
      nodes := map[];
      edges := [];
      subGraphs := [];
    }

    /**
     * `attr(key)` alone: the attribute is created with the store's initial
     * value `initial` when absent, so the ` graph [...];` block is emitted
     * from then on.
     */
    method GetAttr(key: string, initial: string)
      requires Valid()
      modifies this`attrs
      ensures Valid()
      ensures attrs == Touch(old(attrs), key, initial)
      ensures Block("graph", attrs) != ""
    {
      attrs := Touch(attrs, key, initial);
    }

    /** `attr(key).value(value)` on the graph's own attribute store. */
    method SetAttr(key: string, value: string)
      requires Valid()
      modifies this`attrs
      ensures Valid()
      ensures attrs == Put(old(attrs), key, value)
    {
      attrs := Put(attrs, key, value);
    }

    /** `node().attr(key).value(value)`: sets an attribute of the default node template. */
    method SetNodeDefault(key: string, value: string)
      requires Valid()
      modifies this`nodeDefaults
      ensures Valid()
      ensures nodeDefaults == Put(old(nodeDefaults), key, value)
    {
      nodeDefaults := Put(nodeDefaults, key, value);
    }

    /** `edge().attr(key).value(value)`: sets an attribute of the default edge template. */
    method SetEdgeDefault(key: string, value: string)
      requires Valid()
      modifies this`edgeDefaults
      ensures Valid()
      ensures edgeDefaults == Put(old(edgeDefaults), key, value)
    {
      edgeDefaults := Put(edgeDefaults, key, value);
    }

    /**
     * Adds a node named `name`. A name that is not yet a key is its own id;
     * otherwise the id is the name followed by the counter, which is then
     * incremented. The suffixed id is not checked: it may replace a node
     * already filed under it.
     */
    method AddNode(name: string) returns (node: Node)
      requires Valid()
      modifies this
      ensures Valid()
      ensures fresh(node) && node.name == name && node.attrs == []
      ensures name !in old(nodes) ==> node.id == name && idCount == old(idCount)
      ensures name in old(nodes) ==>
        node.id == name + IntText(old(idCount)) && idCount == Int32Succ(old(idCount))
      ensures nodes == old(nodes)[node.id := node]
      ensures attrs == old(attrs) && nodeDefaults == old(nodeDefaults) && edgeDefaults == old(edgeDefaults)
      ensures edges == old(edges) && subGraphs == old(subGraphs)
    {
      var id;
      if name in nodes {
        id := name + IntText(idCount);
        idCount := Int32Succ(idCount);
      } else {
        id := name;
      }
      node := new Node(name, id);
      nodes := nodes[id := node];
    }

    /** Returns the node filed under id `name`, adding one only when there is none. */
    method TryAddNode(name: string) returns (node: Node)
      requires Valid()
      modifies this
      ensures Valid()
      ensures name in old(nodes) ==>
        node == old(nodes)[name] && nodes == old(nodes) && idCount == old(idCount)
      ensures name !in old(nodes) ==>
        && fresh(node) && node.name == name && node.id == name && node.attrs == []
        && nodes == old(nodes)[name := node] && idCount == old(idCount)
      ensures name in nodes && nodes[name] == node
      ensures attrs == old(attrs) && nodeDefaults == old(nodeDefaults) && edgeDefaults == old(edgeDefaults)
      ensures edges == old(edges) && subGraphs == old(subGraphs)
    {
      if name in nodes {
        node := nodes[name];
      } else {
        node := AddNode(name);
      }
    }

    /** The recursive membership test: own nodes first, then the subgraphs in order. */
    predicate Contains(node: Node)
      reads this
    {
      node in nodes.Values || AnyContains(subGraphs, node)
    }

    method ContainsNode(node: Node) returns (contains: bool)
      ensures contains == Contains(node)
      ensures contains <==>
        node in nodes.Values || exists i :: 0 <= i < |subGraphs| && SubContains(subGraphs[i], node)
    {
      AnyContainsIff(subGraphs, node);
      contains := node in nodes.Values;
      if !contains {
        var i := 0;
        while i < |subGraphs|
          invariant 0 <= i <= |subGraphs|
          invariant !contains
          invariant forall j :: 0 <= j < i ==> !SubContains(subGraphs[j], node)
        {
          contains := SubContains(subGraphs[i], node);
          if contains {
            break;
          }
          i := i + 1;
        }
      }
    }

    /**
     * Appends an edge from `from` to `to`. Only `from` is looked up (the
     * guard tests it twice), so an edge to a node outside the graph is
     * accepted.
     */
    method AddEdge(from: Node, to: Node) returns (r: Result<Edge, GraphError>)
      requires Valid()
      modifies this
      ensures Valid()
      ensures r.Ok? <==> old(Contains(from))
      ensures r.Ok? ==>
        && fresh(r.value) && r.value.from == from && r.value.to == to && r.value.attrs == []
        && edges == old(edges) + [r.value]
      ensures r.Err? ==> r.error == IllegalArgument("nodes not found") && edges == old(edges)
      ensures attrs == old(attrs) && nodeDefaults == old(nodeDefaults) && edgeDefaults == old(edgeDefaults)
      ensures idCount == old(idCount) && nodes == old(nodes) && subGraphs == old(subGraphs)
    {
      var found := ContainsNode(from);
      if found {
        found := ContainsNode(from);
      }
      if !found {
        return Err(IllegalArgument("nodes not found"));
      }
      var edge := new Edge(from, to);
      edges := edges + [edge];
      r := Ok(edge);
    }

    /** `addEdge`, then the new edge's `dir` attribute is set to `none`. */
    method AddUndirectedEdge(a: Node, b: Node) returns (r: Result<Edge, GraphError>)
      requires Valid()
      modifies this
      ensures Valid()
      ensures r.Ok? <==> old(Contains(a))
      ensures r.Ok? ==>
        && fresh(r.value) && r.value.from == a && r.value.to == b
        && r.value.attrs == [Attr("dir", "none")]
        && edges == old(edges) + [r.value]
      ensures r.Err? ==> r.error == IllegalArgument("nodes not found") && edges == old(edges)
      ensures attrs == old(attrs) && nodeDefaults == old(nodeDefaults) && edgeDefaults == old(edgeDefaults)
      ensures idCount == old(idCount) && nodes == old(nodes) && subGraphs == old(subGraphs)
    {
      r := AddEdge(a, b);
      if r.Ok? {
        r.value.SetAttr("dir", "none");
      }
    }

    /** Appends a subgraph; nothing is checked. */
    method AddSubGraph(graph: SubGraph)
      requires Valid()
      modifies this
      ensures Valid()
      ensures subGraphs == old(subGraphs) + [graph]
      ensures attrs == old(attrs) && nodeDefaults == old(nodeDefaults) && edgeDefaults == old(edgeDefaults)
      ensures idCount == old(idCount) && nodes == old(nodes) && edges == old(edges)
    {
      subGraphs := subGraphs + [graph];
    }

    /** The text `output()` produces when the node map is enumerated in key order `order`. */
    function Rendering(order: seq<string>): string
      requires forall i :: 0 <= i < |order| ==> order[i] in nodes
      reads this, nodes.Values, edges, ObjectsOf(subGraphs)
    {
      DigraphText(name, attrs, nodeDefaults, edgeDefaults, subGraphs, ValuesAt(nodes, order), edges)
    }

    /** `text` is what `output()` produces for some enumeration order of the node map. */
    ghost predicate Renders(text: string)
      reads this, nodes.Values, edges, ObjectsOf(subGraphs)
    {
      exists order :: IsEnumeration(order, nodes.Keys) && text == Rendering(order)
    }

    /** A graph with nothing in it renders only as the bare frame `digraph name {}`. */
    lemma EmptyRendering(text: string)
      requires attrs == [] && nodeDefaults == [] && edgeDefaults == []
      requires nodes == map[] && edges == [] && subGraphs == []
      ensures Renders(text) <==> text == "digraph " + name + " {}"
    {
      EmptyDigraphText(name);
      assert Rendering([]) == "digraph " + name + " {}";
      if Renders(text) {
        var order :| IsEnumeration(order, nodes.Keys) && text == Rendering(order);
        EnumerationSize(order, nodes.Keys);
        assert order == [];
      } else {
        assert IsEnumeration([], nodes.Keys);
      }
    }

    /**
     * Serialises the graph as DOT. Only reads the graph: the method may
     * change nothing. The nodes come out in whatever order the map offers.
     */
    method Output() returns (text: string, ghost order: seq<string>)
      ensures IsEnumeration(order, nodes.Keys)
      ensures text == Rendering(order)
    {
      var defaults := DefaultOutputs(attrs, nodeDefaults, edgeDefaults);
      var lines;
      ghost var listed;
      lines, order, listed := StatementOutputs();
      text := WithSubGraphs(defaults, lines, order, listed);
    }

    /** `output()` as its callers see it: the rendering for some order of the node map. */
    method Render() returns (text: string)
      ensures Renders(text)
    {
      ghost var order;
      text, order := Output();
    }

    /**
     * Appends each subgraph's own output after the default blocks, then the
     * statements, and wraps the whole. The statements are built first only so
     * that no call separates the subgraph texts from the wrap.
     */
    method WithSubGraphs(defaults: string, lines: string, ghost order: seq<string>, ghost listed: seq<Node>)
        returns (text: string)
      requires defaults == Defaults(attrs, nodeDefaults, edgeDefaults)
      requires IsEnumeration(order, nodes.Keys)
      requires listed == ValuesAt(nodes, order)
      requires lines == Statements(listed, edges)
      ensures text == Rendering(order)
    {
      var blocks := "";
      for i := 0 to |subGraphs|
        invariant blocks == SubGraphBlocks(subGraphs[..i])
      {
        assert subGraphs[..i + 1][..i] == subGraphs[..i];
        blocks := blocks + SubGraphText(subGraphs[i]);
      }
      assert subGraphs[..|subGraphs|] == subGraphs;
      text := Wrap("digraph", name, defaults + blocks + lines);
    }

    /** The node statements, in whatever order the map offers (recorded in `order`), then the edge statements. */
    method StatementOutputs() returns (lines: string, ghost order: seq<string>, ghost listed: seq<Node>)
      ensures IsEnumeration(order, nodes.Keys)
      ensures listed == ValuesAt(nodes, order)
      ensures lines == Statements(listed, edges)
    {
      var edgeLines := EdgeOutputs(edges);
      var nodeLines;
      nodeLines, order, listed := NodeOutputs();
      lines := nodeLines + edgeLines;
    }

    /** One statement per node; the map is enumerated in whatever order it offers, recorded in `order`. */
    method NodeOutputs() returns (lines: string, ghost order: seq<string>, ghost listed: seq<Node>)
      ensures IsEnumeration(order, nodes.Keys)
      ensures listed == ValuesAt(nodes, order)
      ensures lines == NodeStatements(listed)
    {
      lines := "";
      var m := nodes;
      var remaining := m.Keys;
      order := [];
      listed := [];
      while remaining != {}
        invariant Enumerating(order, remaining, m.Keys)
        invariant listed == ValuesAt(m, order)
        invariant lines == NodeStatements(listed)
        decreases remaining
      {
        var k :| k in remaining;
        EnumerationStep(order, remaining, m.Keys, k);
        NodeStatementsSnoc(listed, m[k]);
        assert (order + [k])[..|order|] == order;
        lines := lines + " " + NodeText(m[k]);
        listed := listed + [m[k]];
        order := order + [k];
        remaining := remaining - {k};
      }
      EnumerationDone(order, m.Keys);
    }
  }

  /** One statement per edge, in insertion order. */
  method EdgeOutputs(edges: seq<Edge>) returns (lines: string)
    ensures lines == EdgeStatements(edges)
  {
    lines := "";
    for i := 0 to |edges|
      invariant lines == EdgeStatements(edges[..i])
    {
      assert edges[..i + 1][..i] == edges[..i];
      lines := lines + " " + EdgeText(edges[i]);
    }
    assert edges[..|edges|] == edges;
  }

  /** The three default blocks, in the order graph, node, edge. */
  method DefaultOutputs(attrs: seq<Attr>, nodeDefaults: seq<Attr>, edgeDefaults: seq<Attr>) returns (defaults: string)
    ensures defaults == Defaults(attrs, nodeDefaults, edgeDefaults)
  {
    var graphBlock := AttrBlock("graph", attrs);
    var nodeBlock := AttrBlock("node", nodeDefaults);
    var edgeBlock := AttrBlock("edge", edgeDefaults);
    defaults := graphBlock + nodeBlock + edgeBlock;
  }

  /** ` keyword [k = v, ...];`, or nothing when the store is empty. */
  method AttrBlock(keyword: string, list: seq<Attr>) returns (block: string)
    ensures block == Block(keyword, list)
  {
    block := "";
    if list != [] {
      var data := JoinAttrs(list);
      block := " " + keyword + " [" + data + "];";
    }
  }

  /** The `k = v` pairs of an attribute list joined by ", ", built as the source's loops build them. */
  method JoinAttrs(list: seq<Attr>) returns (data: string)
    ensures data == AttrList(list)
  {
    var separator := "";
    data := "";
    for i := 0 to |list|
      invariant data == AttrList(list[..i])
      invariant separator == if i == 0 then "" else ", "
    {
      assert list[..i + 1][..i] == list[..i];
      data := data + separator + Pair(list[i]);
      separator := ", ";
    }
    assert list[..|list|] == list;
  }
}
