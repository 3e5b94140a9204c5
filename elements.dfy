/**
 * The elements a graph container owns and the DOT fragments they produce:
 * nodes and edges (objects whose attributes change in place), nested
 * subgraphs, and the shared layout of a container's DOT text.
 */
module Elements {
  import opened Attributes

  /** A node: its display name and DOT id are fixed at creation; its attributes change in place. */
  class Node {
    const name: string
    const id: string
    var attrs: seq<Attr>

    constructor (name: string, id: string)
      ensures this.name == name && this.id == id && attrs == []
    {
      this.name := name;
      this.id := id;
      attrs := [];
    }

    method SetAttr(key: string, value: string)
      modifies this
      ensures attrs == Put(old(attrs), key, value)
    {
      attrs := Put(attrs, key, value);
    }
  }

  /** A directed edge between two nodes; only its attributes change after creation. */
  class Edge {
    const from: Node
    const to: Node
    var attrs: seq<Attr>

    constructor (from: Node, to: Node)
      ensures this.from == from && this.to == to && attrs == []
    {
      this.from := from;
      this.to := to;
      attrs := [];
    }

    method SetAttr(key: string, value: string)
      modifies this
      ensures attrs == Put(old(attrs), key, value)
    {
      attrs := Put(attrs, key, value);
    }
  }

  /** `id;` or `id [k = v, ...];` */
  function NodeText(n: Node): string
    reads n
  {
    n.id + Suffix(n.attrs) + ";"
  }

  /** `from -> to;` or `from -> to [k = v, ...];` */
  function EdgeText(e: Edge): string
    reads e
  {
    e.from.id + " -> " + e.to.id + Suffix(e.attrs) + ";"
  }

  /** Each node's statement preceded by one space, in the order given. */
  function NodeStatements(ns: seq<Node>): string
    reads ns
  {
    if ns == [] then "" else NodeStatements(ns[..|ns| - 1]) + " " + NodeText(ns[|ns| - 1])
  }

  /** Appending a node appends its statement. */
  lemma NodeStatementsSnoc(ns: seq<Node>, n: Node)
    ensures NodeStatements(ns + [n]) == NodeStatements(ns) + " " + NodeText(n)
  {
    assert (ns + [n])[..|ns|] == ns;
  }

  /** Each edge's statement preceded by one space, in the order given. */
  function EdgeStatements(es: seq<Edge>): string
    reads es
  {
    if es == [] then "" else EdgeStatements(es[..|es| - 1]) + " " + EdgeText(es[|es| - 1])
  }

  /**
   * A nested container. The subgraph's own class is not part of this model;
   * it is taken as a value holding the same parts as a digraph.
   */
  datatype SubGraph = SubGraph(
    name: string,
    attrs: seq<Attr>,
    nodeDefaults: seq<Attr>,
    edgeDefaults: seq<Attr>,
    nodes: seq<Node>,
    edges: seq<Edge>,
    subGraphs: seq<SubGraph>)

  /** The nodes and edges of a subgraph tree, whose attributes its text reads. */
  ghost function Objects(g: SubGraph): set<object>
    decreases g
  {
    (set n: Node | n in g.nodes) + (set e: Edge | e in g.edges) + ObjectsOf(g.subGraphs)
  }

  ghost function ObjectsOf(subs: seq<SubGraph>): set<object>
    decreases subs
  {
    if subs == [] then {} else ObjectsOf(subs[..|subs| - 1]) + Objects(subs[|subs| - 1])
  }

  /**
   * The body of a container's DOT text: the three default blocks, the
   * subgraph blocks, the node statements, then the edge statements.
   */
  function Body(attrs: seq<Attr>, nodeDefaults: seq<Attr>, edgeDefaults: seq<Attr>,
                blocks: string, nodes: seq<Node>, edges: seq<Edge>): string
    reads nodes, edges
  {
    Defaults(attrs, nodeDefaults, edgeDefaults) + blocks + Statements(nodes, edges)
  }

  /** The graph, node-default and edge-default blocks, each present only when non-empty. */
  function Defaults(attrs: seq<Attr>, nodeDefaults: seq<Attr>, edgeDefaults: seq<Attr>): string
  {
    Block("graph", attrs) + Block("node", nodeDefaults) + Block("edge", edgeDefaults)
  }

  /** The node statements followed by the edge statements. */
  function Statements(nodes: seq<Node>, edges: seq<Edge>): string
    reads nodes, edges
  {
    NodeStatements(nodes) + EdgeStatements(edges)
  }

  /** `keyword name {body}` */
  function Wrap(keyword: string, name: string, body: string): string
  {
    keyword + " " + name + " {" + body + "}"
  }

  /** A wrapped text has the fixed header and closing brace, and the body can be read back from between them. */
  lemma WrapParts(keyword: string, name: string, body: string)
    ensures var r := Wrap(keyword, name, body);
      && |r| == |keyword| + |name| + |body| + 4
      && r[..|keyword| + |name| + 3] == keyword + " " + name + " {"
      && r[|keyword| + |name| + 3..|r| - 1] == body
      && r[|r| - 1] == '}'
  {
    var r := Wrap(keyword, name, body);
    assert r == (keyword + " " + name + " {") + body + "}";
  }

  function SubGraphText(g: SubGraph): string
    reads Objects(g)
    decreases g
  {
    Wrap("subgraph", g.name,
      Body(g.attrs, g.nodeDefaults, g.edgeDefaults, SubGraphBlocks(g.subGraphs), g.nodes, g.edges))
  }

  /** The texts of the subgraphs, in order, with nothing between them. */
  function SubGraphBlocks(subs: seq<SubGraph>): string
    reads ObjectsOf(subs)
    decreases subs
  {
    if subs == [] then "" else SubGraphBlocks(subs[..|subs| - 1]) + SubGraphText(subs[|subs| - 1])
  }

  /** A subgraph contains a node held directly or by any of its own subgraphs. */
  predicate SubContains(g: SubGraph, n: Node)
    decreases g
  {
    n in g.nodes || AnyContains(g.subGraphs, n)
  }

  /** Searches the subgraphs in order and stops at the first that contains `n`. */
  predicate AnyContains(subs: seq<SubGraph>, n: Node)
    decreases subs
  {
    |subs| > 0 && (SubContains(subs[0], n) || AnyContains(subs[1..], n))
  }

  lemma {:induction false} AnyContainsIff(subs: seq<SubGraph>, n: Node)
    ensures AnyContains(subs, n) <==> exists i :: 0 <= i < |subs| && SubContains(subs[i], n)
    decreases |subs|
  {
    if |subs| > 0 {
      AnyContainsIff(subs[1..], n);
      if exists i :: 0 <= i < |subs| && SubContains(subs[i], n) {
        var i :| 0 <= i < |subs| && SubContains(subs[i], n);
        if i > 0 {
          assert subs[1..][i - 1] == subs[i];
        }
      }
      if AnyContains(subs[1..], n) {
        var j :| 0 <= j < |subs[1..]| && SubContains(subs[1..][j], n);
        assert subs[j + 1] == subs[1..][j];
      }
    }
  }
}
