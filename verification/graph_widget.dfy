/**
 * The helpers that turn the indexer's entity and relationship tables into
 * the node and edge lists of a graph widget, and colour them by community.
 */
module GraphWidget {
  import opened Wrappers

  /** A row of the nodes table: its title, its community (`None` when absent) and the other columns. */
  datatype Entity = Entity(title: string, community: Option<int>, attributes: map<string, string>)

  /** A row of the relationships table. */
  datatype Relationship = Relationship(source: string, target: string, attributes: map<string, string>)

  /** `{"id": ..., "properties": row.to_dict()}` */
  datatype Node = Node(id: string, properties: Entity)

  /** `{"start": ..., "end": ..., "properties": row.to_dict()}` */
  datatype Edge = Edge(start: string, end: string, properties: Relationship)

  // ------------------------------------------------------------------ nodes

  predicate HasTitle(rows: seq<Entity>, t: string) {
    exists i :: 0 <= i < |rows| && rows[i].title == t
  }

  /** The first row titled `t`. */
  function FirstIndex(rows: seq<Entity>, t: string): (i: nat)
    requires HasTitle(rows, t)
    ensures i < |rows| && rows[i].title == t
    ensures forall j :: 0 <= j < i ==> rows[j].title != t
    decreases |rows|
  {
    if rows[0].title == t then 0
    else
      var k :| 0 <= k < |rows| && rows[k].title == t;
      assert rows[1..][k - 1].title == t;
      1 + FirstIndex(rows[1..], t)
  }

  predicate HasId(nodes: seq<Node>, t: string) {
    exists k :: 0 <= k < |nodes| && nodes[k].id == t
  }

  /**
   * `convert_entities_to_dicts` read as a fold over the rows: a row whose
   * title is already a key of the dictionary is ignored, otherwise its
   * node is appended (dictionaries keep insertion order).
   */
  function ConvertEntities(rows: seq<Entity>): seq<Node>
    decreases |rows|
  {
    if rows == [] then []
    else
      var prev := ConvertEntities(rows[..|rows| - 1]);
      var row := rows[|rows| - 1];
      if HasId(prev, row.title) then prev else prev + [Node(row.title, row)]
  }

  /** No two nodes share an id. */
  ghost predicate DistinctIds(nodes: seq<Node>) {
    forall k, l :: 0 <= k < l < |nodes| ==> nodes[k].id != nodes[l].id
  }

  /** The node ids are exactly the row titles. */
  ghost predicate CoversTitles(rows: seq<Entity>, nodes: seq<Node>) {
    forall t :: HasId(nodes, t) <==> HasTitle(rows, t)
  }

  /** Each node carries the first row with its title. */
  ghost predicate FirstRows(rows: seq<Entity>, nodes: seq<Node>) {
    forall k :: 0 <= k < |nodes| ==>
      HasTitle(rows, nodes[k].id)
      && nodes[k] == Node(nodes[k].id, rows[FirstIndex(rows, nodes[k].id)])
  }

  /** Nodes come in the order their titles first appear. */
  ghost predicate FirstAppearanceOrder(rows: seq<Entity>, nodes: seq<Node>)
    requires FirstRows(rows, nodes)
  {
    forall k, l :: 0 <= k < l < |nodes| ==>
      FirstIndex(rows, nodes[k].id) < FirstIndex(rows, nodes[l].id)
  }

  /** `nodes` holds one node per distinct title, built from that title's first row, in order of first appearance. */
  ghost predicate Dedupes(rows: seq<Entity>, nodes: seq<Node>) {
    DistinctIds(nodes) && CoversTitles(rows, nodes) && FirstRows(rows, nodes)
    && FirstAppearanceOrder(rows, nodes)
  }

  /** Extending the rows does not move the first row of a title already present. */
  lemma FirstIndexPrefix(rows: seq<Entity>, n: nat, t: string)
    requires n <= |rows| && HasTitle(rows[..n], t)
    ensures HasTitle(rows, t)
    ensures FirstIndex(rows, t) == FirstIndex(rows[..n], t)
  {
    var i := FirstIndex(rows[..n], t);
    assert rows[i] == rows[..n][i];
    assert forall j :: 0 <= j < i ==> rows[j] == rows[..n][j];
  }

  /** Appending a node adds exactly its id. */
  lemma HasIdSnoc(nodes: seq<Node>, node: Node, t: string)
    ensures HasId(nodes + [node], t) <==> HasId(nodes, t) || t == node.id
  {
    var all := nodes + [node];
    assert all[|nodes|] == node;
    assert forall k :: 0 <= k < |nodes| ==> all[k] == nodes[k];
  }

  /** The titles of all rows are those of all rows but the last, plus the last one's. */
  lemma TitlesSnoc(rows: seq<Entity>)
    requires rows != []
    ensures forall t :: HasTitle(rows, t) <==> HasTitle(rows[..|rows| - 1], t) || t == rows[|rows| - 1].title
    ensures forall t :: HasTitle(rows[..|rows| - 1], t) ==> FirstIndex(rows, t) == FirstIndex(rows[..|rows| - 1], t)
  {
    var n := |rows| - 1;
    forall t | HasTitle(rows[..n], t)
      ensures HasTitle(rows, t) && FirstIndex(rows, t) == FirstIndex(rows[..n], t)
    {
      FirstIndexPrefix(rows, n, t);
    }
    assert forall i :: 0 <= i < n ==> rows[..n][i] == rows[i];
  }

  /** A row whose title already has a node leaves the node list as it is. */
  lemma DedupesKeep(rows: seq<Entity>, prev: seq<Node>)
    requires rows != [] && Dedupes(rows[..|rows| - 1], prev) && HasId(prev, rows[|rows| - 1].title)
    ensures Dedupes(rows, prev)
  {
    TitlesSnoc(rows);
  }

  /** A row with a new title appends its node, which comes last in first-appearance order. */
  lemma DedupesAppend(rows: seq<Entity>, prev: seq<Node>)
    requires rows != [] && Dedupes(rows[..|rows| - 1], prev) && !HasId(prev, rows[|rows| - 1].title)
    ensures Dedupes(rows, prev + [Node(rows[|rows| - 1].title, rows[|rows| - 1])])
  {
    TitlesSnoc(rows);
    AppendCovers(rows, prev);
    AppendDistinct(rows, prev);
    AppendFirstRows(rows, prev);
    AppendOrder(rows, prev);
  }

  lemma AppendCovers(rows: seq<Entity>, prev: seq<Node>)
    requires rows != [] && CoversTitles(rows[..|rows| - 1], prev)
    ensures CoversTitles(rows, prev + [Node(rows[|rows| - 1].title, rows[|rows| - 1])])
  {
    var row := rows[|rows| - 1];
    TitlesSnoc(rows);
    forall t
      ensures HasId(prev + [Node(row.title, row)], t) <==> HasTitle(rows, t)
    {
      HasIdSnoc(prev, Node(row.title, row), t);
    }
  }

  lemma AppendDistinct(rows: seq<Entity>, prev: seq<Node>)
    requires rows != [] && DistinctIds(prev) && !HasId(prev, rows[|rows| - 1].title)
    ensures DistinctIds(prev + [Node(rows[|rows| - 1].title, rows[|rows| - 1])])
  {
    var nodes := prev + [Node(rows[|rows| - 1].title, rows[|rows| - 1])];
    forall k, l | 0 <= k < l < |nodes|
      ensures nodes[k].id != nodes[l].id
    {
      assert nodes[k] == prev[k];
      if l < |prev| {
        assert nodes[l] == prev[l];
      }
    }
  }

  lemma AppendFirstRows(rows: seq<Entity>, prev: seq<Node>)
    requires rows != [] && FirstRows(rows[..|rows| - 1], prev)
    requires CoversTitles(rows[..|rows| - 1], prev) && !HasId(prev, rows[|rows| - 1].title)
    ensures FirstRows(rows, prev + [Node(rows[|rows| - 1].title, rows[|rows| - 1])])
  {
    var n := |rows| - 1;
    var nodes := prev + [Node(rows[n].title, rows[n])];
    TitlesSnoc(rows);
    assert FirstIndex(rows, rows[n].title) == n;
    forall k | 0 <= k < |nodes|
      ensures HasTitle(rows, nodes[k].id)
      ensures nodes[k] == Node(nodes[k].id, rows[FirstIndex(rows, nodes[k].id)])
    {
      if k < |prev| {
        assert nodes[k] == prev[k];
        assert HasTitle(rows[..n], prev[k].id);
      }
    }
  }

  lemma AppendOrder(rows: seq<Entity>, prev: seq<Node>)
    requires rows != [] && FirstRows(rows[..|rows| - 1], prev) && FirstAppearanceOrder(rows[..|rows| - 1], prev)
    requires CoversTitles(rows[..|rows| - 1], prev) && !HasId(prev, rows[|rows| - 1].title)
    requires FirstRows(rows, prev + [Node(rows[|rows| - 1].title, rows[|rows| - 1])])
    ensures FirstAppearanceOrder(rows, prev + [Node(rows[|rows| - 1].title, rows[|rows| - 1])])
  {
    var n := |rows| - 1;
    var nodes := prev + [Node(rows[n].title, rows[n])];
    TitlesSnoc(rows);
    assert FirstIndex(rows, rows[n].title) == n;
    forall k, l | 0 <= k < l < |nodes|
      ensures FirstIndex(rows, nodes[k].id) < FirstIndex(rows, nodes[l].id)
    {
      assert nodes[k] == prev[k];
      assert HasTitle(rows[..n], prev[k].id);
      if l < |prev| {
        assert nodes[l] == prev[l];
        assert HasTitle(rows[..n], prev[l].id);
      }
    }
  }

  /** The node list has distinct ids, covers every title, keeps first rows and first-appearance order. */
  lemma {:induction false} ConvertEntitiesDedupes(rows: seq<Entity>)
    ensures Dedupes(rows, ConvertEntities(rows))
    decreases |rows|
  {
    if rows != [] {
      var p := rows[..|rows| - 1];
      ConvertEntitiesDedupes(p);
      if HasId(ConvertEntities(p), rows[|rows| - 1].title) {
        DedupesKeep(rows, ConvertEntities(p));
      } else {
        DedupesAppend(rows, ConvertEntities(p));
      }
    }
  }

  /** `convert_entities_to_dicts` as the source runs it, with the dictionary and its key order. */
  method ConvertEntitiesLoop(rows: seq<Entity>) returns (nodes: seq<Node>)
    ensures nodes == ConvertEntities(rows)
  {
    var dict: map<string, Node> := map[];
    var order: seq<string> := [];
    for i := 0 to |rows|
      invariant |order| == |ConvertEntities(rows[..i])|
      invariant forall k :: 0 <= k < |order| ==> order[k] == ConvertEntities(rows[..i])[k].id
      invariant forall k :: 0 <= k < |order| ==> order[k] in dict && dict[order[k]] == ConvertEntities(rows[..i])[k]
      invariant forall t :: t in dict <==> HasId(ConvertEntities(rows[..i]), t)
    {
      assert rows[..i + 1][..i] == rows[..i];
      var row := rows[i];
      var nodeId := row.title;
      if nodeId !in dict {
        forall t
          ensures HasId(ConvertEntities(rows[..i + 1]), t) <==> t in dict || t == nodeId
        {
          HasIdSnoc(ConvertEntities(rows[..i]), Node(nodeId, row), t);
        }
        dict := dict[nodeId := Node(nodeId, row)];
        order := order + [nodeId];
      }
    }
    assert rows[..|rows|] == rows;
    nodes := seq(|order|, k requires 0 <= k < |order| => dict[order[k]]);
  }

  // ------------------------------------------------------------------ edges

  /** `convert_relationships_to_dicts`: one edge per row, in row order. */
  method ConvertRelationships(rows: seq<Relationship>) returns (edges: seq<Edge>)
    ensures |edges| == |rows|
    ensures forall i :: 0 <= i < |rows| ==>
      edges[i].start == rows[i].source && edges[i].end == rows[i].target && edges[i].properties == rows[i]
  {
    edges := [];
    for i := 0 to |rows|
      invariant |edges| == i
      invariant forall j :: 0 <= j < i ==>
        edges[j].start == rows[j].source && edges[j].end == rows[j].target && edges[j].properties == rows[j]
    {
      edges := edges + [Edge(rows[i].source, rows[i].target, rows[i])];
    }
  }

  // ---------------------------------------------------------------- colours

  const COLORS: seq<string> := ["crimson", "darkorange", "indigo", "cornflowerblue", "cyan", "teal", "green"]

  const NO_COMMUNITY_COLOR := "lightgray"

  /**
   * Python's `c % m` for a positive `m`, stated without `%`: shift `c` by
   * multiples of `m` until it lands in `0..m`.
   */
  function FloorMod(c: int, m: int): (r: int)
    requires m > 0
    ensures 0 <= r < m
    decreases c < 0, if c < 0 then -c else c
  {
    if c < 0 then FloorMod(c + m, m)
    else if c >= m then FloorMod(c - m, m)
    else c
  }

  /** For the palette's seven colours, Dafny's `%` agrees with Python's. */
  lemma {:induction false} FloorModSeven(c: int)
    ensures FloorMod(c, 7) == c % 7
    decreases c < 0, if c < 0 then -c else c
  {
    if c < 0 {
      FloorModSeven(c + 7);
    } else if c >= 7 {
      FloorModSeven(c - 7);
    }
  }

  /**
   * `community_to_color`: `colors[int(community) % 7]`, where Python's `%`
   * is never negative, so negative communities also index the list.
   */
  function CommunityToColor(community: Option<int>): (color: string)
    ensures community.None? <==> color == NO_COMMUNITY_COLOR
    ensures community.Some? ==> color == COLORS[FloorMod(community.value, |COLORS|)]
  {
    match community
    case None => NO_COMMUNITY_COLOR
    case Some(c) =>
      FloorModSeven(c);
      COLORS[c % |COLORS|]
  }

  /** Communities seven apart share a colour. */
  lemma CommunityColorPeriodic(c: int)
    ensures CommunityToColor(Some(c)) == CommunityToColor(Some(c + 7))
  {
    assert (c + 7) % 7 == c % 7;
  }

  /** Two communities share a colour exactly when they agree modulo seven. */
  lemma CommunityColorsMatch(c: int, d: int)
    ensures CommunityToColor(Some(c)) == CommunityToColor(Some(d)) <==> c % 7 == d % 7
  {
    var i, j := c % 7, d % 7;
    assert forall a, b :: 0 <= a < b < 7 ==> COLORS[a] != COLORS[b];
    if i != j {
      assert COLORS[i] != COLORS[j];
    }
  }

  /** Raised by `edge_to_source_community` when no node has the edge's start as title (`None[...]`). */
  datatype LookupError = NoSourceNode

  /** The first node whose properties carry `title`, as `next(..., None)` finds it. */
  function FindNode(nodes: seq<Node>, title: string): (r: Option<nat>)
    ensures r.None? <==> forall k :: 0 <= k < |nodes| ==> nodes[k].properties.title != title
    ensures r.Some? ==> r.value < |nodes| && nodes[r.value].properties.title == title
                        && forall k :: 0 <= k < r.value ==> nodes[k].properties.title != title
    decreases |nodes|
  {
    if nodes == [] then None
    else if nodes[0].properties.title == title then Some(0)
    else
      match FindNode(nodes[1..], title)
      case None => None
      case Some(k) => Some(k + 1)
  }

  /** `edge_to_source_community`: the community of the edge's source node. */
  function EdgeToSourceCommunity(nodes: seq<Node>, edge: Edge): (r: Result<Option<int>, LookupError>)
    ensures r.Err? <==> forall k :: 0 <= k < |nodes| ==> nodes[k].properties.title != edge.start
    ensures r.Ok? ==> exists k :: 0 <= k < |nodes| && nodes[k].properties.title == edge.start
                                  && (forall j :: 0 <= j < k ==> nodes[j].properties.title != edge.start)
                                  && r.value == nodes[k].properties.community
  {
    match FindNode(nodes, edge.start)
    case None => Err(NoSourceNode)
    case Some(k) => Ok(nodes[k].properties.community)
  }

  /** The node colour mapping. */
  function NodeColor(node: Node): string {
    CommunityToColor(node.properties.community)
  }

  /** The edge colour mapping: the colour of its source node's community. */
  function EdgeColor(nodes: seq<Node>, edge: Edge): Result<string, LookupError> {
    var community :- EdgeToSourceCommunity(nodes, edge);
    Ok(CommunityToColor(community))
  }

  /**
   * On the widget's own node list, an edge's source community is that of
   * the first entity row titled like the edge's start, and the lookup
   * fails exactly when no row has that title.
   */
  lemma SourceCommunityOfConverted(rows: seq<Entity>, edge: Edge)
    ensures EdgeToSourceCommunity(ConvertEntities(rows), edge).Err? <==> !HasTitle(rows, edge.start)
    ensures HasTitle(rows, edge.start) ==>
      EdgeToSourceCommunity(ConvertEntities(rows), edge)
      == Ok(rows[FirstIndex(rows, edge.start)].community)
  {
    var nodes := ConvertEntities(rows);
    ConvertEntitiesDedupes(rows);
    assert forall k :: 0 <= k < |nodes| ==> nodes[k].properties.title == nodes[k].id;
    if HasTitle(rows, edge.start) {
      assert HasId(nodes, edge.start);
      var k := FindNode(nodes, edge.start).value;
      assert nodes[k].id == edge.start;
    }
  }

  /** An edge takes the colour of its source node. */
  lemma EdgeColorIsSourceNodeColor(rows: seq<Entity>, edge: Edge, k: nat)
    requires k < |ConvertEntities(rows)| && ConvertEntities(rows)[k].id == edge.start
    ensures EdgeColor(ConvertEntities(rows), edge) == Ok(NodeColor(ConvertEntities(rows)[k]))
  {
    var nodes := ConvertEntities(rows);
    ConvertEntitiesDedupes(rows);
    SourceCommunityOfConverted(rows, edge);
    assert HasId(nodes, edge.start);
  }
}
