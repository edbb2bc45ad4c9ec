/**
 * `generate_relations` of scripts/generate_summary.py: a Mermaid graph with one node per
 * record, a solid edge to each related record and a dotted edge to the record it replaces.
 */
module Relations {
  import opened Strings
  import opened SummaryParse

  const RelationsHeader: seq<string> :=
    ["# ADR 관계도", "", "> ADR 간의 관계를 시각화합니다.", "", "```mermaid", "graph TD"]

  const RelationsFooter: seq<string> :=
    ["", "    classDef accepted fill:#10b981,color:white", "    classDef deprecated fill:#ef4444,color:white",
     "    classDef proposed fill:#f59e0b,color:white", "```", "", "## 범례", "", "- 실선 화살표: 관련 ADR",
     "- 점선 화살표: 대체 관계"]

  function NodeId(d: Document): string
  {
    "ADR" + d.number
  }

  function NodeLine(d: Document): string
  {
    "    " + NodeId(d) + "[ADR-" + d.number + ": " + d.title + "]"
  }

  function EdgeLine(from: string, to: string): string
  {
    "    " + from + " --> ADR" + to
  }

  function ReplacesLine(d: Document): string
    requires d.supersedes.Some?
  {
    "    " + NodeId(d) + " -.->|대체| ADR" + d.supersedes.value
  }

  /** The solid edges from `from`, one per related record, in order. */
  function Edges(from: string, related: seq<string>): (r: seq<string>)
    ensures |r| == |related|
    ensures forall k :: 0 <= k < |related| ==> r[k] == EdgeLine(from, related[k])
  {
    if related == [] then [] else Edges(from, related[..|related| - 1]) + [EdgeLine(from, related[|related| - 1])]
  }

  /** The lines one record contributes: its node, its solid edges, then its dotted edge. */
  function Block(d: Document): seq<string>
  {
    [NodeLine(d)] + Edges(NodeId(d), d.related) + (if HasSupersedes(d) then [ReplacesLine(d)] else [])
  }

  function Blocks(adrs: seq<Document>): seq<string>
  {
    if adrs == [] then [] else Blocks(adrs[..|adrs| - 1]) + Block(adrs[|adrs| - 1])
  }

  function RelationsLines(adrs: seq<Document>): seq<string>
  {
    RelationsHeader + Blocks(adrs) + RelationsFooter
  }

  /** The body of the loop over the records. */
  method AppendBlock(content: seq<string>, doc: Document) returns (updated: seq<string>)
    ensures updated == content + Block(doc)
  {
    var nodeId := "ADR" + doc.number;
    updated := content + ["    " + nodeId + "[ADR-" + doc.number + ": " + doc.title + "]"];
    var related := doc.related;
    for k := 0 to |related|
      invariant updated == content + [NodeLine(doc)] + Edges(nodeId, related[..k])
    {
      assert related[..k + 1][..k] == related[..k];
      updated := updated + ["    " + nodeId + " --> ADR" + related[k]];
    }
    assert related[..|related|] == related;
    if HasSupersedes(doc) {
      updated := updated + ["    " + nodeId + " -.->|대체| ADR" + doc.supersedes.value];
    }
    AppendAssociative(content, [NodeLine(doc)], Edges(nodeId, related));
    AppendAssociative(content, [NodeLine(doc)] + Edges(nodeId, related),
      if HasSupersedes(doc) then [ReplacesLine(doc)] else []);
  }

  /** `generate_relations`: the text written to RELATIONS.md. */
  method GenerateRelations(adrs: seq<Document>) returns (text: string)
    ensures text == Join("\n", RelationsLines(adrs))
  {
    var content := RelationsHeader;
    for i := 0 to |adrs|
      invariant content == RelationsHeader + Blocks(adrs[..i])
    {
      assert adrs[..i + 1][..i] == adrs[..i];
      content := AppendBlock(content, adrs[i]);
      AppendAssociative(RelationsHeader, Blocks(adrs[..i]), Block(adrs[i]));
    }
    assert adrs[..|adrs|] == adrs;
    content := content + RelationsFooter;
    text := Join("\n", content);
  }

  function Replacing(d: Document): nat
  {
    if HasSupersedes(d) then 1 else 0
  }

  function EdgeCount(adrs: seq<Document>): nat
  {
    if adrs == [] then 0 else EdgeCount(adrs[..|adrs| - 1]) + |adrs[|adrs| - 1].related| + Replacing(adrs[|adrs| - 1])
  }

  /** The graph has exactly one node line per record and one edge line per related reference
      or replaced record, between a fixed header and footer. */
  lemma {:induction false} RelationsLineCount(adrs: seq<Document>)
    ensures |Blocks(adrs)| == |adrs| + EdgeCount(adrs)
    ensures |RelationsLines(adrs)| == |RelationsHeader| + |adrs| + EdgeCount(adrs) + |RelationsFooter|
  {
    if adrs != [] {
      RelationsLineCount(adrs[..|adrs| - 1]);
    }
  }

  /** The block of the `i`th record: where it starts, its node line, and an edge for each
      related record. */
  function BlockStart(adrs: seq<Document>, i: nat): nat
    requires i <= |adrs|
  {
    |Blocks(adrs[..i])|
  }

  lemma SliceAppendLeft<T>(a: seq<T>, c: seq<T>, x: nat, y: nat)
    requires x <= y <= |a|
    ensures (a + c)[x..y] == a[x..y]
  {
  }

  lemma SliceAppendRight<T>(a: seq<T>, c: seq<T>)
    ensures (a + c)[|a|..|a| + |c|] == c
  {
  }

  lemma {:induction false} BlocksPrefix(adrs: seq<Document>, i: nat)
    requires i < |adrs|
    ensures BlockStart(adrs, i) + |Block(adrs[i])| <= |Blocks(adrs)| &&
      Blocks(adrs)[BlockStart(adrs, i)..BlockStart(adrs, i) + |Block(adrs[i])|] == Block(adrs[i])
    decreases |adrs|
  {
    var init := adrs[..|adrs| - 1];
    var last := Block(adrs[|adrs| - 1]);
    assert Blocks(adrs) == Blocks(init) + last;
    if i == |adrs| - 1 {
      assert adrs[..i] == init;
      SliceAppendRight(Blocks(init), last);
    } else {
      BlocksPrefix(init, i);
      assert init[..i] == adrs[..i];
      assert init[i] == adrs[i];
      SliceAppendLeft(Blocks(init), last, BlockStart(init, i), BlockStart(init, i) + |Block(init[i])|);
    }
  }

  lemma BlockShape(d: Document)
    ensures var b := Block(d);
      |b| == 1 + |d.related| + Replacing(d) && b[0] == NodeLine(d) &&
      (forall k :: 0 <= k < |d.related| ==> b[1 + k] == EdgeLine(NodeId(d), d.related[k])) &&
      (HasSupersedes(d) ==> b[1 + |d.related|] == ReplacesLine(d))
  {
  }

  lemma SliceAt<T>(b: seq<T>, at: nat, piece: seq<T>, k: nat)
    requires at + |piece| <= |b| && b[at..at + |piece|] == piece
    requires k < |piece|
    ensures b[at + k] == piece[k]
  {
    assert b[at..at + |piece|][k] == b[at + k];
  }

  /** Each record's node appears, followed by a solid edge to each of its related records in
      order, and by the dotted edge exactly when it replaces one. */
  lemma RelationsEdges(adrs: seq<Document>, i: nat)
    requires i < |adrs|
    ensures var b := Blocks(adrs);
      var at := BlockStart(adrs, i);
      var d := adrs[i];
      at + 1 + |d.related| + Replacing(d) <= |b| &&
      b[at] == NodeLine(d) &&
      (forall k :: 0 <= k < |d.related| ==> b[at + 1 + k] == EdgeLine(NodeId(d), d.related[k])) &&
      (HasSupersedes(d) ==> b[at + 1 + |d.related|] == ReplacesLine(d))
  {
    var b := Blocks(adrs);
    var at := BlockStart(adrs, i);
    var d := adrs[i];
    var block := Block(d);
    BlocksPrefix(adrs, i);
    BlockShape(d);
    SliceAt(b, at, block, 0);
    forall k | 0 <= k < |d.related| ensures b[at + 1 + k] == EdgeLine(NodeId(d), d.related[k]) {
      SliceAt(b, at, block, 1 + k);
    }
    if HasSupersedes(d) {
      SliceAt(b, at, block, 1 + |d.related|);
    }
  }
}
