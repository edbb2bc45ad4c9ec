/**
 * `generate_adr_table` and `generate_idea_table` of scripts/generate_summary.py:
 * a Markdown table with two header lines and one row per document, ordered by
 * number.
 */
module SummaryTables {
  import opened Base
  import opened Strings
  import opened PyText
  import opened Sorting
  import opened SummaryParse

  const AdrHeader: string := "| 번호 | 제목 | 상태 | 날짜 | 관련 ADR |"
  const AdrRule: string := "|------|------|------|------|----------|"
  const IdeaHeader: string := "| 번호 | 제목 | 상태 | 제안일 | ADR 링크 |"
  const IdeaRule: string := "|------|------|------|--------|----------|"

  function Number(d: Document): string
  {
    d.number
  }

  /** `sorted(documents, key=lambda x: x.number)`: by number as a string, ties in input order. */
  function ByNumber(documents: seq<Document>): seq<Document>
  {
    SortBy(documents, Number, false)
  }

  /** The link for one related record, pointing at its zero-padded file name. */
  function RelatedLink(r: string): string
  {
    "[ADR-" + r + "](" + ZFill(r, 4) + "-*.md)"
  }

  function RelatedLinks(related: seq<string>): (links: seq<string>)
    ensures |links| == |related|
    ensures forall k :: 0 <= k < |related| ==> links[k] == RelatedLink(related[k])
  {
    if related == [] then [] else [RelatedLink(related[0])] + RelatedLinks(related[1..])
  }

  predicate EndsWith(s: string, suffix: string)
  {
    |suffix| <= |s| && s[|s| - |suffix|..] == suffix
  }

  /** `", ".join(links) or "-"`. */
  function RelatedCell(related: seq<string>): string
  {
    var joined := Join(", ", RelatedLinks(related));
    if joined == "" then "-" else joined
  }

  lemma {:induction false} JoinStartsWithFirst(sep: string, parts: seq<string>)
    requires |parts| > 0 && |parts[0]| > 0
    ensures |Join(sep, parts)| > 0 && Join(sep, parts)[0] == parts[0][0]
  {
  }

  /** The related column is "-" exactly for a document without related records; otherwise it
      starts with the first record's link. */
  lemma RelatedCellDash(related: seq<string>)
    ensures RelatedCell(related) == "-" <==> related == []
    ensures related != [] ==> RelatedCell(related)[0] == '['
  {
    if related != [] {
      JoinStartsWithFirst(", ", RelatedLinks(related));
    }
  }

  function AdrRow(d: Document): string
  {
    "| [ADR-" + d.number + "](" + d.filename + ") | " + d.title + " | " + d.status + " | " +
    d.date + " | " + RelatedCell(d.related) + " |"
  }

  function IdeaRow(d: Document): string
  {
    "| [IDEA-" + d.number + "](" + d.filename + ") | " + d.title + " | " + d.status + " | " +
    d.date + " | - |"
  }

  /** The lines of the ADR table: the header, the rule, then one row per document by number. */
  function AdrTableLines(documents: seq<Document>): seq<string>
  {
    [AdrHeader, AdrRule] + Map(AdrRow, ByNumber(documents))
  }

  function IdeaTableLines(documents: seq<Document>): seq<string>
  {
    [IdeaHeader, IdeaRule] + Map(IdeaRow, ByNumber(documents))
  }

  /** The loop both table generators run: after the header lines, one appended row per
      document, in the order given. */
  method AppendRows(header: seq<string>, row: Document -> string, sorted: seq<Document>) returns (lines: seq<string>)
    ensures lines == header + Map(row, sorted)
  {
    lines := header;
    for i := 0 to |sorted|
      invariant lines == header + Map(row, sorted[..i])
    {
      MapSnoc(row, sorted, i);
      lines := lines + [row(sorted[i])];
    }
    assert sorted[..|sorted|] == sorted;
  }

  /** `generate_adr_table`. */
  method GenerateAdrTable(documents: seq<Document>) returns (table: string)
    ensures table == Join("\n", AdrTableLines(documents))
  {
    var lines := AppendRows([AdrHeader, AdrRule], AdrRow, ByNumber(documents));
    table := Join("\n", lines);
  }

  /** `generate_idea_table`. */
  method GenerateIdeaTable(documents: seq<Document>) returns (table: string)
    ensures table == Join("\n", IdeaTableLines(documents))
  {
    var lines := AppendRows([IdeaHeader, IdeaRule], IdeaRow, ByNumber(documents));
    table := Join("\n", lines);
  }

  /** The ADR table has two header lines and exactly one row per document; the rows come in
      number order, and documents with the same number keep their input order. */
  lemma AdrTableRows(documents: seq<Document>)
    ensures var lines := AdrTableLines(documents);
      |lines| == 2 + |documents| && lines[0] == AdrHeader && lines[1] == AdrRule &&
      multiset(lines[2..]) == multiset(Map(AdrRow, documents))
    ensures var sorted := ByNumber(documents);
      (forall i, j :: 0 <= i < j < |sorted| ==> LexLe(sorted[i].number, sorted[j].number)) &&
      (forall n :: WithKey(sorted, Number, n) == WithKey(documents, Number, n))
  {
    var lines := AdrTableLines(documents);
    MapPermuted(AdrRow, ByNumber(documents), documents);
    assert lines[2..] == Map(AdrRow, ByNumber(documents));
  }

  /** The idea table has the same shape and order, and its last column is always "-". */
  lemma IdeaTableRows(documents: seq<Document>)
    ensures var lines := IdeaTableLines(documents);
      |lines| == 2 + |documents| && lines[0] == IdeaHeader && lines[1] == IdeaRule &&
      multiset(lines[2..]) == multiset(Map(IdeaRow, documents))
    ensures var sorted := ByNumber(documents);
      forall i :: 0 <= i < |sorted| ==> EndsWith(IdeaRow(sorted[i]), " | - |")
  {
    var lines := IdeaTableLines(documents);
    MapPermuted(IdeaRow, ByNumber(documents), documents);
    assert lines[2..] == Map(IdeaRow, ByNumber(documents));
  }

  /** No field of `d` spans more than one line. */
  predicate SingleLine(d: Document)
  {
    '\n' !in d.number && '\n' !in d.filename && '\n' !in d.title && '\n' !in d.status &&
    '\n' !in d.date && forall k :: 0 <= k < |d.related| ==> '\n' !in d.related[k]
  }

  lemma RelatedLinkSingleLine(r: string)
    requires '\n' !in r
    ensures '\n' !in RelatedLink(r)
  {
    ZFillKeepsOut(r, 4, '\n');
  }

  lemma RelatedCellSingleLine(related: seq<string>)
    requires forall k :: 0 <= k < |related| ==> '\n' !in related[k]
    ensures '\n' !in RelatedCell(related)
  {
    var links := RelatedLinks(related);
    forall k | 0 <= k < |links| ensures '\n' !in links[k] {
      RelatedLinkSingleLine(related[k]);
    }
    JoinKeepsOut(", ", links, '\n');
  }

  lemma AdrRowSingleLine(d: Document)
    requires SingleLine(d)
    ensures '\n' !in AdrRow(d)
  {
    RelatedCellSingleLine(d.related);
  }

  lemma IdeaRowSingleLine(d: Document)
    requires SingleLine(d)
    ensures '\n' !in IdeaRow(d)
  {
  }

  lemma AdrHeaderSingleLine()
    ensures '\n' !in AdrHeader && '\n' !in AdrRule
  {
  }

  lemma IdeaHeaderSingleLine()
    ensures '\n' !in IdeaHeader && '\n' !in IdeaRule
  {
  }

  lemma SortedSingleLine(documents: seq<Document>)
    requires forall i :: 0 <= i < |documents| ==> SingleLine(documents[i])
    ensures forall i :: 0 <= i < |ByNumber(documents)| ==> SingleLine(ByNumber(documents)[i])
  {
    var sorted := ByNumber(documents);
    forall i | 0 <= i < |sorted| ensures SingleLine(sorted[i]) {
      assert sorted[i] in multiset(documents);
    }
  }

  /** The lines of a table with single-line fields are single lines. */
  lemma AdrTableLinesSingle(documents: seq<Document>)
    requires forall i :: 0 <= i < |documents| ==> SingleLine(documents[i])
    ensures forall i :: 0 <= i < |AdrTableLines(documents)| ==> '\n' !in AdrTableLines(documents)[i]
  {
    var sorted := ByNumber(documents);
    SortedSingleLine(documents);
    AdrHeaderSingleLine();
    var lines := AdrTableLines(documents);
    forall i | 0 <= i < |lines| ensures '\n' !in lines[i] {
      if i >= 2 {
        assert lines[i] == AdrRow(sorted[i - 2]);
        AdrRowSingleLine(sorted[i - 2]);
      }
    }
  }

  lemma IdeaTableLinesSingle(documents: seq<Document>)
    requires forall i :: 0 <= i < |documents| ==> SingleLine(documents[i])
    ensures forall i :: 0 <= i < |IdeaTableLines(documents)| ==> '\n' !in IdeaTableLines(documents)[i]
  {
    var sorted := ByNumber(documents);
    SortedSingleLine(documents);
    IdeaHeaderSingleLine();
    var lines := IdeaTableLines(documents);
    forall i | 0 <= i < |lines| ensures '\n' !in lines[i] {
      if i >= 2 {
        assert lines[i] == IdeaRow(sorted[i - 2]);
        IdeaRowSingleLine(sorted[i - 2]);
      }
    }
  }

  /** When no field spans lines, the generated table text splits back into exactly its lines:
      the header, the rule and one line per document. */
  lemma TableTextSplitsIntoLines(documents: seq<Document>)
    requires forall i :: 0 <= i < |documents| ==> SingleLine(documents[i])
    ensures Split(Join("\n", AdrTableLines(documents)), '\n') == AdrTableLines(documents)
    ensures Split(Join("\n", IdeaTableLines(documents)), '\n') == IdeaTableLines(documents)
  {
    AdrTableLinesSingle(documents);
    IdeaTableLinesSingle(documents);
    SplitJoin(AdrTableLines(documents), '\n');
    SplitJoin(IdeaTableLines(documents), '\n');
  }
}
