/**
 * `main` of scripts/generate_summary.py: which files are parsed, and which outputs are written.
 * Listing the directories and reading and writing files are left to the caller: the files
 * arrive as (name, content) pairs in the order the directory listing yields them.
 */
module SummaryMain {
  import opened Base
  import opened Strings
  import opened SummaryParse
  import opened SummaryTables
  import opened ReadmeUpdate
  import opened Changelog
  import opened Relations

  datatype SourceFile = SourceFile(name: string, content: string)

  /** Templates (`_`-prefixed) and the directory's own README are not documents. */
  predicate IsSkipped(name: string)
  {
    StartsWith(name, "_") || name == "README.md"
  }

  function Parse(kind: DocKind, file: SourceFile): Option<Document>
  {
    if kind == Adr then ParseAdr(file.content, file.name) else ParseIdea(file.content, file.name)
  }

  /** The documents `main` keeps from one directory, in listing order. */
  function Collected(kind: DocKind, files: seq<SourceFile>): seq<Document>
  {
    if files == [] then []
    else
      var init := Collected(kind, files[..|files| - 1]);
      var file := files[|files| - 1];
      if IsSkipped(file.name) then init
      else match Parse(kind, file)
        case None => init
        case Some(d) => init + [d]
  }

  /** One collection loop of `main`. */
  method CollectDocuments(kind: DocKind, files: seq<SourceFile>) returns (docs: seq<Document>)
    ensures docs == Collected(kind, files)
  {
    docs := [];
    for i := 0 to |files|
      invariant docs == Collected(kind, files[..i])
    {
      assert files[..i + 1][..i] == files[..i];
      var file := files[i];
      if IsSkipped(file.name) {
        continue;
      }
      var doc := Parse(kind, file);
      if doc.Some? {
        docs := docs + [doc.value];
      }
    }
    assert files[..|files|] == files;
  }

  /** Whether `main` keeps a document from each listed file. */
  function Kept(kind: DocKind, files: seq<SourceFile>): seq<bool>
  {
    seq(|files|, i requires 0 <= i < |files| => !IsSkipped(files[i].name) && Parse(kind, files[i]).Some?)
  }

  /** The indices of the set flags, in increasing order. */
  function Marked(flags: seq<bool>): seq<nat>
  {
    if flags == [] then [] else Marked(flags[..|flags| - 1]) + (if flags[|flags| - 1] then [|flags| - 1] else [])
  }

  lemma {:induction false} MarkedIncreasing(flags: seq<bool>)
    ensures forall j :: 0 <= j < |Marked(flags)| ==> Marked(flags)[j] < |flags| && flags[Marked(flags)[j]]
    ensures forall a, b :: 0 <= a < b < |Marked(flags)| ==> Marked(flags)[a] < Marked(flags)[b]
  {
    if flags != [] {
      var init := flags[..|flags| - 1];
      MarkedIncreasing(init);
      assert forall j :: 0 <= j < |init| ==> init[j] == flags[j];
    }
  }

  lemma {:induction false} MarkedComplete(flags: seq<bool>, i: nat)
    requires i < |flags| && flags[i]
    ensures i in Marked(flags)
  {
    var init := flags[..|flags| - 1];
    if i < |init| {
      assert init[i] == flags[i];
      MarkedComplete(init, i);
    }
  }

  /** For each collected document, the index of the file it was parsed from. */
  function SourceIndices(kind: DocKind, files: seq<SourceFile>): seq<nat>
  {
    Marked(Kept(kind, files))
  }

  /** One more file: its index is added exactly when `main` keeps a document from it. */
  lemma SourceIndicesSnoc(kind: DocKind, files: seq<SourceFile>)
    requires files != []
    ensures var init := files[..|files| - 1];
      var kept := !IsSkipped(files[|files| - 1].name) && Parse(kind, files[|files| - 1]).Some?;
      SourceIndices(kind, files) == SourceIndices(kind, init) + (if kept then [|files| - 1] else []) &&
      Collected(kind, files) == Collected(kind, init) + (if kept then [Parse(kind, files[|files| - 1]).value] else [])
  {
    KeptPrefix(kind, files, |files| - 1);
  }

  lemma KeptPrefix(kind: DocKind, files: seq<SourceFile>, n: nat)
    requires n <= |files|
    ensures Kept(kind, files)[..n] == Kept(kind, files[..n])
  {
    assert forall i :: 0 <= i < n ==> files[..n][i] == files[i];
  }

  lemma {:induction false} SourceIndicesCount(kind: DocKind, files: seq<SourceFile>)
    ensures |SourceIndices(kind, files)| == |Collected(kind, files)|
  {
    if files != [] {
      SourceIndicesCount(kind, files[..|files| - 1]);
      SourceIndicesSnoc(kind, files);
    }
  }

  lemma {:induction false} SourceIndicesParsed(kind: DocKind, files: seq<SourceFile>, j: nat)
    requires j < |SourceIndices(kind, files)|
    ensures SourceIndices(kind, files)[j] < |files| && |SourceIndices(kind, files)| == |Collected(kind, files)|
    ensures var i := SourceIndices(kind, files)[j];
      !IsSkipped(files[i].name) && Parse(kind, files[i]).Some? && Parse(kind, files[i]).value == Collected(kind, files)[j]
  {
    var n := |files| - 1;
    var init := files[..n];
    SourceIndicesSnoc(kind, files);
    SourceIndicesCount(kind, init);
    SourceIndicesCount(kind, files);
    MarkedIncreasing(Kept(kind, files));
    if j < |SourceIndices(kind, init)| {
      SourceIndicesParsed(kind, init, j);
      assert init[SourceIndices(kind, init)[j]] == files[SourceIndices(kind, init)[j]];
    }
  }

  /** The collected documents come one per parsed file, in listing order: the j-th was parsed
      from a listed file that is not skipped, the files they come from are strictly increasing
      (so no file gives two documents), and every listed, not skipped file that parses gives
      one of them. */
  lemma CollectedFromListedFiles(kind: DocKind, files: seq<SourceFile>)
    ensures |SourceIndices(kind, files)| == |Collected(kind, files)|
    ensures forall j :: 0 <= j < |SourceIndices(kind, files)| ==>
      var i := SourceIndices(kind, files)[j];
      i < |files| && !IsSkipped(files[i].name) &&
      Parse(kind, files[i]).Some? && Parse(kind, files[i]).value == Collected(kind, files)[j]
    ensures forall a, b :: 0 <= a < b < |SourceIndices(kind, files)| ==>
      SourceIndices(kind, files)[a] < SourceIndices(kind, files)[b]
    ensures forall i :: 0 <= i < |files| && !IsSkipped(files[i].name) && Parse(kind, files[i]).Some? ==>
      i in SourceIndices(kind, files)
  {
    SourceIndicesCount(kind, files);
    MarkedIncreasing(Kept(kind, files));
    forall j | 0 <= j < |SourceIndices(kind, files)|
      ensures var i := SourceIndices(kind, files)[j];
        i < |files| && !IsSkipped(files[i].name) &&
        Parse(kind, files[i]).Some? && Parse(kind, files[i]).value == Collected(kind, files)[j]
    {
      SourceIndicesParsed(kind, files, j);
    }
    forall i | 0 <= i < |files| && !IsSkipped(files[i].name) && Parse(kind, files[i]).Some?
      ensures i in SourceIndices(kind, files)
    {
      MarkedComplete(Kept(kind, files), i);
    }
  }

  /** A collected document carries its file's name, which is never a skipped one, and the
      fields every parse guarantees. */
  lemma CollectedWellFormed(kind: DocKind, files: seq<SourceFile>, j: nat)
    requires j < |Collected(kind, files)|
    ensures var d := Collected(kind, files)[j];
      !IsSkipped(d.filename) && WellFormed(d, kind, d.filename)
  {
    CollectedFromListedFiles(kind, files);
    var d := Collected(kind, files)[j];
    var i := SourceIndices(kind, files)[j];
    assert d.filename == files[i].name;
  }

  /** A skipped file contributes nothing, whatever it holds. */
  lemma SkippedFileIgnored(kind: DocKind, files: seq<SourceFile>, file: SourceFile)
    requires IsSkipped(file.name)
    ensures Collected(kind, files + [file]) == Collected(kind, files)
  {
    assert (files + [file])[..|files|] == files;
  }

  /** What one run writes: a README only for a directory that yielded documents. */
  datatype Outputs = Outputs(
    decisionsReadme: Option<string>,
    ideasReadme: Option<string>,
    changelog: string,
    relations: string)

  /** `main`, given the listings, the two READMEs' current text and the formatted time. */
  method RunSummary(decisions: seq<SourceFile>, ideas: seq<SourceFile>,
                    decisionsReadme: string, ideasReadme: string, now: string) returns (out: Outputs)
    requires '\\' !in Join("\n", AdrTableLines(Collected(Adr, decisions)))
    requires '\\' !in Join("\n", IdeaTableLines(Collected(Idea, ideas)))
    ensures var adrs := Collected(Adr, decisions);
      out.decisionsReadme ==
        if adrs == [] then None else Some(UpdateReadme(decisionsReadme, Join("\n", AdrTableLines(adrs))))
    ensures var ideaDocs := Collected(Idea, ideas);
      out.ideasReadme ==
        if ideaDocs == [] then None else Some(UpdateReadme(ideasReadme, Join("\n", IdeaTableLines(ideaDocs))))
    ensures out.changelog == Join("\n", ChangelogLines(Collected(Adr, decisions), Collected(Idea, ideas), now))
    ensures out.relations == Join("\n", RelationsLines(Collected(Adr, decisions)))
  {
    var adrs := CollectDocuments(Adr, decisions);
    var ideaDocs := CollectDocuments(Idea, ideas);
    var adrReadme: Option<string> := None;
    if adrs != [] {
      var table := GenerateAdrTable(adrs);
      adrReadme := Some(UpdateReadme(decisionsReadme, table));
    }
    var ideaReadme: Option<string> := None;
    if ideaDocs != [] {
      var table := GenerateIdeaTable(ideaDocs);
      ideaReadme := Some(UpdateReadme(ideasReadme, table));
    }
    var changelog := GenerateChangelog(adrs, ideaDocs, now);
    var relations := GenerateRelations(adrs);
    out := Outputs(adrReadme, ideaReadme, changelog, relations);
  }
}
