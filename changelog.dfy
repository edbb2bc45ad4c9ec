/**
 * `generate_changelog` of scripts/generate_summary.py: the documents grouped by date, the
 * dates newest first, each document listed under its date in the order it was collected
 * (records before ideas). The formatted current time is a parameter.
 */
module Changelog {
  import opened Strings
  import opened Sorting
  import opened SummaryParse

  function HeaderLines(now: string): seq<string>
  {
    ["# 변경 이력 (Changelog)", "", "> 이 파일은 자동 생성됩니다. 직접 수정하지 마세요.",
     "> 마지막 업데이트: " + now, "", "---", ""]
  }

  function DateKey(d: Document): string
  {
    d.date
  }

  function Identity(s: string): string
  {
    s
  }

  predicate Distinct<T(==)>(s: seq<T>)
  {
    forall i, j :: 0 <= i < j < |s| ==> s[i] != s[j]
  }

  /** The lines listing one document. */
  function Entry(d: Document): seq<string>
  {
    if d.kind == Adr then
      ["### ADR-" + d.number + ": " + d.title, "- **상태**: " + d.status] +
      (if HasSupersedes(d) then ["- **대체**: ADR-" + d.supersedes.value + "를 대체함"] else []) +
      [""]
    else
      ["### IDEA-" + d.number + ": " + d.title, "- **상태**: " + d.status, ""]
  }

  /** An entry: the heading with the document's kind, number and title, its status line, the
      line naming the replaced record exactly when the document is a record that replaces one,
      and a blank line. */
  lemma EntryShape(d: Document)
    ensures var e := Entry(d);
      |e| == (if d.kind == Adr && HasSupersedes(d) then 4 else 3) &&
      e[0] == "### " + RefPrefix(d.kind) + d.number + ": " + d.title &&
      e[1] == "- **상태**: " + d.status &&
      (|e| == 4 ==> e[2] == "- **대체**: ADR-" + d.supersedes.value + "를 대체함") &&
      e[|e| - 1] == ""
  {
  }

  function Entries(docs: seq<Document>): seq<string>
  {
    if docs == [] then [] else Entries(docs[..|docs| - 1]) + Entry(docs[|docs| - 1])
  }

  /** The keys of the `by_date` dictionary, in insertion order: each date once, where it first
      occurs; every key has at least one document. */
  function Dates(docs: seq<Document>): (r: seq<string>)
    ensures Distinct(r)
    ensures forall i :: 0 <= i < |docs| ==> docs[i].date in r
    ensures forall k :: 0 <= k < |r| ==> WithKey(docs, DateKey, r[k]) != []
  {
    if docs == [] then []
    else
      var init := docs[..|docs| - 1];
      var d := docs[|docs| - 1];
      var dates := Dates(init);
      assert forall i :: 0 <= i < |init| ==> docs[i] == init[i];
      if d.date in dates then dates else dates + [d.date]
  }

  /** The index of the first document dated `date`, or `|docs|` when there is none. */
  function FirstDated(docs: seq<Document>, date: string): (i: nat)
    ensures i <= |docs| && (i < |docs| ==> docs[i].date == date)
    ensures forall j :: 0 <= j < i ==> docs[j].date != date
  {
    if docs == [] then 0
    else
      var i := FirstDated(docs[..|docs| - 1], date);
      if i < |docs| - 1 then i
      else if docs[|docs| - 1].date == date then |docs| - 1
      else |docs|
  }

  lemma FirstDatedSnoc(docs: seq<Document>, date: string)
    requires docs != [] && FirstDated(docs[..|docs| - 1], date) < |docs| - 1
    ensures FirstDated(docs, date) == FirstDated(docs[..|docs| - 1], date)
  {
  }

  /** The keys are in the order of their first appearance: a key listed before another first
      occurs before it, and every key occurs. */
  lemma {:induction false} DatesInFirstAppearanceOrder(docs: seq<Document>)
    ensures forall k :: 0 <= k < |Dates(docs)| ==> FirstDated(docs, Dates(docs)[k]) < |docs|
    ensures forall a, b :: 0 <= a < b < |Dates(docs)| ==>
      FirstDated(docs, Dates(docs)[a]) < FirstDated(docs, Dates(docs)[b])
  {
    if docs != [] {
      var init := docs[..|docs| - 1];
      var d := docs[|docs| - 1];
      DatesInFirstAppearanceOrder(init);
      var r0 := Dates(init);
      forall k | 0 <= k < |r0| ensures FirstDated(docs, r0[k]) == FirstDated(init, r0[k]) {
        FirstDatedSnoc(docs, r0[k]);
      }
      if d.date in r0 {
        assert Dates(docs) == r0;
      } else {
        assert FirstDated(docs, d.date) == |init|;
        assert Dates(docs) == r0 + [d.date];
      }
    }
  }

  /** `sorted(by_date.keys(), reverse=True)`. */
  function SectionDates(docs: seq<Document>): seq<string>
  {
    SortBy(Dates(docs), Identity, true)
  }

  /** The lines for one date: its heading, its documents, then a rule. */
  function SectionOf(date: string, group: seq<Document>): seq<string>
  {
    ["## " + date, ""] + Entries(group) + ["---", ""]
  }

  function Section(docs: seq<Document>, date: string): seq<string>
  {
    SectionOf(date, WithKey(docs, DateKey, date))
  }

  function Sections(docs: seq<Document>, dates: seq<string>): seq<string>
  {
    if dates == [] then [] else Sections(docs, dates[..|dates| - 1]) + Section(docs, dates[|dates| - 1])
  }

  function ChangelogLines(adrs: seq<Document>, ideas: seq<Document>, now: string): seq<string>
  {
    HeaderLines(now) + Sections(adrs + ideas, SectionDates(adrs + ideas))
  }

  /** The grouping loop of `generate_changelog`: the `by_date` dictionary and its keys in
      insertion order. Each key maps to the documents with that date, in input order. */
  method GroupByDate(all: seq<Document>) returns (byDate: map<string, seq<Document>>, keys: seq<string>)
    ensures keys == Dates(all)
    ensures forall k :: k in byDate <==> k in keys
    ensures forall k :: k in byDate ==> byDate[k] == WithKey(all, DateKey, k)
  {
    byDate := map[];
    keys := [];
    for i := 0 to |all|
      invariant keys == Dates(all[..i])
      invariant forall k :: k in byDate <==> k in keys
      invariant forall k :: WithKey(all[..i], DateKey, k) == (if k in byDate then byDate[k] else [])
    {
      var doc := all[i];
      assert all[..i + 1][..i] == all[..i];
      if doc.date !in byDate {
        byDate := byDate[doc.date := []];
        keys := keys + [doc.date];
      }
      byDate := byDate[doc.date := byDate[doc.date] + [doc]];
    }
    assert all[..|all|] == all;
  }

  /** The lines the inner loop of `generate_changelog` appends for one document. */
  method AppendEntry(content: seq<string>, doc: Document) returns (updated: seq<string>)
    ensures updated == content + Entry(doc)
  {
    updated := content;
    if doc.kind == Adr {
      updated := updated + ["### ADR-" + doc.number + ": " + doc.title];
      updated := updated + ["- **상태**: " + doc.status];
      if HasSupersedes(doc) {
        updated := updated + ["- **대체**: ADR-" + doc.supersedes.value + "를 대체함"];
      }
    } else {
      updated := updated + ["### IDEA-" + doc.number + ": " + doc.title];
      updated := updated + ["- **상태**: " + doc.status];
    }
    updated := updated + [""];
  }

  /** The lines the outer loop of `generate_changelog` appends for one date and its documents. */
  method AppendSection(content: seq<string>, date: string, group: seq<Document>) returns (updated: seq<string>)
    ensures updated == content + SectionOf(date, group)
  {
    var heading := ["## " + date, ""];
    updated := content + heading;
    for m := 0 to |group|
      invariant updated == content + heading + Entries(group[..m])
    {
      EntriesSnoc(group, m);
      AppendAssociative(content + heading, Entries(group[..m]), Entry(group[m]));
      updated := AppendEntry(updated, group[m]);
    }
    assert group[..|group|] == group;
    updated := updated + ["---", ""];
    AppendAssociative(content, heading + Entries(group), ["---", ""]);
    AppendAssociative(content, heading, Entries(group));
  }

  lemma EntriesSnoc(docs: seq<Document>, j: nat)
    requires j < |docs|
    ensures Entries(docs[..j + 1]) == Entries(docs[..j]) + Entry(docs[j])
  {
    assert docs[..j + 1][..j] == docs[..j];
  }

  lemma SectionsSnoc(docs: seq<Document>, dates: seq<string>, j: nat)
    requires j < |dates|
    ensures Sections(docs, dates[..j + 1]) == Sections(docs, dates[..j]) + Section(docs, dates[j])
  {
    assert dates[..j + 1][..j] == dates[..j];
  }

  /** The outer loop of `generate_changelog`: one section per date, in the given order, each
      listing the documents the dictionary holds for that date. */
  method AppendSections(content: seq<string>, all: seq<Document>, byDate: map<string, seq<Document>>,
                        dates: seq<string>) returns (updated: seq<string>)
    requires forall j :: 0 <= j < |dates| ==> dates[j] in byDate && byDate[dates[j]] == WithKey(all, DateKey, dates[j])
    ensures updated == content + Sections(all, dates)
  {
    updated := content;
    for j := 0 to |dates|
      invariant updated == content + Sections(all, dates[..j])
    {
      var date := dates[j];
      var group := byDate[date];
      updated := AppendSection(updated, date, group);
      SectionsSnoc(all, dates, j);
      AppendAssociative(content, Sections(all, dates[..j]), Section(all, date));
    }
    assert dates[..|dates|] == dates;
  }

  /** `generate_changelog`: the text written to CHANGELOG.md. */
  method GenerateChangelog(adrs: seq<Document>, ideas: seq<Document>, now: string) returns (text: string)
    ensures text == Join("\n", ChangelogLines(adrs, ideas, now))
  {
    var all := adrs + ideas;
    var byDate, keys := GroupByDate(all);
    var dates := SortBy(keys, Identity, true);
    forall j | 0 <= j < |dates| ensures dates[j] in byDate && byDate[dates[j]] == WithKey(all, DateKey, dates[j]) {
      assert dates[j] in multiset(dates);
      assert dates[j] in keys;
    }
    var content := AppendSections(HeaderLines(now), all, byDate, dates);
    text := Join("\n", content);
  }

  /** The documents in the order the sections list them. */
  function Groups(docs: seq<Document>, dates: seq<string>): seq<Document>
  {
    if dates == [] then [] else Groups(docs, dates[..|dates| - 1]) + WithKey(docs, DateKey, dates[|dates| - 1])
  }

  lemma {:induction false} DistinctCount<T>(a: seq<T>, x: T)
    requires Distinct(a)
    ensures multiset(a)[x] <= 1
  {
    if a != [] {
      assert a == [a[0]] + a[1..];
      assert Distinct(a[1..]) by {
        forall i, j | 0 <= i < j < |a[1..]| ensures a[1..][i] != a[1..][j] {
          assert a[1..][i] == a[i + 1] && a[1..][j] == a[j + 1];
        }
      }
      DistinctCount(a[1..], x);
      assert a[0] !in a[1..] by {
        forall i | 0 <= i < |a[1..]| ensures a[1..][i] != a[0] {
          assert a[1..][i] == a[i + 1];
        }
      }
      assert multiset(a)[x] == multiset{a[0]}[x] + multiset(a[1..])[x];
    }
  }

  lemma PairCount<T>(b: seq<T>, i: nat, j: nat)
    requires i < j < |b|
    ensures multiset(b)[b[i]] >= if b[j] == b[i] then 2 else 1
  {
    assert b == b[..i] + [b[i]] + b[i + 1..j] + [b[j]] + b[j + 1..];
  }

  /** A reordering of a sequence without repetitions has none either. */
  lemma DistinctPermutation<T>(a: seq<T>, b: seq<T>)
    requires multiset(a) == multiset(b) && Distinct(a)
    ensures Distinct(b)
  {
    forall i, j | 0 <= i < j < |b| ensures b[i] != b[j] {
      PairCount(b, i, j);
      DistinctCount(a, b[i]);
    }
  }

  /** The changelog's dates are the documents' dates, each exactly once, newest first, and each
      heads a non-empty section. */
  lemma ChangelogDatesNewestFirst(docs: seq<Document>)
    ensures var dates := SectionDates(docs);
      (forall i, j :: 0 <= i < j < |dates| ==> LexLe(dates[j], dates[i]) && dates[i] != dates[j]) &&
      (forall i :: 0 <= i < |docs| ==> docs[i].date in dates) &&
      (forall k :: 0 <= k < |dates| ==> WithKey(docs, DateKey, dates[k]) != [])
  {
    var keys := Dates(docs);
    var dates := SectionDates(docs);
    DistinctPermutation(keys, dates);
    forall i | 0 <= i < |docs| ensures docs[i].date in dates {
      assert docs[i].date in multiset(keys);
    }
    forall k | 0 <= k < |dates| ensures WithKey(docs, DateKey, dates[k]) != [] {
      assert dates[k] in multiset(dates);
      assert dates[k] in keys;
    }
  }

  lemma {:induction false} GroupsOfNothing(dates: seq<string>)
    ensures Groups([], dates) == []
  {
    if dates != [] {
      GroupsOfNothing(dates[..|dates| - 1]);
    }
  }

  lemma {:induction false} DistinctSnoc<T>(s: seq<T>)
    requires s != [] && Distinct(s)
    ensures Distinct(s[..|s| - 1]) && s[|s| - 1] !in s[..|s| - 1]
  {
  }

  lemma {:induction false} InSnoc<T>(t: seq<T>, v: T)
    requires t != []
    ensures v in t <==> v in t[..|t| - 1] || v == t[|t| - 1]
  {
    Snoc(t);
  }

  lemma {:induction false} CountStep<T>(g: seq<T>, g2: seq<T>, w: seq<T>, x: T, a: bool, b: bool)
    requires multiset(g2) == multiset(g) + (if a then multiset{x} else multiset{})
    requires !(a && b)
    ensures multiset(g2 + (w + if b then [x] else [])) ==
      multiset(g + w) + (if a || b then multiset{x} else multiset{})
  {
  }

  /** One more document adds it once to the groups when its date is among them, and not at all
      otherwise. */
  lemma {:induction false} GroupsSnoc(s: seq<Document>, x: Document, dates: seq<string>)
    requires Distinct(dates)
    ensures multiset(Groups(s + [x], dates)) ==
      multiset(Groups(s, dates)) + if x.date in dates then multiset{x} else multiset{}
  {
    if dates != [] {
      var init := dates[..|dates| - 1];
      var k := dates[|dates| - 1];
      DistinctSnoc(dates);
      GroupsSnoc(s, x, init);
      assert Groups(s + [x], dates) == Groups(s + [x], init) + WithKey(s + [x], DateKey, k);
      assert Groups(s, dates) == Groups(s, init) + WithKey(s, DateKey, k);
      WithKeySnoc(s, x, DateKey, k);
      CountStep(Groups(s, init), Groups(s + [x], init), WithKey(s, DateKey, k), x, x.date in init, x.date == k);
      InSnoc(dates, x.date);
    }
  }

  /** Grouping by a list of distinct dates that covers every document lists each document
      exactly once. */
  lemma {:induction false} GroupsPermute(docs: seq<Document>, dates: seq<string>)
    requires Distinct(dates)
    requires forall i :: 0 <= i < |docs| ==> docs[i].date in dates
    ensures multiset(Groups(docs, dates)) == multiset(docs)
  {
    if docs == [] {
      GroupsOfNothing(dates);
    } else {
      var s := docs[..|docs| - 1];
      var x := docs[|docs| - 1];
      assert docs == s + [x];
      GroupsPermute(s, dates);
      GroupsSnoc(s, x, dates);
    }
  }

  /** Every collected document is listed in the changelog exactly once, under its own date. */
  lemma ChangelogListsEachDocumentOnce(adrs: seq<Document>, ideas: seq<Document>)
    ensures var all := adrs + ideas;
      multiset(Groups(all, SectionDates(all))) == multiset(adrs) + multiset(ideas)
  {
    var all := adrs + ideas;
    ChangelogDatesNewestFirst(all);
    DistinctPermutation(Dates(all), SectionDates(all));
    GroupsPermute(all, SectionDates(all));
  }

  /** Under each date, the records come before the ideas, each in collection order. */
  lemma ChangelogRecordsBeforeIdeas(adrs: seq<Document>, ideas: seq<Document>, date: string)
    ensures Section(adrs + ideas, date) ==
      SectionOf(date, WithKey(adrs, DateKey, date) + WithKey(ideas, DateKey, date))
  {
    WithKeyAppend(adrs, ideas, DateKey, date);
  }

  /** `block` appears as consecutive lines of `lines`, starting at line `i`. */
  ghost predicate ListedAt(lines: seq<string>, block: seq<string>, i: int)
  {
    0 <= i && i + |block| <= |lines| && lines[i..i + |block|] == block
  }

  /** `block` appears as consecutive lines of `lines`. */
  ghost predicate Listed(lines: seq<string>, block: seq<string>)
  {
    exists i :: ListedAt(lines, block, i)
  }

  lemma ListedWithin(a: seq<string>, b: seq<string>, c: seq<string>, block: seq<string>)
    requires Listed(b, block)
    ensures Listed(a + b + c, block)
  {
    var i :| ListedAt(b, block, i);
    assert (a + b + c)[|a| + i..|a| + i + |block|] == b[i..i + |block|];
    assert ListedAt(a + b + c, block, |a| + i);
  }

  /** The entry of each document of a group is among the group's lines. */
  lemma {:induction false} EntriesListEach(docs: seq<Document>, x: Document)
    requires x in docs
    ensures Listed(Entries(docs), Entry(x))
  {
    var init, last := docs[..|docs| - 1], docs[|docs| - 1];
    InSnoc(docs, x);
    assert Entries(docs) == Entries(init) + Entry(last);
    if x == last {
      ListedLast(Entries(init), Entry(x));
    } else {
      EntriesListEach(init, x);
      ListedBefore(Entries(init), Entry(last), Entry(x));
    }
  }

  /** A document belongs to the group of its own date. */
  lemma {:induction false} InOwnGroup(docs: seq<Document>, x: Document)
    requires x in docs
    ensures x in WithKey(docs, DateKey, x.date)
  {
    var init, last := docs[..|docs| - 1], docs[|docs| - 1];
    InSnoc(docs, x);
    if x != last {
      InOwnGroup(init, x);
    }
  }

  /** A block at the end of the lines is listed in them. */
  lemma ListedLast(a: seq<string>, block: seq<string>)
    ensures Listed(a + block, block)
  {
    assert ListedAt(a + block, block, |a|);
  }

  /** A block listed in the first lines stays listed when more lines follow. */
  lemma ListedBefore(a: seq<string>, b: seq<string>, block: seq<string>)
    requires Listed(a, block)
    ensures Listed(a + b, block)
  {
    var i :| ListedAt(a, block, i);
    assert (a + b)[i..i + |block|] == a[i..i + |block|];
    assert ListedAt(a + b, block, i);
  }

  /** The section of each of the dates is among the lines of the sections. */
  lemma {:induction false} SectionsListEach(docs: seq<Document>, dates: seq<string>, date: string)
    requires date in dates
    ensures Listed(Sections(docs, dates), Section(docs, date))
  {
    var init, last := dates[..|dates| - 1], dates[|dates| - 1];
    InSnoc(dates, date);
    assert Sections(docs, dates) == Sections(docs, init) + Section(docs, last);
    if date == last {
      ListedLast(Sections(docs, init), Section(docs, date));
    } else {
      SectionsListEach(docs, init, date);
      ListedBefore(Sections(docs, init), Section(docs, last), Section(docs, date));
    }
  }

  /** The changelog text lists each collected document: its entry lies in the section of its own
      date, which opens with that date's heading, and that section is in the text. */
  lemma ChangelogListsUnderOwnDate(adrs: seq<Document>, ideas: seq<Document>, now: string, x: Document)
    requires x in adrs + ideas
    ensures Section(adrs + ideas, x.date)[0] == "## " + x.date
    ensures Listed(Section(adrs + ideas, x.date), Entry(x))
    ensures Listed(ChangelogLines(adrs, ideas, now), Section(adrs + ideas, x.date))
  {
    var all := adrs + ideas;
    var group := WithKey(all, DateKey, x.date);
    InOwnGroup(all, x);
    EntriesListEach(group, x);
    ListedWithin(["## " + x.date, ""], Entries(group), ["---", ""], Entry(x));
    ChangelogDatesNewestFirst(all);
    var i :| 0 <= i < |all| && all[i] == x;
    SectionsListEach(all, SectionDates(all), x.date);
    ListedWithin(HeaderLines(now), Sections(all, SectionDates(all)), [], Section(all, x.date));
    assert HeaderLines(now) + Sections(all, SectionDates(all)) + [] == ChangelogLines(adrs, ideas, now);
  }
}
