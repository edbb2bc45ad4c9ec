/**
 * `update_readme` of scripts/generate_summary.py, as a transformation of the README text:
 * every section delimited by the start and end markers has its body replaced by the
 * generated table (`re.sub` with a lazy, DOTALL pattern).
 *
 * The substitution is defined for any pair of markers (`Substitute`) and the README update
 * is its instance for the two AUTO-GENERATED markers; the lemmas are proved for the general
 * substitution and then stated for the README markers.
 */
module ReadmeUpdate {
  import opened Base
  import opened Strings

  const StartMarker: string := "<!-- AUTO-GENERATED-START -->"
  const EndMarker: string := "<!-- AUTO-GENERATED-END -->"

  /** The replacement `\1\n<table>\n\2`: the two markers around the table, each on its own line. */
  function Wrapped(open: string, table: string, close: string): string
  {
    open + "\n" + table + "\n" + close
  }

  function Section(table: string): string
  {
    Wrapped(StartMarker, table, EndMarker)
  }

  /** A complete section: the position of its opening marker and of its closing marker. */
  datatype Span = Span(start: nat, stop: nat)

  /**
   * The first section `re.sub("(open).*?(close)", ..., flags=re.DOTALL)` matches, for literal
   * markers: the leftmost `open` starts it and the nearest `close` after that `open` ends it.
   * An `open` with no `close` after it starts no section, and then neither does any later one.
   */
  function FirstSection(content: string, open: string, close: string): (s: Option<Span>)
    ensures s.Some? ==> s.value.start + |open| <= s.value.stop && s.value.stop + |close| <= |content|
    ensures s.Some? ==> OccursAt(content, open, s.value.start) && OccursAt(content, close, s.value.stop)
  {
    match Find(content, open)
    case None => None
    case Some(k) =>
      match FindFrom(content, close, k + |open|)
      case None => None
      case Some(e) => Some(Span(k, e))
  }

  /** There is a section exactly when the text holds an opening marker and a closing marker
      after the first one; it runs from the leftmost opening marker to the nearest closing
      marker after it. */
  lemma FirstSectionFound(content: string, open: string, close: string)
    ensures FirstSection(content, open, close).Some? <==>
      Find(content, open).Some? && FindFrom(content, close, Find(content, open).value + |open|).Some?
    ensures FirstSection(content, open, close).Some? ==>
      FirstSection(content, open, close).value.start == Find(content, open).value &&
      FirstSection(content, open, close).value.stop ==
        FindFrom(content, close, FirstSection(content, open, close).value.start + |open|).value
  {
  }

  /**
   * `re.sub(pattern, "\\1\n" + table + "\n\\2", content, flags=re.DOTALL)`: every section, from
   * the first on and each time scanning on after the previous closing marker, becomes the two
   * markers around the table.
   */
  function Substitute(content: string, table: string, open: string, close: string): string
    requires |open| > 0
    decreases |content|
  {
    match FirstSection(content, open, close)
    case None => content
    case Some(span) =>
      content[..span.start] + Wrapped(open, table, close) + Substitute(content[span.stop + |close|..], table, open, close)
  }

  /** `update_readme`, on the text of the README. */
  function UpdateReadme(content: string, table: string): string
    requires '\\' !in table
  {
    Substitute(content, table, StartMarker, EndMarker)
  }

  /** The README markers are non-empty and the end marker is a single line. */
  lemma MarkerFacts()
    ensures |StartMarker| > 0 && |EndMarker| > 0 && '\n' !in EndMarker
  {
  }

  /** The first section is found by the two searches. */
  lemma FirstSectionAt(r: string, open: string, close: string, k: nat, e: nat)
    requires Find(r, open).Some? && Find(r, open).value == k
    requires FindFrom(r, close, k + |open|).Some? && FindFrom(r, close, k + |open|).value == e
    ensures FirstSection(r, open, close) == Some(Span(k, e))
  {
  }

  /** One step of the substitution: the first complete section, from `k` to the `close` at `e`,
      is replaced and the rest of the text is processed from the end of that `close` on. */
  lemma {:induction false} SubstituteAt(r: string, table: string, open: string, close: string, k: nat, e: nat)
    requires |open| > 0
    requires FirstSection(r, open, close) == Some(Span(k, e))
    ensures e + |close| <= |r| &&
      Substitute(r, table, open, close) == r[..k] + Wrapped(open, table, close) + Substitute(r[e + |close|..], table, open, close)
  {
  }

  lemma {:induction false} Placed(pre: string, m: string, post: string)
    ensures StartsWith(pre + m + post, pre) && OccursAt(pre + m + post, m, |pre|)
  {
    var r := pre + m + post;
    assert r[..|pre|] == pre;
    assert r[|pre|..|pre| + |m|] == m;
  }

  /** The text before the first `open` is never changed; without an `open`, or without a
      `close` after it, nothing is; otherwise the first section, from its `open` on, becomes
      the wrapped table (what follows it is stated by `SectionReplaced`). */
  lemma {:induction false} SubstituteFirstSection(content: string, table: string, open: string, close: string)
    requires |open| > 0
    ensures var r := Substitute(content, table, open, close);
      match Find(content, open)
      case None => r == content
      case Some(k) =>
        StartsWith(r, content[..k]) &&
        (FindFrom(content, close, k + |open|).None? ==> r == content) &&
        (FindFrom(content, close, k + |open|).Some? ==> OccursAt(r, Wrapped(open, table, close), k))
  {
    match Find(content, open)
    case None =>
    case Some(k) =>
      match FindFrom(content, close, k + |open|)
      case None =>
      case Some(e) =>
        SectionReplaced(content, table, open, close, k, e);
  }

  /** The first section found by the two searches becomes the wrapped table, and the text after
      its `close` is substituted in its turn. */
  lemma {:induction false} SectionReplaced(content: string, table: string, open: string, close: string, k: nat, e: nat)
    requires |open| > 0
    requires Find(content, open).Some? && Find(content, open).value == k
    requires FindFrom(content, close, k + |open|).Some? && FindFrom(content, close, k + |open|).value == e
    ensures k <= e + |close| <= |content|
    ensures Substitute(content, table, open, close) ==
      content[..k] + Wrapped(open, table, close) + Substitute(content[e + |close|..], table, open, close)
    ensures StartsWith(Substitute(content, table, open, close), content[..k])
    ensures OccursAt(Substitute(content, table, open, close), Wrapped(open, table, close), k)
  {
    FirstSectionAt(content, open, close, k, e);
    SubstituteAt(content, table, open, close, k, e);
    Placed(content[..k], Wrapped(open, table, close), Substitute(content[e + |close|..], table, open, close));
  }

  /** For the README: the text before the first start marker is never changed; without a start
      marker, or without an end marker after it, nothing is; otherwise the first section, from
      its start marker on, becomes the written section. */
  lemma {:induction false} UpdateReadmeFirstSection(content: string, table: string)
    requires '\\' !in table
    ensures var r := UpdateReadme(content, table);
      match Find(content, StartMarker)
      case None => r == content
      case Some(k) =>
        StartsWith(r, content[..k]) &&
        (FindFrom(content, EndMarker, k + |StartMarker|).None? ==> r == content) &&
        (FindFrom(content, EndMarker, k + |StartMarker|).Some? ==> OccursAt(r, Section(table), k))
  {
    MarkerFacts();
    SubstituteFirstSection(content, table, StartMarker, EndMarker);
  }

  /** For the README: the first section, from the first start marker to the end of the nearest
      end marker after it, becomes the written section, and the text after that end marker is
      updated in its turn. */
  lemma {:induction false} UpdateReadmeSectionReplaced(content: string, table: string, k: nat, e: nat)
    requires '\\' !in table
    requires Find(content, StartMarker).Some? && Find(content, StartMarker).value == k
    requires FindFrom(content, EndMarker, k + |StartMarker|).Some? &&
      FindFrom(content, EndMarker, k + |StartMarker|).value == e
    ensures k <= e + |EndMarker| <= |content|
    ensures UpdateReadme(content, table) ==
      content[..k] + Section(table) + UpdateReadme(content[e + |EndMarker|..], table)
  {
    MarkerFacts();
    SectionReplaced(content, table, StartMarker, EndMarker, k, e);
  }

  /** A text with no `close` at all has no section, and substituting leaves it as it is. */
  lemma {:induction false} SubstituteWithoutClose(content: string, table: string, open: string, close: string)
    requires |open| > 0 && !Contains(content, close)
    ensures Substitute(content, table, open, close) == content
  {
  }

  /** When no `close` follows the end of the first section, that section is the only one: the
      text before it and the text after it are kept character for character, and only the
      section itself becomes the wrapped table. */
  lemma SubstituteSingleSection(content: string, table: string, open: string, close: string, k: nat, e: nat)
    requires |open| > 0
    requires Find(content, open).Some? && Find(content, open).value == k
    requires FindFrom(content, close, k + |open|).Some? && FindFrom(content, close, k + |open|).value == e
    requires !Contains(content[e + |close|..], close)
    ensures e + |close| <= |content|
    ensures Substitute(content, table, open, close) ==
      content[..k] + Wrapped(open, table, close) + content[e + |close|..]
  {
    SectionReplaced(content, table, open, close, k, e);
    SubstituteWithoutClose(content[e + |close|..], table, open, close);
  }

  /** For the README: when no end marker follows the end of the first section, the text before
      its start marker and the text after its end marker are kept, and only that section becomes
      the written section. */
  lemma UpdateReadmeSingleSection(content: string, table: string, k: nat, e: nat)
    requires '\\' !in table
    requires Find(content, StartMarker).Some? && Find(content, StartMarker).value == k
    requires FindFrom(content, EndMarker, k + |StartMarker|).Some? &&
      FindFrom(content, EndMarker, k + |StartMarker|).value == e
    requires !Contains(content[e + |EndMarker|..], EndMarker)
    ensures e + |EndMarker| <= |content|
    ensures UpdateReadme(content, table) == content[..k] + Section(table) + content[e + |EndMarker|..]
  {
    MarkerFacts();
    SubstituteSingleSection(content, table, StartMarker, EndMarker, k, e);
  }

  /** A found occurrence with none before it is what `FindFrom` returns. */
  lemma {:induction false} FindFromIs(s: string, m: string, from: nat, q: nat)
    requires from <= q && OccursAt(s, m, q)
    requires forall j :: from <= j < q ==> !OccursAt(s, m, j)
    ensures FindFrom(s, m, from).Some? && FindFrom(s, m, from).value == q
  {
  }

  /** Whether `m` occurs at `j` depends only on the first `n` characters when it ends by `n`. */
  lemma {:induction false} OccursInCommonPrefix(a: string, b: string, m: string, n: nat, j: nat)
    requires n <= |a| && n <= |b| && a[..n] == b[..n]
    requires j + |m| <= n
    ensures OccursAt(a, m, j) <==> OccursAt(b, m, j)
  {
    assert a[j..j + |m|] == a[..n][j..j + |m|];
    assert b[j..j + |m|] == b[..n][j..j + |m|];
  }

  /** Where the pieces of a freshly wrapped table sit in the text around it. */
  lemma {:induction false} Layout(pre: string, open: string, table: string, close: string, post: string)
    ensures var r := pre + Wrapped(open, table, close) + post;
      var p := |pre| + |open|;
      var q := p + |table| + 2;
      |r| == q + |close| + |post| &&
      r[p] == '\n' && r[q - 1] == '\n' && r[p + 1..q - 1] == table &&
      r[q..q + |close|] == close && r[q + |close|..] == post
  {
    var r := pre + Wrapped(open, table, close) + post;
    assert r == pre + open + "\n" + table + "\n" + close + post;
  }

  lemma SliceOfSlice<T>(s: seq<T>, a: nat, b: nat, c: nat, d: nat)
    requires a <= b <= |s| && c <= d <= b - a
    ensures s[a..b][c..d] == s[a + c..a + d]
  {
    assert |s[a..b][c..d]| == |s[a + c..a + d]|;
    forall i | 0 <= i < d - c ensures s[a..b][c..d][i] == s[a + c..a + d][i] {
      assert s[a..b][c + i] == s[a + c + i];
    }
  }

  /** A single-line marker cannot start inside a line-delimited body that does not contain it:
      it would either lie in the body or cross the line break that follows it. */
  lemma {:induction false} NoMarkerInBody(r: string, table: string, close: string, p: nat, j: nat)
    requires |close| > 0 && '\n' !in close
    requires p + |table| + 2 <= |r|
    requires r[p] == '\n' && r[p + |table| + 1] == '\n' && r[p + 1..p + |table| + 1] == table
    requires !Contains(table, close)
    requires p <= j < p + |table| + 2
    ensures !OccursAt(r, close, j)
  {
    var q := p + |table| + 2;
    if j + |close| > |r| {
    } else if j == p {
      assert r[j..j + |close|][0] == '\n';
    } else if j + |close| <= q - 1 {
      var t := j - p - 1;
      assert !OccursAt(table, close, t);
      SliceOfSlice(r, p + 1, q - 1, t, t + |close|);
    } else {
      var i := q - 1 - j;
      assert r[j..j + |close|][i] == '\n';
    }
  }

  /** In a text laid out as a line break, a table free of `close`, a line break and `close`,
      the first `close` from the first line break on is the one after the table. */
  lemma {:induction false} FirstCloseIn(r: string, table: string, close: string, p: nat)
    requires |close| > 0 && '\n' !in close && !Contains(table, close)
    requires p + |table| + 2 + |close| <= |r|
    requires r[p] == '\n' && r[p + |table| + 1] == '\n' && r[p + 1..p + |table| + 1] == table
    requires r[p + |table| + 2..p + |table| + 2 + |close|] == close
    ensures FindFrom(r, close, p).Some? && FindFrom(r, close, p).value == p + |table| + 2
  {
    forall j | p <= j < p + |table| + 2 ensures !OccursAt(r, close, j) {
      NoMarkerInBody(r, table, close, p, j);
    }
    FindFromIs(r, close, p, p + |table| + 2);
  }

  /** In a freshly wrapped table, the first `close` after `open` is its own, provided the
      table holds no `close`. */
  lemma {:induction false} FirstCloseAfter(pre: string, open: string, table: string, close: string, post: string)
    requires |close| > 0 && '\n' !in close && !Contains(table, close)
    ensures var r := pre + Wrapped(open, table, close) + post;
      FindFrom(r, close, |pre| + |open|).Some? &&
      FindFrom(r, close, |pre| + |open|).value == |pre| + |open| + |table| + 2
  {
    Layout(pre, open, table, close, post);
    FirstCloseIn(pre + Wrapped(open, table, close) + post, table, close, |pre| + |open|);
  }

  /** Writing a section keeps the first `open` where it was. */
  lemma {:induction false} FirstOpenKept(content: string, open: string, k: nat, written: string)
    requires Find(content, open).Some? && Find(content, open).value == k
    requires StartsWith(written, open)
    ensures Find(content[..k] + written, open).Some? && Find(content[..k] + written, open).value == k
  {
    var r := content[..k] + written;
    var n := k + |open|;
    assert content[k..n] == open;
    assert r[..n] == content[..n] by {
      assert content[..n] == content[..k] + open;
      assert r[..n] == content[..k] + written[..|open|];
    }
    forall j | 0 <= j < k ensures !OccursAt(r, open, j) {
      OccursInCommonPrefix(r, content, open, n, j);
    }
    assert r[k..n] == open;
    FindFromIs(r, open, 0, k);
  }

  /** Substituting in a text whose first section was just written rewrites that section to
      itself and goes on with what follows it. */
  lemma {:induction false} RewriteWrittenSection(content: string, table: string, open: string, close: string,
                                                 k: nat, post: string)
    requires |open| > 0 && |close| > 0 && '\n' !in close && !Contains(table, close)
    requires Find(content, open).Some? && Find(content, open).value == k
    ensures Substitute(content[..k] + Wrapped(open, table, close) + post, table, open, close) ==
      content[..k] + Wrapped(open, table, close) + Substitute(post, table, open, close)
  {
    var pre := content[..k];
    var w := Wrapped(open, table, close);
    var r := pre + w + post;
    var e := k + |open| + |table| + 2;
    assert |pre| == k;
    assert Find(r, open).Some? && Find(r, open).value == k by {
      assert r == pre + (w + post);
      assert (w + post)[..|open|] == open;
      FirstOpenKept(content, open, k, w + post);
    }
    assert FindFrom(r, close, k + |open|).Some? && FindFrom(r, close, k + |open|).value == e by {
      FirstCloseAfter(pre, open, table, close, post);
    }
    assert r[..k] == pre && r[e + |close|..] == post by {
      Placed(pre, w, post);
      Layout(pre, open, table, close, post);
    }
    FirstSectionAt(r, open, close, k, e);
    SubstituteAt(r, table, open, close, k, e);
  }

  /** Substituting twice gives what substituting once gives, for a table that holds no `close`:
      each rewritten section is matched again exactly and rewritten to itself. */
  lemma {:induction false} SubstituteIdempotent(content: string, table: string, open: string, close: string)
    requires |open| > 0 && |close| > 0 && '\n' !in close && !Contains(table, close)
    ensures Substitute(Substitute(content, table, open, close), table, open, close) ==
      Substitute(content, table, open, close)
    decreases |content|
  {
    match Find(content, open)
    case None =>
    case Some(k) =>
      match FindFrom(content, close, k + |open|)
      case None =>
      case Some(e) =>
        var rest := content[e + |close|..];
        FirstSectionAt(content, open, close, k, e);
        SubstituteAt(content, table, open, close, k, e);
        RewriteWrittenSection(content, table, open, close, k, Substitute(rest, table, open, close));
        SubstituteIdempotent(rest, table, open, close);
  }

  /** Running the README update twice gives what running it once gives, for a table that holds
      no end marker. */
  lemma UpdateReadmeIdempotent(content: string, table: string)
    requires '\\' !in table && !Contains(table, EndMarker)
    ensures UpdateReadme(UpdateReadme(content, table), table) == UpdateReadme(content, table)
  {
    MarkerFacts();
    SubstituteIdempotent(content, table, StartMarker, EndMarker);
  }

  /** A README without an end marker is left as it is. */
  lemma UnmarkedReadmeUnchanged(content: string, table: string)
    requires '\\' !in table
    requires !Contains(content, EndMarker)
    ensures UpdateReadme(content, table) == content
  {
    match Find(content, StartMarker)
    case None =>
    case Some(k) =>
      assert FindFrom(content, EndMarker, k + |StartMarker|).None?;
  }
}
