/**
 * `parse_adr` and `parse_idea` of scripts/generate_summary.py: the metadata of
 * a decision record (ADR) or an idea, extracted from the text of its Markdown
 * file. Each regular expression of the script is written out as a function
 * that follows Python's leftmost-match and backtracking rules for that one
 * pattern.
 */
module SummaryParse {
  import opened Base
  import opened Strings
  import opened PyText
  import opened Findall

  datatype DocKind = Adr | Idea

  /** The `Document` dataclass. */
  datatype Document = Document(
    number: string,
    title: string,
    status: string,
    date: string,
    filename: string,
    related: seq<string>,
    supersedes: Option<string>,
    kind: DocKind)

  /** The value given to a field whose line is missing. */
  const Unknown: string := "알 수 없음"

  const StatusMarker: string := "**상태**:"
  const SupersedesMarker: string := "**대체된 ADR**:"

  function HeadingPrefix(kind: DocKind): string
  {
    if kind == Adr then "# ADR-" else "# IDEA-"
  }

  function DateMarker(kind: DocKind): string
  {
    if kind == Adr then "**날짜**:" else "**제안일**:"
  }

  function RelatedMarker(kind: DocKind): string
  {
    if kind == Adr then "**관련 ADR**:" else "**관련 아이디어**:"
  }

  /** The prefix of the references `re.findall` collects from the related line. */
  function RefPrefix(kind: DocKind): string
  {
    if kind == Adr then "ADR-" else "IDEA-"
  }

  /** The lines `^` and `$` delimit under `re.MULTILINE`. */
  function Lines(content: string): seq<string>
  {
    Split(content, '\n')
  }

  // ---------------------------------------------------------------- heading

  /** `line` is matched by `^# ADR-(\d+): (.+)$` (or the IDEA form) with groups `digits` and `rest`.
      A line holds no newline, so `.` matches every character of it. */
  ghost predicate HeadingLine(prefix: string, line: string, digits: string, rest: string)
  {
    line == prefix + digits + ": " + rest && |digits| > 0 && AllDigits(digits) && |rest| > 0
  }

  ghost predicate IsHeading(prefix: string, line: string)
  {
    exists digits, rest :: HeadingLine(prefix, line, digits, rest)
  }

  /** The two groups of the heading pattern on one line. */
  function MatchHeading(prefix: string, line: string): (r: Option<(string, string)>)
    ensures r.Some? ==> HeadingLine(prefix, line, r.value.0, r.value.1)
  {
    if StartsWith(line, prefix) then
      var tail := line[|prefix|..];
      var n := DigitRun(tail);
      if n > 0 && |tail| > n + 2 && tail[n..n + 2] == ": " then
        assert line == prefix + tail[..n] + ": " + tail[n + 2..];
        Some((tail[..n], tail[n + 2..]))
      else None
    else None
  }

  /** A heading line has only one reading: the digits end at the first non-digit. */
  lemma MatchHeadingExact(prefix: string, line: string, digits: string, rest: string)
    requires HeadingLine(prefix, line, digits, rest)
    ensures MatchHeading(prefix, line) == Some((digits, rest))
  {
    var tail := line[|prefix|..];
    assert line[..|prefix|] == prefix;
    assert tail == digits + (": " + rest);
    DigitRunOfDigitsThen(digits, ": " + rest);
    assert tail[..|digits|] == digits;
    assert tail[|digits|..|digits| + 2] == ": ";
    assert tail[|digits| + 2..] == rest;
  }

  /** The first heading line at or after `from`: its index and the two groups. */
  function FirstHeading(prefix: string, lines: seq<string>, from: nat): (r: Option<(nat, string, string)>)
    ensures r.None? <==> forall i :: from <= i < |lines| ==> !IsHeading(prefix, lines[i])
    ensures r.Some? ==> from <= r.value.0 < |lines|
    ensures r.Some? ==> HeadingLine(prefix, lines[r.value.0], r.value.1, r.value.2)
    ensures r.Some? ==> forall i :: from <= i < r.value.0 ==> !IsHeading(prefix, lines[i])
    decreases |lines| - from
  {
    if from >= |lines| then None
    else
      var m := MatchHeading(prefix, lines[from]);
      if m.Some? then Some((from, m.value.0, m.value.1))
      else
        assert !IsHeading(prefix, lines[from]) by {
          forall digits, rest | HeadingLine(prefix, lines[from], digits, rest) ensures false {
            MatchHeadingExact(prefix, lines[from], digits, rest);
          }
        }
        FirstHeading(prefix, lines, from + 1)
  }

  // ---------------------------------------------------------------- `marker\s*(.+?)(?:\n|$)`

  /** The text before the first newline. */
  function UpToNewline(s: string): (r: string)
    ensures |r| <= |s| && r == s[..|r|] && '\n' !in r
    ensures |r| < |s| ==> s[|r|] == '\n'
  {
    if s == [] || s[0] == '\n' then ""
    else
      var t := UpToNewline(s[1..]);
      assert [s[0]] + t == s[..|t| + 1];
      [s[0]] + t
  }

  /** The last character of `s` that is not a newline, as a one-character string. */
  function LastNonNewline(s: string): (r: Option<string>)
    ensures r.Some? ==> |r.value| == 1 && r.value[0] in s && r.value[0] != '\n'
    ensures r.None? ==> forall k :: 0 <= k < |s| ==> s[k] == '\n'
  {
    if s == [] then None
    else if s[|s| - 1] != '\n' then Some([s[|s| - 1]])
    else
      var r := LastNonNewline(s[..|s| - 1]);
      assert r.Some? ==> r.value[0] in s[..|s| - 1];
      r
  }

  /**
   * Group 1 of `marker\s*(.+?)(?:\n|$)`, searched without MULTILINE. At the first occurrence of
   * the marker, `\s*` takes the whole run of whitespace that follows; when something else comes
   * after that run, the group is the rest of that line. When only whitespace follows, `\s*` backs
   * off to the last character that is not a newline and the group is that one character; with
   * only newlines left no later occurrence can exist, so there is no match.
   */
  function LineValue(content: string, marker: string): (r: Option<string>)
    ensures r.Some? ==> |r.value| > 0 && '\n' !in r.value
    ensures !Contains(content, marker) ==> r.None?
  {
    match Find(content, marker)
    case None => None
    case Some(i) =>
      var rest := content[i + |marker|..];
      var w := SpaceRun(rest);
      if w < |rest| then Some(UpToNewline(rest[w..]))
      else LastNonNewline(rest)
  }

  // ---------------------------------------------------------------- `marker\s*<value>`

  /** `\d{4}-\d{2}-\d{2}`. */
  predicate IsDateShape(d: string)
  {
    |d| == 10 && d[4] == '-' && d[7] == '-' &&
    forall k :: 0 <= k < 10 && k != 4 && k != 7 ==> IsDigit(d[k])
  }

  /** What may follow the marker and its whitespace: a date, or a bracketed ADR reference. */
  datatype ValuePattern = DateValue | BracketedAdr

  /** The group of the value pattern at the start of `s`. */
  function MatchValue(pattern: ValuePattern, s: string): (r: Option<string>)
    ensures r.Some? && pattern == DateValue ==> IsDateShape(r.value)
    ensures r.Some? && pattern == BracketedAdr ==> |r.value| > 0 && AllDigits(r.value)
  {
    match pattern
    case DateValue =>
      if |s| >= 10 && IsDateShape(s[..10]) then Some(s[..10]) else None
    case BracketedAdr =>
      if StartsWith(s, "[ADR-") then
        var n := DigitRun(s[5..]);
        if n > 0 && |s| > 5 + n && s[5 + n] == ']' then
          assert forall k :: 0 <= k < n ==> s[5..5 + n][k] == s[5..][k];
          Some(s[5..5 + n])
        else None
      else None
  }

  /** The value that follows the marker occurring at `k`, once `\s*` has taken the whitespace
      run after it. Since the value starts with a non-whitespace character, `\s*` can only take
      the whole run. */
  function ValueAfter(content: string, marker: string, pattern: ValuePattern, k: nat): Option<string>
    requires k + |marker| <= |content|
  {
    var rest := content[k + |marker|..];
    MatchValue(pattern, rest[SpaceRun(rest)..])
  }

  /**
   * Group 1 of `marker\s*<value>`, searched without MULTILINE: the value after the first
   * occurrence of the marker at or after `from` that is followed by one. There is no match
   * exactly when no occurrence is.
   */
  function SearchValue(content: string, marker: string, pattern: ValuePattern, from: nat): (r: Option<string>)
    ensures r.Some? && pattern == DateValue ==> IsDateShape(r.value)
    ensures r.Some? && pattern == BracketedAdr ==> |r.value| > 0 && AllDigits(r.value)
    ensures (forall k :: from <= k ==> !OccursAt(content, marker, k)) ==> r.None?
    decreases |content| - from
  {
    match FindFrom(content, marker, from)
    case None => None
    case Some(i) =>
      var v := ValueAfter(content, marker, pattern, i);
      if v.Some? then v else SearchValue(content, marker, pattern, i + 1)
  }

  /** No occurrence of the marker at or after `from` is followed by a value. */
  ghost predicate NoValueFrom(content: string, marker: string, pattern: ValuePattern, from: nat)
  {
    forall k :: from <= k && OccursAt(content, marker, k) ==> ValueAfter(content, marker, pattern, k).None?
  }

  /** No value follows an occurrence from `from` on when the first one at `i` has none and no
      later one has one. */
  lemma NoValueFromStep(content: string, marker: string, pattern: ValuePattern, from: nat, i: nat)
    requires from <= i && OccursAt(content, marker, i) && ValueAfter(content, marker, pattern, i).None?
    requires forall k :: from <= k < i ==> !OccursAt(content, marker, k)
    requires NoValueFrom(content, marker, pattern, i + 1)
    ensures NoValueFrom(content, marker, pattern, from)
  {
  }

  /** A failed search means no occurrence of the marker is followed by a value. */
  lemma {:induction false} SearchValueNoneSound(content: string, marker: string, pattern: ValuePattern, from: nat)
    requires SearchValue(content, marker, pattern, from).None?
    ensures NoValueFrom(content, marker, pattern, from)
    decreases |content| - from
  {
    var f := FindFrom(content, marker, from);
    if f.Some? {
      var i := f.value;
      SearchValueNoneSound(content, marker, pattern, i + 1);
      NoValueFromStep(content, marker, pattern, from, i);
    }
  }

  /** When no occurrence of the marker is followed by a value, the search fails. */
  lemma {:induction false} SearchValueNoneComplete(content: string, marker: string, pattern: ValuePattern, from: nat)
    requires NoValueFrom(content, marker, pattern, from)
    ensures SearchValue(content, marker, pattern, from).None?
    decreases |content| - from
  {
    var f := FindFrom(content, marker, from);
    if f.Some? {
      var i := f.value;
      assert ValueAfter(content, marker, pattern, i).None?;
      SearchValueNoneComplete(content, marker, pattern, i + 1);
    }
  }

  /** The search fails exactly when no occurrence of the marker is followed by a value. */
  lemma SearchValueNone(content: string, marker: string, pattern: ValuePattern, from: nat)
    ensures SearchValue(content, marker, pattern, from).None? <==> NoValueFrom(content, marker, pattern, from)
  {
    if SearchValue(content, marker, pattern, from).None? {
      SearchValueNoneSound(content, marker, pattern, from);
    }
    if NoValueFrom(content, marker, pattern, from) {
      SearchValueNoneComplete(content, marker, pattern, from);
    }
  }

  /** The search returns the value after the first occurrence of the marker that has one. */
  lemma {:induction false} SearchValueAt(content: string, marker: string, pattern: ValuePattern, from: nat, i: nat)
    requires from <= i && OccursAt(content, marker, i) && ValueAfter(content, marker, pattern, i).Some?
    requires forall k :: from <= k < i && OccursAt(content, marker, k) ==> ValueAfter(content, marker, pattern, k).None?
    ensures SearchValue(content, marker, pattern, from) == ValueAfter(content, marker, pattern, i)
    decreases i - from
  {
    var f := FindFrom(content, marker, from);
    assert f.Some? && f.value <= i;
    if f.value < i {
      SearchValueAt(content, marker, pattern, f.value + 1, i);
    }
  }

  // ---------------------------------------------------------------- `re.findall(r"ADR-(\d+)", line)`

  /** The match of `prefix(\d+)` that starts at `j`, if one does: `\d+` takes every digit that
      follows the prefix, and there must be at least one. */
  function RefAt(prefix: string, s: string, j: nat): (r: Option<string>)
    ensures r.Some? ==> |r.value| > 0 && AllDigits(r.value) && j + |prefix| + |r.value| <= |s|
  {
    if OccursAt(s, prefix, j) then
      var start := j + |prefix|;
      var n := DigitRun(s[start..]);
      if n > 0 then Some(s[start..start + n]) else None
    else None
  }

  /** A match starts at `j` exactly when the prefix occurs there followed by a digit; the match
      is the prefix and the whole run of digits after it. */
  lemma RefAtMatch(prefix: string, s: string, j: nat)
    ensures RefAt(prefix, s, j).Some? <==> OccursAt(s, prefix, j) && j + |prefix| < |s| && IsDigit(s[j + |prefix|])
    ensures var r := RefAt(prefix, s, j);
      r.Some? ==> (OccursAt(s, prefix + r.value, j) &&
        (j + |prefix| + |r.value| == |s| || !IsDigit(s[j + |prefix| + |r.value|])))
  {
    var r := RefAt(prefix, s, j);
    if r.Some? {
      var start := j + |prefix|;
      var n := |r.value|;
      assert forall k :: 0 <= k < n ==> r.value[k] == s[start..][k];
      assert s[j..j + |prefix + r.value|] == prefix + r.value;
    }
  }

  /** `RefAt` as the matcher of the left-to-right scan of `re.findall`. */
  function RefMatcher(prefix: string, s: string): (at: nat -> Option<string>)
    ensures Advances(at)
  {
    (j: nat) => RefAt(prefix, s, j)
  }

  /** Every group the scan finds is a run of digits, and it finds nothing where the prefix
      never occurs. */
  lemma ScanRefs(prefix: string, s: string, from: nat)
    ensures var r := Scan(RefMatcher(prefix, s), |prefix|, |s|, from);
      forall k :: 0 <= k < |r| ==> |r[k]| > 0 && AllDigits(r[k])
    ensures (forall k :: from <= k ==> !OccursAt(s, prefix, k)) ==> Scan(RefMatcher(prefix, s), |prefix|, |s|, from) == []
  {
    StartsMatch(RefMatcher(prefix, s), |prefix|, |s|, from);
    var p, r := Starts(RefMatcher(prefix, s), |prefix|, |s|, from), Scan(RefMatcher(prefix, s), |prefix|, |s|, from);
    forall k | 0 <= k < |r| ensures |r[k]| > 0 && AllDigits(r[k]) {
      assert RefMatcher(prefix, s)(p[k]) == RefAt(prefix, s, p[k]);
    }
    if |r| > 0 {
      assert RefMatcher(prefix, s)(p[0]) == RefAt(prefix, s, p[0]);
      assert OccursAt(s, prefix, p[0]);
    }
  }

  /** The non-overlapping matches of `prefix(\d+)` at or after `from`, left to right. */
  function FindAllRefs(prefix: string, s: string, from: nat): (r: seq<string>)
    ensures forall k :: 0 <= k < |r| ==> |r[k]| > 0 && AllDigits(r[k])
    ensures (forall k :: from <= k ==> !OccursAt(s, prefix, k)) ==> r == []
  {
    ScanRefs(prefix, s, from);
    Scan(RefMatcher(prefix, s), |prefix|, |s|, from)
  }

  /** `FindAllRefs` is `re.findall`: the k-th reference is the digits of the match at the k-th
      start, the matches go left to right without overlapping, and no match at or after `from`
      is missed. */
  lemma FindAllRefsScans(prefix: string, s: string, from: nat)
    ensures var starts, refs := Starts(RefMatcher(prefix, s), |prefix|, |s|, from), FindAllRefs(prefix, s, from);
      |starts| == |refs| &&
      (forall k :: 0 <= k < |starts| ==>
        from <= starts[k] && RefAt(prefix, s, starts[k]).Some? && RefAt(prefix, s, starts[k]).value == refs[k]) &&
      InOrder(|prefix|, starts, refs) &&
      NoneMissed(RefMatcher(prefix, s), |prefix|, |s|, from, starts, refs)
    ensures forall j :: |s| < j ==> RefAt(prefix, s, j).None?
  {
    ScanFindsAll(RefMatcher(prefix, s), |prefix|, |s|, from);
  }

  /** Each reference found occurs in the text after its prefix. */
  lemma FindAllRefsOccur(prefix: string, s: string)
    ensures forall k :: 0 <= k < |FindAllRefs(prefix, s, 0)| ==> Contains(s, prefix + FindAllRefs(prefix, s, 0)[k])
  {
    StartsMatch(RefMatcher(prefix, s), |prefix|, |s|, 0);
    var p, r := Starts(RefMatcher(prefix, s), |prefix|, |s|, 0), FindAllRefs(prefix, s, 0);
    forall k | 0 <= k < |r| ensures Contains(s, prefix + r[k]) {
      RefAtMatch(prefix, s, p[k]);
      assert OccursAt(s, prefix + r[k], p[k]);
    }
  }

  /** The `related` list: empty when the related line is missing or is just "-", otherwise every
      reference on that line in order. */
  function RelatedOf(kind: DocKind, content: string): (r: seq<string>)
    ensures forall k :: 0 <= k < |r| ==> |r[k]| > 0 && AllDigits(r[k])
    ensures LineValue(content, RelatedMarker(kind)).None? ==> r == []
    ensures LineValue(content, RelatedMarker(kind)).Some? && Strip(LineValue(content, RelatedMarker(kind)).value) == "-" ==> r == []
    ensures LineValue(content, RelatedMarker(kind)).Some? ==>
      forall k :: 0 <= k < |r| ==> Contains(LineValue(content, RelatedMarker(kind)).value, RefPrefix(kind) + r[k])
    ensures LineValue(content, RelatedMarker(kind)).Some? && Strip(LineValue(content, RelatedMarker(kind)).value) != "-" ==>
      r == FindAllRefs(RefPrefix(kind), LineValue(content, RelatedMarker(kind)).value, 0)
  {
    var line := LineValue(content, RelatedMarker(kind));
    if line.Some? && Strip(line.value) != "-" then
      FindAllRefsOccur(RefPrefix(kind), line.value);
      FindAllRefs(RefPrefix(kind), line.value, 0)
    else []
  }

  /** `status_match.group(1).strip()`, or Unknown without a match. */
  function StatusOf(content: string): (r: string)
    ensures !Contains(content, StatusMarker) ==> r == Unknown
    ensures '\n' !in r
  {
    var v := LineValue(content, StatusMarker);
    if v.Some? then StripKeepsOut(v.value, '\n'); Strip(v.value) else Unknown
  }

  /** The date group, or Unknown without a match. */
  function DateOf(kind: DocKind, content: string): (r: string)
    ensures !Contains(content, DateMarker(kind)) ==> r == Unknown
    ensures r == Unknown || IsDateShape(r)
  {
    var v := SearchValue(content, DateMarker(kind), DateValue, 0);
    if v.Some? then v.value else Unknown
  }

  /** The number of the record an ADR replaces, if its file names one. */
  function SupersedesOf(content: string): (r: Option<string>)
    ensures !Contains(content, SupersedesMarker) ==> r.None?
    ensures r.Some? ==> |r.value| > 0 && AllDigits(r.value)
  {
    SearchValue(content, SupersedesMarker, BracketedAdr, 0)
  }

  /** Python truthiness of `doc.supersedes`: present and not empty. */
  predicate HasSupersedes(d: Document)
  {
    d.supersedes.Some? && d.supersedes.value != ""
  }

  // ---------------------------------------------------------------- the fields of a concrete file

  /** The text before the first newline of a line followed by a newline or by nothing. */
  lemma {:induction false} UpToNewlineOf(v: string, t: string)
    requires '\n' !in v
    requires t == [] || t[0] == '\n'
    ensures UpToNewline(v + t) == v
  {
    if v != [] {
      assert (v + t)[1..] == v[1..] + t;
      UpToNewlineOf(v[1..], t);
    } else {
      assert v + t == t;
    }
  }

  /** The first occurrence of the marker is at the end of `a`. */
  lemma FindAfter(content: string, a: string, marker: string, x: string)
    requires content == a + marker + x
    requires forall k :: 0 <= k < |a| ==> !OccursAt(content, marker, k)
    ensures Find(content, marker).Some? && Find(content, marker).value == |a|
    ensures content[|a| + |marker|..] == x
  {
    assert content[|a|..|a| + |marker|] == marker;
    assert OccursAt(content, marker, |a|);
  }

  /** With `marker`, whitespace `w`, a line `v` that starts with something else, and then a
      newline or the end of the text, the line value is `v`. */
  lemma LineValueAt(content: string, a: string, marker: string, w: string, v: string, t: string)
    requires content == a + marker + (w + v + t)
    requires forall k :: 0 <= k < |a| ==> !OccursAt(content, marker, k)
    requires forall k :: 0 <= k < |w| ==> IsPySpace(w[k])
    requires v != [] && !IsPySpace(v[0]) && '\n' !in v
    requires t == [] || t[0] == '\n'
    ensures LineValue(content, marker) == Some(v)
  {
    FindAfter(content, a, marker, w + v + t);
    LineAfterSpaces(w, v, t);
  }

  /** After the whitespace run `w`, the line is `v`. */
  lemma LineAfterSpaces(w: string, v: string, t: string)
    requires forall k :: 0 <= k < |w| ==> IsPySpace(w[k])
    requires v != [] && !IsPySpace(v[0]) && '\n' !in v
    requires t == [] || t[0] == '\n'
    ensures SpaceRun(w + v + t) == |w| < |w + v + t|
    ensures UpToNewline((w + v + t)[|w|..]) == v
  {
    assert w + v + t == w + (v + t);
    SpaceRunOfSpacesThen(w, v + t);
    assert (w + (v + t))[|w|..] == v + t;
    UpToNewlineOf(v, t);
  }

  /** A file whose first `**상태**:` line reads `v` has the status `v` stripped. */
  lemma StatusOfAt(content: string, a: string, w: string, v: string, t: string)
    requires content == a + StatusMarker + (w + v + t)
    requires forall k :: 0 <= k < |a| ==> !OccursAt(content, StatusMarker, k)
    requires forall k :: 0 <= k < |w| ==> IsPySpace(w[k])
    requires v != [] && !IsPySpace(v[0]) && '\n' !in v
    requires t == [] || t[0] == '\n'
    ensures StatusOf(content) == Strip(v)
  {
    LineValueAt(content, a, StatusMarker, w, v, t);
  }

  /** A file whose first date marker followed by a date reads `date` has that date. */
  lemma DateOfAt(kind: DocKind, content: string, a: string, w: string, date: string, t: string)
    requires content == a + DateMarker(kind) + (w + (date + t))
    requires forall k :: 0 <= k < |a| && OccursAt(content, DateMarker(kind), k) ==>
      ValueAfter(content, DateMarker(kind), DateValue, k).None?
    requires forall k :: 0 <= k < |w| ==> IsPySpace(w[k])
    requires IsDateShape(date)
    ensures DateOf(kind, content) == date
  {
    var marker := DateMarker(kind);
    assert content[|a|..|a| + |marker|] == marker;
    assert content[|a| + |marker|..] == w + (date + t);
    SpaceRunOfSpacesThen(w, date + t);
    assert (w + (date + t))[|w|..] == date + t;
    assert (date + t)[..10] == date;
    SearchValueAt(content, marker, DateValue, 0, |a|);
  }

  /** The date is Unknown exactly when no date marker is followed by a date. */
  lemma DateOfUnknown(kind: DocKind, content: string)
    ensures DateOf(kind, content) == Unknown <==> NoValueFrom(content, DateMarker(kind), DateValue, 0)
  {
    SearchValueNone(content, DateMarker(kind), DateValue, 0);
    assert !IsDateShape(Unknown);
  }

  /** `\[ADR-(\d+)\]` takes all the digits of a bracketed reference. */
  lemma BracketedAdrOf(n: string, t: string)
    requires n != [] && AllDigits(n)
    ensures MatchValue(BracketedAdr, "[ADR-" + n + "]" + t) == Some(n)
  {
    var x := "[ADR-" + n + "]" + t;
    assert x[5..] == n + ("]" + t);
    DigitRunOfDigitsThen(n, "]" + t);
    assert x[5..5 + |n|] == n;
  }

  /** A file whose first `**대체된 ADR**:` marker followed by a reference reads `[ADR-n]` names
      the record `n`. */
  lemma SupersedesOfAt(content: string, a: string, w: string, n: string, t: string)
    requires content == a + SupersedesMarker + (w + ("[ADR-" + n + "]" + t))
    requires forall k :: 0 <= k < |a| && OccursAt(content, SupersedesMarker, k) ==>
      ValueAfter(content, SupersedesMarker, BracketedAdr, k).None?
    requires forall k :: 0 <= k < |w| ==> IsPySpace(w[k])
    requires n != [] && AllDigits(n)
    ensures SupersedesOf(content).Some? && SupersedesOf(content).value == n
  {
    var marker, x := SupersedesMarker, "[ADR-" + n + "]" + t;
    assert content[|a|..|a| + |marker|] == marker;
    assert content[|a| + |marker|..] == w + x;
    SpaceRunOfSpacesThen(w, x);
    assert (w + x)[|w|..] == x;
    BracketedAdrOf(n, t);
    SearchValueAt(content, marker, BracketedAdr, 0, |a|);
  }

  /** The shared body of `parse_adr` and `parse_idea`. */
  function ParseDocument(kind: DocKind, content: string, filename: string): Option<Document>
  {
    var heading := FirstHeading(HeadingPrefix(kind), Lines(content), 0);
    if heading.None? then None
    else
      var (_, digits, rawTitle) := heading.value;
      Some(Document(
        number := digits,
        title := Strip(rawTitle),
        status := StatusOf(content),
        date := DateOf(kind, content),
        filename := filename,
        related := RelatedOf(kind, content),
        supersedes := if kind == Adr then SupersedesOf(content) else None,
        kind := kind))
  }

  /** The fields every parsed document of `kind` from `filename` satisfies. */
  ghost predicate WellFormed(d: Document, kind: DocKind, filename: string)
  {
    d.kind == kind && d.filename == filename &&
    |d.number| > 0 && AllDigits(d.number) &&
    '\n' !in d.title && '\n' !in d.status &&
    (d.date == Unknown || IsDateShape(d.date)) &&
    (forall k :: 0 <= k < |d.related| ==> |d.related[k]| > 0 && AllDigits(d.related[k])) &&
    (d.supersedes.Some? ==> |d.supersedes.value| > 0 && AllDigits(d.supersedes.value))
  }

  /** The number and title come from the first heading line. */
  ghost predicate FromFirstHeading(d: Document, prefix: string, content: string)
  {
    var lines := Lines(content);
    exists i, rawTitle :: 0 <= i < |lines| && HeadingLine(prefix, lines[i], d.number, rawTitle) &&
      d.title == Strip(rawTitle) &&
      forall k :: 0 <= k < i ==> !IsHeading(prefix, lines[k])
  }

  /**
   * `parse_adr`: None exactly when no line is an `# ADR-<digits>: <title>` heading; otherwise the
   * number and trimmed title of the first such line, the status and date (Unknown when their
   * lines are missing), the related references and the replaced record.
   */
  function ParseAdr(content: string, filename: string): (r: Option<Document>)
    ensures r.None? <==> forall i :: 0 <= i < |Lines(content)| ==> !IsHeading("# ADR-", Lines(content)[i])
    ensures r.Some? ==> WellFormed(r.value, Adr, filename) && FromFirstHeading(r.value, "# ADR-", content)
    ensures r.Some? ==> r.value.status == StatusOf(content) && r.value.date == DateOf(Adr, content)
    ensures r.Some? ==> r.value.related == RelatedOf(Adr, content) && r.value.supersedes == SupersedesOf(content)
  {
    var r := ParseDocument(Adr, content, filename);
    ParsedFromHeading(Adr, content, filename);
    r
  }

  /** `parse_idea`: as `parse_adr` for `# IDEA-<digits>: <title>` headings, with the proposal date,
      the related ideas and never a replaced record. */
  function ParseIdea(content: string, filename: string): (r: Option<Document>)
    ensures r.None? <==> forall i :: 0 <= i < |Lines(content)| ==> !IsHeading("# IDEA-", Lines(content)[i])
    ensures r.Some? ==> WellFormed(r.value, Idea, filename) && FromFirstHeading(r.value, "# IDEA-", content)
    ensures r.Some? ==> r.value.status == StatusOf(content) && r.value.date == DateOf(Idea, content)
    ensures r.Some? ==> r.value.related == RelatedOf(Idea, content) && r.value.supersedes.None?
  {
    var r := ParseDocument(Idea, content, filename);
    ParsedFromHeading(Idea, content, filename);
    r
  }

  /** For a parsed record, `if doc.supersedes:` holds exactly when the file names a replaced
      record: a captured number is never empty. */
  lemma ParsedSupersedesTruthy(content: string, filename: string)
    requires ParseAdr(content, filename).Some?
    ensures HasSupersedes(ParseAdr(content, filename).value) <==> SupersedesOf(content).Some?
  {
  }

  lemma ParsedFromHeading(kind: DocKind, content: string, filename: string)
    ensures var r := ParseDocument(kind, content, filename);
      r.Some? ==> WellFormed(r.value, kind, filename) && FromFirstHeading(r.value, HeadingPrefix(kind), content)
  {
    var heading := FirstHeading(HeadingPrefix(kind), Lines(content), 0);
    if heading.Some? {
      var (i, digits, rawTitle) := heading.value;
      var lines := Lines(content);
      assert '\n' !in lines[i];
      assert '\n' !in rawTitle by {
        assert lines[i] == HeadingPrefix(kind) + digits + ": " + rawTitle;
        assert rawTitle == lines[i][|lines[i]| - |rawTitle|..];
      }
      StripKeepsOut(rawTitle, '\n');
      assert HeadingLine(HeadingPrefix(kind), lines[i], digits, rawTitle);
    }
  }
}
