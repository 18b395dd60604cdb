/** Repointing the changelog's links for a release, and checking them. */
module ChangelogLinks {
  import opened Changelog
  import opened Wrappers

  // ---- the writer -------------------------------------------------------------------------

  /** The first line that defines the label, or the number of lines. */
  function FirstDefining(name: string, lines: seq<string>): (n: nat)
    ensures n <= |lines| && (n < |lines| ==> Defines(name, lines[n]))
    ensures forall i :: 0 <= i < n ==> !Defines(name, lines[i])
  {
    if lines == [] || Defines(name, lines[0]) then 0 else 1 + FirstDefining(name, lines[1..])
  }

  /** Where the text first holds the part. */
  function Find(text: string, part: string): (r: Option<nat>)
    ensures r.Some? ==> r.value + |part| <= |text| && text[r.value..][..|part|] == part
  {
    if part <= text then Some(0)
    else if text == "" then None
    else
      var rest := Find(text[1..], part);
      if rest.Some? then Some(rest.value + 1) else None
  }

  /** Text replacement of the first `part` by `part` with `line` on a line below it. */
  function BreakAfter(lines: seq<string>, part: string, line: string): seq<string> {
    if lines == [] then []
    else
      var at := Find(lines[0], part);
      if at.None? then [lines[0]] + BreakAfter(lines[1..], part, line)
      else [lines[0][..at.value] + part, line + lines[0][at.value + |part|..]] + lines[1..]
  }

  function UnreleasedLine(version: string): string {
    Definition(UNRELEASED, CompareUrl(version, HEAD))
  }

  function VersionLine(version: string, prev: string): string {
    Definition(version, CompareUrl(prev, "v" + version))
  }

  /** `_validate_changelog_links` raises nothing. */
  ghost predicate Validates(r: Reading, lines: seq<string>, version: string) {
    NoDuplicates(r, lines) && FirstDefining(UNRELEASED, lines) < |lines| && PrevOf(lines, version).Some?
  }

  function Repointed(lines: seq<string>, version: string): seq<string>
    requires FirstDefining(UNRELEASED, lines) < |lines|
  {
    lines[FirstDefining(UNRELEASED, lines) := UnreleasedLine(version)]
  }

  /** The text `_bump_changelog_links` leaves. */
  function Bumped(lines: seq<string>, version: string): seq<string>
    requires FirstDefining(UNRELEASED, lines) < |lines| && PrevOf(lines, version).Some?
  {
    var versionLine := VersionLine(version, PrevOf(lines, version).value);
    var repointed := Repointed(lines, version);
    var w := FirstDefining(version, repointed);
    if w < |repointed| then repointed[w := versionLine]
    else BreakAfter(repointed, UnreleasedLine(version), versionLine)
  }

  datatype Refusal = DuplicateLabel(name: string, first: nat, line: nat) | NoUnreleasedLine | NoSectionBelow
  datatype Outcome = Refused(why: Refusal) | Unchanged | Written(lines: seq<string>)

  /** The folded labels of the link definitions before line `i`, each with its first line. */
  ghost predicate Seen(r: Reading, lines: seq<string>, i: nat, firstSeen: map<string, nat>)
    requires i <= |lines|
  {
    && (forall key :: key in firstSeen ==> firstSeen[key] < i && Links(r, lines[firstSeen[key]], key))
    && (forall j :: 0 <= j < i && LinkOf(r, lines[j]).Some? ==> r.fold(LinkOf(r, lines[j]).value.0) in firstSeen)
  }

  lemma {:induction false} SeenNext(r: Reading, lines: seq<string>, i: nat, firstSeen: map<string, nat>)
    requires i < |lines| && Seen(r, lines, i, firstSeen)
    ensures var link := LinkOf(r, lines[i]);
            if link.None? then
              Seen(r, lines, i + 1, firstSeen) && (NoDuplicates(r, lines[..i + 1]) <==> NoDuplicates(r, lines[..i]))
            else if r.fold(link.value.0) in firstSeen then
              Seen(r, lines, i + 1, firstSeen) && !NoDuplicates(r, lines[..i + 1])
            else
              Seen(r, lines, i + 1, firstSeen[r.fold(link.value.0) := i])
              && (NoDuplicates(r, lines[..i + 1]) <==> NoDuplicates(r, lines[..i]))
  {
    var link := LinkOf(r, lines[i]);
    if link.Some? && r.fold(link.value.0) in firstSeen {
      DuplicateAt(r, lines, firstSeen[r.fold(link.value.0)], i);
    } else {
      FreshAt(r, lines, i);
    }
  }

  lemma DuplicateAt(r: Reading, lines: seq<string>, first: nat, i: nat)
    requires first < i < |lines| && LinkOf(r, lines[first]).Some?
    requires Links(r, lines[i], r.fold(LinkOf(r, lines[first]).value.0))
    ensures !NoDuplicates(r, lines[..i + 1])
  {
    assert lines[..i + 1][first] == lines[first] && lines[..i + 1][i] == lines[i];
  }

  lemma FreshAt(r: Reading, lines: seq<string>, i: nat)
    requires i < |lines|
    requires forall j :: 0 <= j < i && LinkOf(r, lines[j]).Some? ==>
      !Links(r, lines[i], r.fold(LinkOf(r, lines[j]).value.0))
    ensures NoDuplicates(r, lines[..i + 1]) <==> NoDuplicates(r, lines[..i])
  {
    var more := lines[..i + 1];
    assert forall j :: 0 <= j < i ==> more[j] == lines[..i][j];
    if NoDuplicates(r, lines[..i]) {
      forall j, k | 0 <= j < k < |more| && LinkOf(r, more[j]).Some?
        ensures !Links(r, more[k], r.fold(LinkOf(r, more[j]).value.0))
      {
        if k < i {
          assert more[k] == lines[..i][k];
        }
      }
    }
  }

  /** `_check_no_duplicate_changelog_labels`. */
  method CheckNoDuplicates(r: Reading, lines: seq<string>) returns (refusal: Option<Refusal>)
    ensures refusal.None? <==> NoDuplicates(r, lines)
  {
    var firstSeen: map<string, nat> := map[];
    for i := 0 to |lines|
      invariant NoDuplicates(r, lines[..i]) && Seen(r, lines, i, firstSeen)
    {
      SeenNext(r, lines, i, firstSeen);
      var link := LinkOf(r, lines[i]);
      if link.Some? {
        var key := r.fold(link.value.0);
        if key in firstSeen {
          StillDuplicate(r, lines, i + 1);
          return Some(DuplicateLabel(link.value.0, firstSeen[key], i));
        }
        firstSeen := firstSeen[key := i];
      }
    }
    assert lines[..|lines|] == lines;
    return None;
  }

  lemma StillDuplicate(r: Reading, lines: seq<string>, n: nat)
    requires n <= |lines| && !NoDuplicates(r, lines[..n])
    ensures !NoDuplicates(r, lines)
  {
    var some := lines[..n];
    var i, j :| 0 <= i < j < |some| && LinkOf(r, some[i]).Some?
      && Links(r, some[j], r.fold(LinkOf(r, some[i]).value.0));
    assert some[i] == lines[i] && some[j] == lines[j];
  }

  method FirstLine(name: string, lines: seq<string>) returns (n: nat)
    ensures n == FirstDefining(name, lines)
  {
    n := 0;
    while n < |lines| && !Defines(name, lines[n])
      invariant n <= |lines| && forall i :: 0 <= i < n ==> !Defines(name, lines[i])
    {
      n := n + 1;
    }
  }

  /** `_validate_changelog_links`. */
  method ValidateLinks(r: Reading, lines: seq<string>, version: string) returns (refusal: Option<Refusal>)
    ensures refusal.None? <==> Validates(r, lines, version)
  {
    refusal := CheckNoDuplicates(r, lines);
    if refusal.Some? {
      return;
    }
    var u := FirstLine(UNRELEASED, lines);
    if u == |lines| {
      return Some(NoUnreleasedLine);
    }
    var prev := PrevVersion(lines, version);
    if prev.None? {
      return Some(NoSectionBelow);
    }
  }

  method Break(lines: seq<string>, part: string, line: string) returns (more: seq<string>)
    ensures more == BreakAfter(lines, part, line)
  {
    more := [];
    for i := 0 to |lines|
      invariant more + BreakAfter(lines[i..], part, line) == BreakAfter(lines, part, line)
    {
      assert lines[i..][1..] == lines[i + 1..];
      var at := Find(lines[i], part);
      if at.Some? {
        return more + [lines[i][..at.value] + part, line + lines[i][at.value + |part|..]] + lines[i + 1..];
      }
      more := more + [lines[i]];
    }
  }

  lemma {:induction false} BreakGrows(lines: seq<string>, part: string, line: string)
    ensures (exists i :: 0 <= i < |lines| && Find(lines[i], part).Some?) ==>
      |BreakAfter(lines, part, line)| == |lines| + 1
  {
    if lines != [] && Find(lines[0], part).None? {
      BreakGrows(lines[1..], part, line);
      if i :| 0 <= i < |lines| && Find(lines[i], part).Some? {
        assert lines[1..][i - 1] == lines[i];
      }
    }
  }

  lemma FindSelf(text: string)
    ensures Find(text, text) == Some(0)
  {
  }

  /** A text that does not read as the bump would write it is changed by the bump. */
  lemma BumpChanges(lines: seq<string>, version: string)
    requires SemVer(version) && FirstDefining(UNRELEASED, lines) < |lines| && PrevOf(lines, version).Some?
    requires var text, w := Repointed(lines, version), FirstDefining(version, Repointed(lines, version));
             || text != lines || w == |text| || text[w] != VersionLine(version, PrevOf(lines, version).value)
    ensures Bumped(lines, version) != lines
  {
    var u, text := FirstDefining(UNRELEASED, lines), Repointed(lines, version);
    var w := FirstDefining(version, text);
    LinesApart(version, CompareUrl(version, HEAD));
    if w < |text| {
      assert w != u;
      assert Bumped(lines, version)[u] == text[u];
    } else {
      FindSelf(text[u]);
      assert Find(text[u], UnreleasedLine(version)).Some?;
      BreakGrows(text, UnreleasedLine(version), VersionLine(version, PrevOf(lines, version).value));
    }
  }

  /** `_bump_changelog_links`. */
  method BumpLinks(r: Reading, lines: seq<string>, version: string) returns (outcome: Outcome)
    ensures outcome.Refused? <==> !Validates(r, lines, version)
    ensures outcome.Unchanged? ==> Bumped(lines, version) == lines
    ensures outcome.Written? ==> outcome.lines == Bumped(lines, version)
    ensures outcome.Written? && SemVer(version) ==> outcome.lines != lines
  {
    var refusal := ValidateLinks(r, lines, version);
    if refusal.Some? {
      return Refused(refusal.value);
    }
    var u := FirstLine(UNRELEASED, lines);
    var prev := PrevVersion(lines, version);
    var unreleasedLine := UnreleasedLine(version);
    var versionLine := VersionLine(version, prev.value);
    var text, changed := lines, false;
    if lines[u] != unreleasedLine {
      text, changed := lines[u := unreleasedLine], true;
    }
    assert text == Repointed(lines, version);
    var w := FirstLine(version, text);
    if w == |text| {
      text := Break(text, unreleasedLine, versionLine);
      changed := true;
    } else if text[w] != versionLine {
      text, changed := text[w := versionLine], true;
    }
    if !changed {
      return Unchanged;
    }
    if SemVer(version) {
      BumpChanges(lines, version);
    }
    outcome := Written(text);
  }

  /** A release is not the unreleased section, so their lines are not the same line. */
  lemma LinesApart(version: string, url: string)
    requires SemVer(version)
    ensures Labels(version) && version != UNRELEASED && Labels(UNRELEASED)
    ensures Defines(UNRELEASED, Definition(UNRELEASED, url)) && !Defines(version, Definition(UNRELEASED, url))
    ensures Defines(version, Definition(version, url)) && !Defines(UNRELEASED, Definition(version, url))
  {
    forall i: nat | i < |version| ensures version[i] != ']' {
      SemVerChars(version, i);
    }
    SemVerChars(version, 0);
    assert UNRELEASED[0] == 'U';
    var r := Reading(c => false, s => s);
    DefinitionReads(r, UNRELEASED, url);
    DefinitionReads(r, version, url);
    if Defines(version, Definition(UNRELEASED, url)) {
      OneLabel(version, UNRELEASED, Definition(UNRELEASED, url));
    }
    if Defines(UNRELEASED, Definition(version, url)) {
      OneLabel(version, UNRELEASED, Definition(version, url));
    }
  }

  // ---- the verifier ---------------------------------------------------------------------------

  /** The first definition of a label, compared by its fold, whatever its spelling. */
  function FirstLink(r: Reading, lines: seq<string>, key: string): Option<(string, string)> {
    if lines == [] then None
    else if Links(r, lines[0], key) then LinkOf(r, lines[0])
    else FirstLink(r, lines[1..], key)
  }

  /** What a lookup of the label finds among the definitions that count. */
  function UrlOf(r: Reading, lines: seq<string>, name: string): Option<string> {
    var first := FirstLink(r, lines, r.fold(name));
    if first.Some? && first.value.0 == name then Some(first.value.1) else None
  }

  function ReleaseUrl(version: string): string {
    REPO + "/releases/tag/v" + version
  }

  /** The unreleased section compares the release with the head. */
  predicate FromRelease(url: Option<string>, canonical: string) {
    url.Some? && CompareLink(url.value) == Some((canonical, HEAD))
  }

  /** The release compares with the section below its own, or is tagged as the first one. */
  predicate FromPrevious(url: Option<string>, prev: Option<string>, canonical: string) {
    url.Some?
    && url.value == if prev.None? then ReleaseUrl(canonical) else CompareUrl(prev.value, "v" + canonical)
  }

  /** `_check_changelog_links` has nothing to report. */
  ghost predicate Coherent(r: Reading, lines: seq<string>, canonical: string) {
    && NoDuplicates(r, lines)
    && FromRelease(UrlOf(r, lines, UNRELEASED), canonical)
    && FromPrevious(UrlOf(r, lines, canonical), PrevOf(lines, canonical), canonical)
  }

  datatype Failure =
    | Duplicate(name: string, first: nat, line: nat)
    | NoUnreleasedLink | UnreleasedNotToHead(url: string) | UnreleasedStale(from: string)
    | NoVersionLink | WrongInitialLink(url: string) | WrongVersionLink(url: string)

  /** `_changelog_links`: the definitions that count, by label. */
  method ChangelogUrls(r: Reading, lines: seq<string>) returns (links: map<string, string>)
    ensures forall name :: UrlOf(r, lines, name) == if name in links then Some(links[name]) else None
  {
    links := map[];
    var seen: set<string> := {};
    for i := 0 to |lines|
      invariant forall name :: name in links ==> r.fold(name) in seen
      invariant forall name :: r.fold(name) !in seen ==>
        FirstLink(r, lines, r.fold(name)) == FirstLink(r, lines[i..], r.fold(name))
      invariant forall name :: r.fold(name) in seen ==>
        UrlOf(r, lines, name) == if name in links then Some(links[name]) else None
    {
      assert lines[i..][1..] == lines[i + 1..];
      var link := LinkOf(r, lines[i]);
      if link.Some? && r.fold(link.value.0) !in seen {
        seen := seen + {r.fold(link.value.0)};
        links := links[link.value.0 := link.value.1];
      }
    }
  }

  /** Line `d.line` defines again the label that line `d.first` is the first to define. */
  predicate Repeats(r: Reading, lines: seq<string>, d: Failure) {
    && d.Duplicate? && d.first < d.line < |lines|
    && LinkOf(r, lines[d.first]).Some? && d.name == LinkOf(r, lines[d.first]).value.0
    && Links(r, lines[d.line], r.fold(d.name))
    && forall k :: 0 <= k < d.first ==> !Links(r, lines[k], r.fold(d.name))
  }

  ghost predicate Ascending(duplicates: seq<Failure>) {
    forall i, j :: 0 <= i < j < |duplicates| ==>
      duplicates[i].Duplicate? && duplicates[j].Duplicate? && duplicates[i].line < duplicates[j].line
  }

  /** The repeats before line `n`, in order. */
  ghost predicate RepeatsBefore(r: Reading, lines: seq<string>, n: nat, duplicates: seq<Failure>) {
    (forall d :: d in duplicates <==> Repeats(r, lines, d) && d.line < n) && Ascending(duplicates)
  }

  /** What the loop knows before line `i`. */
  ghost predicate ListedTo(r: Reading, lines: seq<string>, i: nat, firstSeen: map<string, nat>,
                           duplicates: seq<Failure>)
    requires i <= |lines|
  {
    && (duplicates == [] <==> NoDuplicates(r, lines[..i]))
    && Seen(r, lines, i, firstSeen) && SeenFirst(r, lines, firstSeen) && RepeatsBefore(r, lines, i, duplicates)
  }

  /** The label of the line is known: one more entry. */
  lemma KnownLabel(r: Reading, lines: seq<string>, i: nat, firstSeen: map<string, nat>, duplicates: seq<Failure>)
    requires i < |lines| && ListedTo(r, lines, i, firstSeen, duplicates)
    requires LinkOf(r, lines[i]).Some? && r.fold(LinkOf(r, lines[i]).value.0) in firstSeen
    ensures var first := firstSeen[r.fold(LinkOf(r, lines[i]).value.0)];
            ListedTo(r, lines, i + 1, firstSeen, duplicates + [Duplicate(LinkOf(r, lines[first]).value.0, first, i)])
  {
    SeenNext(r, lines, i, firstSeen);
    OneRepeat(r, lines, i, firstSeen, duplicates);
  }

  lemma NewLabel(r: Reading, lines: seq<string>, i: nat, firstSeen: map<string, nat>, duplicates: seq<Failure>)
    requires i < |lines| && ListedTo(r, lines, i, firstSeen, duplicates)
    requires LinkOf(r, lines[i]).Some? ==> r.fold(LinkOf(r, lines[i]).value.0) !in firstSeen
    ensures var link := LinkOf(r, lines[i]);
            var seen := if link.Some? then firstSeen[r.fold(link.value.0) := i] else firstSeen;
            ListedTo(r, lines, i + 1, seen, duplicates)
  {
    SeenNext(r, lines, i, firstSeen);
    NoRepeat(r, lines, i, firstSeen, duplicates);
  }

  /** One line of the scan. */
  method ListLine(r: Reading, lines: seq<string>, i: nat, firstSeen: map<string, nat>, duplicates: seq<Failure>)
    returns (seen: map<string, nat>, more: seq<Failure>)
    requires i < |lines| && ListedTo(r, lines, i, firstSeen, duplicates)
    ensures ListedTo(r, lines, i + 1, seen, more)
  {
    var link := LinkOf(r, lines[i]);
    if link.Some? && r.fold(link.value.0) in firstSeen {
      var first := firstSeen[r.fold(link.value.0)];
      KnownLabel(r, lines, i, firstSeen, duplicates);
      return firstSeen, duplicates + [Duplicate(LinkOf(r, lines[first]).value.0, first, i)];
    }
    NewLabel(r, lines, i, firstSeen, duplicates);
    return if link.Some? then firstSeen[r.fold(link.value.0) := i] else firstSeen, duplicates;
  }

  /** `_changelog_duplicate_labels`: one entry for each extra occurrence, in order, each with
      the label and the line of the first one. */
  method DuplicateLabels(r: Reading, lines: seq<string>) returns (duplicates: seq<Failure>)
    ensures forall d :: d in duplicates <==> Repeats(r, lines, d)
    ensures Ascending(duplicates)
    ensures duplicates == [] <==> NoDuplicates(r, lines)
  {
    var firstSeen: map<string, nat> := map[];
    duplicates := [];
    NoneListed(r, lines);
    for i := 0 to |lines|
      invariant ListedTo(r, lines, i, firstSeen, duplicates)
    {
      firstSeen, duplicates := ListLine(r, lines, i, firstSeen, duplicates);
    }
    AllListed(r, lines, firstSeen, duplicates);
  }

  lemma NoneListed(r: Reading, lines: seq<string>)
    ensures ListedTo(r, lines, 0, map[], [])
  {
  }

  lemma AllListed(r: Reading, lines: seq<string>, firstSeen: map<string, nat>, duplicates: seq<Failure>)
    requires ListedTo(r, lines, |lines|, firstSeen, duplicates)
    ensures forall d :: d in duplicates <==> Repeats(r, lines, d)
    ensures Ascending(duplicates) && (duplicates == [] <==> NoDuplicates(r, lines))
  {
    assert lines[..|lines|] == lines;
  }

  /** The lines remembered are the first of their labels. */
  ghost predicate SeenFirst(r: Reading, lines: seq<string>, firstSeen: map<string, nat>) {
    forall key :: key in firstSeen ==>
      firstSeen[key] < |lines| && forall k :: 0 <= k < firstSeen[key] ==> !Links(r, lines[k], key)
  }

  /** A line whose label is known repeats exactly one line. */
  lemma OneRepeat(r: Reading, lines: seq<string>, i: nat, firstSeen: map<string, nat>, duplicates: seq<Failure>)
    requires i < |lines| && Seen(r, lines, i, firstSeen) && SeenFirst(r, lines, firstSeen)
    requires LinkOf(r, lines[i]).Some? && r.fold(LinkOf(r, lines[i]).value.0) in firstSeen
    requires RepeatsBefore(r, lines, i, duplicates)
    ensures var first := firstSeen[r.fold(LinkOf(r, lines[i]).value.0)];
            RepeatsBefore(r, lines, i + 1, duplicates + [Duplicate(LinkOf(r, lines[first]).value.0, first, i)])
  {
    var first := firstSeen[r.fold(LinkOf(r, lines[i]).value.0)];
    var last := Duplicate(LinkOf(r, lines[first]).value.0, first, i);
    forall d: Failure | Repeats(r, lines, d) && d.line == i ensures d == last {
      assert Links(r, lines[d.first], r.fold(d.name));
    }
    assert Repeats(r, lines, last);
    forall k | 0 <= k < |duplicates| ensures Repeats(r, lines, duplicates[k]) && duplicates[k].line < i {
      assert duplicates[k] in duplicates;
    }
    var more := duplicates + [last];
    assert forall d :: d in more <==> d in duplicates || d == last;
    assert Ascending(more);
  }

  lemma NoRepeat(r: Reading, lines: seq<string>, i: nat, firstSeen: map<string, nat>, duplicates: seq<Failure>)
    requires i < |lines| && Seen(r, lines, i, firstSeen)
    requires LinkOf(r, lines[i]).Some? ==> r.fold(LinkOf(r, lines[i]).value.0) !in firstSeen
    requires RepeatsBefore(r, lines, i, duplicates)
    ensures RepeatsBefore(r, lines, i + 1, duplicates)
    ensures LinkOf(r, lines[i]).Some? ==> SeenFirst(r, lines, map[r.fold(LinkOf(r, lines[i]).value.0) := i])
  {
    forall d: Failure ensures Repeats(r, lines, d) ==> d.line != i {
      if d.Duplicate? && d.first < i && LinkOf(r, lines[d.first]).Some? {
        assert r.fold(LinkOf(r, lines[d.first]).value.0) in firstSeen;
      }
    }
  }

  method UnreleasedFailures(url: Option<string>, canonical: string) returns (failures: seq<Failure>)
    ensures failures == [] <==> FromRelease(url, canonical)
    ensures failures == [] || (|failures| == 1 && !failures[0].Duplicate?)
  {
    if url.None? {
      return [NoUnreleasedLink];
    }
    var compare := CompareLink(url.value);
    if compare.None? || compare.value.1 != HEAD {
      return [UnreleasedNotToHead(url.value)];
    } else if compare.value.0 != canonical {
      return [UnreleasedStale(compare.value.0)];
    }
    failures := [];
  }

  method VersionFailures(url: Option<string>, prev: Option<string>, canonical: string) returns (failures: seq<Failure>)
    ensures failures == [] <==> FromPrevious(url, prev, canonical)
    ensures failures == [] || (|failures| == 1 && !failures[0].Duplicate?)
  {
    failures := [];
    if url.None? {
      return [NoVersionLink];
    } else if prev.None? {
      if url.value != ReleaseUrl(canonical) {
        return [WrongInitialLink(url.value)];
      }
    } else if url.value != CompareUrl(prev.value, "v" + canonical) {
      return [WrongVersionLink(url.value)];
    }
  }

  lemma Joined(duplicates: seq<Failure>, a: seq<Failure>, b: seq<Failure>)
    requires a == [] || (|a| == 1 && !a[0].Duplicate?)
    requires b == [] || (|b| == 1 && !b[0].Duplicate?)
    ensures duplicates + a + b == [] <==> duplicates == [] && a == [] && b == []
    ensures forall d: Failure :: d.Duplicate? ==> (d in duplicates + a + b <==> d in duplicates)
  {
  }

  /** `_check_changelog_links`. */
  method CheckLinks(r: Reading, lines: seq<string>, canonical: string) returns (failures: seq<Failure>)
    ensures failures == [] <==> Coherent(r, lines, canonical)
    ensures forall d: Failure :: d.Duplicate? ==> (d in failures <==> Repeats(r, lines, d))
  {
    var duplicates := DuplicateLabels(r, lines);
    var links := ChangelogUrls(r, lines);
    var unreleased := UnreleasedFailures(if UNRELEASED in links then Some(links[UNRELEASED]) else None, canonical);
    var prev := PrevVersion(lines, canonical);
    var release := VersionFailures(if canonical in links then Some(links[canonical]) else None, prev, canonical);
    failures := duplicates + unreleased + release;
    Joined(duplicates, unreleased, release);
  }

  // ---- the two agree -----------------------------------------------------------------------------

  /** White space is not used in links, and no other label reads as the version. */
  ghost predicate Usual(r: Reading, version: string) {
    && (forall c :: c in COMPARE || c in DOTS || c in HEAD || Digit(c) ==> !r.space(c))
    && (forall l :: r.fold(l) == r.fold(version) ==> l == version)
  }

  /** A line that starts `[label]:` in any case. */
  predicate Starts(r: Reading, line: string, name: string) {
    LabelOf(line).Some? && r.fold(LabelOf(line).value) == r.fold(name)
  }

  /** At most one line does. */
  ghost predicate StartsOnce(r: Reading, lines: seq<string>, name: string) {
    forall i, j :: 0 <= i < j < |lines| ==> !(Starts(r, lines[i], name) && Starts(r, lines[j], name))
  }

  /** The text of the new unreleased link is nowhere but on the unreleased line. */
  ghost predicate NotElsewhere(lines: seq<string>, version: string) {
    forall i :: 0 <= i < |lines| && i != FirstDefining(UNRELEASED, lines) ==>
      Find(lines[i], UnreleasedLine(version)).None?
  }

  ghost predicate Bumpable(r: Reading, lines: seq<string>, version: string) {
    && SemVer(version) && Usual(r, version) && Validates(r, lines, version)
    && StartsOnce(r, lines, UNRELEASED) && StartsOnce(r, lines, version) && NotElsewhere(lines, version)
  }

  lemma DefinedOnce(r: Reading, lines: seq<string>, a: nat, name: string)
    requires Labels(name) && a < |lines| && Defines(name, lines[a]) && StartsOnce(r, lines, name)
    ensures OnlyLink(r, lines, a, name)
  {
    DefinesReads(name, lines[a]);
    assert Starts(r, lines[a], name);
    forall i | 0 <= i < |lines| && i != a ensures Unrelated(r, lines[i], name) {
      assert !Starts(r, lines[i], name);
      if Defines(name, lines[i]) {
        DefinesReads(name, lines[i]);
      }
      if LinkOf(r, lines[i]).Some? {
        LinkDefines(r, lines[i]);
      }
    }
  }

  /** Without a line that defines the version nothing reads as its link. */
  lemma NeverDefined(r: Reading, lines: seq<string>, version: string)
    requires Usual(r, version) && FirstDefining(version, lines) == |lines|
    ensures OnlyLink(r, lines, |lines|, version)
  {
    forall i | 0 <= i < |lines| ensures Unrelated(r, lines[i], version) {
      if Links(r, lines[i], r.fold(version)) {
        LinkDefines(r, lines[i]);
      }
    }
  }

  lemma {:induction false} UrlOfOnly(r: Reading, lines: seq<string>, a: nat, name: string, url: string)
    requires Labels(name) && url != "" && a < |lines| && lines[a] == Definition(name, url)
      && OnlyLink(r, lines, a, name)
    ensures UrlOf(r, lines, name) == if Plain(r.space, url) then Some(url) else None
  {
    DefinitionReads(r, name, url);
    if a == 0 {
      NoneLinks(r, lines[1..], r.fold(name));
    } else {
      assert Unrelated(r, lines[0], name);
      assert forall i :: 0 <= i < |lines| - 1 ==> lines[1..][i] == lines[i + 1];
      UrlOfOnly(r, lines[1..], a - 1, name, url);
    }
  }

  lemma {:induction false} NoneLinks(r: Reading, lines: seq<string>, key: string)
    requires forall i :: 0 <= i < |lines| ==> !Links(r, lines[i], key)
    ensures FirstLink(r, lines, key).None?
  {
    if lines != [] {
      NoneLinks(r, lines[1..], key);
    }
  }

  lemma {:induction false} BreakIs(lines: seq<string>, u: nat, part: string, line: string)
    requires u < |lines| && lines[u] == part && forall i :: 0 <= i < u ==> Find(lines[i], part).None?
    ensures BreakAfter(lines, part, line) == Inserted(lines, u + 1, line)
  {
    FindSelf(part);
    if u == 0 {
      assert part[..0] + part == part && line + part[|part|..] == line;
      assert Inserted(lines, 1, line) == [part, line] + lines[1..];
    } else {
      assert forall i :: 0 <= i < u - 1 ==> lines[1..][i] == lines[i + 1];
      BreakIs(lines[1..], u - 1, part, line);
      InsertedTail(lines, u + 1, line);
      assert Inserted(lines, u + 1, line) == [lines[0]] + Inserted(lines, u + 1, line)[1..];
    }
  }

  /** Both lines stand, each its label's only definition, and the sections are as they were. */
  ghost predicate Repaired(r: Reading, lines: seq<string>, version: string, prev: string, u: nat, b: nat) {
    && u < |lines| && b < |lines|
    && lines[u] == UnreleasedLine(version) && lines[b] == VersionLine(version, prev)
    && NoDuplicates(r, lines) && OnlyLink(r, lines, u, UNRELEASED) && OnlyLink(r, lines, b, version)
    && PrevOf(lines, version) == Some(prev)
  }

  lemma {:induction false} RepointedKeeps(r: Reading, lines: seq<string>, version: string)
    requires Bumpable(r, lines, version)
    ensures var u := FirstDefining(UNRELEASED, lines);
            HalfRepaired(r, Repointed(lines, version), version, PrevOf(lines, version).value, u)
  {
    var u := FirstDefining(UNRELEASED, lines);
    LinesApart(version, CompareUrl(version, HEAD));
    DefinesReads(UNRELEASED, lines[u]);
    DefinitionReads(r, UNRELEASED, CompareUrl(version, HEAD));
    DefinedOnce(r, lines, u, UNRELEASED);
    ReplacedOnce(r, lines, u, UNRELEASED, CompareUrl(version, HEAD));
    PrevKept(lines, u, UnreleasedLine(version), version);
  }

  lemma FoldsApart(r: Reading, version: string)
    requires SemVer(version) && Usual(r, version)
    ensures r.fold(UNRELEASED) != r.fold(version)
  {
    LinesApart(version, "");
  }

  lemma {:induction false} VersionDefinedOnce(r: Reading, lines: seq<string>, version: string)
    requires Bumpable(r, lines, version)
    requires FirstDefining(version, Repointed(lines, version)) < |lines|
    ensures var u, w := FirstDefining(UNRELEASED, lines), FirstDefining(version, Repointed(lines, version));
            w != u && OnlyLink(r, Repointed(lines, version), w, version)
  {
    var u, w := FirstDefining(UNRELEASED, lines), FirstDefining(version, Repointed(lines, version));
    LinesApart(version, CompareUrl(version, HEAD));
    FoldsApart(r, version);
    assert w != u && lines[w] == Repointed(lines, version)[w];
    DefinedOnce(r, lines, w, version);
    OthersUnrelated(r, UNRELEASED, CompareUrl(version, HEAD), version);
  }

  /** The unreleased line stands and the sections are as they were. */
  ghost predicate HalfRepaired(r: Reading, text: seq<string>, version: string, prev: string, u: nat) {
    && u < |text| && text[u] == UnreleasedLine(version)
    && NoDuplicates(r, text) && OnlyLink(r, text, u, UNRELEASED) && PrevOf(text, version) == Some(prev)
  }

  /** When some line already defines the version, it is rewritten in place. */
  lemma {:induction false} RewriteRepairs(r: Reading, text: seq<string>, version: string, prev: string, u: nat, w: nat)
    requires SemVer(version) && r.fold(UNRELEASED) != r.fold(version) && HalfRepaired(r, text, version, prev, u)
    requires w < |text| && w != u && Defines(version, text[w]) && OnlyLink(r, text, w, version)
    ensures Repaired(r, text[w := VersionLine(version, prev)], version, prev, u, w)
  {
    var url := CompareUrl(prev, "v" + version);
    LinesApart(version, url);
    OthersUnrelated(r, version, url, UNRELEASED);
    ReplacedOnce(r, text, w, version, url);
    DefinesReads(version, text[w]);
    DefinitionReads(r, version, url);
    PrevKept(text, w, VersionLine(version, prev), version);
  }

  /** Otherwise its line is put below the unreleased one. */
  lemma {:induction false} InsertRepairs(r: Reading, text: seq<string>, version: string, prev: string, u: nat)
    requires SemVer(version) && r.fold(UNRELEASED) != r.fold(version) && HalfRepaired(r, text, version, prev, u)
    requires OnlyLink(r, text, |text|, version)
    ensures Repaired(r, Inserted(text, u + 1, VersionLine(version, prev)), version, prev, u, u + 1)
  {
    var url := CompareUrl(prev, "v" + version);
    LinesApart(version, url);
    OthersUnrelated(r, version, url, UNRELEASED);
    InsertedOnce(r, text, u + 1, version, url);
    OnlyInserted(r, text, u, UNRELEASED, u + 1, VersionLine(version, prev));
    DefinitionReads(r, version, url);
    PrevInserted(text, u + 1, VersionLine(version, prev), version);
  }

  /** The break falls below the unreleased line. */
  lemma BreakBelow(lines: seq<string>, version: string, line: string)
    requires FirstDefining(UNRELEASED, lines) < |lines| && NotElsewhere(lines, version)
    ensures var u, text := FirstDefining(UNRELEASED, lines), Repointed(lines, version);
            BreakAfter(text, UnreleasedLine(version), line) == Inserted(text, u + 1, line)
  {
    var u := FirstDefining(UNRELEASED, lines);
    var text := Repointed(lines, version);
    forall i | 0 <= i < u ensures Find(text[i], UnreleasedLine(version)).None? {
      assert text[i] == lines[i];
    }
    BreakIs(text, u, UnreleasedLine(version), line);
  }

  /** Without a line of the version the bump inserts one below the unreleased line. */
  lemma BumpedByBreak(lines: seq<string>, version: string)
    requires FirstDefining(UNRELEASED, lines) < |lines| && PrevOf(lines, version).Some?
    requires NotElsewhere(lines, version) && FirstDefining(version, Repointed(lines, version)) == |lines|
    ensures var line := VersionLine(version, PrevOf(lines, version).value);
            Bumped(lines, version) == Inserted(Repointed(lines, version), FirstDefining(UNRELEASED, lines) + 1, line)
  {
    BreakBelow(lines, version, VersionLine(version, PrevOf(lines, version).value));
  }

  lemma {:induction false} BreakRepairs(r: Reading, lines: seq<string>, version: string, text: seq<string>, u: nat)
    requires Bumpable(r, lines, version) && r.fold(UNRELEASED) != r.fold(version)
    requires text == Repointed(lines, version) && FirstDefining(version, text) == |lines|
    requires u == FirstDefining(UNRELEASED, lines)
    ensures var prev := PrevOf(lines, version).value;
            u < |text| && Repaired(r, Inserted(text, u + 1, VersionLine(version, prev)), version, prev, u, u + 1)
  {
    RepointedKeeps(r, lines, version);
    NeverDefined(r, text, version);
    InsertRepairs(r, text, version, PrevOf(lines, version).value, u);
  }

  lemma {:induction false} BumpRepairs(r: Reading, lines: seq<string>, version: string) returns (u: nat, b: nat)
    requires Bumpable(r, lines, version)
    ensures Repaired(r, Bumped(lines, version), version, PrevOf(lines, version).value, u, b)
  {
    var text := Repointed(lines, version);
    var prev := PrevOf(lines, version).value;
    u := FirstDefining(UNRELEASED, lines);
    b := FirstDefining(version, text);
    RepointedKeeps(r, lines, version);
    FoldsApart(r, version);
    if b < |lines| {
      VersionDefinedOnce(r, lines, version);
      RewriteRepairs(r, text, version, prev, u, b);
    } else {
      BreakRepairs(r, lines, version, text, u);
      BumpedByBreak(lines, version);
      b := u + 1;
    }
  }

  lemma PlainUrls(r: Reading, version: string, prev: string)
    requires SemVer(version) && Usual(r, version)
    ensures Plain(r.space, CompareUrl(version, HEAD))
    ensures Plain(r.space, CompareUrl(prev, "v" + version)) <==> Plain(r.space, prev)
  {
    assert Plain(r.space, version) by {
      forall c | c in version ensures !r.space(c) {
        var i :| 0 <= i < |version| && version[i] == c;
        SemVerChars(version, i);
        assert DOTS[0] == '.';
      }
    }
    assert !r.space('v') by {
      assert COMPARE[|COMPARE| - 1] == 'v';
    }
    PlainParts(r.space, COMPARE, version + (DOTS + HEAD));
    PlainParts(r.space, version, DOTS + HEAD);
    PlainParts(r.space, DOTS, HEAD);
    PlainParts(r.space, COMPARE, prev + (DOTS + ("v" + version)));
    PlainParts(r.space, prev, DOTS + ("v" + version));
    PlainParts(r.space, DOTS, "v" + version);
    PlainParts(r.space, "v", version);
  }

  lemma PlainParts(space: char -> bool, a: string, b: string)
    ensures Plain(space, a + b) <==> Plain(space, a) && Plain(space, b)
  {
    assert forall c :: c in a + b <==> c in a || c in b;
  }

  /** Writer and verifier agree: after a bump the verifier reports nothing, exactly when the label of
      the previous section can be part of a link. */
  lemma {:induction false} BumpIsCoherent(r: Reading, lines: seq<string>, version: string)
    requires Bumpable(r, lines, version)
    ensures Coherent(r, Bumped(lines, version), version) <==> Plain(r.space, PrevOf(lines, version).value)
  {
    var text := Bumped(lines, version);
    var prev := PrevOf(lines, version).value;
    var u, b := BumpRepairs(r, lines, version);
    LinesApart(version, "");
    UrlOfOnly(r, text, u, UNRELEASED, CompareUrl(version, HEAD));
    UrlOfOnly(r, text, b, version, CompareUrl(prev, "v" + version));
    PlainUrls(r, version, prev);
    CompareLinkOf(version);
  }

  // ---- the bumped text, spelled out ----------------------------------------------------------

  const COMPARED := "https://github.com/geolens-io/geolens/compare/v"

  function UnreleasedText(version: string): string {
    UNRELEASED_START + (COMPARED + (version + ("..." + "HEAD")))
  }

  function VersionText(version: string, prev: string): string {
    "[" + version + "]: " + (COMPARED + (prev + ("..." + ("v" + version))))
  }

  lemma TextsAre(version: string, prev: string)
    ensures UnreleasedLine(version) == UnreleasedText(version)
      && VersionLine(version, prev) == VersionText(version, prev)
  {
    assert COMPARE == COMPARED;
    UnreleasedStart();
  }

  /** A definition of the version is rewritten. */
  ghost predicate Rewritten(lines: seq<string>, text: seq<string>, version: string, prev: string, u: nat, w: nat) {
    && u < |lines| && w < |lines| && w != u && "[" + version + "]: " <= lines[w]
    && text == lines[u := UnreleasedText(version)][w := VersionText(version, prev)]
  }

  /** Without one it is put below the unreleased line. */
  ghost predicate PutBelow(lines: seq<string>, text: seq<string>, version: string, prev: string, u: nat) {
    && u < |lines| && (forall i :: 0 <= i < |lines| ==> !("[" + version + "]: " <= lines[i]))
    && text == lines[..u] + [UnreleasedText(version), VersionText(version, prev)] + lines[u + 1..]
  }

  lemma TextRewritten(lines: seq<string>, version: string)
    requires SemVer(version) && FirstDefining(UNRELEASED, lines) < |lines| && PrevOf(lines, version).Some?
    requires FirstDefining(version, Repointed(lines, version)) < |lines|
    ensures var u, w := FirstDefining(UNRELEASED, lines), FirstDefining(version, Repointed(lines, version));
            Rewritten(lines, Bumped(lines, version), version, PrevOf(lines, version).value, u, w)
  {
    TextsAre(version, PrevOf(lines, version).value);
    LinesApart(version, CompareUrl(version, HEAD));
  }

  lemma TextPutBelow(lines: seq<string>, version: string)
    requires SemVer(version) && FirstDefining(UNRELEASED, lines) < |lines| && PrevOf(lines, version).Some?
    requires NotElsewhere(lines, version) && FirstDefining(version, Repointed(lines, version)) == |lines|
    ensures var u, prev := FirstDefining(UNRELEASED, lines), PrevOf(lines, version).value;
            PutBelow(lines, Bumped(lines, version), version, prev, u)
  {
    var u, prev, text := FirstDefining(UNRELEASED, lines), PrevOf(lines, version).value, Repointed(lines, version);
    TextsAre(version, prev);
    BumpedByBreak(lines, version);
    LinesApart(version, "");
    forall k | 0 <= k < |lines| ensures !Defines(version, lines[k]) {
      if k == u {
        if Defines(version, lines[u]) {
          OneLabel(version, UNRELEASED, lines[u]);
        }
      } else {
        assert text[k] == lines[k];
      }
    }
    BelowTheLine(lines, u, UnreleasedText(version), VersionText(version, prev));
  }

  /** The text of a bump: the unreleased line compares the release with the head, the release's
      line compares it with the section below its own, and every other line is as it was. */
  ghost predicate BumpedText(lines: seq<string>, text: seq<string>, version: string, u: nat, prev: string) {
    && u < |lines| && UNRELEASED_START <= lines[u] && (forall i :: 0 <= i < u ==> !(UNRELEASED_START <= lines[i]))
    && (exists i, j :: SectionBelow(lines, version, i, j, prev))
    && ((exists w :: Rewritten(lines, text, version, prev, u, w)) || PutBelow(lines, text, version, prev, u))
  }

  const UNRELEASED_START := "[Unreleased]: "

  lemma UnreleasedStart()
    ensures "[" + UNRELEASED + "]: " == UNRELEASED_START
  {
  }

  lemma DefinesUnreleased(line: string, start: string)
    requires start == UNRELEASED_START
    ensures Defines(UNRELEASED, line) <==> start <= line
  {
    UnreleasedStart();
  }

  lemma FirstUnreleased(lines: seq<string>, u: nat)
    requires u == FirstDefining(UNRELEASED, lines)
    ensures u < |lines| ==> UNRELEASED_START <= lines[u]
    ensures forall i :: 0 <= i < u ==> !(UNRELEASED_START <= lines[i])
  {
    forall i | 0 <= i < |lines| ensures Defines(UNRELEASED, lines[i]) <==> UNRELEASED_START <= lines[i] {
      DefinesUnreleased(lines[i], UNRELEASED_START);
    }
  }

  lemma {:induction false} BumpText(r: Reading, lines: seq<string>, version: string) returns (u: nat, prev: string)
    requires Bumpable(r, lines, version)
    ensures BumpedText(lines, Bumped(lines, version), version, u, prev)
  {
    u, prev := FirstDefining(UNRELEASED, lines), PrevOf(lines, version).value;
    var i, j := PrevIs(lines, version);
    FirstUnreleased(lines, u);
    if FirstDefining(version, Repointed(lines, version)) < |lines| {
      TextRewritten(lines, version);
    } else {
      TextPutBelow(lines, version);
    }
  }

  lemma BelowTheLine(lines: seq<string>, u: nat, first: string, second: string)
    requires u < |lines|
    ensures Inserted(lines[u := first], u + 1, second) == lines[..u] + [first, second] + lines[u + 1..]
  {
  }

  // ---- a label with white space: writer and verifier disagree --------------------------------

  function SectionLine(name: string): string {
    "## " + ("[" + name + "]" + "")
  }

  /** A release above a section whose label has a space. */
  function SpacedLabelBelow(version: string): seq<string> {
    [SectionLine(version), SectionLine("1.0.0 x"), Definition(UNRELEASED, "u")]
  }

  lemma SectionReads(r: Reading, name: string)
    requires Labels(name)
    ensures Heading(SectionLine(name)) == Some(name)
    ensures LabelOf(SectionLine(name)).None? && LinkOf(r, SectionLine(name)).None?
    ensures forall other :: !Defines(other, SectionLine(name))
  {
    BracketedOf(name, "");
    Cut("## ", "[" + name + "]" + "");
    var line := SectionLine(name);
    assert line[0] == '#';
    forall other ensures !Defines(other, line) {
      assert ("[" + other + "]: ")[0] == '[';
    }
  }

  lemma {:induction false} TooLong(text: string, part: string)
    requires |text| < |part|
    ensures Find(text, part).None?
  {
    if text != "" {
      TooLong(text[1..], part);
    }
  }

  lemma SpacedSections(version: string)
    requires SemVer(version)
    ensures PrevOf(SpacedLabelBelow(version), version) == Some("1.0.0 x")
  {
    var r := Reading(c => false, s => s);
    var lines := SpacedLabelBelow(version);
    var spaced := "1.0.0 x";
    LinesApart(version, "u");
    assert ']' !in spaced && spaced[0] != UNRELEASED[0];
    SectionReads(r, version);
    SectionReads(r, spaced);
    assert lines[1..][0] == SectionLine(spaced);
  }

  lemma SpacedLinks(r: Reading, version: string)
    requires SemVer(version)
    ensures Validates(r, SpacedLabelBelow(version), version)
    ensures StartsOnce(r, SpacedLabelBelow(version), UNRELEASED) && StartsOnce(r, SpacedLabelBelow(version), version)
    ensures FirstDefining(UNRELEASED, SpacedLabelBelow(version)) == 2
  {
    var lines := SpacedLabelBelow(version);
    var spaced := "1.0.0 x";
    LinesApart(version, "u");
    assert ']' !in spaced;
    SectionReads(r, version);
    SectionReads(r, spaced);
    SpacedSections(version);
    forall i: nat | i < |lines| && Defines(UNRELEASED, lines[i]) ensures i == 2 {
      assert i != 0 && i != 1;
    }
    assert Defines(UNRELEASED, lines[2]);
  }

  lemma SpacedElsewhere(version: string)
    requires FirstDefining(UNRELEASED, SpacedLabelBelow(version)) == 2
    ensures NotElsewhere(SpacedLabelBelow(version), version)
  {
    var lines := SpacedLabelBelow(version);
    forall i | 0 <= i < 2 ensures Find(lines[i], UnreleasedLine(version)).None? {
      TooLong(lines[i], UnreleasedLine(version));
    }
  }

  /** The writer accepts this text for every release, and the verifier reports what it wrote:
      the link of the release names the label below it, and cannot hold its space. */
  lemma SpacedLabelDisagrees(r: Reading, version: string)
    requires SemVer(version) && Usual(r, version) && r.space(' ')
    ensures Bumpable(r, SpacedLabelBelow(version), version)
    ensures !Coherent(r, Bumped(SpacedLabelBelow(version), version), version)
  {
    SpacedLinks(r, version);
    SpacedElsewhere(version);
    SpacedSections(version);
    BumpIsCoherent(r, SpacedLabelBelow(version), version);
    assert "1.0.0 x"[5] == ' ';
  }

  /** Only a blank is white space, and labels compare as they are. */
  const BLANKS := Reading(c => c == ' ', name => name)

  lemma BlanksAreUsual(version: string)
    requires SemVer(version)
    ensures Usual(BLANKS, version)
  {
    NoBlank(COMPARE);
    assert ' ' !in DOTS && ' ' !in HEAD;
  }

  lemma NoBlank(s: string)
    requires s == COMPARE
    ensures ' ' !in s
  {
  }

  lemma OneDigit(s: string)
    requires |s| == 1 && Digit(s[0])
    ensures Digits(s) == 1
  {
    assert s[1..] == "";
  }

  lemma ExampleVersion()
    ensures SemVer("1.1.0")
  {
    var v := "1.1.0";
    OneDigit("1");
    OneDigit("0");
    DigitsBefore("1", ".1.0");
    DigitsBefore("1", ".0");
    assert v == "1" + ".1.0" && v[1..] == ".1.0" && ".1.0"[1..] == "1" + ".0";
    assert v[3..] == ".0" && ".0"[1..] == "0";
    assert DotDigits(".0") == 2 && DotDigits(".1.0") == 2;
  }

  /** One such text: 1.1.0 above a section labelled `1.0.0 x`. */
  lemma {:induction false} SpacedExample()
    ensures Bumpable(BLANKS, SpacedLabelBelow("1.1.0"), "1.1.0")
    ensures !Coherent(BLANKS, Bumped(SpacedLabelBelow("1.1.0"), "1.1.0"), "1.1.0")
  {
    ExampleVersion();
    BlanksAreUsual("1.1.0");
    SpacedLabelDisagrees(BLANKS, "1.1.0");
  }

  lemma FirstIs(r: Reading, lines: seq<string>, a: nat, name: string)
    requires a < |lines| && Defines(name, lines[a]) && OnlyLink(r, lines, a, name)
    ensures FirstDefining(name, lines) == a
  {
    forall i | 0 <= i < a ensures !Defines(name, lines[i]) {
      assert Unrelated(r, lines[i], name);
    }
  }

  /** Nothing to do: both lines already read as the bump would write them. */
  lemma {:induction false} AlreadyBumped(lines: seq<string>, version: string, u: nat, b: nat)
    requires u == FirstDefining(UNRELEASED, lines) < |lines| && lines[u] == UnreleasedLine(version)
    requires b == FirstDefining(version, lines) < |lines| && PrevOf(lines, version).Some?
    requires lines[b] == VersionLine(version, PrevOf(lines, version).value)
    ensures Bumped(lines, version) == lines
  {
    assert Repointed(lines, version) == lines;
  }

  /** A bump leaves a text that validates and that another bump does not change. */
  lemma BumpTwice(r: Reading, lines: seq<string>, version: string)
    requires Bumpable(r, lines, version)
    ensures Validates(r, Bumped(lines, version), version)
    ensures Bumped(Bumped(lines, version), version) == Bumped(lines, version)
  {
    var text := Bumped(lines, version);
    var prev := PrevOf(lines, version).value;
    var u, b := BumpRepairs(r, lines, version);
    LinesApart(version, CompareUrl(version, HEAD));
    LinesApart(version, CompareUrl(prev, "v" + version));
    FirstIs(r, text, u, UNRELEASED);
    FirstIs(r, text, b, version);
    AlreadyBumped(text, version, u, b);
  }

  /** What a caller sees: bump, check, bump again. */
  method BumpThenCheck(r: Reading, lines: seq<string>, version: string)
    returns (first: Outcome, failures: seq<Failure>, second: Outcome)
    requires Bumpable(r, lines, version)
    ensures !first.Refused? && second == Unchanged
    ensures failures == [] <==> Plain(r.space, PrevOf(lines, version).value)
  {
    first := BumpLinks(r, lines, version);
    var text := if first.Written? then first.lines else lines;
    BumpIsCoherent(r, lines, version);
    BumpTwice(r, lines, version);
    failures := CheckLinks(r, text, version);
    second := BumpLinks(r, text, version);
  }
}
