/** The gate over launch-sensitive wording: every hit is listed once, and every listing is hit. */
module SurfaceGate {

  // ---- which files are looked at -------------------------------------------------------

  /** Segment-wise matching; `**` stands for any run of segments. */
  predicate MatchFrom(glob: (string, string) -> bool, pattern: seq<string>, path: seq<string>)
    decreases |pattern|
  {
    if pattern == [] then path == []
    else if pattern[0] == "**" then exists k :: 0 <= k <= |path| && MatchFrom(glob, pattern[1..], path[k..])
    else path != [] && glob(path[0], pattern[0]) && MatchFrom(glob, pattern[1..], path[1..])
  }

  predicate PathMatches(glob: (string, string) -> bool, path: seq<string>, pattern: seq<string>) {
    if pattern == [] then |path| == 1 && glob(path[0], "") else MatchFrom(glob, pattern, path)
  }

  function Concat(runs: seq<seq<string>>): seq<string> {
    if runs == [] then [] else runs[0] + Concat(runs[1..])
  }

  /** One run of path segments per pattern segment: any run for `**`, one matching segment otherwise. */
  ghost predicate Cuts(glob: (string, string) -> bool, pattern: seq<string>, runs: seq<seq<string>>) {
    && |runs| == |pattern|
    && forall i :: 0 <= i < |runs| ==> pattern[i] == "**" || (|runs[i]| == 1 && glob(runs[i][0], pattern[i]))
  }

  lemma {:induction false} MatchCuts(glob: (string, string) -> bool, pattern: seq<string>, path: seq<string>)
    returns (runs: seq<seq<string>>)
    requires MatchFrom(glob, pattern, path)
    ensures Cuts(glob, pattern, runs) && Concat(runs) == path
    decreases |pattern|
  {
    if pattern == [] {
      runs := [];
    } else if pattern[0] == "**" {
      var k :| 0 <= k <= |path| && MatchFrom(glob, pattern[1..], path[k..]);
      var rest := MatchCuts(glob, pattern[1..], path[k..]);
      runs := [path[..k]] + rest;
    } else {
      var rest := MatchCuts(glob, pattern[1..], path[1..]);
      runs := [path[..1]] + rest;
    }
  }

  lemma {:induction false} CutsMatch(glob: (string, string) -> bool, pattern: seq<string>, runs: seq<seq<string>>)
    requires Cuts(glob, pattern, runs)
    ensures MatchFrom(glob, pattern, Concat(runs))
    decreases |pattern|
  {
    if pattern != [] {
      var path := Concat(runs);
      assert runs[1..] == runs[1..] && forall i :: 0 <= i < |runs| - 1 ==> runs[1..][i] == runs[i + 1];
      CutsMatch(glob, pattern[1..], runs[1..]);
      assert path[|runs[0]|..] == Concat(runs[1..]);
    }
  }

  /** A pattern without a segment is one empty segment. */
  function Segments(pattern: seq<string>): seq<string> {
    if pattern == [] then [""] else pattern
  }

  lemma EmptyPattern(glob: (string, string) -> bool, path: seq<string>)
    ensures MatchFrom(glob, [""], path) <==> |path| == 1 && glob(path[0], "")
  {
    assert [""][1..] == [] && [""][0] != "**";
    if path != [] {
      assert MatchFrom(glob, [], path[1..]) <==> |path| == 1;
    }
  }

  /** A path matches exactly when it can be cut up along the pattern. */
  lemma PathMatchesIff(glob: (string, string) -> bool, path: seq<string>, pattern: seq<string>)
    ensures PathMatches(glob, path, pattern)
            <==> exists runs :: Cuts(glob, Segments(pattern), runs) && Concat(runs) == path
  {
    EmptyPattern(glob, path);
    if PathMatches(glob, path, pattern) {
      var runs := MatchCuts(glob, Segments(pattern), path);
    }
    if runs :| Cuts(glob, Segments(pattern), runs) && Concat(runs) == path {
      CutsMatch(glob, Segments(pattern), runs);
    }
  }

  // ---- the allowlist -----------------------------------------------------------------------

  datatype Key = Key(path: string, pattern: string, text: string)
  datatype Entry = Entry(id: string, key: Key)
  datatype Error =
    | MissingField(id: string, field: string) | DuplicateId(id: string) | WildcardPath(id: string)
    | UnknownPattern(id: string) | UntrackedPath(id: string) | Stale(entry: Entry)

  /** An entry as read: its fields by name. `at` names an entry without an id by its position. */
  type RawEntry = map<string, string>

  const ID := "id"
  const PATH := "path"
  const PATTERN := "pattern_id"
  const MATCH := "match"
  const REASON := "reason"
  /** In the order the errors are reported. */
  const FIELDS := [ID, MATCH, PATH, PATTERN, REASON]

  datatype Rules = Rules(blank: string -> bool, at: nat -> string, patterns: set<string>, tracked: set<string>)

  predicate Missing(rules: Rules, raw: RawEntry, field: string) {
    field !in raw || rules.blank(raw[field])
  }

  predicate Complete(rules: Rules, raw: RawEntry) {
    forall f :: f in FIELDS ==> !Missing(rules, raw, f)
  }

  function IdOf(rules: Rules, raw: RawEntry, index: nat): string {
    if ID in raw then raw[ID] else rules.at(index)
  }

  function KeyOf(rules: Rules, raw: RawEntry): Key
    requires Complete(rules, raw)
  {
    assert PATH in FIELDS && PATTERN in FIELDS && MATCH in FIELDS by {
      assert FIELDS[1] == MATCH && FIELDS[2] == PATH && FIELDS[3] == PATTERN;
    }
    Key(raw[PATH], raw[PATTERN], raw[MATCH])
  }

  predicate Exact(path: string) {
    forall c :: c in path ==> c != '*' && c != '?' && c != '['
  }

  predicate Sound(rules: Rules, raw: RawEntry) {
    Complete(rules, raw) && Exact(KeyOf(rules, raw).path)
    && KeyOf(rules, raw).pattern in rules.patterns && KeyOf(rules, raw).path in rules.tracked
  }

  ghost predicate DistinctIds(raws: seq<RawEntry>) {
    forall i, j :: 0 <= i < j < |raws| && ID in raws[i] && ID in raws[j] ==> raws[i][ID] != raws[j][ID]
  }

  ghost predicate WellFormed(rules: Rules, raws: seq<RawEntry>) {
    (forall raw :: raw in raws ==> Sound(rules, raw)) && DistinctIds(raws)
  }

  /** The entries that are kept, in order. */
  function Kept(rules: Rules, raws: seq<RawEntry>): seq<Entry> {
    if raws == [] then []
    else
      var n := |raws| - 1;
      Kept(rules, raws[..n])
      + if Sound(rules, raws[n]) then [Entry(IdOf(rules, raws[n], n), KeyOf(rules, raws[n]))] else []
  }

  /** The entry at `i` repeats an identifier. */
  predicate Repeats(rules: Rules, raws: seq<RawEntry>, i: nat)
    requires i < |raws|
  {
    !Missing(rules, raws[i], ID) && exists j :: 0 <= j < i && Uses(rules, raws[j], raws[i][ID])
  }

  predicate Uses(rules: Rules, raw: RawEntry, id: string) {
    !Missing(rules, raw, ID) && raw[ID] == id
  }

  /** What an entry can be reported for, apart from a repeated identifier. */
  predicate AtFault(rules: Rules, raw: RawEntry, id: string, e: Error) {
    match e
    case MissingField(x, f) => x == id && f in FIELDS && Missing(rules, raw, f)
    case DuplicateId(_) => false
    case WildcardPath(x) => x == id && Complete(rules, raw) && !Exact(KeyOf(rules, raw).path)
    case UnknownPattern(x) =>
      x == id && Complete(rules, raw) && Exact(KeyOf(rules, raw).path) && KeyOf(rules, raw).pattern !in rules.patterns
    case UntrackedPath(x) =>
      x == id && Complete(rules, raw) && Exact(KeyOf(rules, raw).path) && KeyOf(rules, raw).pattern in rules.patterns
      && KeyOf(rules, raw).path !in rules.tracked
    case Stale(_) => false
  }

  predicate Reported(rules: Rules, raws: seq<RawEntry>, i: nat, e: Error)
    requires i < |raws|
  {
    AtFault(rules, raws[i], IdOf(rules, raws[i], i), e)
    || (e == DuplicateId(IdOf(rules, raws[i], i)) && Repeats(rules, raws, i))
  }

  method MissingFields(rules: Rules, raw: RawEntry, id: string) returns (errors: seq<Error>)
    ensures forall e :: e in errors <==> e.MissingField? && AtFault(rules, raw, id, e)
  {
    errors := [];
    for i := 0 to |FIELDS|
      invariant forall e :: e in errors <==>
        e.MissingField? && e.id == id && e.field in FIELDS[..i] && Missing(rules, raw, e.field)
    {
      if Missing(rules, raw, FIELDS[i]) {
        errors := errors + [MissingField(id, FIELDS[i])];
      }
    }
    assert FIELDS[..|FIELDS|] == FIELDS;
  }

  method Faults(rules: Rules, raw: RawEntry, id: string) returns (errors: seq<Error>)
    ensures forall e :: e in errors <==> AtFault(rules, raw, id, e)
    ensures errors == [] <==> Sound(rules, raw)
  {
    errors := MissingFields(rules, raw, id);
    if errors == [] {
      forall f | f in FIELDS ensures !Missing(rules, raw, f) {
        assert MissingField(id, f) !in errors;
      }
      var key := KeyOf(rules, raw);
      if !Exact(key.path) {
        errors := [WildcardPath(id)];
      } else if key.pattern !in rules.patterns {
        errors := [UnknownPattern(id)];
      } else if key.path !in rules.tracked {
        errors := [UntrackedPath(id)];
      }
    } else {
      assert errors[0] in errors;
    }
  }

  predicate ReportedBefore(rules: Rules, raws: seq<RawEntry>, n: nat, e: Error)
    requires n <= |raws|
  {
    exists i :: 0 <= i < n && Reported(rules, raws, i, e)
  }

  /** One entry, given the identifiers used before it. */
  method CheckEntry(rules: Rules, raws: seq<RawEntry>, i: nat, seen: set<string>)
    returns (errors: seq<Error>, sound: bool)
    requires i < |raws|
    requires forall id :: id in seen <==> exists j :: 0 <= j < i && Uses(rules, raws[j], id)
    ensures forall e :: e in errors <==> Reported(rules, raws, i, e)
    ensures sound <==> Sound(rules, raws[i])
  {
    var id := IdOf(rules, raws[i], i);
    var faults := Faults(rules, raws[i], id);
    errors := if !Missing(rules, raws[i], ID) && id in seen then [DuplicateId(id)] + faults else faults;
    sound := faults == [];
  }

  /** `validate_allowlist`: the kept entries, and every error that applies. */
  method ValidateAllowlist(rules: Rules, raws: seq<RawEntry>) returns (valid: seq<Entry>, errors: seq<Error>)
    ensures valid == Kept(rules, raws)
    ensures forall e :: e in errors <==> ReportedBefore(rules, raws, |raws|, e)
    ensures errors == [] <==> WellFormed(rules, raws)
  {
    valid, errors := [], [];
    var seen: set<string> := {};
    for i := 0 to |raws|
      invariant valid == Kept(rules, raws[..i])
      invariant forall id :: id in seen <==> exists j :: 0 <= j < i && Uses(rules, raws[j], id)
      invariant forall e :: e in errors <==> ReportedBefore(rules, raws, i, e)
    {
      assert raws[..i + 1][..i] == raws[..i];
      var more, sound := CheckEntry(rules, raws, i, seen);
      if !Missing(rules, raws[i], ID) {
        seen := seen + {IdOf(rules, raws[i], i)};
      }
      forall e ensures ReportedBefore(rules, raws, i + 1, e) <==> ReportedBefore(rules, raws, i, e) || e in more {
      }
      errors := errors + more;
      if sound {
        valid := valid + [Entry(IdOf(rules, raws[i], i), KeyOf(rules, raws[i]))];
      }
    }
    assert raws[..|raws|] == raws;
    WellFormedIff(rules, raws);
    if errors == [] {
      forall i, e | 0 <= i < |raws| ensures !Reported(rules, raws, i, e) {
        assert !ReportedBefore(rules, raws, |raws|, e);
      }
    } else {
      assert ReportedBefore(rules, raws, |raws|, errors[0]);
    }
  }

  /** An allowlist is well formed exactly when there is nothing to report. */
  lemma WellFormedIff(rules: Rules, raws: seq<RawEntry>)
    ensures WellFormed(rules, raws) <==> forall i, e :: 0 <= i < |raws| ==> !Reported(rules, raws, i, e)
  {
    assert ID in FIELDS by {
      assert FIELDS[0] == ID;
    }
    if WellFormed(rules, raws) {
      forall i, e | 0 <= i < |raws| ensures !Reported(rules, raws, i, e) {
        assert Sound(rules, raws[i]);
      }
    } else if DistinctIds(raws) {
      var i :| 0 <= i < |raws| && !Sound(rules, raws[i]);
      UnsoundReported(rules, raws, i);
    } else {
      var i, j :| 0 <= i < j < |raws| && ID in raws[i] && ID in raws[j] && raws[i][ID] == raws[j][ID];
      if Missing(rules, raws[j], ID) {
        assert Reported(rules, raws, j, MissingField(IdOf(rules, raws[j], j), ID));
      } else {
        assert Uses(rules, raws[i], raws[j][ID]);
        assert Reported(rules, raws, j, DuplicateId(IdOf(rules, raws[j], j)));
      }
    }
  }

  lemma UnsoundReported(rules: Rules, raws: seq<RawEntry>, i: nat)
    requires i < |raws| && !Sound(rules, raws[i])
    ensures exists e :: Reported(rules, raws, i, e)
  {
    var raw, id := raws[i], IdOf(rules, raws[i], i);
    if !Complete(rules, raw) {
      var f :| f in FIELDS && Missing(rules, raw, f);
      assert Reported(rules, raws, i, MissingField(id, f));
    } else if !Exact(KeyOf(rules, raw).path) {
      assert Reported(rules, raws, i, WildcardPath(id));
    } else if KeyOf(rules, raw).pattern !in rules.patterns {
      assert Reported(rules, raws, i, UnknownPattern(id));
    } else {
      assert Reported(rules, raws, i, UntrackedPath(id));
    }
  }

  // ---- the scan ------------------------------------------------------------------------------

  /** One match of a forbidden pattern. */
  datatype Hit = Hit(key: Key, line: nat)

  datatype File = File(path: string, lines: seq<string>)

  /** The forbidden patterns in order, and what each one finds in a line, left to right. */
  datatype Forbidden = Forbidden(ids: seq<string>, find: (string, string) -> seq<string>)

  function MatchHits(path: string, line: nat, id: string, matches: seq<string>): seq<Hit> {
    if matches == [] then []
    else MatchHits(path, line, id, matches[..|matches| - 1]) + [Hit(Key(path, id, matches[|matches| - 1]), line)]
  }

  function LineHits(forbidden: Forbidden, path: string, line: nat, text: string, ids: seq<string>): seq<Hit> {
    if ids == [] then []
    else
      var last := ids[|ids| - 1];
      LineHits(forbidden, path, line, text, ids[..|ids| - 1]) + MatchHits(path, line, last, forbidden.find(last, text))
  }

  /** Lines are counted from 1. */
  function FileHits(forbidden: Forbidden, path: string, lines: seq<string>): seq<Hit> {
    if lines == [] then []
    else
      var n := |lines| - 1;
      FileHits(forbidden, path, lines[..n]) + LineHits(forbidden, path, n + 1, lines[n], forbidden.ids)
  }

  /** Every match in every file, in the order the scan meets them. */
  function Hits(forbidden: Forbidden, files: seq<File>): seq<Hit> {
    if files == [] then []
    else
      var last := files[|files| - 1];
      Hits(forbidden, files[..|files| - 1]) + FileHits(forbidden, last.path, last.lines)
  }

  predicate DistinctStrings(s: seq<string>) {
    forall i, j :: 0 <= i < j < |s| ==> s[i] != s[j]
  }

  /** How often a pattern finds this text in the line. */
  function Finds(forbidden: Forbidden, pattern: string, line: string, text: string): nat {
    multiset(forbidden.find(pattern, line))[text]
  }

  lemma {:induction false} MatchCount(path: string, line: nat, id: string, matches: seq<string>, h: Hit)
    ensures multiset(MatchHits(path, line, id, matches))[h] ==
      if h.key.path == path && h.key.pattern == id && h.line == line then multiset(matches)[h.key.text] else 0
  {
    if matches != [] {
      var n := |matches| - 1;
      MatchCount(path, line, id, matches[..n], h);
      assert matches == matches[..n] + [matches[n]];
    }
  }

  lemma {:induction false} LineCount(forbidden: Forbidden, path: string, line: nat, text: string, ids: seq<string>,
                                     h: Hit)
    requires DistinctStrings(ids)
    ensures multiset(LineHits(forbidden, path, line, text, ids))[h] ==
      if h.key.path == path && h.line == line && h.key.pattern in ids
      then Finds(forbidden, h.key.pattern, text, h.key.text) else 0
  {
    if ids != [] {
      var n := |ids| - 1;
      LineCount(forbidden, path, line, text, ids[..n], h);
      MatchCount(path, line, ids[n], forbidden.find(ids[n], text), h);
      assert ids == ids[..n] + [ids[n]];
      assert ids[n] !in ids[..n];
    }
  }

  lemma {:induction false} FileCount(forbidden: Forbidden, path: string, lines: seq<string>, h: Hit)
    requires DistinctStrings(forbidden.ids)
    ensures multiset(FileHits(forbidden, path, lines))[h] ==
      if h.key.path == path && 1 <= h.line <= |lines| && h.key.pattern in forbidden.ids
      then Finds(forbidden, h.key.pattern, lines[h.line - 1], h.key.text) else 0
  {
    if lines != [] {
      var n := |lines| - 1;
      FileCount(forbidden, path, lines[..n], h);
      LineCount(forbidden, path, n + 1, lines[n], forbidden.ids, h);
    }
  }

  ghost predicate DistinctPaths(files: seq<File>) {
    forall i, j :: 0 <= i < j < |files| ==> files[i].path != files[j].path
  }

  /** The hits are the matches: each as often as its pattern finds the text in its line, counted
      from 1, of its file. */
  lemma {:induction false} HitsAre(forbidden: Forbidden, files: seq<File>, h: Hit)
    requires DistinctStrings(forbidden.ids) && DistinctPaths(files)
    ensures (forall f :: f in files ==> f.path != h.key.path) ==> multiset(Hits(forbidden, files))[h] == 0
    ensures forall f :: f in files && f.path == h.key.path ==>
      multiset(Hits(forbidden, files))[h] ==
        if 1 <= h.line <= |f.lines| && h.key.pattern in forbidden.ids
        then Finds(forbidden, h.key.pattern, f.lines[h.line - 1], h.key.text) else 0
  {
    if files != [] {
      var n := |files| - 1;
      var last := files[n];
      HitsAre(forbidden, files[..n], h);
      FileCount(forbidden, last.path, last.lines, h);
      assert files == files[..n] + [last];
      assert forall f :: f in files[..n] ==> f.path != last.path;
    }
  }

  /** The identifier of the first entry for this key that is not used up. */
  function Listed(allowlist: seq<Entry>, observed: set<string>, key: Key): set<string> {
    if allowlist == [] then {}
    else if allowlist[0].id !in observed && allowlist[0].key == key then {allowlist[0].id}
    else Listed(allowlist[1..], observed, key)
  }

  datatype Progress = Progress(observed: set<string>, violations: seq<Hit>)

  function Step(allowlist: seq<Entry>, p: Progress, hit: Hit): Progress {
    var id := Listed(allowlist, p.observed, hit.key);
    if id == {} then p.(violations := p.violations + [hit]) else p.(observed := p.observed + id)
  }

  function Scan(allowlist: seq<Entry>, p: Progress, hits: seq<Hit>): Progress {
    if hits == [] then p else Step(allowlist, Scan(allowlist, p, hits[..|hits| - 1]), hits[|hits| - 1])
  }

  /** The identifiers used up so far; the scan of every file adds to the same one. */
  class Observed {
    var ids: set<string>

    constructor ()
      ensures ids == {}
    {
      ids := {};
    }

    /** `is_allowlisted`. */
    method IsAllowlisted(allowlist: seq<Entry>, key: Key) returns (listed: bool)
      modifies this
      ensures listed <==> Listed(allowlist, old(ids), key) != {}
      ensures ids == old(ids) + Listed(allowlist, old(ids), key)
    {
      assert allowlist[0..] == allowlist;
      for i := 0 to |allowlist|
        invariant ids == old(ids)
        invariant Listed(allowlist, ids, key) == Listed(allowlist[i..], ids, key)
      {
        if allowlist[i].id !in ids && allowlist[i].key == key {
          ids := ids + {allowlist[i].id};
          return true;
        }
      }
      assert ids == ids + {};
      return false;
    }

    method ScanMatches(allowlist: seq<Entry>, path: string, line: nat, id: string, matches: seq<string>)
      returns (violations: seq<Hit>)
      modifies this
      ensures Scan(allowlist, Progress(old(ids), []), MatchHits(path, line, id, matches)) == Progress(ids, violations)
    {
      violations := [];
      for i := 0 to |matches|
        invariant Progress(ids, violations)
               == Scan(allowlist, Progress(old(ids), []), MatchHits(path, line, id, matches[..i]))
      {
        var hit := Hit(Key(path, id, matches[i]), line);
        var seen := MatchHits(path, line, id, matches[..i]);
        assert matches[..i + 1][..i] == matches[..i];
        assert (seen + [hit])[..|seen|] == seen;
        var listed := IsAllowlisted(allowlist, hit.key);
        if !listed {
          violations := violations + [hit];
        }
      }
      assert matches[..|matches|] == matches;
    }

    method ScanLine(allowlist: seq<Entry>, forbidden: Forbidden, path: string, line: nat, text: string)
      returns (violations: seq<Hit>)
      modifies this
      ensures Scan(allowlist, Progress(old(ids), []), LineHits(forbidden, path, line, text, forbidden.ids))
           == Progress(ids, violations)
    {
      violations := [];
      for i := 0 to |forbidden.ids|
        invariant Scan(allowlist, Progress(old(ids), []), LineHits(forbidden, path, line, text, forbidden.ids[..i]))
               == Progress(ids, violations)
      {
        var id := forbidden.ids[i];
        var matches := forbidden.find(id, text);
        ghost var before := ids;
        ghost var seen := LineHits(forbidden, path, line, text, forbidden.ids[..i]);
        assert forbidden.ids[..i + 1][..i] == forbidden.ids[..i];
        var more := ScanMatches(allowlist, path, line, id, matches);
        ScanOn(allowlist, Progress(old(ids), []), seen, MatchHits(path, line, id, matches), before, violations);
        violations := violations + more;
      }
      assert forbidden.ids[..|forbidden.ids|] == forbidden.ids;
    }

    /** `scan_file`. */
    method ScanFile(allowlist: seq<Entry>, forbidden: Forbidden, file: File) returns (violations: seq<Hit>)
      modifies this
      ensures Progress(ids, violations)
           == Scan(allowlist, Progress(old(ids), []), FileHits(forbidden, file.path, file.lines))
    {
      violations := [];
      for i := 0 to |file.lines|
        invariant Scan(allowlist, Progress(old(ids), []), FileHits(forbidden, file.path, file.lines[..i]))
               == Progress(ids, violations)
      {
        ghost var before := ids;
        ghost var seen := FileHits(forbidden, file.path, file.lines[..i]);
        assert file.lines[..i + 1][..i] == file.lines[..i];
        var more := ScanLine(allowlist, forbidden, file.path, i + 1, file.lines[i]);
        ScanOn(allowlist, Progress(old(ids), []), seen,
               LineHits(forbidden, file.path, i + 1, file.lines[i], forbidden.ids), before, violations);
        violations := violations + more;
      }
      assert file.lines[..|file.lines|] == file.lines;
    }
  }

  /** Scanning on from a point adds the violations of the rest to those already found. */
  lemma {:induction false} ScanOn(allowlist: seq<Entry>, p: Progress, seen: seq<Hit>, more: seq<Hit>,
                                  observed: set<string>, violations: seq<Hit>)
    requires Scan(allowlist, p, seen) == Progress(observed, violations)
    ensures var rest := Scan(allowlist, Progress(observed, []), more);
            Scan(allowlist, p, seen + more) == Progress(rest.observed, violations + rest.violations)
    decreases |more|
  {
    if more == [] {
      assert seen + more == seen && violations + [] == violations;
    } else {
      var n := |more| - 1;
      assert (seen + more)[..|seen + more| - 1] == seen + more[..n];
      ScanOn(allowlist, p, seen, more[..n], observed, violations);
    }
  }

  // ---- what the scan leaves --------------------------------------------------------------------

  function Ids(allowlist: seq<Entry>): set<string> {
    if allowlist == [] then {} else {allowlist[0].id} + Ids(allowlist[1..])
  }

  predicate Distinct(allowlist: seq<Entry>) {
    allowlist == [] || (allowlist[0].id !in Ids(allowlist[1..]) && Distinct(allowlist[1..]))
  }

  /** The keys of the entries not used up, each as often as it is listed. */
  function Free(allowlist: seq<Entry>, observed: set<string>): multiset<Key> {
    if allowlist == [] then multiset{} else FreeKey(allowlist[0], observed) + Free(allowlist[1..], observed)
  }

  function FreeKey(entry: Entry, observed: set<string>): multiset<Key> {
    if entry.id in observed then multiset{} else multiset{entry.key}
  }

  function Keys(hits: seq<Hit>): multiset<Key> {
    if hits == [] then multiset{} else Keys(hits[..|hits| - 1]) + multiset{hits[|hits| - 1].key}
  }

  lemma TakeFirst(rest: multiset<Key>, key: Key)
    ensures multiset{key} + rest - multiset{key} == rest
  {
  }

  lemma TakeLater(first: multiset<Key>, rest: multiset<Key>, key: Key)
    requires key in rest
    ensures first + (rest - multiset{key}) == first + rest - multiset{key}
  {
  }

  lemma {:induction false} FreeOf(allowlist: seq<Entry>, observed: set<string>, id: string)
    requires id !in Ids(allowlist)
    ensures Free(allowlist, observed + {id}) == Free(allowlist, observed)
  {
    if allowlist != [] {
      FreeOf(allowlist[1..], observed, id);
    }
  }

  lemma {:induction false} ListedIds(allowlist: seq<Entry>, observed: set<string>, key: Key)
    ensures Listed(allowlist, observed, key) <= Ids(allowlist)
  {
    if allowlist != [] {
      ListedIds(allowlist[1..], observed, key);
    }
  }

  lemma {:induction false} ListedIff(allowlist: seq<Entry>, observed: set<string>, key: Key)
    ensures Listed(allowlist, observed, key) == {} <==> key !in Free(allowlist, observed)
  {
    if allowlist != [] {
      ListedIff(allowlist[1..], observed, key);
      if allowlist[0].id !in observed && allowlist[0].key == key {
        assert allowlist[0].id in Listed(allowlist, observed, key);
      }
    }
  }

  lemma {:induction false} ListedFrees(allowlist: seq<Entry>, observed: set<string>, key: Key)
    requires Distinct(allowlist) && Listed(allowlist, observed, key) != {}
    ensures Free(allowlist, observed + Listed(allowlist, observed, key)) == Free(allowlist, observed) - multiset{key}
  {
    var rest := allowlist[1..];
    if allowlist[0].id !in observed && allowlist[0].key == key {
      FreeOf(rest, observed, allowlist[0].id);
      TakeFirst(Free(rest, observed), key);
    } else {
      ListedFrees(rest, observed, key);
      ListedIds(rest, observed, key);
      ListedIff(rest, observed, key);
      TakeLater(FreeKey(allowlist[0], observed), Free(rest, observed), key);
    }
  }

  lemma SurplusStep(hits: multiset<Key>, free: multiset<Key>, key: Key)
    ensures free - (hits + multiset{key}) == (free - hits) - multiset{key}
    ensures key in free - hits ==> (hits + multiset{key}) - free == hits - free
    ensures key !in free - hits ==> (hits + multiset{key}) - free == (hits - free) + multiset{key}
    ensures key !in free - hits ==> free - hits == (free - hits) - multiset{key}
  {
  }

  /** With distinct ids the unlisted hits are exactly the surplus of hits over entries, key by key,
      and the entries left are the surplus of entries over hits. */
  lemma {:induction false} ScanBalances(allowlist: seq<Entry>, observed: set<string>, hits: seq<Hit>)
    requires Distinct(allowlist)
    ensures var end := Scan(allowlist, Progress(observed, []), hits);
            && Keys(end.violations) == Keys(hits) - Free(allowlist, observed)
            && Free(allowlist, end.observed) == Free(allowlist, observed) - Keys(hits)
  {
    if hits != [] {
      var n := |hits| - 1;
      ScanBalances(allowlist, observed, hits[..n]);
      var p := Scan(allowlist, Progress(observed, []), hits[..n]);
      ListedIff(allowlist, p.observed, hits[n].key);
      if Listed(allowlist, p.observed, hits[n].key) != {} {
        ListedFrees(allowlist, p.observed, hits[n].key);
      }
      SurplusStep(Keys(hits[..n]), Free(allowlist, observed), hits[n].key);
      KeysSnoc(p.violations, hits[n]);
    }
  }

  lemma KeysSnoc(hits: seq<Hit>, hit: Hit)
    ensures Keys(hits + [hit]) == Keys(hits) + multiset{hit.key}
  {
    assert (hits + [hit])[..|hits|] == hits;
  }

  // ---- the gate -----------------------------------------------------------------------------------

  /** The entries never used up. */
  function Unused(allowlist: seq<Entry>, observed: set<string>): seq<Entry> {
    if allowlist == [] then []
    else Unused(allowlist[..|allowlist| - 1], observed)
         + if allowlist[|allowlist| - 1].id in observed then [] else [allowlist[|allowlist| - 1]]
  }

  function EntryKeys(entries: seq<Entry>): multiset<Key> {
    if entries == [] then multiset{} else EntryKeys(entries[..|entries| - 1]) + multiset{entries[|entries| - 1].key}
  }

  lemma Reassociate(a: multiset<Key>, b: multiset<Key>, c: multiset<Key>)
    ensures a + (b + c) == a + b + c
  {
  }

  lemma {:induction false} FreeSnoc(allowlist: seq<Entry>, entry: Entry, observed: set<string>)
    ensures Free(allowlist + [entry], observed) == Free(allowlist, observed) + FreeKey(entry, observed)
  {
    var all := allowlist + [entry];
    if allowlist == [] {
      assert all[1..] == [];
      assert Free(all, observed) == FreeKey(entry, observed) + multiset{};
    } else {
      assert all[1..] == allowlist[1..] + [entry];
      FreeSnoc(allowlist[1..], entry, observed);
      Reassociate(FreeKey(allowlist[0], observed), Free(allowlist[1..], observed), FreeKey(entry, observed));
    }
  }

  lemma PlusNone(m: multiset<Key>)
    ensures m + multiset{} == m
  {
  }

  lemma {:induction false} UnusedKeys(allowlist: seq<Entry>, observed: set<string>)
    ensures EntryKeys(Unused(allowlist, observed)) == Free(allowlist, observed)
  {
    if allowlist != [] {
      var n := |allowlist| - 1;
      UnusedKeys(allowlist[..n], observed);
      FreeSnoc(allowlist[..n], allowlist[n], observed);
      assert allowlist[..n] + [allowlist[n]] == allowlist;
      if allowlist[n].id in observed {
        assert Unused(allowlist, observed) == Unused(allowlist[..n], observed);
        PlusNone(Free(allowlist[..n], observed));
      } else {
        EntryKeysSnoc(Unused(allowlist[..n], observed), allowlist[n]);
      }
    }
  }

  lemma EntryKeysSnoc(entries: seq<Entry>, entry: Entry)
    ensures EntryKeys(entries + [entry]) == EntryKeys(entries) + multiset{entry.key}
  {
    assert (entries + [entry])[..|entries|] == entries;
  }

  lemma {:induction false} AllFree(allowlist: seq<Entry>)
    ensures Unused(allowlist, {}) == allowlist
    ensures EntryKeys(allowlist) == Free(allowlist, {})
  {
    if allowlist != [] {
      AllFree(allowlist[..|allowlist| - 1]);
    }
    UnusedKeys(allowlist, {});
  }

  /** Of a sound allowlist every entry is kept, under its own id. */
  lemma {:induction false} KeptAll(rules: Rules, raws: seq<RawEntry>)
    requires forall raw :: raw in raws ==> Sound(rules, raw)
    ensures |Kept(rules, raws)| == |raws|
    ensures forall i :: 0 <= i < |raws| ==> ID in raws[i] && Kept(rules, raws)[i].id == raws[i][ID]
  {
    if raws != [] {
      var n := |raws| - 1;
      assert Sound(rules, raws[n]);
      assert ID in FIELDS && !Missing(rules, raws[n], ID) by {
        assert FIELDS[0] == ID;
      }
      KeptAll(rules, raws[..n]);
      assert Kept(rules, raws) == Kept(rules, raws[..n]) + [Entry(raws[n][ID], KeyOf(rules, raws[n]))];
      forall i | 0 <= i < n ensures ID in raws[i] && Kept(rules, raws)[i].id == raws[i][ID] {
        assert raws[..n][i] == raws[i];
      }
    }
  }

  lemma WellFormedKept(rules: Rules, raws: seq<RawEntry>)
    requires WellFormed(rules, raws)
    ensures Distinct(Kept(rules, raws))
  {
    KeptAll(rules, raws);
    PairsDistinct(Kept(rules, raws));
  }

  lemma {:induction false} PairsDistinct(allowlist: seq<Entry>)
    requires forall i, j :: 0 <= i < j < |allowlist| ==> allowlist[i].id != allowlist[j].id
    ensures Distinct(allowlist)
  {
    if allowlist != [] {
      IdsOf(allowlist[1..]);
      PairsDistinct(allowlist[1..]);
    }
  }

  lemma {:induction false} IdsOf(allowlist: seq<Entry>)
    ensures forall id :: id in Ids(allowlist) ==> exists i :: 0 <= i < |allowlist| && allowlist[i].id == id
  {
    if allowlist != [] {
      IdsOf(allowlist[1..]);
      forall id | id in Ids(allowlist[1..]) ensures exists i :: 0 <= i < |allowlist| && allowlist[i].id == id {
        var i :| 0 <= i < |allowlist[1..]| && allowlist[1..][i].id == id;
        assert allowlist[i + 1].id == id;
      }
    }
  }

  /** With distinct ids: unlisted hits and unhit entries are the two surpluses, and neither is left
      exactly when the listings are the hits. */
  lemma {:induction false} GateBalances(allowlist: seq<Entry>, observed: set<string>, hits: seq<Hit>,
                                        violations: seq<Hit>)
    requires Distinct(allowlist) && Scan(allowlist, Progress({}, []), hits) == Progress(observed, violations)
    ensures Keys(violations) == Keys(hits) - EntryKeys(allowlist)
    ensures EntryKeys(Unused(allowlist, observed)) == EntryKeys(allowlist) - Keys(hits)
    ensures violations == [] && Unused(allowlist, observed) == [] <==> Keys(hits) == EntryKeys(allowlist)
  {
    AllFree(allowlist);
    UnusedKeys(allowlist, observed);
    ScanBalances(allowlist, {}, hits);
    NoneLeft(violations, Unused(allowlist, observed));
    Balanced(Keys(hits), EntryKeys(allowlist));
  }

  /** `scan_repository`: violations and errors of one run. */
  method ScanRepository(rules: Rules, raws: seq<RawEntry>, forbidden: Forbidden, files: seq<File>)
    returns (violations: seq<Hit>, errors: seq<Error>, stale: seq<Entry>)
    ensures forall e :: e in errors <==>
      (e.Stale? && e.entry in stale) || ReportedBefore(rules, raws, |raws|, e)
    ensures errors == [] <==> WellFormed(rules, raws) && stale == []
    ensures Distinct(Kept(rules, raws)) ==>
      && Keys(violations) == Keys(Hits(forbidden, files)) - EntryKeys(Kept(rules, raws))
      && EntryKeys(stale) == EntryKeys(Kept(rules, raws)) - Keys(Hits(forbidden, files))
    ensures violations == [] && errors == [] <==>
      WellFormed(rules, raws) && Keys(Hits(forbidden, files)) == EntryKeys(Kept(rules, raws))
  {
    var allowlist;
    allowlist, errors := ValidateAllowlist(rules, raws);
    var observed := new Observed();
    violations := ScanFiles(allowlist, forbidden, files, observed);
    stale := StaleEntries(allowlist, observed.ids);
    ghost var faults := errors;
    errors := errors + Stales(stale);
    if Distinct(allowlist) {
      GateBalances(allowlist, observed.ids, Hits(forbidden, files), violations);
    }
    if WellFormed(rules, raws) {
      WellFormedKept(rules, raws);
    }
  }

  method ScanFiles(allowlist: seq<Entry>, forbidden: Forbidden, files: seq<File>, observed: Observed)
    returns (violations: seq<Hit>)
    modifies observed
    ensures Progress(observed.ids, violations)
         == Scan(allowlist, Progress(old(observed.ids), []), Hits(forbidden, files))
  {
    violations := [];
    for i := 0 to |files|
      invariant Progress(observed.ids, violations)
             == Scan(allowlist, Progress(old(observed.ids), []), Hits(forbidden, files[..i]))
    {
      ghost var before := observed.ids;
      ghost var seen := Hits(forbidden, files[..i]);
      assert files[..i + 1][..i] == files[..i];
      var more := observed.ScanFile(allowlist, forbidden, files[i]);
      ScanOn(allowlist, Progress(old(observed.ids), []), seen,
             FileHits(forbidden, files[i].path, files[i].lines), before, violations);
      violations := violations + more;
    }
    assert files[..|files|] == files;
  }

  method StaleEntries(allowlist: seq<Entry>, observed: set<string>) returns (stale: seq<Entry>)
    ensures stale == Unused(allowlist, observed)
  {
    stale := [];
    for i := 0 to |allowlist|
      invariant stale == Unused(allowlist[..i], observed)
    {
      assert allowlist[..i + 1][..i] == allowlist[..i];
      if allowlist[i].id !in observed {
        stale := stale + [allowlist[i]];
      }
    }
    assert allowlist[..|allowlist|] == allowlist;
  }

  function Stales(stale: seq<Entry>): (errors: seq<Error>)
    ensures |errors| == |stale|
    ensures forall e :: e in errors <==> e.Stale? && e.entry in stale
  {
    if stale == [] then [] else [Stale(stale[0])] + Stales(stale[1..])
  }

  lemma NoneLeft(violations: seq<Hit>, stale: seq<Entry>)
    ensures violations == [] <==> Keys(violations) == multiset{}
    ensures stale == [] <==> EntryKeys(stale) == multiset{}
  {
    if violations != [] {
      assert violations[|violations| - 1].key in Keys(violations);
    }
    if stale != [] {
      assert stale[|stale| - 1].key in EntryKeys(stale);
    }
  }

  lemma Balanced(hits: multiset<Key>, entries: multiset<Key>)
    ensures hits - entries == multiset{} && entries - hits == multiset{} <==> hits == entries
  {
    if hits - entries == multiset{} && entries - hits == multiset{} {
      forall k ensures hits[k] == entries[k] {
        assert (hits - entries)[k] == 0 && (entries - hits)[k] == 0;
      }
    }
  }
}
