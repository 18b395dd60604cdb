/** The changelog's lines and links, as the version scripts read them. */
module Changelog {
  import opened Wrappers

  const REPO := "https://github.com/geolens-io/geolens"
  const COMPARE := REPO + "/compare/v"
  const DOTS := "..."
  const UNRELEASED := "Unreleased"
  const HEAD := "HEAD"

  /** Which characters are white space, and how labels compare without regard to case. */
  datatype Reading = Reading(space: char -> bool, fold: string -> string)

  predicate Plain(space: char -> bool, s: string) {
    forall c :: c in s ==> !space(c)
  }

  // ---- versions and compare links -----------------------------------------------------------

  predicate Digit(c: char) {
    '0' <= c <= '9'
  }

  function Digits(s: string): (n: nat)
    ensures n <= |s| && (forall i :: 0 <= i < n ==> Digit(s[i])) && (n < |s| ==> !Digit(s[n]))
  {
    if s == "" || !Digit(s[0]) then 0 else 1 + Digits(s[1..])
  }

  /** The length of the dot and digits the string starts with, or 0. */
  function DotDigits(s: string): (n: nat)
    ensures n <= |s|
    ensures n > 0 ==> s[0] == '.' && forall i :: 1 <= i < n ==> Digit(s[i])
  {
    if s == "" || s[0] != '.' || Digits(s[1..]) == 0 then 0 else 1 + Digits(s[1..])
  }

  /** The length of the X.Y.Z the string starts with, or 0. */
  function VersionLength(s: string): (n: nat)
    ensures n <= |s|
  {
    var a := Digits(s);
    var b := DotDigits(s[a..]);
    var c := DotDigits(s[a + b..]);
    if a == 0 || b == 0 || c == 0 then 0 else a + b + c
  }

  predicate SemVer(v: string) {
    v != "" && VersionLength(v) == |v|
  }

  function CompareUrl(from: string, to: string): string {
    COMPARE + (from + (DOTS + to))
  }

  /** The two ends of a compare link from a release to another one or to the head. */
  function CompareLink(url: string): Option<(string, string)> {
    if !(COMPARE <= url) then None
    else
      var s := url[|COMPARE|..];
      var k := VersionLength(s);
      if k == 0 || !(DOTS <= s[k..]) then None
      else
        var to := s[k..][|DOTS|..];
        if to == HEAD || (to != "" && to[0] == 'v' && SemVer(to[1..])) then Some((s[..k], to)) else None
  }

  lemma {:induction false} DigitsBefore(s: string, rest: string)
    requires rest == "" || !Digit(rest[0])
    ensures Digits(s + rest) == Digits(s)
  {
    if s == "" {
      assert s + rest == rest;
    } else {
      assert (s + rest)[1..] == s[1..] + rest;
      DigitsBefore(s[1..], rest);
    }
  }

  lemma DotDigitsBefore(s: string, rest: string)
    requires s != "" && (rest == "" || !Digit(rest[0]))
    ensures DotDigits(s + rest) == DotDigits(s)
  {
    assert (s + rest)[1..] == s[1..] + rest;
    DigitsBefore(s[1..], rest);
  }

  lemma LaterBefore(v: string, rest: string, k: nat)
    requires k < |v| && (rest == "" || !Digit(rest[0]))
    ensures DotDigits((v + rest)[k..]) == DotDigits(v[k..])
  {
    assert (v + rest)[k..] == v[k..] + rest;
    DotDigitsBefore(v[k..], rest);
  }

  /** A version is still read as itself in front of something that is not a digit. */
  lemma VersionBefore(v: string, rest: string)
    requires SemVer(v) && (rest == "" || !Digit(rest[0]))
    ensures VersionLength(v + rest) == |v|
  {
    var a := Digits(v);
    var b := DotDigits(v[a..]);
    var c := DotDigits(v[a + b..]);
    DigitsBefore(v, rest);
    LaterBefore(v, rest, a);
    LaterBefore(v, rest, a + b);
    VersionAdds(v, a, b, c);
    VersionAdds(v + rest, a, b, c);
  }

  lemma VersionAdds(s: string, a: nat, b: nat, c: nat)
    requires a == Digits(s) && b == DotDigits(s[a..]) && c == DotDigits(s[a + b..])
    ensures VersionLength(s) == if a == 0 || b == 0 || c == 0 then 0 else a + b + c
  {
  }

  lemma Cut(a: string, b: string)
    ensures a <= a + b && (a + b)[|a|..] == b && (a + b)[..|a|] == a
  {
  }

  /** The other end of a compare link: a tag of a version, or the head. */
  predicate LinkEnd(to: string) {
    to == HEAD || (to != "" && to[0] == 'v' && SemVer(to[1..]))
  }

  lemma {:induction false} CompareLinkTo(version: string, to: string)
    requires SemVer(version) && LinkEnd(to)
    ensures CompareLink(CompareUrl(version, to)) == Some((version, to))
  {
    Cut(COMPARE, version + (DOTS + to));
    assert (DOTS + to)[0] == '.';
    VersionBefore(version, DOTS + to);
    Cut(version, DOTS + to);
    Cut(DOTS, to);
  }

  lemma Slices(s: string, a: nat, b: nat, c: nat)
    requires a + b + c <= |s|
    ensures var k := a + b + c;
            s[..k][a..] == s[a..][..b + c] && s[..k][a + b..] == s[a + b..][..c]
  {
  }

  lemma VersionPart(s: string, k: nat)
    requires k == VersionLength(s) > 0
    ensures SemVer(s[..k])
  {
    var a := Digits(s);
    var b := DotDigits(s[a..]);
    var c := DotDigits(s[a + b..]);
    VersionAdds(s, a, b, c);
    Slices(s, a, b, c);
    DigitsWithin(s, a, k);
    DotDigitsWithin(s[a..], b, b + c);
    DotDigitsWithin(s[a + b..], c, c);
    VersionAdds(s[..k], a, b, c);
  }

  lemma Spelled(start: string, s: string)
    requires start <= s
    ensures s == start + s[|start|..]
  {
  }

  lemma Rejoined(s: string, k: nat)
    requires k <= |s|
    ensures s == s[..k] + s[k..]
  {
  }

  lemma {:induction false} DigitsWithin(s: string, n: nat, k: nat)
    requires n == Digits(s) && n <= k <= |s|
    ensures Digits(s[..k]) == n
  {
    if n > 0 {
      assert s[..k][1..] == s[1..][..k - 1];
      DigitsWithin(s[1..], n - 1, k - 1);
    }
  }

  lemma DotDigitsWithin(s: string, n: nat, k: nat)
    requires n == DotDigits(s) > 0 && n <= k <= |s|
    ensures DotDigits(s[..k]) == n
  {
    assert s[..k][1..] == s[1..][..k - 1];
    DigitsWithin(s[1..], n - 1, k - 1);
  }

  lemma {:induction false} CompareLinkFrom(url: string, from: string, to: string)
    requires CompareLink(url) == Some((from, to))
    ensures SemVer(from) && LinkEnd(to) && url == CompareUrl(from, to)
  {
    var s := url[|COMPARE|..];
    var k := VersionLength(s);
    VersionPart(s, k);
    Spelled(COMPARE, url);
    Rejoined(s, k);
    Spelled(DOTS, s[k..]);
  }

  /** The verifier's pattern matches exactly the links from a release to a release or the head. */
  lemma {:induction false} CompareLinkIff(url: string, from: string, to: string)
    ensures CompareLink(url) == Some((from, to)) <==> SemVer(from) && LinkEnd(to) && url == CompareUrl(from, to)
  {
    if CompareLink(url) == Some((from, to)) {
      CompareLinkFrom(url, from, to);
    }
    if SemVer(from) && LinkEnd(to) {
      CompareLinkTo(from, to);
    }
  }

  lemma {:induction false} CompareLinkOf(version: string)
    requires SemVer(version)
    ensures CompareLink(CompareUrl(version, HEAD)) == Some((version, HEAD))
  {
    CompareLinkTo(version, HEAD);
  }

  lemma SemVerChars(v: string, i: nat)
    requires SemVer(v) && i < |v|
    ensures Digit(v[i]) || v[i] == '.'
  {
    var a := Digits(v);
    var b := DotDigits(v[a..]);
    if a <= i < a + b {
      assert v[i] == v[a..][i - a];
    } else if a + b <= i {
      assert v[i] == v[a + b..][i - a - b];
    }
  }

  // ---- lines ---------------------------------------------------------------------------------

  /** The index of the first closing bracket, or the length. */
  function Close(s: string): (n: nat)
    ensures n <= |s| && ']' !in s[..n] && (n < |s| ==> s[n] == ']')
  {
    if s == "" || s[0] == ']' then 0 else 1 + Close(s[1..])
  }

  lemma {:induction false} CloseAfter(a: string, rest: string)
    requires ']' !in a && rest != "" && rest[0] == ']'
    ensures Close(a + rest) == |a|
  {
    if a == "" {
      assert a + rest == rest;
    } else {
      assert (a + rest)[1..] == a[1..] + rest;
      CloseAfter(a[1..], rest);
    }
  }

  /** What stands in brackets at the start of the string, and what follows the closing one. */
  function Bracketed(s: string): Option<(string, string)> {
    if s == "" || s[0] != '[' then None
    else
      var n := Close(s[1..]);
      if n == 0 || n == |s| - 1 then None else Some((s[1..][..n], s[n + 2..]))
  }

  predicate Labels(name: string) {
    name != "" && ']' !in name
  }

  lemma BracketedOf(name: string, rest: string)
    requires Labels(name)
    ensures Bracketed("[" + name + "]" + rest) == Some((name, rest))
  {
    var s := "[" + name + "]" + rest;
    assert s[1..] == name + ("]" + rest);
    CloseAfter(name, "]" + rest);
    assert s[|name| + 2..] == rest;
  }

  /** And back: a line with a bracketed label is spelled from its parts. */
  lemma BracketedIs(s: string)
    requires Bracketed(s).Some?
    ensures var b := Bracketed(s).value; s == "[" + b.0 + "]" + b.1 && Labels(b.0)
  {
    var n := Close(s[1..]);
    assert s[1..][n] == ']';
    assert s == [s[0]] + s[1..][..n] + [s[n + 1]] + s[n + 2..];
  }

  /** The label of a line that starts `[label]:`. */
  function LabelOf(line: string): Option<string> {
    var b := Bracketed(line);
    if b.Some? && ":" <= b.value.1 then Some(b.value.0) else None
  }

  /** A link definition, `[label]: url`. */
  function LinkOf(r: Reading, line: string): Option<(string, string)> {
    var b := Bracketed(line);
    if b.Some? && ": " <= b.value.1 && |b.value.1| > 2 && Plain(r.space, b.value.1[2..])
    then Some((b.value.0, b.value.1[2..])) else None
  }

  /** The label of a `## [label]` heading. */
  function Heading(line: string): Option<string> {
    if "## " <= line && Bracketed(line[3..]).Some? then Some(Bracketed(line[3..]).value.0) else None
  }

  function Definition(name: string, url: string): string {
    "[" + name + "]: " + url
  }

  /** A line that defines the label in any shape. */
  predicate Defines(name: string, line: string) {
    "[" + name + "]: " <= line
  }

  lemma DefinitionReads(r: Reading, name: string, url: string)
    requires Labels(name)
    ensures LabelOf(Definition(name, url)) == Some(name) && Heading(Definition(name, url)).None?
    ensures LinkOf(r, Definition(name, url)) == if url != "" && Plain(r.space, url) then Some((name, url)) else None
    ensures Defines(name, Definition(name, url))
  {
    var line := Definition(name, url);
    assert line == "[" + name + "]" + (": " + url);
    BracketedOf(name, ": " + url);
    assert (": " + url)[2..] == url;
    assert line[0] == '[' && "## "[0] == '#';
  }

  lemma DefinesReads(name: string, line: string)
    requires Labels(name) && Defines(name, line)
    ensures LabelOf(line) == Some(name) && Heading(line).None?
    ensures line == Definition(name, line[|name| + 4..])
  {
    var start := "[" + name + "]: ";
    assert line[..|start|] == start;
    assert line == start + line[|start|..];
    DefinitionReads(Reading(c => false, s => s), name, line[|start|..]);
  }

  /** A link definition defines its label. */
  lemma LinkDefines(r: Reading, line: string)
    requires LinkOf(r, line).Some?
    ensures Labels(LinkOf(r, line).value.0) && Defines(LinkOf(r, line).value.0, line)
    ensures LabelOf(line) == Some(LinkOf(r, line).value.0)
  {
    BracketedIs(line);
    var b := Bracketed(line).value;
    assert b.1 == ": " + b.1[2..];
    assert line == "[" + b.0 + "]: " + b.1[2..];
  }

  lemma OneLabel(a: string, b: string, line: string)
    requires Labels(a) && Labels(b) && Defines(a, line) && Defines(b, line)
    ensures a == b
  {
    DefinesReads(a, line);
    DefinesReads(b, line);
  }

  // ---- the section below a version's ----------------------------------------------------------

  /** The label of the next heading that is not the unreleased one. */
  function NextSection(lines: seq<string>): Option<string> {
    if lines == [] then None
    else if Heading(lines[0]).Some? && Heading(lines[0]).value != UNRELEASED then Heading(lines[0])
    else NextSection(lines[1..])
  }

  /** The section that follows the first one of this version. */
  function PrevOf(lines: seq<string>, version: string): Option<string> {
    if lines == [] then None
    else if Heading(lines[0]) == Some(version) then NextSection(lines[1..])
    else PrevOf(lines[1..], version)
  }

  lemma HeadingOf(name: string, rest: string)
    requires Labels(name)
    ensures Heading("## " + ("[" + name + "]" + rest)) == Some(name)
  {
    Cut("## ", "[" + name + "]" + rest);
    BracketedOf(name, rest);
  }

  lemma HeadingHas(line: string)
    requires Heading(line).Some?
    ensures Labels(Heading(line).value)
    ensures line == "## " + ("[" + Heading(line).value + "]" + Bracketed(line[3..]).value.1)
  {
    BracketedIs(line[3..]);
    assert line == line[..3] + line[3..];
  }

  /** A `## [label]` heading is spelled from its label, with anything behind it. */
  lemma HeadingIff(line: string, name: string)
    ensures Heading(line) == Some(name) <==> name != "" && ']' !in name && "## [" + name + "]" <= line
  {
    if Heading(line) == Some(name) {
      HeadingHas(line);
      var rest := Bracketed(line[3..]).value.1;
      Regroup(name, rest);
      assert "## [" + name + "]" <= "## [" + name + "]" + rest;
    }
    if name != "" && ']' !in name && "## [" + name + "]" <= line {
      var start := "## [" + name + "]";
      assert line == start + line[|start|..];
      Regroup(name, line[|start|..]);
      HeadingOf(name, line[|start|..]);
    }
  }

  lemma Regroup(name: string, rest: string)
    ensures "## [" + name + "]" + rest == "## " + ("[" + name + "]" + rest)
  {
  }

  /** A heading of a section other than the unreleased one. */
  predicate SectionAt(lines: seq<string>, j: int, name: string) {
    0 <= j < |lines| && name != "Unreleased" && Heading(lines[j]) == Some(name)
  }

  ghost predicate NoSectionIn(lines: seq<string>, i: int, j: int) {
    forall k, name :: i <= k < j ==> !SectionAt(lines, k, name)
  }

  /** Line `i` is the first heading of the version, and line `j` the next one below it that is
      not the unreleased one, with the label `prev`. */
  ghost predicate SectionBelow(lines: seq<string>, version: string, i: int, j: int, prev: string) {
    && 0 <= i < j < |lines| && Heading(lines[i]) == Some(version) && SectionAt(lines, j, prev)
    && (forall k :: 0 <= k < i ==> Heading(lines[k]) != Some(version))
    && NoSectionIn(lines, i + 1, j)
  }

  lemma {:induction false} NextSectionAt(lines: seq<string>) returns (j: nat)
    ensures NextSection(lines).Some? ==> SectionAt(lines, j, NextSection(lines).value) && NoSectionIn(lines, 0, j)
    ensures NextSection(lines).None? ==> NoSectionIn(lines, 0, |lines|)
  {
    if lines == [] {
      j := 0;
    } else if Heading(lines[0]).Some? && Heading(lines[0]).value != UNRELEASED {
      j := 0;
    } else {
      var rest := NextSectionAt(lines[1..]);
      j := rest + 1;
      forall k, name | 0 <= k < |lines| && (NextSection(lines).Some? ==> k < j) ensures !SectionAt(lines, k, name) {
        assert k > 0 ==> !SectionAt(lines[1..], k - 1, name);
      }
    }
  }

  /** The label found is that of the section below the version's, and none is found exactly if
      there is none. */
  lemma {:induction false} PrevIs(lines: seq<string>, version: string) returns (i: nat, j: nat)
    ensures PrevOf(lines, version).Some? ==> SectionBelow(lines, version, i, j, PrevOf(lines, version).value)
    ensures PrevOf(lines, version).None? ==> forall i, j, prev :: !SectionBelow(lines, version, i, j, prev)
  {
    if lines == [] {
      i, j := 0, 0;
    } else if Heading(lines[0]) == Some(version) {
      var n := NextSectionAt(lines[1..]);
      i, j := 0, n + 1;
      forall k, name | 1 <= k < |lines| ensures SectionAt(lines, k, name) == SectionAt(lines[1..], k - 1, name) {
      }
      forall k, name | PrevOf(lines, version).None? && 1 <= k ensures !SectionAt(lines, k, name) {
        assert !SectionAt(lines[1..], k - 1, name);
      }
      forall k, name | PrevOf(lines, version).Some? && 1 <= k < j ensures !SectionAt(lines, k, name) {
        assert !SectionAt(lines[1..], k - 1, name);
      }
    } else {
      i, j := PrevIs(lines[1..], version);
      i, j := i + 1, j + 1;
      if PrevOf(lines, version).Some? {
        BelowShifts(lines, version, i, j, PrevOf(lines, version).value);
      }
      forall a, b, prev | PrevOf(lines, version).None? ensures !SectionBelow(lines, version, a, b, prev) {
        BelowShifts(lines, version, a, b, prev);
      }
    }
  }

  /** Above the version's heading a line more changes nothing. */
  lemma BelowShifts(lines: seq<string>, version: string, i: int, j: int, prev: string)
    requires lines != [] && Heading(lines[0]) != Some(version)
    ensures SectionBelow(lines, version, i, j, prev) <==> SectionBelow(lines[1..], version, i - 1, j - 1, prev)
  {
    var rest := lines[1..];
    forall k, name | 1 <= k ensures SectionAt(lines, k, name) == SectionAt(rest, k - 1, name) {
    }
    if SectionBelow(lines, version, i, j, prev) {
      forall k, name | i <= k < j - 1 ensures !SectionAt(rest, k, name) {
        assert !SectionAt(lines, k + 1, name);
      }
      forall k | 0 <= k < i - 1 ensures Heading(rest[k]) != Some(version) {
        assert rest[k] == lines[k + 1];
      }
      assert SectionAt(rest, j - 1, prev) && i > 0;
    }
    if SectionBelow(rest, version, i - 1, j - 1, prev) {
      forall k, name | i + 1 <= k < j ensures !SectionAt(lines, k, name) {
        assert !SectionAt(rest, k - 1, name);
      }
      forall k | 0 <= k < i ensures Heading(lines[k]) != Some(version) {
        assert k > 0 ==> lines[k] == rest[k - 1];
      }
      assert SectionAt(lines, j, prev);
    }
  }

  /** `_changelog_prev_version`, the same in both scripts. */
  method PrevVersion(lines: seq<string>, version: string) returns (r: Option<string>)
    ensures r == PrevOf(lines, version)
    ensures r.Some? ==> exists i, j :: SectionBelow(lines, version, i, j, r.value)
    ensures r.None? ==> forall i, j, prev :: !SectionBelow(lines, version, i, j, prev)
  {
    ghost var i, j := PrevIs(lines, version);
    r := FindPrev(lines, version);
  }

  method FindPrev(lines: seq<string>, version: string) returns (r: Option<string>)
    ensures r == PrevOf(lines, version)
  {
    var found := false;
    for i := 0 to |lines|
      invariant PrevOf(lines, version) == if found then NextSection(lines[i..]) else PrevOf(lines[i..], version)
    {
      assert lines[i..][1..] == lines[i + 1..];
      var heading := Heading(lines[i]);
      if heading.Some? {
        if found {
          if heading.value != UNRELEASED {
            return heading;
          }
        } else if heading.value == version {
          found := true;
        }
      }
    }
    return None;
  }

  lemma {:induction false} NextKept(lines: seq<string>, k: nat, line: string)
    requires k < |lines| && Heading(lines[k]).None? && Heading(line).None?
    ensures NextSection(lines[k := line]) == NextSection(lines)
  {
    if k > 0 {
      assert lines[k := line][1..] == lines[1..][k - 1 := line];
      NextKept(lines[1..], k - 1, line);
    } else {
      assert lines[k := line][1..] == lines[1..];
    }
  }

  lemma {:induction false} PrevKept(lines: seq<string>, k: nat, line: string, version: string)
    requires k < |lines| && Heading(lines[k]).None? && Heading(line).None?
    ensures PrevOf(lines[k := line], version) == PrevOf(lines, version)
  {
    if k > 0 {
      assert lines[k := line][1..] == lines[1..][k - 1 := line];
      if Heading(lines[0]) == Some(version) {
        NextKept(lines[1..], k - 1, line);
      } else {
        PrevKept(lines[1..], k - 1, line, version);
      }
    } else {
      assert lines[k := line][1..] == lines[1..];
    }
  }

  function Inserted(lines: seq<string>, k: nat, line: string): seq<string>
    requires k <= |lines|
  {
    lines[..k] + [line] + lines[k..]
  }

  lemma InsertedTail(lines: seq<string>, k: nat, line: string)
    requires 0 < k <= |lines|
    ensures Inserted(lines, k, line)[1..] == Inserted(lines[1..], k - 1, line)
      && Inserted(lines, k, line)[0] == lines[0]
  {
  }

  lemma {:induction false} NextInserted(lines: seq<string>, k: nat, line: string)
    requires k <= |lines| && Heading(line).None?
    ensures NextSection(Inserted(lines, k, line)) == NextSection(lines)
  {
    if k == 0 {
      assert Inserted(lines, k, line)[1..] == lines;
    } else {
      InsertedTail(lines, k, line);
      NextInserted(lines[1..], k - 1, line);
    }
  }

  lemma {:induction false} PrevInserted(lines: seq<string>, k: nat, line: string, version: string)
    requires k <= |lines| && Heading(line).None?
    ensures PrevOf(Inserted(lines, k, line), version) == PrevOf(lines, version)
  {
    if k == 0 {
      assert Inserted(lines, k, line)[1..] == lines;
    } else {
      InsertedTail(lines, k, line);
      if Heading(lines[0]) == Some(version) {
        NextInserted(lines[1..], k - 1, line);
      } else {
        PrevInserted(lines[1..], k - 1, line, version);
      }
    }
  }

  // ---- labels defined twice ----------------------------------------------------------------------

  /** The link definition of a line, with its label folded. */
  predicate Links(r: Reading, line: string, key: string) {
    LinkOf(r, line).Some? && r.fold(LinkOf(r, line).value.0) == key
  }

  ghost predicate NoDuplicates(r: Reading, lines: seq<string>) {
    forall i, j :: 0 <= i < j < |lines| && LinkOf(r, lines[i]).Some? ==>
      !Links(r, lines[j], r.fold(LinkOf(r, lines[i]).value.0))
  }

  /** Line `a` is the only one that can be a definition of the label. */
  ghost predicate OnlyLink(r: Reading, lines: seq<string>, a: nat, name: string) {
    forall i :: 0 <= i < |lines| && i != a ==> Unrelated(r, lines[i], name)
  }

  predicate Unrelated(r: Reading, line: string, name: string) {
    !Links(r, line, r.fold(name)) && !Defines(name, line)
  }

  lemma ReplacedOnce(r: Reading, lines: seq<string>, k: nat, name: string, url: string)
    requires Labels(name) && k < |lines| && NoDuplicates(r, lines) && OnlyLink(r, lines, k, name)
    ensures NoDuplicates(r, lines[k := Definition(name, url)])
    ensures OnlyLink(r, lines[k := Definition(name, url)], k, name)
  {
    DefinitionReads(r, name, url);
    var more := lines[k := Definition(name, url)];
    forall i, j | 0 <= i < j < |more| && LinkOf(r, more[i]).Some?
      ensures !Links(r, more[j], r.fold(LinkOf(r, more[i]).value.0))
    {
      if i == k {
        assert Unrelated(r, lines[j], name);
      } else if j == k {
        assert Unrelated(r, lines[i], name);
      }
    }
  }

  lemma InsertedAt(lines: seq<string>, k: nat, line: string, i: nat)
    requires k <= |lines| && i <= |lines| && i != k
    ensures Inserted(lines, k, line)[i] == lines[if i < k then i else i - 1]
  {
  }

  lemma InsertedOnce(r: Reading, lines: seq<string>, k: nat, name: string, url: string)
    requires Labels(name) && k <= |lines| && NoDuplicates(r, lines) && OnlyLink(r, lines, |lines|, name)
    ensures NoDuplicates(r, Inserted(lines, k, Definition(name, url)))
    ensures OnlyLink(r, Inserted(lines, k, Definition(name, url)), k, name)
  {
    var line := Definition(name, url);
    var more := Inserted(lines, k, line);
    DefinitionReads(r, name, url);
    forall i | 0 <= i < |more| && i != k ensures more[i] == lines[if i < k then i else i - 1] {
      InsertedAt(lines, k, line, i);
    }
    forall i, j | 0 <= i < j < |more| && LinkOf(r, more[i]).Some?
      ensures !Links(r, more[j], r.fold(LinkOf(r, more[i]).value.0))
    {
      if i == k {
        assert Unrelated(r, lines[j - 1], name);
      } else if j == k {
        assert Unrelated(r, lines[i], name);
      }
    }
  }

  /** Adding an unrelated line further down keeps a label's one definition. */
  lemma OnlyInserted(r: Reading, lines: seq<string>, a: nat, name: string, k: nat, line: string)
    requires a < k <= |lines| && OnlyLink(r, lines, a, name) && Unrelated(r, line, name)
    ensures OnlyLink(r, Inserted(lines, k, line), a, name)
  {
    var more := Inserted(lines, k, line);
    forall i | 0 <= i < |more| && i != a ensures Unrelated(r, more[i], name) {
      if i != k {
        InsertedAt(lines, k, line, i);
      }
    }
  }

  /** The definition of another label is unrelated. */
  lemma OthersUnrelated(r: Reading, name: string, url: string, other: string)
    requires Labels(name) && Labels(other) && r.fold(name) != r.fold(other)
    ensures Unrelated(r, Definition(name, url), other)
  {
    DefinitionReads(r, name, url);
    if Defines(other, Definition(name, url)) {
      OneLabel(name, other, Definition(name, url));
    }
  }
}
