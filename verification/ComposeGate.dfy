/** The gate over how Compose hands settings to the services that load them. */
module ComposeGate {
  import opened Wrappers

  // ---- what is checked ------------------------------------------------------------------

  /** A field's default: absent, computed, `None`, or a literal. */
  datatype Default = Required | Computed | Nothing | Flag(on: bool) | Number(n: int) | Text(text: string)
    | Other(repr: string)

  /** An environment entry: `KEY:`, `${key}`, `${key:-fallback}` with a plain fallback, or anything else. */
  datatype Entry = Bare | Host(key: string) | HostOr(key: string, fallback: string) | Explicit(text: string)

  type Environment = map<string, Entry>

  datatype ComposeFile = ComposeFile(
    name: string, anchors: map<string, Environment>, services: map<string, Environment>)

  /** The tables of the gate. `exclusions` has one row for each of the services that take every field. */
  datatype Tables = Tables(
    specific: set<string>, notInCompose: set<string>, exclusions: map<string, set<string>>,
    migrateAnchors: set<string>, migrateSettings: set<string>)

  const SERVICES := ["api", "worker", "migrate"]
  const MIGRATE := "migrate"

  /** What the language's own conversions do with a value. */
  datatype Conversions = Conversions(strip: string -> string, lower: string -> string, integer: string -> Option<int>)

  const TRUE := {"1", "true", "yes", "on", "t", "y"}
  const FALSE := {"0", "false", "no", "off", "f", "n"}

  type Fields = map<string, Default>

  function EnvironmentOf(file: ComposeFile, service: string): Environment {
    if service in file.services then file.services[service] else map[]
  }

  /** `_compose_specific`. */
  predicate ComposeSpecific(tables: Tables, service: string, key: string) {
    key in tables.specific || service + ":" + key in tables.specific
  }

  /** `_parses_to_default`. */
  predicate ParsesToDefault(c: Conversions, raw: string, default: Default) {
    match default
    case Flag(on) => c.lower(c.strip(raw)) in (if on then TRUE else FALSE)
    case Number(n) => c.integer(raw) == Some(n)
    case Text(text) => raw == text
    case _ => false
  }

  datatype Problem =
    | BareNoField | BareSpecific | BareComputed | BareDropsDefault
    | NotTheDefault | RepeatsDefault | EmptyNotDefault | DiffersFromDefault

  /** What is wrong with one entry of a service, if anything. */
  function Verdict(c: Conversions, tables: Tables, fields: Fields, blank: set<string>,
                   service: string, key: string, entry: Entry): Option<Problem>
  {
    if entry.Bare? then
      if key !in fields then Some(BareNoField)
      else if ComposeSpecific(tables, service, key) then Some(BareSpecific)
      else if fields[key].Computed? && key !in blank then Some(BareComputed)
      else if !fields[key].Nothing? && fields[key] != Text("") && !fields[key].Required? && !fields[key].Computed?
              && key !in blank then Some(BareDropsDefault)
      else None
    else if key !in fields || ComposeSpecific(tables, service, key) then None
    else if fields[key].Required? && entry == Host(key) then None
    else if !entry.HostOr? || entry.key != key then Some(NotTheDefault)
    else if entry.fallback == "" then
      if fields[key] == Text("") || key in blank then Some(RepeatsDefault) else Some(EmptyNotDefault)
    else if fields[key].Computed? || !ParsesToDefault(c, entry.fallback, fields[key]) then Some(DiffersFromDefault)
    else None
  }

  // ---- the gate ------------------------------------------------------------------------------

  datatype Error =
    | NeverReceives(file: string, service: string, keys: set<string>)
    | StaleExclusion(file: string, service: string, keys: set<string>)
    | MissingAnchor(file: string, anchor: string)
    | Wrong(file: string, service: string, key: string, problem: Problem)
    | UnusedSpecific(entry: string)
    | NoSuchField(key: string)

  /** Every service with a row of exclusions receives all other fields and none of the excluded ones. */
  ghost predicate ServiceCovered(tables: Tables, file: ComposeFile, fields: Fields, service: string)
    requires service in tables.exclusions
  {
    && fields.Keys - tables.notInCompose - tables.exclusions[service] <= EnvironmentOf(file, service).Keys
    && tables.exclusions[service] !! EnvironmentOf(file, service).Keys
  }

  /** migrate receives its own settings and the fields of its anchors, which all exist. */
  ghost predicate MigrateCovered(tables: Tables, file: ComposeFile, fields: Fields) {
    && tables.migrateAnchors <= file.anchors.Keys
    && tables.migrateSettings <= EnvironmentOf(file, MIGRATE).Keys
    && forall a, key :: a in tables.migrateAnchors && a in file.anchors && key in file.anchors[a] && key in fields ==>
         key in EnvironmentOf(file, MIGRATE)
  }

  ghost predicate Covers(tables: Tables, file: ComposeFile, fields: Fields) {
    && (forall service :: service in tables.exclusions ==> ServiceCovered(tables, file, fields, service))
    && MigrateCovered(tables, file, fields)
  }

  method ServiceCoverageErrors(tables: Tables, file: ComposeFile, fields: Fields, service: string)
    returns (errors: seq<Error>)
    requires service in tables.exclusions
    ensures errors == [] <==> ServiceCovered(tables, file, fields, service)
  {
    var received := EnvironmentOf(file, service).Keys;
    var excluded := tables.exclusions[service];
    var expected := fields.Keys - tables.notInCompose - excluded;
    errors := [];
    if expected - received != {} {
      errors := errors + [NeverReceives(file.name, service, expected - received)];
    }
    if excluded * received != {} {
      errors := errors + [StaleExclusion(file.name, service, excluded * received)];
    }
    SubsetIff(expected, received);
  }

  lemma SubsetIff<T>(a: set<T>, b: set<T>)
    ensures a - b == {} <==> a <= b
    ensures a * b == {} <==> a !! b
  {
    if a - b == {} {
      forall x | x in a ensures x in b {
        assert x !in a - b;
      }
    }
    assert forall x :: x in a * b <==> x in a && x in b;
  }

  function FieldsOf(fields: Fields, environment: Environment): set<string> {
    set key | key in environment && key in fields
  }

  method MigrateCoverageErrors(tables: Tables, file: ComposeFile, fields: Fields) returns (errors: seq<Error>)
    ensures errors == [] <==> MigrateCovered(tables, file, fields)
  {
    errors := [];
    var expected := tables.migrateSettings;
    var todo := tables.migrateAnchors;
    while todo != {}
      invariant todo <= tables.migrateAnchors
      invariant errors == [] <==> tables.migrateAnchors - todo <= file.anchors.Keys
      invariant tables.migrateSettings <= expected
      invariant forall key :: key in expected <==>
        (key in tables.migrateSettings
         || exists a ::
              a in tables.migrateAnchors - todo && a in file.anchors && key in FieldsOf(fields, file.anchors[a]))
    {
      var a :| a in todo;
      todo := todo - {a};
      if a !in file.anchors {
        errors := errors + [MissingAnchor(file.name, a)];
        assert a in tables.migrateAnchors - todo;
      } else {
        expected := expected + FieldsOf(fields, file.anchors[a]);
      }
    }
    var received := EnvironmentOf(file, MIGRATE).Keys;
    SubsetIff(expected, received);
    if expected - received != {} {
      errors := errors + [NeverReceives(file.name, MIGRATE, expected - received)];
    }
    assert tables.migrateAnchors - {} == tables.migrateAnchors;
    forall a, key | a in tables.migrateAnchors && a in file.anchors && key in file.anchors[a] && key in fields
      ensures key in expected
    {
      assert key in FieldsOf(fields, file.anchors[a]);
    }
  }

  /** `_coverage_errors`. */
  method CoverageErrors(tables: Tables, file: ComposeFile, fields: Fields) returns (errors: seq<Error>)
    ensures errors == [] <==> Covers(tables, file, fields)
  {
    errors := [];
    var todo := tables.exclusions.Keys;
    while todo != {}
      invariant todo <= tables.exclusions.Keys
      invariant errors == [] <==>
        forall service :: service in tables.exclusions && service !in todo ==>
          ServiceCovered(tables, file, fields, service)
    {
      var service :| service in todo;
      todo := todo - {service};
      var more := ServiceCoverageErrors(tables, file, fields, service);
      errors := errors + more;
    }
    var more := MigrateCoverageErrors(tables, file, fields);
    errors := errors + more;
  }

  ghost predicate EntriesFine(c: Conversions, tables: Tables, fields: Fields, blank: set<string>,
                              service: string, environment: Environment) {
    forall key :: key in environment ==> Verdict(c, tables, fields, blank, service, key, environment[key]).None?
  }

  /** Some service sets the field explicitly and the tables list it. */
  predicate SetsExplicitly(tables: Tables, fields: Fields, service: string, environment: Environment, listed: string) {
    exists key :: key in environment && key in fields && !environment[key].Bare?
      && ComposeSpecific(tables, service, key)
                  && (listed == key || listed == service + ":" + key)
  }

  /** The entries of one service. `seen` collects what is set explicitly. */
  method EnvironmentErrors(c: Conversions, tables: Tables, file: ComposeFile, fields: Fields, blank: set<string>,
                           service: string) returns (errors: seq<Error>, seen: set<string>)
    ensures errors == [] <==> EntriesFine(c, tables, fields, blank, service, EnvironmentOf(file, service))
    ensures forall listed :: listed in seen <==>
      SetsExplicitly(tables, fields, service, EnvironmentOf(file, service), listed)
  {
    var environment := EnvironmentOf(file, service);
    errors, seen := [], {};
    var todo := environment.Keys;
    while todo != {}
      invariant todo <= environment.Keys
      invariant errors == [] <==> forall key :: key in environment && key !in todo ==>
        Verdict(c, tables, fields, blank, service, key, environment[key]).None?
      invariant forall listed :: listed in seen <==>
        exists key :: key in environment && key !in todo && key in fields && !environment[key].Bare?
                      && ComposeSpecific(tables, service, key) && (listed == key || listed == service + ":" + key)
    {
      var key :| key in todo;
      todo := todo - {key};
      var problem := Verdict(c, tables, fields, blank, service, key, environment[key]);
      if problem.Some? {
        errors := errors + [Wrong(file.name, service, key, problem.value)];
      }
      if key in fields && !environment[key].Bare? && ComposeSpecific(tables, service, key) {
        seen := seen + {key, service + ":" + key};
      }
    }
  }

  ghost predicate FileFine(c: Conversions, tables: Tables, fields: Fields, blank: set<string>, file: ComposeFile) {
    && Covers(tables, file, fields)
    && forall i :: 0 <= i < |SERVICES| ==>
      EntriesFine(c, tables, fields, blank, SERVICES[i], EnvironmentOf(file, SERVICES[i]))
  }

  predicate FileSets(tables: Tables, fields: Fields, file: ComposeFile, listed: string) {
    exists i :: 0 <= i < |SERVICES|
      && SetsExplicitly(tables, fields, SERVICES[i], EnvironmentOf(file, SERVICES[i]), listed)
  }

  method FileErrors(c: Conversions, tables: Tables, file: ComposeFile, fields: Fields, blank: set<string>)
    returns (errors: seq<Error>, seen: set<string>)
    ensures errors == [] <==> FileFine(c, tables, fields, blank, file)
    ensures forall listed :: listed in seen <==> FileSets(tables, fields, file, listed)
  {
    var coverage := CoverageErrors(tables, file, fields);
    errors, seen := coverage, {};
    for i := 0 to |SERVICES|
      invariant errors == [] <==> coverage == [] && forall j :: 0 <= j < i ==>
        EntriesFine(c, tables, fields, blank, SERVICES[j], EnvironmentOf(file, SERVICES[j]))
      invariant forall listed :: listed in seen <==>
        exists j :: 0 <= j < i && SetsExplicitly(tables, fields, SERVICES[j], EnvironmentOf(file, SERVICES[j]), listed)
    {
      var more, explicit := EnvironmentErrors(c, tables, file, fields, blank, SERVICES[i]);
      errors, seen := errors + more, seen + explicit;
    }
  }

  /** The keys the tables name. */
  function Named(tables: Tables): set<string> {
    tables.notInCompose + tables.migrateSettings
    + set service, key | service in tables.exclusions && key in tables.exclusions[service] :: key
  }

  ghost predicate AllFine(c: Conversions, tables: Tables, fields: Fields, blank: set<string>, files: seq<ComposeFile>) {
    forall i :: 0 <= i < |files| ==> FileFine(c, tables, fields, blank, files[i])
  }

  predicate SomeFileSets(tables: Tables, fields: Fields, files: seq<ComposeFile>, listed: string) {
    exists i :: 0 <= i < |files| && FileSets(tables, fields, files[i], listed)
  }

  ghost predicate Passes(c: Conversions, tables: Tables, fields: Fields, blank: set<string>, files: seq<ComposeFile>) {
    && AllFine(c, tables, fields, blank, files)
    && (forall listed :: listed in tables.specific ==> SomeFileSets(tables, fields, files, listed))
    && Named(tables) <= fields.Keys
  }

  lemma AllFineStep(c: Conversions, tables: Tables, fields: Fields, blank: set<string>, files: seq<ComposeFile>, i: nat)
    requires i < |files|
    ensures AllFine(c, tables, fields, blank, files[..i + 1]) <==>
      AllFine(c, tables, fields, blank, files[..i]) && FileFine(c, tables, fields, blank, files[i])
  {
    assert files[..i + 1] == files[..i] + [files[i]];
    if AllFine(c, tables, fields, blank, files[..i + 1]) {
      assert files[..i + 1][i] == files[i];
      forall j | 0 <= j < i ensures FileFine(c, tables, fields, blank, files[..i][j]) {
        assert files[..i + 1][j] == files[j];
      }
    }
  }

  lemma SetsStep(tables: Tables, fields: Fields, files: seq<ComposeFile>, i: nat)
    requires i < |files|
    ensures forall listed :: SomeFileSets(tables, fields, files[..i + 1], listed) <==>
      SomeFileSets(tables, fields, files[..i], listed) || FileSets(tables, fields, files[i], listed)
  {
    assert files[..i + 1] == files[..i] + [files[i]];
    forall listed | SomeFileSets(tables, fields, files[..i], listed)
      ensures SomeFileSets(tables, fields, files[..i + 1], listed)
    {
      var j :| 0 <= j < i && FileSets(tables, fields, files[..i][j], listed);
      assert files[..i + 1][j] == files[j];
    }
    forall listed | FileSets(tables, fields, files[i], listed)
      ensures SomeFileSets(tables, fields, files[..i + 1], listed)
    {
      assert files[..i + 1][i] == files[i];
    }
  }

  /** What the files before `i` were found to hold. */
  ghost predicate Found(c: Conversions, tables: Tables, fields: Fields, blank: set<string>, files: seq<ComposeFile>,
                        errors: seq<Error>, seen: set<string>) {
    && (errors == [] <==> AllFine(c, tables, fields, blank, files))
    && forall listed :: listed in seen <==> SomeFileSets(tables, fields, files, listed)
  }

  lemma FoundStep(c: Conversions, tables: Tables, fields: Fields, blank: set<string>, files: seq<ComposeFile>, i: nat,
                  errors: seq<Error>, seen: set<string>, more: seq<Error>, explicit: set<string>)
    requires i < |files| && Found(c, tables, fields, blank, files[..i], errors, seen)
    requires more == [] <==> FileFine(c, tables, fields, blank, files[i])
    requires forall listed :: listed in explicit <==> FileSets(tables, fields, files[i], listed)
    ensures Found(c, tables, fields, blank, files[..i + 1], errors + more, seen + explicit)
  {
    AllFineStep(c, tables, fields, blank, files, i);
    SetsStep(tables, fields, files, i);
    forall listed
      ensures listed in seen + explicit <==> SomeFileSets(tables, fields, files[..i + 1], listed)
    {
      assert SomeFileSets(tables, fields, files[..i + 1], listed) <==>
        SomeFileSets(tables, fields, files[..i], listed) || FileSets(tables, fields, files[i], listed);
    }
  }

  method FilesErrors(c: Conversions, tables: Tables, files: seq<ComposeFile>, fields: Fields, blank: set<string>)
    returns (errors: seq<Error>, seen: set<string>)
    ensures Found(c, tables, fields, blank, files, errors, seen)
  {
    errors, seen := [], {};
    for i := 0 to |files|
      invariant Found(c, tables, fields, blank, files[..i], errors, seen)
    {
      var more, explicit := FileErrors(c, tables, files[i], fields, blank);
      FoundStep(c, tables, fields, blank, files, i, errors, seen, more, explicit);
      errors, seen := errors + more, seen + explicit;
    }
    assert files[..|files|] == files;
  }

  /** `compose_settings_errors`. */
  method ComposeSettingsErrors(c: Conversions, tables: Tables, files: seq<ComposeFile>, fields: Fields,
                               blank: set<string>)
    returns (errors: seq<Error>)
    ensures errors == [] <==> Passes(c, tables, fields, blank, files)
  {
    var seen;
    errors, seen := FilesErrors(c, tables, files, fields, blank);
    var unused := Reports(tables.specific - seen, false);
    var unknown := Reports(Named(tables) - fields.Keys, true);
    SubsetIff(tables.specific, seen);
    SubsetIff(Named(tables), fields.Keys);
    errors := errors + unused + unknown;
  }

  method Reports(names: set<string>, fields: bool) returns (errors: seq<Error>)
    ensures errors == [] <==> names == {}
    ensures forall e :: e in errors <==>
      exists n :: n in names && e == if fields then NoSuchField(n) else UnusedSpecific(n)
  {
    errors := [];
    var todo := names;
    while todo != {}
      invariant todo <= names
      invariant errors == [] <==> names - todo == {}
      invariant forall e :: e in errors <==>
        exists n :: n in names - todo && e == if fields then NoSuchField(n) else UnusedSpecific(n)
    {
      var n :| n in todo;
      todo := todo - {n};
      assert n in names - todo;
      errors := errors + [if fields then NoSuchField(n) else UnusedSpecific(n)];
    }
    assert names - {} == names;
  }

  // ---- what a service sees --------------------------------------------------------------------

  type HostEnvironment = map<string, string>

  /** What Compose puts into the container, by section "Interpolation" of the Compose Specification:
      a bare key is passed on if the host sets it, `:-` falls back on an unset or empty variable.
      Other values are left open. */
  function Delivered(host: HostEnvironment, key: string, entry: Entry, explicit: string -> string): Option<string> {
    match entry
    case Bare => if key in host then Some(host[key]) else None
    case Host(k) => Some(if k in host then host[k] else "")
    case HostOr(k, fallback) => Some(if k in host && host[k] != "" then host[k] else fallback)
    case Explicit(text) => Some(explicit(text))
  }

  datatype Setting = Held(default: Default) | Parsed(text: string) | Invalid

  /** A field reads a value by the kind of its default. */
  function Read(c: Conversions, default: Default, text: string): Setting {
    match default
    case Flag(_) =>
      var word := c.lower(c.strip(text));
      if word in TRUE then Held(Flag(true)) else if word in FALSE then Held(Flag(false)) else Invalid
    case Number(_) => var n := c.integer(text); if n.Some? then Held(Number(n.value)) else Invalid
    case Text(_) => Held(Text(text))
    case _ => Parsed(text)
  }

  /** What Settings holds: the default for an absent variable, and for a blank one where the field says so. */
  function Sees(c: Conversions, default: Default, blankNormalized: bool, variable: Option<string>): Setting {
    match variable
    case None => Held(default)
    case Some(text) => if blankNormalized && c.strip(text) == "" then Held(default) else Read(c, default, text)
  }

  predicate Unset(host: HostEnvironment, key: string) {
    key !in host || host[key] == ""
  }

  /** On every host: the default when the variable is unset or empty, the host's value otherwise. */
  ghost predicate Honest(c: Conversions, default: Default, blankNormalized: bool, key: string, entry: Entry,
                         explicit: string -> string) {
    forall host: HostEnvironment ::
      var variable := Delivered(host, key, entry, explicit);
      if Unset(host, key) then Sees(c, default, blankNormalized, variable) == Held(default)
      else variable == Some(host[key])
  }

  lemma WordsApart()
    ensures TRUE !! FALSE && "" !in TRUE && "" !in FALSE
  {
    assert |"true"| == 4 && |"yes"| == 3 && |"on"| == 2 && |"false"| == 5 && |"no"| == 2 && |"off"| == 3;
    assert "1"[0] == '1' && "0"[0] == '0' && "t"[0] == 't' && "f"[0] == 'f' && "y"[0] == 'y' && "n"[0] == 'n';
    assert "on"[0] == 'o' && "no"[0] == 'n' && "yes"[0] == 'y' && "off"[0] == 'o';
  }

  /** A fallback the gate takes for the default is read as the default. */
  lemma ReadsAsDefault(c: Conversions, raw: string, default: Default)
    ensures ParsesToDefault(c, raw, default) ==> Read(c, default, raw) == Held(default)
    ensures (default.Flag? || default.Number? || default.Text?) && Read(c, default, raw) == Held(default) ==>
      ParsesToDefault(c, raw, default)
  {
    WordsApart();
  }

  /** The exception is listed, for every service or for this one. */
  predicate ListedFor(tables: Tables, service: string, key: string) {
    key in tables.specific || (service + (":" + key)) in tables.specific
  }

  /** What is accepted: a bare entry of a field whose empty value Settings can take; an explicit one
      that is listed or has no field; the host's value for a required field; and a fallback that
      Settings reads as the literal default. */
  lemma AcceptedIff(c: Conversions, tables: Tables, fields: Fields, blank: set<string>, service: string, key: string,
                    entry: Entry)
    ensures Verdict(c, tables, fields, blank, service, key, entry).None? <==>
      match entry
      case Bare =>
        && key in fields && !ListedFor(tables, service, key)
        && (key in blank || fields[key].Nothing? || fields[key].Required? || fields[key] == Text(""))
      case Host(k) => key !in fields || ListedFor(tables, service, key) || (fields[key].Required? && k == key)
      case HostOr(k, fallback) =>
        || key !in fields || ListedFor(tables, service, key)
        || (k == key && fallback != "" && Read(c, fields[key], fallback) == Held(fields[key]))
      case Explicit(_) => key !in fields || ListedFor(tables, service, key)
  {
    assert service + ":" + key == service + (":" + key);
    if entry.HostOr? && key in fields {
      ReadsAsDefault(c, entry.fallback, fields[key]);
    }
  }

  /** An entry the gate accepts for a field with a default is honest. */
  lemma EntryHonest(c: Conversions, tables: Tables, fields: Fields, blank: set<string>, service: string, key: string,
                    entry: Entry, explicit: string -> string)
    requires c.strip("") == "" && key in fields && !ComposeSpecific(tables, service, key)
    requires !fields[key].Nothing? && !fields[key].Required?
    requires Verdict(c, tables, fields, blank, service, key, entry).None?
    ensures Honest(c, fields[key], key in blank, key, entry, explicit)
  {
    if entry.HostOr? {
      ReadsAsDefault(c, entry.fallback, fields[key]);
    }
  }

  /** For a literal flag, number or text the gate refuses a bare entry, or one that falls back to a
      non-empty value, only when some host makes Settings hold something else. */
  lemma EntryRefusedRightly(c: Conversions, tables: Tables, fields: Fields, blank: set<string>, service: string,
                            key: string, entry: Entry, explicit: string -> string)
    requires c.strip("") == "" && c.lower("") == "" && c.integer("") == None
    requires key in fields && !ComposeSpecific(tables, service, key)
    requires fields[key].Flag? || fields[key].Number? || fields[key].Text?
    requires entry.Bare? || (entry.HostOr? && entry.key == key && c.strip(entry.fallback) != "")
    ensures Verdict(c, tables, fields, blank, service, key, entry).None? <==>
      Honest(c, fields[key], key in blank, key, entry, explicit)
  {
    if Honest(c, fields[key], key in blank, key, entry, explicit) {
      WordsApart();
      var host: HostEnvironment := map[key := ""];
      assert Unset(host, key);
      assert Sees(c, fields[key], key in blank, Delivered(host, key, entry, explicit)) == Held(fields[key]);
      if entry.HostOr? {
        ReadsAsDefault(c, entry.fallback, fields[key]);
      }
    }
    if Verdict(c, tables, fields, blank, service, key, entry).None? {
      EntryHonest(c, tables, fields, blank, service, key, entry, explicit);
    }
  }

  /** The gate is sound: in every listed file and service, every field that is not exempt and has a
      default other than `None` is honest on every host. */
  lemma GateSound(c: Conversions, tables: Tables, fields: Fields, blank: set<string>, files: seq<ComposeFile>,
                  i: nat, j: nat, key: string, explicit: string -> string)
    requires c.strip("") == "" && Passes(c, tables, fields, blank, files) && i < |files| && j < |SERVICES|
    requires key in EnvironmentOf(files[i], SERVICES[j]) && key in fields && !ComposeSpecific(tables, SERVICES[j], key)
    requires !fields[key].Nothing? && !fields[key].Required?
    ensures Honest(c, fields[key], key in blank, key, EnvironmentOf(files[i], SERVICES[j])[key], explicit)
  {
    assert FileFine(c, tables, fields, blank, files[i]);
    EntryHonest(c, tables, fields, blank, SERVICES[j], key, EnvironmentOf(files[i], SERVICES[j])[key], explicit);
  }

  /** Whatever its default, a field that is not exempt gets the value the host sets. */
  lemma HostValueArrives(c: Conversions, tables: Tables, fields: Fields, blank: set<string>, files: seq<ComposeFile>,
                         i: nat, j: nat, key: string, explicit: string -> string, host: HostEnvironment)
    requires Passes(c, tables, fields, blank, files) && i < |files| && j < |SERVICES|
    requires key in EnvironmentOf(files[i], SERVICES[j]) && key in fields && !ComposeSpecific(tables, SERVICES[j], key)
    requires !Unset(host, key)
    ensures Delivered(host, key, EnvironmentOf(files[i], SERVICES[j])[key], explicit) == Some(host[key])
  {
    assert FileFine(c, tables, fields, blank, files[i]);
    assert EntriesFine(c, tables, fields, blank, SERVICES[j], EnvironmentOf(files[i], SERVICES[j]));
  }

  /** A service with a row of exclusions lists exactly the fields it must, and no excluded one. */
  lemma FieldsDelivered(c: Conversions, tables: Tables, fields: Fields, blank: set<string>, files: seq<ComposeFile>,
                        i: nat, service: string, key: string)
    requires Passes(c, tables, fields, blank, files) && i < |files| && service in tables.exclusions
    requires key in fields && key !in tables.notInCompose
    ensures key in EnvironmentOf(files[i], service) <==> key !in tables.exclusions[service]
  {
    assert FileFine(c, tables, fields, blank, files[i]);
    assert ServiceCovered(tables, files[i], fields, service);
  }
}
