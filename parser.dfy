/** Choosing a parser for a file (parser/parser.go: New, NewFromPath,
    FileSupported) and combining parsed configurations into one input
    (CombineConfigurations). The parsers themselves are outside the model;
    a parser is named by its kind. */
module Parser {
  import opened Wrappers
  import opened Strs
  import opened Values

  datatype Kind =
    | CUE | CYCLONEDX | Dockerfile | EDN | HCL1 | HCL2 | HOCON | IGNORE | INI
    | JSON | JSONC | JSONNET | PROPERTIES | SPDX | TEXTPROTO | TOML | VCL | XML
    | YAML | DOTENV

  /** The names of the parsers as the `--parser` flag spells them. */
  function KindName(k: Kind): string {
    match k
    case CUE => "cue"
    case CYCLONEDX => "cyclonedx"
    case Dockerfile => "dockerfile"
    case EDN => "edn"
    case HCL1 => "hcl1"
    case HCL2 => "hcl2"
    case HOCON => "hocon"
    case IGNORE => "ignore"
    case INI => "ini"
    case JSON => "json"
    case JSONC => "jsonc"
    case JSONNET => "jsonnet"
    case PROPERTIES => "properties"
    case SPDX => "spdx"
    case TEXTPROTO => "textproto"
    case TOML => "toml"
    case VCL => "vcl"
    case XML => "xml"
    case YAML => "yaml"
    case DOTENV => "dotenv"
  }

  /** New: the parser with the given name, or "unknown parser: <name>". */
  function New(name: string): (r: Outcome<Kind>)
    ensures r.Ok? ==> KindName(r.value) == name
    ensures r.Fail? ==> r.error == "unknown parser: " + name
  {
    if name == "toml" then Ok(TOML)
    else if name == "cue" then Ok(CUE)
    else if name == "ini" then Ok(INI)
    else if name == "hocon" then Ok(HOCON)
    else if name == "hcl1" then Ok(HCL1)
    else if name == "hcl2" then Ok(HCL2)
    else if name == "dockerfile" then Ok(Dockerfile)
    else if name == "yaml" then Ok(YAML)
    else if name == "json" then Ok(JSON)
    else if name == "jsonc" then Ok(JSONC)
    else if name == "jsonnet" then Ok(JSONNET)
    else if name == "edn" then Ok(EDN)
    else if name == "vcl" then Ok(VCL)
    else if name == "xml" then Ok(XML)
    else if name == "ignore" then Ok(IGNORE)
    else if name == "properties" then Ok(PROPERTIES)
    else if name == "spdx" then Ok(SPDX)
    else if name == "cyclonedx" then Ok(CYCLONEDX)
    else if name == "dotenv" then Ok(DOTENV)
    else if name == "textproto" then Ok(TEXTPROTO)
    else Fail("unknown parser: " + name)
  }

  /** Every parser is reached by its own name. */
  lemma NewKnowsEveryKind(k: Kind)
    ensures New(KindName(k)) == Ok(k)
  {
  }

  // ---- path/filepath --------------------------------------------------

  /** The path without its trailing slashes. */
  function TrimTrailingSlashes(path: string): (r: string)
    ensures HasPrefix(path, r) && (|r| == 0 || r[|r| - 1] != '/')
  {
    if |path| == 0 || path[|path| - 1] != '/' then path
    else
      var r := TrimTrailingSlashes(path[..|path| - 1]);
      assert path[..|path| - 1][..|r|] == path[..|r|];
      r
  }

  /** filepath.Base with '/' as the separator: the last element after
      trailing slashes are removed; "." for the empty path and "/" for a
      path of slashes only. */
  function Base(path: string): string {
    if path == "" then "."
    else
      var trimmed := TrimTrailingSlashes(path);
      if trimmed == "" then "/" else LastSegment(trimmed, '/')
  }

  /** The suffix of `s` starting at its last '.', or "" when it has none. */
  function DotSuffix(s: string): (r: string)
    ensures r == "" <==> '.' !in s
    ensures r != "" ==> r[0] == '.' && HasSuffix(s, r) && '.' !in r[1..]
  {
    if |s| == 0 then ""
    else if s[|s| - 1] == '.' then "."
    else
      var init := s[..|s| - 1];
      var r := DotSuffix(init);
      assert s == init + [s[|s| - 1]];
      if r == "" then "" else
        assert (r + [s[|s| - 1]])[1..] == r[1..] + [s[|s| - 1]];
        assert s[|s| - |r| - 1..] == init[|init| - |r|..] + [s[|s| - 1]];
        r + [s[|s| - 1]]
  }

  /** filepath.Ext: the suffix from the last '.' of the last element, or "". */
  function Ext(path: string): (r: string)
    ensures r != "" ==> r[0] == '.' && '.' !in r[1..] && '/' !in r
  {
    var last := LastSegment(path, '/');
    LastSegmentFacts(path, '/');
    var r := DotSuffix(last);
    assert r != "" ==> r == last[|last| - |r|..];
    r
  }

  /** The extension NewFromPath matches on: lowercased, without its dot,
      and "yml" for a path without one. */
  function FileExtension(path: string): string {
    var ext := Ext(path);
    if |ext| > 0 then ToLower(ext[1..]) else "yml"
  }

  predicate IsDockerfileName(fileName: string, ext: string) {
    fileName == "dockerfile" || HasPrefix(fileName, "dockerfile.") || ext == "dockerfile"
  }

  predicate IsDotenvName(fileName: string, ext: string) {
    fileName == ".env" || HasPrefix(fileName, ".env.") || ext == "env"
  }

  /** The extensions of the text protocol buffer format. */
  const TextProtoFileExtensions: seq<string> := ["textproto", "textpb"]

  /** The rules of NewFromPath after standard input, on the lowercased
      base name and the extension. A fixed parser name is written as the
      kind New gives for it (NewKnowsEveryKind). */
  function ChooseParser(fileName: string, ext: string): Outcome<Kind> {
    if IsDockerfileName(fileName, ext) then Ok(Dockerfile)
    else if ext == "yml" || ext == "yaml" then Ok(YAML)
    else if ext == "hcl" || ext == "tf" || ext == "tfvars" then Ok(HCL2)
    else if ext == "gitignore" || ext == "dockerignore" then Ok(IGNORE)
    else if IsDotenvName(fileName, ext) then Ok(DOTENV)
    else if ext in TextProtoFileExtensions then Ok(TEXTPROTO)
    else
      match New(ext)
      case Fail(e) => Fail("new: " + e)
      case Ok(k) => Ok(k)
  }

  /** NewFromPath. */
  function NewFromPath(path: string): Outcome<Kind> {
    if path == "-" then Ok(YAML)
    else ChooseParser(ToLower(Base(path)), FileExtension(path))
  }

  /** FileSupported. */
  predicate FileSupported(path: string) {
    NewFromPath(path).Ok?
  }

  /** Standard input is read as YAML. */
  lemma StdinIsYaml()
    ensures NewFromPath("-") == Ok(YAML)
  {
  }

  /** A path without an extension is read as YAML unless its name makes it
      a Dockerfile. */
  lemma NoExtensionIsYaml(path: string)
    requires path != "-" && Ext(path) == ""
    requires !IsDockerfileName(ToLower(Base(path)), "yml")
    ensures NewFromPath(path) == Ok(YAML)
  {
  }

  /** The order of the rules: the Dockerfile rule comes before every
      extension; then YAML, HCL2, ignore files, dotenv and text protocol
      buffers; any other extension must name a parser. */
  lemma ChooseParserRules(fileName: string, ext: string)
    ensures IsDockerfileName(fileName, ext) ==> ChooseParser(fileName, ext) == Ok(Dockerfile)
    ensures !IsDockerfileName(fileName, ext) ==>
      (ext in {"yml", "yaml"} ==> ChooseParser(fileName, ext) == Ok(YAML))
      && (ext in {"hcl", "tf", "tfvars"} ==> ChooseParser(fileName, ext) == Ok(HCL2))
      && (ext in {"gitignore", "dockerignore"} ==> ChooseParser(fileName, ext) == Ok(IGNORE))
    ensures !IsDockerfileName(fileName, ext) && ext !in {"yml", "yaml", "hcl", "tf", "tfvars", "gitignore", "dockerignore"} ==>
      (IsDotenvName(fileName, ext) ==> ChooseParser(fileName, ext) == Ok(DOTENV))
      && (!IsDotenvName(fileName, ext) && ext in {"textproto", "textpb"} ==> ChooseParser(fileName, ext) == Ok(TEXTPROTO))
      && (!IsDotenvName(fileName, ext) && ext !in {"textproto", "textpb"} ==>
            ChooseParser(fileName, ext) == (if New(ext).Ok? then New(ext) else Fail("new: unknown parser: " + ext)))
  {
    if !IsDockerfileName(fileName, ext) && ext !in {"yml", "yaml", "hcl", "tf", "tfvars", "gitignore", "dockerignore"} {
      LaterRules(fileName, ext);
    }
  }

  /** The rules after the fixed extensions: dotenv, text protocol buffers,
      then the extension as a parser name. */
  lemma LaterRules(fileName: string, ext: string)
    requires !IsDockerfileName(fileName, ext)
    requires ext !in {"yml", "yaml", "hcl", "tf", "tfvars", "gitignore", "dockerignore"}
    ensures IsDotenvName(fileName, ext) ==> ChooseParser(fileName, ext) == Ok(DOTENV)
    ensures !IsDotenvName(fileName, ext) && ext in {"textproto", "textpb"} ==> ChooseParser(fileName, ext) == Ok(TEXTPROTO)
    ensures !IsDotenvName(fileName, ext) && ext !in {"textproto", "textpb"} ==>
      ChooseParser(fileName, ext) == (if New(ext).Ok? then New(ext) else Fail("new: unknown parser: " + ext))
  {
    if !IsDotenvName(fileName, ext) && ext !in {"textproto", "textpb"} {
      NewRule(fileName, ext);
    }
  }

  /** Past every other rule, the extension must name a parser. */
  lemma NewRule(fileName: string, ext: string)
    requires !IsDockerfileName(fileName, ext) && !IsDotenvName(fileName, ext)
    requires ext !in {"yml", "yaml", "hcl", "tf", "tfvars", "gitignore", "dockerignore", "textproto", "textpb"}
    ensures ChooseParser(fileName, ext) == (if New(ext).Ok? then New(ext) else Fail("new: unknown parser: " + ext))
  {
    assert ext !in TextProtoFileExtensions;
    assert "new: " + ("unknown parser: " + ext) == "new: unknown parser: " + ext;
  }

  /** The names of all parsers. */
  const KindNames: set<string> := {
    "cue", "cyclonedx", "dockerfile", "edn", "hcl1", "hcl2", "hocon", "ignore", "ini", "json",
    "jsonc", "jsonnet", "properties", "spdx", "textproto", "toml", "vcl", "xml", "yaml", "dotenv"}

  /** New succeeds exactly on the names of the parsers. */
  lemma NewIff(name: string)
    ensures New(name).Ok? <==> name in KindNames
  {
    if New(name).Ok? {
      assert KindName(New(name).value) == name;
    }
  }

  /** The extensions that need no special file name. */
  const KnownExtensions: set<string> :=
    KindNames + {"yml", "tf", "tfvars", "hcl", "gitignore", "dockerignore", "env", "textpb"}

  /** Outside standard input, Dockerfiles and dotenv files, a path is
      supported exactly when its extension is a known one. */
  lemma FileSupportedIff(path: string)
    ensures FileSupported(path) <==>
      path == "-" || IsDockerfileName(ToLower(Base(path)), FileExtension(path))
      || IsDotenvName(ToLower(Base(path)), FileExtension(path))
      || FileExtension(path) in KnownExtensions
  {
    if path != "-" {
      ChosenIff(ToLower(Base(path)), FileExtension(path));
    }
  }

  /** A name and extension get a parser exactly when the name is a
      Dockerfile or dotenv name or the extension is a known one. */
  lemma ChosenIff(fileName: string, ext: string)
    ensures ChooseParser(fileName, ext).Ok? <==>
      IsDockerfileName(fileName, ext) || IsDotenvName(fileName, ext) || ext in KnownExtensions
  {
    if IsDockerfileName(fileName, ext) {
    } else if ext in {"yml", "yaml", "hcl", "tf", "tfvars", "gitignore", "dockerignore"} {
      assert ext in KnownExtensions;
    } else if IsDotenvName(fileName, ext) {
      LaterRules(fileName, ext);
    } else {
      OtherExtensionIff(fileName, ext);
    }
  }

  /** Past the name rules and the fixed extensions, a parser is found
      exactly for a known extension. */
  lemma OtherExtensionIff(fileName: string, ext: string)
    requires !IsDockerfileName(fileName, ext) && !IsDotenvName(fileName, ext)
    requires ext !in {"yml", "yaml", "hcl", "tf", "tfvars", "gitignore", "dockerignore"}
    ensures ChooseParser(fileName, ext).Ok? <==> ext in KnownExtensions
  {
    LaterRules(fileName, ext);
    NewIff(ext);
    assert ext in KnownExtensions <==> ext in KindNames || ext == "textpb";
  }

  /** The extension is taken from the last element only. */
  lemma ExtIgnoresDirectory(dir: string, name: string)
    requires '/' !in name
    ensures Ext(dir + "/" + name) == Ext(name)
  {
    LastSegmentAfterSeparator(dir, '/');
    assert dir + "/" == dir + ['/'];
    LastSegmentAppend(dir + "/", name, '/');
    LastSegmentNoSep(name, '/');
    assert LastSegment(dir + "/" + name, '/') == name;
    assert Ext(dir + "/" + name) == DotSuffix(name);
  }

  // ---- CombineConfigurations --------------------------------------------------

  /** One element of the combined input: a path and one document of it. */
  datatype Entry = Entry(path: string, contents: Value)

  /** Go's `<` on strings: lexicographic order of the characters. */
  predicate Less(a: string, b: string)
    decreases |a|
  {
    |b| > 0 && (|a| == 0 || a[0] < b[0] || (a[0] == b[0] && Less(a[1..], b[1..])))
  }

  lemma {:induction false} LessIrreflexive(a: string)
    ensures !Less(a, a)
    decreases |a|
  {
    if |a| > 0 { LessIrreflexive(a[1..]); }
  }

  lemma {:induction false} LessTransitive(a: string, b: string, c: string)
    requires Less(a, b) && Less(b, c)
    ensures Less(a, c)
    decreases |a|
  {
    if |a| > 0 && a[0] == b[0] && b[0] == c[0] {
      LessTransitive(a[1..], b[1..], c[1..]);
    }
  }

  lemma {:induction false} LessTotal(a: string, b: string)
    ensures a == b || Less(a, b) || Less(b, a)
    decreases |a|
  {
    if |a| > 0 && |b| > 0 && a[0] == b[0] {
      LessTotal(a[1..], b[1..]);
      if a[1..] == b[1..] {
        assert a == [a[0]] + a[1..] && b == [b[0]] + b[1..];
      }
    }
  }

  /** The non-strict order is transitive. */
  lemma NotLessTransitive(a: string, b: string, c: string)
    requires !Less(b, a) && !Less(c, b)
    ensures !Less(c, a)
  {
    LessTotal(b, c);
    if Less(c, a) {
      if b != c {
        LessTransitive(b, c, a);
      }
    }
  }

  lemma LessAsymmetric(a: string, b: string)
    requires Less(a, b)
    ensures !Less(b, a)
  {
    if Less(b, a) {
      LessTransitive(a, b, a);
      LessIrreflexive(a);
    }
  }

  /** Sorted by path, as sort.Slice with `Path <` leaves the entries. */
  predicate Sorted(entries: seq<Entry>) {
    forall i, j :: 0 <= i < j < |entries| ==> !Less(entries[j].path, entries[i].path)
  }

  /** Inserting one entry before the first entry whose path is not smaller. */
  function Insert(sorted: seq<Entry>, e: Entry): (r: seq<Entry>)
    ensures multiset(r) == multiset(sorted) + multiset{e}
  {
    if |sorted| == 0 || !Less(sorted[0].path, e.path) then [e] + sorted
    else
      assert sorted == [sorted[0]] + sorted[1..];
      [sorted[0]] + Insert(sorted[1..], e)
  }

  lemma {:induction false} InsertSorted(sorted: seq<Entry>, e: Entry)
    requires Sorted(sorted)
    ensures Sorted(Insert(sorted, e))
    decreases |sorted|, 1
  {
    if |sorted| == 0 || !Less(sorted[0].path, e.path) {
      InsertFrontSorted(sorted, e);
    } else {
      InsertBehindSorted(sorted, e);
    }
  }

  /** An entry that goes first keeps the order. */
  lemma InsertFrontSorted(sorted: seq<Entry>, e: Entry)
    requires Sorted(sorted)
    requires |sorted| == 0 || !Less(sorted[0].path, e.path)
    ensures Sorted(Insert(sorted, e))
  {
    var r := Insert(sorted, e);
    forall i, j | 0 <= i < j < |r| ensures !Less(r[j].path, r[i].path) {
      if i == 0 {
        if j > 1 { NotLessTransitive(e.path, sorted[0].path, sorted[j - 1].path); }
      } else {
        assert r[i] == sorted[i - 1] && r[j] == sorted[j - 1];
      }
    }
  }

  /** An entry that goes after the first one keeps the order. */
  lemma {:induction false} InsertBehindSorted(sorted: seq<Entry>, e: Entry)
    requires Sorted(sorted)
    requires |sorted| > 0 && Less(sorted[0].path, e.path)
    ensures Sorted(Insert(sorted, e))
    decreases |sorted|, 0
  {
    var r := Insert(sorted, e);
    var rest := sorted[1..];
    assert Sorted(rest) by {
      forall i, j | 0 <= i < j < |rest| ensures !Less(rest[j].path, rest[i].path) {
        assert rest[i] == sorted[i + 1] && rest[j] == sorted[j + 1];
      }
    }
    InsertSorted(rest, e);
    var tail := Insert(rest, e);
    InsertAfterFirst(sorted, e);
    forall i, j | 0 <= i < j < |r| ensures !Less(r[j].path, r[i].path) {
      if i == 0 {
        assert r[j] == tail[j - 1];
        assert r[j] in tail;
      } else {
        assert r[i] == tail[i - 1] && r[j] == tail[j - 1];
      }
    }
  }

  /** Nothing inserted behind the first entry sorts before it. */
  lemma InsertAfterFirst(sorted: seq<Entry>, e: Entry)
    requires Sorted(sorted)
    requires |sorted| > 0 && Less(sorted[0].path, e.path)
    ensures forall x | x in Insert(sorted[1..], e) :: !Less(x.path, sorted[0].path)
  {
    var rest, tail := sorted[1..], Insert(sorted[1..], e);
    LessAsymmetric(sorted[0].path, e.path);
    forall x | x in tail ensures !Less(x.path, sorted[0].path) {
      assert x in multiset(tail);
      if x != e {
        assert x in multiset(rest);
        var k :| 0 <= k < |rest| && rest[k] == x;
        assert sorted[k + 1] == x;
      }
    }
  }

  /** The entries of one configuration: one per document of a list of
      documents, or the configuration itself. */
  function EntriesOf(path: string, config: Value): (r: seq<Entry>)
    ensures config.Arr? ==> |r| == |config.items|
    ensures config.Arr? ==> forall i :: 0 <= i < |r| ==> r[i] == Entry(path, config.items[i])
    ensures !config.Arr? ==> r == [Entry(path, config)]
  {
    if config.Arr? then seq(|config.items|, i requires 0 <= i < |config.items| => Entry(path, config.items[i]))
    else [Entry(path, config)]
  }

  /** Every entry of every configuration, in configuration order. */
  function Flatten(configs: seq<(string, Value)>): seq<Entry> {
    if |configs| == 0 then []
    else Flatten(configs[..|configs| - 1]) + EntriesOf(configs[|configs| - 1].0, configs[|configs| - 1].1)
  }

  /** The loop over the documents of one configuration (parser/parser.go:283-290). */
  method AppendDocuments(all: seq<Entry>, path: string, docs: seq<Value>) returns (r: seq<Entry>)
    ensures r == all + EntriesOf(path, Arr(docs))
  {
    r := all;
    var i := 0;
    while i < |docs|
      invariant 0 <= i <= |docs|
      invariant r == all + EntriesOf(path, Arr(docs[..i]))
    {
      assert EntriesOf(path, Arr(docs[..i + 1])) == EntriesOf(path, Arr(docs[..i])) + [Entry(path, docs[i])];
      r := r + [Entry(path, docs[i])];
      i := i + 1;
    }
    assert docs[..|docs|] == docs;
  }

  /** The entries of one configuration appended to those collected so far
      (parser/parser.go:279-295). */
  method AppendEntries(all: seq<Entry>, path: string, config: Value) returns (r: seq<Entry>)
    ensures r == all + EntriesOf(path, config)
  {
    if config.Arr? {
      r := AppendDocuments(all, path, config.items);
      assert config == Arr(config.items);
    } else {
      r := all + [Entry(path, config)];
    }
  }

  /** CombineConfigurations: a single key "Combined" whose value lists every
      document of every configuration, sorted by path. */
  method CombineConfigurations(configs: seq<(string, Value)>) returns (combined: map<string, seq<Entry>>)
    ensures combined.Keys == {"Combined"}
    ensures Sorted(combined["Combined"])
    ensures multiset(combined["Combined"]) == multiset(Flatten(configs))
  {
    var all: seq<Entry> := [];
    var i := 0;
    while i < |configs|
      invariant 0 <= i <= |configs|
      invariant all == Flatten(configs[..i])
    {
      assert configs[..i + 1][..i] == configs[..i];
      all := AppendEntries(all, configs[i].0, configs[i].1);
      i := i + 1;
    }
    assert configs[..|configs|] == configs;
    var sorted := SortByPath(all);
    combined := map["Combined" := sorted];
  }

  /** sort.Slice by path, as an insertion sort over a sequence. */
  method SortByPath(entries: seq<Entry>) returns (sorted: seq<Entry>)
    ensures Sorted(sorted)
    ensures multiset(sorted) == multiset(entries)
  {
    sorted := [];
    var i := 0;
    while i < |entries|
      invariant 0 <= i <= |entries|
      invariant Sorted(sorted)
      invariant multiset(sorted) == multiset(entries[..i])
    {
      InsertSorted(sorted, entries[i]);
      assert entries[..i + 1] == entries[..i] + [entries[i]];
      sorted := Insert(sorted, entries[i]);
      i := i + 1;
    }
    assert entries[..|entries|] == entries;
  }

  /** The combined input holds one entry per plain configuration and one per
      document of a multi-document configuration. */
  lemma {:induction false} FlattenCount(configs: seq<(string, Value)>)
    ensures |Flatten(configs)| == EntryCount(configs)
  {
    if |configs| > 0 {
      FlattenCount(configs[..|configs| - 1]);
    }
  }

  function EntryCount(configs: seq<(string, Value)>): nat {
    if |configs| == 0 then 0
    else
      var c := configs[|configs| - 1].1;
      EntryCount(configs[..|configs| - 1]) + (if c.Arr? then |c.items| else 1)
  }
}
