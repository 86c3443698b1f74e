/** `DataSourceProcessor` (scripts/config_loader.py): turns a data-source
    descriptor into text. Failures to find or read a fixture file are embedded
    in the returned text as bracketed markers; an unknown source type (and a
    descriptor without the `file` key its type needs) is raised to the caller.
    Results are memoised per descriptor.

    The project root's files are a map from relative path to what reading the
    file gives; a path that is not a key does not exist. The shared registry
    (`common-sources.yaml`) is passed in as the outcome of loading it. */
module DataSources {
  import opened Wrappers
  import opened Text

  /** How a `/start/,/end/p` extraction is configured (`extract:`); a key
      missing from the YAML is `None`. */
  datatype ExtractConfig = ExtractConfig(extractMethod: Option<string>, pattern: Option<string>)

  /** A data-source descriptor. `kind` is its `type` field; the type-specific
      keys are optional because the YAML may leave them out. */
  datatype Descriptor = Descriptor(
    id: string,
    kind: string,
    file: Option<string>,
    extract: Option<ExtractConfig>,
    sources: Option<seq<string>>)

  /** What opening and reading an existing file gives. */
  datatype FileResult = ReadFailure(detail: string) | Contents(text: string)

  type Files = map<string, FileResult>

  /** The outcome of `ConfigLoader().load_data_sources()`: the entries under
      `data_sources` (none when the key is absent), or the text of the
      exception it raised. */
  datatype RegistryLoad = Loaded(entries: seq<Descriptor>) | LoadFailed(detail: string)

  datatype Env = Env(files: Files, registry: RegistryLoad)

  /** The exceptions `process_data_source` lets escape. `RecursionLimit`
      stands for Python's RecursionError on too deep a nesting of
      `multi_source` descriptors. */
  datatype Error = UnknownSourceType(kind: string) | MissingKey(key: string) | RecursionLimit

  datatype Outcome = Text(content: string) | Raised(error: Error)

  type Cache = map<Descriptor, string>

  /** `str(e)` for each exception. */
  function ErrorText(e: Error): string
  {
    match e
    case UnknownSourceType(kind) => "Unknown data source type: " + kind
    case MissingKey(key) => "'" + key + "'"
    case RecursionLimit => "maximum recursion depth exceeded"
  }

  function FileNotFound(file: string): string { "[FILE NOT FOUND: " + file + "]" }

  function ReadError(file: string, detail: string): string { "[ERROR READING FILE: " + file + " - " + detail + "]" }

  function ExtractError(file: string, detail: string): string { "[ERROR EXTRACTING FROM FILE: " + file + " - " + detail + "]" }

  const NoSources := "[NO_SOURCES_SPECIFIED]"

  const SourceNotFound := "[SOURCE_NOT_FOUND]"

  function CombineError(detail: string): string { "[ERROR_COMBINING_SOURCES: " + detail + "]" }

  /** One labelled block of a `multi_source` result. */
  function Block(id: string, content: string): string { "=== " + id + " ===\n" + content + "\n" }

  // ---------------------------------------------------------------------------
  // The sed-range extractor

  /** The start and end sub-patterns `_sed_extract` cuts out of a pattern, or
      the text of the exception it raises: a pattern that does not end in
      `/p` or has no `,/`, and also one whose `,/` is only inside the final
      `/p` (then `parts[1]` does not exist). */
  function ParseSedPattern(pattern: string): Result<(string, string), string>
  {
    if EndsWith(pattern, "/p") && Contains(pattern, ",/") then
      var parts := Split(pattern[..|pattern| - 2], ",/");
      if |parts| < 2 then Err("list index out of range")
      else Ok((RStrip(DropFirst(parts[0]), '/'), parts[1]))
    else Err("Unsupported sed pattern: " + pattern)
  }

  /** `x + ","` has no `,/` when `x` has no comma. */
  lemma {:induction false} NoCommaSlash(x: string)
    requires ',' !in x
    ensures !Contains(x + ",", ",/")
  {
    if |x| == 0 {
      ShortDoesNotContain(",", ",/");
    } else {
      var w := x + ",";
      assert w[1..] == x[1..] + ",";
      assert x[1..] <= x[1..] && forall k :: 0 <= k < |x[1..]| ==> x[1..][k] == x[k + 1];
      NoCommaSlash(x[1..]);
      assert w[0] == x[0] && x[0] != ',';
      assert !(",/" <= w);
      assert !Contains(w[1..], ",/");
    }
  }

  /** The `/p` ending and the `,/` of a well-formed range pattern are found. */
  lemma RangePatternShape(x: string, end: string)
    ensures var pattern := x + ",/" + end + "/p";
            EndsWith(pattern, "/p") && Contains(pattern, ",/")
            && pattern[..|pattern| - 2] == x + ",/" + end
  {
    var pattern := x + ",/" + end + "/p";
    assert pattern == x + (",/" + end + "/p");
    assert Contains(",/" + end + "/p", ",/");
    ContainsInSuffix(x, ",/" + end + "/p", ",/");
    assert pattern[|pattern| - 2..] == "/p";
  }

  /** A pattern of the shape `/start/,/end/p`, where the `,/` written after
      `start` is the first one in the pattern, yields `start` without its
      trailing slashes and `end` up to its own first `,/`, if any. */
  lemma RangePatternParses(start: string, end: string)
    requires !Contains("/" + start + "/,", ",/")
    ensures ParseSedPattern("/" + start + "/,/" + end + "/p") == Ok((RStrip(start, '/'), Split(end, ",/")[0]))
  {
    var x := "/" + start + "/";
    var pattern := "/" + start + "/,/" + end + "/p";
    assert pattern == x + ",/" + end + "/p";
    RangePatternShape(x, end);
    RangeSplit(x, end, start);
    var parts := Split(pattern[..|pattern| - 2], ",/");
    assert parts == [x] + Split(end, ",/");
    StartStripped(start);
  }

  /** The pattern body splits at the `,/` written after the start part. */
  lemma RangeSplit(x: string, end: string, start: string)
    requires x == "/" + start + "/" && !Contains("/" + start + "/,", ",/")
    ensures Split(x + ",/" + end, ",/") == [x] + Split(end, ",/")
  {
    assert x + ",/"[..|",/"| - 1] == "/" + start + "/,";
    SplitAtFirst(x, ",/", end);
  }

  /** Dropping the leading `/` and stripping trailing ones leaves `start`
      without its trailing slashes. */
  lemma StartStripped(start: string)
    ensures RStrip(DropFirst("/" + start + "/"), '/') == RStrip(start, '/')
  {
    var x := "/" + start + "/";
    assert DropFirst(x) == start + "/";
    assert (start + "/")[..|start + "/"| - 1] == start;
  }

  /** Without commas in `start`, trailing slashes in it or `,/` in `end`, the
      sub-patterns come back unchanged. */
  lemma PlainRangePatternParses(start: string, end: string)
    requires ',' !in start && !Contains(end, ",/")
    requires |start| == 0 || start[|start| - 1] != '/'
    ensures ParseSedPattern("/" + start + "/,/" + end + "/p") == Ok((start, end))
  {
    var x := "/" + start + "/";
    assert ',' !in x;
    NoCommaSlash(x);
    assert x + "," == "/" + start + "/,";
    RangePatternParses(start, end);
    SplitNone(end, ",/");
  }

  /** The first line at index `from` or later that contains `pat`. */
  function FirstMatch(lines: seq<string>, pat: string, from: nat): (r: Option<nat>)
    requires from <= |lines|
    ensures r.Some? ==> from <= r.value < |lines| && Contains(lines[r.value], pat)
    ensures forall k :: from <= k < (if r.Some? then r.value else |lines|) ==> !Contains(lines[k], pat)
    decreases |lines| - from
  {
    if from == |lines| then None
    else if Contains(lines[from], pat) then Some(from)
    else FirstMatch(lines, pat, from + 1)
  }

  /** A line that contains `pat`, with none before it from `from` on, is the
      first match. */
  lemma FirstMatchAt(lines: seq<string>, pat: string, from: nat, i: nat)
    requires from <= i < |lines| && Contains(lines[i], pat)
    requires forall k :: from <= k < i ==> !Contains(lines[k], pat)
    ensures FirstMatch(lines, pat, from) == Some(i)
  {
  }

  lemma FirstMatchNone(lines: seq<string>, pat: string, from: nat)
    requires from <= |lines|
    requires forall k :: from <= k < |lines| ==> !Contains(lines[k], pat)
    ensures FirstMatch(lines, pat, from) == None
  {
  }

  /** The lines a `/start/,/end/p` range selects: from the first line that
      contains `start` through the first line, at or after it, that contains
      `end`; to the end of the file if no such line follows; nothing if no
      line contains `start`. */
  function SedRange(lines: seq<string>, start: string, end: string): seq<string>
  {
    match FirstMatch(lines, start, 0)
    case None => []
    case Some(i) => RangeFrom(lines, end, i)
  }

  /** The lines from `i` through the first line at or after it that contains
      `end`, or through the last line. */
  function RangeFrom(lines: seq<string>, end: string, i: nat): seq<string>
    requires i <= |lines|
  {
    match FirstMatch(lines, end, i)
    case None => lines[i..]
    case Some(j) => lines[i..j + 1]
  }

  /** What `_sed_extract(lines, pattern)` returns or the text of what it
      raises: the selected lines joined, with trailing newlines stripped. */
  function SedResult(lines: seq<string>, pattern: string): Result<string, string>
  {
    match ParseSedPattern(pattern)
    case Err(e) => Err(e)
    case Ok((start, end)) => Ok(RStrip(Join(SedRange(lines, start, end), ""), '\n'))
  }

  /** `_sed_extract`: one pass over the lines with an `in_range` flag. */
  method SedExtract(lines: seq<string>, pattern: string) returns (r: Result<string, string>)
    ensures r == SedResult(lines, pattern)
  {
    var parsed := ParseSedPattern(pattern);
    if parsed.Err? {
      return Err(parsed.error);
    }
    var (startPat, endPat) := parsed.value;
    var resultLines := SedScan(lines, startPat, endPat);
    return Ok(RStrip(Join(resultLines, ""), '\n'));
  }

  /** The scanning loop of `_sed_extract` from line `i` on, with the
      `in_range` flag and the lines collected so far. */
  function Scan(lines: seq<string>, start: string, end: string, i: nat, inRange: bool, acc: seq<string>): seq<string>
    requires i <= |lines|
    decreases |lines| - i
  {
    if i == |lines| then acc
    else
      var now := inRange || Contains(lines[i], start);
      var acc' := if now then acc + [lines[i]] else acc;
      if now && Contains(lines[i], end) then acc' else Scan(lines, start, end, i + 1, now, acc')
  }

  /** Inside the range the scan appends up to and including the next end
      line, or to the end of the file. */
  lemma {:induction false} ScanInRange(lines: seq<string>, start: string, end: string, i: nat, acc: seq<string>)
    requires i <= |lines|
    ensures Scan(lines, start, end, i, true, acc) == acc + RangeFrom(lines, end, i)
    decreases |lines| - i
  {
    if i < |lines| {
      assert lines[i..] == [lines[i]] + lines[i + 1..];
      if !Contains(lines[i], end) {
        ScanInRange(lines, start, end, i + 1, acc + [lines[i]]);
        match FirstMatch(lines, end, i + 1)
        case None =>
        case Some(j) => assert lines[i..j + 1] == [lines[i]] + lines[i + 1..j + 1];
      }
    }
  }

  /** Before the range the scan finds the first start line, then goes on as
      inside the range. */
  lemma {:induction false} ScanBeforeRange(lines: seq<string>, start: string, end: string, i: nat)
    requires i <= |lines|
    ensures Scan(lines, start, end, i, false, []) ==
            match FirstMatch(lines, start, i)
            case None => []
            case Some(f) => RangeFrom(lines, end, f)
    decreases |lines| - i
  {
    if i < |lines| {
      if Contains(lines[i], start) {
        assert Scan(lines, start, end, i, false, []) == Scan(lines, start, end, i, true, []);
        ScanInRange(lines, start, end, i, []);
        assert [] + RangeFrom(lines, end, i) == RangeFrom(lines, end, i);
      } else {
        ScanBeforeRange(lines, start, end, i + 1);
      }
    }
  }

  /** The loop computes the declarative range. */
  lemma ScanIsSedRange(lines: seq<string>, start: string, end: string)
    ensures Scan(lines, start, end, 0, false, []) == SedRange(lines, start, end)
  {
    ScanBeforeRange(lines, start, end, 0);
  }

  /** The scanning loop of `_sed_extract`, which breaks at the end line. */
  method SedScan(lines: seq<string>, startPat: string, endPat: string) returns (resultLines: seq<string>)
    ensures resultLines == SedRange(lines, startPat, endPat)
  {
    ScanIsSedRange(lines, startPat, endPat);
    resultLines := [];
    var inRange := false;
    var i := 0;
    while i < |lines|
      invariant 0 <= i <= |lines|
      invariant Scan(lines, startPat, endPat, 0, false, []) == Scan(lines, startPat, endPat, i, inRange, resultLines)
    {
      var line := lines[i];
      if !inRange && Contains(line, startPat) {
        inRange := true;
      }
      if inRange {
        resultLines := resultLines + [line];
      }
      if inRange && Contains(line, endPat) {
        break;
      }
      i := i + 1;
    }
  }

  /** The example pattern applied to a small file: start and end lines are
      kept, the line after the end is not, and no newline is left at the end. */
  lemma SedExample()
    ensures SedResult(["a\n", "START\n", "b\n", "END\n", "c\n"], "/START/,/END/p") == Ok("START\nb\nEND")
  {
    var lines := ["a\n", "START\n", "b\n", "END\n", "c\n"];
    MissingChar("END", ",/", 0);
    PlainRangePatternParses("START", "END");
    assert "/" + "START" + "/,/" + "END" + "/p" == "/START/,/END/p";
    SedExampleRange(lines);
    SedExampleText();
  }

  lemma SedExampleText()
    ensures RStrip(Join(["START\n", "b\n", "END\n"], ""), '\n') == "START\nb\nEND"
  {
    var parts := ["START\n", "b\n", "END\n"];
    assert Join(parts[2..], "") == "END\n";
    assert Join(parts[1..], "") == "b\nEND\n";
    assert Join(parts, "") == "START\nb\nEND\n";
    var joined := "START\nb\nEND\n";
    assert joined[..|joined| - 1] == "START\nb\nEND";
  }

  lemma SedExampleRange(lines: seq<string>)
    requires lines == ["a\n", "START\n", "b\n", "END\n", "c\n"]
    ensures SedRange(lines, "START", "END") == ["START\n", "b\n", "END\n"]
  {
    ShortDoesNotContain("a\n", "START");
    assert "START" <= "START\n";
    FirstMatchAt(lines, "START", 0, 1);
    MissingChar("START\n", "END", 0);
    ShortDoesNotContain("b\n", "END");
    assert "END" <= "END\n";
    assert lines[1] == "START\n" && lines[2] == "b\n" && lines[3] == "END\n";
    FirstMatchAt(lines, "END", 1, 3);
    assert lines[1..4] == ["START\n", "b\n", "END\n"];
  }

  // ---------------------------------------------------------------------------
  // The three source types

  /** `_load_file_content`: the whole text of the file, or a marker. */
  function LoadFileContent(files: Files, d: Descriptor): (o: Outcome)
    ensures o.Raised? <==> d.file.None?
    ensures o.Raised? ==> o.error == MissingKey("file")
  {
    match d.file
    case None => Raised(MissingKey("file"))
    case Some(f) =>
      if f !in files then Text(FileNotFound(f))
      else
        match files[f]
        case ReadFailure(detail) => Text(ReadError(f, detail))
        case Contents(text) => Text(text)
  }

  /** What `_extract_file_content` produces once the file has been read:
      the `extract` keys are looked up in the order the code does, and every
      exception is turned into the extraction-error marker. */
  function ExtractFromLines(f: string, lines: seq<string>, extract: Option<ExtractConfig>): string
  {
    match extract
    case None => ExtractError(f, ErrorText(MissingKey("extract")))
    case Some(x) =>
      match x.extractMethod
      case None => ExtractError(f, ErrorText(MissingKey("method")))
      case Some(m) =>
        match x.pattern
        case None => ExtractError(f, ErrorText(MissingKey("pattern")))
        case Some(p) =>
          if m == "sed" then
            match SedResult(lines, p)
            case Ok(s) => s
            case Err(e) => ExtractError(f, e)
          else ExtractError(f, "Unsupported extraction method: " + m)
  }

  /** `_extract_file_content`. */
  function ExtractContent(files: Files, d: Descriptor): (o: Outcome)
    ensures o.Raised? <==> d.file.None?
    ensures o.Raised? ==> o.error == MissingKey("file")
  {
    match d.file
    case None => Raised(MissingKey("file"))
    case Some(f) =>
      if f !in files then Text(FileNotFound(f))
      else
        match files[f]
        case ReadFailure(detail) => Text(ExtractError(f, detail))
        case Contents(text) => Text(ExtractFromLines(f, ReadLines(text), d.extract))
  }

  /** `_extract_file_content`, calling the line-scanning extractor. */
  method ExtractFileContent(files: Files, d: Descriptor) returns (o: Outcome)
    ensures o == ExtractContent(files, d)
  {
    if d.file.None? {
      return Raised(MissingKey("file"));
    }
    var f := d.file.value;
    if f !in files {
      return Text(FileNotFound(f));
    }
    if files[f].ReadFailure? {
      return Text(ExtractError(f, files[f].detail));
    }
    var lines := ReadLines(files[f].text);
    if d.extract.None? {
      return Text(ExtractError(f, ErrorText(MissingKey("extract"))));
    }
    var x := d.extract.value;
    if x.extractMethod.None? {
      return Text(ExtractError(f, ErrorText(MissingKey("method"))));
    }
    if x.pattern.None? {
      return Text(ExtractError(f, ErrorText(MissingKey("pattern"))));
    }
    if x.extractMethod.value == "sed" {
      var r := SedExtract(lines, x.pattern.value);
      if r.Ok? {
        return Text(r.value);
      }
      return Text(ExtractError(f, r.error));
    }
    return Text(ExtractError(f, "Unsupported extraction method: " + x.extractMethod.value));
  }

  /** The index of the first registry entry, at `from` or later, with the
      given id. */
  function FirstWithId(entries: seq<Descriptor>, id: string, from: nat): (r: Option<nat>)
    requires from <= |entries|
    ensures r.Some? ==> from <= r.value < |entries| && entries[r.value].id == id
    ensures forall k :: from <= k < (if r.Some? then r.value else |entries|) ==> entries[k].id != id
    decreases |entries| - from
  {
    if from == |entries| then None
    else if entries[from].id == id then Some(from)
    else FirstWithId(entries, id, from + 1)
  }

  /** The first registry entry with the given id. */
  function Lookup(entries: seq<Descriptor>, id: string): Option<Descriptor>
  {
    match FirstWithId(entries, id, 0)
    case None => None
    case Some(k) => Some(entries[k])
  }

  /** The search loop over the registry in `_combine_multi_sources` and
      `build_prompt`: the first entry whose id matches, if any. */
  method FindById(entries: seq<Descriptor>, id: string) returns (r: Option<Descriptor>)
    ensures r.Some? ==> exists k :: 0 <= k < |entries| && entries[k] == r.value && r.value.id == id
                                    && forall j :: 0 <= j < k ==> entries[j].id != id
    ensures r.None? ==> forall k :: 0 <= k < |entries| ==> entries[k].id != id
    ensures r == Lookup(entries, id)
  {
    var i := 0;
    while i < |entries|
      invariant 0 <= i <= |entries|
      invariant forall k :: 0 <= k < i ==> entries[k].id != id
    {
      if entries[i].id == id {
        assert FirstWithId(entries, id, 0) == Some(i);
        return Some(entries[i]);
      }
      i := i + 1;
    }
    assert FirstWithId(entries, id, 0) == None;
    return None;
  }

  // ---------------------------------------------------------------------------
  // Resolution with the memo cache, as values

  /** `process_data_source` on the cache `cache`: what it returns or raises,
      and the cache afterwards. `fuel` bounds the nesting of `multi_source`
      descriptors. */
  function Resolve(env: Env, cache: Cache, d: Descriptor, fuel: nat): (Outcome, Cache)
    decreases fuel, 2
  {
    if d in cache then (Text(cache[d]), cache)
    else if d.kind == "file_content" then Memo(LoadFileContent(env.files, d), cache, d)
    else if d.kind == "file_extract" then Memo(ExtractContent(env.files, d), cache, d)
    else if d.kind == "multi_source" then
      var (s, c) := Combine(env, cache, d, fuel);
      (Text(s), c[d := s])
    else (Raised(UnknownSourceType(d.kind)), cache)
  }

  /** Stores a successful result under its descriptor. */
  function Memo(o: Outcome, cache: Cache, d: Descriptor): (Outcome, Cache)
  {
    if o.Text? then (o, cache[d := o.content]) else (o, cache)
  }

  /** `_combine_multi_sources` on the cache `cache`. */
  function Combine(env: Env, cache: Cache, d: Descriptor, fuel: nat): (string, Cache)
    decreases fuel, 1
  {
    var ids := if d.sources.Some? then d.sources.value else [];
    if |ids| == 0 then (NoSources, cache)
    else
      match env.registry
      case LoadFailed(detail) => (CombineError(detail), cache)
      case Loaded(entries) =>
        var (r, c) := CombineBlocks(env, entries, cache, ids, [], fuel);
        match r
        case Ok(blocks) => (Join(blocks, "\n"), c)
        case Err(e) => (CombineError(ErrorText(e)), c)
  }

  /** The loop of `_combine_multi_sources` from the id list `ids` onwards,
      `acc` holding the blocks made so far; an exception from a nested
      resolution ends it. */
  function CombineBlocks(env: Env, entries: seq<Descriptor>, cache: Cache, ids: seq<string>,
                         acc: seq<string>, fuel: nat): (Result<seq<string>, Error>, Cache)
    decreases fuel, 0, |ids|
  {
    if |ids| == 0 then (Ok(acc), cache)
    else
      match Lookup(entries, ids[0])
      case None => CombineBlocks(env, entries, cache, ids[1..], acc + [Block(ids[0], SourceNotFound)], fuel)
      case Some(src) =>
        if fuel == 0 then (Err(RecursionLimit), cache)
        else
          var (o, c) := Resolve(env, cache, src, fuel - 1);
          match o
          case Raised(e) => (Err(e), c)
          case Text(s) => CombineBlocks(env, entries, c, ids[1..], acc + [Block(ids[0], s)], fuel)
  }

  /** `c2` holds every entry of `c1`, unchanged. */
  ghost predicate Extends(c1: Cache, c2: Cache)
  {
    forall d :: d in c1 ==> d in c2 && c2[d] == c1[d]
  }

  /** Resolution only adds to the cache; a result that was cached stays. */
  lemma {:induction false} ResolveExtendsCache(env: Env, cache: Cache, d: Descriptor, fuel: nat)
    ensures Extends(cache, Resolve(env, cache, d, fuel).1)
    decreases fuel, 2
  {
    if d !in cache && d.kind == "multi_source" {
      CombineExtendsCache(env, cache, d, fuel);
    }
  }

  lemma {:induction false} CombineExtendsCache(env: Env, cache: Cache, d: Descriptor, fuel: nat)
    ensures Extends(cache, Combine(env, cache, d, fuel).1)
    decreases fuel, 1
  {
    var ids := if d.sources.Some? then d.sources.value else [];
    if |ids| > 0 && env.registry.Loaded? {
      BlocksExtendCache(env, env.registry.entries, cache, ids, [], fuel);
    }
  }

  lemma {:induction false} BlocksExtendCache(env: Env, entries: seq<Descriptor>, cache: Cache,
                                             ids: seq<string>, acc: seq<string>, fuel: nat)
    ensures Extends(cache, CombineBlocks(env, entries, cache, ids, acc, fuel).1)
    decreases fuel, 0, |ids|
  {
    if |ids| > 0 {
      match Lookup(entries, ids[0])
      case None =>
        BlocksExtendCache(env, entries, cache, ids[1..], acc + [Block(ids[0], SourceNotFound)], fuel);
      case Some(src) =>
        if fuel > 0 {
          var (o, c) := Resolve(env, cache, src, fuel - 1);
          ResolveExtendsCache(env, cache, src, fuel - 1);
          if o.Text? {
            BlocksExtendCache(env, entries, c, ids[1..], acc + [Block(ids[0], o.content)], fuel);
          }
        }
    }
  }

  /** What was resolved is cached under its descriptor, and resolving it again
      (with any files, any registry, any nesting bound) gives the identical
      text without touching the cache: no file is read a second time. */
  lemma ResolveMemoises(env: Env, cache: Cache, d: Descriptor, fuel: nat, env': Env, fuel': nat)
    requires Resolve(env, cache, d, fuel).0.Text?
    ensures var (o, c) := Resolve(env, cache, d, fuel);
            d in c && c[d] == o.content && Resolve(env', c, d, fuel') == (o, c)
  {
  }

  /** An unknown source type raises and leaves the cache unchanged. */
  lemma UnknownTypeRaises(env: Env, cache: Cache, d: Descriptor, fuel: nat)
    requires d !in cache
    requires d.kind !in {"file_content", "file_extract", "multi_source"}
    ensures Resolve(env, cache, d, fuel) == (Raised(UnknownSourceType(d.kind)), cache)
  {
  }

  /** A file that does not exist gives the same marker for whole-file and
      extracted sources alike. */
  lemma MissingFileMarker(env: Env, cache: Cache, d: Descriptor, fuel: nat)
    requires d !in cache && d.kind in {"file_content", "file_extract"}
    requires d.file.Some? && d.file.value !in env.files
    ensures Resolve(env, cache, d, fuel).0 == Text("[FILE NOT FOUND: " + d.file.value + "]")
  {
  }

  /** A whole-file source gives the file's full text, which is then cached;
      a file that exists but cannot be read gives the read-error marker. */
  lemma WholeFileRead(env: Env, cache: Cache, d: Descriptor, fuel: nat)
    requires d !in cache && d.kind == "file_content"
    requires d.file.Some? && d.file.value in env.files
    ensures var r := env.files[d.file.value];
            r.Contents? ==> Resolve(env, cache, d, fuel) == (Text(r.text), cache[d := r.text])
    ensures var r := env.files[d.file.value];
            r.ReadFailure? ==> Resolve(env, cache, d, fuel).0
                                 == Text("[ERROR READING FILE: " + d.file.value + " - " + r.detail + "]")
  {
  }

  /** A `multi_source` descriptor with no ids gives the no-sources marker,
      whatever the registry holds. */
  lemma EmptySourcesMarker(env: Env, cache: Cache, d: Descriptor, fuel: nat)
    requires d !in cache && d.kind == "multi_source"
    requires d.sources.None? || d.sources.value == []
    ensures Resolve(env, cache, d, fuel).0 == Text("[NO_SOURCES_SPECIFIED]")
  {
  }

  /** Every way `_extract_file_content` can fail once the file exists ends in
      the extraction-error marker naming the file and the reason: reading
      fails; the `extract`, `method` or `pattern` key is missing (looked up in
      that order); the method is not "sed"; the pattern is not a range
      pattern; or the range pattern's `,/` lies only inside its final `/p`,
      so indexing the second part of the split raises. */
  lemma ExtractionFailureMarkers(files: Files, d: Descriptor)
    requires d.file.Some? && d.file.value in files
    ensures var f := d.file.value;
            files[f].ReadFailure? ==> ExtractContent(files, d) == Text(ExtractError(f, files[f].detail))
    ensures var f := d.file.value;
            files[f].Contents? && d.extract.None? ==> ExtractContent(files, d) == Text(ExtractError(f, "'extract'"))
    ensures var f := d.file.value;
            files[f].Contents? && d.extract.Some? && d.extract.value.extractMethod.None? ==>
              ExtractContent(files, d) == Text(ExtractError(f, "'method'"))
    ensures var f := d.file.value;
            files[f].Contents? && d.extract.Some? && d.extract.value.extractMethod.Some?
            && d.extract.value.pattern.None? ==>
              ExtractContent(files, d) == Text(ExtractError(f, "'pattern'"))
    ensures var f := d.file.value;
            files[f].Contents? && d.extract.Some? && d.extract.value.extractMethod.Some?
            && d.extract.value.pattern.Some? && d.extract.value.extractMethod.value != "sed" ==>
              ExtractContent(files, d)
                == Text(ExtractError(f, "Unsupported extraction method: " + d.extract.value.extractMethod.value))
    ensures var f := d.file.value;
            files[f].Contents? && d.extract.Some? && d.extract.value.extractMethod == Some("sed")
            && d.extract.value.pattern.Some?
            && !(EndsWith(d.extract.value.pattern.value, "/p") && Contains(d.extract.value.pattern.value, ",/")) ==>
              ExtractContent(files, d)
                == Text(ExtractError(f, "Unsupported sed pattern: " + d.extract.value.pattern.value))
    ensures var f := d.file.value;
            files[f].Contents? && d.extract.Some? && d.extract.value.extractMethod == Some("sed")
            && d.extract.value.pattern.Some?
            && (var p := d.extract.value.pattern.value;
                EndsWith(p, "/p") && Contains(p, ",/") && |Split(p[..|p| - 2], ",/")| < 2) ==>
              ExtractContent(files, d) == Text(ExtractError(f, "list index out of range"))
  {
  }

  /** A sed range pattern `/start/,/end/p` on a readable file extracts the
      lines of the file from the first one containing the start text through
      the next one containing the end text, joined, without trailing
      newlines. */
  lemma ExtractionOfRange(files: Files, d: Descriptor, start: string, end: string)
    requires d.file.Some? && d.file.value in files && files[d.file.value].Contents?
    requires d.extract == Some(ExtractConfig(Some("sed"), Some("/" + start + "/,/" + end + "/p")))
    requires !Contains("/" + start + "/,", ",/")
    ensures ExtractContent(files, d)
            == Text(RStrip(Join(SedRange(ReadLines(files[d.file.value].text), RStrip(start, '/'), Split(end, ",/")[0]), ""), '\n'))
  {
    RangePatternParses(start, end);
  }

  /** `b` is a labelled block for `id`. */
  ghost predicate BlockOf(b: string, id: string)
  {
    exists content :: b == Block(id, content)
  }

  /** The loop of `_combine_multi_sources` appends one block per id, in the
      order of the ids, and the not-found block for an id the registry lacks;
      it can only stop early at an id the registry has. */
  lemma {:induction false} CombineBlocksLayout(env: Env, entries: seq<Descriptor>, cache: Cache, ids: seq<string>,
                                               acc: seq<string>, fuel: nat)
    ensures var r := CombineBlocks(env, entries, cache, ids, acc, fuel).0;
            r.Ok? ==>
              && |r.value| == |acc| + |ids| && r.value[..|acc|] == acc
              && (forall k :: 0 <= k < |ids| ==> BlockOf(r.value[|acc| + k], ids[k]))
              && (forall k :: 0 <= k < |ids| && Lookup(entries, ids[k]).None? ==>
                    r.value[|acc| + k] == Block(ids[k], SourceNotFound))
    ensures CombineBlocks(env, entries, cache, ids, acc, fuel).0.Err? ==>
              exists k :: 0 <= k < |ids| && Lookup(entries, ids[k]).Some?
    decreases |ids|
  {
    if |ids| > 0 {
      var found := Lookup(entries, ids[0]);
      var b: string;
      var c: Cache;
      if found.None? {
        b := Block(ids[0], SourceNotFound);
        c := cache;
      } else if fuel == 0 {
        return;
      } else {
        var (o, c') := Resolve(env, cache, found.value, fuel - 1);
        if o.Raised? {
          return;
        }
        b := Block(ids[0], o.content);
        c := c';
      }
      assert CombineBlocks(env, entries, cache, ids, acc, fuel)
             == CombineBlocks(env, entries, c, ids[1..], acc + [b], fuel);
      CombineBlocksLayout(env, entries, c, ids[1..], acc + [b], fuel);
      var r := CombineBlocks(env, entries, c, ids[1..], acc + [b], fuel).0;
      if r.Ok? {
        var v := r.value;
        assert v[..|acc|] == (v[..|acc| + 1])[..|acc|];
        assert v[|acc|] == (acc + [b])[|acc|] == b;
        assert BlockOf(v[|acc|], ids[0]);
        forall k | 0 < k < |ids|
          ensures BlockOf(v[|acc| + k], ids[k])
          ensures Lookup(entries, ids[k]).None? ==> v[|acc| + k] == Block(ids[k], SourceNotFound)
        {
          assert ids[1..][k - 1] == ids[k];
          assert |acc + [b]| + (k - 1) == |acc| + k;
        }
      }
      if r.Err? {
        var k :| 0 <= k < |ids[1..]| && Lookup(entries, ids[1..][k]).Some?;
        assert ids[1..][k] == ids[k + 1];
      }
    }
  }

  /** `s` is one block per id of `ids`, in order, separated by blank lines,
      with the not-found block for each id `entries` lacks. */
  ghost predicate LaidOut(s: string, ids: seq<string>, entries: seq<Descriptor>)
  {
    exists blocks: seq<string> {:trigger Join(blocks, "\n")} ::
      && |blocks| == |ids| && s == Join(blocks, "\n")
      && (forall k :: 0 <= k < |ids| ==> BlockOf(blocks[k], ids[k]))
      && (forall k :: 0 <= k < |ids| && Lookup(entries, ids[k]).None? ==> blocks[k] == Block(ids[k], SourceNotFound))
  }

  /** With the registry loaded, a `multi_source` result is either laid out
      block by block, or the combining-error marker for an exception raised
      by one of the ids the registry has. */
  lemma CombineLayout(env: Env, cache: Cache, d: Descriptor, fuel: nat)
    requires env.registry.Loaded? && d.sources.Some? && |d.sources.value| > 0
    ensures var s := Combine(env, cache, d, fuel).0;
            || LaidOut(s, d.sources.value, env.registry.entries)
            || ((exists e :: s == CombineError(ErrorText(e)))
                && exists k :: 0 <= k < |d.sources.value| && Lookup(env.registry.entries, d.sources.value[k]).Some?)
  {
    var ids := d.sources.value;
    var entries := env.registry.entries;
    var empty: seq<string> := [];
    CombineBlocksLayout(env, entries, cache, ids, empty, fuel);
    var r := CombineBlocks(env, entries, cache, ids, empty, fuel).0;
    assert Combine(env, cache, d, fuel).0 == (if r.Ok? then Join(r.value, "\n") else CombineError(ErrorText(r.error)));
    if r.Ok? {
      var blocks := r.value;
      forall k | 0 <= k < |ids|
        ensures BlockOf(blocks[k], ids[k])
        ensures Lookup(entries, ids[k]).None? ==> blocks[k] == Block(ids[k], SourceNotFound)
      {
        assert blocks[|empty| + k] == blocks[k];
      }
      assert LaidOut(Join(blocks, "\n"), ids, entries);
    }
  }

  /** When the shared registry cannot be loaded, a `multi_source` with ids
      gives the combining-error marker carrying the load error, and the
      cache is untouched. */
  lemma CombineRegistryFailure(env: Env, cache: Cache, d: Descriptor, fuel: nat)
    requires env.registry.LoadFailed? && d.sources.Some? && |d.sources.value| > 0
    ensures Combine(env, cache, d, fuel) == ("[ERROR_COMBINING_SOURCES: " + env.registry.detail + "]", cache)
  {
  }

  /** The blocks of the example below: the missing id first, then `a`. */
  lemma MultiSourceExampleBlocks(env: Env, a: Descriptor)
    requires a == Descriptor("a", "file_content", Some("x.txt"), None, None)
    requires env == Env(map["x.txt" := Contents("X")], Loaded([a]))
    ensures CombineBlocks(env, [a], map[], ["missing", "a"], [], 1)
            == (Ok([Block("missing", SourceNotFound), Block("a", "X")]), map[a := "X"])
  {
    var b1 := Block("missing", SourceNotFound);
    var b2 := Block("a", "X");
    var c := map[a := "X"];
    assert FirstWithId([a], "missing", 0) == None;
    assert FirstWithId([a], "a", 0) == Some(0);
    assert Resolve(env, map[], a, 0) == (Text("X"), c);
    assert CombineBlocks(env, [a], c, [], [b1, b2], 1) == (Ok([b1, b2]), c);
    assert ["a"][0] == "a" && ["a"][1..] == [];
    assert [b1] + [b2] == [b1, b2];
    assert CombineBlocks(env, [a], map[], ["a"], [b1], 1) == (Ok([b1, b2]), c);
    assert ["missing", "a"][0] == "missing" && ["missing", "a"][1..] == ["a"];
    assert [] + [b1] == [b1];
  }

  /** Two ids, the first not in the registry and the second a whole-file
      source with content `X`: two blocks in the order given, separated by a
      blank line. */
  lemma MultiSourceExample()
    ensures
      var a := Descriptor("a", "file_content", Some("x.txt"), None, None);
      var d := Descriptor("both", "multi_source", None, None, Some(["missing", "a"]));
      Resolve(Env(map["x.txt" := Contents("X")], Loaded([a])), map[], d, 1).0
        == Text(Block("missing", "[SOURCE_NOT_FOUND]") + "\n" + Block("a", "X"))
  {
    var a := Descriptor("a", "file_content", Some("x.txt"), None, None);
    var d := Descriptor("both", "multi_source", None, None, Some(["missing", "a"]));
    var env := Env(map["x.txt" := Contents("X")], Loaded([a]));
    MultiSourceExampleBlocks(env, a);
    var b1 := Block("missing", SourceNotFound);
    var b2 := Block("a", "X");
    assert Join([b1, b2], "\n") == b1 + "\n" + b2;
  }

  // ---------------------------------------------------------------------------
  // The processor object

  class DataSourceProcessor {
    /** `self._cache`, keyed by the descriptor itself. */
    var cache: Cache

    constructor()
      ensures cache == map[]
    {
      cache := map[];
    }

    /** `process_data_source`. */
    method ProcessDataSource(env: Env, d: Descriptor, fuel: nat) returns (o: Outcome)
      modifies this
      ensures (o, cache) == Resolve(env, old(cache), d, fuel)
      ensures Extends(old(cache), cache)
      decreases fuel, 2
    {
      ResolveExtendsCache(env, cache, d, fuel);
      if d in cache {
        return Text(cache[d]);
      }
      var content: string;
      if d.kind == "file_content" {
        var loaded := LoadFileContent(env.files, d);
        if loaded.Raised? {
          return loaded;
        }
        content := loaded.content;
      } else if d.kind == "file_extract" {
        var extracted := ExtractFileContent(env.files, d);
        if extracted.Raised? {
          return extracted;
        }
        content := extracted.content;
      } else if d.kind == "multi_source" {
        content := CombineMultiSources(env, d, fuel);
      } else {
        return Raised(UnknownSourceType(d.kind));
      }
      cache := cache[d := content];
      return Text(content);
    }

    /** `_combine_multi_sources`. */
    method CombineMultiSources(env: Env, d: Descriptor, fuel: nat) returns (s: string)
      modifies this
      ensures (s, cache) == Combine(env, old(cache), d, fuel)
      decreases fuel, 1
    {
      var ids := if d.sources.Some? then d.sources.value else [];
      if |ids| == 0 {
        return NoSources;
      }
      if env.registry.LoadFailed? {
        return CombineError(env.registry.detail);
      }
      var entries := env.registry.entries;
      var blocks: seq<string> := [];
      var i := 0;
      while i < |ids|
        invariant 0 <= i <= |ids|
        invariant CombineBlocks(env, entries, old(cache), ids, [], fuel)
                  == CombineBlocks(env, entries, cache, ids[i..], blocks, fuel)
      {
        var id := ids[i];
        assert ids[i..][0] == id && ids[i..][1..] == ids[i + 1..];
        var found := FindById(entries, id);
        if found.None? {
          blocks := blocks + [Block(id, SourceNotFound)];
        } else {
          if fuel == 0 {
            return CombineError(ErrorText(RecursionLimit));
          }
          var o := ProcessDataSource(env, found.value, fuel - 1);
          if o.Raised? {
            return CombineError(ErrorText(o.error));
          }
          blocks := blocks + [Block(id, o.content)];
        }
        i := i + 1;
      }
      return Join(blocks, "\n");
    }
  }
}
