/** `ConfigLoader` (scripts/config_loader.py): finding, listing and validating
    the YAML test-category files of a categories directory. YAML parsing is
    not modelled: each file comes already parsed, or as a parse failure. */
module ConfigLoader {
  import opened Wrappers
  import opened Text

  /** A parsed YAML document. Mapping keys are strings. */
  datatype Yaml =
    | YNull
    | YBool(b: bool)
    | YInt(i: int)
    | YStr(s: string)
    | YList(items: seq<Yaml>)
    | YMap(entries: map<string, Yaml>)

  /** The exceptions the loader lets escape to its caller. */
  datatype Failure =
    | ValueError(message: string)
    | TypeError
    | KeyError(key: string)
    | FileNotFound(message: string)
    | ParseError(detail: string)

  /** A file of the categories directory, with what `yaml.safe_load` made
      of it (or the error that opening or parsing it raised). */
  datatype ParseResult = Unparsable(detail: string) | Parsed(doc: Yaml)
  datatype DirEntry = DirEntry(name: string, content: ParseResult)

  /** The categories directory: `None` when it does not exist; its files in
      the order the directory listing yields them otherwise. */
  type CategoriesDir = Option<seq<DirEntry>>

  // ---------------------------------------------------------------------------
  // Python's `in` and `[]` on YAML values

  /** `key in v`: a key of a mapping, an element of a list, a substring of a
      string; anything else raises `TypeError`. */
  function In(key: string, v: Yaml): (r: Result<bool, Failure>)
    ensures r.Err? <==> !(v.YMap? || v.YList? || v.YStr?)
    ensures r.Err? ==> r.error == TypeError
  {
    match v
    case YMap(m) => Ok(key in m)
    case YList(items) => Ok(YStr(key) in items)
    case YStr(s) => Ok(Contains(s, key))
    case _ => Err(TypeError)
  }

  /** `v[key]` with a string key: only a mapping can be indexed by it. */
  function Index(v: Yaml, key: string): (r: Result<Yaml, Failure>)
    ensures r.Ok? <==> v.YMap? && key in v.entries
    ensures r.Ok? ==> r.value == v.entries[key]
  {
    match v
    case YMap(m) => if key in m then Ok(m[key]) else Err(KeyError(key))
    case _ => Err(TypeError)
  }

  // ---------------------------------------------------------------------------
  // `_validate_category_config`

  const TopFields: seq<string> := ["category", "tests"]
  const TestFields: seq<string> := ["id", "title", "timeout", "prompt_template"]

  /** The first of `fields` that is not `in v`, checked in order; an error if
      `in` raises. */
  function MissingField(v: Yaml, fields: seq<string>): (r: Result<Option<string>, Failure>)
    ensures r == Ok(None) ==> forall k :: 0 <= k < |fields| ==> In(fields[k], v) == Ok(true)
    ensures r.Ok? && r.value.Some? ==>
              exists k :: 0 <= k < |fields| && fields[k] == r.value.value && In(fields[k], v) == Ok(false)
                          && forall l :: 0 <= l < k ==> In(fields[l], v) == Ok(true)
    ensures r.Err? ==> |fields| > 0 && In(fields[0], v).Err?
    decreases |fields|
  {
    if |fields| == 0 then Ok(None)
    else
      match In(fields[0], v)
      case Err(e) => Err(e)
      case Ok(false) => Ok(Some(fields[0]))
      case Ok(true) => MissingField(v, fields[1..])
  }

  /** The check of every test from index `i` on. */
  function TestsCheck(tests: seq<Yaml>, i: nat): Option<Failure>
    requires i <= |tests|
    decreases |tests| - i
  {
    if i == |tests| then None
    else
      match MissingField(tests[i], TestFields)
      case Err(e) => Some(e)
      case Ok(Some(f)) => Some(ValueError("Test " + NatToString(i) + " missing required field: " + f))
      case Ok(None) => TestsCheck(tests, i + 1)
  }

  /** What `_validate_category_config(config)` raises, if anything. */
  function Validation(config: Yaml): Option<Failure>
  {
    match MissingField(config, TopFields)
    case Err(e) => Some(e)
    case Ok(Some(f)) => Some(ValueError("Missing required field: " + f))
    case Ok(None) =>
      match Index(config, "category")
      case Err(e) => Some(e)
      case Ok(category) =>
        match In("id", category)
        case Err(e) => Some(e)
        case Ok(false) => Some(ValueError("Category must have an 'id' field"))
        case Ok(true) =>
          match Index(config, "tests")
          case Err(e) => Some(e)
          case Ok(tests) =>
            if !tests.YList? || |tests.items| == 0 then Some(ValueError("Tests must be a non-empty list"))
            else TestsCheck(tests.items, 0)
  }

  /** The loop `for field in fields: if field not in v: ...`. */
  method FirstMissingField(v: Yaml, fields: seq<string>) returns (r: Result<Option<string>, Failure>)
    ensures r == MissingField(v, fields)
  {
    var j := 0;
    while j < |fields|
      invariant 0 <= j <= |fields|
      invariant MissingField(v, fields) == MissingField(v, fields[j..])
    {
      assert fields[j..][0] == fields[j] && fields[j..][1..] == fields[j + 1..];
      var present := In(fields[j], v);
      if present.Err? {
        return Err(present.error);
      }
      if !present.value {
        return Ok(Some(fields[j]));
      }
      j := j + 1;
    }
    return Ok(None);
  }

  /** `_validate_category_config`: `None` when it returns normally. */
  method ValidateCategoryConfig(config: Yaml) returns (r: Option<Failure>)
    ensures r == Validation(config)
  {
    var missing := FirstMissingField(config, TopFields);
    if missing.Err? {
      return Some(missing.error);
    }
    if missing.value.Some? {
      return Some(ValueError("Missing required field: " + missing.value.value));
    }
    var category := Index(config, "category");
    if category.Err? {
      return Some(category.error);
    }
    var hasId := In("id", category.value);
    if hasId.Err? {
      return Some(hasId.error);
    }
    if !hasId.value {
      return Some(ValueError("Category must have an 'id' field"));
    }
    var tests := Index(config, "tests");
    if !tests.value.YList? || |tests.value.items| == 0 {
      return Some(ValueError("Tests must be a non-empty list"));
    }
    var items := tests.value.items;
    var i := 0;
    while i < |items|
      invariant 0 <= i <= |items|
      invariant Validation(config) == TestsCheck(items, i)
    {
      var m := FirstMissingField(items[i], TestFields);
      if m.Err? {
        return Some(m.error);
      }
      if m.value.Some? {
        return Some(ValueError("Test " + NatToString(i) + " missing required field: " + m.value.value));
      }
      i := i + 1;
    }
    return None;
  }

  /** A test entry written as a mapping with every required field. */
  predicate CompleteTest(t: Yaml)
  {
    t.YMap? && forall f :: f in TestFields ==> f in t.entries
  }

  /** A category file written the way the documentation describes it: a
      mapping whose `category` mapping has an `id` and whose `tests` is a
      non-empty list of complete test mappings. */
  predicate WellFormed(config: Yaml)
  {
    && config.YMap?
    && "category" in config.entries
    && "tests" in config.entries
    && config.entries["category"].YMap?
    && "id" in config.entries["category"].entries
    && config.entries["tests"].YList?
    && |config.entries["tests"].items| > 0
    && forall k :: 0 <= k < |config.entries["tests"].items| ==> CompleteTest(config.entries["tests"].items[k])
  }

  /** A config made of mappings where the documentation expects mappings. */
  predicate MappingShaped(config: Yaml)
  {
    && config.YMap?
    && ("category" in config.entries ==> config.entries["category"].YMap?)
    && ("tests" in config.entries && config.entries["tests"].YList? ==>
         forall k :: 0 <= k < |config.entries["tests"].items| ==> config.entries["tests"].items[k].YMap?)
  }

  lemma {:induction false} TestsCheckPasses(tests: seq<Yaml>, i: nat)
    requires i <= |tests|
    ensures TestsCheck(tests, i) == None <==>
            forall k, f :: i <= k < |tests| && f in TestFields ==> In(f, tests[k]) == Ok(true)
    decreases |tests| - i
  {
    if i < |tests| {
      TestsCheckPasses(tests, i + 1);
      var m := MissingField(tests[i], TestFields);
      if m.Ok? && m.value.None? {
        assert forall f :: f in TestFields ==> In(f, tests[i]) == Ok(true);
      } else if m.Err? {
        assert TestFields[0] in TestFields && In(TestFields[0], tests[i]) != Ok(true);
      } else {
        var k :| 0 <= k < |TestFields| && TestFields[k] == m.value.value && In(TestFields[k], tests[i]) == Ok(false);
        assert TestFields[k] in TestFields;
      }
    }
  }

  /** Whatever passes validation has, in the sense of Python's `in`, both top
      fields, a category holding `id`, and a non-empty list of tests each
      holding every required field. */
  lemma ValidationAccepts(config: Yaml)
    requires Validation(config) == None
    ensures config.YMap? && "category" in config.entries && "tests" in config.entries
    ensures In("id", config.entries["category"]) == Ok(true)
    ensures config.entries["tests"].YList? && |config.entries["tests"].items| > 0
    ensures forall k, f :: 0 <= k < |config.entries["tests"].items| && f in TestFields ==>
              In(f, config.entries["tests"].items[k]) == Ok(true)
  {
    TestsCheckPasses(config.entries["tests"].items, 0);
  }

  /** For a config built from mappings, validation passes exactly on the
      documented shape. */
  lemma ValidationIffWellFormed(config: Yaml)
    requires MappingShaped(config)
    ensures Validation(config) == None <==> WellFormed(config)
  {
    if "tests" in config.entries && config.entries["tests"].YList? {
      var items := config.entries["tests"].items;
      TestsCheckPasses(items, 0);
      assert (forall k, f :: 0 <= k < |items| && f in TestFields ==> In(f, items[k]) == Ok(true))
         <==> (forall k :: 0 <= k < |items| ==> CompleteTest(items[k]));
    }
  }

  lemma {:induction false} TestsCheckReports(tests: seq<Yaml>, from: nat, i: nat, j: nat)
    requires from <= i < |tests| && j < |TestFields|
    requires forall k :: from <= k < i ==> MissingField(tests[k], TestFields) == Ok(None)
    requires MissingField(tests[i], TestFields) == Ok(Some(TestFields[j]))
    ensures TestsCheck(tests, from) == Some(ValueError("Test " + NatToString(i) + " missing required field: " + TestFields[j]))
    decreases i - from
  {
    if from < i {
      TestsCheckReports(tests, from + 1, i, j);
    }
  }

  /** The first mapping test that lacks a field is reported by its index and
      by the first field it lacks, in the order id, title, timeout,
      prompt_template. */
  lemma FirstIncompleteTestReported(config: Yaml, i: nat, j: nat)
    requires WellFormedHead(config)
    requires i < |config.entries["tests"].items| && j < |TestFields|
    requires forall k :: 0 <= k < i ==> CompleteTest(config.entries["tests"].items[k])
    requires config.entries["tests"].items[i].YMap?
    requires TestFields[j] !in config.entries["tests"].items[i].entries
    requires forall l :: 0 <= l < j ==> TestFields[l] in config.entries["tests"].items[i].entries
    ensures Validation(config) == Some(ValueError("Test " + NatToString(i) + " missing required field: " + TestFields[j]))
  {
    var items := config.entries["tests"].items;
    forall k | 0 <= k < i
      ensures MissingField(items[k], TestFields) == Ok(None)
    {
      MissingFieldNone(items[k], TestFields);
    }
    MissingFieldAt(items[i], TestFields, j);
    TestsCheckReports(items, 0, i, j);
  }

  /** Everything of the documented shape except the tests' own fields. */
  predicate WellFormedHead(config: Yaml)
  {
    && config.YMap?
    && "category" in config.entries
    && "tests" in config.entries
    && config.entries["category"].YMap?
    && "id" in config.entries["category"].entries
    && config.entries["tests"].YList?
    && |config.entries["tests"].items| > 0
  }

  lemma {:induction false} MissingFieldNone(m: Yaml, fields: seq<string>)
    requires m.YMap? && forall f :: f in fields ==> f in m.entries
    ensures MissingField(m, fields) == Ok(None)
    decreases |fields|
  {
    if |fields| > 0 {
      MissingFieldNone(m, fields[1..]);
    }
  }

  lemma {:induction false} MissingFieldAt(m: Yaml, fields: seq<string>, j: nat)
    requires m.YMap? && j < |fields| && fields[j] !in m.entries
    requires forall l :: 0 <= l < j ==> fields[l] in m.entries
    ensures MissingField(m, fields) == Ok(Some(fields[j]))
    decreases j
  {
    if j > 0 {
      MissingFieldAt(m, fields[1..], j - 1);
    }
  }

  /** A category given as a plain string passes the `id` check whenever the
      text contains "id", since `in` on a string is a substring test. */
  lemma TextCategoryAccepted(config: Yaml, text: string)
    requires config.YMap? && "category" in config.entries && config.entries["category"] == YStr(text)
    requires WellFormed(config.(entries := config.entries["category" := YMap(map["id" := YNull])]))
    requires Contains(text, "id")
    ensures Validation(config) == None
  {
    var shaped := config.(entries := config.entries["category" := YMap(map["id" := YNull])]);
    var items := config.entries["tests"].items;
    assert shaped.entries["tests"] == config.entries["tests"];
    forall k | 0 <= k < |items|
      ensures MissingField(items[k], TestFields) == Ok(None)
    {
      MissingFieldNone(items[k], TestFields);
    }
    TestsCheckPasses(items, 0);
  }

  // ---------------------------------------------------------------------------
  // The id a category file declares

  /** `config['category']['id']` when `'category' in config and 'id' in
      config['category']` holds and the lookups succeed; `None` when the test
      is false or anything in it raises. */
  function DeclaredId(doc: Yaml): (r: Option<Yaml>)
    ensures r.Some? ==> doc.YMap? && "category" in doc.entries
                        && doc.entries["category"].YMap? && "id" in doc.entries["category"].entries
                        && r.value == doc.entries["category"].entries["id"]
  {
    if In("category", doc) != Ok(true) then None
    else
      match Index(doc, "category")
      case Err(_) => None
      case Ok(category) =>
        if In("id", category) != Ok(true) then None
        else
          match Index(category, "id")
          case Ok(v) => Some(v)
          case Err(_) => None
  }

  /** Nested mappings give the id they hold. */
  lemma DeclaredIdOfMappings(doc: Yaml, v: Yaml)
    requires doc.YMap? && "category" in doc.entries
    requires doc.entries["category"].YMap? && "id" in doc.entries["category"].entries
    requires doc.entries["category"].entries["id"] == v
    ensures DeclaredId(doc) == Some(v)
  {
  }

  function FileDeclaredId(e: DirEntry): Option<Yaml>
  {
    match e.content
    case Unparsable(_) => None
    case Parsed(doc) => DeclaredId(doc)
  }

  /** Matched by the glob `*-tests.yaml`. */
  predicate IsCategoryFile(e: DirEntry)
  {
    EndsWith(e.name, "-tests.yaml")
  }

  /** `yaml_file.stem.replace("-tests", "")`. */
  function FallbackId(name: string): string
    requires EndsWith(name, "-tests.yaml")
  {
    ReplaceAll(name[..|name| - 5], "-tests", "")
  }

  /** The fallback id of `<x>-tests.yaml` is `x` with every "-tests"
      removed; when the suffix holds the only "-tests" (dashes elsewhere are
      fine, as in "code-review"), it is the stem `x` itself. */
  lemma FallbackStripsSuffix(x: string)
    ensures EndsWith(x + "-tests.yaml", "-tests.yaml")
    ensures !Contains(x + "-test", "-tests") ==> FallbackId(x + "-tests.yaml") == x
    ensures FallbackId(x + "-tests.yaml") == ReplaceAll(x + "-tests", "-tests", "")
  {
    var name := x + "-tests.yaml";
    assert name[|name| - 11..] == "-tests.yaml";
    assert name[..|name| - 5] == x + "-tests";
    if !Contains(x + "-test", "-tests") {
      assert "-tests"[..5] == "-test";
      ReplaceAtFirst(x, "-tests", "", "");
      assert x + "-tests" + "" == x + "-tests";
      assert x + "" + "" == x;
    }
  }

  /** The id `get_available_categories` lists for a category file. */
  function CategoryIdOf(e: DirEntry): Yaml
    requires IsCategoryFile(e)
  {
    match FileDeclaredId(e)
    case Some(v) => v
    case None => YStr(FallbackId(e.name))
  }

  // ---------------------------------------------------------------------------
  // `get_available_categories`

  /** The ids collected, in directory order, before sorting. */
  function CollectIds(entries: seq<DirEntry>): seq<Yaml>
    decreases |entries|
  {
    if |entries| == 0 then []
    else
      var e := entries[|entries| - 1];
      CollectIds(entries[..|entries| - 1]) + (if IsCategoryFile(e) then [CategoryIdOf(e)] else [])
  }

  predicate AllText(ids: seq<Yaml>)
  {
    forall k :: 0 <= k < |ids| ==> ids[k].YStr?
  }

  function Texts(ids: seq<Yaml>): (r: seq<string>)
    requires AllText(ids)
    ensures |r| == |ids| && forall k :: 0 <= k < |ids| ==> r[k] == ids[k].s
    decreases |ids|
  {
    if |ids| == 0 then [] else [ids[0].s] + Texts(ids[1..])
  }

  lemma TextsMembers(ids: seq<Yaml>, s: string)
    requires AllText(ids)
    ensures YStr(s) in ids <==> s in Texts(ids)
  {
    var texts := Texts(ids);
    assert forall k :: 0 <= k < |ids| ==> ids[k] == YStr(texts[k]);
  }

  /** What `get_available_categories` returns, or `TypeError` when a
      declared id is not a string. */
  function AvailableCategories(dir: CategoriesDir): Result<seq<string>, Failure>
  {
    match dir
    case None => Ok([])
    case Some(entries) =>
      var ids := CollectIds(entries);
      if AllText(ids) then Ok(SortStrings(Texts(ids))) else Err(TypeError)
  }

  /** `get_available_categories`. */
  method GetAvailableCategories(dir: CategoriesDir) returns (r: Result<seq<string>, Failure>)
    ensures r == AvailableCategories(dir)
    ensures r.Ok? ==> IsSorted(r.value)
  {
    if dir.None? {
      return Ok([]);
    }
    var entries := dir.value;
    var categories: seq<Yaml> := [];
    var i := 0;
    while i < |entries|
      invariant 0 <= i <= |entries|
      invariant categories == CollectIds(entries[..i])
    {
      var e := entries[i];
      assert entries[..i + 1][..i] == entries[..i];
      if IsCategoryFile(e) {
        var declared := FileDeclaredId(e);
        if declared.Some? {
          categories := categories + [declared.value];
        } else {
          categories := categories + [YStr(FallbackId(e.name))];
        }
      }
      i := i + 1;
    }
    assert entries[..|entries|] == entries;
    if !AllText(categories) {
      return Err(TypeError);
    }
    return Ok(SortStrings(Texts(categories)));
  }

  lemma {:induction false} CollectIdsMembers(entries: seq<DirEntry>, v: Yaml)
    ensures v in CollectIds(entries) <==>
            exists k :: 0 <= k < |entries| && IsCategoryFile(entries[k]) && CategoryIdOf(entries[k]) == v
    decreases |entries|
  {
    if |entries| > 0 {
      var init := entries[..|entries| - 1];
      CollectIdsMembers(init, v);
      assert forall k :: 0 <= k < |init| ==> init[k] == entries[k];
    }
  }

  /** The number of files the glob `*-tests.yaml` matches. */
  function CategoryFileCount(entries: seq<DirEntry>): nat
  {
    |set k | 0 <= k < |entries| && IsCategoryFile(entries[k])|
  }

  /** One id is collected per category file, in directory order. */
  lemma {:induction false} CollectIdsLength(entries: seq<DirEntry>)
    ensures |CollectIds(entries)| == CategoryFileCount(entries)
    decreases |entries|
  {
    if |entries| > 0 {
      var n := |entries| - 1;
      var init := entries[..n];
      CollectIdsLength(init);
      var before := set k | 0 <= k < |init| && IsCategoryFile(init[k]);
      var after := set k | 0 <= k < |entries| && IsCategoryFile(entries[k]);
      assert forall k :: 0 <= k < n ==> init[k] == entries[k];
      if IsCategoryFile(entries[n]) {
        assert after == before + {n};
      } else {
        assert after == before;
      }
    }
  }

  /** A listed id is exactly one that some category file yields, declared or
      derived from its name; the list is sorted; and it holds one id per
      category file, so two files with the same id list it twice. */
  lemma AvailableCategoriesMembers(entries: seq<DirEntry>, ids: seq<string>, s: string)
    requires AvailableCategories(Some(entries)) == Ok(ids)
    ensures IsSorted(ids)
    ensures |ids| == CategoryFileCount(entries)
    ensures AllText(CollectIds(entries)) && multiset(ids) == multiset(Texts(CollectIds(entries)))
    ensures s in ids <==>
            exists k :: 0 <= k < |entries| && IsCategoryFile(entries[k]) && CategoryIdOf(entries[k]) == YStr(s)
  {
    CollectIdsLength(entries);
    var collected := CollectIds(entries);
    var texts := Texts(collected);
    assert multiset(ids) == multiset(texts);
    assert s in ids <==> s in multiset(ids);
    assert s in texts <==> s in multiset(texts);
    CollectIdsMembers(entries, YStr(s));
    TextsMembers(collected, s);
  }

  // ---------------------------------------------------------------------------
  // `_find_category_file` and `load_test_category`

  /** The first category file, from index `from` on, that declares `id`. */
  function FirstDeclaring(entries: seq<DirEntry>, id: string, from: nat): (r: Option<nat>)
    requires from <= |entries|
    ensures r.Some? ==> from <= r.value < |entries| && IsCategoryFile(entries[r.value])
                        && FileDeclaredId(entries[r.value]) == Some(YStr(id))
    ensures forall k :: from <= k < (if r.Some? then r.value else |entries|) ==>
              !(IsCategoryFile(entries[k]) && FileDeclaredId(entries[k]) == Some(YStr(id)))
    decreases |entries| - from
  {
    if from == |entries| then None
    else if IsCategoryFile(entries[from]) && FileDeclaredId(entries[from]) == Some(YStr(id)) then Some(from)
    else FirstDeclaring(entries, id, from + 1)
  }

  function FindCategory(dir: CategoriesDir, id: string): Option<DirEntry>
  {
    match dir
    case None => None
    case Some(entries) =>
      match FirstDeclaring(entries, id, 0)
      case None => None
      case Some(k) => Some(entries[k])
  }

  /** `_find_category_file`: files that cannot be read or parsed, or whose
      lookup raises, are skipped. */
  method FindCategoryFile(dir: CategoriesDir, id: string) returns (r: Option<DirEntry>)
    ensures r == FindCategory(dir, id)
  {
    if dir.None? {
      return None;
    }
    var entries := dir.value;
    var i := 0;
    while i < |entries|
      invariant 0 <= i <= |entries|
      invariant FirstDeclaring(entries, id, 0) == FirstDeclaring(entries, id, i)
    {
      if IsCategoryFile(entries[i]) {
        var declared := FileDeclaredId(entries[i]);
        if declared == Some(YStr(id)) {
          return Some(entries[i]);
        }
      }
      i := i + 1;
    }
    return None;
  }

  /** The first file with exactly this name. */
  function EntryNamed(entries: seq<DirEntry>, name: string): (r: Option<nat>)
    ensures r.Some? ==> r.value < |entries| && entries[r.value].name == name
    ensures forall k :: 0 <= k < (if r.Some? then r.value else |entries|) ==> entries[k].name != name
    decreases |entries|
  {
    if |entries| == 0 then None
    else if entries[0].name == name then Some(0)
    else match EntryNamed(entries[1..], name)
      case None => None
      case Some(k) => Some(k + 1)
  }

  /** The file `<id>-tests.yaml`, if the directory has it. */
  function DirectFile(dir: CategoriesDir, id: string): Option<DirEntry>
  {
    match dir
    case None => None
    case Some(entries) =>
      match EntryNamed(entries, id + "-tests.yaml")
      case None => None
      case Some(k) => Some(entries[k])
  }

  function NotFoundMessage(id: string): string
  {
    "Test category config not found for ID: " + id
  }

  /** What `load_test_category(id)` returns or raises. */
  function LoadCategory(dir: CategoriesDir, id: string): Result<Yaml, Failure>
  {
    var file := if DirectFile(dir, id).Some? then DirectFile(dir, id) else FindCategory(dir, id);
    match file
    case None => Err(FileNotFound(NotFoundMessage(id)))
    case Some(e) =>
      match e.content
      case Unparsable(detail) => Err(ParseError(detail))
      case Parsed(doc) =>
        match Validation(doc)
        case Some(f) => Err(f)
        case None => Ok(doc)
  }

  /** `load_test_category`. */
  method LoadTestCategory(dir: CategoriesDir, id: string) returns (r: Result<Yaml, Failure>)
    ensures r == LoadCategory(dir, id)
  {
    var file := DirectFile(dir, id);
    if file.None? {
      file := FindCategoryFile(dir, id);
      if file.None? {
        return Err(FileNotFound(NotFoundMessage(id)));
      }
    }
    var e := file.value;
    if e.content.Unparsable? {
      return Err(ParseError(e.content.detail));
    }
    var problem := ValidateCategoryConfig(e.content.doc);
    if problem.Some? {
      return Err(problem.value);
    }
    return Ok(e.content.doc);
  }

  /** A loaded config passed validation and comes from the file named after
      the id or, failing that, from a category file declaring the id. */
  lemma LoadedIsValid(entries: seq<DirEntry>, id: string, cfg: Yaml)
    requires LoadCategory(Some(entries), id) == Ok(cfg)
    ensures Validation(cfg) == None
    ensures exists k :: 0 <= k < |entries| && entries[k].content == Parsed(cfg)
                        && (entries[k].name == id + "-tests.yaml" || FileDeclaredId(entries[k]) == Some(YStr(id)))
  {
    var dir := Some(entries);
    if DirectFile(dir, id).Some? {
      var k := EntryNamed(entries, id + "-tests.yaml").value;
      assert entries[k].content == Parsed(cfg);
    } else {
      var k := FirstDeclaring(entries, id, 0).value;
      assert entries[k].content == Parsed(cfg);
    }
  }

  /** The file named after the id is used whenever it exists, whatever other
      files declare. */
  lemma DirectFileWins(entries: seq<DirEntry>, id: string, k: nat)
    requires k < |entries| && entries[k].name == id + "-tests.yaml"
    requires forall l :: 0 <= l < k ==> entries[l].name != id + "-tests.yaml"
    ensures LoadCategory(Some(entries), id) ==
            match entries[k].content
            case Unparsable(detail) => Err(ParseError(detail))
            case Parsed(doc) => if Validation(doc).Some? then Err(Validation(doc).value) else Ok(doc)
  {
    EntryNamedAt(entries, id + "-tests.yaml", k);
  }

  lemma {:induction false} EntryNamedAt(entries: seq<DirEntry>, name: string, k: nat)
    requires k < |entries| && entries[k].name == name
    requires forall l :: 0 <= l < k ==> entries[l].name != name
    ensures EntryNamed(entries, name) == Some(k)
    decreases k
  {
    if k > 0 {
      EntryNamedAt(entries[1..], name, k - 1);
    }
  }

  /** With neither the named file nor a declaring file the error names the
      id. */
  lemma NotFoundReported(entries: seq<DirEntry>, id: string)
    requires forall k :: 0 <= k < |entries| ==> entries[k].name != id + "-tests.yaml"
    requires forall k :: 0 <= k < |entries| && IsCategoryFile(entries[k]) ==> FileDeclaredId(entries[k]) != Some(YStr(id))
    ensures LoadCategory(Some(entries), id) == Err(FileNotFound("Test category config not found for ID: " + id))
  {
  }
}
