# YAML test-configuration loader, task manager and code samples in Dafny

This project models three parts of an LLM-evaluation test harness.

- **scripts/config_loader.py:**
  - `ConfigLoader` finds, lists, loads and validates YAML test-category files in a categories directory.
  - `DataSourceProcessor` turns a data-source descriptor (`file_content`, `file_extract` with a sed-style `/start/,/end/p` range, or `multi_source`) into text. It memoises each result.
  - `PromptBuilder.build_prompt` substitutes the resolved text of each data-source reference for the literal `{data_sources.<id>}` tokens of a prompt template.
- **test-data/complex-app/logic.py:** the `Task` and `TaskManager` classes of a small task-list application.
- **test-data/sample-code/code-samples.py:** `fibonacci`, `slow_search`, `undocumented_function` and the deliberately wrong `BuggyStack`. The stack's defects are modelled as written:
  - `pop` and `peek` use the front of the list;
  - `is_empty` answers the opposite question;
  - `peek` on an empty stack raises.

Files and modules:

- `wrappers.dfy`: `Option` and `Result`.
- `text.dfy` (module `Text`): the Python string operations the code uses, stated and proved once:
  - `in`, `str.replace`, `str.split` and `str.join`;
  - `rstrip`, `str(int)` and `readlines`;
  - `sorted` on strings.
- `config_loader.dfy` (module `ConfigLoader`): the `ConfigLoader` class.
  - A parsed YAML document is a `Yaml` value.
  - The categories directory is a sequence of files, in listing order, each with its parse result.
- `data_sources.dfy` (module `DataSources`): the `DataSourceProcessor` class.
  - Its `_cache` is a `map` field that the methods update.
  - Each method is proved equal to a pure function: `ProcessDataSource` to `Resolve`, `CombineMultiSources` to `Combine`, `ExtractFileContent` to `ExtractContent`, `SedExtract` to `SedResult`, `SedScan` to `SedRange` and `FindById` to `Lookup`. The properties are proved about those functions.
  - The project root's files are a map from path to what reading the file gives.
  - The shared registry is the outcome of loading `common-sources.yaml`.
- `prompts.dfy` (module `Prompts`): the `PromptBuilder` class, specified by the pure function `Build`.
- `task_logic.dfy` (module `TaskLogic`): `Task` and `TaskManager` as classes whose methods update their fields. The clock and the random id generator are parameters.
- `code_samples.dfy` (module `CodeSamples`): the sample functions and `BuggyStack`.

Python's dynamic behaviour the code relies on is modelled explicitly:

- `x in v` on a mapping, a list or a string, and the `TypeError` on anything else;
- `v[k]` on a non-mapping;
- truthiness (`if not description`, `if status_filter`);
- `str(task_id)` for integer and string ids.

Every method's contract either ties its result, and its new state, to a specification function, or states its property directly. The properties of the specification functions are lemmas:

- for configs made of mappings, validation passes exactly on the documented file shape (a `category` given as a string passes whenever its text contains "id");
- category listing: its members, one entry per category file, and its sorted order;
- the sed range's bounds, every extraction-error marker, the layout of a `multi_source` result, and the memo cache only ever growing;
- what substitution keeps;
- the `to_dict`/`from_dict` round trip;
- the stack's first-in-first-out order;
- conservation of the summed numbers in `undocumented_function`.

## Model

| member | source | states |
|---|---|---|
| Text.ContainsIffOccurs | scripts/config_loader.py:191 | Python's substring test `sub in s` holds exactly when `sub` occurs at some index of `s` |
| Text.SplitManyIffContains | scripts/config_loader.py:181-183 | `s.split(sep)` has two or more parts exactly when `sep in s` |
| Text.JoinSplit | scripts/config_loader.py:183 | joining the parts of `s.split(sep)` with `sep` gives back `s` |
| Text.ReplaceIsJoinOfSplit | scripts/config_loader.py:281 | `s.replace(pat, repl)` is the parts of `s.split(pat)` joined with `repl` |
| Text.ReplaceAbsent | scripts/config_loader.py:281 | replacing a pattern that does not occur leaves the string unchanged |
| Text.RStrip | scripts/config_loader.py:184 | `rstrip(c)` returns a prefix that does not end in `c`, and everything it removed is `c` |
| Text.NatToString | scripts/config_loader.py:108 | `str(i)` for the index `i` in "Test {i} ..." is a non-empty run of decimal digits with no leading zero; it starts with '0' exactly when `i` is 0 |
| Text.NatToStringValue | scripts/config_loader.py:108 | the decimal text of `i` in "Test {i} ..." reads back as `i` |
| Text.ReadLines | scripts/config_loader.py:164 | `readlines()` gives non-empty lines that rejoin to the file text; every line but the last ends in a newline, and no line has a newline before its last character |
| Text.SortStrings | scripts/config_loader.py:89 | `sorted` on strings returns a sorted permutation of its input |
| Text.LexLeTotal | scripts/config_loader.py:89 | the string order `sorted` uses compares any two strings |
| Text.LexLeTrans | scripts/config_loader.py:89 | the string order `sorted` uses is transitive |
| ConfigLoader.In | scripts/config_loader.py:95 | `key in v` raises `TypeError` exactly when `v` is not a mapping, list or string |
| ConfigLoader.Index | scripts/config_loader.py:98 | `v[key]` succeeds exactly when `v` is a mapping holding `key`, and gives its value |
| ConfigLoader.MissingField | scripts/config_loader.py:94-96 | the field reported missing is the first required field, in list order, that is not `in` the value; no report means all are `in`; an error means `in` raised |
| ConfigLoader.FirstMissingField | scripts/config_loader.py:94-96 | the loop over the required fields reports exactly what `MissingField` says |
| ConfigLoader.ValidateCategoryConfig | scripts/config_loader.py:91-108 | the validation loops raise exactly what `Validation` says, with the source's messages in the source's order |
| ConfigLoader.ValidationAccepts | scripts/config_loader.py:91-108 | a config that passes validation is a mapping with `category` and `tests`; `id` is `in` its category; `tests` is a non-empty list; every required test field is `in` every test |
| ConfigLoader.ValidationIffWellFormed | scripts/config_loader.py:91-108 | for a config made of mappings, validation passes exactly when the config has the documented shape |
| ConfigLoader.FirstIncompleteTestReported | scripts/config_loader.py:104-108 | the first incomplete test is reported by its index and its first missing field, in the order id, title, timeout, prompt_template |
| ConfigLoader.TextCategoryAccepted | scripts/config_loader.py:98-99 | a category given as a string passes the `id` check whenever its text contains "id" |
| ConfigLoader.DeclaredId | scripts/config_loader.py:77-78 | a declared id exists only when `category` is a mapping holding `id`, and it is that value |
| ConfigLoader.DeclaredIdOfMappings | scripts/config_loader.py:47-48 | nested mappings with `category.id` declare exactly that id |
| ConfigLoader.FallbackStripsSuffix | scripts/config_loader.py:82 | the id derived from `<x>-tests.yaml` is `<x>-tests` with every "-tests" removed; it is the stem `x` itself whenever the suffix holds the only "-tests" (dashed stems such as "code-review" included) |
| ConfigLoader.GetAvailableCategories | scripts/config_loader.py:66-89 | the scan of the directory returns `AvailableCategories`: empty for a missing directory, otherwise the ids sorted |
| ConfigLoader.AvailableCategoriesMembers | scripts/config_loader.py:66-89 | the listed ids are sorted; there is one per category file, duplicates kept (the same multiset as the ids collected in directory order); a string is listed exactly when some category file yields it, declared or derived from its name |
| ConfigLoader.CollectIdsLength | scripts/config_loader.py:72-87 | the loop collects exactly one id per file the glob matches |
| ConfigLoader.FirstDeclaring | scripts/config_loader.py:43-49 | the index found is the first category file declaring the id; no earlier file declares it |
| ConfigLoader.FindCategoryFile | scripts/config_loader.py:41-52 | the search returns the first category file declaring the id, skipping files that fail to load, or nothing |
| ConfigLoader.EntryNamed | scripts/config_loader.py:26-29 | the direct lookup finds the first file with exactly the name `<id>-tests.yaml` |
| ConfigLoader.LoadTestCategory | scripts/config_loader.py:23-39 | loading returns `LoadCategory`: the direct file, else the first declaring file, else `FileNotFoundError`; then parsing and validation |
| ConfigLoader.LoadedIsValid | scripts/config_loader.py:23-39 | a loaded config passed validation and comes from the file named after the id or from a file declaring it |
| ConfigLoader.DirectFileWins | scripts/config_loader.py:26-30 | when `<id>-tests.yaml` exists, it alone decides the result, whatever other files declare |
| ConfigLoader.NotFoundReported | scripts/config_loader.py:31-32 | with no named and no declaring file the error is "Test category config not found for ID: <id>" |
| DataSources.RangePatternParses | scripts/config_loader.py:181-185 | a pattern `/start/,/end/p`, whose first `,/` is the one after `start` (commas in `start` allowed), yields `start` without trailing slashes and `end` up to its own first `,/` |
| DataSources.PlainRangePatternParses | scripts/config_loader.py:181-185 | without commas or trailing slashes in `start` and without `,/` in `end`, both sub-patterns come back unchanged |
| DataSources.FirstMatch | scripts/config_loader.py:190-192 | the range starts at the first line containing the start pattern; no earlier line contains it |
| DataSources.ScanIsSedRange | scripts/config_loader.py:187-198 | the line-by-line scan with `in_range` and `break` keeps the first start line through the next end line (or to the end of the file) |
| DataSources.SedScan | scripts/config_loader.py:187-198 | the loop collects exactly `SedRange(lines, start, end)` |
| DataSources.SedExtract | scripts/config_loader.py:178-202 | `_sed_extract` returns `SedResult`: the joined range with trailing newlines stripped, or the unsupported-pattern error |
| DataSources.SedExample | scripts/config_loader.py:178-200 | on the lines a, START, b, END, c the pattern `/START/,/END/p` extracts "START\nb\nEND" |
| DataSources.ExtractFileContent | scripts/config_loader.py:155-176 | the method returns `ExtractContent`; what that means is stated by `ExtractionFailureMarkers` and `ExtractionOfRange` |
| DataSources.ExtractContent | scripts/config_loader.py:155-176 | only a descriptor without a `file` key raises (`KeyError: 'file'`); every other outcome is text |
| DataSources.ExtractionFailureMarkers | scripts/config_loader.py:162-185 | once the file exists, each failure gives "[ERROR EXTRACTING FROM FILE: <file> - <reason>]": a read error, a missing `extract`, `method` or `pattern` key (in that order), a method other than "sed", a pattern that is not a range pattern, and a range pattern whose `,/` lies only inside the final `/p` ("list index out of range") |
| DataSources.ExtractionOfRange | scripts/config_loader.py:163-171 | a readable file with a sed range pattern gives the selected lines of the file, joined, without trailing newlines |
| DataSources.LoadFileContent | scripts/config_loader.py:142-153 | only a descriptor without a `file` key raises (`KeyError: 'file'`); a missing or unreadable file is reported in the text |
| DataSources.FindById | scripts/config_loader.py:219-223 | the registry search returns the first entry with the id, or nothing when no entry has it |
| DataSources.ResolveExtendsCache | scripts/config_loader.py:122-139 | resolution never removes or changes a cached result |
| DataSources.ResolveMemoises | scripts/config_loader.py:122-125 | a resolved descriptor is cached with its text, and resolving it again returns that text, whatever the files now are |
| DataSources.UnknownTypeRaises | scripts/config_loader.py:135-136 | an unknown source type raises and caches nothing |
| DataSources.MissingFileMarker | scripts/config_loader.py:146-147 | a whole-file or extracted source whose file does not exist gives "[FILE NOT FOUND: <file>]" |
| DataSources.WholeFileRead | scripts/config_loader.py:142-153 | a whole-file source gives the file's full text and caches it; an unreadable file gives the read-error marker |
| DataSources.EmptySourcesMarker | scripts/config_loader.py:206-208 | a `multi_source` with no ids gives "[NO_SOURCES_SPECIFIED]" |
| DataSources.MultiSourceExample | scripts/config_loader.py:217-231 | an unknown id and a found id give their two labelled blocks in the given order, joined by a newline |
| DataSources.DataSourceProcessor.constructor | scripts/config_loader.py:113-115 | a new processor starts with an empty cache |
| DataSources.DataSourceProcessor.ProcessDataSource | scripts/config_loader.py:117-140 | the returned text (or exception) and the new cache are those of `Resolve`; the old cache entries are kept |
| DataSources.DataSourceProcessor.CombineMultiSources | scripts/config_loader.py:204-233 | the combined text and the new cache are those of `Combine`, whose layout and markers `CombineLayout`, `CombineRegistryFailure` and `EmptySourcesMarker` state |
| DataSources.CombineBlocksLayout | scripts/config_loader.py:217-229 | the loop appends one block per id, in order, the not-found block for an id the registry lacks; it can stop early only at an id the registry has |
| DataSources.CombineLayout | scripts/config_loader.py:211-233 | with the registry loaded, the text is one `=== id ===` block per id, in order, joined by newlines, or the combining-error marker for an exception raised by a found id |
| DataSources.CombineRegistryFailure | scripts/config_loader.py:211-214 | when the registry cannot be loaded, the text is "[ERROR_COMBINING_SOURCES: <error>]" and the cache is untouched |
| Prompts.BuildKeepsUnreferencedText | scripts/config_loader.py:255-283 | a template without any reference's token comes back verbatim, unless resolution raises |
| Prompts.SubstitutionStep | scripts/config_loader.py:279-281 | each reference splits the running prompt at its token and joins the pieces with the resolved content |
| Prompts.UnknownNameMarker | scripts/config_loader.py:266-274 | a bare id missing from the registry becomes "[DATA_SOURCE_NOT_FOUND: <id>]" and leaves the cache alone |
| Prompts.InlineUsedAsIs | scripts/config_loader.py:260-266 | an inline descriptor is resolved as given; the registry is not consulted |
| Prompts.BuildExtendsCache | scripts/config_loader.py:277 | building a prompt only adds to the processor's cache |
| Prompts.RepeatedSubstitutionCanChangeText | scripts/config_loader.py:280-281 | repeating the same id can change the prompt again: replacing `{data_sources.x}` in "{data_sources.{data_sources.x}x}" creates a new token |
| Prompts.PromptBuilder.constructor | scripts/config_loader.py:238-240 | the builder keeps the processor it is given |
| Prompts.PromptBuilder.BuildPrompt | scripts/config_loader.py:242-283 | the prompt (or exception) and the processor's new cache are those of `Build` |
| TaskLogic.IntAndTextIdsAgree | test-data/complex-app/logic.py:77 | comparing `str` of ids makes the integer 42 and the text "42" the same id |
| TaskLogic.InitFields | test-data/complex-app/logic.py:14-19 | a task always has an id (the given one, else a generated one) and a non-empty creation time (the given one if truthy, else the clock's) |
| TaskLogic.DictOf | test-data/complex-app/logic.py:30-37 | the dictionary has exactly the keys id, description, status, created_at, completed_at |
| TaskLogic.FromDictFields | test-data/complex-app/logic.py:39-47 | `from_dict` fails exactly when description, id or status is missing, with `KeyError` naming the first missing one |
| TaskLogic.DictRoundTrip | test-data/complex-app/logic.py:30-47 | `from_dict(to_dict())` rebuilds the same attributes |
| TaskLogic.Task.constructor | test-data/complex-app/logic.py:14-19 | the new task holds `InitFields` and is valid |
| TaskLogic.Task.Complete | test-data/complex-app/logic.py:26-28 | status becomes "completed" and the completion time the clock's; id, description and creation time are unchanged |
| TaskLogic.Task.ToDict | test-data/complex-app/logic.py:30-37 | the dictionary has exactly the keys id, description, status, created_at and completed_at, each holding the task's attribute of that name |
| TaskLogic.Task.FromDict | test-data/complex-app/logic.py:39-47 | a fresh task with the attributes of `FromDictFields`, or its `KeyError` |
| TaskLogic.FirstWithKey | test-data/complex-app/logic.py:75-77 | the first task whose `str(id)` equals the key; no earlier task matches |
| TaskLogic.WithStatus | test-data/complex-app/logic.py:92 | the comprehension keeps exactly the tasks with the status, in list order |
| TaskLogic.WithStatusCount | test-data/complex-app/logic.py:92 | the comprehension keeps one entry per list position whose task has the status, so a task listed twice is kept twice |
| TaskLogic.TaskManager.constructor | test-data/complex-app/logic.py:50-52 | the manager holds the loaded tasks, and is valid because each of them is |
| TaskLogic.TaskManager.Snapshot | test-data/complex-app/logic.py:60-62 | what is saved is every task's dictionary, in order |
| TaskLogic.TaskManager.AddTask | test-data/complex-app/logic.py:64-71 | a non-empty string is appended as a new pending task with a fresh id and the clock's time; anything else raises the source's `ValueError` and changes nothing |
| TaskLogic.TaskManager.CompleteTask | test-data/complex-app/logic.py:73-85 | returns the first task whose id matches, completing it if it was pending; `None` when no id matches; no other task changes |
| TaskLogic.TaskManager.ListTasks | test-data/complex-app/logic.py:87-93 | no filter gives all tasks; a filter other than pending/completed is rejected; otherwise exactly the tasks with that status, in order, one per position holding such a task |
| TaskLogic.TaskManager.GetTaskById | test-data/complex-app/logic.py:95-99 | the first task whose id matches, or `None` exactly when no id matches |
| TaskLogic.SaveLoadRoundTrip | test-data/complex-app/logic.py:54-62 | saving and reloading a manager's tasks gives back every task's attributes |
| CodeSamples.Fibonacci | test-data/sample-code/code-samples.py:3-15 | `fibonacci(n)` returns the first `n` Fibonacci numbers, none for `n <= 0` |
| CodeSamples.SlowSearch | test-data/sample-code/code-samples.py:17-25 | returns all and only the indices holding the target, strictly ascending |
| CodeSamples.BuggyStack.constructor | test-data/sample-code/code-samples.py:29-30 | a new stack is empty |
| CodeSamples.BuggyStack.Push | test-data/sample-code/code-samples.py:32-33 | push appends at the back |
| CodeSamples.BuggyStack.Pop | test-data/sample-code/code-samples.py:35-38 | pop gives `None` when empty, otherwise removes and returns the front (oldest) item |
| CodeSamples.BuggyStack.Peek | test-data/sample-code/code-samples.py:40-41 | peek returns the front item, and raises `IndexError` exactly when the stack is empty |
| CodeSamples.BuggyStack.IsEmpty | test-data/sample-code/code-samples.py:43-44 | `is_empty` is true exactly when the stack is not empty |
| CodeSamples.StackScenario | test-data/sample-code/code-samples.py:27-44 | on a new stack: pushing x then y and popping gives x; peeking then gives y; `is_empty` is false at the start and true with one item left |
| CodeSamples.PopAll | test-data/sample-code/code-samples.py:32-38 | popping everything pushed returns it in the order pushed (first in, first out) |
| CodeSamples.UndocumentedFunction | test-data/sample-code/code-samples.py:46-59 | the loop emits exactly `Chunks(data, threshold, 0)` |
| CodeSamples.UndocumentedFunctionDefault | test-data/sample-code/code-samples.py:46 | the threshold defaults to 10 |
| CodeSamples.ChunksBounds | test-data/sample-code/code-samples.py:46-59 | at most one value per element; every value is above the threshold or positive; `NumberChunksExceedThreshold` gives the threshold bound alone for numbers-only data |
| CodeSamples.NumberChunksExceedThreshold | test-data/sample-code/code-samples.py:50-54 | with numbers only, every emitted value is above the threshold |
| CodeSamples.NumbersConserved | test-data/sample-code/code-samples.py:49-54 | with numbers only, the emitted values plus the dropped leftover add up to all the numbers |
| CodeSamples.SmallTotalDropped | test-data/sample-code/code-samples.py:46-59 | a final total that never passes the threshold is dropped: [5] gives [], [5, 6] gives [11], [3, x, -2, x] gives [3] |

## Left out

- **YAML, files and the directory.**
  - YAML parsing, file opening and `glob` are not modelled. Each file of the categories directory comes with its parse result, and the project root's files come with what reading them gives.
  - The glob `*-tests.yaml` is modelled as a name suffix test, in the directory's listing order.
  - The direct file `<id>-tests.yaml` is found by exact name. An id containing a path separator, which would point outside the directory, is not modelled.
- **YAML values:** mapping keys are strings only, and floats and dates are not modelled.
- **`ConfigLoader.load_data_sources`** is not modelled as an operation. Its result is a parameter (`RegistryLoad`): the entries, or the text of the exception it raised.
  - A registry file whose top level is not a mapping is folded into `LoadFailed`.
  - Registry entries always carry an `id`; the `KeyError` for an entry without one is not modelled.
  - The `data_sources` value is always a list of mappings. Other values are not modelled: a bare `data_sources:` key (None) or another non-list value. With such a value, `build_prompt` raises `TypeError` for a string reference, outside its `try` (scripts/config_loader.py:250, 264-266), and `_combine_multi_sources` returns its `[ERROR_COMBINING_SOURCES: ...]` marker (:220, 232-233).
  - Each reference in a test's `data_sources` list is a string or a mapping. Another kind of value, for which `source_ref["id"]` raises `TypeError` (:262), is not modelled.
- **ConfigLoader.GetAvailableCategories:** weaker than the source. When any listed id is not a string, the model returns `TypeError`. Python's `sorted` still succeeds when only one id is listed, or when all ids are integers.
- **Descriptors are typed.**
  - `id` and `type` are always present and strings, so the `KeyError` for a missing `id`/`type` in `process_data_source` is not modelled.
  - A missing `file` key is modelled: it raises `MissingKey`.
- **DataSources.DataSourceProcessor.ProcessDataSource** keys the cache by the descriptor value itself rather than by `f"{id}_{hash(str(config))}"`. Hash collisions between different descriptors are therefore not modelled. The descriptor keeps only the keys `id`, `type`, `file`, `extract` and `sources`, so two registry entries that differ only in another key (such as a description) or in key order give different `str(config)` cache keys in the source but share one cache entry in the model.
- **DataSources.Resolve:** Python's `RecursionError` is approximated.
  - The error arises from cyclic or very deep `multi_source` nesting.
  - A `fuel` bound stands for it: resolution fails with `RecursionLimit` ("maximum recursion depth exceeded") once the bound is used up.
  - The enclosing `_combine_multi_sources` catches that error, as Python's `except Exception` does.
  - The exact depth at which Python's interpreter gives up is not modelled.
- **Inline references:** an inline reference's `id` is taken from the descriptor itself. The source's fall-through to the registry when `source_ref["id"]` differs from `source_config.get("id")` therefore cannot arise, and is not modelled.
- **Printed messages:** the warning `build_prompt` prints when the registry cannot be loaded is not modelled (only the empty registry it falls back to). Neither is the rest of the command-line interface (`main`).
- **Task clock and ids:** `datetime.now().isoformat()` and `uuid.uuid4()` are parameters (`now`, `freshId`).
- **Task persistence:**
  - `_load_all_tasks` is the constructor's `loaded` argument.
  - `_save_all_tasks` is modelled by `Snapshot`, the list of dictionaries it writes; the JSON writing is left out.
  - The save after `add_task` and `complete_task` is not a separate step.
- **Task attributes:** Json values are `null`, booleans, integers and strings; floats, lists and objects as attribute values are not modelled.
- **CodeSamples.UndocumentedFunction:** floats are not modelled. An element is a number (an `int`; a `bool` counts as 0 or 1) or anything else.
- **Files not modelled:** scripts/validate_config.py, scripts/hardware-profile.py, scripts/qualitative-evaluator.py, test-data/complex-app/main_app.py and test-data/complex-app/utils.py are not part of this model.
- DataSources.CombineLayout: the text of a block for an id the registry has is stated only as some block for that id. That its content is the nested resolution's text, with the cache threaded through, is given only by the definition of `Combine`.
- **Repeated substitution:** the model keeps the code's plain second `replace`, so substituting the same id twice is not a no-op in general. `Prompts.RepeatedSubstitutionCanChangeText` shows a template where the second pass changes the text.
