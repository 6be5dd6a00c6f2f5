# Doctor-profile scrapers and design-pattern samples, modelled in Dafny

This project models the core of the `games` repository. The core has two parts.

**The doctor-profile scrapers** (`health_info/scrape_doctor.py`,
`health_info/state.py`) and the Yale department-link extractor
(`yale_scrapper/yale.py`).
- A scraper reads a list of (state, profile URL) rows and drops repeated URLs
  (the first row of each URL is kept).
- It fetches each profile page, builds a label → value field map from the
  page's table rows, splits the name heading and the practice address with
  positional and punctuation heuristics, and assembles a doctor record with a
  fixed set of fields: 27 in `scrape_doctor.py`, 26 in `state.py`, which has
  no `full_address` (its `fullAddress` is `None` in the model).
- It keeps the records of the tasks that succeed. The browser-based variant
  also retries each task and keeps an error entry for each task whose every
  attempt failed.

**Four design-pattern samples** of `design-patterns/`:
- the composite file system and graphic-object tree;
- a singleton metaclass;
- a monostate ("Borg") settings class;
- a fluent person builder.

Modules:

| module | file | models |
|---|---|---|
| `Optional` | optional.dfy | `Option` / `Result`, standing for Python's `None` and for raised exceptions |
| `SeqFacts` | seq_facts.dfy | regrouping of concatenations, cited by proofs |
| `PyStr` | py_str.dfy | the Python `str` operations the scrapers use: `strip`, `split()`, `split(sep)`, `rsplit(c, 1)`, `join`, `replace`, `in`, the digit filter |
| `DoctorRecords` | doctor_records.dfy | what both scrapers share: table rows, the field map, the record, the tasks, de-duplication by URL |
| `ScrapeDoctor` | scrape_doctor.dfy | `health_info/scrape_doctor.py` |
| `StateScraper` | state_scraper.dfy | `health_info/state.py` |
| `Yale` | yale.dfy | `get_department_urls` of `yale_scrapper/yale.py` |
| `FileSystem` | file_system.dfy | `File` / `Directory` of `design-patterns/structural/composite.py`: classes whose child lists change in place, specified by an abstract tree kept as ghost state |
| `Graphics` | graphics.dfy | `GraphicObject` / `Circle` / `Square` of the same file, a value tree |
| `Singleton` | singleton.dfy | `design-patterns/SingletonMeta.py` |
| `Monostate` | monostate.dfy | `design-patterns/monostate.py` |
| `PersonBuilder` | person_builder.dfy | `design-patterns/person_builder.py` |

How the outside world is represented:
- **Fetches:**
  - In `ScrapeDoctor`, an `Oracle` value says what attempt k of a task yields (`FetchFailed`, or the loaded page).
  - In `StateScraper`, it says what the one request yields (the page, or `None`).
- **Page markup:** a page is given as the extracted texts the code reads from it: each table row's label and data cell, and the name heading.
- **Pauses:** the politeness delay, the backoff and the pause after every tenth task are counted (`Step`, `pauses`), not timed.

Where the code and its own description disagree, the model follows the code:
- **Names without a double space** (`scrape_doctor.py` lines 134-141):
  - The branch always falls into its `except`: `name_tag[1]` raises without a comma, and `name_text` is unbound with one.
  - So the forename is the *list* that `rsplit(',', 1)` returned, and the surname stays empty.
  - For `"Public, MD"` the title is `" MD"`, with its leading space.
  - For an empty heading the forename is the list `[""]`.
- **The newline-delimited address** (line 157): the postcode is the second space-separated piece after the comma. For `"123 Main St\nSpringfield, IL 62704"` that is `"IL"`, not `"62704"`.
- **The comma-only address** (lines 163-166): the scan compares the loop index, an int, with `' '`. That comparison is always false, so street and city stay empty.
- **The politeness delay** (line 88): it is slept once per profile, before the retry loop, not before every attempt. The model follows the code (`StepsShape`).
- **Double-space names** (line 127): the guard tests the length of the heading, which is always above 1 when it holds a double space, and the split then always has a second piece. So this branch never raises (`DoubleSpaceNeverRaises`).
- **`Square.name`** returns `'Circle'`, as written (`composite.py` lines 158-161).

## Model

| member | source | states |
|---|---|---|
| DoctorRecords.BuildFieldMap | health_info/scrape_doctor.py:103-110 | the loop over the table rows leaves exactly the map `FieldMapOf` of the rows (each row with both cells stores its data under its label, in order) |
| DoctorRecords.FieldMapLastWins | health_info/state.py:36-43 | a label is a key iff some row carries it with a data cell, and its value is that of the last such row (later duplicates overwrite) |
| DoctorRecords.GetIsLastValue | health_info/scrape_doctor.py:177-199 | `data.get(k, "")` equals the independent reference reading: the value of the last paired row labelled k, else "" |
| DoctorRecords.MissingLabelIsEmpty | health_info/state.py:71-92 | a label no paired row carries reads as "" |
| DoctorRecords.DedupKeepsFirst | health_info/scrape_doctor.py:20-21 | every kept task is the first input task with its URL |
| DoctorRecords.DedupUnique | health_info/state.py:9-10 | no URL is kept twice |
| DoctorRecords.DedupComplete | health_info/scrape_doctor.py:20-21 | every input URL is kept |
| DoctorRecords.Dedup | health_info/scrape_doctor.py:20-21 | no more tasks come out than went in, and each one kept is an input task |
| DoctorRecords.DedupInOrder | health_info/state.py:9-10 | the result is exactly the input at the positions where a URL first occurs, in increasing order of position |
| DoctorRecords.SomesAreOutcomes | health_info/scrape_doctor.py:239-241 | a record is kept iff some task's outcome is that record |
| PyStr.Strip | health_info/scrape_doctor.py:36 | `strip()` leaves no whitespace at either end and adds no character |
| PyStr.StripInfix | health_info/scrape_doctor.py:36 | `strip()` returns an infix of the text with only whitespace before and after it; with the above, exactly the leading and trailing whitespace is cut |
| PyStr.JoinSplitOn | health_info/scrape_doctor.py:153 | joining the pieces of `s.split(sep)` with sep gives s back |
| PyStr.SplitOnCount | health_info/scrape_doctor.py:151-155 | `s.split(sep)` has a second piece iff `sep in s` |
| PyStr.RSplitOnce | health_info/scrape_doctor.py:52 | `rsplit(c, 1)` is the whole string without c, else the text before and after the last c, with no c in the second piece |
| PyStr.SplitWsJoin | health_info/state.py:69 | `" ".join(words).split()` gives the words back |
| PyStr.RemoveAllIsJoinSplit | health_info/scrape_doctor.py:59 | `s.replace(p, '')` equals `''.join(s.split(p))` |
| PyStr.Digits | health_info/scrape_doctor.py:55 | the digit filter keeps only digits and keeps an all-digit text whole |
| PyStr.DigitsAppend | health_info/scrape_doctor.py:55 | the digit filter distributes over concatenation |
| PyStr.DigitsOne | health_info/scrape_doctor.py:55 | one character is kept iff it is a digit; with the above, the result is the text's digits in order |
| PyStr.RSplitOnceAt | health_info/scrape_doctor.py:161 | `rsplit(c, 1)` of `before + c + after` with no c in after is `[before, after]` |
| PyStr.FirstPieceIs | health_info/scrape_doctor.py:153-155 | the first piece of `split(c)` is the text up to the first c, or the whole text without one |
| ScrapeDoctor.NonBlankLines | health_info/scrape_doctor.py:36 | the kept lines are non-empty, stripped at both ends and no more than the input lines |
| ScrapeDoctor.NonBlankLinesAppend | health_info/scrape_doctor.py:36 | the line filter distributes over concatenation |
| ScrapeDoctor.NonBlankLinesOne | health_info/scrape_doctor.py:36 | one line is kept, stripped, iff it is not blank; with the above, the result is the non-blank stripped lines in input order |
| ScrapeDoctor.AddressFromLines | health_info/scrape_doctor.py:38-64 | the postcode is at most five characters, all digits |
| ScrapeDoctor.ParseAddress | health_info/scrape_doctor.py:29-64 | `parse_address` always returns a postcode of at most five digits |
| ScrapeDoctor.ParseAddressByLines | health_info/scrape_doctor.py:30-48 | empty text gives three empty fields; the street is the first non-blank line; a single line leaves city and postcode empty; only the first and the last line matter |
| ScrapeDoctor.AddressComma | health_info/scrape_doctor.py:51-55 | with a comma on the last line, the city is the stripped text before its last comma and the postcode the first five digits after it |
| ScrapeDoctor.AddressNoComma | health_info/scrape_doctor.py:56-59 | without one, the postcode is the last five digits and the city the line with them removed, stripped |
| ScrapeDoctor.ParseName | health_info/scrape_doctor.py:119-141 | the forename is a text iff the heading has a double space; otherwise it is the `rsplit` list and the surname stays empty |
| ScrapeDoctor.DoubleSpaceNeverRaises | health_info/scrape_doctor.py:125-127 | with a double space, the length guard holds and the split has a second piece |
| ScrapeDoctor.DoubleSpaceName | health_info/scrape_doctor.py:125-131 | the title is the second chunk; the surname is the last word of the first chunk; forename words plus surname give back all its words (both empty when it has none); the forename is its words joined by single spaces, so "" for a one-word chunk |
| ScrapeDoctor.CommaName | health_info/scrape_doctor.py:133-141 | without a double space the surname is empty and the forename is the `rsplit` list, which rejoins to the heading; the title is the text after the last comma, or empty without a comma |
| ScrapeDoctor.ParsePracticeAddress | health_info/scrape_doctor.py:145-169 | the statements, including the scan loop, compute `PracticeAddress` |
| ScrapeDoctor.NewlineAddress | health_info/scrape_doctor.py:151-157 | newline form: street, newline and city start the text; the city has no comma; the postcode holds no space, comma or newline |
| ScrapeDoctor.CommaOnlyAddress | health_info/scrape_doctor.py:159-166 | without a newline, street and city stay empty; with neither newline nor comma all three fields are empty |
| ScrapeDoctor.NewlineStreetCity | health_info/scrape_doctor.py:151-156 | for every text with a newline: the street is the text before the first newline, the city the text after it up to the next comma, newline or end |
| ScrapeDoctor.NewlineNoCommaPostcode | health_info/scrape_doctor.py:155-157 | a second line without a comma leaves the postcode empty |
| ScrapeDoctor.NewlineCommaPostcode | health_info/scrape_doctor.py:155-157 | with a comma, the postcode is the text between the first and second spaces of the segment after it (up to the next comma, newline or end) |
| ScrapeDoctor.SecondSpacePiece | health_info/scrape_doctor.py:157 | `split(' ')[1]` is the text between the first and second spaces |
| ScrapeDoctor.NewlineCommaNoSpace | health_info/scrape_doctor.py:155-157 | a segment without a space leaves the postcode empty |
| ScrapeDoctor.CommaOnlyPostcode | health_info/scrape_doctor.py:159-166 | without a newline: the postcode is the text between the first and second spaces after the last comma, street and city empty |
| ScrapeDoctor.CommaOnlyNoSpace | health_info/scrape_doctor.py:159-166 | without a newline, and no space after the last comma: all three fields empty |
| ScrapeDoctor.PostcodeIsSecondPiece | health_info/scrape_doctor.py:151-157 | for `street\ncity, ST zip` the postcode is ST |
| ScrapeDoctor.RunAttempt | health_info/scrape_doctor.py:93-203 | one pass of the `try` block computes `Attempt` |
| ScrapeDoctor.AttemptRecord | health_info/scrape_doctor.py:172-201 | an attempt succeeds iff the page loaded with a heading; the record copies task state and URL and the five table labels, has the fixed country and empty columns, and takes name and address from the two parsers |
| ScrapeDoctor.OutcomeIsFirstSuccess | health_info/scrape_doctor.py:91-230 | `None` iff every attempt fails; otherwise the record of the first attempt that succeeds |
| ScrapeDoctor.StepsShape | health_info/scrape_doctor.py:88-216 | the politeness delay comes once and first; attempts are numbered 0, 1, … in order; each backoff sits between two attempts |
| ScrapeDoctor.Scraper.constructor | health_info/scrape_doctor.py:24-25 | results and errors start empty |
| ScrapeDoctor.Scraper.ScrapeProfile | health_info/scrape_doctor.py:84-230 | returns the outcome; appends one error naming URL and state iff it is `None`, leaving results alone; its steps are those of the attempts made |
| ScrapeDoctor.Scraper.Collect | health_info/scrape_doctor.py:239-241 | results gain the task's record if it has one; errors gain its error if it failed |
| ScrapeDoctor.Scraper.Run | health_info/scrape_doctor.py:234-244 | after de-duplication, results gain the records of the tasks in order and errors the failed tasks' entries; one pause per ten tasks |
| ScrapeDoctor.Scraper.RunTasks | health_info/scrape_doctor.py:235-244 | the loop over the tasks: same results, errors and pause count |
| ScrapeDoctor.CountPause | health_info/scrape_doctor.py:242-244 | after the i-th task the pauses taken are i / 10 |
| ScrapeDoctor.RecordsPlusErrors | health_info/scrape_doctor.py:226-241 | every task ends as exactly one record or one error |
| ScrapeDoctor.FailedAreFailedTasks | health_info/scrape_doctor.py:226-229 | an error entry exists iff some task with that URL and state failed |
| StateScraper.SplitName | health_info/state.py:68-70 | the title is the last token and the surname the one before; splitting the forename again and adding surname and title gives back every token, and the forename is its words joined by single spaces |
| StateScraper.SplitAddress | health_info/state.py:58-61 | with three tokens or more the split loses nothing and the street is its words joined by single spaces ("" for exactly three tokens); with fewer, street and city are empty and the tokens left are the state and postcode |
| StateScraper.StateFromAddress | health_info/state.py:62 | the first token of a one-word state token is the token itself |
| StateScraper.ScrapeProfile | health_info/state.py:27-98 | the statements, with the field-map loop, compute `Attempt` |
| StateScraper.AttemptRecord | health_info/state.py:45-94 | a record comes back iff the page arrived with a title heading of ≥ 3 tokens; then it holds the split name and address, the second-last address token as state (else the CSV state), the copied labels, the fixed country, the URL and "" in the eleven fixed empty columns |
| StateScraper.Collector.constructor | health_info/state.py:15 | results start empty |
| StateScraper.Collector.Run | health_info/state.py:102-108 | after de-duplication, results gain the records of the tasks in order |
| Yale.GetDepartmentUrls | yale_scrapper/yale.py:5-16 | the loop computes `DepartmentUrls`, with each KeyError as `Err`; no items give an empty map |
| Yale.ErrSticks | yale_scrapper/yale.py:11-14 | once a KeyError is raised, later items change nothing |
| Yale.OkIffWellFormed | yale_scrapper/yale.py:11-14 | the loop succeeds iff every item has a link with a url, and a text when the url holds the marker |
| Yale.KeysAreDepartmentLinks | yale_scrapper/yale.py:13-14 | on success a text is a key iff some kept item carries it, and its URL is that of the last such item |
| Yale.ValuesHoldMarker | yale_scrapper/yale.py:13 | every URL in the result contains `/myysm/people/people-by-department/` |
| Yale.DroppedItemIsIgnored | yale_scrapper/yale.py:13 | a well-formed item the filter drops can be inserted anywhere without changing the result |
| FileSystem.LinesPerNode | design-patterns/structural/composite.py:22-44 | the listing has one line per node, each starting with the indent, the node's own line first |
| FileSystem.ChildLinesPerNode | design-patterns/structural/composite.py:43-44 | the children's listing has one line per node below, each starting with the deeper indent |
| FileSystem.SumSizesAppend | design-patterns/structural/composite.py:46-47 | sizes add up over concatenated child lists |
| FileSystem.SizeAfterAppend | design-patterns/structural/composite.py:35-36 | appending a child raises the size by the child's size |
| FileSystem.SizeAfterRemove | design-patterns/structural/composite.py:38-39 | dropping child i lowers the size by that child's size |
| FileSystem.FirstIndex | design-patterns/structural/composite.py:39 | the index `list.remove` deletes is the first child equal to the argument |
| FileSystem.File.constructor | design-patterns/structural/composite.py:18-20 | a file keeps its name and size |
| FileSystem.File.GetSize | design-patterns/structural/composite.py:25-26 | a file's size is its abstract size |
| FileSystem.File.ShowDetails | design-patterns/structural/composite.py:22-23 | a file prints the one line of its abstract listing |
| FileSystem.Directory.constructor | design-patterns/structural/composite.py:31-33 | a new directory is valid and has no children |
| FileSystem.Directory.GetSize | design-patterns/structural/composite.py:46-47 | the recursion over live children computes the abstract size |
| FileSystem.Directory.SizeFrom | design-patterns/structural/composite.py:47 | the sum from child i on is the abstract sum of those children |
| FileSystem.Directory.ShowDetails | design-patterns/structural/composite.py:41-44 | the recursion over live children computes the abstract listing |
| FileSystem.Directory.DetailsFrom | design-patterns/structural/composite.py:43-44 | the listing from child i on is the abstract listing of those children |
| FileSystem.Directory.Add | design-patterns/structural/composite.py:35-36 | the component goes last, other children keep their order, and the size grows by its size |
| FileSystem.Directory.Remove | design-patterns/structural/composite.py:38-39 | absent component: ValueError, nothing changes; else its first occurrence goes, the order is kept and the size drops by its size |
| FileSystem.ClientTree | design-patterns/structural/composite.py:55-79 | the client tree totals 1600 KB and lists in eight lines |
| FileSystem.ClientSizes | design-patterns/structural/composite.py:55-76 | the abstract client tree has size 1600 and eight nodes |
| FileSystem.Documents | design-patterns/structural/composite.py:55-68 | the Documents directory holds document.txt and notes.txt |
| FileSystem.Media | design-patterns/structural/composite.py:56-73 | the Media directory holds image.jpg and the Videos directory |
| Graphics.Make | design-patterns/structural/composite.py:125-161 | a new object has no children and the given colour; its name is 'Group', or 'Circle' for both subclasses |
| Graphics.Name | design-patterns/structural/composite.py:131-161 | a plain object's name is its `_name`; `Circle` and `Square` both answer 'Circle' whatever `_name` holds |
| Graphics.Print | design-patterns/structural/composite.py:136-143 | `_print` appends the object's items and then each child's at the next depth, i.e. `Items` |
| Graphics.PrintOwn | design-patterns/structural/composite.py:137-140 | the stars, the colour when truthy, then the name and a newline |
| Graphics.ChildItemsAppend | design-patterns/structural/composite.py:142-143 | the children's items over concatenated lists concatenate |
| Graphics.ToString | design-patterns/structural/composite.py:145-148 | `__str__` concatenates the items from depth 0 |
| Graphics.OneLinePerObject | design-patterns/structural/composite.py:136-148 | without newlines in names and colours the text has one newline per object |
| Graphics.ChildrenOneLine | design-patterns/structural/composite.py:142-143 | the same for a list of children |
| Graphics.DrawingDemo | design-patterns/structural/composite.py:164-175 | the sample drawing prints `My Drawing`, `*RedCircle`, `*BlueCircle`, `*Group`, `**BlueCircle`, `**RedCircle`, one per line |
| Graphics.DrawingItems | design-patterns/structural/composite.py:164-175 | the sample drawing's items, line by line |
| Singleton.Instance.constructor | design-patterns/SingletonMeta.py:6 | an instance remembers its class and arguments |
| Singleton.SingletonMeta.constructor | design-patterns/SingletonMeta.py:2 | `_instances` starts empty |
| Singleton.SingletonMeta.Call | design-patterns/SingletonMeta.py:4-8 | the first call for a class builds and stores a fresh instance and runs its `__init__`; later calls return the stored one and run nothing; other classes' entries are unchanged |
| Singleton.LoggerTwice | design-patterns/SingletonMeta.py:11-22 | two `Logger()` calls give the same object, initialised once |
| Monostate.SharedState.constructor | design-patterns/monostate.py:2 | the shared dict starts empty |
| Monostate.Monostate.constructor | design-patterns/monostate.py:4-5 | an instance's attributes are the shared dict |
| Monostate.Monostate.Settings | design-patterns/monostate.py:8-11 | `Settings()` binds to the shared dict and sets theme to "Light" there, nothing else |
| Monostate.Monostate.Set | design-patterns/monostate.py:17 | a write updates the shared dict at that attribute only |
| Monostate.LastWriteWins | design-patterns/monostate.py:4-5 | after a series of writes, an attribute reads as its latest write |
| Monostate.LastWriteUntouched | design-patterns/monostate.py:4-5 | writes to other attributes leave it as it read before |
| Monostate.ReplayWrites | design-patterns/monostate.py:4-5 | writes through any instances of one shared dict: every attribute then reads, through any instance, as `LastWrite` of the writes |
| Monostate.WriteIsShared | design-patterns/monostate.py:4-5 | a write through one instance is read through any other of the same dict |
| Monostate.SettingsDemo | design-patterns/monostate.py:14-20 | x reads "Light", then the "Dark" written through y; y reads "Dark"; x and y are distinct |
| PersonBuilder.PersonBuilder.constructor | design-patterns/person_builder.py:5-6 | the builder holds a person of its own |
| PersonBuilder.PersonBuilder.Named | design-patterns/person_builder.py:8-10 | sets the name only and returns the builder itself |
| PersonBuilder.PersonBuilder.Aged | design-patterns/person_builder.py:12-14 | sets the age only and returns the builder itself |
| PersonBuilder.PersonBuilder.Build | design-patterns/person_builder.py:17-18 | returns the held person, not a copy |
| PersonBuilder.BuildThenRename | design-patterns/person_builder.py:4-18 | two builds return the same object, and a setter called after `build` changes the person already returned |

## Left out

- **Browser, requests and JSON:** Selenium, `requests` and `json` are not modelled; each fetch or decode is an input. The 10-second wait for the data cells therefore belongs to the fetch.
- **HTML parsing:**
  - BeautifulSoup parsing, `get_text` and `find` are not modelled.
  - The model takes as given the stripped texts of each row's cells, and the text of the name heading: the first `h2` (else the first `h1`) in `scrape_doctor.py`, the `h2` with id `title-position` in `state.py`.
  - In `parse_address`, the `<br>`-to-newline rewrite and the markup removal are not modelled; the model starts from the resulting text.
  - In `state.py`, the model takes the `"Practice Address"` value to be free of markup, and splits it with `split()`.
- **Concurrency:** the thread pools and `as_completed` are not modelled. Tasks run one after another in submission order, so the order of `results` and `errors` is the submission order rather than completion order.
- **Time:** the sleep durations and the random delays are not modelled; the pauses are only counted.
- **Output:** pandas CSV reading and writing and every `print` are left out, as are the screenshot on failure and `driver.quit`. The de-duplication of the rows is modelled.
- `ScrapeDoctor.Scraper.ScrapeProfile`: an exception escaping the `try` block is modelled as a failed attempt. A `Loaded` page stands for creating the browser, loading the URL and waiting for the data cells all succeeding; on such a page the attempt still fails when there is no heading (the `ValueError` of line 115), and nothing after that point can raise out of the block.
- `ScrapeDoctor.Scraper.Run` and `StateScraper.Collector.Run`: a record is treated as truthy. Every record is a non-empty dict, so `if result:` never drops one.
- `ScrapeDoctor.ParseName`: the heading text is taken as already stripped. Printing it in the `except` is left out.
- `StateScraper.Attempt`: the politeness sleep before the return is not modelled; neither is the `except` around a failing request, which the `None` fetch already stands for.
- **Characters:** `str.isdigit` accepts only the ASCII digits here. Python also accepts other Unicode digits.
- `yale_scrapper/yale.py`: `get_doctor_information` and the top-level call with a fixed URL are not part of this model. That function is never called; it fetches and decodes a member collection, raises `NameError` at the undefined `title` on the collection's first item, returns nothing, and on an empty collection just returns `None`.
- `coinswitch/validate_keys.py` is not part of this model.
- `FileSystem.Directory`:
  - Trees are acyclic and each directory has a distinct footprint: `Add` requires that the component's footprint not contain the directory itself.
  - When a directory placed inside another is changed later, the enclosing directory's stored tree is not restated.
- `Graphics`: a `GraphicObject` is a value tree, so the model does not capture aliasing (one object appended to two lists, or changed after being appended) or cycles; `drawing.children.append(...)` becomes building the new value.
- `Monostate.Monostate`: the class-level `_shared_state` dict is one object in the source; the model hands it to the constructors as a `SharedState` argument, so the shared-state facts (`WriteIsShared`, `ReplayWrites`) hold for instances given the same `SharedState`, and nothing forces every instance to receive the same one.
- **Abstract interfaces:** the abstract `FileSystemComponent` interface is represented by the `Component` datatype, and the `Monostate` base class by the class plus its `Settings` constructor.
- `PersonBuilder.Person`: the `Person` class (`models/person.py`) is not part of this model. It is taken to have a name and an age, with unknown initial values.
- `Singleton.SingletonMeta.Call`: keyword arguments are not modelled, and `Logger.log` (a print) is left out.
