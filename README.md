# Campus course domain: a Dafny model

This project models the sequential logic of the campus-course dialog
domain. The dialog framework itself is not modelled. The modules are:

- **CampusApi**: the paging client of the university's course API. The
  page size is clamped below 100, and `skip` advances by one page per
  call. The client latches `finished` once `skip` passes the reported
  course total; after that every call answers `None`. Course ids are
  extracted from a page, and unparsable resources are skipped.
- **CleanTopics**: cleaning of the topic n-gram list. `clean_numbers` and
  `clean_non_words` are modelled, and so is the main loop. That loop keeps
  the lines with exactly two tab-separated fields whose cleaned n-grams are
  longer than 3 characters. It merges them into an insertion-ordered count
  table: the first occurrence stores the line's count, and every repeat
  adds 1. The table is then written as `ngram<TAB>count<NEWLINE>` lines.
- **CreateNlu**: the generator of NLU rules. It writes one inform rule per
  binary informable and one request rule per requestable. Each section
  opens with a blank line.
- **CreateNlg**: the generator of NLG templates. It writes a header and one
  request template per requestable slot, starting at
  `american_literature_culture`.
- **CampusSql**: the course record. This covers its constructor,
  `fill_slot_values`, `to_dict`, the random binary slots, and the columns,
  values and placeholder string built by `insert_data_to_db`.
- **JsonLookupDomainApi**: the registration branch of
  `find_info_about_entity`. It maps the campus API lookup to a one-element
  answer.
- **TestService** and **TestService2**: the example publish/subscribe
  handlers, and the three-message scenario as the model routes it in one
  turn.
- **Messages** holds the topic and payload values the handlers return.
- **PyStr** models the Python string builtins the source relies on: `strip`,
  `split`, `join`, `str(int)` and `int(str)`.

The model uses ASCII for the regular-expression classes `\d` and `\W` and
for white space. The following become inputs:

- HTTP pages and course documents;
- the registration lookup;
- the ontology lists;
- the lines of the topic file.

## Model

| member | source | states |
|---|---|---|
| CampusApi.ClampStep | adviser/utils/campus_api.py:23-25 | a step of 100 or more becomes 50, a smaller step is kept, and the result is always below 100 |
| CampusApi.CampusApi.constructor | adviser/utils/campus_api.py:22-31 | a fresh client has the clamped step (25 when none is given), `skip` 0, `top` equal to the step, no total and `finished` false |
| CampusApi.CampusApi.GetCourseIdsFromBatch | adviser/utils/campus_api.py:67-75 | the loop returns exactly the ids of the parsable resources, in batch order |
| CampusApi.CampusApi.FetchCourses | adviser/utils/campus_api.py:52-53 | the loop fetches one course per id, in id order |
| CampusApi.ParsedIdsMembers | adviser/utils/campus_api.py:67-75 | an id is extracted iff some resource of the batch carries it; nothing is dropped when every resource parses |
| CampusApi.ParsedIdsConcat | adviser/utils/campus_api.py:69-71 | extraction distributes over concatenated batches, so ids keep resource order |
| CampusApi.FetchAll | adviser/utils/campus_api.py:52-53 | one fetched course per id |
| CampusApi.CampusApi.GetNextBatchOfCourses | adviser/utils/campus_api.py:38-62 | once finished: `None` and no field changes. Otherwise: one course per extracted id, in order; `skip` grows by exactly `step`; `step` and `top` never change; the total is read while it is unset or 0 and kept after that; `finished` is set iff the new `skip` exceeds the total; the client invariant holds |
| CampusApi.DownloadAllCourses | adviser/utils/campus_api.py:84-97 | calling until `None`, with a positive step and a fixed total T, yields exactly T / step + 1 batches |
| CleanTopics.CleanNumbers | adviser/utils/clean_topics.py:7-8 | the result holds no digit and has no white space at either end |
| CleanTopics.CleanNonWords | adviser/utils/clean_topics.py:11-12 | the result is empty or begins and ends with a word character |
| CleanTopics.CleanNumbersIdempotent | adviser/utils/clean_topics.py:7-8 | cleaning numbers twice equals cleaning once |
| CleanTopics.CleanNonWordsIdempotent | adviser/utils/clean_topics.py:11-12 | cleaning non-word ends twice equals cleaning once |
| CleanTopics.CleanLineNgrams | adviser/utils/clean_topics.py:25-30 | the token loop gives the numbers-cleaned field, each token cleaned and all joined by blanks |
| CleanTopics.CleanTokens | adviser/utils/clean_topics.py:26-28 | the inner loop cleans every token of the field, in order |
| CleanTopics.CleanAllNoSpace | adviser/utils/clean_topics.py:27-28 | cleaning tokens that hold no white space leaves them without white space |
| CleanTopics.CleanNgramsNoBreaks | adviser/utils/clean_topics.py:25-30 | a cleaned n-gram string holds no white space except blanks |
| CleanTopics.LineEntryOneTab | adviser/utils/clean_topics.py:23-24 | a line contributes iff its stripped text holds exactly one tab, that is, two fields |
| CleanTopics.Kept | adviser/utils/clean_topics.py:31 | only entries whose cleaned n-grams are longer than 3 characters are stored |
| CleanTopics.AddEntry | adviser/utils/clean_topics.py:32-35 | a known key gains 1 and its count field is not read; a new key is appended with its parsed count, and the update fails iff that count does not parse; the table invariant is kept |
| CleanTopics.FoldCounts | adviser/utils/clean_topics.py:21-35 | folding entries succeeds iff every first count parses; then the table summarises them |
| CleanTopics.AggregateCounts | adviser/utils/clean_topics.py:20-35 | the table is built iff every key's first count parses; then its keys are the kept keys once each, in order of first occurrence, and each count is the first count plus the number of later repeats |
| CleanTopics.FoldFailureStays | adviser/utils/clean_topics.py:33 | once a count field fails to parse, the whole run fails |
| CleanTopics.RenderLineCount | adviser/utils/clean_topics.py:38-39 | with keys free of line breaks, the output has one line per key |
| CleanTopics.KeptNoBreaks | adviser/utils/clean_topics.py:23-31 | a stored n-gram string holds neither a tab nor a line break |
| CleanTopics.KeyFromLine | adviser/utils/clean_topics.py:22-35 | every key of the table is the cleaned n-gram string of some kept line |
| CleanTopics.OneLinePerKey | adviser/utils/clean_topics.py:37-39 | no stored key holds a tab or a line break, so the written file has exactly one line per key |
| CleanTopics.StoreNgrams | adviser/utils/clean_topics.py:32-35 | one table update equals the specification's update for that entry |
| CleanTopics.StoreLine | adviser/utils/clean_topics.py:23-35 | one loop iteration equals the specification's step for that line |
| CleanTopics.WriteTable | adviser/utils/clean_topics.py:38-39 | the output loop writes the rendering of the keys in order |
| CleanTopics.AggregateLines | adviser/utils/clean_topics.py:20-35 | the reading loop builds the specified table, or fails exactly where `int(count)` raises |
| CleanTopics.CleanTopicFile | adviser/utils/clean_topics.py:20-39 | the script fails iff the aggregation fails; otherwise it writes the rendering of the aggregated table |
| PyStr.SplitCount | adviser/utils/clean_topics.py:23 | `split` on a character yields one more field than the text holds separators |
| PyStr.JoinSplit | adviser/tools/create_nlu.py:55 | joining the fields of `split(c)` with `d` replaces every `c` by `d` |
| PyStr.ParseIntToString | adviser/utils/clean_topics.py:39 | `int(str(n)) == n` for every integer n, so every written count reads back |
| CreateNlu.HumanReadable | adviser/tools/create_nlu.py:55 | every underscore becomes a blank: same length, no underscore left |
| CreateNlu.InformLines | adviser/tools/create_nlu.py:56-64 | an inform rule has nine lines: a header, a `"true"` branch and a `"false"` branch, each branch followed by three quoted utterance lines |
| CreateNlu.RequestBody | adviser/tools/create_nlu.py:72-84 | a request rule starts with `rule request(R)`; it uses "is it about …" iff R is binary and "show me the …" otherwise |
| CreateNlu.InformTopicsMembers | adviser/tools/create_nlu.py:50-53 | an inform rule is written for a topic iff it is informable and binary |
| CreateNlu.InformTopicsConcat | adviser/tools/create_nlu.py:50-53 | the binary filter distributes over concatenation, so rules keep informable order |
| CreateNlu.EmitJoin | adviser/tools/create_nlu.py:49-65 | a section is its opening line break followed by its rules separated by single line breaks |
| CreateNlu.WriteInformRules | adviser/tools/create_nlu.py:49-66 | the inform loop, which reassigns the line break, writes the inform section of the binary informables |
| CreateNlu.WriteRequestRules | adviser/tools/create_nlu.py:69-87 | the request loop writes the request section, one rule per requestable, in order |
| CreateNlu.RequestStep | adviser/tools/create_nlu.py:69-87 | each iteration writes the next requestable's rule after the current line break |
| CreateNlu.GenerateNlu | adviser/tools/create_nlu.py:46-87 | the appended text is the inform section followed by the request section |
| CreateNlu.NluContents | adviser/tools/create_nlu.py:50-87 | the informed topics are exactly the binary informables (all of them, in order, when every informable is binary); there is one request rule per requestable |
| CreateNlg.TemplateSlot | adviser/tools/create_nlg.py:28-29 | a template starts with `template request(`, holds the slot name in both lines and ends with `?` and a blank line |
| CreateNlg.IndexOf | adviser/tools/create_nlg.py:27 | `index` finds the first occurrence, and fails iff the slot is absent |
| CreateNlg.TemplatesConcat | adviser/tools/create_nlg.py:27-29 | templates distribute over concatenated slot lists, so they follow list order |
| CreateNlg.WriteTemplates | adviser/tools/create_nlg.py:27-29 | the loop writes one template per slot, in order |
| CreateNlg.GenerateNlg | adviser/tools/create_nlg.py:26-29 | the generator appends the header before looking for the marker, and its outcome equals the specified one |
| CreateNlg.NlgTextSpec | adviser/tools/create_nlg.py:26-29 | generation fails iff the marker slot is absent, and then only the header has been appended. Otherwise the text is the header, the marker's template, and the templates of every later slot |
| CreateNlg.ScriptAsWrittenFails | adviser/tools/create_nlg.py:25 | as written, the script always fails on the undefined attribute `nlu`, having appended nothing |
| CreateNlg.ScriptGenerates | adviser/tools/create_nlg.py:14-29 | opening the file named by `nlg` yields the template text, and succeeds iff the marker slot is present |
| CampusSql.DictKeysMatchTable | adviser/utils/campus_sql.py:159-179 | the 20 dictionary keys are distinct and are exactly the 20 table columns |
| CampusSql.Course.constructor | adviser/utils/campus_sql.py:10-36 | every field is `None` and the lecturer list is empty |
| CampusSql.Course.FillSlotValues | adviser/utils/campus_sql.py:38-43 | elements 0 to 4 go to ml, engineering, politics, literature and culture; at least 5 elements are needed; no other field changes |
| CampusSql.Course.ToDict | adviser/utils/campus_sql.py:45-67 | 20 keys in a fixed order, each paired with its own field; `further_info` appears under `extra_info`, `ml` under `machine_learning`, and the lecturers joined by `", "` |
| CampusSql.RandomSlots | adviser/utils/campus_sql.py:146-149 | five slot values, each `'true'` or `'false'` |
| CampusSql.AddDummySlots | adviser/utils/campus_sql.py:146-150 | after filling, every binary slot holds `'true'` or `'false'`, and every other field keeps its value |
| CampusSql.Stored | adviser/utils/campus_sql.py:191-192 | a falsy value becomes `'na'` and a truthy one is kept |
| CampusSql.ColumnsAndValues | adviser/utils/campus_sql.py:190-195 | columns and values follow dictionary order, with falsy values replaced |
| CampusSql.InsertStatement | adviser/utils/campus_sql.py:185-198 | the columns are the dictionary keys and the values are the stored values, 20 of each; the statement is built from them |
| CampusSql.CountPlaceholders | adviser/utils/campus_sql.py:197 | n placeholders joined by commas hold exactly n question marks |
| CampusSql.PlaceholderCount | adviser/utils/campus_sql.py:198 | with column names free of `?`, the statement holds one `?` per value |
| CampusSql.DictKeysHaveNoPlaceholder | adviser/utils/campus_sql.py:45-67 | no dictionary key holds a `?` |
| CampusSql.InsertPlaceholders | adviser/utils/campus_sql.py:197-198 | for every course, the statement holds exactly 20 placeholders, one per value |
| JsonLookupDomainApi.RegistrationLink | adviser/utils/domain/jsonlookupdomain_api.py:34-42 | the first link found, or "The link could not be found." |
| JsonLookupDomainApi.RegistrationInfo | adviser/utils/domain/jsonlookupdomain_api.py:27-54 | one dictionary. Its outcome is, each iff its cause: `exception`; `not_found`; `True` for RUNNING; `False` for NONE; `unexpected_status` otherwise. It carries the link exactly for True/False, and the status text and course id exactly for unexpected_status |
| JsonLookupDomainApi.FindInfoAboutEntity | adviser/utils/domain/jsonlookupdomain_api.py:26-57 | requested slots naming `registration` get the one-element registration answer; any other request gets the parent lookup's answer unchanged |
| TestService.Concatenate | adviser/examples/webapi/campus_courses/test_service.py:19-28 | exactly one key, among the declared C and D; it is D iff A = 3 and C iff A ≠ 3; the value is `str(A) + " " + B` |
| TestService2.SendA | adviser/examples/webapi/campus_courses/test_service_2.py:40-43 | publishes exactly `{'A': a}` |
| TestService2.SendB | adviser/examples/webapi/campus_courses/test_service_2.py:45-48 | publishes exactly `{'B': "messages dropped!"}` |
| TestService2.PrintC | adviser/examples/webapi/campus_courses/test_service_2.py:21-25 | publishes DIALOG_END: True iff the text holds a `4`, otherwise nothing |
| TestService2.PrintD | adviser/examples/webapi/campus_courses/test_service_2.py:16-19 | never publishes |
| TestService2.TurnStart | adviser/examples/webapi/campus_courses/test_service_2.py:28-38 | sends A = 2, 3, 4 in increasing order, each followed by exactly one B |
| TestService2.Answer | adviser/examples/webapi/campus_courses/test_service.py:19-28 | an `A` other than 3 joined with the `B` text goes to C and reaches `print_c`; A = 3 goes to D and publishes nothing |
| TestService2.TurnScenario | adviser/examples/webapi/campus_courses/test_service_2.py:21-25 | each turn message joined by `concatenate` is published to C, D and C in turn, and only the third ends the dialog |

## Left out

- The dialog framework (`Service`, `PublishSubscribe`, `DialogSystem`, topic routing and the turn loop) is not part of this model. `TestService2.Deliver` and `TestService2.Combine` stand in for the routing the scenario needs.
- HTTP requests and XML/XPath parsing in campus_api.py and jsonlookupdomain_api.py are not modelled. Pages, course documents, status texts and links are inputs.
- `_get_total_number_of_courses` is not modelled. The total is a field of the page input, so an unparsable total is not modelled.
- `get_course_info` (XML extraction of one course) is not part of this model; only its closing dummy-slot step is.
- SQLite is not modelled: `create_table`, `cursor.execute` and `commit`. The CREATE TABLE statement appears only as its column list. The database query in the registration lookup is an input.
- File reading and writing, `argparse`, the `os.path.isfile` checks, `print`, `logger`, `tqdm` and `time.sleep` are left out. The file generators return the text they append to the file. The NLG generator returns it on failure too, since its header is written before the marker lookup fails.
- The loops that read the ontology JSON into `topics`, `requestables` and `binaries` are left out. Those lists and the set are inputs.
- `random.randint` is left out: each slot value is a nondeterministic choice, with no distribution.
- `\d`, `\W` and white space are ASCII only. `int()` accepts an optional sign and ASCII digits, and rejects digit-separating underscores and non-ASCII digits.
- CampusSql.Course field values are `None` or strings. The source might also store non-string values there, and those are not modelled.
- JsonLookupDomainApi.FindInfoAboutEntity takes the requested slots as an optional key set, not a dictionary. A `None` or empty collection falls through to the parent lookup, as in `requested_slots and …`.
- TestService.Concatenate takes an integer A and a string B. The model chooses not to represent the `None` defaults of both parameters, so a call with a missing value is not covered.
- CampusApi.DownloadAllCourses requires a positive step and a non-negative total that every page reports alike. With a non-negative total, only a step of 0 or less keeps the client loop going forever; a negative total with a positive step ends it on the first call. The hypotheses on the total are there for the `total / step + 1` count, not for termination.
- Of the main block of campus_api.py (lines 79-97), only the client loop of lines 84-97 is modelled, by CampusApi.DownloadAllCourses. That method counts the batches rather than `courses_count`, and takes any requested step instead of the fixed `CampusApi(5)`. The single-course request at line 81 and the printing of counts and titles are left out.
- The main block of campus_sql.py, adviser/main.py, and jsonlookupdomain_large.py are not part of this model.

## Findings

| source | as written | input that shows it | evidently intended | confidence | as-written member | corrected member |
|---|---|---|---|---|---|---|
| adviser/tools/create_nlg.py:25 | the script opens `args.nlu`, but the parser at lines 8-11 defines only `ontology` and `nlg`, so it raises before writing anything | any invocation, for example with the requestable list `["american_literature_culture"]` | open `args.nlg`, the file whose existence lines 14-16 check | not executed | CreateNlg.ScriptAsWrittenFails | CreateNlg.ScriptGenerates |
