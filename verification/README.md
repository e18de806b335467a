# Simple-Graphrag core, modelled in Dafny

This project models the pure parts of Simple-Graphrag, a small toolkit around GraphRAG:

- **Command runners.** `CommandRunner` in `api_utils/index_api.py` builds the `poetry run poe index` and `poe prompt_tune` argument lists from a request record. It drops every falsy argument and replaces an empty stderr with `"none"`. Its earlier revision in `api_utils/api.py` builds only the index command, drops falsy arguments the same way, and returns stderr untouched. Both hand out a single shared runner instance.
- **Dotenv reader.** `DotenvManager.read_env` (`api_utils/config.py`) turns the lines of a `.env` file into a dictionary.
- **Config reconciliation.** `RagClientInit.initialize_config` (`api_utils/rag_client_init.py`) copies the user's API key into the engine's `.env`. It then writes the user's endpoint, model and claim-extraction choices into the loaded `settings.yaml` tree. `get_config_for_query` reads back the API key.
- **Timetable rewrite.** `CSVProcessor.process_csv` / `_process_row` (`brief_file_utils/data_processor.py`, and the identical copy `csv-utils/process-data.py`) rewrite the period numbers inside each weekday block of a timetable to `第N节`.
- **Graph widget helpers.** The helpers of `parquet-utils/visualize-test.py`:
  - de-duplicate entities into widget nodes;
  - map relationships to edges;
  - colour a community;
  - find an edge's source community.

## How it is modelled

The modules follow the program's structure:

- **Helpers.**
  - `Wrappers` holds `Option`/`Result`.
  - `Decimal` models Python's `str(int)` and gives it a parse-back partner.
  - `Argv` models the list comprehension `[arg for arg in command if arg]`. Each slot is an `Option<string>`, and `None` and `""` are the falsy ones.
- **Runners.**
  - `Requests` holds the request records and their defaults.
  - `Runner` holds the captured output, the `"none"` rule and the singleton registry.
  - `IndexApi` and `Api` are the two runner revisions.
- **Dotenv and YAML.**
  - `Dotenv` is `read_env`. It includes Python's `str.strip` and `split("=", 1)`.
  - `Settings` is a YAML document as a tree, read and assigned along key paths.
- **`RagClientInit`.** `initialize_config` and `get_config_for_query`.
- **`Timetable`.** `process_csv`.
- **`GraphWidget`.** The visualisation helpers.

Subprocesses and files are outside the model:

- The process launcher (`subprocess.run`) is a function parameter `Exec` from the argument list to the captured `(stdout, stderr)`.
- File contents are parameters:
  - the `.env` file is its list of lines;
  - `settings.yaml` is an already-loaded tree;
  - the timetable is an already-read grid.

A Python exception is an `Err` value:
- `read_env` yields `NotEnoughValues(line)` at the first line that has no `=`.
- In `initialize_config`, a missing `GRAPHRAG_API_KEY` yields `KeyNotWritten`. `user_config.get` gives `None`, and python-dotenv's `set_key` raises on a value that is not a string. This happens before any settings statement runs.
- Indexing a non-mapping YAML node yields `Err(container path)`.
- A missing source node in `edge_to_source_community` yields `NoSourceNode`.

Each error is produced in the same order as the source raises it.

## Model

| member | source | states |
|---|---|---|
| Decimal.IntToString | api_utils/index_api.py:129 | `str(n)` is a non-empty decimal text, with a leading `-` exactly for negative numbers. It has no leading zero: only `0` itself starts with `0`, and no digit run after `-` does. |
| Decimal.NatToStringRoundTrip | api_utils/index_api.py:132 | Parsing the decimal text of a natural number gives the number back. |
| Decimal.IntToStringRoundTrip | api_utils/index_api.py:134 | Parsing `str(n)` gives `n` back, for negative numbers too. |
| Decimal.IntToStringInjective | api_utils/index_api.py:128-134 | Different numbers give different argument strings. |
| Argv.DropFalsy | api_utils/index_api.py:69 | The filtered command never contains an empty string and is never longer than the template. |
| Argv.DropFalsyAppend | api_utils/index_api.py:91 | Filtering distributes over concatenation, so surviving arguments keep their relative order. |
| Argv.DropFalsyCounts | api_utils/index_api.py:111 | Every non-empty string appears in the command exactly as often as in the template; `""` never appears. |
| Argv.DropFalsyLiterals | api_utils/index_api.py:139 | A run of non-empty literal arguments passes through the filter unchanged. |
| Requests.NewIndexingRequest | api_utils/api.py:6-18 | `IndexingRequest(root=root)` keeps the root and has every other field at its default. `init` is on, the other flags are off, the optional strings are `None`, and `update_index_id` is falsy. |
| Requests.DefaultIndexingRequest | api_utils/index_api.py:14-26 | `IndexingRequest()` of the later revision has root `./ragtest` and the same defaults for every other field. |
| Requests.IndexingDefaultsDetermine | api_utils/index_api.py:14-26 | A request has the default field values iff it equals the constructor's request for its root. |
| Requests.PromptTuneDefaultsCompared | api_utils/api.py:20-29 | The two revisions share limit 15, 2048 max tokens, chunk size 256 and no domain/language. The later one suppresses entity types by default and the earlier one does not. |
| Runner.ReportNoneIfEmpty | api_utils/index_api.py:71-73 | stdout is passed through. stderr is kept when non-empty and becomes `"none"` exactly when it was empty. |
| Runner.ReportNoneIfEmptyIdempotent | api_utils/index_api.py:93-95 | Applying the `"none"` rule twice is the same as applying it once. |
| Runner.Obtain | api_utils/index_api.py:45-52 | `CommandRunner()` returns the stored instance when there is one. Otherwise it stores and returns the new one. |
| Runner.Destroy | api_utils/index_api.py:54-57 | `destroy_instance` empties the registry. |
| Runner.ObtainAllSame | api_utils/index_api.py:46-52 | Once an instance exists, every later construction returns that instance. |
| Runner.FirstInstanceShared | api_utils/api.py:35-40 | From an empty registry, every construction returns the instance the first one allocated. |
| IndexApi.IndexingCommandDefault | api_utils/index_api.py:59-69 | The command is the `poetry run poe index` launcher, then `--init` iff `init`, then `--root` and the root when it is non-empty. No argument is empty. |
| IndexApi.IndexingCommand | api_utils/index_api.py:75-91 | The default indexing command is followed by `--config`, `--resume` and `--emit`, each always present. Each value follows only when it is set and non-empty. |
| IndexApi.IndexingConfigDangles | api_utils/index_api.py:84-91 | With no config path, resume or emit value the three flags still appear, back to back with no values. |
| IndexApi.PromptTuneCommandDefault | api_utils/index_api.py:97-111 | The command is the `poe prompt_tune` launcher followed by `--root`, `--config` and `--output` with their non-empty values. `--no-entity-types` is added iff requested. No argument is empty. |
| IndexApi.PromptTuneHead | api_utils/index_api.py:118-127 | The head is the launcher, root and config, then `--domain` iff a non-empty domain is set. |
| IndexApi.PromptTuneSizes | api_utils/index_api.py:128-134 | The middle part is `--limit` with `str(limit)`, then `--language` iff set, then `--max-tokens` and `--chunk-size` with their decimal values. |
| IndexApi.PromptTuneTrailer | api_utils/index_api.py:135-137 | The tail is `--no-entity-types` iff requested, then `--output` with its non-empty value. |
| IndexApi.HeadMembers | api_utils/index_api.py:118-127 | Among `--` strings other than `--root` and `--config`, only `--domain` can occur in the head, and it does iff a domain is set (given no path argument equals it). |
| IndexApi.SizesMembers | api_utils/index_api.py:128-134 | Among `--` strings other than the three number flags, only `--language` can occur in the middle part, and it does iff a language is set. No decimal value is mistaken for a flag. |
| IndexApi.TrailerMembers | api_utils/index_api.py:135-137 | Apart from `--output` and the output path, the tail holds `--no-entity-types` iff it is requested. |
| IndexApi.PromptTuneDefaultHead | api_utils/index_api.py:118-127 | Without a domain, and with non-empty root and config paths, the head is the launcher, `--root` and its path, `--config` and its path. |
| IndexApi.PromptTuneDefaultSizes | api_utils/index_api.py:128-134 | With limit 15, 2048 max tokens, chunk size 256 and no language, the middle part is `--limit 15 --max-tokens 2048 --chunk-size 256`. |
| IndexApi.PromptTuneDefaultTrailer | api_utils/index_api.py:135-137 | With entity types suppressed and a non-empty output path, the tail is `--no-entity-types --output` and the path. |
| IndexApi.PromptTuneCommand | api_utils/index_api.py:117-139 | The full command is head + sizes + tail and contains no empty argument. |
| IndexApi.RunIndexingCommandDefault | api_utils/index_api.py:70-73 | The launcher gets exactly the default indexing command. stdout comes back unchanged, and stderr comes back with the `"none"` rule applied. |
| IndexApi.RunIndexingCommand | api_utils/index_api.py:92-95 | Same as the default run, for the extended indexing command. |
| IndexApi.RunPromptTuneCommandDefault | api_utils/index_api.py:112-115 | Same as the default run, for the default prompt-tuning command. |
| IndexApi.RunPromptTuneCommand | api_utils/index_api.py:140-143 | Same as the default run, for the full prompt-tuning command. |
| IndexApi.DecimalIsNotFlag | api_utils/index_api.py:129 | A number's decimal text never starts with `--`, so it cannot be mistaken for a flag. |
| IndexApi.PromptTuneDomainValueIgnored | api_utils/index_api.py:127 | The command depends only on whether a domain is set, not on its value. The domain text is never passed. |
| IndexApi.PromptTuneLanguageValueIgnored | api_utils/index_api.py:130 | The command depends only on whether a language is set, not on its value. |
| IndexApi.PromptTuneDomainFlagIff | api_utils/index_api.py:127 | `--domain` appears in the command iff a non-empty domain is set (given no path argument equals it). |
| IndexApi.PromptTuneLanguageFlagIff | api_utils/index_api.py:130 | `--language` appears in the command iff a non-empty language is set (given no path argument equals it). |
| IndexApi.PromptTuneNoEntityTypesIff | api_utils/index_api.py:135 | `--no-entity-types` appears iff `no_entity_types` is true (given no path argument equals it). |
| IndexApi.PromptTuneDefaultNoEntityTypesIff | api_utils/index_api.py:109 | Same as `PromptTuneNoEntityTypesIff`, for the default prompt-tuning command. |
| IndexApi.PromptTuneNumbersFollowFlags | api_utils/index_api.py:128-134 | `--limit`, `--max-tokens` and `--chunk-size` are each followed by the decimal text of their number. |
| IndexApi.IndexingDefaultExample | api_utils/index_api.py:148-150 | `IndexingRequest(init=False)` yields `poetry run poe index --root ./ragtest`. |
| IndexApi.PromptTuneDefaultExample | api_utils/index_api.py:29-38 | `PromptTuneRequest()` yields the full command with limit 15, 2048 tokens, chunk size 256, `--no-entity-types` and the default paths. |
| Api.IndexingCommand | api_utils/api.py:42-48 | The earlier revision's command is the launcher, `--init` iff requested, then `--root` with its value when non-empty. No argument is empty. |
| Api.RunIndexingCommand | api_utils/api.py:49-50 | The earlier revision returns stdout and stderr untouched, with no `"none"` substitution. |
| Api.RevisionsAgree | api_utils/api.py:42-50 | Both revisions launch the same default indexing command. The later one differs only when stderr is empty. |
| Api.IndexingExample | api_utils/api.py:53-56 | `IndexingRequest(root="./ragtest")` yields `poetry run poe index --init --root ./ragtest`. |
| Dotenv.Strip | api_utils/config.py:18 | `strip()` never grows the line and leaves no whitespace at either end. It is empty iff the line is all whitespace. |
| Dotenv.StripIsSlice | api_utils/config.py:18-19 | The stripped line is a contiguous slice of the line with only whitespace removed around it. |
| Dotenv.StripIdempotent | api_utils/config.py:19 | Stripping twice is stripping once. |
| Dotenv.SplitAtEquals | api_utils/config.py:19 | `split("=", 1)` fails iff there is no `=`. Otherwise key + `=` + value is the text and the key has no `=`. |
| Dotenv.SplitAtEqualsJoin | api_utils/config.py:19 | Splitting `k=v` with `=`-free `k` gives back `k` and `v`: split is the inverse of join. |
| Dotenv.ParseLine | api_utils/config.py:18-19 | A line is skipped iff it strips to empty or starts with `#`. A kept line is a pair iff it contains `=`. The pair joins back to the stripped line. |
| Dotenv.Collect | api_utils/config.py:15-21 | Collection succeeds iff no kept line lacks `=`, and each key then maps to the value of its last line. Otherwise the error names the first line without `=`. |
| Dotenv.ReadEnv | api_utils/config.py:14-21 | `read_env` succeeds iff no line is kept without `=`. On success each key maps to its last value. On failure the error names the first line without `=`. |
| Dotenv.LastValueIsLastLine | api_utils/config.py:20 | The value found for a key is the one on the last line that defines it, and no later line defines it. |
| Dotenv.ReadEnvKeys | api_utils/config.py:17-20 | On a successful read, the dictionary's keys are exactly the keys of the pair lines. |
| Dotenv.FailsAtFirstMalformed | api_utils/config.py:19 | When line `j` is the first kept line without `=`, reading fails at line `j` whatever follows. |
| Dotenv.StripPadded | api_utils/config.py:18 | Surrounding whitespace is removed from text whose ends are not whitespace. |
| Dotenv.ParseLineVerbatim | api_utils/config.py:19-20 | A stripped `k=v` line with `=`-free, non-`#` key gives the pair `(k, v)`. |
| Dotenv.SpacesAroundEqualsKept | api_utils/config.py:19-20 | `k = v` keeps the space at the end of the key and at the start of the value. |
| Dotenv.QuotesKept | api_utils/config.py:19-20 | Quotes around a value are part of the value. |
| Dotenv.SplitsAtFirstEquals | api_utils/config.py:19 | A value may contain `=`, because only the first `=` splits. |
| Dotenv.CommentSkipped | api_utils/config.py:18 | A line starting with `#` is skipped. |
| Dotenv.IndentedCommentNoEquals | api_utils/config.py:18-19 | An indented `#` line without `=` is kept and fails the unpacking. |
| Dotenv.IndentedCommentIsEntry | api_utils/config.py:18-20 | An indented `#k=v` line is an entry whose key starts with `#`. |
| Settings.CanSetIff | api_utils/rag_client_init.py:41-57 | An assignment at a path does not raise iff the path is non-empty and its parent path leads to a mapping. |
| Settings.SetPathBelow | api_utils/rag_client_init.py:41-43 | Reading at or below the assigned path reads inside the assigned value. |
| Settings.SetPathHit | api_utils/rag_client_init.py:44-46 | The assigned value is read back at its path. |
| Settings.SetPathFrame | api_utils/rag_client_init.py:47-49 | Paths incomparable with the assigned one read as before. |
| Settings.SetPathAbove | api_utils/rag_client_init.py:50-52 | Containers on the way stay mappings, with their old keys plus the next key of the path. |
| Settings.SetPathSame | api_utils/rag_client_init.py:41-52 | Assigning the value already there changes nothing. |
| Settings.SetPathKeepsCanSet | api_utils/rag_client_init.py:44-52 | A later assignment still cannot raise after an earlier one off its parent path. |
| RagClientInit.Assign | api_utils/rag_client_init.py:41-43 | One `x[..][k] = user.get(K, x[..].get(k))` fails iff the container it indexes is missing or not a mapping. |
| RagClientInit.Reconcile | api_utils/rag_client_init.py:36-57 | The key write raises (`KeyNotWritten`) iff the user has no `GRAPHRAG_API_KEY`, and then the settings are never reached. Otherwise the engine `.env` receives exactly that key with the user's value, and the settings become `Update`'s result (see the `Update*` rows). This holds whether or not the settings update then fails, which it does iff some container is not a mapping. |
| RagClientInit.InitializeConfig | api_utils/rag_client_init.py:29-58 | The call fails with the reader's error iff the user `.env` does not read. It fails with `KeyNotWritten` iff the file reads but no line sets `GRAPHRAG_API_KEY`. Otherwise the written key is the last such line's value. The settings are `Update`'s result for the read entries, and they fail iff a container is not a mapping. |
| RagClientInit.EmptyUserEnvStops | api_utils/rag_client_init.py:33-39 | An empty user `.env` stops the call at the key write. That is the file the reader creates when none exists. |
| RagClientInit.GetConfigForQuery | api_utils/rag_client_init.py:60-66 | The call returns the last `GRAPHRAG_API_KEY` value (or `None`) iff the `.env` reads, and passes the reader's error through. |
| RagClientInit.UpdateFails | api_utils/rag_client_init.py:41-57 | The update fails iff some container is not a mapping. The error names the first such container in source order: `embeddings.llm`, then `llm`, then `claim_extraction`. |
| RagClientInit.UpdateFields | api_utils/rag_client_init.py:41-57 | After the update, each of the five settings holds the user's value when given and otherwise the old one (absent reads as `null`). `claim_extraction.enabled` is true iff the user wrote exactly `True`. |
| RagClientInit.UpdateFrame | api_utils/rag_client_init.py:41-57 | Every path off the five settings and their containers reads as before. |
| RagClientInit.UpdateKeepsShape | api_utils/rag_client_init.py:41-57 | After a successful update the tree is still well-shaped, so the function can be run again. |
| RagClientInit.UpdateIdempotent | api_utils/rag_client_init.py:41-57 | Reconciling the already reconciled settings with the same user file changes nothing. |
| RagClientInit.UpdateKeys | api_utils/rag_client_init.py:41-57 | Each container's keys are its old keys plus the setting names assigned in it. |
| Timetable.ColumnFilterEligible | brief_file_utils/data_processor.py:52-54 | A column is processed iff it is at least 1 and either no filter was given (`None` or `[]`) or it is listed. |
| Timetable.ProcessRowLoop | brief_file_utils/data_processor.py:51-56 | The loop over `range(1, len(row))` computes the row processing. |
| Timetable.ProcessBlock | brief_file_utils/data_processor.py:40-46 | From a weekday row, the block runs exactly over the following rows with an empty column 0. Every row up to the block's end is processed iff it lies in a block. |
| Timetable.ProcessCsv | brief_file_utils/data_processor.py:35-46 | The row walk equals the reference: rows in a weekday block are processed and every other row is unchanged. |
| Timetable.InBlockIff | csv-utils/process-data.py:37-46 | A row is processed iff it is a weekday row, or lies below one with only empty column-0 cells in between. |
| Timetable.InBlockColumnZero | csv-utils/process-data.py:40-44 | Block membership depends on column 0 only. |
| Timetable.ProcessedShape | csv-utils/process-data.py:39-46 | Processing keeps the row count, each row's length and column 0. |
| Timetable.ProcessedCell | csv-utils/process-data.py:51-56 | A cell changes iff its row is in a block, its column is eligible and it holds a digit string. It then becomes `第` + digits + `节`. |
| Timetable.LabelNotDigits | csv-utils/process-data.py:55-56 | A period label is never a digit string. |
| Timetable.ProcessedIdempotent | csv-utils/process-data.py:35-48 | Processing an already processed timetable changes nothing. |
| GraphWidget.FirstIndex | parquet-utils/visualize-test.py:54 | The first row carrying a title. |
| GraphWidget.ConvertEntitiesDedupes | parquet-utils/visualize-test.py:48-59 | The nodes have distinct ids, one per entity title, in order of first appearance. Each carries the first row with that title. |
| GraphWidget.ConvertEntitiesLoop | parquet-utils/visualize-test.py:50-59 | The dictionary-based loop yields the reference node list. |
| GraphWidget.ConvertRelationships | parquet-utils/visualize-test.py:63-73 | One edge per relationship, in order, from source to target, carrying the row. |
| GraphWidget.CommunityToColor | parquet-utils/visualize-test.py:86-100 | No community gives `lightgray`. Community `c` gives the palette colour at Python's `c % 7`. That value is stated as `FloorMod`: `c` shifted by sevens into `0..6`. |
| GraphWidget.FloorModSeven | parquet-utils/visualize-test.py:98 | Python's floor modulo by seven, computed by shifting, equals Dafny's `%` for every integer, negative ones included. |
| GraphWidget.CommunityColorPeriodic | parquet-utils/visualize-test.py:98 | Colours repeat every seven communities. |
| GraphWidget.CommunityColorsMatch | parquet-utils/visualize-test.py:98 | Two communities share a colour iff they agree modulo 7, negative ids included. |
| GraphWidget.FindNode | parquet-utils/visualize-test.py:105-109 | The lookup finds the first node whose title is the edge start, or nothing iff there is none. |
| GraphWidget.EdgeToSourceCommunity | parquet-utils/visualize-test.py:103-111 | The lookup fails iff no node has the edge's start title. Otherwise it returns the community of the first node with that title. |
| GraphWidget.SourceCommunityOfConverted | parquet-utils/visualize-test.py:103-111 | Over converted entities, the lookup fails iff no entity has the title. Otherwise it returns the community of the first entity row with it. |
| GraphWidget.EdgeColorIsSourceNodeColor | parquet-utils/visualize-test.py:114-117 | An edge whose source node is present is coloured like that node. |

## Left out

- Process execution: `subprocess.run` is the parameter `Exec`. What the launched GraphRAG engine does is not modelled.
- The thread lock around the singleton: calls are modelled as sequential, so the double-checked locking collapses to a single check.
- File I/O:
  - The `.env` lines, the loaded YAML tree and the read timetable grid are parameters.
  - `write_env` (python-dotenv `set_key` quoting), `delete_env`, `read_yaml`/`write_yaml` and `to_csv` are not modelled.
  - YAML parse errors are not modelled.
- Request defaults: the pydantic models are plain records. `update_index_id`'s falsy default `False` is the constructor `Unset`, since no builder reads it. Pydantic validation is not modelled.
- `RagClientInit.initialize_indexing`/`initialize_prompt_tune` (`api_utils/rag_client_init.py:11-27`), the `InitPipeline` class methods in the same file, `query_api.py` and the Streamlit pages are not modelled. They only call the modelled functions, the file system or the network.
- Settings trees: YAML anchors, non-string keys and list indexing are not modelled. Only string-keyed mappings are walked.
- Settings leaves: timestamps, dates and binary scalars have no case in `Settings.Node`. Floats are exact reals, so `.inf` and `.nan` are not represented. The statements never read these leaves, only copy them.
- Engine `.env` writing: the model records the key and value handed to `set_key`, not python-dotenv's quoted line for them. `read_yaml` runs before the key write in the source. It is a parameter here, so a YAML read error is not among the outcomes.
- Timetable.IsDigitText: `str.isdigit` is modelled for ASCII digits only. Other Unicode digit characters (superscripts, other scripts) are not treated as digits.
- Timetable cells: pandas type inference is outside the model. A cell is NaN, a number or a string as read.
- Timetable rows: `iterrows` hands out row copies. The model reads `df.iloc` rows after earlier writes, matching the code's reads of rows it has not yet processed.
- `process_csv_files`: the directory walk and `.csv` filter are file-system work and are not modelled.
- GraphWidget.CommunityToColor: communities are integers. `int(community)` on strings or floats and NaN-valued communities are not modelled.
- The widget's node scale mapping, edge thickness and layout are display settings and are not modelled. The parquet loading and `read_indexer_*` calls are not modelled either.
- `FileMover` and the Excel/CSV converters in the same utility folders are not modelled.
