# stoic: registry, inventory and command rules

`stoic` is a command-line tool that scaffolds, builds and runs machine-learning
model containers. Around its cloud and Docker calls sit a few rules of its own.
This project models those rules in Dafny and proves properties of the model:

- **The model-build registry** (`build_db.py`). This is a SQLite table
  `model_builds` of `(container_name, repository)` rows, unique on the pair.
  `Registry.ModelRegistry` is a class holding the table's rows and whether the
  table exists. Its methods are create-table-if-absent, insert-or-ignore,
  delete-by-container and list-all. A `Registry.Connection` value holds the
  committed rows and what an open transaction sees, and closing it keeps only
  the committed rows. Whether the database file can be opened is a parameter.
- **The helpers** (`utils.py`). These are the quote scanner `stringExtract`, the
  `"container:repo"` choice labels, the one-level directory scan `dirWalk`, the
  `--yes` guard, the scoped change of working directory, and `modelChoice`.
- **The command bodies** (`stoic.py`). They run over an abstract filesystem
  (`FileSystem.FileSystem`: each directory maps to the names of its entries,
  and each file to a `bv32` mode) and a `FileSystem.Host` that holds the
  working directory. Each command returns the sequence of `Event`s it
  printed or ran, and all but `listdocker` (which has no error path here) also return an
  `Exit`. The `Registered` event is a trace marker for the registry insert
  that `push` makes, not something printed. The quirks of the code are kept as they are:
  - `build`, `push`, `trainlocal`, `servelocal` and `predictlocal` end by
    raising an exception and printing it; the other commands end without one.
  - `push` registers the record before `build_and_push.sh` runs.
  - `trainlocal` runs `train_local.sh` inside its chmod loop.

Prompt answers, the Docker client's image list, whether the database can be
opened, and the filesystem left behind by `container`'s external `tar`/`mv`
pipeline are all inputs.

Three behaviours of the code worth knowing:
- Scanning a missing `models/` directory crashes the command. The first
  `dirWalk` call is outside the `try`, so its `StopIteration` escapes. (Loading
  utils.py creates `models/` first; that import-time effect is left out.)
- `push` writes the registry record before `build_and_push.sh` runs, so the
  record exists even when the script fails.
- `deleteModel` never commits, so its delete does not last (see Findings).

## Model

| member | source | states |
|---|---|---|
| `Registry.NoDuplicates` | build_db.py:26 | the UNIQUE(container_name, repository) constraint: no pair occurs twice (kept by InsertOrIgnore, DeleteWhere and ModelRegistry.Valid) |
| `Registry.Commit` | build_db.py:40 | what the open transaction sees becomes durable |
| `Registry.Close` | build_db.py:41 | closing or dropping a connection keeps only the committed rows |
| `Registry.DeleteAsWritten` | build_db.py:43-49 | the durable effect of deleteModel as written: a DELETE that is never committed, then the connection is dropped (proved a no-op by DeleteAsWrittenKeepsRows) |
| `Registry.InsertOrIgnore` | build_db.py:36-37 | the new pair is present afterwards; a pair already there leaves the rows unchanged; an absent pair is appended at the end; no-duplicate rows stay free of duplicates |
| `Registry.DeleteWhere` | build_db.py:44 | the result holds exactly the rows whose container name differs from the one given, and keeps the rows free of duplicates |
| `Registry.CreateConnection` | build_db.py:7-14 | a connection exists exactly when the database can be opened, and a new connection sees the committed rows with nothing pending |
| `Registry.DeleteCommitted` | build_db.py:43-49 | the corrected delete: no durable row carries the deleted container name |
| `Registry.ModelRegistry.ModelTable` | build_db.py:23-31 | the table exists afterwards iff it existed before or the database could be opened; the rows never change; an unavailable database prints the connection error and the fixed diagnostic and does not raise |
| `Registry.ModelRegistry.CreateModel` | build_db.py:35-41 | raises ConnectFailed when the database cannot be opened and NoSuchTable when the table is missing; otherwise the committed rows are the old rows with insert-or-ignore applied; the pair invariant is kept |
| `Registry.ModelRegistry.DeleteModel` | build_db.py:43-49 | as written: the diagnostic on an unavailable database, NoSuchTable on a missing table, otherwise the open transaction sees the rows with that container's removed; the durable rows do not change |
| `Registry.ModelRegistry.DeleteModelCommitted` | build_db.py:43-49 | corrected deleteModel: the same error paths, and on success the durable rows are the committed delete |
| `Registry.ModelRegistry.ReturnModels` | build_db.py:52-59 | all rows as pairs, in stored order, exactly when the database opens and the table exists; the matching exception otherwise; reads only |
| `Registry.InsertPresentIsNoOp` | build_db.py:26 | inserting a pair already present leaves the rows unchanged |
| `Registry.InsertIdempotent` | build_db.py:36 | inserting the same pair twice is the same as inserting it once |
| `Registry.InsertRepeatedlyOnce` | build_db.py:24-26 | after any number of inserts of one pair the table holds exactly one copy of it |
| `Registry.SameContainerTwoRepositories` | build_db.py:26 | one container name with two different repositories gives two rows |
| `Registry.DeleteAbsentIsNoOp` | build_db.py:44 | deleting a name that no row carries changes nothing |
| `Registry.DeleteKeepsOrder` | build_db.py:44 | deleting from a concatenation deletes from each part separately, so the surviving rows keep their order |
| `Registry.DeleteAsWrittenKeepsRows` | build_db.py:45-47 | deleteModel as written leaves the durable rows unchanged |
| `Registry.DeleteAsWrittenCounterexample` | build_db.py:43-49 | after inserting ("resnet-container", "my-ecr-repo") and deleting "resnet-container", the durable table still lists the row; the corrected delete lists nothing |
| `Registry.DeleteCommittedExact` | build_db.py:44-47 | a row survives the corrected delete iff it was present and belongs to another container |
| `Utils.NextQuoted` | utils.py:46 | one match of `'(.*?)'`: the skipped text and the match hold no quote, and the search resumes on a shorter text |
| `Utils.NextQuotedSplits` | utils.py:46 | a match exists iff two quotes remain; the text is then exactly skipped text, quote, match, quote, rest, and the rest holds two quotes fewer |
| `Utils.StringExtract` | utils.py:45-46 | no extracted string contains a quote |
| `Utils.ExtractCount` | utils.py:46 | there are exactly ⌊quotes/2⌋ extracted strings, so none when there are fewer than two quotes |
| `Utils.ExtractAssembled` | utils.py:46 | on any text of quote-free gaps and quote-free quoted parts, the scanner returns exactly those parts, left to right |
| `Utils.ExtractGaps` | utils.py:46 | the texts the scanner skips: one more than there are matches |
| `Utils.ExtractDecomposes` | utils.py:45-46 | every text is its skipped gaps and its matches put back together between quotes; all gaps but the last are quote-free, and the last holds at most one unmatched quote |
| `Utils.Split` | stoic.py:244 | `split(':')` gives one more part than there are separators, no part contains the separator, and joining the parts with the separator gives back the text |
| `Utils.SplitChoice` | stoic.py:244 | unpacking into (container, model) works iff the choice holds exactly one colon, and then the choice is container, colon, model; otherwise it raises a ValueError |
| `Utils.LabelSplitRoundTrip` | utils.py:56 | splitting a `container:repo` label gives back the row iff neither part contains a colon |
| `Utils.RepoChoice` | utils.py:54-56 | exactly one `container:repo` label per registry row, in row order, as many as returnModels returns; returnModels' exceptions propagate |
| `Utils.Label` | utils.py:56 | `model[0] + ":" + model[1]`, whose split is the row again (LabelSplitRoundTrip) |
| `Utils.DirWalk` | utils.py:29-30 | the target's listing filtered to the entries that are directories, in listing order (as `Common.Filter` states it), so exactly the subdirectory entries and no files; StopIteration when the target is not a directory |
| `Utils.AbortIfFalse` | utils.py:49-51 | aborts exactly when the confirmation is false |
| `Utils.EnterDirectory` | utils.py:21-22 | saves the working directory and switches to the new one; a missing directory raises with the working directory untouched |
| `Utils.LeaveDirectory` | utils.py:23-26 | restores the saved working directory |
| `Utils.ModelChoice` | utils.py:33-42 | models/ exists afterwards unless a file of that name is in the way; an existing directory is left as it is; the result is the listing of its subdirectories |
| `Utils.ExtractAll` | utils.py:73-75 | the names of every image repr, one repr after the other (ExtractAllConcat, ExtractAllQuoteFree) |
| `Utils.IsRegistryImage` | utils.py:76 | `'amazonaws' in image`, the test ListDocker filters by (also stoic.py:237) |
| `Utils.ListDocker` | utils.py:71-76 | the names extracted from all image reprs, in order, filtered to those containing `amazonaws` |
| `Utils.ExtractAllConcat` | utils.py:74-75 | names extracted from two image lists in a row are the two extractions one after the other |
| `Utils.ListDockerExact` | utils.py:76 | a name is listed iff it was extracted and contains `amazonaws`; extracted names hold no quote; listing two image lists keeps their order |
| `Common.Filter` | stoic.py:88 | a list comprehension with a condition: the kept elements all satisfy it and every element that does is kept, in order (FilterConcat, FilterTwice) |
| `Common.FilterTwice` | stoic.py:157 | filtering a filtered list is filtering once by both conditions |
| `Common.Contains` | utils.py:76 | `'amazonaws' in image`: substring test |
| `FileSystem.Join` | stoic.py:66 | `dir + "/" + name`, every path the commands build; JoinFacts: distinct names give distinct paths, no name is normalised away (neither `""` nor `.`), and a name holding `/` is the same string as the nested path |
| `FileSystem.JoinFacts` | stoic.py:66 | distinct names give distinct paths; `""` and `.` are not normalised away; a name holding `/` equals the nested path |
| `FileSystem.WithExecBit` | stoic.py:167 | `st_mode | stat.S_IEXEC` on a 32-bit mode (WithExecBitFacts) |
| `FileSystem.MakeExecutable` | stoic.py:166-167 | stat fails on a missing file; otherwise only that file's mode changes, to its old mode with the execute bit ORed in |
| `FileSystem.WithExecBitFacts` | stoic.py:167 | ORing in S_IEXEC sets the execute bit, keeps all other bits, and doing it twice is the same as once |
| `FileSystem.MakeDirectory` | utils.py:34-38 | an existing entry of that path is tolerated and nothing changes; otherwise exactly one directory is added, it is empty, and its name is appended to its parent's listing; every other directory and every file is untouched |
| `FileSystem.RemoveTree` | stoic.py:68 | the subtree and every file in it are gone, the name is no longer listed in its parent, and everything else is kept |
| `Stoic.RemoveLocalTest` | stoic.py:88 | `local_test` is never kept, and every other name is kept |
| `Stoic.ModelsRoot` | stoic.py:66 | `current_dir + "/" + 'models'`, the models directory under the working directory (also stoic.py:80, :106, :141, :185, :246) |
| `Stoic.NotLocalTest` | stoic.py:88 | the test `b != 'local_test'` (also stoic.py:157, :195) |
| `Stoic.FirstModel` | stoic.py:195 | StopIteration for a missing container; otherwise exactly what the front-to-back scan ScanForModel finds, and IndexError when it finds nothing; the model is a directory listed in the container |
| `Stoic.ScanForModel` | stoic.py:157 | reference definition: the first entry of the listing other than `local_test` that is a directory |
| `Stoic.ScanForModelFirst` | stoic.py:157 | the scan finds nothing iff every entry is `local_test` or not a directory; what it finds is such an entry and every entry before it is `local_test` or not a directory |
| `Stoic.FilteredHead` | stoic.py:195 | the head of the directory comprehension filtered by `!= 'local_test'` is what the scan finds, and the comprehension is empty iff the scan finds nothing |
| `Stoic.Executables` | stoic.py:159-161 | build_and_push.sh, `<model>/train` and `<model>/serve`, in that order (BuildChmodExact) |
| `Stoic.LocalScripts` | stoic.py:247 | predict.sh, serve_local.sh and train_local.sh, in that order (TrainLocalRunsThrice) |
| `Stoic.LocalTestDir` | stoic.py:249 | `target + '/' + container + '/local_test'` (also stoic.py:271, :292) |
| `Stoic.ChmodEach` | stoic.py:165-167 | the chmod loop of build and, with a script run after each chmod, of trainlocal (stoic.py:250-254): stops at the first missing file with that file's stat error (ChmodEachStopsAt, ChmodEachSucceeds, ChmodEachExact, ChmodEachIdempotent) |
| `Stoic.ChmodLoop` | stoic.py:165-167 | the loop's modes, scripts run and stopping exception are those of `ChmodEach`; directories are unchanged |
| `Stoic.ChmodEachSucceeds` | stoic.py:165-167 | the loop runs to the end iff every file exists, and keeps the set of files |
| `Stoic.ChmodEachExact` | stoic.py:165-167 | a completed loop ORs the execute bit into exactly its target files and keeps every other mode |
| `Stoic.ChmodEachIdempotent` | stoic.py:165-167 | repeating a completed chmod loop changes no mode |
| `Stoic.ChmodEachStopsAt` | stoic.py:165-167 | when files[k] is the first missing file, the loop raises its stat error and keeps exactly the chmods and runs of files[..k]; nothing already changed is undone |
| `Stoic.BuildChmodExact` | stoic.py:157-167 | build sets the execute bit on exactly build_and_push.sh, <model>/train and <model>/serve, preserves all other bits and modes, and a second build changes nothing |
| `Stoic.RunsAfterEachChmod` | stoic.py:250-254 | a three-file chmod loop that runs the third file after each chmod runs it three times: twice with its mode from before the loop, the third time executable |
| `Stoic.TrainLocalRunsThrice` | stoic.py:247-254 | trainlocal runs train_local.sh three times; the first two see its mode from before the command, the third sees it executable |
| `Stoic.CheckModels` | stoic.py:74-92 | crashes when models/ is missing; prints the no-models message for an empty models/; otherwise prints a map from exactly the containers to their subdirectories without `local_test`; reads only |
| `Stoic.Container` | stoic.py:96-131 | an existing name prints the conflict message and leaves the filesystem unchanged; a missing template archive prints the error; otherwise it runs the unpack and rename pipelines |
| `Stoic.UnpackCommand` | stoic.py:118-123 | the `tar … && mv … && rm …` pipeline that unpacks the template as the container |
| `Stoic.RenameCommand` | stoic.py:125-126 | the `mv` that renames the template's algorithm directory to the model name |
| `Stoic.BuildReport` | stoic.py:157-172 | what build prints once the container is chosen: one line (BuildReportCases, BuildReportFirstMissing) |
| `Stoic.BuildReportCases` | stoic.py:157-172 | StopIteration for a missing container, IndexError when it holds no model, and `Container executables finished` exactly when all three executables of the first model exist |
| `Stoic.BuildReportFirstMissing` | stoic.py:157-172 | when executable k is the first one missing, the report is its stat error |
| `Stoic.Build` | stoic.py:135-172 | the working directory and the directory tree are unchanged; `done` is never printed; the modes are those of the chmod loop on the first model's three executables; the report ends with the raised message or the first stat error |
| `Stoic.Push` | stoic.py:176-204 | declining aborts with no effect; otherwise the row (container, first model) is registered, and then build_and_push.sh runs, and then the raised message is printed; a registry error stops before the script |
| `Stoic.RegisterAndPush` | stoic.py:196-200 | a missing database or table raises before anything runs and leaves the rows; otherwise the rows gain (container, model) by insert-or-ignore, then build_and_push.sh runs in the container, then the raised message is printed |
| `Stoic.TrainLocal` | stoic.py:239-260 | a choice without exactly one colon crashes; the working directory is restored; modes and runs are those of the chmod loop over the three local scripts with train_local.sh run after each |
| `Stoic.ServeLocal` | stoic.py:262-278 | splits the choice (crashing on a bad one), runs serve_local.sh inside local_test, prints the raised message, and restores the working directory |
| `Stoic.PredictLocal` | stoic.py:281-299 | splits the choice (crashing on a bad one), runs predict.sh with payload and content type inside local_test, prints the raised message, and restores the working directory |
| `Stoic.ListDocker` | stoic.py:231-237 | prints exactly the extracted image names containing `amazonaws`, in order |
| `Stoic.RemoveModel` | stoic.py:59-71 | declining aborts with no effect; a missing target prints the error; otherwise the target's subtree is removed, which for an empty name is the whole models directory; the registry is never touched, so its record stays behind |
| `Stoic.RemovalTarget` | stoic.py:66-68 | the directory `rmtree` gets: `models/<name>`, or `models/` itself when the name is empty |
| `Stoic.InitDb` | stoic.py:27-40 | models/ is made (an existing one is fine), then the table is created as by modelTable, with its diagnostics after the setup message |

## Left out

- `models`, `endpoints`, `listrepos` (in both files), `deleterepo`, `s3Upload` and `train`. These only call boto3 or SageMaker, print prompt answers, or are empty stubs.
- The Docker client, boto3, ECR and SageMaker. `listdocker` takes the `str()` of each image as input.
- Running `tar`, `mv`, `build_and_push.sh` and the `*_local.sh` scripts. Each run is one `Shell` or `Script` event, which records whether the script's execute bit was set. The filesystem that `container`'s pipeline leaves behind is an input.
- Stoic.Container: `shutil.copy` is modelled only as "the template archive must exist". Its other OSErrors and its own change to the filesystem are part of the `scaffolded` input.
- The SQLite engine, pandas, and column types. A row is a pair of strings, and `NOT NULL` always holds because Python strings are never None. Whether the database file can be opened is a boolean input.
- The YAML configuration and the module-level prompt lists built at import time. PyInquirer and click prompts are also left out. A prompt answer is an input, assumed to be a plain entry name as the list prompts offer (an `os.walk` directory name: never empty, never holding `/`). Because `Join` does not normalise paths, an answer such as `""` would make the model part from the source: `push` then reports StopIteration where the source would walk `models/` itself.
- `pprint` of prompt answers and `print(executables)` in `build` are not in the event trace. Error messages are `ShowError` values, not formatted text.
- Stoic.CheckModels: `print(models)` prints the dictionary in insertion order, which is the listing order of `models/`. A `ShowInventory` event holds a `map`, so the printed key order is not modelled.
- Utils.EnterDirectory: `os.path.expanduser` is not modelled; all paths are already absolute.
- Utils.LeaveDirectory: the `chdir` back to the saved directory always succeeds, because no modelled body removes it.
- FileSystem.MakeDirectory: it creates only the last path component (the working directory always exists). OSErrors other than "already exists" are not modelled.
- FileSystem.MakeExecutable: `os.stat` succeeds only on files. A directory with a script's name counts as missing.
- Symbolic links, permission errors and concurrent processes are not modelled.
- Stoic.RemoveModel: a name containing `/`, or the segments `.` or `..`, is not resolved. `Join` does not normalise paths, so such a name is looked up as a raw string, and the name removed from a listing is the whole name in `models/`, not its last segment in its real parent. An empty name is modelled.
- Import-time code of utils.py is not modelled: building `questions` calls `modelChoice()` (utils.py:85), which creates `models/` before any command runs, and building `repos` calls `repoChoice()` (utils.py:94), which raises "no such table" on a fresh database, so no command, `initdb` included, can start there. The commands are modelled as if the module had loaded.
- Process exit codes: click's abort is `Aborted`, and an exception that escapes is `Crashed`.

## Findings

| source | as written | input that shows it | evidently intended | confidence | as-written member | corrected member |
|---|---|---|---|---|---|---|
| build_db.py:43-49 | `deleteModel` runs the DELETE on a new connection and never commits. The connection is dropped when the function returns, so sqlite3 rolls the open transaction back. | Insert ("resnet-container", "my-ecr-repo"), call deleteModel("resnet-container"), then returnModels(): the row is still listed. | Commit the delete, as `createModel` does, so no row of that container remains. | medium, not executed | `Registry.DeleteAsWrittenCounterexample` | `Registry.ModelRegistry.DeleteModelCommitted` |
