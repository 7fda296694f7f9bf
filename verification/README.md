# pysqa in Dafny

A model of the core of pysqa, a Python library that submits jobs to HPC batch schedulers
(SGE, TORQUE, SLURM, LSF, MOAB, FLUX and the cluster-switching GENT flavour of SLURM),
lists their queues and deletes or reserves jobs, either on the local machine or on a
remote login node reached over SSH. The model covers:

- `Wrappers`: `Option`, `Result` and `Outcome`; a Python exception is a `PyError` value.
- `PyText`: the `str` operations the adapters use to read scheduler output
  (`strip`, `split`, `splitlines`, `split()`, `lower`, `int`, `str`).
- `Paths`: the POSIX `abspath`/`join`/`relpath`/`dirname` arithmetic of the remote adapter,
  on paths as sequences of names.
- `Validate`: memory strings, `value_in_range`, `check_queue_parameters`,
  `value_error_if_none`.
- `Scheduler`: the scheduler command classes: their command vectors, how a job id is read
  back from the submit output, and how a status listing becomes a status table.
- `Tables`: the status table and the questions asked of it.
- `Adapter`: the local queue adapter in its four generations (`pysqa/utils/basic.py`,
  `pysqa/basic.py`, `pysqa/base/core.py`, `pysqa/base/config.py`).
- `Modular`: the multi-cluster GENT adapter in its four generations, including the packing
  of a cluster index into the job id.
- `Remote`: the SSH adapter in its three generations (`pysqa/base/remote.py`,
  `pysqa/ext/remote.py`, `pysqa/remote.py`): the `pysqa` command lines it sends, how it
  reads its configuration, which authentication it picks, and how local and remote paths
  correspond.
- `Facade`: the `QueueAdapter` front end: dispatch on `queue_type`, one adapter per
  cluster, switching clusters and forwarding.

Running a command, the SSH shell, the JSON decoder, Flux's `JobID` parser and the SGE XML
parser are parameters of the functions that need them. A command that fails is `None`.

Where the code and its documentation disagree, the model follows the code:

- The SLURM and SGE command classes (`pysqa/wrapper/slurm.py`, `pysqa/wrapper/sge.py`)
  derive from `object` and have no `dependencies` method. The utils adapter's submit
  command therefore raises AttributeError for them (`Scheduler.Dependencies`).
- The SLURM class is the GENT-adapted one: its status listing starts with a
  `CLUSTER: <name>` line, and its submit output is `<id>;<cluster>`.
- The `Scheduler` GENT members model both `pysqa/wrapper/gent.py` and its copy
  `src/pysqa/wrapper/gent.py`. Their methods are the same; the copy adds type hints and
  docstrings, and it also defines the module-level `template` taken from the SLURM module.
- `queueadapter.py` hands FLUX to the utils basic adapter, whose own type dispatch has no
  FLUX branch (`Adapter.CommandsForEveryKind`, `Facade.DispatchCoversSchedulers`).
- The documentation says a remote `submit_job` submits the job described by its
  arguments. The code runs the caller's `command` verbatim (see Findings).

## Model

| member | source | states |
|---|---|---|
| PyText.LStrip | pysqa/wrapper/gent.py:24 | the result is a suffix of the input, starts with no white space, and only white space was removed |
| PyText.RStrip | pysqa/wrapper/gent.py:24 | the result is a prefix of the input, ends with no white space, and only white space was removed |
| PyText.StripTrimmed | pysqa/wrapper/slurm.py:37 | a line that neither starts nor ends with white space is unchanged by `rstrip().lstrip()` |
| PyText.Split | pysqa/wrapper/gent.py:24 | `split(sep)` never returns an empty list |
| PyText.SplitJoin | pysqa/wrapper/gent.py:24 | joining the pieces of `split(sep)` with `sep` gives back the text |
| PyText.SplitPiecesClean | pysqa/wrapper/gent.py:37 | no piece of `split(sep)` holds the separator |
| PyText.SplitHead | pysqa/wrapper/slurm.py:37 | the first piece of a split is the text before the first separator, or the whole text when there is none |
| PyText.SplitLines | pysqa/wrapper/slurm.py:45 | `splitlines()` is empty exactly for empty text, and its lines hold no line boundary |
| PyText.SplitLinesJoin | pysqa/wrapper/slurm.py:45 | lines joined with newlines split back into the same lines |
| PyText.LastLine | pysqa/wrapper/slurm.py:37 | the last element of `splitlines()` is the text after the last line boundary |
| PyText.SplitWhitespace | pysqa/base/remote.py:197 | `split()` yields non-empty tokens free of white space |
| PyText.SplitWhitespaceAround | pysqa/base/remote.py:197 | a white-space character separates the tokens on its two sides |
| PyText.Lower | pysqa/wrapper/slurm.py:51 | `lower()` keeps the length and maps each character on its own, ASCII capitals to small letters and everything else unchanged |
| PyText.IntRoundTrip | pysqa/wrapper/sge.py:39 | `int(str(n)) == n` for every integer |
| PyText.ParseIntTrailingSpace | pysqa/wrapper/sge.py:39 | `int()` ignores a trailing white-space character after the digits, except an information separator U+001C..U+001F, which makes it raise ValueError |
| PyText.IntToStringPlain | pysqa/base/remote.py:534-544 | the text of a number holds no white space and no line boundary |
| Paths.PathJoin | pysqa/base/remote.py:590-593 | `join(a, b)` is `b` when `b` is absolute |
| Paths.CommonPrefix | pysqa/base/remote.py:592 | both paths agree up to the result and differ right after it |
| Paths.RelPath | pysqa/base/remote.py:592 | `relpath` fails with ValueError on an empty path only |
| Paths.RelPathReaches | pysqa/base/remote.py:590-593 | walking the relative path from `start` reaches `path` |
| Paths.RelPathBelow | pysqa/base/remote.py:590-593 | a path below `start` is its extra names joined by `/`, and `.` for `start` itself |
| Paths.AbsPathNormal | pysqa/base/remote.py:160 | `abspath` always yields a normalised path |
| Paths.RenderAbs | pysqa/base/remote.py:671-673 | rendering a normalised path and resolving it again gives the path back |
| Paths.AbsPathJoin | pysqa/base/remote.py:671-673 | resolving `join(dir, rel)` is resolving `rel` from the resolved `dir` |
| Paths.DirnameOfChild | pysqa/base/remote.py:297 | the directory part of `dir/name` is `dir` |
| Validate.FirstMatch | pysqa/base/validate.py:106-107 | `findall` finds no match exactly when the string holds no digit |
| Validate.MatchIsWholeIffMemorySpec | pysqa/base/validate.py:96-107 | the first match is the whole string exactly when the string is digits with at most one trailing unit letter |
| Validate.IsMemoryString | pysqa/base/validate.py:96-107 | `_is_memory_string` raises IndexError when nothing matches |
| Validate.Convert | pysqa/base/validate.py:110-144 | numbers pass through; a memory string becomes its byte count; an IndexError comes only from text |
| Validate.ConvertSized | pysqa/base/validate.py:110-144 | a memory string converts to its size in bytes, a bare number of digits counting as megabytes |
| Validate.ConvertUnsized | pysqa/base/validate.py:129-144 | a non-memory string with a digit is kept as text; one without a digit raises IndexError |
| Validate.Less | pysqa/base/validate.py:83-85 | `<` raises TypeError between a number and a string and is integer order between numbers |
| Validate.ValueInRange | pysqa/base/validate.py:53-93 | the result is the value or one of the two limits; a missing value gives the minimum, else the maximum; errors are IndexError or TypeError |
| Validate.ValueInRangeSelects | pysqa/base/validate.py:69-86 | for sized values and any limits: below the minimum gives the minimum as given, else above the maximum gives the maximum as given, else the value itself; the minimum is tested first |
| Validate.ValueInRangeMinimumFirst | pysqa/base/validate.py:81-84 | with the minimum 10 above the maximum 5, the value 1 comes back as the minimum |
| Validate.ValueInRangeClamps | pysqa/base/validate.py:53-93 | for sized values and consistent limits the result lies within the limits, and a value already inside comes back unchanged |
| Validate.ValueInRangeIdempotent | pysqa/base/validate.py:53-93 | clamping a clamped value changes nothing |
| Validate.MemorySizes | pysqa/base/validate.py:128-142 | the sizes of `1K`, `50G`, `60G`, `70G`, `60000M` and `60000` in bytes |
| Validate.ValueInRangeNumberExamples | tests/unit/base/test_validate.py:7-9 | a number is compared with a memory limit in bytes |
| Validate.ValueInRangeMemoryExamples | tests/unit/base/test_validate.py:11-38 | memory strings are compared by size, not as text |
| Validate.CheckQueueParameters | pysqa/base/validate.py:5-33 | each result is the request or a queue limit; a queue without `cores_min` raises KeyError |
| Validate.CheckQueueParametersCoresIndependent | pysqa/base/validate.py:24-32 | the core limits do not influence the run time or memory granted |
| Validate.CheckQueueParametersExample | tests/unit/base/test_validate.py:40-49 | requests inside every limit pass through unchanged |
| Validate.ValueErrorIfNone | pysqa/base/validate.py:36-50 | ValueError for None, TypeError for a non-string, success exactly for a string |
| Scheduler.SubmitCommand | pysqa/wrapper/slurm.py:20-21 | every scheduler has a non-empty submit vector |
| Scheduler.DeleteCommand | pysqa/wrapper/torque.py:25-26 | every scheduler has a non-empty delete vector |
| Scheduler.ReservationCommand | pysqa/wrapper/abstract.py:11-18 | reservation exists for SGE, SLURM and GENT only; others raise NotImplementedError |
| Scheduler.StatusCommand | pysqa/wrapper/moab.py:41-48 | every scheduler has a non-empty status vector |
| Scheduler.Dependencies | pysqa/wrapper/abstract.py:95-108 | AttributeError for SLURM and SGE; elsewhere an empty list for no dependencies and NotImplementedError otherwise |
| Scheduler.LastLineStripped | pysqa/wrapper/gent.py:24 | `splitlines()[-1]` raises IndexError exactly for empty output |
| Scheduler.JobIdFromOutput | pysqa/wrapper/abstract.py:111-121 | TORQUE and MOAB do not read job ids (NotImplementedError) |
| Scheduler.QueueFromOutput | pysqa/wrapper/gent.py:27-28 | only SLURM and GENT read a cluster back, and it never holds `;` |
| Scheduler.LastLineStrippedOf | pysqa/wrapper/slurm.py:37 | the stripped last line of any text ending in a clean line is that line |
| Scheduler.SlurmSubmitOutputRoundTrip | pysqa/wrapper/slurm.py:36-41 | after any earlier lines, `<id>;<cluster>` reads back as that id and that cluster |
| Scheduler.GentSubmitOutputExample | tests/test_gent.py:70-78 | `123;MyQueue` reads back as id 123 on queue `MyQueue` |
| Scheduler.SgeSubmitOutputRoundTrip | pysqa/wrapper/sge.py:38-39 | SGE's terse output, with or without a trailing newline, reads back as the id |
| Scheduler.LsfSubmitOutputRoundTrip | pysqa/wrapper/lsf.py:33-34 | the first `<...>` of LSF's output reads back as the id |
| Scheduler.SlurmRow | pysqa/wrapper/slurm.py:50-51 | a row needs exactly four `\|`-separated fields, carries the header's cluster and a lower-cased status |
| Scheduler.SlurmRows | pysqa/wrapper/slurm.py:50-51 | rows correspond one to one with the listing lines |
| Scheduler.SlurmStatus | pysqa/wrapper/slurm.py:44-58 | missing output raises AttributeError; GENT gives None for an empty listing, SLURM an empty table with a user column |
| Scheduler.Rewrite | pysqa/wrapper/flux.py:47-50 | rewriting one state keeps every other field and every other row |
| Scheduler.FluxRewritesAreStateMap | pysqa/wrapper/flux.py:47-50 | the four rewrites in sequence are one map from Flux states to pysqa states |
| Scheduler.SgeRewritesAreStateMap | pysqa/wrapper/sge.py:51-53 | the three rewrites in sequence are one map from SGE states to pysqa states |
| Scheduler.FluxRow | pysqa/wrapper/flux.py:33-39 | the user is the second token and the status the fourth |
| Scheduler.FluxRows | pysqa/wrapper/flux.py:35-39 | rows correspond one to one with the lines |
| Scheduler.FluxStatus | pysqa/wrapper/flux.py:32-51 | missing output raises AttributeError; the table has Flux's columns and one row per line of the listing, in order, each with its state translated (R, S, C, CD); it fails only if some line does not parse |
| Scheduler.SgeStatus | pysqa/wrapper/sge.py:42-62 | succeeds exactly when the XML parses and lists some job; one row per job, the running section before the pending one, each with its state translated (r, qw, Eqw); SGE's columns |
| Scheduler.ConvertQueueStatus | pysqa/wrapper/abstract.py:124-134 | TORQUE, LSF and MOAB raise NotImplementedError; only GENT answers None; every table has a user column |
| Scheduler.ListingLineFields | pysqa/wrapper/slurm.py:50 | a printed listing line splits back into its four fields |
| Scheduler.HeaderFields | pysqa/wrapper/slurm.py:46 | the header line splits on `:` into the label and the cluster name |
| Scheduler.HeaderStrip | pysqa/wrapper/slurm.py:46 | stripping the header's second field gives the cluster name |
| Scheduler.ListingRowParses | pysqa/wrapper/slurm.py:50-51 | a printed listing line parses back into the job it describes |
| Scheduler.ListingSplitsIntoLines | pysqa/wrapper/slurm.py:45 | a printed listing splits back into its header and job lines |
| Scheduler.SlurmListingRoundTrip | pysqa/wrapper/slurm.py:44-58 | a printed listing parses back into exactly the jobs it lists, under their cluster |
| Tables.RowsOfUser | pysqa/base/core.py:252 | `df[df["user"] == user]` keeps exactly the rows of that user and never lengthens the table |
| Tables.RowsOfUserCounts | pysqa/base/core.py:252 | duplicates are kept: each of the user's rows appears as often as in the table, and no other row appears |
| Tables.RowsOfUserSingle | pysqa/base/core.py:252 | a single row is kept exactly when it belongs to the user |
| Tables.RowsOfUserPrefix | pysqa/base/core.py:252 | order is kept: the rows selected from a prefix of the table open the selection, in the same order |
| Tables.RowsOfUserAppend | pysqa/base/modular.py:180-185 | filtering a concatenation is concatenating the filtered parts |
| Tables.RowsOfUserIdempotent | pysqa/base/core.py:252 | filtering twice is filtering once |
| Tables.FilterUser | pysqa/base/core.py:248-252 | KeyError exactly when the table has no user column; columns are kept and the rows are those `RowsOfUser` selects |
| Tables.FirstRowOf | pysqa/base/core.py:272-276 | the first row with the job id, or none when no row has it |
| Tables.StatusOfJob | pysqa/base/core.py:263-278 | None exactly when no row has the id; else the status of the first such row |
| Tables.StatusOfJobs | pysqa/base/core.py:280-298 | one status per id, `finished` for ids not listed |
| Tables.StatusOfJobsAgrees | pysqa/base/core.py:263-298 | the list answer agrees with the single answer, `finished` standing for None |
| Tables.FilteredStatusBelongsToUser | pysqa/base/core.py:248-278 | a status found in a user's filtered table belongs to a job of that user |
| Tables.NewLabels | pysqa/base/modular.py:180 | the columns of the second table that the first lacks |
| Tables.Present | pysqa/base/modular.py:180 | `concat` skips the None frames and keeps the others |
| Tables.ColumnUnionContents | pysqa/base/modular.py:180 | the stacked table's columns are the union of the parts' columns |
| Tables.Stack | pysqa/base/modular.py:180 | stacking raises ValueError when every frame is None; else its rows are the rows of the frames, in order |
| Tables.RowsOfUserAllRows | pysqa/base/modular.py:180-185 | filtering the stacked rows is stacking the filtered rows of each cluster |
| Tables.Height | pysqa/utils/modular.py:140 | the height of a side-by-side table is the longest part's height |
| Tables.SideBySide | pysqa/utils/modular.py:140 | ValueError when every frame is None; else the parts are the frames present and none is taller than the result |
| Adapter.CommandsFor | pysqa/base/core.py:89-111 | an unknown queue type raises ValueError; REMOTE has no command class; every class matches its name; FLUX only in the newer generations |
| Adapter.CommandsForEveryKind | pysqa/utils/basic.py:45-71 | every scheduler name selects its class, except FLUX in the two older generations |
| Adapter.CommandsForGenerationsAgree | pysqa/utils/basic.py:45-71 | the two older generations agree, the two newer agree, and all agree except on FLUX |
| Adapter.QueueList | pysqa/base/config.py:117-124 | the queue names in configuration order |
| Adapter.Entry | pysqa/base/config.py:256 | a queue's entry exists exactly for a listed name |
| Adapter.FillKeys | pysqa/base/config.py:278-289 | missing keys are added as None, present ones are untouched, no other key appears |
| Adapter.FillQueueDict | pysqa/base/config.py:278-289 | the four limit keys are present afterwards; given limits are kept |
| Adapter.FillQueueDictIdempotent | pysqa/base/config.py:278-289 | filling twice is filling once |
| Adapter.FilledLimitsHaveEveryKey | pysqa/base/config.py:257-263 | after filling, checking the limits never raises KeyError |
| Adapter.FillConfig | pysqa/utils/basic.py:42-45 | only the limits of each queue change |
| Adapter.QueuesGetAttr | pysqa/base/config.py:29-46 | a listed queue name is returned as itself; any other raises AttributeError |
| Adapter.QueuesDir | pysqa/base/config.py:29-56 | `__dir__` lists as many names as are stored; each listed name looks up to itself and every name that can be looked up is listed |
| Adapter.QueuesDirIsLookup | pysqa/base/config.py:29-56 | the names offered for completion are exactly the names that can be looked up |
| Adapter.Construct | pysqa/base/config.py:70-85 | construction fails with ValueError exactly for an unknown queue type; every queue of the result has all limit keys |
| Adapter.LocalFlags | pysqa/utils/basic.py:76-81 | a local adapter is not remote and deletes remote files; the bare core has no such flags |
| Adapter.RemoteOnlyOperation | pysqa/base/config.py:148-183 | the configured adapter raises NotImplementedError for remote operations; the older ones return None |
| Adapter.CommandValue | pysqa/base/core.py:370-371 | a list command is joined into one string without separators |
| Adapter.KeywordsAccepted | pysqa/utils/basic.py:116-126 | the older generations reject keywords they do not declare with TypeError |
| Adapter.ArgOr | pysqa/wrapper/abstract.py:54-64 | an argument that is not passed takes its default |
| Adapter.RenderSubmissionTemplate | pysqa/wrapper/abstract.py:54-93 | the defaults: job name `pysqa`, one core, the current directory, no limits, no dependencies |
| Adapter.ResolveQueue | pysqa/base/config.py:246-247 | no queue means the primary queue; a missing primary raises KeyError |
| Adapter.ConfiguredTemplate | pysqa/base/config.py:217-275 | the template is the chosen queue's; no command raises ValueError and a non-string one TypeError |
| Adapter.CoreTemplate | pysqa/base/core.py:393-437 | passing a queue raises ValueError; the passed or module template is rendered with the arguments as given |
| Adapter.DefaultQueueIsPrimary | pysqa/base/config.py:246-247 | submitting without a queue is submitting to the primary queue |
| Adapter.ConfiguredIgnoresPassedTemplate | pysqa/base/config.py:264-275 | the configured adapter renders the queue's template whatever template is passed |
| Adapter.ConfiguredGenerationsAgree | pysqa/utils/basic.py:355-400 | the utils and configured generations render the same script |
| Adapter.TemplateClampsExample | tests/test_lsf.py:36-44 | a request without cores or run time gets the queue's minimum cores and maximum run time |
| Adapter.WorkingDirectoryCheck | pysqa/base/core.py:176-179 | a working directory with a space raises ValueError; None raises TypeError in the older generations |
| Adapter.SubmitPlan | pysqa/base/core.py:138-195 | the argument vector starts with the submit vector and ends with `run_queue.sh` in the working directory |
| Adapter.SubmitJob | pysqa/base/core.py:180-195 | a failed command gives None; else the job id read from the output |
| Adapter.SubmittedScriptInWorkingDirectory | pysqa/base/core.py:388 | the submitted script lies in the working directory |
| Adapter.SubmitArgvGenerationsAgree | pysqa/utils/basic.py:167-172 | without dependencies the two older generations run the same command |
| Adapter.SubmitJobReadsSlurmId | pysqa/base/core.py:192-193 | when SLURM answers `<id>;<cluster>`, submit returns that id |
| Adapter.SubmitJobFailureIsNone | pysqa/base/core.py:194-195 | when the command fails, submit returns None |
| Adapter.FirstLine | pysqa/base/core.py:84 | `split("\n")[0]`: the prefix before the first newline |
| Adapter.FirstLineOfLines | pysqa/base/core.py:84 | the first element of `split("\n")` of joined lines is the first line |
| Adapter.RunForFirstLine | pysqa/base/core.py:197-233 | None when the command fails, else the first line of its output |
| Adapter.DeleteJob | pysqa/base/core.py:216-233 | the first line of the scheduler's delete command; AttributeError for the remote type |
| Adapter.EnableReservation | pysqa/base/core.py:197-214 | runs only for schedulers with a reservation command |
| Adapter.DeleteJobAnswersFirstLine | pysqa/base/core.py:229-231 | delete answers the first line of the scheduler's output |
| Adapter.GetQueueStatus | pysqa/base/core.py:235-252 | the converted listing, or under the same columns exactly the rows `RowsOfUser` selects for one user; filtering GENT's `None` listing by user is a TypeError |
| Adapter.GetStatusOfJob | pysqa/base/core.py:263-278 | the status of the first row with that id in the full listing |
| Adapter.GetStatusOfJobs | pysqa/base/core.py:280-298 | one status per id from the full listing |
| Adapter.NotFoundConventions | pysqa/base/core.py:263-298 | an unlisted job is None for one id and `finished` in a list |
| Adapter.UserFilterIdempotent | pysqa/base/core.py:248-252 | a user's listing filtered for that user again is unchanged |
| Modular.Parent | pysqa/base/modular.py:9 | every modular generation sits on a configured local adapter |
| Modular.ToConfig | pysqa/base/modular.py:32-34 | the local adapter sees the same queues |
| Modular.QueueClusters | pysqa/base/modular.py:35-37 | one cluster per queue; a queue without one raises KeyError |
| Modular.ClusterCheckAsWritten | pysqa/base/modular.py:38-45 | passes exactly when every queue's cluster is known; its error is AttributeError in the base and ext generations |
| Modular.ClusterCheck | pysqa/utils/modular.py:9-16 | passes exactly when every queue's cluster is known; else ValueError |
| Modular.ClusterCheckMisreports | pysqa/base/modular.py:38-45 | the as-written and intended checks pass on the same inputs; a queue on an unknown cluster gets AttributeError as written and ValueError as intended |
| Modular.Construct | pysqa/base/modular.py:26-45 | a constructed adapter only has queues on known clusters; an unknown cluster raises AttributeError in the base and ext generations (the message calls `.keys()` on a list) and ValueError in the utils and oldest ones |
| Modular.SwitchCommand | pysqa/base/modular.py:204-215 | `module --quiet swap` and one more word |
| Modular.SwitchCommandInjective | tests/test_gent.py:91-96 | different clusters give different switch commands |
| Modular.TruncDiv10 | pysqa/base/modular.py:199 | `int(p / 10)` truncates toward zero |
| Modular.PyIndex | pysqa/base/modular.py:200 | list indexing with Python's negative indices; IndexError out of range |
| Modular.Position | pysqa/base/modular.py:100 | `list.index`: the first position, ValueError when absent |
| Modular.ResolveQueueId | pysqa/base/modular.py:187-202 | the scheduler id is the truncated tenth; IndexError exactly when the remainder is out of range |
| Modular.ResolveEncodedId | pysqa/base/modular.py:97-101 | a packed id of one of the first ten clusters unpacks to that cluster and id |
| Modular.EleventhClusterAliases | pysqa/base/modular.py:97-101 | a job on the eleventh cluster unpacks as a different job on the first |
| Modular.ResolveQueueIdExample | tests/test_gent.py:97-103 | 20120 is job 2012 on the first cluster |
| Modular.ClusterOfQueue | pysqa/base/modular.py:87 | the queue's cluster; None or an unknown queue raises KeyError |
| Modular.SubmitPlan | pysqa/base/modular.py:76-91 | the command starts with the switch to the queue's cluster; the script is the local adapter's |
| Modular.SubmitJob | pysqa/base/modular.py:92-103 | None exactly when the command fails; else the scheduler's id packed with the cluster index |
| Modular.SubmittedIdResolves | pysqa/base/modular.py:97-101 | the id a submit returns unpacks to the cluster and the scheduler id |
| Modular.RunOnCluster | pysqa/base/modular.py:131-155 | the command runs after a switch to the id's cluster, with the unpacked id |
| Modular.DeleteJob | pysqa/base/modular.py:131-155 | delete runs the scheduler's delete command on the id's cluster |
| Modular.EnableReservation | pysqa/base/modular.py:105-129 | reservation runs only for schedulers that have it; an unresolvable id raises IndexError |
| Modular.DeleteReachesSubmittedCluster | pysqa/base/modular.py:97-155 | deleting a packed id runs on the cluster the job was submitted to, with its own id |
| Modular.ClusterFrames | pysqa/base/modular.py:168-179 | one converted listing per cluster, each read after switching to it |
| Modular.StackedQueueStatus | pysqa/base/modular.py:157-185 | the rows of every cluster's listing, in cluster order, then filtered by user; no clusters raises ValueError from `concat([])` before the command class is touched, a REMOTE-typed adapter with clusters raises AttributeError |
| Modular.StackedUserRowsPerCluster | pysqa/base/modular.py:180-185 | filtering the stack is stacking each cluster's filtered rows |
| Modular.WideQueueStatus | pysqa/utils/modular.py:119-146 | the listings placed side by side, each filtered by the user when one is given; no clusters raises ValueError, a REMOTE-typed adapter with clusters AttributeError |
| Modular.WideOfUser | pysqa/utils/modular.py:141-144 | every listing keeps exactly the user's rows, KeyError exactly when a listing has no user column; a single listing's height becomes its number of rows |
| Modular.LayoutsHoldSameRows | pysqa/utils/modular.py:140 | the stacked and side-by-side layouts hold the same rows |
| Modular.LayoutsAgreeOnUser | pysqa/base/modular.py:180-185 | when the side-by-side listings of a user can be filtered, the stacked listing can too and holds exactly their rows in order |
| Remote.SpacedAppend | pysqa/base/remote.py:517-532 | spacing a concatenation is concatenating the spaced parts |
| Remote.SpacedTokens | pysqa/base/remote.py:517-532 | `split()` of space-separated words gives the words back |
| Remote.StatusCommand | pysqa/base/remote.py:483-490 | the login node splits the status command into the program words followed by `--status` |
| Remote.JobCommand | pysqa/base/remote.py:534-556 | a job command splits into the program words, the verb, `--id` and the id, and `int()` of its eighth word is the id |
| Remote.DeleteCommand | pysqa/base/remote.py:534-556 | the delete command reads back as `--delete --id <id>` after the program words, and its eighth word parses back to the id |
| Remote.ReservationCommand | pysqa/base/remote.py:534-556 | the reservation command reads back as `--reservation --id <id>` after the program words, and its eighth word parses back to the id |
| Remote.Flatten | pysqa/base/remote.py:517-532 | each flag is followed by its value |
| Remote.DecodeFlatten | pysqa/base/remote.py:517-532 | the flag/value pairs of a command line read back as themselves |
| Remote.PrependKeepsOrder | pysqa/base/remote.py:517-528 | an option put in front of options ranked after it keeps the fixed flag order |
| Remote.PrependKeepsWords | pysqa/base/remote.py:517-528 | a plain flag with a plain value in front of plain options keeps every word plain |
| Remote.PrependValue | pysqa/base/remote.py:517-528 | reading a flag back gives its value when given, else what the rest says |
| Remote.OptionText | pysqa/base/remote.py:522-527 | the base version prints numbers, the older versions raise TypeError for them; text passes unchanged |
| Remote.ResourcePairs | pysqa/base/remote.py:522-532 | cores, memory, run time and command appear in that order |
| Remote.OptionPairs | pysqa/base/remote.py:492-532 | TypeError exactly for a number in an older version; the flags come in the source's order |
| Remote.OptionPairsAllGiven | pysqa/base/remote.py:517-531 | with every option given as text, the seven flags appear once each in the source's order, the command in quotes |
| Remote.ResourcePairsValues | pysqa/base/remote.py:522-532 | each resource flag reads back as its value; the command in quotes |
| Remote.OptionPairsValues | pysqa/base/remote.py:492-532 | every option the caller gives reads back from the command under its flag |
| Remote.SubmitCommand | pysqa/ext/remote.py:383-398 | the submit command fails with TypeError exactly when its options do |
| Remote.SubmitCommandTokens | pysqa/base/remote.py:517-532 | the submit command splits into the prefix, `--submit` and the flag/value pairs |
| Remote.SubmitCommandReadBack | pysqa/base/remote.py:517-532 | the options read back from the submit command are the ones it was built from |
| Remote.SubmitCommandExample | tests/test_remote.py:62-75 | the test's submit command: prefix, `--submit`, then queue, job name, directory, cores, memory, run time and quoted command |
| Remote.MkdirCommand | pysqa/base/remote.py:595-613 | `mkdir -p` of one directory or a list; another argument raises TypeError |
| Remote.MkdirCommandWords | pysqa/base/remote.py:595-613 | the command names exactly the directories given |
| Remote.JobIdFromOutput | pysqa/base/remote.py:197 | IndexError exactly for output without a word |
| Remote.JobIdFromOutputReadsLastWord | pysqa/base/remote.py:197 | the id is the last word of the output |
| Remote.AsText | pysqa/base/remote.py:93-97 | only a text setting can be used as a path |
| Remote.ExpandUser | pysqa/base/remote.py:160 | a path not starting with `~` is unchanged |
| Remote.LocalPath | pysqa/base/remote.py:93-97 | an absolute path for text settings, TypeError otherwise |
| Remote.Get | pysqa/base/remote.py:88-92 | a missing required key raises KeyError |
| Remote.ReadSettings | pysqa/base/remote.py:82-148 | construction succeeds exactly for a readable configuration; defaults: port 22, delete on, no continuous connection, no password prompt; an authenticator service implies two-factor |
| Remote.ReadOldSettings | pysqa/remote.py:14-36 | the oldest version needs a key file, never uses a password, and keeps a connection open when the key is present |
| Remote.AuthRank | pysqa/base/remote.py:364-453 | the position of each method in the order they are tried |
| Remote.SelectAuth | pysqa/base/remote.py:364-453 | the first method in the source's order whose settings are present; ValueError when none is; the oldest version always uses its key |
| Remote.SelectAuthFails | pysqa/base/remote.py:449-453 | no method is found exactly when there is no prompt, no key and no usable password |
| Remote.ReadSettingsAuth | pysqa/base/remote.py:82-148 | from a read configuration, only the lack of a key, a password and a prompt leaves no method |
| Remote.PasswordAuthExample | tests/test_remote_auth.py:20-25 | a password and nothing else selects password authentication |
| Remote.FileTransfer | pysqa/base/remote.py:659-673 | an empty file name raises ValueError, as `relpath` does |
| Remote.RelPathRelative | pysqa/base/remote.py:672 | the relative part is never absolute |
| Remote.FileTransferBelow | pysqa/base/remote.py:659-673 | a file below the local directory lands at the same place below the remote one |
| Remote.FileTransferRoundTrip | pysqa/base/remote.py:659-673 | mapping there and back gives the original file |
| Remote.FileTransferExample | tests/test_remote.py:105-111 | `abc.txt` from `local` to `test` is `abc.txt` in the current directory |
| Remote.CommonPrefixSiblings | pysqa/base/remote.py:672 | two siblings share exactly their parent |
| Remote.Construct | pysqa/base/remote.py:82-148 | construction succeeds exactly when the local adapter and the configuration both do |
| Remote.ConvertPathToRemote | pysqa/base/remote.py:150-161 | TypeError exactly when the remote path is not text |
| Remote.ConvertPathBelow | pysqa/base/remote.py:580-593 | a path below the local root maps to the same names below the remote root |
| Remote.SubmitGuard | pysqa/base/remote.py:191-195 | dependencies raise NotImplementedError (TypeError in the oldest version); a missing working directory fails |
| Remote.SubmittedCommandAsWritten | pysqa/base/remote.py:191-197 | as written, the caller's command is what runs |
| Remote.SubmitJobAsWritten | pysqa/base/remote.py:191-197 | as written, the id is the last word of the output of the caller's command |
| Remote.SubmitAsWrittenDropsOptions | pysqa/base/remote.py:191-197 | as written, the queue and resources do not change what runs |
| Remote.SubmittedCommand | pysqa/base/remote.py:492-532 | the intended command exists exactly when the guard passes, both remote roots are text and no number reaches an older version |
| Remote.SubmitJob | pysqa/base/remote.py:191-195 | the dependency and working-directory errors come before anything is sent |
| Remote.SubmitJobReadsId | pysqa/base/remote.py:196-197 | when the login node answers with a line ending in a job id, that id is returned |
| Remote.SubmittedCommandForwardsOptions | pysqa/base/remote.py:492-532 | every argument reads back from the command that runs, with the working directory mapped to the remote side |
| Remote.DeleteJob | pysqa/base/remote.py:213-225 | the output of the delete command for that id |
| Remote.EnableReservation | pysqa/base/remote.py:199-211 | the output of the reservation command for that id |
| Remote.GetQueueStatus | pysqa/base/remote.py:227-245 | the decoded answer to the status command; with a user, the same columns and exactly the rows `RowsOfUser` selects |
| Remote.TransferFileCommands | pysqa/base/remote.py:279-304 | `mkdir -p` of the remote parent, then `rm` of the remote file only when all three deletion switches are on |
| Remote.FetchCommands | pysqa/base/remote.py:247-277 | the listing command for the remote working directory, then `rm -r` when remote files are deleted |
| Remote.FetchListWords | pysqa/base/remote.py:258-263 | the listing command names the remote working directory |
| Remote.FetchedFileLandsLocally | pysqa/base/remote.py:264-274 | a file found remotely lands at the same place under the local working directory |
| Facade.SetQueueAdapter | pysqa/queueadapter.py:308-339 | accepted exactly for the supported types; basis for schedulers, modular for GENT, remote for REMOTE; ValueError otherwise |
| Facade.DispatchersDifferOnFluxOnly | pysqa/utils/functs.py:20-35 | the older dispatcher agrees with the current one except on FLUX, which it rejects |
| Facade.DispatchCoversSchedulers | pysqa/queueadapter.py:316-323 | every scheduler name is accepted and sent to the basis adapter (GENT to the modular one); the utils adapter behind both knows every name except FLUX, which it rejects with ValueError |
| Facade.Names | pysqa/queueadapter.py:79-86 | the cluster names in configuration order |
| Facade.ListClusters | pysqa/queueadapter.py:79-86 | `list_clusters()` gives one name per configured cluster, in configuration order |
| Facade.Position | pysqa/queueadapter.py:95 | the first cluster with that name |
| Facade.Lookup | pysqa/queueadapter.py:95 | a known name gives its adapter; an unknown one raises KeyError |
| Facade.LookupFindsEntry | pysqa/queueadapter.py:63-70 | with distinct names the adapter stored under a name is the one looked up |
| Facade.BuildAll | pysqa/queueadapter.py:63-70 | every cluster's adapter in order, or the first construction error |
| Facade.Construct | pysqa/queueadapter.py:48-77 | `queue.yaml` gives cluster `default`; else `clusters.yaml` gives every cluster with the primary active; neither raises ValueError |
| Facade.SwitchCluster | pysqa/queueadapter.py:88-95 | the named adapter becomes active, the clusters stay; KeyError for an unknown name |
| Facade.SwitchThenForward | pysqa/queueadapter.py:141-305 | after a switch every operation answers as the named cluster's adapter |
| Facade.SwitchIdempotent | pysqa/queueadapter.py:88-95 | switching twice is switching once; switching back restores the facade |
| Facade.TwoClustersExample | tests/unit/test_queueadapter.py:53-62 | two clusters are listed in order; switching away and back returns to the primary |

## Left out

- Running commands, SSH, SFTP, file writing and `os.makedirs` are not modelled. Running a command is the parameter `run` or `sh`.
- The Jinja rendering of the submission template is left out. The model stops at the arguments handed to the template.
- The YAML reader is left out. Configurations arrive as values.
- The checks for the existence of `queue.yaml` and `clusters.yaml` are options passed in.
- pandas is reduced to the table operations the adapters use: boolean filtering, `concat` along both axes and row selection. `queue_view` is left out.
- Validate.Convert: `_memory_spec_string_to_value` divides with `/`, so the source's size is a float. The model uses the exact integer byte count. The two agree below 2^53 bytes; above that the float loses precision, and a size too large for a float raises OverflowError. Neither is modelled.
- Modular.TruncDiv10: `int(process_id / 10)` goes through a float. The model truncates the exact quotient, which agrees with the float for ids below about 10·2^50 only.
- Modular.ResolveQueueId: inherits the bound of `TruncDiv10`; `ResolveEncodedId` and `SubmittedIdResolves` hold for the source only for ids below about 10·2^50.
- Paths.AbsPath: a path is a sequence of names under one root, and `Paths.Render` writes it with a single leading `/`. POSIX `normpath` keeps exactly two leading slashes, so `abspath("//r/x")` is `//r/x` in CPython (three or more slashes do become one). For paths written with exactly two leading slashes, the model gives `/r/x`. The same holds for a working directory with two leading slashes. This changes the text that `Remote.LocalPath` and `Remote.FileTransfer` return for such paths. `Paths.RelPath` and `Remote.ConvertPathToRemote` compare name sequences only, so they are not affected.
- PyText.Lower: maps ASCII letters only. CPython's `lower()` also maps non-ASCII letters and can lengthen the text (U+0130 becomes two characters). The model keeps every non-ASCII character as it is.
- PyText.ParseInt: reads ASCII digits only. CPython's `int()` also accepts underscores between digits (`1_000`) and non-ASCII decimal digits; the model rejects both with ValueError.
- `pysqa/base/core.py:128-135` reads a module-level `template` from the command class's module, which none of the `pysqa/wrapper` modules defines. Only the copy `src/pysqa/wrapper/gent.py` defines one, and it imports it from a SLURM module that is not part of this model. The model takes that template as the parameter `moduleTemplate` and treats `CoreOnly` and `WithConfig` adapters as constructible.
- `pysqa/base/core.py:425-436` calls `render_submission_template` on the command class, but only `pysqa/wrapper/abstract.py` defines it and no wrapper class derives from that class. The model renders with the abstract class's defaults (`Adapter.RenderSubmissionTemplate`) for every command class.
- `pysqa/ext/modular.py:17-19` and `pysqa/ext/remote.py:25-27` pass `execute_command` to `pysqa/utils/basic.py:42`, which does not accept it, so these constructors raise TypeError as written. The model treats `ExtModular` and `ExtRemote` as constructible, with the command runner as a parameter.
- The `JobID` parser of Flux and the XML parser of SGE are parameters. Their own parsing is not modelled.
- The command-line entry point (`pysqa/cmd.py`, `pysqa/base/cmd.py`) is left out. The executor package (`pysqa/executor`) and `pysqa/interface.py` are left out too. The remote commands only build their command lines.
- The remote `get_queue_status` decodes JSON with the parameter `decode`.
- `get_status_of_my_jobs` and `_get_user` are left out; the first is only `get_queue_status` with the user from the second. The local adapters ask `getpass.getuser()`, which reads the environment. The remote adapters (`pysqa/base/remote.py:649-656`, `pysqa/ext/remote.py:461`) return the configured `ssh_username`. The user filter itself is `Adapter.GetQueueStatus` and `Remote.GetQueueStatus`.
- `_transfer_data_to_remote`, which walks the local tree with `os.walk`, is left out.
- The proxy command, `getpass` and `pyauthenticator` prompts, the keyboard-interactive handler and the warnings are left out.
- The eager SSH connection of the oldest remote version is left out.
- `utils/remote.py` is not part of this model. `Facade` takes each cluster's adapter as an already-built `Result`.
- `queueadapter.py` passes `execute_command` to a utils adapter that does not accept it. The facade is therefore modelled at the level of its own decisions.
- Remote.ExpandUser: only `~` and `~/...` are expanded. `~user` is left unchanged, which weakens the contract for that form.
- Remote.OptionText: the intermediate version's `_submit_command` concatenates its arguments with strings, so an int raises TypeError. The model keeps this, but does not model the other cases where concatenating a non-string fails.
- Remote.SubmitGuard: the oldest `submit_job` has no `dependency_list` keyword. Passing one raises TypeError in the model.
- Remote.SubmitJobAsWritten: a `None` command is handed to the shell parameter as it is. What the SSH library does with it is not modelled.
- Remote.SubmitCommandExample: states the test's command as the prefix followed by the spaced words, not as one literal string.
- Facade.Construct: requires the cluster names to be distinct, since they are the keys of a YAML mapping.
- Modular.WideQueueStatus: `concat(axis=1)` is kept as the list of tables side by side. Column alignment and NaN padding are not modelled. With a user and more than one listing, the frame has several `user` columns and pandas masks cells by a frame instead of selecting rows; the model filters each listing's rows instead.

## Findings

| source | as written | input that shows it | evidently intended | confidence | as-written member | corrected member |
|---|---|---|---|---|---|---|
| pysqa/base/modular.py:38-45 | the error message for an unknown cluster calls `.keys()` on the cluster list, so an AttributeError escapes instead of the ValueError being raised (same in pysqa/ext/modular.py:23-30) | a queue on cluster `c2` with clusters `["c1"]` | ValueError naming the unknown cluster, as `pysqa/utils/modular.py:9-16` does | not executed | Modular.ClusterCheckAsWritten | Modular.ClusterCheck |
| pysqa/base/remote.py:191-197 | `submit_job` runs the caller's `command` on the login node, so queue, job name, cores, memory and run time are silently dropped; `_submit_command` is never called (same in pysqa/ext/remote.py:118-124, pysqa/remote.py:54-56) | queue `remote`, job name `test`, one core, command `/bin/true`: `/bin/true` runs as is | run `python -m pysqa ... --submit` built from the arguments, with the working directory mapped to the remote side | not executed | Remote.SubmitAsWrittenDropsOptions | Remote.SubmittedCommandForwardsOptions |
