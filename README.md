# syncmail, modelled in Dafny

syncmail is a small mail fetcher. It runs `mbsync` for every account found in
an accounts directory, on a timed cycle. When the sync tool reports new mail
it raises a desktop notification with `notify-send`. It keeps every in-flight
sync task in a module-level set, and on shutdown it cancels and awaits them
all. This project models the sequential logic inside that loop. The
subprocesses become inputs.

- `sync_output.dfy`, module `SyncOutput`: what `run_mbsync` does once `mbsync`
  has exited. Given the channel, stdout and stderr, it gives the notify
  decision, the exact `notify-send` argument vector, and the ordered log
  entries. The new-mail regex `pulled (\d) new message\(s\)` is written out as
  its fixed-length shape: the literal prefix, one ASCII digit, the literal
  suffix. `re.search` is the leftmost match.
- `discovery.dfy`, module `Discovery`: the comprehension in `execute`. It
  keeps the directory entries that match `*.muttrc` and maps each one to its
  pathlib stem. The stem follows pathlib's rule: the last dot counts as a
  suffix only if it is neither the name's first nor its last character.
- `config.dfy`, module `Config`: the start-up check of the three required
  keys. The parsed `.syncmailenv` is a map from key to optional value, because
  a dotenv line without `=` yields a key with no value.
- `registry.dfy`, module `Registry`: the `background_tasks` set as the class
  `TaskRegistry`. `Execute` creates one fresh task id per discovered account and
  adds the batch to the set. `Complete` is the done-callback `discard`.
  `CancelAll`, `Drain` and `Shutdown` are the `finally` block of `main`. The
  invariant `Valid()` says the registry equals the ids dispatched so far minus
  the ids completed so far. Those two sets are ghost state.
- `wrappers.dfy`, module `Wrappers`: the `Option` type.

Three consequences of the code are worth stating up front:

- The pattern captures a single `\d`, so "pulled 12 new message(s)" never
  matches (`SyncOutput.MultiDigitCountNeverMatches`).
- The notifier vector names only the channel, in its `-a` argument; the
  count is not passed on (`SyncOutput.NotificationOmitsCount`).
- Every run that completes writes a start entry and a done entry, so it
  writes two to four entries (`SyncOutput.LogOrder`).

## Model

| member | source | states |
|---|---|---|
| `SyncOutput.SearchFrom` | src/syncmail/main.py:75 | the result, when present, is a match position at or after the start, and no earlier position from the start matches; when absent, no position from the start matches |
| `SyncOutput.Search` | src/syncmail/main.py:75 | a found match is the leftmost one, and its group is the one digit after `pulled `; no result exactly when no position of the text matches |
| `SyncOutput.DigitValue` | src/syncmail/main.py:76 | `int()` of the captured digit is at most 9, and it is 0 exactly for `'0'` |
| `SyncOutput.NotifyIffFirstMatchNonZero` | src/syncmail/main.py:73-76 | a notification is launched if and only if stdout has a leftmost match whose digit is not `0`; later matches play no part |
| `SyncOutput.NoMatchNeverNotifies` | src/syncmail/main.py:75-76 | stdout without any match never notifies |
| `SyncOutput.MultiDigitCountNeverMatches` | src/syncmail/main.py:75-76 | `pulled ` followed by two or more digits and ` new message(s)` contains no match at all, so it does not notify |
| `SyncOutput.TwelveDoesNotNotify` | src/syncmail/main.py:75-76 | "pulled 12 new message(s)" does not notify |
| `SyncOutput.ThreeNotifies` | src/syncmail/main.py:75-76 | "pulled 3 new message(s)" matches at 0 with group `3` and notifies |
| `SyncOutput.ZeroDoesNotNotify` | src/syncmail/main.py:75-76 | "pulled 0 new message(s)" matches at 0 with group `0` and does not notify |
| `SyncOutput.NotifyArgv` | src/syncmail/main.py:77-86 | the notifier vector is exactly `notify-send`, `-t`, `5000`, `-a`, "New Mail in " followed by the channel, `-e`, `-i` and the icon path |
| `SyncOutput.ChannelOnlyInAppName` | src/syncmail/main.py:77-86 | every argument except the `-a` value is the same whatever the channel |
| `SyncOutput.AppNameDeterminesChannel` | src/syncmail/main.py:82 | two channels with the same argument vector are the same channel |
| `SyncOutput.RunLog` | src/syncmail/main.py:65-90 | a run writes two to four entries, starting with "Running mbsync for" and the channel and ending with "Done running" and the channel |
| `SyncOutput.ReportLoggedIffStdout` | src/syncmail/main.py:73-87 | the info entry reporting stdout is in the log if and only if stdout is non-empty |
| `SyncOutput.ErrorLoggedIffStderr` | src/syncmail/main.py:88-89 | the log has an error-level entry if and only if stderr is non-empty, and every error-level entry is the report of stderr |
| `SyncOutput.LogOrder` | src/syncmail/main.py:65-90 | the log length is 2 plus one per non-empty stream; the stdout report comes right after the start entry, and the stderr report comes right before the done entry |
| `SyncOutput.RunMbsync` | src/syncmail/main.py:64-90 | a run launches a notification exactly when the notify guard holds, with the notifier vector for its channel, and its log is the run's log sequence |
| `SyncOutput.NotificationOmitsCount` | src/syncmail/main.py:76-86 | any two notifying outputs of one channel launch the same command, so the count is not passed on |
| `SyncOutput.SilentRun` | src/syncmail/main.py:73-90 | empty stdout launches nothing and logs two entries, or three when stderr is non-empty |
| `Discovery.Stem` | src/syncmail/main.py:96 | the stem is a prefix of the name |
| `Discovery.DescriptorStem` | src/syncmail/main.py:96-97 | the stem of a `*.muttrc` name is the name without `.muttrc`, except that the bare name `.muttrc` keeps its whole name |
| `Discovery.StemRoundTrip` | src/syncmail/main.py:96-97 | for every `*.muttrc` name other than `.muttrc`, the stem followed by `.muttrc` is the name again |
| `Discovery.StemsCanCollide` | src/syncmail/main.py:95-98 | `.muttrc` and `.muttrc.muttrc` both match and both have stem `.muttrc`, so discovering them gives the account `.muttrc` twice and two tasks sync the same channel |
| `Discovery.Discover` | src/syncmail/main.py:95-98 | discovery yields at most one account per entry |
| `Discovery.DiscoverMembers` | src/syncmail/main.py:95-98 | a name is among the accounts if and only if it is the stem of some entry matching `*.muttrc` |
| `Discovery.DiscoverCount` | src/syncmail/main.py:95-98 | there are exactly as many accounts as entries matching `*.muttrc` |
| `Discovery.DiscoverAppend` | src/syncmail/main.py:95-98 | discovery of a listing split in two is the discovery of the first part followed by that of the second, so listing order is kept |
| `Discovery.NothingToDiscover` | src/syncmail/main.py:95-98 | a listing with no matching entry, the empty one included, gives no accounts |
| `Discovery.WorkAndPersonal` | src/syncmail/main.py:95-98 | `work.muttrc`, `notes.txt` and `personal.muttrc` give exactly the accounts `work` and `personal` |
| `Config.Validate` | src/syncmail/main.py:36-46 | start-up exits with status 1 and the missing-variables message if and only if one of the three required keys is absent, has no value or has an empty value; otherwise the settings are those three values |
| `Config.OnlyRequiredKeysMatter` | src/syncmail/main.py:36-40 | two configurations that agree on the three required keys have the same start-up outcome |
| `Config.KeyWithoutValueRejected` | src/syncmail/main.py:36-40 | a required key written without a value makes start-up exit |
| `Config.IntervalNotCheckedNumeric` | src/syncmail/main.py:36-46 | a non-numeric check interval passes the start-up check |
| `Registry.NewTasks` | src/syncmail/main.py:95-96 | one task is created per account, with consecutive ids from `first`, in creation order, all distinct |
| `Registry.TaskRegistry.constructor` | src/syncmail/main.py:48 | the registry starts empty, with nothing dispatched or completed |
| `Registry.TaskRegistry.Dispatch` | src/syncmail/main.py:95-99 | one fresh, distinct task per account, each syncing its account; the registry gains exactly these tasks and grows by their number; nothing else changes |
| `Registry.TaskRegistry.Execute` | src/syncmail/main.py:93-100 | an execute phase dispatches exactly one fresh task per discovered account, in discovery order; the registry becomes its old contents plus the batch and grows by the number of accounts; the invariant is kept |
| `Registry.TaskRegistry.Complete` | src/syncmail/main.py:100 | the done callback removes exactly that task and leaves the others unchanged; removing an absent task changes nothing; the invariant is kept |
| `Registry.TaskRegistry.CancelAll` | src/syncmail/main.py:138-139 | every registered task receives a cancellation request, and the registry itself is unchanged |
| `Registry.TaskRegistry.Drain` | src/syncmail/main.py:140 | every registered task is awaited and its fate is collected, failures included; the registry ends empty with all of them completed |
| `Registry.TaskRegistry.Shutdown` | src/syncmail/main.py:136-141 | cancellation is requested for every registered task, then all of them are drained; every fate is collected, the registry is empty, and every dispatched task is completed |
| `Registry.TaskRegistry.ExecuteAndSettle` | src/syncmail/main.py:93-100 | after an execute phase and any sequence of done callbacks, the registry holds exactly the old and new tasks that have not completed; once every new task has completed, it is back to its old contents |

## Left out

- SyncOutput.RunLog and SyncOutput.RunMbsync: describe only a run that reaches its final log line. `run_mbsync` has no exception handler, so a run that raises writes only the start entry and launches nothing further. That happens when `mbsync` or `notify-send` cannot be launched (for example, the executable is missing), when the icon resource is missing, or when the task is cancelled while it waits for `mbsync`, which is what shutdown does. A failed notification launch is therefore propagated out of the task, not logged.
- Subprocesses are not modelled: `mbsync`, `notify-send` and `notmuch new --quiet`, with their launch, `communicate` and exit codes. Their stdout and stderr are inputs, and a notification is modelled only as the argument vector it would be launched with.
- The asyncio runtime is not modelled: task scheduling, `asyncio.sleep`, the `while True` cycle of `main`, and the handling of `KeyboardInterrupt` and `CancelledError`. The registry is a sequential set. How a task ends is an input to `Drain`, and the order in which callbacks fire is an input to `ExecuteAndSettle`.
- The sleep length `int(interval) / 2` is float division and is not modelled. Neither is the `ValueError` that `int()` raises for a non-numeric interval at the first sleep.
- Bytes and Unicode are not modelled: `decode()` and the non-ASCII digits that `\d` and `isdigit()` accept. Text is already decoded, and digits are ASCII `0` to `9`.
- The `.syncmailenv` existence check is not modelled. It tests the method `Path(...).exists` without calling it, so it is always true and never exits.
- Other I/O and library calls are not modelled: reading the dotenv file, the `RotatingFileHandler` and logging setup, the icon lookup through `importlib.resources` (the icon path is an input), `datetime.now()`, `click` commands and terminal output, and the log lines "Shutting down..." and "Shutdown completed." around the drain.
- The directory scan of `Path(...).glob` is not modelled. The entry names are an input, so a missing directory is an empty listing. Matching is case-sensitive, and `*` also matches names that start with a dot.
- The `oneshot` command is not modelled separately. It is one `Execute` with optional terminal output.
