# miele-notifier, modelled in Dafny

`miele-notifier.py` is a small script. It polls a home-appliance status API
once a minute and watches the laundry machines whose ids were given on the
command line. When a watched machine is no longer in use, it sends a push
notification. Once every watched machine has finished, it sends "All Done"
and exits. This project models the script's core and proves properties of
the model:

- **Record normalisation** (`Machines`). Each raw provider entry becomes a
  machine record. `type` is `Dryer` when `machineSymbol` is truthy and
  `Washer` otherwise. `in_use` is the negation of `machineColor`. `status`
  and `unitName` are copied. `id` is the unit name after Python's
  `str.replace("Machine ", "")`. The fetch aborts with exit code 1 on any
  HTTP status other than 200. `GetMachines` is the loop that builds the
  result list; `Fetch` is the function that specifies it.
- **String operations** (`Text`). `Replace` is `str.replace` for a
  non-empty pattern: one left-to-right pass that replaces every
  non-overlapping occurrence. `Split` and `Join` are `str.split` and
  `str.join` on one separator character, and they are proved inverse to
  each other.
- **Watch-list tracker** (`Tracker`). `Observe` is how the program reacts to
  one record. `Track` is one pass over a poll's records, in order. A
  watched record that is no longer in use loses one occurrence of its id
  (the first, as `list.remove` does) and appends one
  `"{type} {id} is now finished!"` notification.
- **Process** (`Notifier`). The class `Monitor` holds the script's global
  `watchids` list and the log of notifications sent. Its methods are
  `handle_args`, `watch`, `checkdone` and `mainloop`, written as methods
  over that state; `watch` and `mainloop` are loops. Each method is proved equal to a specification function
  (`ParseArgs`, `Track`, `Done`, `Loop`). `Run` is `main`: command line,
  one listing fetch, then the poll loop.

HTTP responses are inputs. `Run` and `MainLoop` take a finite sequence of
them, one per fetch. When the sequence runs out before the process exits,
the outcome is `Running`.

Some behaviour of the code is easy to miss:

- The watch list is a Python list, not a set. The argument `1,1` watches
  machine 1 twice. Each idle record with id 1 removes one copy, so a poll
  with a single idle record for machine 1 leaves one copy watched
  (`Tracker.DuplicateSeenOnceStays`). A poll with two idle records for
  id 1 removes both (`Tracker.DuplicateSeenTwiceFinishes`).
- The id step removes the pattern wherever it occurs. It is not a prefix
  strip, and it is not idempotent: `"MachMachine ine "` becomes
  `"Machine "`, and a second pass gives `""`
  (`Machines.IdNotIdempotent`). When the unit name is `"Machine "` followed
  by a rest free of the pattern, the id is that rest
  (`Machines.IdOfPrefixedName`).
- The `list` command also fetches. A non-200 answer to that fetch ends the
  process with exit code 1, not 0.

## Model

| member | source | states |
|---|---|---|
| `Text.Replace` | miele-notifier.py:62 | definition of `str.replace` for a non-empty pattern: one left-to-right pass that replaces the leftmost occurrence and resumes right after it; its properties are stated by `ReplaceAbsent`, `ReplaceLeading`, `StripLeading`, `RemoveLength` and `RemoveChanges` |
| `Text.ReplaceAbsent` | miele-notifier.py:62 | a string in which the pattern does not occur is returned unchanged by the replacement |
| `Text.ReplaceLeading` | miele-notifier.py:62 | unfolding helper: one step of `Replace` at a leading occurrence (the occurrence is replaced and the pass resumes right after it) |
| `Text.StripLeading` | miele-notifier.py:62 | removing the pattern from `pat + s`, where `s` has no occurrence, gives exactly `s` |
| `Text.RemoveLength` | miele-notifier.py:62 | removal never lengthens a string, and it keeps the length if and only if the pattern does not occur |
| `Text.RemoveChanges` | miele-notifier.py:62 | removal leaves a string unchanged if and only if the pattern does not occur in it |
| `Text.Split` | miele-notifier.py:108 | `split(',')` returns one more piece than there are separators; no piece contains the separator; joining the pieces with the separator gives back the input |
| `Text.SplitCons` | miele-notifier.py:108 | unfolding helper: one step of `Split` (a leading separator starts a new empty piece; any other leading character joins the first piece) |
| `Text.SplitPrefix` | miele-notifier.py:108 | a separator-free prefix is glued onto the first piece of the rest's split |
| `Text.SplitPart` | miele-notifier.py:108 | a separator-free string splits into itself alone |
| `Text.SplitAfterPart` | miele-notifier.py:108 | a separator-free part followed by a separator is split off as the first piece |
| `Text.SplitJoin` | miele-notifier.py:108 | splitting the join of a non-empty list of separator-free parts gives back that list, so split and join are inverses |
| `Machines.KindName` | miele-notifier.py:58 | definition: the `type` string, `Dryer` or `Washer`, that the record carries and the finished message prints |
| `Machines.MachineId` | miele-notifier.py:62 | definition: the id is the unit name with every `"Machine "` removed by `Text.Replace`; its properties are stated by `IdOfPrefixedName`, `IdOfPlainName` and `IdNotIdempotent` |
| `Machines.Normalize` | miele-notifier.py:57-62 | the record is a Dryer iff `machineSymbol`, a Washer iff not; it is in use iff `machineColor` is false; status and unit name are copied; the id is the unit name with every `"Machine "` removed |
| `Machines.NormalizeLossless` | miele-notifier.py:57-62 | the raw entry can be read back from its record, so normalisation loses no information |
| `Machines.IdOfPrefixedName` | miele-notifier.py:62 | a unit name `"Machine " + s`, where `s` has no `"Machine "`, has id `s` |
| `Machines.IdOfPlainName` | miele-notifier.py:62 | a unit name is its own id if and only if it contains no `"Machine "` |
| `Machines.IdNotIdempotent` | miele-notifier.py:62 | the id step is not idempotent: `"MachMachine ine "` has id `"Machine "`, whose own id is `""` |
| `Machines.NormalizeAll` | miele-notifier.py:55-64 | exactly one record per `MachineStates` entry, in order, each the normalisation of its entry |
| `Machines.Fetch` | miele-notifier.py:48-64 | a non-200 status aborts with exit code 1 before any entry is normalised; status 200 yields the normalised records |
| `Machines.GetMachines` | miele-notifier.py:53-64 | the status check and the append loop compute `Fetch`: one record per entry, in order |
| `Tracker.FinishedMessage` | miele-notifier.py:72 | definition: the notification text, the type, a space, the id, then " is now finished!" |
| `Tracker.IndexOf` | miele-notifier.py:73 | the position found holds `x`, and no earlier position does |
| `Tracker.RemoveFirst` | miele-notifier.py:73 | `list.remove` deletes exactly the element at the first occurrence of `x` and keeps the order of the rest |
| `Tracker.RemoveFirstCount` | miele-notifier.py:73 | `list.remove` takes away exactly one copy of `x` |
| `Tracker.Observe` | miele-notifier.py:70-75 | definition of the reaction to one record; its effect is stated by `ObserveEffect` |
| `Tracker.Track` | miele-notifier.py:69-77 | definition of one pass over a poll's records, in order (a left fold of `Observe`); its properties are stated by `TrackAccounts`, `TrackKeepsUnseen`, `TrackQuiet` and `TrackNoticesFromIdle`, and `Monitor.Watch` is proved to compute it |
| `Tracker.ObserveEffect` | miele-notifier.py:69-77 | a watched record not in use loses its id's first occurrence (one copy) and appends one "finished" notification; any other record changes neither the list nor the log |
| `Tracker.TrackSnoc` | miele-notifier.py:69 | unfolding helper: one step of `Track` (one more record at the end adds one observation at the end) |
| `Tracker.TrackAccounts` | miele-notifier.py:69-75 | a pass never adds ids, only appends to the notification log, and appends exactly one notification per removed id |
| `Tracker.TrackKeepsUnseen` | miele-notifier.py:69-70 | an id that no record carries keeps all its occurrences |
| `Tracker.TrackQuiet` | miele-notifier.py:69-77 | a poll whose records are all in use or unwatched changes nothing |
| `Tracker.TrackNoticesFromIdle` | miele-notifier.py:70-75 | every notification a pass appends is the finished message of a record of that poll that is not in use and whose id was watched when the pass began |
| `Tracker.StillWatched` | miele-notifier.py:73 | an id present in a list that has only lost elements was present in the original list |
| `Tracker.RemoveMiddle` | miele-notifier.py:73 | removing `2` from the list 1, 2, 3 leaves 1, 3 |
| `Tracker.OneOfThreeFinishes` | miele-notifier.py:69-77 | watching 1, 2, 3 with only 2 idle: list becomes 1, 3 and exactly one notification, for 2, is sent |
| `Tracker.LoneIdFinishes` | miele-notifier.py:69-75 | the only watched id, seen idle, empties the list with one notification |
| `Tracker.DuplicateSeenOnceStays` | miele-notifier.py:70-73 | with id 1 watched twice, one idle sighting removes one copy and sends one notification |
| `Tracker.DuplicateSeenTwiceFinishes` | miele-notifier.py:69-75 | with an id watched twice, two idle records for it in one poll remove both copies and send two notifications |
| `Notifier.ParseArgs` | miele-notifier.py:101-108 | usage error iff the argument count is not 2; `list` iff the argument is `list`; otherwise the watch list is `argv[1].split(',')`: at least one id, none with a comma, comma-joined back to `argv[1]` |
| `Notifier.Done` | miele-notifier.py:85-91 | exit code 0 and exactly one "All Done" appended iff the watch list is empty; otherwise nothing changes |
| `Notifier.Cycle` | miele-notifier.py:80-82 | a non-200 status exits with code 1 and leaves the list and the log as they were; otherwise one pass over the records, then the completion check |
| `Notifier.Loop` | miele-notifier.py:79-83 | definition of the poll loop over a finite sequence of responses, stopping at the first exit; its properties are stated by `LoopAccounts`, `LoopOutcome`, `LoopNotices` and `LoopCompletes`, and `Monitor.MainLoop` is proved to compute it |
| `Notifier.LoopAccounts` | miele-notifier.py:79-91 | across the poll loop ids are only removed; the log only grows; it grows by one notification per removed id plus one "All Done" when the exit code is 0 |
| `Notifier.LoopOutcome` | miele-notifier.py:79-91 | the loop exits only with code 0 or 1; exit code 0 means the list is empty and the last notification is "All Done"; running after a cycle means some id is still watched |
| `Notifier.NoticeFromPolls` | miele-notifier.py:69-75 | definition: the message is the finished message of the normalised record of some entry of some 200 response among the polls, that record not in use and its id in the given list |
| `Notifier.LoopNotices` | miele-notifier.py:69-91 | every notification the loop sends is either the finished message of a record that one of its 200 responses reported not in use, whose id was watched when the loop began, or the last one, "All Done", of a loop that ends with exit code 0 |
| `Notifier.LoopCompletes` | miele-notifier.py:69-91 | a poll loop that starts with nothing sent and ends with exit code 0 has sent as many finished messages as there were watched ids, each for a record with a watched id that one of its 200 responses reported not in use, and then "All Done" last |
| `Notifier.OneOfThreeKeepsRunning` | miele-notifier.py:66-91 | watching 1, 2, 3 with only 2 idle: one cycle removes 2, sends its finished message, and the completion check keeps the loop running for 1 and 3 |
| `Notifier.LastMachineFinishes` | miele-notifier.py:66-91 | the last watched machine seen idle gives its "finished" notification, then "All Done", then exit code 0 |
| `Notifier.Monitor.constructor` | miele-notifier.py:13 | the watch list starts empty and nothing has been sent |
| `Notifier.Monitor.HandleArgs` | miele-notifier.py:101-108 | returns the decoded command; a watch command replaces the global watch list with the split ids; otherwise the list is left alone; nothing is sent |
| `Notifier.Monitor.Watch` | miele-notifier.py:66-77 | a non-200 status exits with code 1 and changes nothing; otherwise the loop over the records leaves exactly the state of `Track` on the normalised records |
| `Notifier.Monitor.CheckDone` | miele-notifier.py:85-91 | exits with code 0 and sends one "All Done" iff the watch list is empty; otherwise nothing changes; the list itself is never changed |
| `Notifier.Monitor.MainLoop` | miele-notifier.py:79-83 | alternating watch and completion check over the responses ends in exactly the outcome and state of `Loop` |
| `Notifier.RunSpec` | miele-notifier.py:110-115 | definition of the whole run: command line, one listing fetch, then the poll loop; `Run` is proved to compute it, and `RunNotices` states what it sends |
| `Notifier.RunNotices` | miele-notifier.py:101-115 | without a watch command nothing is sent; a watch that ends with code 0 has sent as many finished messages as there were watched ids, each for a record with a watched id that a 200 response of the poll loop reported not in use, and then "All Done" |
| `Notifier.Run` | miele-notifier.py:101-115 | the run equals `RunSpec`; the wrong argument count exits with code 2 and sends nothing; `list` sends nothing and exits with 0, or with 1 on a non-200 listing |

## Left out

- HTTP request, authorisation header and `json.loads` (miele-notifier.py:43-51): each response is an input, made of a status code and the decoded `MachineStates` entries. Malformed JSON and a missing key raise uncaught exceptions in the script; the model leaves them out.
- JSON truthiness of `machineSymbol` and `machineColor`: the model takes both as booleans, already reduced to their truthiness.
- Pushover client (miele-notifier.py:37-41): sending is appending the message to a log. The title is always `Miele Notifier` and is not logged. A failing push raises an uncaught exception; the model leaves it out.
- Texttable rendering in `list_machines` (miele-notifier.py:23-30): it is library formatting. Its fetch, and that fetch's exit code 1, are modelled in `Run`.
- Config file loading (miele-notifier.py:32-35): it is file I/O.
- `printtime`, `print` and the clock (miele-notifier.py:19-21, 74, 77, 93-99): these are output only. This includes the "still working" line printed for watched machines that are in use.
- SIGINT handler (miele-notifier.py:16-17, 113): it is OS signal handling. `main` installs the handler only after `readconfig()` and `handle_args()` (miele-notifier.py:111-113). From then on, in the watch path, a Ctrl-C exits with code 0. Before that, and throughout the `list` command, which ends inside `handle_args` (miele-notifier.py:104-105), a Ctrl-C raises an uncaught `KeyboardInterrupt`.
- `sleep(60)` (miele-notifier.py:83): timing is not modelled.
- `mainloop` need not terminate (miele-notifier.py:79-83). It is modelled over a finite sequence of responses, and `Running` means the responses ran out.
- `Text.Replace`: Python's `str.replace` with an empty pattern inserts the replacement between characters. The model requires a non-empty pattern, because the only pattern the script uses is `"Machine "`.
- `Notifier.Monitor.HandleArgs`: in the script, `handle_args` itself exits with code 2 on a usage error and with code 0 after listing. In the model it returns the decoded command, and `Run` turns that command into the exit code. The same codes and the same order of effects are kept.
