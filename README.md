# Submit-queue merge gate (e2e tester)

A Dafny model of the merge gate of the Kubernetes submit queue,
`submit-queue/e2e.go`. The gate takes one candidate pull request at a time.
It polls the configured Jenkins jobs until a sweep over them passes. If
the candidate carries the configured bypass label, it then merges at
once, with no comment and no validation. Otherwise it asks the CI bot to
re-run the tests, waits for the result, and merges only on success. As
written, a sweep passes when no job returned an error; the
model's methods use the corrected rule, under which every job must also
answer stable (see the Findings section). While it works it keeps a bounded, timestamped message log, the last
error and the candidate being considered in its `ExternalState`, which
operators read as a snapshot. The per-job build-status map that each sweep
writes belongs to the tester itself (`e.BuildStatus`), not to the
snapshot. The snapshot's own `BuildStatus` field (`stateBuildStatus`)
keeps the value it was created with, so the snapshot never shows a
sweep's statuses.

The model has four modules:

- `Types` (`types.dfy`): optional values, collaborator errors, the
  candidate, and the `Call` events of the trace. It also has the `%d`
  rendering of integers used in log texts.
- `MessageLog` (`message_log.dfy`): the bounded log as functions of the
  old log. `Logged` is one `msg` call and `LogAll` is many. `Window` is
  the newest `Capacity` entries of everything ever appended.
- `Builds` (`builds.dfy`): one stability sweep and the retry loop around
  it, as functions of the answers the build server gives. These cover the
  texts logged, the calls made, the status map written, the sweep result,
  and the first sweep that succeeds.
- `E2E` (`e2e.dfy`) has two parts.
  - `Decide` is the decision sequence after the builds are stable, with
    its lemmas.
  - Class `E2ETester` holds the fields the Go code updates in place:
    - the `ExternalState` snapshot: `currentPR`, `message`, `err`,
      `stateBuildStatus`, `whitelist`;
    - the tester's own `buildStatus` map;
    - the configuration: `jobs`, `bypassLabel` and the clock.

  Its methods `Msg`, `Error`, `SetBuildStatus`, `CheckBuilds`,
  `WaitForStableBuilds` and `RunE2ETests` follow the Go methods of the
  same names. `CheckJob` is one job's turn in `checkBuilds`, `Round` and
  `Pause` are the body of the retry loop, and `Consider` and
  `ValidateAndMerge` are the tail of `runE2ETests`. Each method is proved
  against the specification functions above. There is one departure:
  `CheckBuilds`, and with it `WaitForStableBuilds` and `RunE2ETests`,
  computes the corrected sweep result (see the Findings section). The
  sweep result as written is the function `Builds.WrittenAllStable`, and
  the sweep at which the written loop stops is `Builds.FirstWritten`.

The collaborators' answers are injected values, bundled in
`Collaborators`:

- the Jenkins `IsBuildStable`, given as one answer per job per sweep;
- the GitHub calls `HasLabel`, `WriteComment`, `WaitForPending`,
  `ValidateStatus` and `MergePR`.

The clock is not part of `Collaborators`. It is a constructor parameter
of `E2ETester`, kept as the constant `clock: nat -> string`, and read once
per `msg` call at tick `ticks`.

Every call the gate makes is appended to the trace `calls`, in order. So
are the set and clear of `CurrentPR` and each 30-second sleep. Two ghost
fields record logging:

- `notes` holds every text that `msg` was asked to log;
- `history` holds every entry ever appended.

`Valid()` states that the log is the newest `Capacity` entries of
`history`. Every logging method states how it extends all three:

- `notes` grows by exactly the texts it logs;
- `ticks` grows by one per text;
- `history` grows by those texts stamped with the clock readings from the
  old `ticks` on.

With `Valid()` and `MessageLog.WindowLogAll`, this means the new log is
`LogAll` of the old log over those texts. That is the result of the same
number of `msg` calls, in order.

The model follows the code in these details:

- **Log length.** `msg` drops the oldest entry only when the log already
  holds more than 50 entries (the `> 50` test at e2e.go:52), and then
  appends. The log therefore settles
  at 51 entries, not 50 (`MessageLog.Capacity`).
- **Ignored pending error.** The error returned by `WaitForPending` is
  overwritten by the one from `ValidateStatus` and never consulted
  (`E2E.DecidePendingIgnored`).
- **Merge error not recorded.** A merge error is returned to the caller
  but never stored in `Err`. Only comment and validation errors are
  recorded (`E2E.DecideRecords`).
- **Sweep result (the exception).** `checkBuilds` clears `allStable` only
  on an error. The model records this as a finding and uses the
  evidently intended result: the sweep fails on an unstable answer too
  (see the Findings section below).

## Model

| member | source | states |
|---|---|---|
| Types.DigitsRoundTrip | submit-queue/e2e.go:109 | the digits of a natural number are decimal digits only, and reading them back gives the number |
| Types.DecimalRoundTrip | submit-queue/e2e.go:109 | `%d` prints a non-empty string: an optional minus sign followed by digits only; reading it back gives the number printed |
| Types.DecimalInjective | submit-queue/e2e.go:109 | two candidate numbers print alike only when they are equal, so the "Considering PR" text names the candidate |
| MessageLog.Logged | submit-queue/e2e.go:52-56 | one msg call as a function of the old log: drop the first entry when the log holds more than 50, then append "stamp: text"; its properties are LoggedShape |
| MessageLog.LogAll | submit-queue/e2e.go:49-58 | a run of msg calls, one per text in order, the k-th reading the clock at tick t + k; its properties are the LogAll lemmas and WindowLogAll |
| MessageLog.LoggedShape | submit-queue/e2e.go:52-56 | one msg call appends exactly one entry at the end; it drops the oldest entry exactly when the log held more than 50; the old entries are kept in order; the log stays within 51 |
| MessageLog.LogAllAppend | submit-queue/e2e.go:49-58 | logging one batch of texts and then another is the same as logging their concatenation |
| MessageLog.LogAllLength | submit-queue/e2e.go:52-56 | after any number of msg calls, a log of at most 50 entries has grown by one per call up to 51; a longer log keeps its length |
| MessageLog.LogAllBounded | submit-queue/e2e.go:52-56 | a log of at most 51 entries never grows past 51, however many msg calls follow |
| MessageLog.LogAllKeepsNewest | submit-queue/e2e.go:52-56 | after any number of msg calls, the log is a suffix of the old log followed by the newly stamped entries: nothing is reordered and only the oldest entries go |
| MessageLog.Window | submit-queue/e2e.go:52-56 | the log of n entries ever appended holds min(n, 51) of them; the body takes the newest, oldest first |
| MessageLog.WindowLogged | submit-queue/e2e.go:52-56 | one msg call on such a window gives the window of the history extended by the new entry |
| MessageLog.LogAllFromEmpty | submit-queue/e2e.go:52-56 | msg calls on an empty log leave exactly the window of the stamped entries, so the step-by-step and window descriptions agree |
| MessageLog.WindowLogAll | submit-queue/e2e.go:49-58 | any stretch of msg calls on the window of a history gives the window of that history extended by the newly stamped entries; the step-by-step log and the history view agree |
| Builds.StatusText | submit-queue/e2e.go:83-93 | the BuildStatus value one answer gets: "Error checking: " + the error text on an error, otherwise "Stable" or "Not Stable" |
| Builds.SweepStable | submit-queue/e2e.go:79-95 | corrected fold: allStable folded job by job over the answers, cleared by an error or by an unstable answer; characterised by SweepStableIff |
| Builds.SweepTexts | submit-queue/e2e.go:80-84 | the texts one sweep logs, job by job: "Checking build stability for" + job, then the error text when the job answered with an error |
| Builds.SweepStatus | submit-queue/e2e.go:80-94 | the build-status map after one sweep: one write of StatusText per job, in list order; characterised by SweepStatusOutside, SweepStatusKeys and SweepStatusAt |
| Builds.WaitTexts | submit-queue/e2e.go:98-103 | the texts of a run of rounds: each sweep's texts, followed by "Not all builds stable. Checking again in 30s" after each sweep the corrected fold rejects |
| Builds.WaitCalls | submit-queue/e2e.go:98-103 | the calls of a run of rounds: each sweep's IsBuildStable queries, followed by Sleep(30) after each sweep the corrected fold rejects |
| Builds.SweepStableIff | submit-queue/e2e.go:79-95 | corrected fold: a sweep reports stable iff every job answered stable with no error; an empty job list is stable |
| Builds.QueriesInOrder | submit-queue/e2e.go:80-82 | a sweep asks the build server about every configured job exactly once, in list order |
| Builds.WrittenAllStable | submit-queue/e2e.go:79-95 | the result as written is true iff no job returned an error, whatever the jobs answered about stability |
| Builds.WrittenAcceptsUnstableBuild | submit-queue/e2e.go:89-93 | as written, one job answering (false, nil) makes the sweep report every build stable |
| Builds.WrittenWeaker | submit-queue/e2e.go:79-95 | the as-written result accepts every sweep that the corrected result accepts |
| Builds.FirstStable | submit-queue/e2e.go:98-103 | corrected loop: the sweep after which the retry loop returns is stable, and no earlier sweep is |
| Builds.FirstWritten | submit-queue/e2e.go:89-103 | as written, the sweep after which the retry loop returns is the first one in which no job returned an error; no earlier sweep is such |
| Builds.WrittenStopsNoLater | submit-queue/e2e.go:89-103 | as written, the loop stops no later than the corrected one: wherever the corrected loop stops, a written-stable sweep has already occurred |
| Builds.WrittenStopsOnUnstableBuild | submit-queue/e2e.go:89-103 | as written, one job answering (false, nil) ends the wait at the first sweep, although no sweep is stable, and that job's status then reads "Not Stable" |
| Builds.FirstStableStep | submit-queue/e2e.go:99 | corrected loop: at a sweep no later than the first stable one, the loop condition fails exactly at the first stable sweep; otherwise a later sweep exists |
| Builds.FirstStableAllGood | submit-queue/e2e.go:98-103 | corrected loop: the loop returns on a sweep where every configured job answered stable with no error; every earlier sweep had a job that did not |
| Builds.BadJob | submit-queue/e2e.go:79-95 | corrected fold: an unstable sweep names a job that did not answer stable with no error |
| Builds.SweepTextsQuiet | submit-queue/e2e.go:81-84 | a sweep never logs the "not all stable" message |
| Builds.WaitCounts | submit-queue/e2e.go:99-102 | corrected loop: over n failed sweeps, the loop logs the "not all stable" message n times and sleeps n times |
| Builds.WaitSleepsFirstStable | submit-queue/e2e.go:98-103 | corrected loop: over a whole wait, the message and the sleep each occur exactly FirstStable times: once per failed sweep, never after the stable one |
| Builds.SweepStatusOutside | submit-queue/e2e.go:72-74 | a sweep leaves each key outside the job list exactly as it was, present or absent |
| Builds.SweepStatusKeys | submit-queue/e2e.go:80-94 | after a sweep, the map's keys are the old keys plus every configured job |
| Builds.SweepStatusAt | submit-queue/e2e.go:83-93 | a job's entry after a sweep is "Error checking: " + detail on an error, "Stable" on a stable answer and "Not Stable" on an unstable one |
| Builds.SweepOverwrites | submit-queue/e2e.go:98-103 | a full sweep overwrites every job, so the map after the wait depends only on the last sweep |
| E2E.Decide | submit-queue/e2e.go:113-138 | the decision after the wait as a value: the returned error, the calls, the logged texts and the error stored in Err, for bypass, comment error, validation error, rejection and acceptance in the code's order; the Decide lemmas below state its properties |
| E2E.DecideBypass | submit-queue/e2e.go:114-117 | with a non-empty bypass label present: one merge as "submit-queue", no comment, no validation, Err untouched, and the merge result is returned |
| E2E.DecideCommentError | submit-queue/e2e.go:119-123 | a comment error is recorded and returned, and nothing is called after the comment |
| E2E.DecideValidateError | submit-queue/e2e.go:129-133 | a validation error is recorded and returned, and nothing is merged |
| E2E.DecideRejected | submit-queue/e2e.go:134-137 | validation (false, nil) returns nil, records nothing and merges nothing |
| E2E.DecideAccepted | submit-queue/e2e.go:138 | validation (true, nil) merges exactly once, as the last call, and returns the merge result without recording it |
| E2E.DecideMergesIff | submit-queue/e2e.go:114-138 | at most one merge happens, and it happens iff the label bypasses validation or validation succeeds |
| E2E.DecidePendingIgnored | submit-queue/e2e.go:126-129 | the WaitForPending answer never changes the outcome |
| E2E.DecideRecords | submit-queue/e2e.go:116-138 | only comment and validation errors reach Err; a merge error is returned but never recorded |
| E2E.WaitCallsBuildServerOnly | submit-queue/e2e.go:98-103 | the stability wait only calls the build server and sleeps |
| E2E.CurrentPRLifecycle | submit-queue/e2e.go:107-108 | over a whole runE2ETests trace, CurrentPR is set first, cleared last, and not touched in between, on every exit path |
| E2E.E2ETester.constructor | submit-queue/e2e.go:33-47 | an empty state: no candidate, an empty log, no error, empty maps, an empty trace |
| E2E.E2ETester.Msg | submit-queue/e2e.go:49-58 | the new log is Logged of the old one with the next clock reading; the log stays within 51 entries; the text is noted, the tick advances by one and the history gains exactly that stamped entry, so the log remains the window of the history |
| E2E.E2ETester.Error | submit-queue/e2e.go:60-64 | Err is overwritten; Message, CurrentPR, both build-status maps and Whitelist are unchanged |
| E2E.E2ETester.SetBuildStatus | submit-queue/e2e.go:72-74 | exactly one entry of the tester's own map is overwritten; the snapshot's map is untouched |
| E2E.E2ETester.CheckJob | submit-queue/e2e.go:81-93 | one job's turn: one IsBuildStable call and its status entry; it logs exactly that job's texts, with the clock readings from the old tick on; it reports whether the job answered stable with no error, which is the corrected per-job test |
| E2E.E2ETester.CheckBuilds | submit-queue/e2e.go:76-96 | every job is queried in order with no early exit; the result is SweepStable of the answers; the map and the trace are their sweep functions of the old state; it logs exactly the sweep's texts, one tick each, stamped from the old tick on |
| E2E.E2ETester.Pause | submit-queue/e2e.go:100-101 | the loop body logs the "not all stable" message at the next tick and sleeps 30 seconds |
| E2E.E2ETester.Round | submit-queue/e2e.go:99-101 | with the corrected fold, one round of the retry loop: a sweep and, when it fails, the message and the sleep; the result, map, trace and log are the round functions of the answers |
| E2E.E2ETester.WaitForStableBuilds | submit-queue/e2e.go:98-103 | corrected loop: returns after exactly the first stable sweep; the map holds that sweep's statuses; the trace and the logged texts hold every round up to it, in order, each text stamped with the reading of its own tick |
| E2E.E2ETester.Consider | submit-queue/e2e.go:111-138 | with CurrentPR holding the candidate throughout, the corrected wait runs, then the decision; the result, Err, map, trace and the logged and stamped texts are as the wait functions and Decide say |
| E2E.E2ETester.ValidateAndMerge | submit-queue/e2e.go:113-138 | the result, Err, trace and logged texts after the builds are stable are exactly those that Decide gives for the collaborators' answers, each text stamped at its own tick |
| E2E.E2ETester.RunE2ETests | submit-queue/e2e.go:106-139 | CurrentPR is set on entry and cleared on every path; the trace is that set, the wait, Decide's calls and the clear; the result, Err and map are as Decide and FirstStable (the corrected loop) say; the logged texts are RunTexts (the candidate, the wait's rounds, the decision's texts), one tick each, stamped from the old tick on |

## Left out

- `ServeHTTP` (e2e.go:141-162) is not part of this model. It only marshals the snapshot to JSON, or "{}" when there is no state, and writes the HTTP response.
- `sync.Mutex` and `locked` are read as plain critical sections. The model is sequential, and concurrent snapshot readers are not modelled.
- `time.Now().UTC()` is an injected clock, `clock(ticks)`. Its formatting is not modelled.
- `time.Sleep` is a `Sleep(30)` trace event.
- `fmt.Sprintf` is modelled only for the literal texts and `%d`. A collaborator error's `%v` rendering is its `text` field.
- `glog` is not modelled, because it is diagnostic output only.
- The Jenkins client and the GitHub client are network calls. Their answers are inputs (`BuildAnswer`, `Collaborators`), so the model does not check their behaviour.
- `HasLabel` lives in a package that is not part of this model. Its answer is the `hasLabel` flag, and it is not traced.
- `E2E.E2ETester.WaitForStableBuilds` requires a stable sweep to exist among the answers. With the corrected sweep result the loop never returns when no sweep is stable, and that run is not modelled. As written, the loop returns at the first sweep without errors (`Builds.FirstWritten`), which can come before any stable sweep (`Builds.WrittenStopsOnUnstableBuild`).
- `E2E.E2ETester.RunE2ETests` and `E2E.E2ETester.Consider` carry the same requirement, for the same reason.
- `ExternalState.BuildStatus` and `Whitelist` are never written by this core, and nothing in it reads them. Every method's `modifies` frame leaves them unchanged. The code that would write them is not part of this model.
- The trace `calls` and the ghost record `notes` are separate sequences. The model states the order within each, but not how they interleave (for example, that "Checking build stability for" is logged before its `IsBuildStable` call).
- `ExternalState.CurrentPR` holds the candidate by reference. The model holds its value, and only its number is consulted.

## Findings

| source | as written | input that shows it | evidently intended | confidence | as-written member | corrected member |
|---|---|---|---|---|---|---|
| submit-queue/e2e.go:89-93 | `allStable` is cleared only when `IsBuildStable` returns an error. A job that answers "not stable" without an error leaves it true, so `waitForStableBuilds` stops waiting while that build is failing. | jobs = ["j"], and `IsBuildStable("j")` returns (false, nil) on the first sweep: the map gets "Not Stable", yet `checkBuilds` returns true and the wait ends at sweep 0 (`Builds.WrittenAcceptsUnstableBuild`, `Builds.FirstWritten`) | `allStable` is true only if every job answered stable with no error (the variable's name, the retry loop's purpose, and the "Not all builds stable" message) | high; not executed | Builds.WrittenStopsOnUnstableBuild | E2E.E2ETester.CheckBuilds |
