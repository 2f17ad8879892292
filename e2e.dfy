/** The per-candidate decision of the merge gate (runE2ETests) and the
    tester object whose fields the gate updates: the externally visible
    state (CurrentPR, Message, Err, BuildStatus, Whitelist), its own
    build-status map, and the configuration it reads. Every collaborator
    (build server, code-review host, clock) is an injected value, and the
    calls made to them are recorded in a trace. */
module E2E {
  import opened Types
  import opened MessageLog
  import opened Builds

  /** The comment that asks the CI bot to re-run the validation tests. */
  const CommentBody: string := "@k8s-bot test this [submit-queue is verifying that this PR is safe to merge]"

  /** The actor named on every merge. */
  const MergeActor: string := "submit-queue"

  /** What the collaborators answer during one runE2ETests call. */
  datatype Collaborators = Collaborators(
    sweeps: seq<seq<BuildAnswer>>,  // one list of IsBuildStable answers per sweep
    hasLabel: bool,                 // HasLabel(issue.Labels, DontRequireE2ELabel)
    commentErr: Option<Error>,      // WriteComment
    pendingErr: Option<Error>,      // WaitForPending
    validateOk: bool,               // ValidateStatus, first result
    validateErr: Option<Error>,     // ValidateStatus, second result
    mergeErr: Option<Error>)        // MergePR

  /** What runE2ETests does once the builds are stable: the error it
      returns, the calls it makes, the texts it logs, and the error it
      stores in Err (None when Err is left alone). */
  datatype Decision = Decision(result: Option<Error>, calls: seq<Call>, texts: seq<string>, recorded: Option<Error>)

  function ConsideringText(n: int): string
  {
    "Considering PR " + Decimal(n)
  }

  function BypassText(n: int, labelName: string): string
  {
    "Merging " + Decimal(n) + " since " + labelName + " is set"
  }

  function SkipText(n: int): string
  {
    "Status after build is not 'success', skipping PR " + Decimal(n)
  }

  /** The bypass label is configured and the candidate carries it. */
  predicate Bypassed(labelName: string, o: Collaborators)
  {
    |labelName| > 0 && o.hasLabel
  }

  /** The calls made when the validation round-trip runs to the end. */
  function Validation(n: int): seq<Call>
  {
    [WriteComment(n, CommentBody), WaitForPending(n), ValidateStatus(n, [], true)]
  }

  /** The decision sequence after the stability wait. The error of
      WaitForPending is never consulted. */
  function Decide(pr: PullRequest, labelName: string, o: Collaborators): Decision
  {
    var n := pr.number;
    if Bypassed(labelName, o) then
      Decision(o.mergeErr, [MergePR(n, MergeActor)], [BypassText(n, labelName)], None)
    else if o.commentErr.Some? then
      Decision(o.commentErr, [WriteComment(n, CommentBody)], [], o.commentErr)
    else if o.validateErr.Some? then
      Decision(o.validateErr, Validation(n), [], o.validateErr)
    else if !o.validateOk then
      Decision(None, Validation(n), [SkipText(n)], None)
    else
      Decision(o.mergeErr, Validation(n) + [MergePR(n, MergeActor)], [], None)
  }

  /** The number of merge calls in a trace. */
  function Merges(calls: seq<Call>): nat
  {
    if calls == [] then 0
    else Merges(calls[..|calls| - 1]) + (if calls[|calls| - 1].MergePR? then 1 else 0)
  }

  predicate Commented(calls: seq<Call>)
  {
    exists i :: 0 <= i < |calls| && calls[i].WriteComment?
  }

  predicate Validated(calls: seq<Call>)
  {
    exists i :: 0 <= i < |calls| && calls[i].ValidateStatus?
  }

  /** Bypass: with a non-empty bypass label present, one merge as
      "submit-queue", no comment and no validation, Err untouched. */
  lemma DecideBypass(pr: PullRequest, labelName: string, o: Collaborators)
    requires labelName != [] && o.hasLabel
    ensures var d := Decide(pr, labelName, o);
      && d.result == o.mergeErr
      && d.calls == [MergePR(pr.number, "submit-queue")]
      && !Commented(d.calls) && !Validated(d.calls)
      && d.recorded == None
  {
  }

  /** A comment error is recorded and returned; nothing after the comment
      is called. */
  lemma DecideCommentError(pr: PullRequest, labelName: string, o: Collaborators)
    requires !Bypassed(labelName, o) && o.commentErr.Some?
    ensures var d := Decide(pr, labelName, o);
      && d.result == o.commentErr && d.recorded == o.commentErr
      && d.calls == [WriteComment(pr.number, CommentBody)]
      && Merges(d.calls) == 0 && !Validated(d.calls)
  {
    assert Decide(pr, labelName, o).calls[..0] == [];
  }

  /** A validation error is recorded and returned, and nothing is merged. */
  lemma DecideValidateError(pr: PullRequest, labelName: string, o: Collaborators)
    requires !Bypassed(labelName, o) && o.commentErr.None? && o.validateErr.Some?
    ensures var d := Decide(pr, labelName, o);
      && d.result == o.validateErr && d.recorded == o.validateErr
      && d.calls == Validation(pr.number)
      && Merges(d.calls) == 0
  {
    MergesOfValidation(pr.number);
  }

  /** Validation finishing without success is a normal outcome: nil is
      returned, nothing is recorded and nothing is merged. */
  lemma DecideRejected(pr: PullRequest, labelName: string, o: Collaborators)
    requires !Bypassed(labelName, o) && o.commentErr.None? && o.validateErr.None? && !o.validateOk
    ensures var d := Decide(pr, labelName, o);
      && d.result == None && d.recorded == None
      && d.calls == Validation(pr.number)
      && Merges(d.calls) == 0
  {
    MergesOfValidation(pr.number);
  }

  /** Validation success: exactly one merge, as the last call, and its
      error is returned without being recorded. */
  lemma DecideAccepted(pr: PullRequest, labelName: string, o: Collaborators)
    requires !Bypassed(labelName, o) && o.commentErr.None? && o.validateErr.None? && o.validateOk
    ensures var d := Decide(pr, labelName, o);
      && d.result == o.mergeErr && d.recorded == None
      && d.calls == Validation(pr.number) + [MergePR(pr.number, "submit-queue")]
      && Merges(d.calls) == 1
  {
    MergesOfValidation(pr.number);
    var c := Validation(pr.number) + [MergePR(pr.number, MergeActor)];
    assert c[..|c| - 1] == Validation(pr.number);
  }

  lemma {:induction false} MergesNone(calls: seq<Call>)
    requires forall i :: 0 <= i < |calls| ==> !calls[i].MergePR?
    ensures Merges(calls) == 0
    decreases |calls|
  {
    if calls != [] {
      MergesNone(calls[..|calls| - 1]);
    }
  }

  lemma MergesOfValidation(n: int)
    ensures Merges(Validation(n)) == 0
  {
    MergesNone(Validation(n));
  }

  /** Merging happens at most once, and exactly when the label bypasses the
      validation or the validation succeeds. */
  lemma DecideMergesIff(pr: PullRequest, labelName: string, o: Collaborators)
    ensures var d := Decide(pr, labelName, o);
      Merges(d.calls) == if Bypassed(labelName, o) || (o.commentErr.None? && o.validateErr.None? && o.validateOk) then 1 else 0
  {
    var d := Decide(pr, labelName, o);
    if Bypassed(labelName, o) {
      assert d.calls[..0] == [];
    } else if o.commentErr.Some? {
      DecideCommentError(pr, labelName, o);
    } else if o.validateErr.Some? {
      DecideValidateError(pr, labelName, o);
    } else if !o.validateOk {
      DecideRejected(pr, labelName, o);
    } else {
      DecideAccepted(pr, labelName, o);
    }
  }

  /** The outcome does not depend on what WaitForPending answered. */
  lemma DecidePendingIgnored(pr: PullRequest, labelName: string, o: Collaborators, pending: Option<Error>)
    ensures Decide(pr, labelName, o.(pendingErr := pending)) == Decide(pr, labelName, o)
  {
  }

  /** Only comment and validation errors are ever recorded; a merge error
      is returned but never stored in Err. */
  lemma DecideRecords(pr: PullRequest, labelName: string, o: Collaborators)
    ensures var d := Decide(pr, labelName, o);
      && (d.recorded.Some? ==> d.recorded == d.result)
      && (d.recorded.Some? ==> d.recorded == o.commentErr || d.recorded == o.validateErr)
      && (Merges(d.calls) > 0 ==> d.recorded == None && d.result == o.mergeErr)
  {
    DecideMergesIff(pr, labelName, o);
  }

  /** The calls of the stability wait only go to the build server and the
      clock, so CurrentPR is neither set nor cleared in between. */
  predicate BuildServerOnly(calls: seq<Call>)
  {
    forall i :: 0 <= i < |calls| ==> calls[i].IsBuildStable? || calls[i].Sleep?
  }

  lemma {:induction false} WaitCallsBuildServerOnly(jobs: seq<string>, sweeps: seq<seq<BuildAnswer>>)
    ensures BuildServerOnly(WaitCalls(jobs, sweeps))
    decreases |sweeps|
  {
    if sweeps != [] {
      WaitCallsBuildServerOnly(jobs, sweeps[..|sweeps| - 1]);
      QueriesInOrder(jobs);
    }
  }

  /** Every text runE2ETests logs, in order: the candidate, the retry loop
      up to its first stable sweep, then the decision sequence. */
  function RunTexts(jobs: seq<string>, pr: PullRequest, labelName: string, o: Collaborators): seq<string>
    requires Shaped(jobs, o.sweeps) && SomeStable(o.sweeps)
  {
    [ConsideringText(pr.number)] + (WaitTexts(jobs, o.sweeps[..FirstStable(o.sweeps) + 1]) + Decide(pr, labelName, o).texts)
  }

  /** Over a whole runE2ETests trace, CurrentPR is set first, cleared last,
      and touched nowhere in between, on every exit path. */
  lemma CurrentPRLifecycle(pr: PullRequest, labelName: string, o: Collaborators,
                           jobs: seq<string>, sweeps: seq<seq<BuildAnswer>>)
    ensures var t := [SetCurrentPR(pr)] + WaitCalls(jobs, sweeps) + Decide(pr, labelName, o).calls + [ClearCurrentPR];
      && t[0] == SetCurrentPR(pr) && t[|t| - 1] == ClearCurrentPR
      && forall i :: 0 < i < |t| - 1 ==> !t[i].SetCurrentPR? && !t[i].ClearCurrentPR?
  {
    WaitCallsBuildServerOnly(jobs, sweeps);
  }

  /** One more round of the retry loop appends its calls, its texts and,
      stamped from the tick after the earlier rounds, its entries. */
  lemma WaitGrow(clock: nat -> string, h0: seq<string>, e0: seq<string>, t0: nat, c0: seq<Call>,
                 jobs: seq<string>, sweeps: seq<seq<BuildAnswer>>, n: nat, u: nat)
    requires Shaped(jobs, sweeps) && n < |sweeps| && u == t0 + |WaitTexts(jobs, sweeps[..n])|
    ensures (e0 + Stamped(clock, t0, WaitTexts(jobs, sweeps[..n]))) + Stamped(clock, u, RoundTexts(jobs, sweeps[n]))
         == e0 + Stamped(clock, t0, WaitTexts(jobs, sweeps[..n + 1]))
    ensures (h0 + WaitTexts(jobs, sweeps[..n])) + RoundTexts(jobs, sweeps[n]) == h0 + WaitTexts(jobs, sweeps[..n + 1])
    ensures (c0 + WaitCalls(jobs, sweeps[..n])) + RoundCalls(jobs, sweeps[n]) == c0 + WaitCalls(jobs, sweeps[..n + 1])
    ensures u + |RoundTexts(jobs, sweeps[n])| == t0 + |WaitTexts(jobs, sweeps[..n + 1])|
  {
    var done, texts := WaitTexts(jobs, sweeps[..n]), RoundTexts(jobs, sweeps[n]);
    assert sweeps[..n + 1][..n] == sweeps[..n];
    StampedGrow(clock, e0, t0, done, u, texts);
    AppendAssoc(h0, done, texts);
    AppendAssoc(c0, WaitCalls(jobs, sweeps[..n]), RoundCalls(jobs, sweeps[n]));
  }

  class E2ETester {
    // ExternalState, the snapshot operators see
    var currentPR: Option<PullRequest>
    var message: seq<string>
    var err: Option<Error>
    var stateBuildStatus: map<string, string>
    var whitelist: seq<string>
    // the tester's own build-status map, the one setBuildStatus writes
    var buildStatus: map<string, string>
    // configuration
    const jobs: seq<string>
    const bypassLabel: string
    // the injected clock: the k-th reading is clock(k)
    const clock: nat -> string
    var ticks: nat
    // every collaborator call made so far, in order
    var calls: seq<Call>
    // every text msg has ever logged, in order
    ghost var notes: seq<string>
    // every entry msg has ever appended, stamp included, in order
    ghost var history: seq<string>

    /** The log holds the newest Capacity entries ever appended, oldest
        first. */
    ghost predicate Valid()
      reads this`message, this`history
    {
      message == Window(history)
    }

    constructor (jobs: seq<string>, bypassLabel: string, clock: nat -> string, whitelist: seq<string>)
      ensures Valid()
      ensures this.jobs == jobs && this.bypassLabel == bypassLabel && this.clock == clock
      ensures this.whitelist == whitelist
      ensures currentPR == None && message == [] && err == None
      ensures stateBuildStatus == map[] && buildStatus == map[]
      ensures notes == [] && history == [] && calls == [] && ticks == 0
    {
      this.jobs := jobs;
      this.bypassLabel := bypassLabel;
      this.clock := clock;
      this.whitelist := whitelist;
      currentPR := None;
      message := [];
      err := None;
      stateBuildStatus := map[];
      buildStatus := map[];
      ticks := 0;
      calls := [];
      notes := [];
      history := [];
    }

    /** msg: drop the oldest entry when the log already holds more than
        DropAbove entries, then append the text stamped with the next clock
        reading. */
    method Msg(text: string)
      requires Valid()
      modifies this`message, this`ticks, this`notes, this`history
      ensures Valid()
      ensures message == Logged(old(message), clock(old(ticks)), text)
      ensures |message| <= Capacity
      ensures ticks == old(ticks) + 1
      ensures notes == old(notes) + [text]
      ensures history == old(history) + Stamped(clock, old(ticks), [text])
    {
      WindowLogged(history, clock(ticks), text);
      StampedOne(clock, ticks, text);
      if |message| > DropAbove {
        message := message[1..];
      }
      message := message + [Entry(clock(ticks), text)];
      notes := notes + [text];
      history := history + [Entry(clock(ticks), text)];
      ticks := ticks + 1;
    }

    /** error: overwrite Err; nothing else changes. */
    method Error(e: Types.Error)
      modifies this`err
      ensures err == Some(e)
      ensures message == old(message) && currentPR == old(currentPR)
      ensures stateBuildStatus == old(stateBuildStatus) && whitelist == old(whitelist)
      ensures buildStatus == old(buildStatus)
    {
      err := Some(e);
    }

    /** setBuildStatus: overwrite one entry of the tester's own map. */
    method SetBuildStatus(build: string, status: string)
      modifies this`buildStatus
      ensures buildStatus == old(buildStatus)[build := status]
      ensures stateBuildStatus == old(stateBuildStatus)
    {
      buildStatus := buildStatus[build := status];
    }

    /** One job's turn in checkBuilds: log, ask the build server (which
        answers `answer`), log an error, and store the job's status. Reports
        whether the job counts as stable in the corrected fold. */
    method CheckJob(build: string, answer: BuildAnswer) returns (good: bool)
      requires Valid()
      modifies this`message, this`ticks, this`notes, this`history, this`buildStatus, this`calls
      ensures Valid()
      ensures good == answer.Good()
      ensures buildStatus == old(buildStatus)[build := StatusText(answer)]
      ensures calls == old(calls) + [IsBuildStable(build)]
      ensures notes == old(notes) + JobTexts(build, answer)
      ensures ticks == old(ticks) + |JobTexts(build, answer)|
      ensures history == old(history) + Stamped(clock, old(ticks), JobTexts(build, answer))
    {
      ghost var e0, t0 := history, ticks;
      Msg(CheckingText(build));
      calls := calls + [IsBuildStable(build)];
      if answer.err.Some? {
        Msg(ErrorText(build, answer.err.value));
        StampedGrow(clock, e0, t0, [CheckingText(build)], t0 + 1, [ErrorText(build, answer.err.value)]);
        assert JobTexts(build, answer) == [CheckingText(build)] + [ErrorText(build, answer.err.value)];
        SetBuildStatus(build, ErrorStatusPrefix + answer.err.value.text);
        good := false;
      } else if answer.stable {
        assert JobTexts(build, answer) == [CheckingText(build)];
        SetBuildStatus(build, StableStatus);
        good := true;
      } else {
        assert JobTexts(build, answer) == [CheckingText(build)];
        SetBuildStatus(build, NotStableStatus);
        good := false;
      }
    }

    /** checkBuilds: ask the build server about every configured job, in
        order, never stopping early; `answers[i]` is what IsBuildStable
        answers for `jobs[i]`. The result is the corrected one: an unstable
        answer also makes the sweep fail. */
    method CheckBuilds(answers: seq<BuildAnswer>) returns (allStable: bool)
      requires Valid() && |answers| == |jobs|
      modifies this`message, this`ticks, this`notes, this`history, this`buildStatus, this`calls
      ensures Valid()
      ensures allStable == SweepStable(answers)
      ensures buildStatus == SweepStatus(old(buildStatus), jobs, answers)
      ensures calls == old(calls) + Queries(jobs)
      ensures notes == old(notes) + SweepTexts(jobs, answers)
      ensures ticks == old(ticks) + |SweepTexts(jobs, answers)|
      ensures history == old(history) + Stamped(clock, old(ticks), SweepTexts(jobs, answers))
    {
      ghost var m0, c0, h0, e0, t0 := buildStatus, calls, notes, history, ticks;
      allStable := true;
      var i := 0;
      while i < |jobs|
        invariant 0 <= i <= |jobs|
        invariant Valid()
        invariant allStable == SweepStable(answers[..i])
        invariant buildStatus == SweepStatus(m0, jobs[..i], answers[..i])
        invariant calls == c0 + Queries(jobs[..i])
        invariant notes == h0 + SweepTexts(jobs[..i], answers[..i])
        invariant ticks == t0 + |SweepTexts(jobs[..i], answers[..i])|
        invariant history == e0 + Stamped(clock, t0, SweepTexts(jobs[..i], answers[..i]))
      {
        ghost var done, u := SweepTexts(jobs[..i], answers[..i]), ticks;
        SweepStep(m0, jobs, answers, i);
        var good := CheckJob(jobs[i], answers[i]);
        StampedGrow(clock, e0, t0, done, u, JobTexts(jobs[i], answers[i]));
        AppendAssoc(c0, Queries(jobs[..i]), [IsBuildStable(jobs[i])]);
        AppendAssoc(h0, done, JobTexts(jobs[i], answers[i]));
        if !good {
          allStable := false;
        }
        i := i + 1;
      }
      assert jobs[..i] == jobs;
      assert answers[..i] == answers;
    }

    /** The body of the retry loop of waitForStableBuilds: log that not
        every build is stable, then sleep for PollSeconds. */
    method Pause()
      requires Valid()
      modifies this`message, this`ticks, this`notes, this`history, this`calls
      ensures Valid()
      ensures ticks == old(ticks) + 1
      ensures notes == old(notes) + [NotAllStableText]
      ensures history == old(history) + Stamped(clock, old(ticks), [NotAllStableText])
      ensures calls == old(calls) + [Sleep(PollSeconds)]
    {
      Msg(NotAllStableText);
      calls := calls + [Sleep(PollSeconds)];
    }

    /** One round of the retry loop of waitForStableBuilds: a sweep and,
        when it fails, the message and the sleep. */
    method Round(answers: seq<BuildAnswer>) returns (stable: bool)
      requires Valid() && |answers| == |jobs|
      modifies this`message, this`ticks, this`notes, this`history, this`buildStatus, this`calls
      ensures Valid()
      ensures stable == SweepStable(answers)
      ensures buildStatus == SweepStatus(old(buildStatus), jobs, answers)
      ensures calls == old(calls) + RoundCalls(jobs, answers)
      ensures notes == old(notes) + RoundTexts(jobs, answers)
      ensures ticks == old(ticks) + |RoundTexts(jobs, answers)|
      ensures history == old(history) + Stamped(clock, old(ticks), RoundTexts(jobs, answers))
    {
      ghost var c0, h0, e0, t0 := calls, notes, history, ticks;
      stable := CheckBuilds(answers);
      if !stable {
        ghost var u := ticks;
        Pause();
        StampedGrow(clock, e0, t0, SweepTexts(jobs, answers), u, [NotAllStableText]);
        AppendAssoc(c0, Queries(jobs), [Sleep(PollSeconds)]);
        AppendAssoc(h0, SweepTexts(jobs, answers), [NotAllStableText]);
      } else {
        assert SweepTexts(jobs, answers) + [] == SweepTexts(jobs, answers);
        assert Queries(jobs) + [] == Queries(jobs);
      }
    }

    /** waitForStableBuilds, with the corrected sweep result: sweep until
        a sweep reports the fleet stable, logging and sleeping PollSeconds
        after every failed sweep; `sweeps[k]` holds the answers of the k-th
        sweep. Returns the index of the sweep that succeeded. */
    method WaitForStableBuilds(sweeps: seq<seq<BuildAnswer>>) returns (n: nat)
      requires Valid() && Shaped(jobs, sweeps) && SomeStable(sweeps)
      modifies this`message, this`ticks, this`notes, this`history, this`buildStatus, this`calls
      ensures Valid()
      ensures n == FirstStable(sweeps)
      ensures buildStatus == SweepStatus(old(buildStatus), jobs, sweeps[n])
      ensures calls == old(calls) + WaitCalls(jobs, sweeps[..n + 1])
      ensures notes == old(notes) + WaitTexts(jobs, sweeps[..n + 1])
      ensures ticks == old(ticks) + |WaitTexts(jobs, sweeps[..n + 1])|
      ensures history == old(history) + Stamped(clock, old(ticks), WaitTexts(jobs, sweeps[..n + 1]))
    {
      ghost var m0, c0, h0, e0, t0 := buildStatus, calls, notes, history, ticks;
      n := 0;
      while true
        invariant Valid() && n <= FirstStable(sweeps)
        invariant n == 0 ==> buildStatus == m0
        invariant n > 0 ==> buildStatus == SweepStatus(m0, jobs, sweeps[n - 1])
        invariant calls == c0 + WaitCalls(jobs, sweeps[..n])
        invariant notes == h0 + WaitTexts(jobs, sweeps[..n])
        invariant ticks == t0 + |WaitTexts(jobs, sweeps[..n])|
        invariant history == e0 + Stamped(clock, t0, WaitTexts(jobs, sweeps[..n]))
        decreases |sweeps| - n
      {
        FirstStableStep(sweeps, n);
        if n > 0 {
          SweepOverwrites(m0, jobs, sweeps[n - 1], sweeps[n]);
        }
        WaitGrow(clock, h0, e0, t0, c0, jobs, sweeps, n, ticks);
        var stable := Round(sweeps[n]);
        if stable {
          return;
        }
        n := n + 1;
      }
    }

    /** runE2ETests: the whole evaluation of one candidate. CurrentPR is
        set on entry and cleared on every return path; the stability wait,
        with the corrected sweep result, runs first; then the decision
        sequence of Decide. */
    method RunE2ETests(pr: PullRequest, o: Collaborators) returns (r: Option<Types.Error>)
      requires Valid() && Shaped(jobs, o.sweeps) && SomeStable(o.sweeps)
      modifies this`currentPR, this`message, this`ticks, this`notes, this`history, this`buildStatus, this`calls, this`err
      ensures Valid()
      ensures var d := Decide(pr, bypassLabel, o);
              var f := FirstStable(o.sweeps);
        && r == d.result
        && currentPR == None
        && err == (if d.recorded.Some? then d.recorded else old(err))
        && buildStatus == SweepStatus(old(buildStatus), jobs, o.sweeps[f])
        && calls == old(calls) + [SetCurrentPR(pr)] + WaitCalls(jobs, o.sweeps[..f + 1]) + d.calls + [ClearCurrentPR]
      ensures notes == old(notes) + RunTexts(jobs, pr, bypassLabel, o)
      ensures ticks == old(ticks) + |RunTexts(jobs, pr, bypassLabel, o)|
      ensures history == old(history) + Stamped(clock, old(ticks), RunTexts(jobs, pr, bypassLabel, o))
    {
      ghost var h0, e0, t0 := notes, history, ticks;
      currentPR, calls := Some(pr), calls + [SetCurrentPR(pr)];
      Msg(ConsideringText(pr.number));
      ghost var u := ticks;
      r := Consider(pr, o);
      currentPR, calls := None, calls + [ClearCurrentPR];
      StampedGrow(clock, e0, t0, [ConsideringText(pr.number)], u,
                  WaitTexts(jobs, o.sweeps[..FirstStable(o.sweeps) + 1]) + Decide(pr, bypassLabel, o).texts);
      AppendAssoc(h0, [ConsideringText(pr.number)], WaitTexts(jobs, o.sweeps[..FirstStable(o.sweeps) + 1]) + Decide(pr, bypassLabel, o).texts);
    }

    /** The part of runE2ETests after the "Considering" message: wait for
        stable builds, then validate and merge, with the candidate recorded
        in CurrentPR throughout. */
    method Consider(pr: PullRequest, o: Collaborators) returns (r: Option<Types.Error>)
      requires Valid() && Shaped(jobs, o.sweeps) && SomeStable(o.sweeps)
      requires currentPR == Some(pr)
      modifies this`message, this`ticks, this`notes, this`history, this`buildStatus, this`calls, this`err
      ensures Valid()
      ensures var d := Decide(pr, bypassLabel, o);
              var f := FirstStable(o.sweeps);
        && r == d.result
        && err == (if d.recorded.Some? then d.recorded else old(err))
        && buildStatus == SweepStatus(old(buildStatus), jobs, o.sweeps[f])
        && calls == old(calls) + WaitCalls(jobs, o.sweeps[..f + 1]) + d.calls
        && notes == old(notes) + (WaitTexts(jobs, o.sweeps[..f + 1]) + d.texts)
        && ticks == old(ticks) + |WaitTexts(jobs, o.sweeps[..f + 1]) + d.texts|
        && history == old(history) + Stamped(clock, old(ticks), WaitTexts(jobs, o.sweeps[..f + 1]) + d.texts)
    {
      ghost var h0, e0, t0 := notes, history, ticks;
      var rounds := WaitForStableBuilds(o.sweeps);
      ghost var u := ticks;
      r := ValidateAndMerge(pr, o);
      StampedGrow(clock, e0, t0, WaitTexts(jobs, o.sweeps[..rounds + 1]), u, Decide(pr, bypassLabel, o).texts);
      AppendAssoc(h0, WaitTexts(jobs, o.sweeps[..rounds + 1]), Decide(pr, bypassLabel, o).texts);
    }

    /** The part of runE2ETests after the builds are stable: the bypass
        label, the test comment, the wait for pending contexts, the status
        validation and the merge, each outcome exactly as Decide says. */
    method ValidateAndMerge(pr: PullRequest, o: Collaborators) returns (r: Option<Types.Error>)
      requires Valid()
      modifies this`message, this`ticks, this`notes, this`history, this`calls, this`err
      ensures Valid()
      ensures var d := Decide(pr, bypassLabel, o);
        && r == d.result
        && err == (if d.recorded.Some? then d.recorded else old(err))
        && calls == old(calls) + d.calls
        && notes == old(notes) + d.texts
      ensures ticks == old(ticks) + |Decide(pr, bypassLabel, o).texts|
      ensures history == old(history) + Stamped(clock, old(ticks), Decide(pr, bypassLabel, o).texts)
    {
      var n := pr.number;
      ghost var c0 := calls;
      if |bypassLabel| > 0 && o.hasLabel {
        Msg(BypassText(n, bypassLabel));
        calls := calls + [MergePR(n, MergeActor)];
        r := o.mergeErr;
      } else {
        calls := calls + [WriteComment(n, CommentBody)];
        if o.commentErr.Some? {
          Error(o.commentErr.value);
          r := o.commentErr;
        } else {
          calls := calls + [WaitForPending(n)];
          var err := o.pendingErr;
          calls := calls + [ValidateStatus(n, [], true)];
          var ok;
          ok, err := o.validateOk, o.validateErr;
          if err.Some? {
            Error(err.value);
            r := err;
          } else if !ok {
            Msg(SkipText(n));
            r := None;
          } else {
            calls := calls + [MergePR(n, MergeActor)];
            r := o.mergeErr;
            AppendAssoc(c0, Validation(n), [MergePR(n, MergeActor)]);
          }
        }
      }
    }
  }
}
