/** The build-stability sweep of the merge gate (checkBuilds and
    waitForStableBuilds) stated as functions of the build server's answers:
    what one sweep logs, which calls it makes, how it rewrites the
    build-status map and whether it reports the fleet stable; and how many
    sweeps the retry loop runs. The sweep result is stated twice: as the
    code computes it (WrittenAllStable, FirstWritten) and corrected so that
    an unstable answer also fails the sweep (SweepStable, FirstStable),
    which the methods of the tester use. */
module Builds {
  import opened Types

  /** What IsBuildStable answered for one job: (stable, err). */
  datatype BuildAnswer = BuildAnswer(stable: bool, err: Option<Error>) {
    /** A job counts towards allStable only when it answered stable with no error. */
    predicate Good() {
      err.None? && stable
    }
  }

  const StableStatus: string := "Stable"
  const NotStableStatus: string := "Not Stable"
  const ErrorStatusPrefix: string := "Error checking: "

  /** The fixed polling interval of waitForStableBuilds, in seconds. */
  const PollSeconds: nat := 30
  const NotAllStableText: string := "Not all builds stable. Checking again in 30s"

  function CheckingText(job: string): string
  {
    "Checking build stability for " + job
  }

  function ErrorText(job: string, e: Error): string
  {
    "Error checking build " + job + ": " + e.text
  }

  /** The BuildStatus value checkBuilds stores for one answer. */
  function StatusText(a: BuildAnswer): string
  {
    match a.err
    case Some(e) => ErrorStatusPrefix + e.text
    case None => if a.stable then StableStatus else NotStableStatus
  }

  /** The corrected sweep result, folded job by job as the loop of
      checkBuilds does, except that an unstable answer clears it as well as
      an error does. The fold as written is WrittenAllStable. */
  predicate SweepStable(answers: seq<BuildAnswer>)
  {
    answers == [] || (SweepStable(answers[..|answers| - 1]) && answers[|answers| - 1].Good())
  }

  /** A sweep reports the fleet stable exactly when every job answered
      stable without an error; an empty job list is stable. */
  lemma {:induction false} SweepStableIff(answers: seq<BuildAnswer>)
    ensures SweepStable(answers) <==> forall i :: 0 <= i < |answers| ==> answers[i].err.None? && answers[i].stable
    decreases |answers|
  {
    if answers != [] {
      var n := |answers| - 1;
      SweepStableIff(answers[..n]);
      assert forall i :: 0 <= i < n ==> answers[..n][i] == answers[i];
    }
  }

  /** The build-server calls of one sweep. */
  function Queries(jobs: seq<string>): (r: seq<Call>)
    ensures |r| == |jobs|
  {
    if jobs == [] then [] else Queries(jobs[..|jobs| - 1]) + [IsBuildStable(jobs[|jobs| - 1])]
  }

  /** A sweep asks about every configured job exactly once, in list order. */
  lemma {:induction false} QueriesInOrder(jobs: seq<string>)
    ensures |Queries(jobs)| == |jobs|
    ensures forall i :: 0 <= i < |jobs| ==> Queries(jobs)[i] == IsBuildStable(jobs[i])
    decreases |jobs|
  {
    if jobs != [] {
      QueriesInOrder(jobs[..|jobs| - 1]);
    }
  }

  /** What one job's turn in a sweep logs. */
  function JobTexts(job: string, a: BuildAnswer): seq<string>
  {
    [CheckingText(job)] + (if a.err.Some? then [ErrorText(job, a.err.value)] else [])
  }

  /** What one sweep logs, job by job. */
  function SweepTexts(jobs: seq<string>, answers: seq<BuildAnswer>): seq<string>
    requires |jobs| == |answers|
  {
    if jobs == [] then []
    else
      var n := |jobs| - 1;
      SweepTexts(jobs[..n], answers[..n]) + JobTexts(jobs[n], answers[n])
  }

  /** The build-status map after one sweep: one write per job, in order. */
  function SweepStatus(m: map<string, string>, jobs: seq<string>, answers: seq<BuildAnswer>): map<string, string>
    requires |jobs| == |answers|
  {
    if jobs == [] then m
    else
      var n := |jobs| - 1;
      SweepStatus(m, jobs[..n], answers[..n])[jobs[n] := StatusText(answers[n])]
  }

  /** Extending a sweep by one more job: one more query, that job's texts,
      one more map write, and its answer folded into the result. */
  lemma SweepStep(m: map<string, string>, jobs: seq<string>, answers: seq<BuildAnswer>, i: nat)
    requires |jobs| == |answers| && i < |jobs|
    ensures Queries(jobs[..i + 1]) == Queries(jobs[..i]) + [IsBuildStable(jobs[i])]
    ensures SweepTexts(jobs[..i + 1], answers[..i + 1]) == SweepTexts(jobs[..i], answers[..i]) + JobTexts(jobs[i], answers[i])
    ensures SweepStatus(m, jobs[..i + 1], answers[..i + 1]) == SweepStatus(m, jobs[..i], answers[..i])[jobs[i] := StatusText(answers[i])]
    ensures SweepStable(answers[..i + 1]) == (SweepStable(answers[..i]) && answers[i].Good())
  {
    assert jobs[..i + 1][..i] == jobs[..i];
    assert answers[..i + 1][..i] == answers[..i];
  }

  /** The sweep result as checkBuilds computes it: allStable starts true
      and is cleared only when IsBuildStable returns an error; an unstable
      answer without an error leaves it as it was. */
  function WrittenAllStable(answers: seq<BuildAnswer>): (r: bool)
    ensures r <==> forall i :: 0 <= i < |answers| ==> answers[i].err.None?
  {
    if answers == [] then true
    else WrittenAllStable(answers[..|answers| - 1]) && answers[|answers| - 1].err.None?
  }

  /** As written, a single job that answers "not stable" without an error
      still makes the sweep report every build stable, so
      waitForStableBuilds stops waiting while the build is failing. */
  lemma WrittenAcceptsUnstableBuild()
    ensures var answers := [BuildAnswer(false, None)];
      WrittenAllStable(answers) && !SweepStable(answers)
  {
    var answers := [BuildAnswer(false, None)];
    assert !answers[0].Good();
  }

  /** The as-written result accepts every sweep the corrected one accepts. */
  lemma {:induction false} WrittenWeaker(answers: seq<BuildAnswer>)
    ensures SweepStable(answers) ==> WrittenAllStable(answers)
    decreases |answers|
  {
    if answers != [] {
      WrittenWeaker(answers[..|answers| - 1]);
    }
  }

  /** One round of the retry loop: a sweep, then, if it failed, the
      "not all stable" message. */
  function RoundTexts(jobs: seq<string>, answers: seq<BuildAnswer>): seq<string>
    requires |jobs| == |answers|
  {
    SweepTexts(jobs, answers) + (if SweepStable(answers) then [] else [NotAllStableText])
  }

  /** One round of the retry loop: a sweep, then, if it failed, the sleep. */
  function RoundCalls(jobs: seq<string>, answers: seq<BuildAnswer>): seq<Call>
  {
    Queries(jobs) + (if SweepStable(answers) then [] else [Sleep(PollSeconds)])
  }

  /** Every sweep answers for every configured job. */
  predicate Shaped(jobs: seq<string>, sweeps: seq<seq<BuildAnswer>>)
  {
    forall i :: 0 <= i < |sweeps| ==> |sweeps[i]| == |jobs|
  }

  function WaitTexts(jobs: seq<string>, sweeps: seq<seq<BuildAnswer>>): seq<string>
    requires Shaped(jobs, sweeps)
  {
    if sweeps == [] then []
    else
      var n := |sweeps| - 1;
      WaitTexts(jobs, sweeps[..n]) + RoundTexts(jobs, sweeps[n])
  }

  function WaitCalls(jobs: seq<string>, sweeps: seq<seq<BuildAnswer>>): seq<Call>
  {
    if sweeps == [] then []
    else
      var n := |sweeps| - 1;
      WaitCalls(jobs, sweeps[..n]) + RoundCalls(jobs, sweeps[n])
  }

  /** One more round of the retry loop, split into its sweep and, when the
      sweep failed, the message or the sleep that follows it. */
  lemma WaitStep(jobs: seq<string>, sweeps: seq<seq<BuildAnswer>>, n: nat)
    requires Shaped(jobs, sweeps) && n < |sweeps|
    ensures SweepStable(sweeps[n]) ==>
      && WaitTexts(jobs, sweeps[..n + 1]) == WaitTexts(jobs, sweeps[..n]) + SweepTexts(jobs, sweeps[n])
      && WaitCalls(jobs, sweeps[..n + 1]) == WaitCalls(jobs, sweeps[..n]) + Queries(jobs)
    ensures !SweepStable(sweeps[n]) ==>
      && WaitTexts(jobs, sweeps[..n + 1]) == (WaitTexts(jobs, sweeps[..n]) + SweepTexts(jobs, sweeps[n])) + [NotAllStableText]
      && WaitCalls(jobs, sweeps[..n + 1]) == (WaitCalls(jobs, sweeps[..n]) + Queries(jobs)) + [Sleep(PollSeconds)]
  {
    assert sweeps[..n + 1][..n] == sweeps[..n];
    AppendAssoc(WaitTexts(jobs, sweeps[..n]), SweepTexts(jobs, sweeps[n]), [NotAllStableText]);
    AppendAssoc(WaitCalls(jobs, sweeps[..n]), Queries(jobs), [Sleep(PollSeconds)]);
  }

  predicate SomeStable(sweeps: seq<seq<BuildAnswer>>)
  {
    exists i :: 0 <= i < |sweeps| && SweepStable(sweeps[i])
  }

  /** The index of the sweep after which the corrected retry loop
      returns: the first sweep the corrected fold SweepStable accepts. The
      loop as written returns at FirstWritten instead. */
  function FirstStable(sweeps: seq<seq<BuildAnswer>>): (r: nat)
    requires SomeStable(sweeps)
    ensures r < |sweeps| && SweepStable(sweeps[r])
    ensures forall k :: 0 <= k < r ==> !SweepStable(sweeps[k])
    decreases |sweeps|
  {
    if SweepStable(sweeps[0]) then 0
    else
      var i :| 0 <= i < |sweeps| && SweepStable(sweeps[i]);
      assert sweeps[1..][i - 1] == sweeps[i];
      1 + FirstStable(sweeps[1..])
  }

  /** One step of the retry loop: at a sweep no later than the first
      stable one, that sweep is stable exactly when it is the first stable
      one, and otherwise a later sweep exists. */
  lemma FirstStableStep(sweeps: seq<seq<BuildAnswer>>, n: nat)
    requires SomeStable(sweeps) && n <= FirstStable(sweeps)
    ensures n < |sweeps|
    ensures SweepStable(sweeps[n]) <==> n == FirstStable(sweeps)
    ensures !SweepStable(sweeps[n]) ==> n + 1 <= FirstStable(sweeps)
  {
  }

  /** Some sweep passes checkBuilds as written. */
  predicate SomeWritten(sweeps: seq<seq<BuildAnswer>>)
  {
    exists i :: 0 <= i < |sweeps| && WrittenAllStable(sweeps[i])
  }

  /** The index of the sweep after which waitForStableBuilds returns as
      written: the first one in which no job answered with an error. */
  function FirstWritten(sweeps: seq<seq<BuildAnswer>>): (r: nat)
    requires SomeWritten(sweeps)
    ensures r < |sweeps| && WrittenAllStable(sweeps[r])
    ensures forall k :: 0 <= k < r ==> !WrittenAllStable(sweeps[k])
    decreases |sweeps|
  {
    if WrittenAllStable(sweeps[0]) then 0
    else
      var i :| 0 <= i < |sweeps| && WrittenAllStable(sweeps[i]);
      assert sweeps[1..][i - 1] == sweeps[i];
      1 + FirstWritten(sweeps[1..])
  }

  /** As written, the retry loop stops no later than the corrected one:
      wherever the corrected loop would stop, the written one has already
      stopped. */
  lemma WrittenStopsNoLater(sweeps: seq<seq<BuildAnswer>>)
    requires SomeStable(sweeps)
    ensures SomeWritten(sweeps) && FirstWritten(sweeps) <= FirstStable(sweeps)
  {
    var f := FirstStable(sweeps);
    WrittenWeaker(sweeps[f]);
  }

  /** As written, one job answering "not stable" without an error ends the
      wait at the very first sweep, although no sweep of the run is
      stable, and the job's status reads "Not Stable" when the wait ends. */
  lemma WrittenStopsOnUnstableBuild()
    ensures var sweeps := [[BuildAnswer(false, None)]];
      && SomeWritten(sweeps) && FirstWritten(sweeps) == 0
      && !SomeStable(sweeps)
      && SweepStatus(map[], ["j"], sweeps[FirstWritten(sweeps)])["j"] == NotStableStatus
  {
    var sweeps := [[BuildAnswer(false, None)]];
    assert WrittenAllStable(sweeps[0]);
    assert !sweeps[0][0].Good();
    assert ["j"][..0] == [];
  }

  /** Some job of the sweep did not answer stable without an error. */
  predicate HasBadJob(answers: seq<BuildAnswer>)
  {
    exists i :: 0 <= i < |answers| && !answers[i].Good()
  }

  /** The corrected retry loop stops only on a sweep in which every
      configured job answered stable without an error, and every earlier
      sweep had a job that did not. */
  lemma FirstStableAllGood(sweeps: seq<seq<BuildAnswer>>)
    requires SomeStable(sweeps)
    ensures var f := FirstStable(sweeps);
      && (forall i :: 0 <= i < |sweeps[f]| ==> sweeps[f][i].err.None? && sweeps[f][i].stable)
      && (forall k :: 0 <= k < f ==> HasBadJob(sweeps[k]))
  {
    var f := FirstStable(sweeps);
    SweepStableIff(sweeps[f]);
    forall k | 0 <= k < f
      ensures HasBadJob(sweeps[k])
    {
      var i := BadJob(sweeps[k]);
    }
  }

  /** An unstable sweep names a job that did not answer stable without an
      error. */
  lemma BadJob(answers: seq<BuildAnswer>) returns (i: nat)
    requires !SweepStable(answers)
    ensures i < |answers| && !answers[i].Good()
  {
    SweepStableIff(answers);
    i :| i < |answers| && !answers[i].Good();
  }

  /** The number of occurrences of `x` in `s`. */
  function Count<T(==)>(s: seq<T>, x: T): nat
  {
    if s == [] then 0
    else Count(s[..|s| - 1], x) + (if s[|s| - 1] == x then 1 else 0)
  }

  lemma {:induction false} CountAppend<T>(s: seq<T>, u: seq<T>, x: T)
    ensures Count(s + u, x) == Count(s, x) + Count(u, x)
    decreases |u|
  {
    if u == [] {
      assert s + u == s;
    } else {
      var n := |u| - 1;
      CountAppend(s, u[..n], x);
      assert (s + u)[..|s| + n] == s + u[..n];
    }
  }

  lemma {:induction false} CountAbsent<T>(s: seq<T>, x: T)
    requires forall i :: 0 <= i < |s| ==> s[i] != x
    ensures Count(s, x) == 0
    decreases |s|
  {
    if s != [] {
      CountAbsent(s[..|s| - 1], x);
    }
  }

  /** A sweep never logs the "not all stable" message. */
  lemma {:induction false} SweepTextsQuiet(jobs: seq<string>, answers: seq<BuildAnswer>)
    requires |jobs| == |answers|
    ensures Count(SweepTexts(jobs, answers), NotAllStableText) == 0
    decreases |jobs|
  {
    if jobs != [] {
      var n := |jobs| - 1;
      SweepTextsQuiet(jobs[..n], answers[..n]);
      var t := JobTexts(jobs[n], answers[n]);
      assert CheckingText(jobs[n])[0] != NotAllStableText[0];
      assert answers[n].err.Some? ==> ErrorText(jobs[n], answers[n].err.value)[0] != NotAllStableText[0];
      CountAbsent(t, NotAllStableText);
      CountAppend(SweepTexts(jobs[..n], answers[..n]), t, NotAllStableText);
    }
  }

  /** Over the sweeps up to and including the first stable one, the
      corrected retry loop logs one "not all stable" message and sleeps once per failed
      sweep, that is, exactly FirstStable times. */
  lemma {:induction false} WaitCounts(jobs: seq<string>, sweeps: seq<seq<BuildAnswer>>, n: nat)
    requires Shaped(jobs, sweeps)
    requires n < |sweeps| && forall k :: 0 <= k < n ==> !SweepStable(sweeps[k])
    ensures Count(WaitTexts(jobs, sweeps[..n]), NotAllStableText) == n
    ensures Count(WaitCalls(jobs, sweeps[..n]), Sleep(PollSeconds)) == n
    decreases n
  {
    if n > 0 {
      var pre := sweeps[..n];
      assert pre[..n - 1] == sweeps[..n - 1];
      WaitCounts(jobs, sweeps, n - 1);
      var s := sweeps[n - 1];
      SweepTextsQuiet(jobs, s);
      CountAppend(SweepTexts(jobs, s), [NotAllStableText], NotAllStableText);
      assert Count([NotAllStableText], NotAllStableText) == 1;
      CountAppend(WaitTexts(jobs, sweeps[..n - 1]), RoundTexts(jobs, s), NotAllStableText);
      QueriesInOrder(jobs);
      CountAbsent(Queries(jobs), Sleep(PollSeconds));
      CountAppend(Queries(jobs), [Sleep(PollSeconds)], Sleep(PollSeconds));
      assert Count([Sleep(PollSeconds)], Sleep(PollSeconds)) == 1;
      CountAppend(WaitCalls(jobs, sweeps[..n - 1]), RoundCalls(jobs, s), Sleep(PollSeconds));
    }
  }

  /** A sweep leaves every key outside the job list as it was. */
  lemma {:induction false} SweepStatusOutside(m: map<string, string>, jobs: seq<string>,
                                              answers: seq<BuildAnswer>, key: string)
    requires |jobs| == |answers| && key !in jobs
    ensures var r := SweepStatus(m, jobs, answers);
      && (key in r <==> key in m)
      && (key in m ==> r[key] == m[key])
    decreases |jobs|
  {
    if jobs != [] {
      var n := |jobs| - 1;
      assert key !in jobs[..n];
      SweepStatusOutside(m, jobs[..n], answers[..n], key);
    }
  }

  /** After a sweep the keys are the old keys plus every configured job. */
  lemma {:induction false} SweepStatusKeys(m: map<string, string>, jobs: seq<string>, answers: seq<BuildAnswer>)
    requires |jobs| == |answers|
    ensures forall key :: key in SweepStatus(m, jobs, answers) <==> key in m || key in jobs
    decreases |jobs|
  {
    if jobs != [] {
      var n := |jobs| - 1;
      SweepStatusKeys(m, jobs[..n], answers[..n]);
      assert forall key :: key in jobs <==> key in jobs[..n] || key == jobs[n];
    }
  }

  /** A job's entry after a sweep reflects its own answer (its last one,
      should the job be listed more than once). */
  lemma {:induction false} SweepStatusAt(m: map<string, string>, jobs: seq<string>,
                                         answers: seq<BuildAnswer>, k: nat)
    requires |jobs| == |answers| && k < |jobs|
    requires forall j :: k < j < |jobs| ==> jobs[j] != jobs[k]
    ensures var r := SweepStatus(m, jobs, answers);
      && jobs[k] in r
      && r[jobs[k]] == StatusText(answers[k])
      && (answers[k].err.Some? ==> r[jobs[k]] == "Error checking: " + answers[k].err.value.text)
      && (answers[k].err.None? && answers[k].stable ==> r[jobs[k]] == "Stable")
      && (answers[k].err.None? && !answers[k].stable ==> r[jobs[k]] == "Not Stable")
    decreases |jobs|
  {
    var n := |jobs| - 1;
    if k < n {
      SweepStatusAt(m, jobs[..n], answers[..n], k);
    }
  }

  lemma LastOccurrence(jobs: seq<string>, key: string) returns (k: nat)
    requires key in jobs
    ensures k < |jobs| && jobs[k] == key
    ensures forall j :: k < j < |jobs| ==> jobs[j] != key
  {
    k := |jobs| - 1;
    while jobs[k] != key
      invariant k < |jobs| && key in jobs[..k + 1]
      invariant forall j :: k < j < |jobs| ==> jobs[j] != key
      decreases k
    {
      k := k - 1;
    }
  }

  /** A full sweep overwrites every configured job, so the map after two
      sweeps depends only on the second one. */
  lemma SweepOverwrites(m: map<string, string>, jobs: seq<string>,
                        first: seq<BuildAnswer>, second: seq<BuildAnswer>)
    requires |jobs| == |first| == |second|
    ensures SweepStatus(SweepStatus(m, jobs, first), jobs, second) == SweepStatus(m, jobs, second)
  {
    var mid := SweepStatus(m, jobs, first);
    var a := SweepStatus(mid, jobs, second);
    var b := SweepStatus(m, jobs, second);
    SweepStatusKeys(m, jobs, first);
    SweepStatusKeys(mid, jobs, second);
    SweepStatusKeys(m, jobs, second);
    forall key | key in a
      ensures key in b && a[key] == b[key]
    {
      if key in jobs {
        var k := LastOccurrence(jobs, key);
        SweepStatusAt(mid, jobs, second, k);
        SweepStatusAt(m, jobs, second, k);
      } else {
        SweepStatusOutside(m, jobs, first, key);
        SweepStatusOutside(mid, jobs, second, key);
        SweepStatusOutside(m, jobs, second, key);
      }
    }
    assert a == b;
  }

  /** Over a whole run of the corrected retry loop, up to and including
      the first stable sweep, the "not all stable" message is logged and the
      sleep is made exactly FirstStable times: once per failed sweep and
      never after the stable one. */
  lemma WaitSleepsFirstStable(jobs: seq<string>, sweeps: seq<seq<BuildAnswer>>)
    requires Shaped(jobs, sweeps) && SomeStable(sweeps)
    ensures var f := FirstStable(sweeps);
      && Count(WaitTexts(jobs, sweeps[..f + 1]), NotAllStableText) == f
      && Count(WaitCalls(jobs, sweeps[..f + 1]), Sleep(PollSeconds)) == f
  {
    var f := FirstStable(sweeps);
    WaitCounts(jobs, sweeps, f);
    WaitStep(jobs, sweeps, f);
    SweepTextsQuiet(jobs, sweeps[f]);
    CountAppend(WaitTexts(jobs, sweeps[..f]), SweepTexts(jobs, sweeps[f]), NotAllStableText);
    QueriesInOrder(jobs);
    CountAbsent(Queries(jobs), Sleep(PollSeconds));
    CountAppend(WaitCalls(jobs, sweeps[..f]), Queries(jobs), Sleep(PollSeconds));
  }
}
