/**
 * The pool that drains a shard's test files, as a state machine over the
 * workers' interleaved steps, and the serial retry of the files that failed.
 */
module WorkerPool {

  datatype Worker = Idle | Running(index: nat) | Ended
  datatype Outcome<F> = Outcome(file: F, exitCode: int)
  datatype Pool<F> = Pool(cursor: nat, workers: seq<Worker>, results: seq<Outcome<F>>)

  /** A worker claims the next index, or the run it awaits comes back. */
  datatype Step = Claim(worker: nat) | Finish(worker: nat, exitCode: int)

  function Min(x: nat, y: nat): nat {
    if x < y then x else y
  }

  function Start<F>(files: seq<F>, concurrency: nat): Pool<F> {
    Pool(0, seq(Min(concurrency, |files|), _ => Idle), [])
  }

  predicate Enabled<F>(p: Pool<F>, step: Step) {
    match step
    case Claim(w) => w < |p.workers| && p.workers[w] == Idle
    case Finish(w, _) => w < |p.workers| && p.workers[w].Running?
  }

  /** `idx = cursor++`, then run `files[idx]` or return; a finished run is pushed. */
  function Next<F>(files: seq<F>, p: Pool<F>, step: Step): Pool<F>
    requires Enabled(p, step)
    requires forall w :: 0 <= w < |p.workers| && p.workers[w].Running? ==> p.workers[w].index < |files|
  {
    match step
    case Claim(w) =>
      var claimed := if p.cursor >= |files| then Ended else Running(p.cursor);
      p.(cursor := p.cursor + 1, workers := p.workers[w := claimed])
    case Finish(w, exitCode) =>
      var done := Outcome(files[p.workers[w].index], exitCode);
      p.(workers := p.workers[w := Idle], results := p.results + [done])
  }

  // ------------------------------------------------------------ invariant

  function ResultFiles<F>(results: seq<Outcome<F>>): seq<F> {
    seq(|results|, i requires 0 <= i < |results| => results[i].file)
  }

  ghost predicate InRange<F>(files: seq<F>, workers: seq<Worker>) {
    forall w :: 0 <= w < |workers| && workers[w].Running? ==> workers[w].index < |files|
  }

  ghost predicate Holds<F>(files: seq<F>, worker: Worker, f: F)
    requires worker.Running? ==> worker.index < |files|
  {
    worker.Running? && files[worker.index] == f
  }

  function One(b: bool): nat {
    if b then 1 else 0
  }

  /** How many workers are running file `f`. */
  ghost function InFlight<F>(files: seq<F>, workers: seq<Worker>, f: F): nat
    requires InRange(files, workers)
  {
    if workers == [] then 0
    else
      var n := |workers| - 1;
      InFlight(files, workers[..n], f) + One(Holds(files, workers[n], f))
  }

  ghost function Busy(workers: seq<Worker>): nat {
    if workers == [] then 0 else Busy(workers[..|workers| - 1]) + One(workers[|workers| - 1].Running?)
  }

  /**
   * Every index below the cursor is running in one worker or has one result;
   * nobody shares an index; a worker ends only once the queue is empty.
   */
  ghost predicate Inv<F(!new)>(files: seq<F>, p: Pool<F>) {
    && InRange(files, p.workers)
    && (forall w :: 0 <= w < |p.workers| && p.workers[w].Running? ==> p.workers[w].index < p.cursor)
    && (forall w, x :: 0 <= w < x < |p.workers| && p.workers[w].Running? ==> p.workers[w] != p.workers[x])
    && (forall w :: 0 <= w < |p.workers| && p.workers[w].Ended? ==> p.cursor > |files|)
    && (forall f :: multiset(ResultFiles(p.results))[f] + InFlight(files, p.workers, f)
                    == multiset(files[..Min(p.cursor, |files|)])[f])
  }

  lemma {:induction false} InFlightUpdate<F>(files: seq<F>, workers: seq<Worker>, w: nat, now: Worker, f: F)
    requires InRange(files, workers) && w < |workers|
    requires now.Running? ==> now.index < |files|
    ensures InRange(files, workers[w := now])
    ensures InFlight(files, workers[w := now], f) + One(Holds(files, workers[w], f))
         == InFlight(files, workers, f) + One(Holds(files, now, f))
  {
    var n := |workers| - 1;
    var after := workers[w := now];
    assert InRange(files, after);
    if w < n {
      InFlightUpdate(files, workers[..n], w, now, f);
      assert after[..n] == workers[..n][w := now];
    } else {
      assert after[..n] == workers[..n];
    }
  }

  lemma {:induction false} NothingInFlight<F>(files: seq<F>, workers: seq<Worker>, f: F)
    requires forall w :: 0 <= w < |workers| ==> !workers[w].Running?
    ensures InRange(files, workers) && InFlight(files, workers, f) == 0
  {
    if workers != [] { NothingInFlight(files, workers[..|workers| - 1], f); }
  }

  lemma ClaimKeepsInv<F(!new)>(files: seq<F>, p: Pool<F>, w: nat)
    requires Inv(files, p) && Enabled(p, Claim(w))
    ensures Inv(files, Next(files, p, Claim(w)))
  {
    var q := Next(files, p, Claim(w));
    assert InRange(files, q.workers);
    hide InFlight, ResultFiles;
    if p.cursor < |files| {
      assert files[..p.cursor + 1] == files[..p.cursor] + [files[p.cursor]];
    }
    forall f ensures multiset(ResultFiles(q.results))[f] + InFlight(files, q.workers, f)
                     == multiset(files[..Min(q.cursor, |files|)])[f] {
      InFlightUpdate(files, p.workers, w, q.workers[w], f);
    }
  }

  lemma FinishKeepsInv<F(!new)>(files: seq<F>, p: Pool<F>, w: nat, exitCode: int)
    requires Inv(files, p) && Enabled(p, Finish(w, exitCode))
    ensures Inv(files, Next(files, p, Finish(w, exitCode)))
  {
    var q := Next(files, p, Finish(w, exitCode));
    assert InRange(files, q.workers);
    assert ResultFiles(q.results) == ResultFiles(p.results) + [files[p.workers[w].index]];
    forall f ensures multiset(ResultFiles(q.results))[f] + InFlight(files, q.workers, f)
                     == multiset(files[..Min(q.cursor, |files|)])[f] {
      InFlightUpdate(files, p.workers, w, Idle, f);
    }
  }

  // ----------------------------------------------------------- whole runs

  /** The pool after a whole interleaving, or nothing when a step is not enabled. */
  ghost predicate Reaches<F>(files: seq<F>, p: Pool<F>, steps: seq<Step>, q: Pool<F>)
    decreases |steps|
  {
    if steps == [] then p == q
    else Enabled(p, steps[0]) && InRange(files, p.workers) && Reaches(files, Next(files, p, steps[0]), steps[1..], q)
  }

  ghost function WorkLeft(workers: seq<Worker>): nat {
    if workers == [] then 0
    else
      var last := match workers[|workers| - 1] case Idle => 1 case Running(_) => 2 case Ended => 0;
      WorkLeft(workers[..|workers| - 1]) + last
  }

  /** Strictly decreases with every step. */
  ghost function Fuel<F>(files: seq<F>, p: Pool<F>): nat {
    2 * (|files| - Min(p.cursor, |files|)) + WorkLeft(p.workers)
  }

  lemma {:induction false} WorkLeftUpdate(workers: seq<Worker>, w: nat, now: Worker)
    requires w < |workers|
    ensures WorkLeft(workers[w := now]) - WorkLeft([now]) == WorkLeft(workers) - WorkLeft([workers[w]])
  {
    var n := |workers| - 1;
    if w < n {
      WorkLeftUpdate(workers[..n], w, now);
      assert workers[w := now][..n] == workers[..n][w := now];
    } else {
      assert workers[w := now][..n] == workers[..n];
      assert WorkLeft([now][..0]) == 0 && WorkLeft([workers[w]][..0]) == 0;
    }
  }

  lemma StepBurnsFuel<F(!new)>(files: seq<F>, p: Pool<F>, step: Step)
    requires Inv(files, p) && Enabled(p, step)
    ensures Fuel(files, Next(files, p, step)) < Fuel(files, p)
  {
    var q := Next(files, p, step);
    WorkLeftUpdate(p.workers, step.worker, q.workers[step.worker]);
    assert WorkLeft([Idle][..0]) == 0;
    assert WorkLeft([Idle]) == 1 && WorkLeft([Ended]) == 0;
    assert forall i :: WorkLeft([Running(i)]) == 2 by {
      forall i ensures WorkLeft([Running(i)]) == 2 {
        assert WorkLeft([Running(i)][..0]) == 0;
      }
    }
  }

  lemma {:induction false} RunFrom<F(!new)>(files: seq<F>, p: Pool<F>, steps: seq<Step>, q: Pool<F>)
    requires Inv(files, p) && Reaches(files, p, steps, q)
    ensures Inv(files, q) && |q.workers| == |p.workers| && |steps| + Fuel(files, q) <= Fuel(files, p)
    decreases |steps|
  {
    if steps != [] {
      match steps[0] {
        case Claim(w) => ClaimKeepsInv(files, p, w);
        case Finish(w, exitCode) => FinishKeepsInv(files, p, w, exitCode);
      }
      StepBurnsFuel(files, p, steps[0]);
      RunFrom(files, Next(files, p, steps[0]), steps[1..], q);
    }
  }

  lemma StartKeepsInv<F(!new)>(files: seq<F>, concurrency: nat)
    ensures Inv(files, Start(files, concurrency))
  {
    var p := Start(files, concurrency);
    assert InRange(files, p.workers) && files[..0] == [];
    forall f ensures InFlight(files, p.workers, f) == 0 {
      NothingInFlight(files, p.workers, f);
    }
  }

  lemma {:induction false} AllIdle(k: nat)
    ensures WorkLeft(seq(k, _ => Idle)) == k
  {
    if k > 0 {
      AllIdle(k - 1);
      assert seq(k, _ => Idle)[..k - 1] == seq(k - 1, _ => Idle);
    }
  }

  lemma {:induction false} BusyAtMost(workers: seq<Worker>)
    ensures Busy(workers) <= |workers|
  {
    if workers != [] { BusyAtMost(workers[..|workers| - 1]); }
  }

  /**
   * Safety of every interleaving: indices are claimed once each, running and
   * finished files together are exactly the claimed prefix of the queue, at most
   * `concurrency` files run at a time, and no run is longer than two steps a
   * file and one a worker.
   */
  lemma PoolSafety<F(!new)>(files: seq<F>, concurrency: nat, steps: seq<Step>, q: Pool<F>)
    requires Reaches(files, Start(files, concurrency), steps, q)
    ensures Inv(files, q)
    ensures |q.workers| == (if concurrency < |files| then concurrency else |files|)
    ensures Busy(q.workers) <= concurrency
    ensures |steps| <= 2 * |files| + Min(concurrency, |files|)
  {
    StartKeepsInv(files, concurrency);
    RunFrom(files, Start(files, concurrency), steps, q);
    BusyAtMost(q.workers);
    AllIdle(Min(concurrency, |files|));
  }

  /**
   * A run that can go no further has ended every worker and holds exactly one
   * result for each file of the queue.
   */
  lemma PoolCompletes<F(!new)>(files: seq<F>, concurrency: nat, steps: seq<Step>, q: Pool<F>)
    requires concurrency >= 1 && Reaches(files, Start(files, concurrency), steps, q)
    requires forall step :: !Enabled(q, step)
    ensures forall w :: 0 <= w < |q.workers| ==> q.workers[w] == Ended
    ensures multiset(ResultFiles(q.results)) == multiset(files)
  {
    StartKeepsInv(files, concurrency);
    RunFrom(files, Start(files, concurrency), steps, q);
    forall w | 0 <= w < |q.workers| ensures q.workers[w] == Ended {
      assert !Enabled(q, Claim(w)) && !Enabled(q, Finish(w, 0));
    }
    assert files != [] ==> q.workers[0] == Ended;
    assert files[..Min(q.cursor, |files|)] == files;
    forall f ensures multiset(ResultFiles(q.results))[f] == multiset(files)[f] {
      NothingInFlight(files, q.workers, f);
    }
  }

  // ------------------------------------------------ results, told by the steps

  /** How many claims the steps hold. */
  ghost function Claims(steps: seq<Step>): nat {
    if steps == [] then 0
    else Claims(steps[..|steps| - 1]) + One(steps[|steps| - 1].Claim?)
  }

  /** The number of claims, by any worker, before the last claim of worker `w`. */
  ghost function ClaimedBy(steps: seq<Step>, w: nat): nat {
    if steps == [] then 0
    else
      var init := steps[..|steps| - 1];
      if steps[|steps| - 1] == Claim(w) then Claims(init) else ClaimedBy(init, w)
  }

  datatype Run = Run(index: nat, exitCode: int)

  /** The runs that came back, in order: the index the worker had claimed last, and the code it came back with. */
  ghost function Runs(steps: seq<Step>): seq<Run> {
    if steps == [] then []
    else
      var init := steps[..|steps| - 1];
      match steps[|steps| - 1]
      case Claim(_) => Runs(init)
      case Finish(w, exitCode) => Runs(init) + [Run(ClaimedBy(init, w), exitCode)]
  }

  /** The pool `p` is what the steps so far tell. */
  ghost predicate Tells<F>(files: seq<F>, past: seq<Step>, p: Pool<F>) {
    && p.cursor == Claims(past)
    && InRange(files, p.workers)
    && (forall w :: 0 <= w < |p.workers| && p.workers[w].Running? ==> p.workers[w].index == ClaimedBy(past, w))
    && |p.results| == |Runs(past)|
    && forall j :: 0 <= j < |p.results| ==>
         && Runs(past)[j].index < |files|
         && p.results[j].file == files[Runs(past)[j].index] && p.results[j].exitCode == Runs(past)[j].exitCode
  }

  lemma StepTells<F>(files: seq<F>, past: seq<Step>, p: Pool<F>, step: Step)
    requires Tells(files, past, p) && Enabled(p, step)
    ensures Tells(files, past + [step], Next(files, p, step))
  {
    var now, q := past + [step], Next(files, p, step);
    assert now[..|now| - 1] == past && now[|now| - 1] == step;
    forall w | 0 <= w < |q.workers| && q.workers[w].Running? ensures q.workers[w].index == ClaimedBy(now, w) {
      assert w != step.worker ==> q.workers[w] == p.workers[w];
    }
  }

  lemma {:induction false} RunTells<F>(files: seq<F>, past: seq<Step>, p: Pool<F>, steps: seq<Step>, q: Pool<F>)
    requires Tells(files, past, p) && Reaches(files, p, steps, q)
    ensures Tells(files, past + steps, q)
    decreases |steps|
  {
    if steps == [] {
      assert past + steps == past;
    } else {
      StepTells(files, past, p, steps[0]);
      RunTells(files, past + [steps[0]], Next(files, p, steps[0]), steps[1..], q);
      assert past + [steps[0]] + steps[1..] == past + steps;
    }
  }

  /**
   * In every interleaving the results are, in the order of their finishing, the runs the
   * steps tell of: each pairs the file its worker had claimed last with the exit code that
   * very run came back with.
   */
  lemma ResultsAreRuns<F>(files: seq<F>, concurrency: nat, steps: seq<Step>, q: Pool<F>)
    requires Reaches(files, Start(files, concurrency), steps, q)
    ensures |q.results| == |Runs(steps)|
    ensures forall j :: 0 <= j < |q.results| ==>
      var run := Runs(steps)[j];
      run.index < |files| && q.results[j] == Outcome(files[run.index], run.exitCode)
  {
    hide Reaches, Runs, Claims, ClaimedBy;
    StartTells(files, concurrency);
    RunTells(files, [], Start(files, concurrency), steps, q);
    assert [] + steps == steps;
  }

  lemma StartTells<F>(files: seq<F>, concurrency: nat)
    ensures Tells(files, [], Start(files, concurrency))
  {
  }

  /** Some run comes back with a code that is not 0. */
  ghost predicate SomeRed(steps: seq<Step>) {
    exists k :: 0 <= k < |steps| && steps[k].Finish? && steps[k].exitCode != 0
  }

  lemma RedStep(steps: seq<Step>)
    requires steps != []
    ensures var n := |steps| - 1;
      SomeRed(steps) <==> SomeRed(steps[..n]) || (steps[n].Finish? && steps[n].exitCode != 0)
  {
    var n := |steps| - 1;
    assert forall k :: 0 <= k < n ==> steps[..n][k] == steps[k];
  }

  lemma {:induction false} RunsFail(steps: seq<Step>)
    ensures (exists run :: run in Runs(steps) && run.exitCode != 0) <==> SomeRed(steps)
  {
    if steps != [] {
      var n := |steps| - 1;
      RunsFail(steps[..n]);
      RedStep(steps);
      hide SomeRed, ClaimedBy;
      if steps[n].Finish? {
        var run := Run(ClaimedBy(steps[..n], steps[n].worker), steps[n].exitCode);
        assert Runs(steps) == Runs(steps[..n]) + [run];
        assert run in Runs(steps);
      }
    }
  }

  /** No failure is lost and none made up: some result is red if and only if some run came back red. */
  lemma FailureIsSeen<F>(files: seq<F>, concurrency: nat, steps: seq<Step>, q: Pool<F>)
    requires Reaches(files, Start(files, concurrency), steps, q)
    ensures (exists r :: r in q.results && r.exitCode != 0) <==> SomeRed(steps)
  {
    ResultsAreRuns(files, concurrency, steps, q);
    RunsFail(steps);
    hide Runs, Reaches, SomeRed;
    if run :| run in Runs(steps) && run.exitCode != 0 {
      var j :| 0 <= j < |Runs(steps)| && Runs(steps)[j] == run;
      assert q.results[j] in q.results;
    }
    if r :| r in q.results && r.exitCode != 0 {
      var j :| 0 <= j < |q.results| && q.results[j] == r;
      assert Runs(steps)[j] in Runs(steps);
    }
  }

  // ---------------------------------------------------------------- retry

  /** A pushed result; `indexOf` later finds it by identity. */
  class FileResult<F> {
    const file: F
    const exitCode: int

    constructor (file: F, exitCode: int)
      ensures this.file == file && this.exitCode == exitCode
    {
      this.file := file;
      this.exitCode := exitCode;
    }
  }

  const RETRY_LIMIT := 5

  /** The failed results, in order. */
  function Flaky<F>(results: seq<FileResult<F>>): (flaky: seq<FileResult<F>>)
    ensures forall r :: r in flaky ==> r in results && r.exitCode != 0
    ensures forall r :: r in results && r.exitCode != 0 ==> r in flaky
  {
    if results == [] then []
    else
      var n := |results| - 1;
      assert results == results[..n] + [results[n]];
      Flaky(results[..n]) + if results[n].exitCode != 0 then [results[n]] else []
  }

  method IndexOf<F>(results: array<FileResult<F>>, wanted: FileResult<F>) returns (k: nat)
    requires wanted in results[..]
    ensures k < results.Length && results[k] == wanted
  {
    k := 0;
    while results[k] != wanted
      invariant k < results.Length
      invariant wanted in results[k..]
      decreases results.Length - k
    {
      assert results[k..] == [results[k]] + results[k + 1..];
      k := k + 1;
    }
  }

  lemma {:induction false} FlakyDistinct<F>(results: seq<FileResult<F>>)
    requires forall i, j :: 0 <= i < j < |results| ==> results[i] != results[j]
    ensures forall i, j :: 0 <= i < j < |Flaky(results)| ==> Flaky(results)[i] != Flaky(results)[j]
  {
    if results != [] {
      FlakyDistinct(results[..|results| - 1]);
    }
  }

  /**
   * Each failed file is run once more, alone, and its new result takes the old
   * one's place; with no failure, or more than five, nothing is touched.
   */
  method RetryFailed<F>(results: array<FileResult<F>>, rerun: F -> int)
    requires forall i, j :: 0 <= i < j < results.Length ==> results[i] != results[j]
    modifies results
    ensures forall i :: 0 <= i < results.Length ==> results[i].file == old(results[i]).file
    ensures |Flaky(old(results[..]))| <= 5 ==>
      forall i :: 0 <= i < results.Length ==>
        if old(results[i]).exitCode == 0 then results[i] == old(results[i])
        else results[i].exitCode == rerun(results[i].file) && fresh(results[i])
    ensures |Flaky(old(results[..]))| > 5 ==> results[..] == old(results[..])
  {
    var flaky := Flaky(results[..]);
    FlakyDistinct(results[..]);
    if 0 < |flaky| <= RETRY_LIMIT {
      for j := 0 to |flaky|
        invariant forall i :: 0 <= i < results.Length ==>
          if old(results[i]) in flaky[..j]
          then results[i].file == old(results[i]).file && results[i].exitCode == rerun(results[i].file)
            && fresh(results[i])
          else results[i] == old(results[i])
      {
        var stale := flaky[j];
        assert flaky[..j + 1] == flaky[..j] + [stale];
        assert stale in results[..] by {
          assert stale in old(results[..]) && stale !in flaky[..j];
        }
        var retried := new FileResult(stale.file, rerun(stale.file));
        var k := IndexOf(results, stale);
        results[k] := retried;
      }
      assert flaky[..|flaky|] == flaky;
    }
  }
}
