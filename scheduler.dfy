/**
 * `CameraImageFetcher.run` (unifi-timelapse.py): the endless cycle that prepares one day
 * directory and one fetch task per camera, waits for the fetches, and sleeps for what is
 * left of the fetch interval. The tasks run one after another in the model; what the
 * clock, the network and `asyncio.sleep` do in a cycle is given by a `CycleInput`, and
 * the loop runs over a finite sequence of them instead of forever.
 */
module Scheduler {
  import opened Wrappers
  import opened Calendar
  import opened Paths
  import opened Fetcher

  /** One fetch task of a cycle: the camera and the directory its snapshot goes to. */
  datatype Task = Task(camera: string, imagePath: string)

  /**
   * What the outside world does during one cycle. Camera `i` (in list order) sees the date
   * `today(i)` when its directory is prepared, and its fetch runs into `net(i)` and
   * `sleep(i)`. The wait for the fetches is cancelled by a shutdown when `gatherCancelled`
   * holds. Otherwise the clock reads `startMillis` before the cycle and `endMillis` after
   * the fetches, and the sleep at the end either completes or is cancelled.
   */
  datatype CycleInput = CycleInput(
    today: nat -> ValidDate,
    net: nat -> nat -> AttemptOutcome,
    sleep: nat -> nat -> SleepOutcome,
    gatherCancelled: bool,
    startMillis: int,
    endMillis: int,
    pause: SleepOutcome)

  /**
   * What a cycle did: its tasks, their fetches, the sleep it asked for (none when the wait
   * for the fetches was cancelled), and the directories afterwards.
   */
  datatype Cycle = Cycle(tasks: seq<Task>, runs: seq<FetchRun>, sleepMillis: Option<int>, dirs: set<string>)

  // ---------------------------------------------------------------------------------------
  // sleep_time

  /**
   * `max(0, fetch_interval - elapsed)` in milliseconds: never negative, zero exactly when
   * the cycle took the whole interval or longer, and otherwise what makes up the interval.
   */
  function SleepMillis(intervalSeconds: int, elapsedMillis: int): (r: int)
    ensures r >= 0
    ensures r == 0 <==> elapsedMillis >= intervalSeconds * 1000
    ensures r > 0 ==> elapsedMillis + r == intervalSeconds * 1000
    ensures elapsedMillis + r >= intervalSeconds * 1000
  {
    var left := intervalSeconds * 1000 - elapsedMillis;
    if left > 0 then left else 0
  }

  /** A cycle that did not run backwards in time sleeps no longer than the interval. */
  lemma SleepAtMostInterval(intervalSeconds: int, elapsedMillis: int)
    requires elapsedMillis >= 0
    ensures SleepMillis(intervalSeconds, elapsedMillis) <= (if intervalSeconds > 0 then intervalSeconds * 1000 else 0)
  {
  }

  // ---------------------------------------------------------------------------------------
  // one cycle

  /** The day directory of each camera, in list order, for the date it saw. */
  function DayDirectories(f: CameraImageFetcher, today: nat -> ValidDate): seq<string>
  {
    seq(|f.cameras|, i requires 0 <= i < |f.cameras| => ImageDirectory(f.imageOutputPath, f.cameras[i], today(i)))
  }

  /** The directories after `if not os.path.exists(p): os.makedirs(p)` for each of `paths` in turn. */
  function Provision(dirs: set<string>, paths: seq<string>): set<string>
    decreases |paths|
  {
    if paths == [] then dirs
    else EnsureDir(Provision(dirs, paths[..|paths| - 1]), paths[|paths| - 1])
  }

  /** A task for each camera and the directory at the same position. */
  function Tasks(cameras: seq<string>, paths: seq<string>): seq<Task>
    requires |cameras| == |paths|
  {
    seq(|cameras|, i requires 0 <= i < |cameras| => Task(cameras[i], paths[i]))
  }

  lemma TasksStep(cameras: seq<string>, paths: seq<string>, i: nat)
    requires |cameras| == |paths| && i < |cameras|
    ensures Tasks(cameras[..i + 1], paths[..i + 1]) == Tasks(cameras[..i], paths[..i]) + [Task(cameras[i], paths[i])]
  {
  }

  lemma ProvisionStep(dirs: set<string>, paths: seq<string>, i: nat)
    requires i < |paths|
    ensures Provision(dirs, paths[..i + 1]) == EnsureDir(Provision(dirs, paths[..i]), paths[i])
  {
    assert paths[..i + 1][..i] == paths[..i];
  }

  /** One pass through the body of the `while True` loop. */
  function CycleSpec(f: CameraImageFetcher, dirs: set<string>, c: CycleInput): Cycle
  {
    var paths := DayDirectories(f, c.today);
    var tasks := Tasks(f.cameras, paths);
    Cycle(tasks, Fetches(f, tasks, c.net, c.sleep), SleepAsked(f, c), Provision(dirs, paths))
  }

  /** The fetches of the tasks, task `k` with camera `k`'s outcomes. */
  function Fetches(f: CameraImageFetcher, tasks: seq<Task>, net: nat -> nat -> AttemptOutcome,
                   sleep: nat -> nat -> SleepOutcome): seq<FetchRun>
  {
    seq(|tasks|, k requires 0 <= k < |tasks| => FetchSpec(f, tasks[k].camera, tasks[k].imagePath, net(k), sleep(k)))
  }

  /** The sleep at the end of a cycle: none when the wait for the fetches was cancelled. */
  function SleepAsked(f: CameraImageFetcher, c: CycleInput): Option<int>
  {
    if c.gatherCancelled then None else Some(SleepMillis(f.fetchInterval, c.endMillis - c.startMillis))
  }

  method RunCycle(f: CameraImageFetcher, dirs: set<string>, c: CycleInput) returns (cycle: Cycle)
    ensures cycle == CycleSpec(f, dirs, c)
  {
    var tasks, existing := PrepareTasks(f, dirs, c.today);
    var runs := Gather(f, tasks, c.net, c.sleep);
    if c.gatherCancelled {
      return Cycle(tasks, runs, None, existing);
    }
    var sleepMillis := SleepMillis(f.fetchInterval, c.endMillis - c.startMillis);
    return Cycle(tasks, runs, Some(sleepMillis), existing);
  }

  /**
   * The `for camera in self.cameras` loop: the day directory of each camera in turn, and a
   * task for it, on the directories `dirs` found at the start.
   */
  method PrepareTasks(f: CameraImageFetcher, dirs: set<string>, today: nat -> ValidDate)
    returns (tasks: seq<Task>, existing: set<string>)
    ensures tasks == Tasks(f.cameras, DayDirectories(f, today))
    ensures existing == Provision(dirs, DayDirectories(f, today))
  {
    ghost var paths := DayDirectories(f, today);
    tasks := [];
    existing := dirs;
    var i := 0;
    while i < |f.cameras|
      invariant i <= |f.cameras| == |paths|
      invariant tasks == Tasks(f.cameras[..i], paths[..i])
      invariant existing == Provision(dirs, paths[..i])
    {
      var camera := f.cameras[i];
      var r := CreateDirectoryStructure(f, existing, camera, today(i));
      assert r.path == paths[i];
      TasksStep(f.cameras, paths, i);
      ProvisionStep(dirs, paths, i);
      tasks := tasks + [Task(camera, r.path)];
      existing := r.dirs;
      i := i + 1;
    }
    assert paths[..i] == paths && f.cameras[..i] == f.cameras;
  }

  /** `asyncio.gather` over the tasks, run one after another: task `i` fetches with camera `i`'s outcomes. */
  method Gather(f: CameraImageFetcher, tasks: seq<Task>, net: nat -> nat -> AttemptOutcome,
                sleep: nat -> nat -> SleepOutcome)
    returns (runs: seq<FetchRun>)
    ensures |runs| == |tasks|
    ensures forall k :: 0 <= k < |tasks| ==>
      runs[k] == FetchSpec(f, tasks[k].camera, tasks[k].imagePath, net(k), sleep(k))
  {
    runs := [];
    var j := 0;
    while j < |tasks|
      invariant j <= |tasks| && |runs| == j
      invariant forall k :: 0 <= k < j ==> runs[k] == FetchSpec(f, tasks[k].camera, tasks[k].imagePath, net(k), sleep(k))
    {
      var run := FetchAndSaveImage(f, tasks[j].camera, tasks[j].imagePath, net(j), sleep(j));
      runs := runs + [run];
      j := j + 1;
    }
  }

  /** Ensuring directories keeps every existing one and leaves each of `paths` in place. */
  lemma {:induction false} ProvisionKeeps(dirs: set<string>, paths: seq<string>)
    ensures dirs <= Provision(dirs, paths)
    ensures forall i :: 0 <= i < |paths| ==> paths[i] in Provision(dirs, paths)
    decreases |paths|
  {
    if paths != [] {
      var front := paths[..|paths| - 1];
      ProvisionKeeps(dirs, front);
      forall i | 0 <= i < |paths| - 1 ensures paths[i] in Provision(dirs, paths) {
        assert paths[i] == front[i];
      }
    }
  }

  /** A directory that appears is one of `paths` or a parent of one. */
  lemma {:induction false} ProvisionCreatesOnly(dirs: set<string>, paths: seq<string>, x: string)
    ensures x in Provision(dirs, paths) && x !in dirs ==>
      exists i :: 0 <= i < |paths| && x in Parents(paths[i]) + {paths[i]}
    decreases |paths|
  {
    if paths != [] && x in Provision(dirs, paths) && x !in dirs {
      var front := paths[..|paths| - 1];
      if x in Provision(dirs, front) {
        ProvisionCreatesOnly(dirs, front, x);
        var i :| 0 <= i < |front| && x in Parents(front[i]) + {front[i]};
        assert front[i] == paths[i];
      } else {
        var last := |paths| - 1;
        assert x in Parents(paths[last]) + {paths[last]};
      }
    }
  }

  /** Ensuring directories that all exist changes nothing. */
  lemma {:induction false} ProvisionStable(dirs: set<string>, paths: seq<string>)
    requires forall i :: 0 <= i < |paths| ==> paths[i] in dirs
    ensures Provision(dirs, paths) == dirs
    decreases |paths|
  {
    if paths != [] {
      var front := paths[..|paths| - 1];
      assert forall i :: 0 <= i < |front| ==> front[i] in dirs by {
        forall i | 0 <= i < |front| ensures front[i] in dirs {
          assert front[i] == paths[i];
        }
      }
      ProvisionStable(dirs, front);
    }
  }

  /**
   * A cycle starts exactly one fetch per camera, in list order: the `i`-th fetches camera
   * `i` into its day directory, with camera `i`'s own outcomes, and that directory exists.
   * No directory disappears. It goes on to a sleep, of what is left of the interval,
   * exactly when the wait for the fetches was not cancelled.
   */
  lemma CycleFansOut(f: CameraImageFetcher, dirs: set<string>, c: CycleInput)
    ensures var cycle := CycleSpec(f, dirs, c);
      |cycle.tasks| == |f.cameras| && |cycle.runs| == |f.cameras| && dirs <= cycle.dirs
      && (cycle.sleepMillis.Some? <==> !c.gatherCancelled)
      && (cycle.sleepMillis.Some? ==> cycle.sleepMillis.value == SleepMillis(f.fetchInterval, c.endMillis - c.startMillis))
      && forall i :: 0 <= i < |f.cameras| ==>
           var path := ImageDirectory(f.imageOutputPath, f.cameras[i], c.today(i));
           cycle.tasks[i] == Task(f.cameras[i], path) && path in cycle.dirs
           && cycle.runs[i] == FetchSpec(f, f.cameras[i], path, c.net(i), c.sleep(i))
  {
    var paths := DayDirectories(f, c.today);
    ProvisionKeeps(dirs, paths);
  }

  /** Every directory a cycle creates is a day directory of one of its tasks, or a parent of one. */
  lemma CycleCreatesOnlyDayDirectories(f: CameraImageFetcher, dirs: set<string>, c: CycleInput, x: string)
    ensures var cycle := CycleSpec(f, dirs, c);
      x in cycle.dirs && x !in dirs ==>
        exists i :: 0 <= i < |cycle.tasks| && x in Parents(cycle.tasks[i].imagePath) + {cycle.tasks[i].imagePath}
  {
    var paths := DayDirectories(f, c.today);
    var cycle := CycleSpec(f, dirs, c);
    ProvisionCreatesOnly(dirs, paths, x);
    if x in cycle.dirs && x !in dirs {
      var i :| 0 <= i < |paths| && x in Parents(paths[i]) + {paths[i]};
      assert cycle.tasks[i].imagePath == paths[i];
    }
  }

  /** A second cycle on the same dates finds every day directory in place and creates nothing. */
  lemma RepeatedCycleCreatesNothing(f: CameraImageFetcher, dirs: set<string>, c: CycleInput, d: CycleInput)
    requires forall i :: 0 <= i < |f.cameras| ==> c.today(i) == d.today(i)
    ensures CycleSpec(f, CycleSpec(f, dirs, c).dirs, d).dirs == CycleSpec(f, dirs, c).dirs
    ensures CycleSpec(f, CycleSpec(f, dirs, c).dirs, d).tasks == CycleSpec(f, dirs, c).tasks
  {
    var paths := DayDirectories(f, c.today);
    var again := DayDirectories(f, d.today);
    assert again == paths;
    var first := Provision(dirs, paths);
    ProvisionKeeps(dirs, paths);
    ProvisionStable(first, paths);
  }

  /** A cycle makes at most `max_retries` requests per camera and writes at most one file per camera. */
  lemma CycleRequestBound(f: CameraImageFetcher, dirs: set<string>, c: CycleInput, i: nat)
    requires i < |f.cameras|
    ensures var run := CycleSpec(f, dirs, c).runs[i];
      Requests(run) <= (if f.maxRetries > 0 then f.maxRetries else 0) && Writes(run) <= 1
  {
    var path := DayDirectories(f, c.today)[i];
    FetchCounts(f, f.cameras[i], path, c.net(i), c.sleep(i));
  }

  // ---------------------------------------------------------------------------------------
  // the loop

  /**
   * How the loop stopped: it had not, when the inputs ran out; a shutdown cancelled the
   * sleep at the end of a cycle (the `break`); or a shutdown cancelled the wait for the
   * fetches, and the `CancelledError` left `run` from there.
   */
  datatype Exit = StillRunning | ShutdownInSleep | ShutdownInGather

  /** The cycles the loop ran, the directories at the end, and how it stopped. */
  datatype Report = Report(cycles: seq<Cycle>, dirs: set<string>, exit: Exit)

  /** The cycle ran to the end of its sleep, and the loop goes on to the next one. */
  predicate Continues(c: CycleInput)
  {
    !c.gatherCancelled && c.pause == Slept
  }

  /**
   * The `while True` loop over the cycle inputs, for a cycle body `step` that runs one
   * cycle from the directories found and the cycle's input; it leaves after the first
   * cycle cancelled in its wait or its sleep.
   */
  function Loop(step: (set<string>, CycleInput) -> Cycle, dirs: set<string>, inputs: seq<CycleInput>): Report
    decreases |inputs|
  {
    if inputs == [] then Report([], dirs, StillRunning)
    else
      var cycle := step(dirs, inputs[0]);
      if inputs[0].gatherCancelled then Report([cycle], cycle.dirs, ShutdownInGather)
      else if inputs[0].pause == SleepCancelled then Report([cycle], cycle.dirs, ShutdownInSleep)
      else
        var rest := Loop(step, cycle.dirs, inputs[1..]);
        Report([cycle] + rest.cycles, rest.dirs, rest.exit)
  }

  /** The body of the loop in `run`. */
  function Body(f: CameraImageFetcher): (set<string>, CycleInput) -> Cycle
  {
    (d: set<string>, c: CycleInput) => CycleSpec(f, d, c)
  }

  /** What `run` does on the cycle inputs. */
  function RunSpec(f: CameraImageFetcher, dirs: set<string>, inputs: seq<CycleInput>): Report
  {
    Loop(Body(f), dirs, inputs)
  }

  function Behind(cycles: seq<Cycle>, r: Report): Report
  {
    Report(cycles + r.cycles, r.dirs, r.exit)
  }

  /** A cycle that continues is followed by the loop on the remaining inputs. */
  lemma RunStep(f: CameraImageFetcher, dirs: set<string>, inputs: seq<CycleInput>)
    requires inputs != [] && Continues(inputs[0])
    ensures var cycle := CycleSpec(f, dirs, inputs[0]);
      RunSpec(f, dirs, inputs) == Behind([cycle], RunSpec(f, cycle.dirs, inputs[1..]))
  {
  }

  method Run(f: CameraImageFetcher, dirs: set<string>, inputs: seq<CycleInput>) returns (report: Report)
    ensures report == RunSpec(f, dirs, inputs)
  {
    var cycles: seq<Cycle> := [];
    var existing := dirs;
    var i := 0;
    while i < |inputs|
      invariant i <= |inputs|
      invariant Behind(cycles, RunSpec(f, existing, inputs[i..])) == RunSpec(f, dirs, inputs)
    {
      var cycle := RunCycle(f, existing, inputs[i]);
      assert inputs[i..][0] == inputs[i] && inputs[i..][1..] == inputs[i + 1..];
      if inputs[i].gatherCancelled {
        return Report(cycles + [cycle], cycle.dirs, ShutdownInGather);
      }
      if inputs[i].pause == SleepCancelled {
        return Report(cycles + [cycle], cycle.dirs, ShutdownInSleep);
      }
      ghost var rest := RunSpec(f, cycle.dirs, inputs[i + 1..]);
      assert cycles + ([cycle] + rest.cycles) == (cycles + [cycle]) + rest.cycles;
      cycles := cycles + [cycle];
      existing := cycle.dirs;
      i := i + 1;
    }
    assert cycles + [] == cycles;
    return Report(cycles, existing, StillRunning);
  }

  /**
   * The loop runs one cycle per input until a shutdown: every cycle but the last waited
   * for its fetches and slept to the end; it stops early exactly when the last cycle was
   * cancelled, in the wait for its fetches or in its sleep, and otherwise it ran all of
   * them.
   */
  lemma {:induction false} RunStops(f: CameraImageFetcher, dirs: set<string>, inputs: seq<CycleInput>)
    ensures var r := RunSpec(f, dirs, inputs);
      |r.cycles| <= |inputs|
      && (forall i :: 0 <= i < |r.cycles| - 1 ==> Continues(inputs[i]))
      && (r.exit != StillRunning <==> r.cycles != [] && !Continues(inputs[|r.cycles| - 1]))
      && (r.exit == ShutdownInGather <==> r.cycles != [] && inputs[|r.cycles| - 1].gatherCancelled)
      && (r.exit == StillRunning ==> |r.cycles| == |inputs|)
      && (r.exit == ShutdownInGather ==> r.cycles[|r.cycles| - 1].sleepMillis == None)
    decreases |inputs|
  {
    if inputs != [] && Continues(inputs[0]) {
      var cycle := CycleSpec(f, dirs, inputs[0]);
      var tail := inputs[1..];
      RunStops(f, cycle.dirs, tail);
      var rest := RunSpec(f, cycle.dirs, tail);
      assert RunSpec(f, dirs, inputs) == Report([cycle] + rest.cycles, rest.dirs, rest.exit);
      forall i | 0 < i < |rest.cycles| + 1 - 1 ensures Continues(inputs[i]) {
        assert inputs[i] == tail[i - 1];
      }
      if rest.cycles != [] {
        assert inputs[|rest.cycles|] == tail[|rest.cycles| - 1];
        assert ([cycle] + rest.cycles)[|rest.cycles|] == rest.cycles[|rest.cycles| - 1];
      }
    }
  }

  /** The directories before cycle `i`: the initial ones, or those the previous cycle left. */
  function DirsBefore(dirs: set<string>, cycles: seq<Cycle>, i: nat): set<string>
    requires i <= |cycles|
  {
    if i == 0 then dirs else cycles[i - 1].dirs
  }

  /** Cycle `i` of the loop is `step` run on input `i` from the directories the cycle before it left. */
  lemma {:induction false} LoopThreadsDirectories(step: (set<string>, CycleInput) -> Cycle, dirs: set<string>,
                                                  inputs: seq<CycleInput>)
    ensures var r := Loop(step, dirs, inputs);
      |r.cycles| <= |inputs|
      && forall i :: 0 <= i < |r.cycles| ==> r.cycles[i] == step(DirsBefore(dirs, r.cycles, i), inputs[i])
    decreases |inputs|
  {
    if inputs != [] && Continues(inputs[0]) {
      var cycle := step(dirs, inputs[0]);
      var tail := inputs[1..];
      LoopThreadsDirectories(step, cycle.dirs, tail);
      var rest := Loop(step, cycle.dirs, tail);
      var all := [cycle] + rest.cycles;
      assert Loop(step, dirs, inputs).cycles == all;
      forall i | 0 < i < |all|
        ensures all[i] == step(DirsBefore(dirs, all, i), inputs[i])
      {
        assert all[i] == rest.cycles[i - 1] && inputs[i] == tail[i - 1];
        DirectoriesShift(dirs, cycle, rest.cycles, i);
      }
    }
  }

  /** Cycle `i` is the cycle body run on input `i` from the directories the cycle before it left. */
  lemma RunThreadsDirectories(f: CameraImageFetcher, dirs: set<string>, inputs: seq<CycleInput>)
    ensures var r := RunSpec(f, dirs, inputs);
      |r.cycles| <= |inputs|
      && forall i :: 0 <= i < |r.cycles| ==> r.cycles[i] == CycleSpec(f, DirsBefore(dirs, r.cycles, i), inputs[i])
  {
    LoopThreadsDirectories(Body(f), dirs, inputs);
  }

  /** The loop ends with the directories its last cycle left, or the initial ones when it ran none. */
  lemma {:induction false} RunEndsWithLastDirectories(f: CameraImageFetcher, dirs: set<string>, inputs: seq<CycleInput>)
    ensures var r := RunSpec(f, dirs, inputs);
      r.dirs == DirsBefore(dirs, r.cycles, |r.cycles|)
    decreases |inputs|
  {
    if inputs != [] && Continues(inputs[0]) {
      var cycle := CycleSpec(f, dirs, inputs[0]);
      RunEndsWithLastDirectories(f, cycle.dirs, inputs[1..]);
      var rest := RunSpec(f, cycle.dirs, inputs[1..]);
      var r := RunSpec(f, dirs, inputs);
      assert r.cycles == [cycle] + rest.cycles && r.dirs == rest.dirs;
      LastDirectoriesShift(dirs, cycle, rest.cycles);
    }
  }

  lemma DirectoriesShift(dirs: set<string>, cycle: Cycle, rest: seq<Cycle>, i: nat)
    requires 0 < i <= |rest| + 1
    ensures DirsBefore(dirs, [cycle] + rest, i) == DirsBefore(cycle.dirs, rest, i - 1)
  {
    if i > 1 {
      assert ([cycle] + rest)[i - 1] == rest[i - 2];
    }
  }

  lemma LastDirectoriesShift(dirs: set<string>, cycle: Cycle, rest: seq<Cycle>)
    ensures DirsBefore(dirs, [cycle] + rest, |rest| + 1) == DirsBefore(cycle.dirs, rest, |rest|)
  {
    if rest != [] {
      assert ([cycle] + rest)[|rest|] == rest[|rest| - 1];
    }
  }

  /** No directory disappears while the loop runs. */
  lemma {:induction false} RunKeepsDirectories(f: CameraImageFetcher, dirs: set<string>, inputs: seq<CycleInput>)
    ensures dirs <= RunSpec(f, dirs, inputs).dirs
    decreases |inputs|
  {
    if inputs != [] {
      var cycle := CycleSpec(f, dirs, inputs[0]);
      CycleFansOut(f, dirs, inputs[0]);
      if Continues(inputs[0]) {
        RunKeepsDirectories(f, cycle.dirs, inputs[1..]);
      }
    }
  }
}
