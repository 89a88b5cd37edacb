/**
 * `CameraImageFetcher` (unifi-timelapse.py): the per-camera image directory and the
 * fetch-with-retries of one snapshot. The HTTP session, the file system, the clock and
 * `asyncio.sleep` are outside the model; what they do is given as parameters: `net(k)` is
 * what the `k`-th attempt runs into (a response, or the exception it raised), and
 * `sleep(k)` whether the retry sleep after attempt `k` completed or was cancelled. A run
 * is the sequence of externally visible events it caused and the way it ended.
 */
module Fetcher {
  import opened Wrappers
  import opened Text
  import opened Calendar
  import opened Template
  import opened Paths
  import Config

  newtype byte = x: int | 0 <= x < 256

  /**
   * The settings the fetcher copies from the configuration in its constructor, and the
   * HTTP timeout it reads from the configuration at every fetch.
   */
  datatype CameraImageFetcher = CameraImageFetcher(
    cameras: seq<string>,
    imageOutputPath: string,
    fetchInterval: int,
    urlPattern: string,
    maxRetries: int,
    retryDelay: int,
    httpTimeout: int)

  /** `CameraImageFetcher(session)`, and the timeout setting read at fetch time. */
  function FromSettings(s: Config.Settings): CameraImageFetcher
  {
    CameraImageFetcher(s.cameras, s.imageOutputPath, s.fetchInterval, s.urlPattern, s.fetchMaxRetries,
            s.fetchRetryDelay, s.fetchHttpTimeout)
  }

  // ---------------------------------------------------------------------------------------
  // create_directory_structure

  /** `os.path.join(image_output_path, camera_name, year, month, day)`. */
  function ImageDirectory(root: string, camera: string, today: ValidDate): string
  {
    PathJoinAll(root, [camera, Year(today), Month(today), Day(today)])
  }

  datatype DirResult = DirResult(path: string, dirs: set<string>)

  /**
   * `create_directory_structure(camera_name)` on the set `dirs` of existing directories,
   * with `today` the date `datetime.now()` returned: the day's directory, created with its
   * missing parents when it did not exist.
   */
  function CreateDirectoryStructure(f: CameraImageFetcher, dirs: set<string>, camera: string, today: ValidDate): (r: DirResult)
    ensures r.path == ImageDirectory(f.imageOutputPath, camera, today)
    ensures r.path in r.dirs && dirs <= r.dirs
    ensures r.path in dirs ==> r.dirs == dirs
    ensures r.dirs - dirs <= Parents(r.path) + {r.path}
  {
    var path := ImageDirectory(f.imageOutputPath, camera, today);
    DirResult(path, EnsureDir(dirs, path))
  }

  /** Creating the day's directory again returns the same path and changes nothing. */
  lemma CreateDirectoryIdempotent(f: CameraImageFetcher, dirs: set<string>, camera: string, today: ValidDate)
    ensures var r := CreateDirectoryStructure(f, dirs, camera, today);
      CreateDirectoryStructure(f, r.dirs, camera, today) == r
  {
  }

  /**
   * Under a root without a trailing slash, the directory is the root, the camera name, the
   * four-digit year, the month and the day, separated by single slashes.
   */
  lemma ImageDirectoryLayout(root: string, camera: string, today: ValidDate)
    requires Base(root) && Component(camera)
    ensures ImageDirectory(root, camera, today)
      == root + "/" + camera + "/" + Year(today) + "/" + Month(today) + "/" + Day(today)
  {
    DateFieldsAreComponents(today);
    FourParts(root, camera, Year(today), Month(today), Day(today));
    var a1 := PathJoin(root, camera);
    JoinComponent(root, camera);
    var a2 := PathJoin(a1, Year(today));
    JoinComponent(a1, Year(today));
    var a3 := PathJoin(a2, Month(today));
    JoinComponent(a2, Month(today));
    JoinComponent(a3, Day(today));
  }

  /** The directory's segments are the root's, then the camera name and the three date fields. */
  lemma ImageDirectorySegments(root: string, camera: string, today: ValidDate)
    requires Base(root) && Component(camera)
    ensures Split(ImageDirectory(root, camera, today), '/')
      == Split(root, '/') + [camera, Year(today), Month(today), Day(today)]
  {
    DateFieldsAreComponents(today);
    var parts := [camera, Year(today), Month(today), Day(today)];
    assert forall i :: 0 <= i < |parts| ==> Component(parts[i]);
    PathJoinAllComponents(root, parts);
  }

  lemma FourParts(a: string, p0: string, p1: string, p2: string, p3: string)
    ensures PathJoinAll(a, [p0, p1, p2, p3]) == PathJoin(PathJoin(PathJoin(PathJoin(a, p0), p1), p2), p3)
  {
    var b1 := PathJoin(a, p0);
    var b2 := PathJoin(b1, p1);
    var b3 := PathJoin(b2, p2);
    assert [p0, p1, p2, p3][1..] == [p1, p2, p3];
    assert [p1, p2, p3][1..] == [p2, p3];
    assert [p2, p3][1..] == [p3];
    assert [p3][1..] == [];
    assert PathJoinAll(b3, [p3]) == PathJoinAll(PathJoin(b3, p3), []);
    assert PathJoinAll(b2, [p2, p3]) == PathJoinAll(b3, [p3]);
    assert PathJoinAll(b1, [p1, p2, p3]) == PathJoinAll(b2, [p2, p3]);
    assert PathJoinAll(a, [p0, p1, p2, p3]) == PathJoinAll(b1, [p1, p2, p3]);
  }

  // ---------------------------------------------------------------------------------------
  // snapshot file names

  /** `int(t)` for a time of `millis` milliseconds: truncation toward zero to whole seconds. */
  function TruncSeconds(millis: int): (s: int)
    ensures millis >= 0 ==> 0 <= s && s * 1000 <= millis < s * 1000 + 1000
    ensures millis < 0 ==> s <= 0 && s * 1000 - 1000 < millis <= s * 1000
  {
    if millis >= 0 then millis / 1000 else -((-millis) / 1000)
  }

  /** `f"{camera_name}_{int(datetime.now().timestamp())}.jpg"`. */
  function SnapshotName(camera: string, millis: int): string
  {
    camera + "_" + IntToString(TruncSeconds(millis)) + ".jpg"
  }

  /** `os.path.join(image_path, filename)`. */
  function SnapshotPath(imagePath: string, camera: string, millis: int): string
  {
    PathJoin(imagePath, SnapshotName(camera, millis))
  }

  /**
   * A snapshot name is the camera, `_`, a decimal timestamp and `.jpg`; the timestamp
   * parses back to the whole seconds of the time the image was received.
   */
  lemma SnapshotNameTimestamp(camera: string, millis: int)
    ensures var n := SnapshotName(camera, millis);
      |camera| + 5 < |n| && n[..|camera| + 1] == camera + "_" && n[|n| - 4..] == ".jpg"
      && ParseInt(n[|camera| + 1..|n| - 4]) == Some(TruncSeconds(millis))
  {
    var n := SnapshotName(camera, millis);
    var digits := IntToString(TruncSeconds(millis));
    assert n == (camera + "_") + digits + ".jpg";
    assert n[..|camera| + 1] == camera + "_";
    assert n[|camera| + 1..|n| - 4] == digits;
    ParseIntToString(TruncSeconds(millis));
  }

  /** A camera name without `/` gives a snapshot name that is one path component. */
  lemma SnapshotNameComponent(camera: string, millis: int)
    requires '/' !in camera
    ensures Component(SnapshotName(camera, millis))
  {
    var digits := IntToString(TruncSeconds(millis));
    var n := SnapshotName(camera, millis);
    forall i | 0 <= i < |n| ensures n[i] != '/' {
      if i < |camera| {
        assert n[i] == camera[i];
      } else if i == |camera| {
      } else if i < |camera| + 1 + |digits| {
        assert n[i] == digits[i - |camera| - 1];
      } else {
        assert n[i] == ".jpg"[i - |camera| - 1 - |digits|];
      }
    }
  }

  /**
   * Under an image directory without a trailing slash, the snapshot is saved as the
   * directory, one `/`, and the snapshot name: one more path segment.
   */
  lemma SnapshotPathLayout(imagePath: string, camera: string, millis: int)
    requires Base(imagePath) && '/' !in camera
    ensures SnapshotPath(imagePath, camera, millis)
      == imagePath + "/" + camera + "_" + IntToString(TruncSeconds(millis)) + ".jpg"
    ensures Split(SnapshotPath(imagePath, camera, millis), '/')
      == Split(imagePath, '/') + [SnapshotName(camera, millis)]
  {
    var name := SnapshotName(camera, millis);
    var digits := IntToString(TruncSeconds(millis));
    SnapshotNameComponent(camera, millis);
    JoinComponent(imagePath, name);
    assert SnapshotPath(imagePath, camera, millis) == imagePath + "/" + name;
    assert imagePath + "/" + name == imagePath + "/" + camera + "_" + digits + ".jpg" by {
      assert name == camera + "_" + digits + ".jpg";
      assert (imagePath + "/") + (((camera + "_") + digits) + ".jpg")
          == (((imagePath + "/") + camera + "_") + digits) + ".jpg";
    }
  }

  /**
   * Snapshots of one camera taken in different seconds are saved under different paths; in
   * the same second they share one, and the later write truncates the earlier file.
   */
  lemma DistinctSeconds(imagePath: string, camera: string, m1: int, m2: int)
    requires Base(imagePath) && '/' !in camera
    ensures SnapshotPath(imagePath, camera, m1) == SnapshotPath(imagePath, camera, m2)
            <==> TruncSeconds(m1) == TruncSeconds(m2)
  {
    var n1 := SnapshotName(camera, m1);
    var n2 := SnapshotName(camera, m2);
    if SnapshotPath(imagePath, camera, m1) == SnapshotPath(imagePath, camera, m2) {
      SnapshotPathLayout(imagePath, camera, m1);
      SnapshotPathLayout(imagePath, camera, m2);
      var segments := Split(imagePath, '/');
      assert (segments + [n1])[|segments|] == n1;
      assert (segments + [n2])[|segments|] == n2;
      assert n1 == n2;
      SnapshotNameTimestamp(camera, m1);
      SnapshotNameTimestamp(camera, m2);
    }
  }

  // ---------------------------------------------------------------------------------------
  // fetch_and_save_image

  /**
   * How saving a received body went: `aiofiles.open` raised or was cancelled, or it opened
   * the file (creating or truncating it) and the write then completed, raised or was
   * cancelled.
   */
  datatype WriteOutcome = Written | OpenFailed | OpenCancelled | WriteFailed | WriteCancelled

  /** What one attempt ran into. */
  datatype AttemptOutcome =
    | Response(status: int, body: seq<byte>, clockMillis: int, write: WriteOutcome)
    | ClientError
    | Timeout
    | OtherError
    | Cancelled

  datatype SleepOutcome = Slept | SleepCancelled

  /**
   * The snapshot file an attempt opens: the directory, the camera and the clock reading it
   * is named from. `Path` is the path `aiofiles.open` is given.
   */
  datatype Snapshot = Snapshot(dir: string, camera: string, millis: int)
  {
    function Path(): string
    {
      SnapshotPath(dir, camera, millis)
    }
  }

  /**
   * What a fetch does that can be seen from outside: a request, a file written with the
   * whole body, a file opened whose write did not complete (it stays on disk with unknown
   * contents), and a retry sleep.
   */
  datatype Event =
    | Request(attempt: nat, url: string, timeout: int)
    | Wrote(file: Snapshot, data: seq<byte>)
    | Created(file: Snapshot)
    | RetrySleep(seconds: int)

  datatype Ending =
    | Saved(file: Snapshot)
    | EmptyBody
    | BadStatus(status: int)
    | CancelledInRequest
    | CancelledInSleep
    | RetriesExhausted
    | UrlFormatFailed(error: FormatError)

  datatype FetchRun = FetchRun(events: seq<Event>, ending: Ending)

  /** A 200 response with a non-empty body: the attempt goes on to save it. */
  predicate Saving(o: AttemptOutcome)
  {
    o.Response? && o.status == 200 && |o.body| > 0
  }

  /** An attempt that ends in one of the exceptions logged and retried. */
  predicate Raised(o: AttemptOutcome)
  {
    o.ClientError? || o.Timeout? || o.OtherError?
    || (Saving(o) && (o.write == OpenFailed || o.write == WriteFailed))
  }

  /** Attempt `k` raised and the sleep after it completed: the loop goes on to attempt `k + 1`. */
  predicate Failed(net: nat -> AttemptOutcome, sleep: nat -> SleepOutcome, k: nat)
  {
    Raised(net(k)) && sleep(k) == Slept
  }

  /** The snapshot file an attempt opened but did not finish writing, if there is one. */
  function Leftover(imagePath: string, camera: string, o: AttemptOutcome): seq<Event>
  {
    if Saving(o) && (o.write == WriteFailed || o.write == WriteCancelled)
    then [Created(Snapshot(imagePath, camera, o.clockMillis))]
    else []
  }

  /** What attempt `k` leaves when it raises: its request, the file it may have left, and the retry sleep. */
  function Failure(f: CameraImageFetcher, camera: string, imagePath: string, url: string,
                   o: AttemptOutcome, k: nat): seq<Event>
  {
    [Request(k, url, f.httpTimeout)] + Leftover(imagePath, camera, o) + [RetrySleep(f.retryDelay)]
  }

  function Then(prefix: seq<Event>, run: FetchRun): FetchRun
  {
    FetchRun(prefix + run.events, run.ending)
  }

  /**
   * The end of an attempt that did not raise: a cancellation, a status other than 200, an
   * empty body, or a body written to the snapshot path and the fetch saved. A write
   * cancelled after the file was opened leaves the file behind.
   */
  function Settle(imagePath: string, camera: string, request: Event, o: AttemptOutcome): (run: FetchRun)
    requires !Raised(o)
    ensures 1 <= |run.events| <= 2 && run.events[0] == request
    ensures run.ending.Saved? <==> Saving(o) && o.write == Written
    ensures run.ending.Saved? ==>
      run.ending.file == Snapshot(imagePath, camera, o.clockMillis)
      && run.events == [request, Wrote(run.ending.file, o.body)]
    ensures !run.ending.Saved? ==> run.events == [request] + Leftover(imagePath, camera, o)
    ensures run.ending.BadStatus? <==> o.Response? && o.status != 200
    ensures run.ending.BadStatus? ==> run.ending.status == o.status
    ensures run.ending.EmptyBody? <==> o.Response? && o.status == 200 && |o.body| == 0
    ensures run.ending.CancelledInRequest? <==>
      o.Cancelled? || (Saving(o) && (o.write == OpenCancelled || o.write == WriteCancelled))
    ensures !SleptLast(run.ending) && !run.ending.UrlFormatFailed?
  {
    if o.Cancelled? then FetchRun([request], CancelledInRequest)
    else if o.status != 200 then FetchRun([request], BadStatus(o.status))
    else if |o.body| == 0 then FetchRun([request], EmptyBody)
    else
      var file := Snapshot(imagePath, camera, o.clockMillis);
      if o.write == Written then FetchRun([request, Wrote(file, o.body)], Saved(file))
      else if o.write == WriteCancelled then FetchRun([request, Created(file)], CancelledInRequest)
      else FetchRun([request], CancelledInRequest)
  }

  /** The endings after which the last attempt was followed by a retry sleep. */
  predicate SleptLast(e: Ending)
  {
    e == CancelledInSleep || e == RetriesExhausted
  }

  /** The loop from attempt `k` on, with `url` already formatted. */
  function Attempts(f: CameraImageFetcher, camera: string, imagePath: string, url: string,
                    net: nat -> AttemptOutcome, sleep: nat -> SleepOutcome, k: nat): FetchRun
    decreases if k < f.maxRetries then f.maxRetries - k else 0
  {
    if k >= f.maxRetries then FetchRun([], RetriesExhausted)
    else if !Raised(net(k)) then Settle(imagePath, camera, Request(k, url, f.httpTimeout), net(k))
    else
      var failure := Failure(f, camera, imagePath, url, net(k), k);
      if sleep(k) == SleepCancelled then FetchRun(failure, CancelledInSleep)
      else Then(failure, Attempts(f, camera, imagePath, url, net, sleep, k + 1))
  }

  lemma ThenAssoc(a: seq<Event>, b: seq<Event>, run: FetchRun)
    ensures Then(a, Then(b, run)) == Then(a + b, run)
  {
    assert a + (b + run.events) == (a + b) + run.events;
  }

  /** An attempt that raised and slept hands over to the next one. */
  lemma AttemptsStep(f: CameraImageFetcher, camera: string, imagePath: string, url: string,
                     net: nat -> AttemptOutcome, sleep: nat -> SleepOutcome, k: nat)
    requires k < f.maxRetries && Failed(net, sleep, k)
    ensures Attempts(f, camera, imagePath, url, net, sleep, k)
         == Then(Failure(f, camera, imagePath, url, net(k), k), Attempts(f, camera, imagePath, url, net, sleep, k + 1))
  {
  }

  /** `fetch_and_save_image(session, camera_name, image_path)`. */
  function FetchSpec(f: CameraImageFetcher, camera: string, imagePath: string,
                     net: nat -> AttemptOutcome, sleep: nat -> SleepOutcome): FetchRun
  {
    match Format(f.urlPattern, camera)
    case Err(e) => FetchRun([], UrlFormatFailed(e))
    case Ok(url) => Attempts(f, camera, imagePath, url, net, sleep, 0)
  }

  /**
   * The `try` block of attempt `k`: it either ends the fetch, as `Settle` says, or raises
   * one of the exceptions that are logged, after the request and the file it may have
   * left; `ending` means something only in the first case.
   */
  method TryAttempt(f: CameraImageFetcher, camera: string, imagePath: string, url: string,
                    o: AttemptOutcome, k: nat)
    returns (raised: bool, events: seq<Event>, ending: Ending)
    ensures raised == Raised(o)
    ensures !raised ==> FetchRun(events, ending) == Settle(imagePath, camera, Request(k, url, f.httpTimeout), o)
    ensures raised ==> events == [Request(k, url, f.httpTimeout)] + Leftover(imagePath, camera, o)
  {
    var request := Request(k, url, f.httpTimeout);
    if o.Cancelled? {
      return false, [request], CancelledInRequest;
    }
    if o.Response? {
      if o.status != 200 {
        return false, [request], BadStatus(o.status);
      }
      if |o.body| == 0 {
        return false, [request], EmptyBody;
      }
      var file := Snapshot(imagePath, camera, o.clockMillis);
      match o.write
      case Written => return false, [request, Wrote(file, o.body)], Saved(file);
      case OpenCancelled => return false, [request], CancelledInRequest;
      case WriteCancelled => return false, [request, Created(file)], CancelledInRequest;
      case OpenFailed => return true, [request], RetriesExhausted;
      case WriteFailed => return true, [request, Created(file)], RetriesExhausted;
    }
    return true, [request], RetriesExhausted;
  }

  method FetchAndSaveImage(f: CameraImageFetcher, camera: string, imagePath: string,
                           net: nat -> AttemptOutcome, sleep: nat -> SleepOutcome)
    returns (run: FetchRun)
    ensures run == FetchSpec(f, camera, imagePath, net, sleep)
  {
    var formatted := Format(f.urlPattern, camera);
    if formatted.Err? {
      return FetchRun([], UrlFormatFailed(formatted.error));
    }
    var url := formatted.value;
    var events: seq<Event> := [];
    var attempt: nat := 0;
    while attempt < f.maxRetries
      invariant Then(events, Attempts(f, camera, imagePath, url, net, sleep, attempt))
             == Attempts(f, camera, imagePath, url, net, sleep, 0)
      decreases f.maxRetries - attempt
    {
      var raised, tried, ending := TryAttempt(f, camera, imagePath, url, net(attempt), attempt);
      if !raised {
        return FetchRun(events + tried, ending);
      }
      var failure := tried + [RetrySleep(f.retryDelay)];
      if sleep(attempt) == SleepCancelled {
        return FetchRun(events + failure, CancelledInSleep);
      }
      AttemptsStep(f, camera, imagePath, url, net, sleep, attempt);
      ghost var rest := Attempts(f, camera, imagePath, url, net, sleep, attempt + 1);
      ThenAssoc(events, failure, rest);
      events := events + failure;
      attempt := attempt + 1;
    }
    assert events + [] == events;
    return FetchRun(events, RetriesExhausted);
  }

  // ---------------------------------------------------------------------------------------
  // counting events

  datatype Kind = RequestKind | WriteKind | CreateKind | SleepKind

  predicate IsKind(e: Event, k: Kind)
  {
    match k
    case RequestKind => e.Request?
    case WriteKind => e.Wrote?
    case CreateKind => e.Created?
    case SleepKind => e.RetrySleep?
  }

  /** The number of events of kind `k`. */
  function Tally(es: seq<Event>, k: Kind): nat
  {
    if es == [] then 0 else (if IsKind(es[0], k) then 1 else 0) + Tally(es[1..], k)
  }

  lemma {:induction false} TallyConcat(a: seq<Event>, b: seq<Event>, k: Kind)
    ensures Tally(a + b, k) == Tally(a, k) + Tally(b, k)
    decreases |a|
  {
    if a != [] {
      assert (a + b)[1..] == a[1..] + b;
      TallyConcat(a[1..], b, k);
    } else {
      assert a + b == b;
    }
  }

  lemma TallyOne(e: Event)
    ensures forall k :: Tally([e], k) == (if IsKind(e, k) then 1 else 0)
  {
    assert [e][1..] == [];
  }

  /** The attempt numbers of the requests among `es`, in order. */
  function Attempted(es: seq<Event>): seq<nat>
  {
    if es == [] then [] else (if es[0].Request? then [es[0].attempt] else []) + Attempted(es[1..])
  }

  lemma {:induction false} AttemptedConcat(a: seq<Event>, b: seq<Event>)
    ensures Attempted(a + b) == Attempted(a) + Attempted(b)
    decreases |a|
  {
    if a != [] {
      assert (a + b)[1..] == a[1..] + b;
      AttemptedConcat(a[1..], b);
    } else {
      assert a + b == b;
    }
  }

  lemma AttemptedOne(e: Event)
    ensures Attempted([e]) == (if e.Request? then [e.attempt] else [])
  {
    assert [e][1..] == [];
  }

  /** The numbers `from`, `from + 1`, ..., `from + n - 1`. */
  function Numbers(from: nat, n: nat): seq<nat>
  {
    seq(n, j requires 0 <= j < n => from + j)
  }

  lemma NumbersConcat(from: nat, m: nat, n: nat)
    ensures Numbers(from, m) + Numbers(from + m, n) == Numbers(from, m + n)
  {
    var a := Numbers(from, m) + Numbers(from + m, n);
    var b := Numbers(from, m + n);
    assert |a| == |b|;
    forall j | 0 <= j < m + n ensures a[j] == b[j] {
      if j >= m {
        assert a[j] == Numbers(from + m, n)[j - m];
      }
    }
  }

  /**
   * `es` makes `requests` requests, numbered from `from` on in order, `writes` complete
   * writes and `sleeps` retry sleeps, and leaves at most one unfinished file per request.
   */
  predicate Tallies(es: seq<Event>, from: nat, requests: nat, writes: nat, sleeps: nat)
  {
    Tally(es, RequestKind) == requests && Tally(es, WriteKind) == writes && Tally(es, SleepKind) == sleeps
    && Tally(es, CreateKind) <= requests && Attempted(es) == Numbers(from, requests)
  }

  lemma TalliesConcat(a: seq<Event>, b: seq<Event>, from: nat,
                      ra: nat, wa: nat, sa: nat, rb: nat, wb: nat, sb: nat)
    requires Tallies(a, from, ra, wa, sa) && Tallies(b, from + ra, rb, wb, sb)
    ensures Tallies(a + b, from, ra + rb, wa + wb, sa + sb)
  {
    TallyConcat(a, b, RequestKind);
    TallyConcat(a, b, WriteKind);
    TallyConcat(a, b, CreateKind);
    TallyConcat(a, b, SleepKind);
    AttemptedConcat(a, b);
    NumbersConcat(from, ra, rb);
  }

  lemma TalliesEmpty(from: nat)
    ensures Tallies([], from, 0, 0, 0)
  {
    assert Numbers(from, 0) == [];
  }

  /** A failed attempt makes one request and one sleep, writes nothing, and leaves the file it opened. */
  lemma TallyFailure(f: CameraImageFetcher, camera: string, imagePath: string, url: string,
                     o: AttemptOutcome, k: nat)
    ensures Tallies(Failure(f, camera, imagePath, url, o, k), k, 1, 0, 1)
    ensures Tally(Failure(f, camera, imagePath, url, o, k), CreateKind) == |Leftover(imagePath, camera, o)|
  {
    var r := [Request(k, url, f.httpTimeout)];
    var left := Leftover(imagePath, camera, o);
    var s := [RetrySleep(f.retryDelay)];
    var es := Failure(f, camera, imagePath, url, o, k);
    assert es == (r + left) + s;
    TallyOne(r[0]);
    TallyOne(s[0]);
    forall kind: Kind ensures Tally(es, kind) == Tally(r, kind) + Tally(left, kind) + Tally(s, kind) {
      TallyConcat(r + left, s, kind);
      TallyConcat(r, left, kind);
    }
    AttemptedConcat(r + left, s);
    AttemptedConcat(r, left);
    AttemptedOne(r[0]);
    AttemptedOne(s[0]);
    assert Numbers(k, 1) == [k];
    if left != [] {
      assert left == [left[0]] && left[0].Created?;
      TallyOne(left[0]);
      AttemptedOne(left[0]);
    }
  }

  /**
   * A settled attempt makes one request and no sleep, writes once exactly when it saved,
   * and leaves at most one unfinished file.
   */
  lemma TallySettle(imagePath: string, camera: string, request: Event, o: AttemptOutcome)
    requires request.Request? && !Raised(o)
    ensures var run := Settle(imagePath, camera, request, o);
      Tallies(run.events, request.attempt, 1, if run.ending.Saved? then 1 else 0, 0)
  {
    var run := Settle(imagePath, camera, request, o);
    var rest := run.events[1..];
    assert run.events == [request] + rest;
    TallyOne(request);
    AttemptedOne(request);
    forall kind: Kind ensures Tally(run.events, kind) == Tally([request], kind) + Tally(rest, kind) {
      TallyConcat([request], rest, kind);
    }
    AttemptedConcat([request], rest);
    assert Numbers(request.attempt, 1) == [request.attempt];
    if rest != [] {
      assert rest == [rest[0]] && !rest[0].Request? && !rest[0].RetrySleep?;
      assert rest[0].Wrote? <==> run.ending.Saved?;
      TallyOne(rest[0]);
      AttemptedOne(rest[0]);
    } else {
      assert Tally(rest, CreateKind) == 0;
    }
  }

  /** The allowance of attempts left from attempt `k` on: `len(range(k, max_retries))`. */
  function Budget(f: CameraImageFetcher, k: nat): nat
  {
    if k < f.maxRetries then f.maxRetries - k else 0
  }

  /**
   * From attempt `k` on: at most `Budget` requests, numbered `k`, `k + 1`, ... in order;
   * exactly one complete write when the image was saved and none otherwise; at most one
   * unfinished file per request; and a retry sleep after every attempt but the last, which
   * is followed by one as well when the run was cancelled in a sleep or used up its retries.
   */
  lemma {:induction false} AttemptsCounts(f: CameraImageFetcher, camera: string, imagePath: string, url: string,
                                          net: nat -> AttemptOutcome, sleep: nat -> SleepOutcome, k: nat)
    ensures var run := Attempts(f, camera, imagePath, url, net, sleep, k);
      var requests := Tally(run.events, RequestKind);
      requests <= Budget(f, k)
      && Tallies(run.events, k, requests, if run.ending.Saved? then 1 else 0, Tally(run.events, SleepKind))
      && (run.events != [] ==> Tally(run.events, SleepKind) + (if SleptLast(run.ending) then 0 else 1) == requests)
      && (run.events == [] <==> k >= f.maxRetries)
      && !run.ending.UrlFormatFailed?
    decreases Budget(f, k)
  {
    var run := Attempts(f, camera, imagePath, url, net, sleep, k);
    if k < f.maxRetries {
      var request := Request(k, url, f.httpTimeout);
      if !Raised(net(k)) {
        TallySettle(imagePath, camera, request, net(k));
      } else {
        var failure := Failure(f, camera, imagePath, url, net(k), k);
        TallyFailure(f, camera, imagePath, url, net(k), k);
        if sleep(k) == Slept {
          var rest := Attempts(f, camera, imagePath, url, net, sleep, k + 1);
          AttemptsStep(f, camera, imagePath, url, net, sleep, k);
          AttemptsCounts(f, camera, imagePath, url, net, sleep, k + 1);
          assert run == Then(failure, rest);
          assert run.events == failure + rest.events;
          TalliesConcat(failure, rest.events, k, 1, 0, 1, Tally(rest.events, RequestKind),
                        if rest.ending.Saved? then 1 else 0, Tally(rest.events, SleepKind));
        }
      }
    } else {
      TalliesEmpty(k);
    }
  }

  /** The attempts `i` to `k - 1` when each of them raised and slept. */
  function FailuresFrom(f: CameraImageFetcher, camera: string, imagePath: string, url: string,
                        net: nat -> AttemptOutcome, i: nat, k: nat): seq<Event>
    requires i <= k
    decreases k - i
  {
    if i == k then []
    else Failure(f, camera, imagePath, url, net(i), i) + FailuresFrom(f, camera, imagePath, url, net, i + 1, k)
  }

  /**
   * `k - i` failed attempts make `k - i` requests, numbered `i` to `k - 1` in order, as many
   * sleeps, no complete write, and at most one unfinished file each.
   */
  lemma {:induction false} FailuresCounts(f: CameraImageFetcher, camera: string, imagePath: string, url: string,
                                          net: nat -> AttemptOutcome, i: nat, k: nat)
    requires i <= k
    ensures Tallies(FailuresFrom(f, camera, imagePath, url, net, i, k), i, k - i, 0, k - i)
    decreases k - i
  {
    if i < k {
      var failure := Failure(f, camera, imagePath, url, net(i), i);
      var rest := FailuresFrom(f, camera, imagePath, url, net, i + 1, k);
      assert FailuresFrom(f, camera, imagePath, url, net, i, k) == failure + rest;
      FailuresCounts(f, camera, imagePath, url, net, i + 1, k);
      TallyFailure(f, camera, imagePath, url, net(i), i);
      TalliesConcat(failure, rest, i, 1, 0, 1, k - (i + 1), 0, k - (i + 1));
    } else {
      TalliesEmpty(i);
    }
  }

  /** A run of failed attempts `i` to `k - 1` is followed by the loop from attempt `k` on. */
  lemma {:induction false} ConsecutiveFailures(f: CameraImageFetcher, camera: string, imagePath: string, url: string,
                                               net: nat -> AttemptOutcome, sleep: nat -> SleepOutcome,
                                               i: nat, k: nat)
    requires i <= k <= f.maxRetries
    requires forall j :: i <= j < k ==> Failed(net, sleep, j)
    ensures Attempts(f, camera, imagePath, url, net, sleep, i)
         == Then(FailuresFrom(f, camera, imagePath, url, net, i, k), Attempts(f, camera, imagePath, url, net, sleep, k))
    decreases k - i
  {
    var later := Attempts(f, camera, imagePath, url, net, sleep, k);
    if i == k {
      assert [] + later.events == later.events;
    } else {
      assert Failed(net, sleep, i);
      AttemptsStep(f, camera, imagePath, url, net, sleep, i);
      ConsecutiveFailures(f, camera, imagePath, url, net, sleep, i + 1, k);
      var failure := Failure(f, camera, imagePath, url, net(i), i);
      var more := FailuresFrom(f, camera, imagePath, url, net, i + 1, k);
      assert FailuresFrom(f, camera, imagePath, url, net, i, k) == failure + more;
      ThenAssoc(failure, more, later);
    }
  }

  /** The first attempt from `k` on that does not fail, or `max_retries` when all do. */
  function FirstStop(f: CameraImageFetcher, net: nat -> AttemptOutcome, sleep: nat -> SleepOutcome, k: nat): (s: nat)
    ensures k <= s && (k <= f.maxRetries ==> s <= f.maxRetries) && (k > f.maxRetries ==> s == k)
    decreases Budget(f, k)
  {
    if k >= f.maxRetries || !Failed(net, sleep, k) then k else FirstStop(f, net, sleep, k + 1)
  }

  lemma {:induction false} FirstStopFailures(f: CameraImageFetcher, net: nat -> AttemptOutcome, sleep: nat -> SleepOutcome, k: nat)
    ensures forall j :: k <= j < FirstStop(f, net, sleep, k) ==> Failed(net, sleep, j)
    ensures FirstStop(f, net, sleep, k) < f.maxRetries ==> !Failed(net, sleep, FirstStop(f, net, sleep, k))
    decreases Budget(f, k)
  {
    if k < f.maxRetries && Failed(net, sleep, k) {
      FirstStopFailures(f, net, sleep, k + 1);
    }
  }

  /**
   * Every run with a formatted URL is a series of failed attempts `0` to `s - 1`, each a
   * request, possibly an unfinished file, and a retry sleep, and then what attempt `s`
   * does: `s` is the first attempt that does not raise or whose sleep is cancelled, or
   * `max_retries` when there is none.
   */
  lemma RunShape(f: CameraImageFetcher, camera: string, imagePath: string,
                 net: nat -> AttemptOutcome, sleep: nat -> SleepOutcome)
    requires Format(f.urlPattern, camera).Ok?
    ensures var url := Format(f.urlPattern, camera).value;
      var s := FirstStop(f, net, sleep, 0);
      (forall j :: 0 <= j < s ==> Failed(net, sleep, j))
      && (s < f.maxRetries ==> !Failed(net, sleep, s))
      && FetchSpec(f, camera, imagePath, net, sleep)
         == Then(FailuresFrom(f, camera, imagePath, url, net, 0, s), Attempts(f, camera, imagePath, url, net, sleep, s))
  {
    var url := Format(f.urlPattern, camera).value;
    var s := FirstStop(f, net, sleep, 0);
    FirstStopFailures(f, net, sleep, 0);
    if f.maxRetries >= 0 {
      ConsecutiveFailures(f, camera, imagePath, url, net, sleep, 0, s);
    } else {
      assert FailuresFrom(f, camera, imagePath, url, net, 0, s) == [];
      assert [] + Attempts(f, camera, imagePath, url, net, sleep, s).events
          == Attempts(f, camera, imagePath, url, net, sleep, s).events;
    }
  }

  function Requests(run: FetchRun): nat { Tally(run.events, RequestKind) }
  function Writes(run: FetchRun): nat { Tally(run.events, WriteKind) }
  function Unfinished(run: FetchRun): nat { Tally(run.events, CreateKind) }
  function Sleeps(run: FetchRun): nat { Tally(run.events, SleepKind) }

  /**
   * A fetch makes at most `max_retries` requests (none when it is not positive, and none
   * when the URL pattern cannot be formatted), numbered from 0 in order; it writes a whole
   * body at most once, and does so exactly when it ends saved; each attempt leaves at most
   * one file it opened without finishing the write; and it sleeps after every attempt
   * except a last one that did not raise.
   */
  lemma FetchCounts(f: CameraImageFetcher, camera: string, imagePath: string,
                    net: nat -> AttemptOutcome, sleep: nat -> SleepOutcome)
    ensures var run := FetchSpec(f, camera, imagePath, net, sleep);
      Requests(run) <= (if f.maxRetries > 0 then f.maxRetries else 0)
      && Attempted(run.events) == Numbers(0, Requests(run))
      && (f.maxRetries <= 0 ==> run.events == [])
      && (run.ending.UrlFormatFailed? ==> run.events == [])
      && Writes(run) <= 1
      && (Writes(run) == 1 <==> run.ending.Saved?)
      && Unfinished(run) <= Requests(run)
      && (run.events != [] ==>
            Sleeps(run) == Requests(run) - (if SleptLast(run.ending) then 0 else 1))
  {
    match Format(f.urlPattern, camera)
    case Err(_) =>
      assert Numbers(0, 0) == [];
    case Ok(url) => AttemptsCounts(f, camera, imagePath, url, net, sleep, 0);
  }

  // ---------------------------------------------------------------------------------------
  // particular runs

  /**
   * After `k` failed attempts, a response other than 200 ends the fetch: it is logged and
   * neither retried nor slept after, and nothing is written.
   */
  lemma BadStatusNotRetried(f: CameraImageFetcher, camera: string, imagePath: string,
                            net: nat -> AttemptOutcome, sleep: nat -> SleepOutcome, k: nat)
    requires Format(f.urlPattern, camera).Ok?
    requires k < f.maxRetries
    requires forall j :: 0 <= j < k ==> Failed(net, sleep, j)
    requires net(k).Response? && net(k).status != 200
    ensures var url := Format(f.urlPattern, camera).value;
      var run := FetchSpec(f, camera, imagePath, net, sleep);
      run == FetchRun(FailuresFrom(f, camera, imagePath, url, net, 0, k) + [Request(k, url, f.httpTimeout)],
                      BadStatus(net(k).status))
      && Requests(run) == k + 1 && Sleeps(run) == k && Writes(run) == 0
  {
    var url := Format(f.urlPattern, camera).value;
    var before := FailuresFrom(f, camera, imagePath, url, net, 0, k);
    var last := [Request(k, url, f.httpTimeout)];
    assert FetchSpec(f, camera, imagePath, net, sleep) == FetchRun(before + last, BadStatus(net(k).status)) by {
      ConsecutiveFailures(f, camera, imagePath, url, net, sleep, 0, k);
      var settled := Settle(imagePath, camera, last[0], net(k));
      assert settled == FetchRun(last, BadStatus(net(k).status));
      assert Attempts(f, camera, imagePath, url, net, sleep, k) == settled;
    }
    assert Tallies(before + last, 0, k + 1, 0, k) by {
      FailuresCounts(f, camera, imagePath, url, net, 0, k);
      assert Tallies(before, 0, k, 0, k);
      TallySettle(imagePath, camera, last[0], net(k));
      assert Tallies(last, k, 1, 0, 0);
      TalliesConcat(before, last, 0, k, 0, k, 1, 0, 0);
    }
  }

  /** A 503 on the first attempt is final even when a second attempt would have been answered with 200. */
  lemma ServiceUnavailableEndsFetch(f: CameraImageFetcher, camera: string, imagePath: string,
                                    net: nat -> AttemptOutcome, sleep: nat -> SleepOutcome)
    requires Format(f.urlPattern, camera).Ok?
    requires f.maxRetries >= 2
    requires net(0) == Response(503, [], 0, Written)
    requires Saving(net(1)) && net(1).write == Written
    ensures FetchSpec(f, camera, imagePath, net, sleep).ending == BadStatus(503)
    ensures Requests(FetchSpec(f, camera, imagePath, net, sleep)) == 1
  {
    BadStatusNotRetried(f, camera, imagePath, net, sleep, 0);
  }

  /**
   * After `k` failed attempts, a 200 response with a non-empty body whose file is written
   * ends the fetch: the body is written, once, to the snapshot file named from the camera
   * and the whole seconds of the time it arrived.
   */
  lemma SavedAfterFailures(f: CameraImageFetcher, camera: string, imagePath: string,
                           net: nat -> AttemptOutcome, sleep: nat -> SleepOutcome, k: nat)
    requires Format(f.urlPattern, camera).Ok?
    requires k < f.maxRetries
    requires forall j :: 0 <= j < k ==> Failed(net, sleep, j)
    requires Saving(net(k)) && net(k).write == Written
    ensures var url := Format(f.urlPattern, camera).value;
      var file := Snapshot(imagePath, camera, net(k).clockMillis);
      var run := FetchSpec(f, camera, imagePath, net, sleep);
      run == FetchRun(FailuresFrom(f, camera, imagePath, url, net, 0, k)
                      + [Request(k, url, f.httpTimeout), Wrote(file, net(k).body)], Saved(file))
      && Requests(run) == k + 1 && Sleeps(run) == k && Writes(run) == 1
  {
    var url := Format(f.urlPattern, camera).value;
    var file := Snapshot(imagePath, camera, net(k).clockMillis);
    var before := FailuresFrom(f, camera, imagePath, url, net, 0, k);
    var last := [Request(k, url, f.httpTimeout), Wrote(file, net(k).body)];
    assert FetchSpec(f, camera, imagePath, net, sleep) == FetchRun(before + last, Saved(file)) by {
      ConsecutiveFailures(f, camera, imagePath, url, net, sleep, 0, k);
      var settled := Settle(imagePath, camera, last[0], net(k));
      assert settled == FetchRun(last, Saved(file));
      assert Attempts(f, camera, imagePath, url, net, sleep, k) == settled;
    }
    assert Tallies(before + last, 0, k + 1, 1, k) by {
      FailuresCounts(f, camera, imagePath, url, net, 0, k);
      assert Tallies(before, 0, k, 0, k);
      TallySettle(imagePath, camera, last[0], net(k));
      assert Tallies(last, k, 1, 1, 0);
      TalliesConcat(before, last, 0, k, 0, k, 1, 1, 0);
    }
  }

  /**
   * A write that raises after the file was opened leaves that file, and the retry that
   * follows saves the image under the name of its own second. One fetch then leaves two
   * files, one of them incomplete, exactly when the two clock readings fall in different
   * whole seconds; in the same second the retry reopens and truncates the first file.
   */
  lemma UnfinishedFileThenSaved(f: CameraImageFetcher, camera: string, imagePath: string,
                                net: nat -> AttemptOutcome, sleep: nat -> SleepOutcome)
    requires Format(f.urlPattern, camera).Ok?
    requires f.maxRetries >= 2
    requires Saving(net(0)) && net(0).write == WriteFailed && sleep(0) == Slept
    requires Saving(net(1)) && net(1).write == Written
    ensures var url := Format(f.urlPattern, camera).value;
      var first := Snapshot(imagePath, camera, net(0).clockMillis);
      var second := Snapshot(imagePath, camera, net(1).clockMillis);
      FetchSpec(f, camera, imagePath, net, sleep)
      == FetchRun([Request(0, url, f.httpTimeout), Created(first), RetrySleep(f.retryDelay),
                   Request(1, url, f.httpTimeout), Wrote(second, net(1).body)], Saved(second))
      && (Base(imagePath) && '/' !in camera ==>
            (first.Path() != second.Path() <==> TruncSeconds(net(0).clockMillis) != TruncSeconds(net(1).clockMillis)))
  {
    var url := Format(f.urlPattern, camera).value;
    var first := Snapshot(imagePath, camera, net(0).clockMillis);
    var second := Snapshot(imagePath, camera, net(1).clockMillis);
    assert FetchSpec(f, camera, imagePath, net, sleep)
        == FetchRun([Request(0, url, f.httpTimeout), Created(first), RetrySleep(f.retryDelay),
                     Request(1, url, f.httpTimeout), Wrote(second, net(1).body)], Saved(second)) by {
      SavedAfterFailures(f, camera, imagePath, net, sleep, 1);
      assert FailuresFrom(f, camera, imagePath, url, net, 0, 1) == Failure(f, camera, imagePath, url, net(0), 0) + [];
    }
    if Base(imagePath) && '/' !in camera {
      DistinctSeconds(imagePath, camera, net(0).clockMillis, net(1).clockMillis);
    }
  }

  /** An empty 200 body ends the fetch after `k` failed attempts without writing or retrying. */
  lemma EmptyBodyNotSaved(f: CameraImageFetcher, camera: string, imagePath: string,
                          net: nat -> AttemptOutcome, sleep: nat -> SleepOutcome, k: nat)
    requires Format(f.urlPattern, camera).Ok?
    requires k < f.maxRetries
    requires forall j :: 0 <= j < k ==> Failed(net, sleep, j)
    requires net(k).Response? && net(k).status == 200 && |net(k).body| == 0
    ensures var url := Format(f.urlPattern, camera).value;
      FetchSpec(f, camera, imagePath, net, sleep)
      == FetchRun(FailuresFrom(f, camera, imagePath, url, net, 0, k) + [Request(k, url, f.httpTimeout)], EmptyBody)
  {
    var url := Format(f.urlPattern, camera).value;
    ConsecutiveFailures(f, camera, imagePath, url, net, sleep, 0, k);
    assert Attempts(f, camera, imagePath, url, net, sleep, k) == FetchRun([Request(k, url, f.httpTimeout)], EmptyBody);
  }

  /**
   * When every attempt raises, the fetch makes `max_retries` requests and sleeps after each
   * of them, the last one included, and writes no whole body.
   */
  lemma AllAttemptsFail(f: CameraImageFetcher, camera: string, imagePath: string,
                        net: nat -> AttemptOutcome, sleep: nat -> SleepOutcome)
    requires Format(f.urlPattern, camera).Ok?
    requires f.maxRetries >= 0
    requires forall j :: 0 <= j < f.maxRetries ==> Failed(net, sleep, j)
    ensures var url := Format(f.urlPattern, camera).value;
      var run := FetchSpec(f, camera, imagePath, net, sleep);
      run == FetchRun(FailuresFrom(f, camera, imagePath, url, net, 0, f.maxRetries), RetriesExhausted)
      && Requests(run) == f.maxRetries && Sleeps(run) == f.maxRetries && Writes(run) == 0
  {
    var url := Format(f.urlPattern, camera).value;
    ConsecutiveFailures(f, camera, imagePath, url, net, sleep, 0, f.maxRetries);
    FailuresCounts(f, camera, imagePath, url, net, 0, f.maxRetries);
    assert FailuresFrom(f, camera, imagePath, url, net, 0, f.maxRetries) + []
        == FailuresFrom(f, camera, imagePath, url, net, 0, f.maxRetries);
  }

  /** A cancelled retry sleep after `k` failed attempts ends the fetch: no further request. */
  lemma SleepCancelStops(f: CameraImageFetcher, camera: string, imagePath: string,
                         net: nat -> AttemptOutcome, sleep: nat -> SleepOutcome, k: nat)
    requires Format(f.urlPattern, camera).Ok?
    requires k < f.maxRetries
    requires forall j :: 0 <= j < k ==> Failed(net, sleep, j)
    requires Raised(net(k)) && sleep(k) == SleepCancelled
    ensures var url := Format(f.urlPattern, camera).value;
      var run := FetchSpec(f, camera, imagePath, net, sleep);
      run == FetchRun(FailuresFrom(f, camera, imagePath, url, net, 0, k + 1), CancelledInSleep)
      && Requests(run) == k + 1 && Sleeps(run) == k + 1
  {
    var url := Format(f.urlPattern, camera).value;
    ConsecutiveFailures(f, camera, imagePath, url, net, sleep, 0, k);
    FailuresAppend(f, camera, imagePath, url, net, 0, k);
    FailuresCounts(f, camera, imagePath, url, net, 0, k + 1);
  }

  /** A cancellation during a request ends the fetch after `k` failed attempts without a sleep. */
  lemma RequestCancelStops(f: CameraImageFetcher, camera: string, imagePath: string,
                           net: nat -> AttemptOutcome, sleep: nat -> SleepOutcome, k: nat)
    requires Format(f.urlPattern, camera).Ok?
    requires k < f.maxRetries
    requires forall j :: 0 <= j < k ==> Failed(net, sleep, j)
    requires net(k) == Cancelled
    ensures var url := Format(f.urlPattern, camera).value;
      FetchSpec(f, camera, imagePath, net, sleep)
      == FetchRun(FailuresFrom(f, camera, imagePath, url, net, 0, k) + [Request(k, url, f.httpTimeout)], CancelledInRequest)
  {
    var url := Format(f.urlPattern, camera).value;
    ConsecutiveFailures(f, camera, imagePath, url, net, sleep, 0, k);
    assert Attempts(f, camera, imagePath, url, net, sleep, k)
        == FetchRun([Request(k, url, f.httpTimeout)], CancelledInRequest);
  }

  /**
   * A cancellation while the body is being written ends the fetch without a sleep, and the
   * file opened for it stays behind.
   */
  lemma WriteCancelLeavesFile(f: CameraImageFetcher, camera: string, imagePath: string,
                              net: nat -> AttemptOutcome, sleep: nat -> SleepOutcome, k: nat)
    requires Format(f.urlPattern, camera).Ok?
    requires k < f.maxRetries
    requires forall j :: 0 <= j < k ==> Failed(net, sleep, j)
    requires Saving(net(k)) && net(k).write == WriteCancelled
    ensures var url := Format(f.urlPattern, camera).value;
      FetchSpec(f, camera, imagePath, net, sleep)
      == FetchRun(FailuresFrom(f, camera, imagePath, url, net, 0, k)
                  + [Request(k, url, f.httpTimeout), Created(Snapshot(imagePath, camera, net(k).clockMillis))],
                  CancelledInRequest)
  {
    var url := Format(f.urlPattern, camera).value;
    ConsecutiveFailures(f, camera, imagePath, url, net, sleep, 0, k);
    assert Attempts(f, camera, imagePath, url, net, sleep, k)
        == FetchRun([Request(k, url, f.httpTimeout), Created(Snapshot(imagePath, camera, net(k).clockMillis))],
                    CancelledInRequest);
  }

  lemma {:induction false} FailuresAppend(f: CameraImageFetcher, camera: string, imagePath: string, url: string,
                                          net: nat -> AttemptOutcome, i: nat, k: nat)
    requires i <= k
    ensures FailuresFrom(f, camera, imagePath, url, net, i, k + 1)
         == FailuresFrom(f, camera, imagePath, url, net, i, k) + Failure(f, camera, imagePath, url, net(k), k)
    decreases k - i
  {
    var last := Failure(f, camera, imagePath, url, net(k), k);
    if i < k {
      FailuresAppend(f, camera, imagePath, url, net, i + 1, k);
      var head := Failure(f, camera, imagePath, url, net(i), i);
      var more := FailuresFrom(f, camera, imagePath, url, net, i + 1, k);
      assert head + (more + last) == (head + more) + last;
    } else {
      assert last + [] == [] + last;
    }
  }

  /**
   * With the URL pattern of the configuration, every request of a fetch goes to the
   * camera's snapshot URL, with the configured timeout.
   */
  lemma RequestUrl(f: CameraImageFetcher, domain: string, camera: string, imagePath: string,
                   net: nat -> AttemptOutcome, sleep: nat -> SleepOutcome)
    requires f.urlPattern == Config.UrlPattern(domain) && NoBraces(domain)
    ensures RequestsTo(FetchSpec(f, camera, imagePath, net, sleep).events,
                       "http://" + camera + "." + domain + "/snap.jpeg", f.httpTimeout)
  {
    var url := "http://" + camera + "." + domain + "/snap.jpeg";
    Config.UrlForCamera(domain, camera);
    assert FetchSpec(f, camera, imagePath, net, sleep) == Attempts(f, camera, imagePath, url, net, sleep, 0);
    RequestsCarryUrl(f, camera, imagePath, url, net, sleep, 0);
  }

  /** Every request among `events` goes to `url` with the given timeout. */
  predicate RequestsTo(events: seq<Event>, url: string, timeout: int)
  {
    forall p :: 0 <= p < |events| && events[p].Request? ==> events[p].url == url && events[p].timeout == timeout
  }

  /** In the events of one attempt, only the first is a request. */
  predicate OneRequest(es: seq<Event>, request: Event)
  {
    |es| >= 1 && es[0] == request && forall p :: 1 <= p < |es| ==> !es[p].Request?
  }

  lemma FailureOneRequest(f: CameraImageFetcher, camera: string, imagePath: string, url: string,
                          o: AttemptOutcome, k: nat)
    ensures OneRequest(Failure(f, camera, imagePath, url, o, k), Request(k, url, f.httpTimeout))
  {
    var left := Leftover(imagePath, camera, o);
    var es := Failure(f, camera, imagePath, url, o, k);
    if left == [] {
      assert es == [Request(k, url, f.httpTimeout), RetrySleep(f.retryDelay)];
    } else {
      assert es == [Request(k, url, f.httpTimeout), left[0], RetrySleep(f.retryDelay)];
    }
  }

  /** Every request of the loop goes to the formatted URL with the configured timeout. */
  lemma {:induction false} RequestsCarryUrl(f: CameraImageFetcher, camera: string, imagePath: string, url: string,
                                            net: nat -> AttemptOutcome, sleep: nat -> SleepOutcome, k: nat)
    ensures RequestsTo(Attempts(f, camera, imagePath, url, net, sleep, k).events, url, f.httpTimeout)
    decreases Budget(f, k)
  {
    var run := Attempts(f, camera, imagePath, url, net, sleep, k);
    if k < f.maxRetries {
      var request := Request(k, url, f.httpTimeout);
      if !Raised(net(k)) {
        assert OneRequest(run.events, request);
      } else {
        var failure := Failure(f, camera, imagePath, url, net(k), k);
        FailureOneRequest(f, camera, imagePath, url, net(k), k);
        if sleep(k) == Slept {
          RequestsCarryUrl(f, camera, imagePath, url, net, sleep, k + 1);
          var rest := Attempts(f, camera, imagePath, url, net, sleep, k + 1).events;
          assert run.events == failure + rest;
          forall p | 0 <= p < |run.events| && run.events[p].Request?
            ensures run.events[p].url == url && run.events[p].timeout == f.httpTimeout
          {
            if p >= |failure| {
              var q := p - |failure|;
              assert run.events[p] == rest[q];
              assert 0 <= q < |rest| && rest[q].Request?;
            } else {
              assert run.events[p] == failure[p];
            }
          }
        }
      }
    }
  }
}
