# unifi-timelapse, modelled in Dafny

unifi-timelapse has two parts:

- `unifi-timelapse.py` fetches a JPEG snapshot from each UniFi camera every fetch
  interval, retrying failed requests, and stores it under `root/camera/YYYY/MM/DD`.
- `create_timelapse.py` turns one camera's images of a past day into an MP4 with ffmpeg.

Both are configured by `config.py` from environment variables.

This project models the sequential logic under the asyncio, HTTP and file plumbing:

- the configuration: defaults, the comma-split camera list, the URL template, the integer
  settings and the upper-cased logging level;
- the path, file-name, URL and glob builders;
- the per-camera retry loop `fetch_and_save_image`;
- the `run` cycle: one day directory and one fetch per camera, then a sleep for what is
  left of the interval;
- the planning half of `create_timelapse`.

The outside world enters as parameters:

- the environment is a map;
- `datetime.now()` is a date, or a time in integer milliseconds;
- the file system is the set of existing directories;
- each fetch attempt's outcome and each retry sleep's outcome are functions of the attempt
  number;
- the endless `while True` loop runs over a finite sequence of per-cycle inputs.

Modules:

- `Text`: `str.split`, `str.join`, ASCII `str.upper`, and `str(n)`, `int(s)` and zero padding.
- `Calendar`: `datetime.date`, years 1 to 9999, with `timedelta` day arithmetic that fails
  with `OverflowError` outside that range.
- `Template`: the `str.format(camera_name=...)` subset.
- `Paths`: POSIX `os.path.join`, `strftime` fields, `os.makedirs` on a set of directories,
  and the glob matcher ffmpeg applies.
- `Config`, `Fetcher`, `Scheduler` and `Timelapse`: the four parts of the program.

The retry loop and the run loop are imperative methods. Each is proved equal to a
recursive specification function, and the lemmas are stated about that function.

A response whose status is not 200 is logged and ends the fetch at unifi-timelapse.py:67.
It is not retried, and no retry sleep follows it (`Fetcher.BadStatusNotRetried`,
`Fetcher.ServiceUnavailableEndsFetch`). Only an exception leads to another attempt.

Further details the model follows:

- The HTTP timeout is read from `UNIFI_TIMELAPSE_HTTP_TIMEOUT`, not from a variable named
  after the setting `UNIFI_TIMELAPSE_FETCH_HTTP_TIMEOUT`.
- A retry sleep follows every raised attempt, the last one included.
- `create_timelapse` builds its paths with f-strings, while the fetcher uses
  `os.path.join`. The two agree only under a non-empty root without a trailing slash
  (`Timelapse.ReadsWhereFetcherWrites`). With an empty image root they part ways: the
  fetcher writes under the relative `camera/YYYY/MM/DD`, while `create_timelapse` reads
  the absolute `/camera/YYYY/MM/DD` (`Timelapse.EmptyRootDiverges`).
- `aiofiles.open` creates the snapshot file before `f.write` runs. A write that raises or
  is cancelled leaves that file behind with unknown contents. A write that raises is then
  retried. When the retry's clock reading falls in another whole second, one fetch leaves
  an incomplete file and a complete one (`Fetcher.UnfinishedFileThenSaved`). Both are
  snapshot paths of the day directory, and the ffmpeg input pattern selects every such
  path (`Timelapse.GlobMatchesSnapshots`). In the same second the retry reopens the first
  file with `"wb"` and only one file remains.
- A shutdown that arrives while `run` awaits `asyncio.gather` ends `run` with the
  `CancelledError`; one that arrives during the end-of-cycle sleep ends it at the `break`.

## Model

| member | source | states |
|---|---|---|
| Config.GetEnv | config.py:5-26 | `os.getenv(key, default)`: the value when the variable is set, the default otherwise |
| Config.Load | config.py:5-46 | the module's top-level reads, in source order: the split camera list, domain, URL pattern, both roots, the four `int()` settings (the first that fails to parse is the error) and the upper-cased level |
| Config.Cameras | config.py:5-8 | the camera variable, or the default text, split at every comma |
| Config.UrlPattern | config.py:14-16 | the f-string `http://{camera_name}.` + domain + `/snap.jpeg`, with the doubled braces left as one field |
| Config.IntSetting | config.py:30-40 | `int(os.getenv(key, default))`: the default when unset, the parsed value, or an error naming the variable and its text |
| Config.DefaultCamerasJoined | config.py:7 | the default camera text is the seven default names joined with commas, in order |
| Config.DefaultCameras | config.py:5-8 | with the variable unset, the camera list is exactly the seven default names in order |
| Config.DefaultSettings | config.py:5-46 | with an empty environment every setting takes its default: interval 60, retries 3, delay 5, timeout 10, level `INFO` |
| Config.DefaultLevel | config.py:44-46 | the default level is already upper case |
| Config.DefaultUrl | config.py:12-16 | the default pattern is `http://{camera_name}.tylephony.com/snap.jpeg`, with the doubled braces left as one field |
| Config.CamerasSplitText | config.py:5-8 | the camera list has one name more than the text has commas, no name holds a comma, and joining with commas gives the text back |
| Config.EmptyCameraVariable | config.py:5-8 | an empty variable gives one empty camera name, not an empty list |
| Config.LoadSucceeds | config.py:30-40 | loading succeeds iff each of the four integer variables is absent or an integer numeral |
| Config.LoadError | config.py:30-40 | a failed load reports the first integer variable in source order whose text is not a numeral, with that text |
| Config.LoadReadsOnlyKeys | config.py:5-46 | changing a variable outside the nine read ones changes nothing |
| Config.TextSettingsUnchanged | config.py:5-26 | the text settings do not depend on other variables |
| Config.IntSettingsUnchanged | config.py:30-40 | the integer settings do not depend on other variables |
| Config.HttpTimeoutVariable | config.py:40 | the timeout is the parsed `UNIFI_TIMELAPSE_HTTP_TIMEOUT`, or 10 when it is unset |
| Config.FetchHttpTimeoutVariableIgnored | config.py:40 | setting `UNIFI_TIMELAPSE_FETCH_HTTP_TIMEOUT` has no effect on the loaded settings |
| Config.LoggingLevelUpper | config.py:44-46 | the level is the variable (or `INFO`) upper-cased: same length, no lower-case letter left |
| Config.LoggingLevelExample | config.py:44-46 | `debug` loads as `DEBUG` |
| Config.UrlForCamera | config.py:14-16 | formatting the pattern with camera `c` gives `http://` + c + `.` + domain + `/snap.jpeg`, for a domain without braces |
| Text.Join | config.py:7 | `sep.join(parts)`: the pieces with one separator between neighbours; the default camera text is the seven names joined this way |
| Text.Split | config.py:8 | `str.split` always yields at least one piece |
| Text.SplitJoin | config.py:8 | joining the pieces of a split with the separator gives the string back |
| Text.SplitCount | config.py:8 | a split has one piece more than the string has separators |
| Text.SplitPiecesFree | config.py:8 | no piece contains the separator |
| Text.SplitFree | config.py:8 | a string without the separator splits into itself |
| Text.SplitConcat | config.py:8 | a split at a separator between two strings is the two splits concatenated |
| Text.JoinSplit | config.py:7-8 | splitting a join of separator-free pieces gives back the pieces |
| Text.Upper | config.py:46 | same length, no ASCII lower-case letter left, other characters unchanged, lower-case letters shifted to upper case |
| Text.UpperFixed | config.py:46 | a string without lower-case letters is its own upper case |
| Text.UpperIdempotent | config.py:46 | upper-casing twice is upper-casing once |
| Text.NatToString | unifi-timelapse.py:58 | `str(n)` is a digit string without a leading zero that denotes `n` |
| Text.IntToString | unifi-timelapse.py:58 | `str(n)` has a leading `-` exactly for negative `n`, the rest being digits, and no `/` |
| Text.ParseInt | config.py:30 | `int(s)` succeeds iff `s` is one or more ASCII digits with an optional leading `+` or `-`; the value is the digits' value, negated after a `-` |
| Text.ParseIntToString | unifi-timelapse.py:58 | parsing `str(n)` gives `n` back |
| Text.ZeroPad | unifi-timelapse.py:31-35 | a zero-padded field consists of digits |
| Text.ZeroPadDenotes | unifi-timelapse.py:31-35 | a zero-padded field denotes its number and is exactly `width` long when the number fits |
| Text.DigitsConcat | create_timelapse.py:51 | writing digits `b` after digits `a` gives the value of `a` shifted by `len(b)` places plus the value of `b` |
| Calendar.NextDay | create_timelapse.py:10 | the next day's ordinal is one more |
| Calendar.PrevDay | create_timelapse.py:10 | the previous day's ordinal is one less |
| Calendar.AddDays | create_timelapse.py:10 | `d + timedelta(days=n)`, when defined, has ordinal `ordinal(d) + n`; adding 0 days gives `d` |
| Calendar.AddDaysDefined | create_timelapse.py:10 | adding days is defined iff the target ordinal is between 1 and `date.max.toordinal()` |
| Calendar.OrdinalInjective | create_timelapse.py:10 | distinct dates have distinct ordinals |
| Calendar.OrdinalBounds | create_timelapse.py:10 | every representable date has an ordinal in 1..3652059 |
| Calendar.OrdinalLimits | create_timelapse.py:10 | 0001-01-01 has ordinal 1 and 9999-12-31 has ordinal 3652059 |
| Calendar.DaysBeforeYearClosedForm | create_timelapse.py:10 | the days before a year match the leap-year closed form Python's `datetime` uses |
| Template.Format | unifi-timelapse.py:44 | `pattern.format(camera_name=...)`: literal text kept, `{{` and `}}` unescaped, `{camera_name}` replaced, any other field or a lone brace an error |
| Template.FormatLiteral | unifi-timelapse.py:44 | brace-free text passes through `format` unchanged |
| Template.FormatField | unifi-timelapse.py:44 | `{camera_name}` is replaced by the camera name |
| Template.FormatOneField | unifi-timelapse.py:44 | a pattern with one field between brace-free texts formats to the texts around the camera name |
| Template.FirstClose | unifi-timelapse.py:44 | the field scan finds the first `}` |
| Paths.PathJoin | unifi-timelapse.py:36 | POSIX `os.path.join` of two parts: an absolute part restarts, otherwise one `/` is inserted unless the base is empty or ends in `/` |
| Paths.PathJoinAll | unifi-timelapse.py:36 | `os.path.join` of a base and several parts, joined left to right |
| Paths.Year | unifi-timelapse.py:32 | `strftime("%Y")`: the year zero-padded to four digits |
| Paths.Month | unifi-timelapse.py:33 | `strftime("%m")`: the month zero-padded to two digits |
| Paths.Day | unifi-timelapse.py:34 | `strftime("%d")`: the day zero-padded to two digits |
| Paths.Parents | unifi-timelapse.py:38 | the intermediate directories `os.makedirs` creates: every non-empty prefix of the path that ends just before a `/` |
| Paths.GlobMatch | create_timelapse.py:37-40 | the glob ffmpeg applies to the input pattern: literal characters match themselves and `*` matches a run without `/` |
| Paths.JoinComponent | unifi-timelapse.py:36 | joining a component onto a path without a trailing slash inserts exactly one `/` and adds one segment |
| Paths.JoinAbsolute | unifi-timelapse.py:36 | an absolute component discards the path before it |
| Paths.PathJoinAllComponents | unifi-timelapse.py:36 | joining components onto a base adds exactly those segments |
| Paths.DateFieldsDenote | unifi-timelapse.py:31-35 | for years from 1000, `%Y`, `%m` and `%d` are four, two and two digits that denote the year, month and day |
| Paths.DateFieldsAreComponents | unifi-timelapse.py:31-35 | the date fields contain no `/` and are non-empty |
| Paths.EnsureDir | unifi-timelapse.py:37-38 | afterwards the path exists, nothing disappears, only the path and its parents appear, and nothing changes when the path existed |
| Paths.EnsureDirIdempotent | unifi-timelapse.py:37-38 | ensuring a directory twice is ensuring it once |
| Paths.EnsureDirCreatesParents | unifi-timelapse.py:37-38 | `os.makedirs` creates every missing parent |
| Paths.GlobLiteralPrefix | create_timelapse.py:37-40 | a literal pattern prefix must match the same prefix of the name |
| Paths.GlobLiteral | create_timelapse.py:37-40 | a pattern without `*` matches only itself |
| Paths.GlobStarSuffix | create_timelapse.py:37-40 | `*suffix` matches exactly the names ending in the suffix after a run without `/` |
| Paths.GlobPrefixStarSuffix | create_timelapse.py:37-40 | `prefix*suffix` matches iff the name is prefix, a run without `/`, then suffix |
| Fetcher.FromSettings | unifi-timelapse.py:19-26 | the constructor copies cameras, image root, interval, URL pattern, retries and retry delay from the settings, and the HTTP timeout read at line 45 |
| Fetcher.ImageDirectory | unifi-timelapse.py:30-36 | `os.path.join(image_output_path, camera_name, year, month, day)` |
| Fetcher.CreateDirectoryStructure | unifi-timelapse.py:28-40 | returns the `os.path.join` of root, camera and date fields; that directory exists afterwards, nothing disappears, only it and its parents appear, and nothing changes when it existed |
| Fetcher.CreateDirectoryIdempotent | unifi-timelapse.py:37-40 | creating the day's directory again yields the same path and directories |
| Fetcher.ImageDirectoryLayout | unifi-timelapse.py:30-36 | under a root without a trailing slash, the directory is root/camera/YYYY/MM/DD with single slashes |
| Fetcher.ImageDirectorySegments | unifi-timelapse.py:30-36 | the directory's segments are the root's, then the camera and the three date fields |
| Fetcher.SnapshotName | unifi-timelapse.py:58 | `f"{camera_name}_{int(timestamp)}.jpg"` from the clock reading at the time the body arrived |
| Fetcher.SnapshotPath | unifi-timelapse.py:58-59 | `os.path.join(image_path, filename)` |
| Fetcher.TruncSeconds | unifi-timelapse.py:58 | `int()` of the timestamp truncates toward zero to whole seconds, for times before and after 1970 |
| Fetcher.SnapshotNameTimestamp | unifi-timelapse.py:58 | the snapshot name is camera, `_`, a numeral and `.jpg`, and the numeral parses back to the whole seconds |
| Fetcher.SnapshotNameComponent | unifi-timelapse.py:58 | for a camera name without `/`, the snapshot name is one path component |
| Fetcher.SnapshotPathLayout | unifi-timelapse.py:58-59 | the file is saved as image path, `/`, camera, `_`, the seconds and `.jpg`, one segment below the image directory |
| Fetcher.TryAttempt | unifi-timelapse.py:48-83 | the `try` block of one attempt raises exactly when the outcome is a logged exception, after its request and any file it opened; otherwise it ends the fetch as `Settle` says |
| Fetcher.Settle | unifi-timelapse.py:50-71 | an attempt that did not raise makes one request and ends: saved, with one write of the received body to the snapshot path, iff status 200, non-empty body and completed write; bad status iff not 200; empty body iff an empty 200; cancelled iff cancelled in the request, the open or the write; a cancelled write leaves the opened file behind |
| Fetcher.Leftover | unifi-timelapse.py:60-61 | the file an attempt leaves behind: the snapshot it opened when the write then raised or was cancelled, and nothing otherwise |
| Fetcher.Failure | unifi-timelapse.py:72-86 | an attempt that raised: its request, the file it may have left, then one `retry_delay` sleep |
| Fetcher.Attempts | unifi-timelapse.py:47-92 | the loop from attempt `k` on: stop at `max_retries`; an attempt that does not raise settles; one that raises leaves its request, any opened file and a retry sleep, then stops if the sleep was cancelled and goes on otherwise |
| Fetcher.FetchSpec | unifi-timelapse.py:42-92 | format the URL (a failure ends the fetch with no request), then run the attempts from 0 |
| Fetcher.FetchAndSaveImage | unifi-timelapse.py:42-92 | the `for attempt in range(max_retries)` loop produces exactly the run of the recursive specification |
| Fetcher.AttemptsCounts | unifi-timelapse.py:47-92 | from attempt `k`, at most `len(range(k, max_retries))` requests, one complete write iff saved, at most one unfinished file per request, and one retry sleep per request except after a final attempt that did not raise |
| Fetcher.FailuresCounts | unifi-timelapse.py:72-86 | `k` failed attempts are `k` requests numbered in order, each followed by one `retry_delay` sleep, with no complete write and at most one unfinished file each |
| Fetcher.ConsecutiveFailures | unifi-timelapse.py:72-86 | a run of failed attempts is followed by the loop from the next attempt |
| Fetcher.FirstStop | unifi-timelapse.py:47-92 | the first attempt that does not fail lies between the start and `max_retries` |
| Fetcher.FirstStopFailures | unifi-timelapse.py:47-92 | all attempts before the first stop fail, and the stop itself does not |
| Fetcher.RunShape | unifi-timelapse.py:47-92 | every fetch is a run of failed attempts followed by what the first non-failing attempt does |
| Fetcher.FetchCounts | unifi-timelapse.py:47-92 | at most `max_retries` requests numbered from 0, none when it is not positive or the URL cannot be formatted; at most one complete write, exactly when saved; at most one unfinished file per request; sleeps equal requests, minus one unless the last attempt was followed by a sleep |
| Fetcher.BadStatusNotRetried | unifi-timelapse.py:63-67 | after `k` failures a non-200 status ends the fetch: `k + 1` requests, `k` sleeps, no write |
| Fetcher.ServiceUnavailableEndsFetch | unifi-timelapse.py:63-67 | a first 503 is final even if a second attempt would have succeeded |
| Fetcher.SavedAfterFailures | unifi-timelapse.py:50-62 | after `k` failures a non-empty 200 whose write completes writes exactly the received bytes, once, to the snapshot path, and ends the loop |
| Fetcher.UnfinishedFileThenSaved | unifi-timelapse.py:58-86 | a write that raises after the open leaves the opened file; the retry that follows writes the body to the snapshot path of its own reading and the fetch ends saved; the two files have different paths iff the readings differ in the whole second |
| Fetcher.WriteCancelLeavesFile | unifi-timelapse.py:60-71 | a cancellation during the write ends the fetch without a sleep and leaves the opened file behind |
| Fetcher.DistinctSeconds | unifi-timelapse.py:58-61 | two snapshots of one camera, in a directory without a trailing slash, go to the same path iff they were taken in the same whole second |
| Fetcher.EmptyBodyNotSaved | unifi-timelapse.py:52-56 | an empty 200 ends the fetch without a write or a sleep |
| Fetcher.AllAttemptsFail | unifi-timelapse.py:72-86 | when every attempt raises, there are `max_retries` requests and as many sleeps, the last attempt included |
| Fetcher.SleepCancelStops | unifi-timelapse.py:87-92 | a cancelled retry sleep after attempt `k` stops all further attempts |
| Fetcher.RequestCancelStops | unifi-timelapse.py:69-71 | a cancellation during a request ends the fetch with no write and no sleep |
| Fetcher.FailuresAppend | unifi-timelapse.py:72-86 | one more failed attempt appends one request and one sleep |
| Fetcher.RequestUrl | unifi-timelapse.py:44-49 | with the configured pattern, every request goes to `http://camera.domain/snap.jpeg` with the configured timeout |
| Fetcher.RequestsCarryUrl | unifi-timelapse.py:45-49 | every request of the loop uses the formatted URL and the timeout |
| Scheduler.SleepMillis | unifi-timelapse.py:115-116 | the sleep is never negative, zero iff the elapsed time reached the interval, and otherwise makes elapsed plus sleep equal the interval |
| Scheduler.SleepAtMostInterval | unifi-timelapse.py:115-116 | a cycle that did not run backwards sleeps at most the interval |
| Scheduler.DayDirectories | unifi-timelapse.py:100-101 | the day directory of each camera, in list order, for the date it saw |
| Scheduler.Provision | unifi-timelapse.py:100-101 | the directories after the exists-or-makedirs of each day directory in turn |
| Scheduler.Tasks | unifi-timelapse.py:102-105 | the task list: task `i` pairs camera `i` with directory `i` |
| Scheduler.Fetches | unifi-timelapse.py:108 | the fetches `gather` waits for: task `k` runs with camera `k`'s outcomes |
| Scheduler.SleepAsked | unifi-timelapse.py:108-116 | no sleep when the gather was cancelled, otherwise `max(0, interval - elapsed)` |
| Scheduler.CycleSpec | unifi-timelapse.py:98-125 | one pass of the loop body: the tasks in camera order, their fetches, the sleep asked for (none when the gather was cancelled) and the directories after |
| Scheduler.RunCycle | unifi-timelapse.py:98-125 | one pass of the loop body produces exactly the specified cycle, with no sleep when the gather was cancelled |
| Scheduler.PrepareTasks | unifi-timelapse.py:100-105 | one task per camera in list order, each with that camera's day directory, and the directories after ensuring each in turn |
| Scheduler.Gather | unifi-timelapse.py:108 | task `k` runs the fetch of its camera and directory with that camera's outcomes |
| Scheduler.ProvisionKeeps | unifi-timelapse.py:100-101 | ensuring the day directories removes nothing and leaves every one of them in place |
| Scheduler.ProvisionCreatesOnly | unifi-timelapse.py:100-101 | every new directory is one of the day directories or a parent of one |
| Scheduler.ProvisionStable | unifi-timelapse.py:100-101 | ensuring directories that all exist changes nothing |
| Scheduler.CycleFansOut | unifi-timelapse.py:100-108 | a cycle starts exactly one fetch per camera, in list order, into that camera's existing day directory with its own outcomes; no directory disappears; it asks for a sleep of `max(0, interval - elapsed)` iff the gather was not cancelled |
| Scheduler.CycleCreatesOnlyDayDirectories | unifi-timelapse.py:100-101 | every directory a cycle creates is a task's directory or a parent of one |
| Scheduler.RepeatedCycleCreatesNothing | unifi-timelapse.py:100-101 | a second cycle on the same dates creates nothing and builds the same tasks |
| Scheduler.CycleRequestBound | unifi-timelapse.py:102-108 | per camera and cycle: at most `max_retries` requests and at most one write |
| Scheduler.Loop | unifi-timelapse.py:97-128 | the `while True` loop for a given body: it leaves after the first cycle whose gather or sleep was cancelled, and goes on after every other |
| Scheduler.RunSpec | unifi-timelapse.py:97-128 | the loop with the cycle body of `run` |
| Scheduler.Run | unifi-timelapse.py:97-128 | the `while` loop, with its exits by a cancelled gather and by the `break` after a cancelled sleep, produces exactly the specified report |
| Scheduler.RunStops | unifi-timelapse.py:124-128 | the loop stops iff a cycle's gather or sleep is cancelled, after that cycle; every earlier cycle slept to the end; a cycle cancelled in the gather asks for no sleep; otherwise it runs every cycle |
| Scheduler.RunThreadsDirectories | unifi-timelapse.py:97-101 | cycle `i` runs on the directories cycle `i - 1` left |
| Scheduler.RunEndsWithLastDirectories | unifi-timelapse.py:97-128 | the loop ends with the last cycle's directories |
| Scheduler.RunKeepsDirectories | unifi-timelapse.py:97-128 | no directory disappears while the loop runs |
| Timelapse.ImagePath | create_timelapse.py:16 | `f"{image_root}/{camera_name}/{YYYY}/{MM}/{DD}"` |
| Timelapse.VideoPath | create_timelapse.py:17 | `f"{video_root}/{YYYY}/{MM}/{camera_name}"` |
| Timelapse.InputGlob | create_timelapse.py:40 | `f"{image_path}/{camera_name}_*.jpg"` |
| Timelapse.DateStamp | create_timelapse.py:51 | the year, month and day fields written one after another |
| Timelapse.OutputFile | create_timelapse.py:51 | `f"{video_path}/{camera_name}_{YYYYMMDD}.mp4"` |
| Timelapse.TargetDate | create_timelapse.py:10 | the date `days_ago` days back exists iff its ordinal is in range, and then lies exactly that many days before today; 0 gives today |
| Timelapse.CreateTimelapse | create_timelapse.py:9-20 | on success the video directory exists, nothing disappears, only it and its parents appear, and nothing changes when it existed |
| Timelapse.TimelapseDate | create_timelapse.py:10-14 | the call gets past the date arithmetic iff the target is in years 1 to 9999, and its date is then the unique date `days_ago` days before today |
| Timelapse.TimelapseToday | create_timelapse.py:10-14 | `days_ago = 0` selects today |
| Timelapse.ReadsWhereFetcherWrites | create_timelapse.py:16 | the image path equals the fetcher's `os.path.join` directory for that camera and date, for a root without a trailing slash |
| Timelapse.EmptyRootDiverges | create_timelapse.py:16 | with an empty image root the fetcher's directory is the relative `camera/YYYY/MM/DD`, the f-string path starts with an empty segment, and the two differ |
| Timelapse.GlobSelects | create_timelapse.py:40 | the input pattern matches iff the name is the image directory, `/camera_`, a run without `/`, then `.jpg` |
| Timelapse.GlobMatchesSnapshots | create_timelapse.py:40 | every snapshot path the fetcher produces in the image directory matches the input pattern |
| Timelapse.VideoPathSegments | create_timelapse.py:17 | the video directory is the root's segments, then the year, the month and the camera: date before camera |
| Timelapse.DateStampValue | create_timelapse.py:51 | for years from 1000, the date stamp is eight digits worth `year * 10000 + month * 100 + day` |
| Timelapse.OutputFileInVideoDirectory | create_timelapse.py:51 | the output file is one segment below the video directory: camera, `_`, the stamp and `.mp4` |
| Timelapse.TimelapseRepeatable | create_timelapse.py:19-20 | a second call for the same camera and date finds the video directory and changes nothing |

## Left out

- asyncio concurrency: `create_task` and `gather` are modelled as running the fetches one after another in list order. The one exception a modelled fetch raises, the exception of a URL pattern that cannot be formatted (`KeyError`, `IndexError`, `ValueError`, `AttributeError`, ...), is the `UrlFormatFailed` ending; `gather` collects it and the cycle goes on. A shutdown during the gather is a cycle input; the model does not force the fetches of that cycle to end cancelled.
- Signal handling, the `shutdown` coroutine, `cleanup`, `main` and argument parsing: they are process and session plumbing.
- Logging: every `logging` call is left out, including the report of task exceptions after `gather` and the next-fetch-time message with its `strftime`.
- HTTP and file I/O: the session, the request, the response and the file write become the attempt outcomes; `os.path.exists` and `os.makedirs` act on a set of directory paths without normalisation (`a/./b` and `a/b` are different entries).
- The docker/ffmpeg run and the `shutil.rmtree` of the image directory: they are external commands.
- Scheduler.Run: the `while True` loop runs over a finite sequence of cycle inputs; the infinite run is the limit of these prefixes.
- Scheduler.Run: an exception from `os.makedirs` (a permission error, say) leaves `run` and reaches the handler in `main`; the directory set model has no failing `makedirs`, so this exit is not modelled.
- Scheduler.SleepMillis: the clock is read in integer milliseconds, not as the float `total_seconds()`.
- Fetcher.TruncSeconds: the timestamp is the integer millisecond reading, not a float.
- Fetcher.DistinctSeconds: the model has no file contents, so that a second `"wb"` open of the same path replaces the first file is not modelled.
- Fetcher.FromSettings: the HTTP timeout, which the source reads from the configuration at each fetch, is a field of the fetcher; the configuration does not change while the program runs.
- Text.ParseInt: `int()` accepts only an optional sign and ASCII digits, not the surrounding whitespace, underscores or other Unicode digits Python also accepts.
- Text.Upper: only ASCII letters are upper-cased; other letters Python would change are left as they are.
- Template.Format: only `{camera_name}`, `{{` and `}}` are modelled; conversions, format specs, attribute access and indexing in fields are reported as an unknown field.
- Paths.GlobMatch: only `*` is a wildcard; `?`, `[...]` and the rule that `*` skips a leading dot are not modelled, and the properties about the pattern assume no `*` in the root or the camera name.
- Paths.DateFieldsDenote: stated only for years from 1000; the `%Y` rendering of earlier years depends on the C library, and the model pads it to four digits.
- Config.DEFAULT_CAMERAS: the literal of config.py:7 is written broken after each comma, as a concatenation of seven shorter literals; the verifier does not compare a literal this long character by character.
