/**
 * `create_timelapse(days_ago, camera_name)` (create_timelapse.py): the date `days_ago`
 * days before today, the image directory it reads, the video directory it creates when
 * missing, the ffmpeg input pattern and the output file name. The clock reading and the
 * existing directories are parameters; running ffmpeg and deleting the images are not
 * part of the model.
 */
module Timelapse {
  import opened Wrappers
  import opened Text
  import opened Calendar
  import opened Paths
  import Config
  import Fetcher

  /** `datetime.now() - timedelta(days=days_ago)` raised `OverflowError`. */
  datatype TimelapseError = DateOutOfRange

  /** What one call prepares before handing over to ffmpeg. */
  datatype Plan = Plan(
    date: ValidDate,
    imagePath: string,
    videoPath: string,
    inputGlob: string,
    outputFile: string,
    dirs: set<string>)

  /** The date `days_ago` days before `today`, when it is representable. */
  function TargetDate(today: ValidDate, daysAgo: int): (r: Option<ValidDate>)
    ensures r.Some? <==> 1 <= Ordinal(today) - daysAgo <= MAX_ORDINAL
    ensures r.Some? ==> Ordinal(r.value) == Ordinal(today) - daysAgo
    ensures daysAgo == 0 ==> r == Some(today)
  {
    AddDaysDefined(today, -daysAgo);
    AddDays(today, -daysAgo)
  }

  /** `f"{image_root}/{camera_name}/{date_year}/{date_month}/{date_day}"`. */
  function ImagePath(root: string, camera: string, date: ValidDate): string
  {
    root + "/" + camera + "/" + Year(date) + "/" + Month(date) + "/" + Day(date)
  }

  /** `f"{video_root}/{date_year}/{date_month}/{camera_name}"`: the date comes before the camera. */
  function VideoPath(root: string, camera: string, date: ValidDate): string
  {
    root + "/" + Year(date) + "/" + Month(date) + "/" + camera
  }

  /** The ffmpeg input pattern `f"{image_path}/{camera_name}_*.jpg"`. */
  function InputGlob(imagePath: string, camera: string): string
  {
    imagePath + "/" + camera + "_*.jpg"
  }

  /** `f"{date_year}{date_month}{date_day}"`. */
  function DateStamp(date: ValidDate): string
  {
    Year(date) + Month(date) + Day(date)
  }

  /** `f"{video_path}/{camera_name}_{date_year}{date_month}{date_day}.mp4"`. */
  function OutputFile(videoPath: string, camera: string, date: ValidDate): string
  {
    videoPath + "/" + camera + "_" + DateStamp(date) + ".mp4"
  }

  /**
   * `create_timelapse(days_ago, camera_name)` up to the ffmpeg run, with the settings `s`,
   * the directories `dirs` and the date `today` that `datetime.now()` returns.
   */
  function CreateTimelapse(s: Config.Settings, dirs: set<string>, today: ValidDate, daysAgo: int,
                           camera: string): (r: Result<Plan, TimelapseError>)
    ensures r.Ok? ==> r.value.videoPath in r.value.dirs && dirs <= r.value.dirs
    ensures r.Ok? ==> r.value.dirs - dirs <= Parents(r.value.videoPath) + {r.value.videoPath}
    ensures r.Ok? && r.value.videoPath in dirs ==> r.value.dirs == dirs
  {
    match TargetDate(today, daysAgo)
    case None => Err(DateOutOfRange)
    case Some(date) =>
      var image := ImagePath(s.imageOutputPath, camera, date);
      var video := VideoPath(s.videoOutputPath, camera, date);
      Ok(Plan(date, image, video, InputGlob(image, camera), OutputFile(video, camera, date),
              EnsureDir(dirs, video)))
  }

  /**
   * The call gets past the date arithmetic exactly when the date `days_ago` days back is in
   * years 1 to 9999, and that date is then exactly `days_ago` days before today: the one
   * date with that ordinal.
   */
  lemma TimelapseDate(s: Config.Settings, dirs: set<string>, today: ValidDate, daysAgo: int, camera: string,
                      d: ValidDate)
    ensures var r := CreateTimelapse(s, dirs, today, daysAgo, camera);
      (r.Ok? <==> 1 <= Ordinal(today) - daysAgo <= MAX_ORDINAL)
      && (r.Ok? ==> Ordinal(r.value.date) == Ordinal(today) - daysAgo)
      && (r.Ok? ==> (r.value.date == d <==> Ordinal(d) == Ordinal(today) - daysAgo))
  {
    var r := CreateTimelapse(s, dirs, today, daysAgo, camera);
    if r.Ok? && r.value.date != d {
      OrdinalInjective(r.value.date, d);
    }
  }

  /** With `days_ago = 0` the video is for today. */
  lemma TimelapseToday(s: Config.Settings, dirs: set<string>, today: ValidDate, camera: string)
    ensures CreateTimelapse(s, dirs, today, 0, camera).Ok?
    ensures CreateTimelapse(s, dirs, today, 0, camera).value.date == today
  {
  }

  /**
   * The video builder reads the directory the fetcher writes to on the same date: under an
   * image root without a trailing slash and for a camera name without one, the f-string
   * path and the fetcher's `os.path.join` path are the same string.
   */
  lemma ReadsWhereFetcherWrites(s: Config.Settings, dirs: set<string>, fetched: set<string>, today: ValidDate,
                                daysAgo: int, camera: string)
    requires Base(s.imageOutputPath) && Component(camera)
    requires CreateTimelapse(s, dirs, today, daysAgo, camera).Ok?
    ensures var plan := CreateTimelapse(s, dirs, today, daysAgo, camera).value;
      plan.imagePath == Fetcher.CreateDirectoryStructure(Fetcher.FromSettings(s), fetched, camera, plan.date).path
  {
    var plan := CreateTimelapse(s, dirs, today, daysAgo, camera).value;
    Fetcher.ImageDirectoryLayout(s.imageOutputPath, camera, plan.date);
  }

  /**
   * With an empty image root the two sides part ways: the fetcher joins the camera onto
   * nothing and writes under the relative `camera/YYYY/MM/DD`, while the timelapse reads
   * the absolute `/camera/YYYY/MM/DD`, whose first segment is empty.
   */
  lemma EmptyRootDiverges(camera: string, date: ValidDate)
    requires Component(camera)
    ensures Split(Fetcher.ImageDirectory("", camera, date), '/') == [camera, Year(date), Month(date), Day(date)]
    ensures Split(ImagePath("", camera, date), '/')[0] == []
    ensures ImagePath("", camera, date) != Fetcher.ImageDirectory("", camera, date)
  {
    assert Split(Fetcher.ImageDirectory("", camera, date), '/') == [camera, Year(date), Month(date), Day(date)] by {
      DateFieldsAreComponents(date);
      var dateParts := [Year(date), Month(date), Day(date)];
      assert [camera] + dateParts == [camera, Year(date), Month(date), Day(date)];
      assert PathJoin("", camera) == camera by {
        assert camera[0] in camera;
      }
      assert Fetcher.ImageDirectory("", camera, date) == PathJoinAll(camera, dateParts) by {
        assert [camera, Year(date), Month(date), Day(date)][1..] == dateParts;
      }
      assert Base(camera) by {
        assert camera[|camera| - 1] in camera;
      }
      assert forall i :: 0 <= i < |dateParts| ==> Component(dateParts[i]);
      PathJoinAllComponents(camera, dateParts);
      SplitFree(camera, '/');
    }
    assert Split(ImagePath("", camera, date), '/')[0] == [] by {
      var p := ImagePath("", camera, date);
      assert p[0] == '/';
      assert Split(p, '/') == [[]] + Split(p[1..], '/');
    }
  }

  /** The image directory ends in a date field, so it is a base for joining. */
  lemma ImagePathBase(root: string, camera: string, date: ValidDate)
    ensures Base(ImagePath(root, camera, date))
  {
    DateFieldsAreComponents(date);
    var day := Day(date);
    var p := ImagePath(root, camera, date);
    assert p[|p| - 1] == day[|day| - 1];
    assert day[|day| - 1] in day;
  }

  /** No `*` in the image directory when there is none in the root or the camera name. */
  lemma ImagePathNoStar(root: string, camera: string, date: ValidDate)
    requires NoStar(root) && NoStar(camera)
    ensures NoStar(ImagePath(root, camera, date) + "/" + camera + "_")
  {
    DigitsNoStar(Year(date));
    DigitsNoStar(Month(date));
    DigitsNoStar(Day(date));
  }

  lemma DigitsNoStar(s: string)
    requires AllDigits(s)
    ensures NoStar(s)
  {
    forall i | 0 <= i < |s| ensures s[i] != '*' {
      assert IsDigit(s[i]);
    }
  }

  /**
   * The input pattern matches exactly the names in the image directory made of the camera
   * name, `_`, a run of characters without `/`, and `.jpg` (with no `*` in the root or the
   * camera name, which the pattern would otherwise read as wildcards).
   */
  lemma GlobSelects(imageRoot: string, camera: string, date: ValidDate, t: string)
    requires NoStar(imageRoot) && NoStar(camera)
    ensures var dir := ImagePath(imageRoot, camera, date);
      GlobMatch(InputGlob(dir, camera), t) <==> Framed(t, dir + "/" + camera + "_", ".jpg")
  {
    var dir := ImagePath(imageRoot, camera, date);
    var prefix := dir + "/" + camera + "_";
    ImagePathNoStar(imageRoot, camera, date);
    assert InputGlob(dir, camera) == prefix + "*" + ".jpg";
    GlobPrefixStarSuffix(prefix, ".jpg", t);
  }

  /**
   * Every snapshot the fetcher saves in the image directory matches the input pattern, for
   * a camera name without `/` or `*` and a root without `*`.
   */
  lemma GlobMatchesSnapshots(imageRoot: string, camera: string, date: ValidDate, millis: int)
    requires NoStar(imageRoot) && NoStar(camera) && '/' !in camera
    ensures var dir := ImagePath(imageRoot, camera, date);
      GlobMatch(InputGlob(dir, camera), Fetcher.SnapshotPath(dir, camera, millis))
  {
    var dir := ImagePath(imageRoot, camera, date);
    var prefix := dir + "/" + camera + "_";
    var digits := IntToString(Fetcher.TruncSeconds(millis));
    var name := Fetcher.SnapshotName(camera, millis);
    var t := Fetcher.SnapshotPath(dir, camera, millis);
    ImagePathBase(imageRoot, camera, date);
    Fetcher.SnapshotNameComponent(camera, millis);
    JoinComponent(dir, name);
    assert t == prefix + digits + ".jpg";
    assert t[..|prefix|] == prefix;
    assert t[|t| - 4..] == ".jpg";
    assert t[|prefix|..|t| - 4] == digits;
    GlobSelects(imageRoot, camera, date, t);
  }

  /** The video directory's segments are the root's, then the year, the month and the camera. */
  lemma VideoPathSegments(root: string, camera: string, date: ValidDate)
    requires Base(root) && Component(camera)
    ensures Split(VideoPath(root, camera, date), '/') == Split(root, '/') + [Year(date), Month(date), camera]
  {
    DateFieldsAreComponents(date);
    var parts := [Year(date), Month(date), camera];
    assert forall i :: 0 <= i < |parts| ==> Component(parts[i]);
    PathJoinAllComponents(root, parts);
    VideoPathJoined(root, camera, date);
  }

  lemma VideoPathJoined(root: string, camera: string, date: ValidDate)
    requires Base(root) && Component(camera)
    ensures VideoPath(root, camera, date) == PathJoinAll(root, [Year(date), Month(date), camera])
  {
    DateFieldsAreComponents(date);
    var a1 := PathJoin(root, Year(date));
    JoinComponent(root, Year(date));
    var a2 := PathJoin(a1, Month(date));
    JoinComponent(a1, Month(date));
    JoinComponent(a2, camera);
    var parts := [Year(date), Month(date), camera];
    assert PathJoinAll(root, parts) == PathJoinAll(a1, parts[1..]);
    assert parts[1..][1..] == [camera];
    assert PathJoinAll(a1, parts[1..]) == PathJoinAll(a2, [camera]);
    assert [camera][1..] == [];
    assert PathJoinAll(a2, [camera]) == PathJoin(a2, camera);
    assert PathJoin(a2, camera) == VideoPath(root, camera, date);
  }

  /** The date stamp is eight digits that read as `year * 10000 + month * 100 + day`. */
  lemma DateStampValue(date: ValidDate)
    requires date.year >= 1000
    ensures |DateStamp(date)| == 8 && AllDigits(DateStamp(date))
    ensures DigitsValue(DateStamp(date)) == date.year * 10000 + date.month * 100 + date.day
  {
    DateFieldsDenote(date);
    var y, m, d := Year(date), Month(date), Day(date);
    DigitsConcat(y, m);
    DigitsConcat(y + m, d);
    assert Pow10(2) == 100;
    assert DigitsValue(y + m) == date.year * 100 + date.month;
  }

  /** The output file is one entry of the video directory: the camera, `_`, the date stamp and `.mp4`. */
  lemma OutputFileInVideoDirectory(root: string, camera: string, date: ValidDate)
    requires Base(root) && Component(camera)
    ensures var video := VideoPath(root, camera, date);
      Split(OutputFile(video, camera, date), '/')
      == Split(video, '/') + [camera + "_" + DateStamp(date) + ".mp4"]
  {
    var video := VideoPath(root, camera, date);
    var name := camera + "_" + DateStamp(date) + ".mp4";
    VideoPathBase(root, camera, date);
    DateStampDigits(date);
    StampedNameComponent(camera, DateStamp(date));
    JoinComponent(video, name);
    assert OutputFile(video, camera, date) == video + "/" + name;
  }

  lemma VideoPathBase(root: string, camera: string, date: ValidDate)
    requires Component(camera)
    ensures Base(VideoPath(root, camera, date))
  {
    var video := VideoPath(root, camera, date);
    assert video[|video| - 1] == camera[|camera| - 1];
    assert camera[|camera| - 1] in camera;
  }

  lemma DateStampDigits(date: ValidDate)
    ensures AllDigits(DateStamp(date))
  {
    DigitsConcat(Year(date), Month(date));
    DigitsConcat(Year(date) + Month(date), Day(date));
  }

  lemma StampedNameComponent(camera: string, stamp: string)
    requires Component(camera) && AllDigits(stamp)
    ensures Component(camera + "_" + stamp + ".mp4")
  {
    var name := camera + "_" + stamp + ".mp4";
    forall i | 0 <= i < |name| ensures name[i] != '/' {
      if i < |camera| {
        assert name[i] == camera[i];
      } else if |camera| < i < |camera| + 1 + |stamp| {
        assert name[i] == stamp[i - |camera| - 1];
        assert IsDigit(stamp[i - |camera| - 1]);
      } else if i > |camera| {
        assert name[i] == ".mp4"[i - |camera| - 1 - |stamp|];
      }
    }
  }

  /** A second call for the same camera and date finds the video directory in place and changes nothing. */
  lemma TimelapseRepeatable(s: Config.Settings, dirs: set<string>, today: ValidDate, daysAgo: int, camera: string)
    requires CreateTimelapse(s, dirs, today, daysAgo, camera).Ok?
    ensures var first := CreateTimelapse(s, dirs, today, daysAgo, camera);
      CreateTimelapse(s, first.value.dirs, today, daysAgo, camera) == first
  {
  }
}
