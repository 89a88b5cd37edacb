/**
 * The configuration module (config.py): every setting is read once from the process
 * environment, with a default when the variable is absent. The environment is a map from
 * variable names to values.
 */
module Config {
  import opened Wrappers
  import opened Text
  import opened Template

  type Env = map<string, string>

  const CAMERAS_KEY := "UNIFI_TIMELAPSE_CAMERAS"
  const DOMAIN_KEY := "UNIFI_TIMELAPSE_DOMAIN"
  const IMAGE_OUTPUT_PATH_KEY := "UNIFI_TIMELAPSE_IMAGE_OUTPUT_PATH"
  const VIDEO_OUTPUT_PATH_KEY := "UNIFI_TIMELAPSE_VIDEO_OUTPUT_PATH"
  const FETCH_INTERVAL_KEY := "UNIFI_TIMELAPSE_FETCH_INTERVAL"
  const FETCH_MAX_RETRIES_KEY := "UNIFI_TIMELAPSE_FETCH_MAX_RETRIES"
  const FETCH_RETRY_DELAY_KEY := "UNIFI_TIMELAPSE_FETCH_RETRY_DELAY"
  /** The variable the HTTP timeout is read from; the setting itself is named `..._FETCH_HTTP_TIMEOUT`. */
  const HTTP_TIMEOUT_KEY := "UNIFI_TIMELAPSE_HTTP_TIMEOUT"
  const LOGGING_LEVEL_KEY := "UNIFI_TIMELAPSE_LOGGING_LEVEL"

  /** Every variable the configuration reads. */
  const KEYS: set<string> := {
    CAMERAS_KEY, DOMAIN_KEY, IMAGE_OUTPUT_PATH_KEY, VIDEO_OUTPUT_PATH_KEY, FETCH_INTERVAL_KEY,
    FETCH_MAX_RETRIES_KEY, FETCH_RETRY_DELAY_KEY, HTTP_TIMEOUT_KEY, LOGGING_LEVEL_KEY
  }

  const DEFAULT_CAMERA_LIST: seq<string> := [
    "cam-basement", "cam-basement-tenlog", "cam-frontdoor", "cam-garage", "cam-lavalamp",
    "cam-pergolanorth", "cam-pergolasouth"
  ]
  /**
   * The default text of the camera variable, the literal of config.py:7 broken after each
   * comma (a string literal this long is beyond what the verifier compares character by
   * character).
   */
  const DEFAULT_CAMERAS := "cam-basement," + "cam-basement-tenlog," + "cam-frontdoor," + "cam-garage,"
    + "cam-lavalamp," + "cam-pergolanorth," + "cam-pergolasouth"
  const DEFAULT_DOMAIN := "tylephony.com"
  const DEFAULT_IMAGE_OUTPUT_PATH := "output/images"
  const DEFAULT_VIDEO_OUTPUT_PATH := "output/video"
  const DEFAULT_FETCH_INTERVAL := 60
  const DEFAULT_FETCH_MAX_RETRIES := 3
  const DEFAULT_FETCH_RETRY_DELAY := 5
  const DEFAULT_HTTP_TIMEOUT := 10
  const DEFAULT_LOGGING_LEVEL := "INFO"

  datatype Settings = Settings(
    cameras: seq<string>,
    domain: string,
    urlPattern: string,
    imageOutputPath: string,
    videoOutputPath: string,
    fetchInterval: int,
    fetchMaxRetries: int,
    fetchRetryDelay: int,
    fetchHttpTimeout: int,
    loggingLevel: string)

  /** `int(...)` raised `ValueError` on the value of variable `key`. */
  datatype ConfigError = InvalidInteger(key: string, text: string)

  /** `os.getenv(key, default)`. */
  function GetEnv(env: Env, key: string, default: string): string
  {
    if key in env then env[key] else default
  }

  /** `int(os.getenv(key, default))` with an integer default. */
  function IntSetting(env: Env, key: string, default: int): Result<int, ConfigError>
  {
    if key !in env then Ok(default)
    else match ParseInt(env[key])
      case Some(v) => Ok(v)
      case None => Err(InvalidInteger(key, env[key]))
  }

  /** The variable `key` is absent or holds an integer numeral. */
  predicate IntAcceptable(env: Env, key: string)
  {
    key !in env || ParseInt(env[key]).Some?
  }

  function Cameras(env: Env): seq<string>
  {
    Split(GetEnv(env, CAMERAS_KEY, DEFAULT_CAMERAS), ',')
  }

  /** The f-string of config.py: the domain is spliced in, `{camera_name}` stays a field. */
  function UrlPattern(domain: string): string
  {
    "http://" + "{" + FIELD + "}" + "." + domain + "/snap.jpeg"
  }

  /** The module's top-level statements, in order; the first failing `int(...)` raises. */
  function Load(env: Env): Result<Settings, ConfigError>
  {
    var cameras := Cameras(env);
    var domain := GetEnv(env, DOMAIN_KEY, DEFAULT_DOMAIN);
    var imagePath := GetEnv(env, IMAGE_OUTPUT_PATH_KEY, DEFAULT_IMAGE_OUTPUT_PATH);
    var videoPath := GetEnv(env, VIDEO_OUTPUT_PATH_KEY, DEFAULT_VIDEO_OUTPUT_PATH);
    var interval := IntSetting(env, FETCH_INTERVAL_KEY, DEFAULT_FETCH_INTERVAL);
    var retries := IntSetting(env, FETCH_MAX_RETRIES_KEY, DEFAULT_FETCH_MAX_RETRIES);
    var delay := IntSetting(env, FETCH_RETRY_DELAY_KEY, DEFAULT_FETCH_RETRY_DELAY);
    var timeout := IntSetting(env, HTTP_TIMEOUT_KEY, DEFAULT_HTTP_TIMEOUT);
    if interval.Err? then Err(interval.error)
    else if retries.Err? then Err(retries.error)
    else if delay.Err? then Err(delay.error)
    else if timeout.Err? then Err(timeout.error)
    else
      Ok(Settings(cameras, domain, UrlPattern(domain), imagePath, videoPath, interval.value,
                  retries.value, delay.value, timeout.value,
                  Upper(GetEnv(env, LOGGING_LEVEL_KEY, DEFAULT_LOGGING_LEVEL))))
  }

  // ---------------------------------------------------------------------------------------
  // properties

  /** The default camera text is the seven names joined with commas, in order. */
  lemma DefaultCamerasJoined()
    ensures DEFAULT_CAMERAS == Join(DEFAULT_CAMERA_LIST, ',')
  {
    var l := DEFAULT_CAMERA_LIST;
    DefaultCameraPieces();
    JoinSteps(l);
    Regroup(l[0] + ",", l[1] + ",", l[2] + ",", l[3] + ",", l[4] + ",", l[5] + ",", l[6]);
  }

  /** The pieces of the default text are the default names, each but the last with its comma. */
  lemma DefaultCameraPieces()
    ensures var l := DEFAULT_CAMERA_LIST;
      "cam-basement," == l[0] + ","
      && "cam-basement-tenlog," == l[1] + ","
      && "cam-frontdoor," == l[2] + ","
      && "cam-garage," == l[3] + ","
      && "cam-lavalamp," == l[4] + ","
      && "cam-pergolanorth," == l[5] + ","
      && "cam-pergolasouth" == l[6]
  {
  }

  /** A join of seven pieces written out. */
  lemma JoinSteps(l: seq<string>)
    requires |l| == 7
    ensures Join(l, ',') == l[0] + "," + (l[1] + "," + (l[2] + "," + (l[3] + "," + (l[4] + "," + (l[5] + "," + l[6])))))
  {
    forall k | 0 <= k < 6 ensures Join(l[k..], ',') == l[k] + "," + Join(l[k + 1..], ',') {
      JoinCons(l[k..], ',');
      assert l[k..][0] == l[k] && l[k..][1..] == l[k + 1..];
    }
    assert l[6..] == [l[6]] && l[0..] == l;
  }

  /** Concatenation regrouped from the left to the right. */
  lemma Regroup(a: string, b: string, c: string, d: string, e: string, f: string, g: string)
    ensures a + b + c + d + e + f + g == a + (b + (c + (d + (e + (f + g)))))
  {
  }

  lemma JoinCons(parts: seq<string>, sep: char)
    requires |parts| >= 2
    ensures Join(parts, sep) == parts[0] + [sep] + Join(parts[1..], sep)
  {
  }

  /** The default camera text names the seven cameras, in order. */
  lemma DefaultCameras()
    ensures Cameras(map[]) == DEFAULT_CAMERA_LIST
  {
    DefaultCamerasJoined();
    var l := DEFAULT_CAMERA_LIST;
    forall i | 0 <= i < |l| ensures ',' !in l[i] {
    }
    JoinSplit(l, ',');
  }

  /** With nothing set, every setting takes its default. */
  lemma DefaultSettings()
    ensures Load(map[]) == Ok(Settings(
      DEFAULT_CAMERA_LIST, DEFAULT_DOMAIN, UrlPattern(DEFAULT_DOMAIN),
      DEFAULT_IMAGE_OUTPUT_PATH, DEFAULT_VIDEO_OUTPUT_PATH, 60, 3, 5, 10, "INFO"))
  {
    DefaultCameras();
    DefaultLevel();
  }

  lemma DefaultLevel()
    ensures Upper(DEFAULT_LOGGING_LEVEL) == "INFO"
  {
    UpperFixed(DEFAULT_LOGGING_LEVEL);
  }

  /** The default URL pattern. */
  lemma DefaultUrl()
    ensures UrlPattern(DEFAULT_DOMAIN) == "http://{camera_name}.tylephony.com/snap.jpeg"
  {
  }

  /**
   * The camera list is the variable's text cut at every comma: it has one more name than
   * there are commas, no name contains a comma, and joining the names with commas gives the
   * text back.
   */
  lemma CamerasSplitText(env: Env)
    ensures var text := GetEnv(env, CAMERAS_KEY, DEFAULT_CAMERAS);
      |Cameras(env)| == Occurrences(text, ',') + 1
      && (forall i :: 0 <= i < |Cameras(env)| ==> ',' !in Cameras(env)[i])
      && Join(Cameras(env), ',') == text
  {
    var text := GetEnv(env, CAMERAS_KEY, DEFAULT_CAMERAS);
    SplitCount(text, ',');
    SplitPiecesFree(text, ',');
    SplitJoin(text, ',');
  }

  /** An empty camera variable gives one camera with the empty name, not an empty list. */
  lemma EmptyCameraVariable()
    ensures Cameras(map[CAMERAS_KEY := ""]) == [""]
  {
  }

  /** Loading succeeds exactly when each of the four integer variables is absent or an integer. */
  lemma LoadSucceeds(env: Env)
    ensures Load(env).Ok? <==>
      IntAcceptable(env, FETCH_INTERVAL_KEY) && IntAcceptable(env, FETCH_MAX_RETRIES_KEY)
      && IntAcceptable(env, FETCH_RETRY_DELAY_KEY) && IntAcceptable(env, HTTP_TIMEOUT_KEY)
  {
  }

  /** A failed load names the first integer variable, in source order, whose text is not an integer. */
  lemma LoadError(env: Env)
    requires Load(env).Err?
    ensures var e := Load(env).error;
      e.key in env && e.text == env[e.key] && ParseInt(e.text).None?
      && (e.key == FETCH_INTERVAL_KEY
          || (IntAcceptable(env, FETCH_INTERVAL_KEY)
              && (e.key == FETCH_MAX_RETRIES_KEY
                  || (IntAcceptable(env, FETCH_MAX_RETRIES_KEY)
                      && (e.key == FETCH_RETRY_DELAY_KEY
                          || (IntAcceptable(env, FETCH_RETRY_DELAY_KEY) && e.key == HTTP_TIMEOUT_KEY))))))
  {
  }

  /** Loading depends on no variable outside `KEYS`. */
  lemma LoadReadsOnlyKeys(env: Env, k: string, v: string)
    requires k !in KEYS
    ensures Load(env[k := v]) == Load(env)
  {
    TextSettingsUnchanged(env, k, v);
    IntSettingsUnchanged(env, k, v);
  }

  lemma TextSettingsUnchanged(env: Env, k: string, v: string)
    requires k !in KEYS
    ensures Cameras(env[k := v]) == Cameras(env)
    ensures GetEnv(env[k := v], DOMAIN_KEY, DEFAULT_DOMAIN) == GetEnv(env, DOMAIN_KEY, DEFAULT_DOMAIN)
    ensures GetEnv(env[k := v], IMAGE_OUTPUT_PATH_KEY, DEFAULT_IMAGE_OUTPUT_PATH)
         == GetEnv(env, IMAGE_OUTPUT_PATH_KEY, DEFAULT_IMAGE_OUTPUT_PATH)
    ensures GetEnv(env[k := v], VIDEO_OUTPUT_PATH_KEY, DEFAULT_VIDEO_OUTPUT_PATH)
         == GetEnv(env, VIDEO_OUTPUT_PATH_KEY, DEFAULT_VIDEO_OUTPUT_PATH)
    ensures GetEnv(env[k := v], LOGGING_LEVEL_KEY, DEFAULT_LOGGING_LEVEL)
         == GetEnv(env, LOGGING_LEVEL_KEY, DEFAULT_LOGGING_LEVEL)
  {
    UpdateElsewhere(env, k, v, CAMERAS_KEY);
    UpdateElsewhere(env, k, v, DOMAIN_KEY);
    UpdateElsewhere(env, k, v, IMAGE_OUTPUT_PATH_KEY);
    UpdateElsewhere(env, k, v, VIDEO_OUTPUT_PATH_KEY);
    UpdateElsewhere(env, k, v, LOGGING_LEVEL_KEY);
  }

  lemma IntSettingsUnchanged(env: Env, k: string, v: string)
    requires k !in KEYS
    ensures IntSetting(env[k := v], FETCH_INTERVAL_KEY, DEFAULT_FETCH_INTERVAL)
         == IntSetting(env, FETCH_INTERVAL_KEY, DEFAULT_FETCH_INTERVAL)
    ensures IntSetting(env[k := v], FETCH_MAX_RETRIES_KEY, DEFAULT_FETCH_MAX_RETRIES)
         == IntSetting(env, FETCH_MAX_RETRIES_KEY, DEFAULT_FETCH_MAX_RETRIES)
    ensures IntSetting(env[k := v], FETCH_RETRY_DELAY_KEY, DEFAULT_FETCH_RETRY_DELAY)
         == IntSetting(env, FETCH_RETRY_DELAY_KEY, DEFAULT_FETCH_RETRY_DELAY)
    ensures IntSetting(env[k := v], HTTP_TIMEOUT_KEY, DEFAULT_HTTP_TIMEOUT)
         == IntSetting(env, HTTP_TIMEOUT_KEY, DEFAULT_HTTP_TIMEOUT)
  {
    UpdateElsewhere(env, k, v, FETCH_INTERVAL_KEY);
    UpdateElsewhere(env, k, v, FETCH_MAX_RETRIES_KEY);
    UpdateElsewhere(env, k, v, FETCH_RETRY_DELAY_KEY);
    UpdateElsewhere(env, k, v, HTTP_TIMEOUT_KEY);
  }

  lemma UpdateElsewhere(env: Env, k: string, v: string, key: string)
    requires k != key
    ensures key in env[k := v] <==> key in env
    ensures key in env ==> env[k := v][key] == env[key]
  {
  }

  /**
   * The HTTP timeout comes from `UNIFI_TIMELAPSE_HTTP_TIMEOUT`; setting a variable named
   * after the setting, `UNIFI_TIMELAPSE_FETCH_HTTP_TIMEOUT`, changes nothing.
   */
  lemma HttpTimeoutVariable(env: Env)
    requires Load(env).Ok?
    ensures Load(env).value.fetchHttpTimeout ==
      (if HTTP_TIMEOUT_KEY in env then ParseInt(env[HTTP_TIMEOUT_KEY]).value else DEFAULT_HTTP_TIMEOUT)
  {
  }

  lemma FetchHttpTimeoutVariableIgnored(env: Env, v: string)
    ensures Load(env["UNIFI_TIMELAPSE_FETCH_HTTP_TIMEOUT" := v]) == Load(env)
  {
    var k := "UNIFI_TIMELAPSE_FETCH_HTTP_TIMEOUT";
    assert k[16] == 'F';
    assert k !in KEYS;
    LoadReadsOnlyKeys(env, k, v);
  }

  /** The logging level is the variable (or `INFO`) upper-cased: same length, no lower-case letter. */
  lemma LoggingLevelUpper(env: Env)
    requires Load(env).Ok?
    ensures var raw := GetEnv(env, LOGGING_LEVEL_KEY, DEFAULT_LOGGING_LEVEL);
      var level := Load(env).value.loggingLevel;
      level == Upper(raw) && |level| == |raw|
      && forall i :: 0 <= i < |level| ==> !IsAsciiLower(level[i])
  {
  }

  /** A lower-case level in the environment is accepted in upper case. */
  lemma LoggingLevelExample()
    ensures Load(map[LOGGING_LEVEL_KEY := "debug"]).Ok?
    ensures Load(map[LOGGING_LEVEL_KEY := "debug"]).value.loggingLevel == "DEBUG"
  {
    var env := map[LOGGING_LEVEL_KEY := "debug"];
    assert FETCH_INTERVAL_KEY !in env && FETCH_MAX_RETRIES_KEY !in env;
    assert FETCH_RETRY_DELAY_KEY !in env && HTTP_TIMEOUT_KEY !in env;
    LoadSucceeds(env);
    LoggingLevelUpper(env);
    var level := Upper("debug");
    assert level[0] == 'D' && level[1] == 'E' && level[2] == 'B' && level[3] == 'U' && level[4] == 'G';
    assert level == "DEBUG";
  }

  /** Formatting the URL pattern with a camera name gives that camera's snapshot URL. */
  lemma UrlForCamera(domain: string, camera: string)
    requires NoBraces(domain)
    ensures Format(UrlPattern(domain), camera) == Ok("http://" + camera + "." + domain + "/snap.jpeg")
  {
    var after := "." + domain + "/snap.jpeg";
    assert NoBraces(after) by {
      assert after == ['.'] + domain + "/snap.jpeg";
    }
    assert UrlPattern(domain) == "http://" + "{" + FIELD + "}" + after;
    FormatOneField("http://", after, camera);
    assert "http://" + camera + after == "http://" + camera + "." + domain + "/snap.jpeg";
  }
}
