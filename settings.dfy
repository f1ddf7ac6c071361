/** The configuration of sample/settings.py: module constants computed once from
    the process environment. */
module Settings {
  import opened Runtime

  /** The process environment, `os.environ`. */
  type Environment = map<string, string>

  /** What the settings read from the host besides the environment: the temporary
      directory, `os.path.abspath`, and `int()` on a string (None when it raises). */
  datatype Host = Host(tempDir: string, absPath: string -> string, parseInt: string -> Option<int>)

  /** `os.getenv(name)`. */
  function GetEnv(env: Environment, name: string): (r: Option<string>)
    ensures r.Some? <==> name in env
    ensures r.Some? ==> r.value == env[name]
  {
    if name in env then Some(env[name]) else None
  }

  /** `os.getenv(name, default)`. */
  function GetEnvOr(env: Environment, name: string, default: string): (r: string)
    ensures name in env ==> r == env[name]
    ensures name !in env ==> r == default
  {
    match GetEnv(env, name)
    case Some(v) => v
    case None => default
  }

  /** Lower-casing of one character, restricted to ASCII letters. */
  function LowerChar(c: char): char
  {
    if 'A' <= c <= 'Z' then (c as int + 32) as char else c
  }

  /** `str.lower`, on ASCII letters only. */
  function Lower(s: string): (r: string)
    ensures |r| == |s|
    ensures forall i :: 0 <= i < |s| ==> r[i] == LowerChar(s[i])
  {
    seq(|s|, i requires 0 <= i < |s| => LowerChar(s[i]))
  }

  /** `s` spells the lower-case word `w` in any mix of letter cases. */
  predicate SpellsIgnoringCase(s: string, w: string)
  {
    |s| == |w| && forall i :: 0 <= i < |s| ==> s[i] == w[i] || ('a' <= w[i] <= 'z' && s[i] as int + 32 == w[i] as int)
  }

  /** Lower-casing `s` gives the lower-case word `w` exactly when `s` spells `w` in
      any letter case. */
  lemma LowerEquals(s: string, w: string)
    requires forall i :: 0 <= i < |w| ==> !('A' <= w[i] <= 'Z')
    ensures Lower(s) == w <==> SpellsIgnoringCase(s, w)
  {
    if SpellsIgnoringCase(s, w) {
      assert forall i :: 0 <= i < |s| ==> Lower(s)[i] == w[i];
    }
  }

  /** `to_bool(value)`: false for None, otherwise whether the lower-cased text is 'true'. */
  function ToBool(value: Option<string>): (r: bool)
    ensures value.None? ==> !r
    ensures value.Some? ==> (r <==> SpellsIgnoringCase(value.value, "true"))
  {
    LowerEquals(if value.Some? then value.value else "", "true");
    value.Some? && Lower(value.value) == "true"
  }

  /** 'True' and 'TRUE' are true, '1', 'yes' and the empty text are not. */
  lemma ToBoolExamples()
    ensures ToBool(Some("True")) && ToBool(Some("TRUE")) && ToBool(Some("tRuE"))
    ensures !ToBool(Some("1")) && !ToBool(Some("yes")) && !ToBool(Some("")) && !ToBool(Some("False"))
  {
    assert !SpellsIgnoringCase("False", "true");
  }

  /** `environment_is_local()`: PYTHON_ENV, 'LOCAL' when unset, is 'local' or 'dev'
      in any letter case. */
  function EnvironmentIsLocal(env: Environment): (r: bool)
    ensures "PYTHON_ENV" !in env ==> r
    ensures "PYTHON_ENV" in env ==>
      (r <==> SpellsIgnoringCase(env["PYTHON_ENV"], "local") || SpellsIgnoringCase(env["PYTHON_ENV"], "dev"))
  {
    var value := GetEnvOr(env, "PYTHON_ENV", "LOCAL");
    LowerEquals(value, "local");
    LowerEquals(value, "dev");
    assert SpellsIgnoringCase("LOCAL", "local");
    Lower(value) in ["local", "dev"]
  }

  /** The values the module defines. */
  datatype SettingValues = SettingValues(
    title: string,
    applicationPort: int,
    applicationBind: string,
    flaskDebug: bool,
    flaskUrlPrefix: string,
    swaggerUiDocExpansion: bool,
    validate: bool,
    maskSwagger: bool,
    swagger: bool,
    error404Help: bool,
    corsOrigin: string,
    appDataFolder: string,
    databaseFile: string,
    databaseFolder: string,
    databasePath: string,
    connectionUri: string,
    rebuild: bool,
    databaseUri: Option<string>,
    trackModifications: bool)

  const DatabaseFile := "local.db"

  /** Importing the module in environment `env`: None when `int()` refuses
      APPLICATION_PORT and the import fails. */
  function LoadSettings(env: Environment, host: Host): (r: Option<SettingValues>)
    ensures r.Some? <==> host.parseInt(GetEnvOr(env, "APPLICATION_PORT", "5000")).Some?
  {
    match host.parseInt(GetEnvOr(env, "APPLICATION_PORT", "5000"))
    case None => None
    case Some(port) =>
      var folder := GetEnvOr(env, "APP_DATA_FOLDER", host.tempDir);
      var databaseFolder := host.absPath(folder);
      var path := databaseFolder + "/" + DatabaseFile;
      var uri := "sqlite:///" + path;
      Some(SettingValues(
        title := GetEnvOr(env, "TITLE", "Sample App"),
        applicationPort := port,
        applicationBind := GetEnvOr(env, "APPLICATION_BIND", "127.0.0.1"),
        flaskDebug := ToBool(Some(GetEnvOr(env, "FLASK_DEBUG", "False"))),
        flaskUrlPrefix := GetEnvOr(env, "FLASK_URL_PREFIX", "/api"),
        swaggerUiDocExpansion := ToBool(GetEnv(env, "REST_PLUS_SWAGGER_UI_DOC_EXPANSION")),
        validate := ToBool(GetEnv(env, "REST_PLUS_VALIDATE")),
        maskSwagger := ToBool(GetEnv(env, "REST_PLUS_MASK_SWAGGER")),
        swagger := ToBool(GetEnv(env, "REST_PLUS_SWAGGER")),
        error404Help := ToBool(GetEnv(env, "REST_PLUS_ERROR_404_HELP")),
        corsOrigin := GetEnvOr(env, "CORS_ORIGIN", "*"),
        appDataFolder := folder,
        databaseFile := DatabaseFile,
        databaseFolder := databaseFolder,
        databasePath := path,
        connectionUri := uri,
        rebuild := ToBool(Some(GetEnvOr(env, "SQLALCHEMY_REBUILD", "True"))),
        databaseUri := if EnvironmentIsLocal(env) then Some(uri) else GetEnv(env, "SQLALCHEMY_DATABASE_URI"),
        trackModifications := ToBool(Some(GetEnvOr(env, "SQLALCHEMY_TRACK_MODIFICATIONS", "False")))))
  }

  /** With nothing set: port 5000, bind 127.0.0.1, no debug, prefix /api, every
      REST_PLUS toggle off, rebuild on, no modification tracking, title 'Sample App',
      CORS origin '*', a local environment and the SQLite database in the
      temporary directory. */
  lemma DefaultSettings(host: Host)
    requires host.parseInt("5000") == Some(5000)
    ensures var r := LoadSettings(map[], host);
      && r.Some?
      && r.value.applicationPort == 5000
      && r.value.applicationBind == "127.0.0.1"
      && !r.value.flaskDebug
      && r.value.flaskUrlPrefix == "/api"
      && !r.value.swaggerUiDocExpansion && !r.value.validate && !r.value.maskSwagger
      && !r.value.swagger && !r.value.error404Help
      && r.value.rebuild && !r.value.trackModifications
      && r.value.title == "Sample App" && r.value.corsOrigin == "*"
      && r.value.appDataFolder == host.tempDir
      && r.value.databaseUri == Some("sqlite:///" + host.absPath(host.tempDir) + "/local.db")
  {
    var folder := host.absPath(host.tempDir);
    assert "sqlite:///" + (folder + "/" + DatabaseFile) == "sqlite:///" + folder + "/local.db";
    assert SpellsIgnoringCase("True", "true");
    assert !SpellsIgnoringCase("False", "true");
  }

  /** The SQLite file is `local.db` in the absolute data folder and the connection
      URI names it; the SQLAlchemy URI is that URI in a local environment and the
      SQLALCHEMY_DATABASE_URI variable (possibly unset) otherwise. */
  lemma DatabaseLocation(env: Environment, host: Host)
    requires LoadSettings(env, host).Some?
    ensures var s := LoadSettings(env, host).value;
      && s.databaseFolder == host.absPath(GetEnvOr(env, "APP_DATA_FOLDER", host.tempDir))
      && s.databasePath == s.databaseFolder + "/" + "local.db"
      && s.connectionUri == "sqlite:///" + s.databasePath
      && (EnvironmentIsLocal(env) ==> s.databaseUri == Some(s.connectionUri))
      && (!EnvironmentIsLocal(env) ==> s.databaseUri == GetEnv(env, "SQLALCHEMY_DATABASE_URI"))
  {
  }

  /** A set variable is read through `to_bool`; SQLALCHEMY_REBUILD alone defaults
      to true. */
  lemma TogglesFollowEnvironment(env: Environment, host: Host)
    requires LoadSettings(env, host).Some?
    ensures var s := LoadSettings(env, host).value;
      && (s.rebuild <==> "SQLALCHEMY_REBUILD" !in env || SpellsIgnoringCase(env["SQLALCHEMY_REBUILD"], "true"))
      && (s.flaskDebug <==> "FLASK_DEBUG" in env && SpellsIgnoringCase(env["FLASK_DEBUG"], "true"))
      && (s.validate <==> "REST_PLUS_VALIDATE" in env && SpellsIgnoringCase(env["REST_PLUS_VALIDATE"], "true"))
  {
    assert SpellsIgnoringCase("True", "true");
    assert !SpellsIgnoringCase("False", "true");
  }
}
