/** Application set-up of sample/app.py: copying the settings into the Flask
    config, overriding them with keyword arguments, creating (and seeding) the
    database, and registering the API blueprint once. */
module App {
  import opened Runtime
  import opened PersonModel
  import opened Accessible
  import opened Settings

  /** The texts of the named keys. */
  const NamedKeyTexts: set<string> := {
    "APPLICATION_PORT", "APPLICATION_BIND", "FLASK_DEBUG", "SQLALCHEMY_DATABASE_URI",
    "SQLALCHEMY_REBUILD", "SQLALCHEMY_TRACK_MODIFICATIONS", "SWAGGER_UI_DOC_EXPANSION",
    "RESTPLUS_VALIDATE", "RESTPLUS_MASK_SWAGGER", "ERROR_404_HELP", "APP_DATA_FOLDER",
    "CORS_ORIGIN", "SQL_LITE_DATABASE_FILE", "SQL_LITE_DATABASE_FOLDER",
    "SQL_LITE_DATABASE_PATH", "LOCAL", "TITLE", "FLASK_URL_PREFIX"}

  /** The text of a key the application does not name. */
  type OtherName = name: string | name !in NamedKeyTexts witness ""

  /** A Python config key. The keys the application writes or reads are named; any
      other key a keyword argument brings is `Other` with its text, which is never
      the text of a named key. So each text is written one way only, and
      `config['TITLE']` from a keyword argument and from the settings are the same
      entry. */
  datatype Key =
    | ApplicationPort | ApplicationBind | FlaskDebug
    | SqlalchemyDatabaseUri | SqlalchemyRebuild | SqlalchemyTrackModifications
    | SwaggerUiDocExpansion | RestplusValidate | RestplusMaskSwagger | Error404Help
    | AppDataFolder | CorsOrigin | SqlLiteDatabaseFile | SqlLiteDatabaseFolder
    | SqlLiteDatabasePath | Local | Title | FlaskUrlPrefix
    | Other(name: OtherName)

  /** The text of a key. */
  function KeyName(k: Key): string
  {
    match k
    case ApplicationPort => "APPLICATION_PORT"
    case ApplicationBind => "APPLICATION_BIND"
    case FlaskDebug => "FLASK_DEBUG"
    case SqlalchemyDatabaseUri => "SQLALCHEMY_DATABASE_URI"
    case SqlalchemyRebuild => "SQLALCHEMY_REBUILD"
    case SqlalchemyTrackModifications => "SQLALCHEMY_TRACK_MODIFICATIONS"
    case SwaggerUiDocExpansion => "SWAGGER_UI_DOC_EXPANSION"
    case RestplusValidate => "RESTPLUS_VALIDATE"
    case RestplusMaskSwagger => "RESTPLUS_MASK_SWAGGER"
    case Error404Help => "ERROR_404_HELP"
    case AppDataFolder => "APP_DATA_FOLDER"
    case CorsOrigin => "CORS_ORIGIN"
    case SqlLiteDatabaseFile => "SQL_LITE_DATABASE_FILE"
    case SqlLiteDatabaseFolder => "SQL_LITE_DATABASE_FOLDER"
    case SqlLiteDatabasePath => "SQL_LITE_DATABASE_PATH"
    case Local => "LOCAL"
    case Title => "TITLE"
    case FlaskUrlPrefix => "FLASK_URL_PREFIX"
    case Other(name) => name
  }

  /** A named key's text is one of the named texts, and an `Other` text never is;
      so two keys with the same text are the same key, as two equal strings are one
      Python dictionary key. */
  lemma KeyNameInjective(a: Key, b: Key)
    ensures !a.Other? ==> KeyName(a) in NamedKeyTexts
    ensures KeyName(a) == KeyName(b) ==> a == b
  {
  }

  /** `flask_application.config`. */
  type Config = map<Key, Value>

  /** A registered blueprint: its name and URL prefix. */
  datatype Blueprint = Blueprint(name: Value, urlPrefix: Value)

  function OptionalText(o: Option<string>): Value
  {
    match o
    case Some(s) => Str(s)
    case None => Null
  }

  /** The entries `settings_to_config` writes, for settings `s` in an environment
      that is local or not. */
  function SettingsEntries(s: SettingValues, local: bool): Config
  {
    map[
      ApplicationPort := Int(s.applicationPort),
      ApplicationBind := Str(s.applicationBind),
      FlaskDebug := Bool(s.flaskDebug),
      SqlalchemyDatabaseUri := OptionalText(s.databaseUri),
      SqlalchemyRebuild := Bool(s.rebuild),
      SqlalchemyTrackModifications := Bool(s.trackModifications),
      SwaggerUiDocExpansion := Bool(s.swaggerUiDocExpansion),
      RestplusValidate := Bool(s.validate),
      RestplusMaskSwagger := Bool(s.maskSwagger),
      Error404Help := Bool(s.error404Help),
      AppDataFolder := Str(s.appDataFolder),
      CorsOrigin := Str(s.corsOrigin),
      SqlLiteDatabaseFile := Str(s.databaseFile),
      SqlLiteDatabaseFolder := Str(s.databaseFolder),
      SqlLiteDatabasePath := Str(s.databasePath),
      Local := Bool(local),
      Title := Str(s.title),
      FlaskUrlPrefix := Str(s.flaskUrlPrefix)]
  }

  /** `settings_to_config` writes every named key and nothing else: in particular
      REST_PLUS_SWAGGER is not copied, and the other REST_PLUS toggles appear only
      under their Flask-RESTPlus names. */
  lemma SettingsEntriesKeys(s: SettingValues, local: bool)
    ensures forall k: Key :: k in SettingsEntries(s, local) <==> !k.Other?
    ensures Other("REST_PLUS_SWAGGER") !in SettingsEntries(s, local)
    ensures Other("REST_PLUS_VALIDATE") !in SettingsEntries(s, local)
  {
  }

  /** The values under LOCAL, the renamed toggles and the API keys. */
  lemma SettingsEntriesValues(s: SettingValues, local: bool)
    ensures var e := SettingsEntries(s, local);
      && e[Local] == Bool(local)
      && e[SwaggerUiDocExpansion] == Bool(s.swaggerUiDocExpansion)
      && e[RestplusValidate] == Bool(s.validate)
      && e[RestplusMaskSwagger] == Bool(s.maskSwagger)
      && e[Error404Help] == Bool(s.error404Help)
      && e[Title] == Str(s.title) && e[FlaskUrlPrefix] == Str(s.flaskUrlPrefix)
      && e[SqlalchemyRebuild] == Bool(s.rebuild)
  {
  }

  /** Writing `e` and then `kwargs` over `config`: the keyword arguments win, then
      the entries of `e`, then what was there. */
  lemma LaterWritesWin(config: Config, e: Config, kwargs: Config)
    ensures var c := config + e + kwargs;
      && (forall k :: k in c <==> k in config || k in e || k in kwargs)
      && (forall k :: k in kwargs ==> c[k] == kwargs[k])
      && (forall k :: k in e && k !in kwargs ==> c[k] == e[k])
  {
  }

  /** `arguments_to_config`: every keyword argument is stored under its key, every
      other key keeps its value, and no key is dropped. */
  lemma ArgumentsOverride(config: Config, kwargs: Config)
    ensures var c := config + kwargs;
      && c.Keys == config.Keys + kwargs.Keys
      && (forall k :: k in kwargs ==> c[k] == kwargs[k])
      && (forall k :: k in config && k !in kwargs ==> c[k] == config[k])
  {
  }

  /** `initialize_api`: the blueprints after the call, or the KeyError it raises. A
      blueprint is added only when none is registered under the title. */
  function ApiSpec(config: Config, blueprints: map<Value, Blueprint>): (r: Result<map<Value, Blueprint>>)
    ensures r.Raised? ==> r.error in {KeyError(KeyName(Title)), KeyError(KeyName(FlaskUrlPrefix))}
    ensures r.Ok? ==> Title in config && config[Title] in r.value && blueprints.Keys <= r.value.Keys
  {
    if Title !in config then Raised(KeyError(KeyName(Title)))
    else if config[Title] in blueprints then Ok(blueprints)
    else if FlaskUrlPrefix !in config then Raised(KeyError(KeyName(FlaskUrlPrefix)))
    else Ok(blueprints[config[Title] := Blueprint(config[Title], config[FlaskUrlPrefix])])
  }

  /** After `initialize_api` succeeds a blueprint is registered under the title,
      with the configured prefix when it is new, and no other is added or changed;
      calling it again changes nothing. */
  lemma ApiRegistersOnce(config: Config, blueprints: map<Value, Blueprint>)
    requires ApiSpec(config, blueprints).Ok?
    ensures var b := ApiSpec(config, blueprints).value;
      && b.Keys == blueprints.Keys + {config[Title]}
      && (forall n :: n in blueprints ==> b[n] == blueprints[n])
      && (config[Title] !in blueprints ==> b[config[Title]] == Blueprint(config[Title], config[FlaskUrlPrefix]))
      && ApiSpec(config, b) == Ok(b)
  {
  }

  /** `initialize_api` fails only when TITLE is missing, or FLASK_URL_PREFIX is
      missing and a blueprint would be created. */
  lemma ApiFailures(config: Config, blueprints: map<Value, Blueprint>)
    ensures ApiSpec(config, blueprints) == Raised(KeyError(KeyName(Title))) <==> Title !in config
    ensures ApiSpec(config, blueprints) == Raised(KeyError(KeyName(FlaskUrlPrefix)))
        <==> Title in config && config[Title] !in blueprints && FlaskUrlPrefix !in config
  {
  }

  /** The seed row: a 'System' person created by actor 1, stored under id 1. */
  function SystemPerson(now: int): PersonRow
  {
    AuditCreated(Constructed(Str("System"), Str("System"), Str("System")), 1, now).(id := Some(1))
  }

  /** `initialize_database`: a truthy SQLALCHEMY_REBUILD drops and recreates the
      table and stores the seed row; otherwise the table is left as it is. */
  function DatabaseSpec(config: Config, t: TableState, now: int): (e: Effect<()>)
    ensures e.result.Raised? <==> SqlalchemyRebuild !in config
    ensures e.result.Raised? ==> e.table == t
  {
    if SqlalchemyRebuild !in config then Effect(Raised(KeyError(KeyName(SqlalchemyRebuild))), t)
    else if Truthy(config[SqlalchemyRebuild]) then Effect(Ok(()), TableState(map[1 := Persisted(SystemPerson(now))], 2))
    else Effect(Ok(()), t)
  }

  /** `initialize_data`: the local path checks the configured SQLite file (whose
      existence after `touch` is `fileExists`) and exits when it is missing; both
      paths end in `initialize_database`. */
  function DataSpec(config: Config, t: TableState, now: int, fileExists: bool): (e: Effect<()>)
    ensures e.result.Raised? ==> e.table == t
    ensures e.result.Raised? ==> e.result.error == SystemExit || e.result.error.KeyError?
    ensures e.result == Raised(SystemExit) ==> !fileExists
  {
    if Local !in config then Effect(Raised(KeyError(KeyName(Local))), t)
    else if !Truthy(config[Local]) then DatabaseSpec(config, t, now)
    else if SqlLiteDatabaseFolder !in config then Effect(Raised(KeyError(KeyName(SqlLiteDatabaseFolder))), t)
    else if SqlLiteDatabasePath !in config then Effect(Raised(KeyError(KeyName(SqlLiteDatabasePath))), t)
    else if !fileExists then Effect(Raised(SystemExit), t)
    else DatabaseSpec(config, t, now)
  }

  /** With SQLALCHEMY_REBUILD truthy the table holds exactly one row: the active
      'System' 'System' 'System' person created by actor 1 at `now`, with no stored
      modification stamps. Without it the table is untouched. */
  lemma RebuildSeedsOneRow(config: Config, t: TableState, now: int)
    requires ValidTable(t)
    ensures var e := DatabaseSpec(config, t, now);
      && ValidTable(e.table)
      && (SqlalchemyRebuild in config && Truthy(config[SqlalchemyRebuild]) ==>
            && e.result == Ok(())
            && e.table.rows.Keys == {1}
            && var p := e.table.rows[1];
            && p.firstName == Str("System") && p.middleName == Str("System") && p.lastName == Str("System")
            && p.active == Bool(true) && p.createdById == Int(1) && p.createdOn == Time(now)
            && p.modifiedById == Null)
      && (!(SqlalchemyRebuild in config && Truthy(config[SqlalchemyRebuild])) ==> e.table == t)
  {
    var e := DatabaseSpec(config, t, now);
    if SqlalchemyRebuild in config && Truthy(config[SqlalchemyRebuild]) {
      assert forall k :: k in e.table.rows <==> 1 <= k < 2;
    }
  }

  /** `initialize_data` takes the local path exactly when LOCAL is truthy, and
      otherwise does what `initialize_database` does. */
  lemma DataDispatch(config: Config, t: TableState, now: int, fileExists: bool)
    requires Local in config
    ensures !Truthy(config[Local]) ==> DataSpec(config, t, now, fileExists) == DatabaseSpec(config, t, now)
    ensures Truthy(config[Local]) && SqlLiteDatabaseFolder in config && SqlLiteDatabasePath in config ==>
      DataSpec(config, t, now, fileExists)
        == if fileExists then DatabaseSpec(config, t, now) else Effect(Raised(SystemExit), t)
  {
  }

  /** What the set-up works on: the config, the blueprints and the table. */
  datatype AppState = AppState(config: Config, blueprints: map<Value, Blueprint>, table: TableState)

  /** `initialize(app, **kwargs)`: settings, then arguments, then data, then the API;
      the first step that raises ends it. */
  function InitializeSpec(a: AppState, s: SettingValues, env: Environment, kwargs: Config, now: int, fileExists: bool): (r: (Result<()>, AppState))
    ensures r.0.Raised? ==> r.1.blueprints == a.blueprints
    ensures r.0.Raised? ==> r.0.error == SystemExit || r.0.error.KeyError?
  {
    var config := a.config + SettingsEntries(s, EnvironmentIsLocal(env)) + kwargs;
    var d := DataSpec(config, a.table, now, fileExists);
    if d.result.Raised? then (d.result, AppState(config, a.blueprints, d.table))
    else match ApiSpec(config, a.blueprints)
      case Raised(e) => (Raised(e), AppState(config, a.blueprints, d.table))
      case Ok(b) => (Ok(()), AppState(config, b, d.table))
  }

  /** `initialize` succeeds exactly when loading the data and then registering the
      API both succeed, and it then leaves the seeded table and the new blueprints. */
  lemma InitializeSucceeds(a: AppState, s: SettingValues, env: Environment, kwargs: Config, now: int, fileExists: bool)
    ensures var config := a.config + SettingsEntries(s, EnvironmentIsLocal(env)) + kwargs;
      var d := DataSpec(config, a.table, now, fileExists);
      var (r, b) := InitializeSpec(a, s, env, kwargs, now, fileExists);
      && (r.Ok? <==> d.result.Ok? && ApiSpec(config, a.blueprints).Ok?)
      && (r.Ok? ==> b == AppState(config, ApiSpec(config, a.blueprints).value, d.table))
  {
  }

  /** Whichever step raises, `initialize` has written the settings and then the
      keyword arguments over the config. */
  lemma InitializeConfig(a: AppState, s: SettingValues, env: Environment, kwargs: Config, now: int, fileExists: bool)
    ensures InitializeSpec(a, s, env, kwargs, now, fileExists).1.config
         == a.config + SettingsEntries(s, EnvironmentIsLocal(env)) + kwargs
  {
  }

  /** Settings are applied before arguments, so a keyword argument wins over the
      setting stored under the same key, while every other named key holds the
      setting. */
  lemma KwargsOverrideSettings(a: AppState, s: SettingValues, env: Environment, kwargs: Config, now: int, fileExists: bool)
    ensures var c := InitializeSpec(a, s, env, kwargs, now, fileExists).1.config;
      && (forall k :: k in kwargs ==> c[k] == kwargs[k])
      && (forall k: Key :: !k.Other? && k !in kwargs ==> c[k] == SettingsEntries(s, EnvironmentIsLocal(env))[k])
  {
    InitializeConfig(a, s, env, kwargs, now, fileExists);
    SettingsEntriesKeys(s, EnvironmentIsLocal(env));
    LaterWritesWin(a.config, SettingsEntries(s, EnvironmentIsLocal(env)), kwargs);
  }

  /** `initialize` drops no key: the config afterwards holds the keys it had, every
      named key and every keyword argument's key, and nothing else. */
  lemma InitializeKeepsKeys(a: AppState, s: SettingValues, env: Environment, kwargs: Config, now: int, fileExists: bool)
    ensures var c := InitializeSpec(a, s, env, kwargs, now, fileExists).1.config;
      forall k: Key :: k in c <==> k in a.config || !k.Other? || k in kwargs
  {
    InitializeConfig(a, s, env, kwargs, now, fileExists);
    SettingsEntriesKeys(s, EnvironmentIsLocal(env));
    LaterWritesWin(a.config, SettingsEntries(s, EnvironmentIsLocal(env)), kwargs);
  }

  /** A first `initialize` with the default settings and no arguments, where the
      SQLite file can be created: it succeeds, seeds the System person and
      registers the 'Sample App' blueprint under '/api'. */
  lemma DefaultInitialize(host: Host, t: TableState, now: int)
    requires host.parseInt("5000") == Some(5000) && ValidTable(t)
    ensures var (r, a) := InitializeSpec(AppState(map[], map[], t), LoadSettings(map[], host).value, map[], map[], now, true);
      && r == Ok(())
      && a.table.rows.Keys == {1} && a.table.rows[1].firstName == Str("System")
      && a.blueprints == map[Str("Sample App") := Blueprint(Str("Sample App"), Str("/api"))]
  {
    DefaultSettings(host);
    var s := LoadSettings(map[], host).value;
    var config := map[] + SettingsEntries(s, EnvironmentIsLocal(map[])) + map[];
    var title, prefix := Str("Sample App"), Str("/api");
    assert && Local in config && config[Local] == Bool(true)
           && SqlalchemyRebuild in config && config[SqlalchemyRebuild] == Bool(true)
           && SqlLiteDatabaseFolder in config && SqlLiteDatabasePath in config
           && Title in config && config[Title] == title
           && FlaskUrlPrefix in config && config[FlaskUrlPrefix] == prefix
    by {
      var e := SettingsEntries(s, EnvironmentIsLocal(map[]));
      SettingsEntriesKeys(s, true);
      SettingsEntriesValues(s, true);
      LaterWritesWin(map[], e, map[]);
    }
    DataDispatch(config, t, now, true);
    RebuildSeedsOneRow(config, t, now);
    assert ApiSpec(config, map[]) == Ok(map[][title := Blueprint(title, prefix)]);
    InitializeSucceeds(AppState(map[], map[], t), s, map[], map[], now, true);
  }

  /** The Flask application object and the database bound to it. */
  class FlaskApp {
    var config: Config
    var blueprints: map<Value, Blueprint>
    const db: Database

    function State(): AppState
      reads this, db
    {
      AppState(config, blueprints, db.State())
    }

    constructor (db: Database)
      ensures config == map[] && blueprints == map[] && this.db == db
    {
      config, blueprints, this.db := map[], map[], db;
    }

    /** `settings_to_config(app)`. The source assigns the eighteen keys one by one;
        none is read back in between, so they are written here as one update. */
    method SettingsToConfig(s: SettingValues, env: Environment)
      modifies this
      ensures config == old(config) + SettingsEntries(s, EnvironmentIsLocal(env))
      ensures blueprints == old(blueprints)
    {
      config := config + SettingsEntries(s, EnvironmentIsLocal(env));
    }

    /** `arguments_to_config(app, **kwargs)`: each keyword argument in turn. */
    method ArgumentsToConfig(kwargs: Config)
      modifies this
      ensures config == old(config) + kwargs
      ensures blueprints == old(blueprints)
    {
      var remaining := kwargs.Keys;
      while remaining != {}
        invariant remaining <= kwargs.Keys
        invariant config == old(config) + map k | k in kwargs.Keys - remaining :: kwargs[k]
        invariant blueprints == old(blueprints)
        decreases remaining
      {
        var key :| key in remaining;
        config := config[key := kwargs[key]];
        remaining := remaining - {key};
      }
    }

    /** `initialize_api(app)`. */
    method InitializeApi() returns (r: Result<()>)
      modifies this
      ensures config == old(config)
      ensures match ApiSpec(old(config), old(blueprints))
        case Raised(e) => r == Raised(e) && blueprints == old(blueprints)
        case Ok(b) => r == Ok(()) && blueprints == b
    {
      if Title !in config {
        return Raised(KeyError(KeyName(Title)));
      }
      if config[Title] !in blueprints {
        if FlaskUrlPrefix !in config {
          return Raised(KeyError(KeyName(FlaskUrlPrefix)));
        }
        var blueprint := Blueprint(config[Title], config[FlaskUrlPrefix]);
        blueprints := blueprints[blueprint.name := blueprint];
      }
      r := Ok(());
    }

    /** `initialize_database(app)` at clock reading `now`. */
    method InitializeDatabase(now: int) returns (r: Result<()>)
      requires db.Valid()
      modifies db
      ensures db.Valid()
      ensures Effect(r, db.State()) == DatabaseSpec(config, old(db.State()), now)
    {
      if SqlalchemyRebuild !in config {
        return Raised(KeyError(KeyName(SqlalchemyRebuild)));
      }
      if Truthy(config[SqlalchemyRebuild]) {
        db.Rebuild();
        var person := new Person(Str("System"), Str("System"), Str("System"));
        var dal := new DatabaseAccess(db);
        dal.AuditCreate(1, person, now);
        var saved := dal.Save(person);
      }
      r := Ok(());
    }

    /** `initialize_data(app)`, with `initialize_local_data` on the local path. */
    method InitializeData(now: int, fileExists: bool) returns (r: Result<()>)
      requires db.Valid()
      modifies db
      ensures db.Valid()
      ensures Effect(r, db.State()) == DataSpec(config, old(db.State()), now, fileExists)
    {
      if Local !in config {
        return Raised(KeyError(KeyName(Local)));
      }
      if Truthy(config[Local]) {
        if SqlLiteDatabaseFolder !in config {
          return Raised(KeyError(KeyName(SqlLiteDatabaseFolder)));
        }
        if SqlLiteDatabasePath !in config {
          return Raised(KeyError(KeyName(SqlLiteDatabasePath)));
        }
        if !fileExists {
          return Raised(SystemExit);
        }
      }
      r := InitializeDatabase(now);
    }

    /** `initialize(app, **kwargs)`. */
    method Initialize(s: SettingValues, env: Environment, kwargs: Config, now: int, fileExists: bool) returns (r: Result<()>)
      requires db.Valid()
      modifies this, db
      ensures db.Valid()
      ensures (r, State()) == InitializeSpec(old(State()), s, env, kwargs, now, fileExists)
    {
      SettingsToConfig(s, env);
      ArgumentsToConfig(kwargs);
      r := InitializeData(now, fileExists);
      if r.Raised? {
        return;
      }
      r := InitializeApi();
    }
  }
}
