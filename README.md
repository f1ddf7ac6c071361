# Sample API with SQLAlchemy, modelled in Dafny

This project models the core of the sample Flask/SQLAlchemy person API:

- the generic data-access layer `DatabaseAccess`, over a table of `Person` records;
- the JWT token registry `TokenFactory`, with the `token_validation` guard;
- the person, status and token resources, with the error handlers that turn exceptions into HTTP statuses;
- the settings read from the environment;
- the application set-up: config copying, keyword overrides, database seeding and blueprint registration;
- the command-line scan of `sys.argv`.

The database is a map from id to row plus the id the next insert receives. The session's clock, the
random generator and the date parser are parameters. Signing is an opaque pair: verifying a signed
claim set with the same key gives it back.

The modules follow the program:

| module | file | models |
|---|---|---|
| `Runtime` | runtime.dfy | Python values, truthiness, the exceptions the core raises |
| `PersonModel` | person_model.dfy | `Person` and its columns (sample/data/models/person.py) |
| `Accessible` | accessible.dfy | `DatabaseAccess` and the table (sample/data/access/accessible.py) |
| `Authentication` | authentication.dfy | `TokenFactory`, `token_validation`, `user_id` (sample/api/authentication.py) |
| `Restplus` | restplus.dfy | name helpers, namespaces, error handlers (sample/api/restplus.py) |
| `PersonEndpoints` | person_endpoints.dfy | the person, status and token resources as one dispatch |
| `Settings` | settings.dfy | sample/settings.py |
| `App` | app.dfy | sample/app.py |
| `CommandLine` | command_line.dfy | `EXIT_CODES` and `handel_user_arguments` (sample/__main__.py) |

Where the source changes state, the model is imperative:

- `Person`, `Database`, `DatabaseAccess`, `TokenFactory` and `FlaskApp` are classes.
- Each method of these classes is proved equal to a pure specification function.
- The properties are proved as lemmas about those functions.

These quirks of the source are kept on purpose:

- `get(0)` lists every row.
- `get` returns soft-deleted rows.
- `delete` always raises "Not Implemented", even after it has soft-deleted the row.
- `persistant_delete` on a missing id raises AttributeError, not NoResultFound.
- The default bind is `'127.0.0. 1:5000'`, with a space in it.
- `--workers=` before any `--bind=` reads an unassigned variable and crashes.
- The `-5` and `-6` exits can never happen.

## Model

| member | source | states |
|---|---|---|
| PersonModel.PersonRow.Set | sample/data/access/accessible.py:70 | assigning one column changes that column, leaves every other column, the id and the modification stamps as they were |
| PersonModel.Constructed | sample/data/models/person.py:25-34 | a new person holds its three name arguments (first, last, middle), is active, and has no id yet |
| PersonModel.Person.constructor | sample/data/models/person.py:25-34 | the constructor stores first, last and middle name in that positional order, each `None` by default, sets active and assigns no id |
| PersonModel.Person.Load | sample/data/access/accessible.py:84 | an object loaded from the table holds exactly the stored row |
| PersonModel.Person.SetColumn | sample/data/access/accessible.py:70 | `setattr` on a column yields the row with that column set |
| Accessible.MapColumns | sample/data/access/accessible.py:57-70 | the column loop of `dict_to_entity`; what it yields is stated by MapColumnsAt, MapColumnsKeepsKey, MapColumnsIgnoresOtherKeys and MapColumnsFails |
| Accessible.MapData | sample/data/access/accessible.py:50-70 | `dict_to_entity` over the person columns; what it yields is stated by MapDataResult, MapDataIgnoresOtherKeys and MapDataFails |
| Accessible.AuditModified | sample/data/access/accessible.py:124-128 | the modifier becomes `user_id` and the modification time `now`; every column keeps its value |
| Accessible.AuditCreated | sample/data/access/accessible.py:116-122 | the creator, creation time and modifier stamps are `user_id` and `now` and the row is active; id and names are kept |
| Accessible.Persisted | sample/data/models/model.py:17-37 | the stored form of an object has no modification stamps (the audit columns are `active`, `created_by_id` and `created_on` only) and every column as the object has it |
| Accessible.SaveSpec | sample/data/access/accessible.py:130-135 | a commit succeeds exactly when the NOT NULL columns are filled and raises IntegrityError otherwise; a new object gets the next id and an existing one keeps its id; the table then stores the object under that id with every column the object has |
| Accessible.GetSpec | sample/data/access/accessible.py:40-48 | `get` raises exactly for a truthy id with no row, and then NoResultFound; a single row returned is the one under the asked id |
| Accessible.CreateSpec | sample/data/access/accessible.py:72-79 | a refused `create` writes nothing; a created row is active and carries the creation and modification stamps of `user_id` at `now` |
| Accessible.UpdateSpec | sample/data/access/accessible.py:81-89 | `update` on a missing id raises NoResultFound and writes nothing; whenever it raises the table is unchanged |
| Accessible.PersistantDeleteSpec | sample/data/access/accessible.py:101-108 | a missing id raises AttributeError with nothing written; whenever it raises nothing is written; on success the returned object is inactive and stamped by `user_id` at `now` |
| Accessible.DeleteSpec | sample/data/access/accessible.py:91-99 | `delete` always raises; the non-persistent path raises "Not Implemented" with nothing written, the persistent one AttributeError with nothing written for a missing id |
| Accessible.AllRows | sample/data/access/accessible.py:44 | `query.all()` yields one entry per stored id, in id order, active or not |
| Accessible.MapColumnsAt | sample/data/access/accessible.py:57-70 | after mapping any column list, a listed column named in `data` holds its (parsed) value and every other column is unchanged |
| Accessible.MapColumnsKeepsKey | sample/data/access/accessible.py:60-61 | mapping never changes `id` or the modification stamps |
| Accessible.MapDataResult | sample/data/access/accessible.py:57-70 | `dict_to_entity` in closed form: a column named in `data` takes its value, an absent one keeps its value, `id` never changes |
| Accessible.MapColumnsIgnoresOtherKeys | sample/data/access/accessible.py:57-66 | keys of `data` that name no column have no effect on the result |
| Accessible.MapDataIgnoresOtherKeys | sample/data/access/accessible.py:57-66 | `dict_to_entity` ignores keys that are not column names |
| Accessible.MapColumnsFails | sample/data/access/accessible.py:64-69 | with a body present, mapping fails only on a truthy `created_on` the parser refuses |
| Accessible.MapDataFails | sample/data/access/accessible.py:57-69 | `dict_to_entity` raises AttributeError exactly when the body is `None` and a parse error exactly for an unparsable truthy `created_on` |
| Accessible.SaveKeepsValid | sample/data/access/accessible.py:130-135 | a commit keeps ids 1..n, each row under its own id, NOT NULL columns filled; a refused commit writes nothing |
| Accessible.GetFalsyListsAll | sample/data/access/accessible.py:43-47 | `get(None)` and `get(0)` return every row, an empty list on an empty table, and never raise |
| Accessible.RangeSize | sample/data/access/accessible.py:133-134 | the table always holds nextId - 1 rows |
| Accessible.GetTruthyFindsRow | sample/data/access/accessible.py:43-46 | `get(id)` with a truthy id returns that row whatever its `active` flag, and raises NoResultFound when it is missing |
| Accessible.CreateProperties | sample/data/access/accessible.py:72-79 | `create` succeeds exactly for a creatable body, then adds one row; when it raises, nothing is written |
| Accessible.CreatedRow | sample/data/access/accessible.py:72-79 | the created row sits under the next id, is active, is created and modified by `user_id` at `now` whatever `data` says, and carries the names from `data`; the table keeps it without the modification stamps |
| Accessible.UpdateProperties | sample/data/access/accessible.py:81-89 | `update` on a missing id raises NoResultFound and writes nothing; whenever it raises the table is unchanged; on success it returns nothing and the table stays valid |
| Accessible.UpdateSucceeded | sample/data/access/accessible.py:81-89 | after a successful `update` the ids are the same and no other row changed; the row keeps its id, takes every column `data` names and keeps every other, creation stamps included; the modification stamps are not stored |
| Accessible.DeleteProperties | sample/data/access/accessible.py:91-99 | `delete` never returns normally; the persistent path leaves an existing row in place and inactive, everything else unchanged, before raising "Not Implemented", and raises AttributeError with nothing written for a missing id; the other path writes nothing |
| Accessible.PersistantDeleteMissing | sample/data/access/accessible.py:101-108 | `persistant_delete` on a missing id raises AttributeError, not NoResultFound, and saves nothing |
| Accessible.Database.constructor | sample/app.py:108-109 | a newly created table is empty and its next id is 1 |
| Accessible.Database.Rebuild | sample/app.py:108-109 | `drop_all` then `create_all` leaves an empty table whose next id is 1 |
| Accessible.Database.Commit | sample/data/access/accessible.py:133-134 | a commit inserts a new object under the next id, overwrites a known one, or raises IntegrityError and leaves table and object unchanged |
| Accessible.DatabaseAccess.constructor | sample/data/access/accessible.py:35-38 | the access object works on the given database |
| Accessible.DatabaseAccess.Get | sample/data/access/accessible.py:40-48 | the method returns what the `get` specification says for every id |
| Accessible.DatabaseAccess.DictToEntity | sample/data/access/accessible.py:50-70 | the column loop leaves the entity in the state the `dict_to_entity` specification gives, or raises its error |
| Accessible.DatabaseAccess.AuditCreate | sample/data/access/accessible.py:116-122 | sets creator, active and creation time, then the modifier stamps |
| Accessible.DatabaseAccess.AuditModify | sample/data/access/accessible.py:124-128 | sets the modifier and modification time only |
| Accessible.DatabaseAccess.Save | sample/data/access/accessible.py:130-135 | `save` is the commit of the entity |
| Accessible.DatabaseAccess.Create | sample/data/access/accessible.py:72-79 | result and new table are those of the `create` specification |
| Accessible.DatabaseAccess.Update | sample/data/access/accessible.py:81-89 | result and new table are those of the `update` specification |
| Accessible.DatabaseAccess.Delete | sample/data/access/accessible.py:91-99 | result and new table are those of the `delete` specification |
| Accessible.DatabaseAccess.PersistantDelete | sample/data/access/accessible.py:101-108 | result and new table are those of the `persistant_delete` specification |
| Accessible.DatabaseAccess.NonPersistantDelete | sample/data/access/accessible.py:110-114 | always raises "Not Implemented" |
| Authentication.Decode | sample/api/authentication.py:102-103 | a decoded token is the process key's signature of the claims it returns, whose audience is 'localhost' and whose window `nbf <= now <= exp` holds; every failure is DecodeError |
| Authentication.CheckToken | sample/api/authentication.py:99-106 | `valid_token` is true exactly when the token decodes to one of the issued claim sets, and raises exactly when decoding does |
| Authentication.Jti | sample/api/authentication.py:82 | the `jti` is 32 distinct characters of the pool |
| Authentication.IssuedClaims | sample/api/authentication.py:80-92 | an issued claim set has the given `jti`, `iat = nbf = now`, `exp = now + 1800`, and decodes back to itself under its signer throughout `now .. now + 1800` |
| Authentication.DecodeSign | sample/api/authentication.py:102-103 | decoding a token signed with the process key gives its claims back exactly when the audience matches and `nbf <= now <= exp` |
| Authentication.CharRange | sample/api/authentication.py:82 | the characters with consecutive codes from `first` |
| Authentication.AlphabetSpelledOut | sample/api/authentication.py:82 | the pool is the ten digits, then `a`-`z`, then `A`-`Z` |
| Authentication.Sample | sample/api/authentication.py:82 | a sample has one character per draw, each of them a pool character, the first being the pool character the first draw picks |
| Authentication.SampleDistinct | sample/api/authentication.py:82 | sampling a pool without repeats gives characters without repeats |
| Authentication.AlphabetFacts | sample/api/authentication.py:82 | the pool has 62 distinct characters, all ASCII letters or digits |
| Authentication.AlphabetRank | sample/api/authentication.py:82 | the code of each pool character by position |
| Authentication.IssuedClaimsShape | sample/api/authentication.py:80-92 | an issued claim set has `exp = iat + 1800`, `nbf = iat`, audience 'localhost', issuer '127.0.0.1', subject 'test-jwt', and a `jti` of 32 distinct ASCII letters and digits |
| Authentication.Authorize | sample/api/authentication.py:122-131 | the wrapped call proceeds exactly when a header is present and its token is valid; any other outcome is Unauthorized |
| Authentication.IssuedTokenValidates | sample/api/authentication.py:99-106 | a token just issued is valid exactly during its 1800-second lifetime |
| Authentication.OnlyIssuedTokensValidate | sample/api/authentication.py:104-106 | a valid token is one of the issued tokens and its claims are one of the issued claim sets |
| Authentication.TokenFactory.constructor | sample/api/authentication.py:36-45 | a new factory has its key and empty claim and token lists |
| Authentication.TokenFactory.MakeToken | sample/api/authentication.py:67-97 | `make_token` appends exactly one claim set and its signed token and returns that token |
| Authentication.TokenFactory.ValidToken | sample/api/authentication.py:99-106 | `valid_token` is decoding followed by membership in the issued claim sets |
| Authentication.TokenValidation | sample/api/authentication.py:112-132 | the guard outcome is the `Authorize` decision on the factory's issued claims |
| Restplus.Replace | sample/api/restplus.py:35 | single-character replacement keeps the length and changes exactly the occurrences of `from` |
| Restplus.ReplaceUnderscore | sample/api/restplus.py:35 | replacing '_' leaves none, is idempotent, and is the identity on names without '_' |
| Restplus.FormatUri | sample/api/restplus.py:29-35 | `format_uri` keeps the length and leaves no '_'; FormatUriProperties states the rest |
| Restplus.ExplodeEntityName | sample/api/restplus.py:38-41 | `explode_entity_name` keeps the length and leaves no '_'; ExplodeEntityNameProperties states the rest |
| Restplus.FormatUriProperties | sample/api/restplus.py:29-35 | `format_uri` turns every '_' into '/', touches nothing else, is idempotent |
| Restplus.ExplodeEntityNameProperties | sample/api/restplus.py:38-41 | `explode_entity_name` turns every '_' into ' ', touches nothing else, is idempotent |
| Restplus.NameSpace | sample/api/restplus.py:44-54 | the namespace path has the name's length and no '_', and the description is as long as the prefix and the name together; NameSpaceProperties states the rest |
| Restplus.NameSpaceProperties | sample/api/restplus.py:44-54 | the namespace path is the name with every '_' as '/', has no '_' and the name's length; the description is 'Operations related to ' followed by the name with every '_' as a space |
| Restplus.NameSpaceOfPlainName | sample/api/restplus.py:44-54 | a name without '_' is its own path and the subject of its description |
| Restplus.PersonNameSpace | sample/api/endpoints/person.py:16 | the person namespace is path 'person' with description 'Operations related to person' |
| Restplus.HandleError | sample/api/restplus.py:57-82 | NoResultFound gives 404 with the fixed message, Unauthorized 401 with no body, every other error 500 with the error as message |
| Restplus.DefaultErrorHandler | sample/api/restplus.py:57-64 | the answer for any error without its own handler; HandleError states it: 500 with the error as message |
| Restplus.DatabaseNotFoundErrorHandler | sample/api/restplus.py:67-72 | the answer for NoResultFound; HandleError states it: 404 with the fixed message |
| Restplus.UnauthorizedErrorHandler | sample/api/restplus.py:75-82 | the answer for Unauthorized; HandleError states it: 401 with no body |
| PersonEndpoints.Respond | sample/api/endpoints/person.py:18-77 | the answer is 405 exactly for a method the route is not declared with, and then nothing changes; only the token route touches the issued tokens |
| PersonEndpoints.RespondKeepsValid | sample/api/endpoints/person.py:18-77 | every request keeps the table invariant and the issued-token registry consistent |
| PersonEndpoints.ListPersons | sample/api/endpoints/person.py:26-32 | GET /person with a valid token returns all rows with 200 and changes nothing |
| PersonEndpoints.CreatePerson | sample/api/endpoints/person.py:34-40 | POST with a valid token creates the row as actor 1 and answers 201 with it; the table keeps that row without its modification stamps; an unstorable body answers 500 and writes nothing |
| PersonEndpoints.ReadPerson | sample/api/endpoints/person.py:52-58 | GET /person/id with a valid token returns the row with 200, 404 with the fixed message when missing, and the full list for id 0 |
| PersonEndpoints.UpdatePerson | sample/api/endpoints/person.py:60-70 | PUT answers 204 with no body exactly when `update` succeeds, and 404 with nothing written for a missing id |
| PersonEndpoints.UnauthorizedRejected | sample/api/endpoints/person.py:26-70 | without a valid token, GET and POST on the collection and GET and PUT on an item answer exactly 401 with no body and change nothing |
| PersonEndpoints.UnofferedMethodsNotAllowed | sample/api/endpoints/person.py:18-77 | PUT and DELETE on the collection and POST on an item have no handler and answer 405 before any token check, changing nothing |
| PersonEndpoints.DeleteAlwaysFails | sample/api/endpoints/person.py:72-77 | DELETE needs no token and always answers 500, after marking an existing row inactive |
| PersonEndpoints.StatusOnline | sample/api/endpoints/status.py:16-21 | GET /status answers 200 with "Online", token or not |
| PersonEndpoints.IssueToken | sample/api/endpoints/token.py:10-20 | GET /token answers 200 with a fresh token and records it |
| PersonEndpoints.CreateAnnLee | sample/api/endpoints/person.py:34-40 | posting Ann Lee with a valid token answers 201 with a stored row named Ann |
| PersonEndpoints.TokenThenListPersons | test/api/endpoints/test_person.py:18-25 | a client takes a token and, within its 1800 seconds, lists the persons with it: 200 with every row |
| PersonEndpoints.TokenCreateReadScenario | sample/api/endpoints/person.py:34-58 | token, then POST Ann Lee with it (201, named Ann), then GET of that person without a token (401) |
| PersonEndpoints.Dispatch | sample/api/endpoints/person.py:18-77 | the resources acting on the access object and token factory produce the response and state of the dispatch specification |
| Settings.GetEnv | sample/settings.py:53 | `os.getenv(name)` gives the variable exactly when it is set |
| Settings.GetEnvOr | sample/settings.py:39 | `os.getenv(name, default)` gives the variable when set, the default otherwise |
| Settings.Lower | sample/settings.py:36 | lower-casing keeps the length and lowers each ASCII letter |
| Settings.LowerEquals | sample/settings.py:30-36 | lower-casing gives a lower-case word exactly when the text spells it in any letter case |
| Settings.ToBool | sample/settings.py:33-36 | `to_bool(None)` is false; otherwise true exactly when the text spells 'true' in any letter case |
| Settings.ToBoolExamples | sample/settings.py:36 | 'True', 'TRUE' are true; '1', 'yes', '' and 'False' are not |
| Settings.EnvironmentIsLocal | sample/settings.py:27-30 | local when PYTHON_ENV is unset, else exactly when it spells 'local' or 'dev' in any letter case |
| Settings.LoadSettings | sample/settings.py:44 | the module loads exactly when `int()` accepts APPLICATION_PORT (default '5000') |
| Settings.DefaultSettings | sample/settings.py:39-87 | with nothing set: port 5000, bind 127.0.0.1, no debug, prefix /api, all REST_PLUS toggles off, rebuild on, tracking off, SQLite URI in the temporary directory |
| Settings.DatabaseLocation | sample/settings.py:73-85 | path is folder + '/' + 'local.db', the URI is 'sqlite:///' + path, and the SQLAlchemy URI is that URI when local, the variable otherwise |
| Settings.TogglesFollowEnvironment | sample/settings.py:47-87 | rebuild is on unless a set variable says otherwise; debug and validation are on only when set to 'true' in any case |
| App.KeyNameInjective | sample/app.py:61-63 | two keys with the same text are the same key, so a kwarg spelled like a setting writes that setting's entry |
| App.SettingsEntries | sample/app.py:28-49 | the entries `settings_to_config` writes; SettingsEntriesKeys and SettingsEntriesValues state them |
| App.SettingsEntriesKeys | sample/app.py:28-49 | `settings_to_config` writes every named key and nothing else; REST_PLUS_SWAGGER is not copied |
| App.SettingsEntriesValues | sample/app.py:33-49 | LOCAL holds the environment check; the toggles sit under their renamed keys |
| App.LaterWritesWin | sample/app.py:151-152 | after writing the settings and then the kwargs, a kwarg wins, then a setting, then the old value, and no key is lost |
| App.InitializeConfig | sample/app.py:151-152 | whichever later step raises, the config has the settings and then the kwargs written over it |
| App.InitializeSpec | sample/app.py:147-155 | when `initialize` raises, it is SystemExit or a KeyError and no blueprint was registered |
| App.InitializeSucceeds | sample/app.py:147-155 | `initialize` succeeds exactly when the data step and then the API step succeed, and then holds the new config, the registered blueprints and the table the data step left |
| App.ArgumentsOverride | sample/app.py:61-63 | after the kwargs loop each kwarg key holds its value, other keys are unchanged, none is dropped |
| App.ApiSpec | sample/app.py:78-92 | `initialize_api` raises only KeyError for TITLE or FLASK_URL_PREFIX; on success a blueprint is registered under the title and none is removed |
| App.ApiRegistersOnce | sample/app.py:85-92 | a successful `initialize_api` adds at most the title's blueprint, with the configured prefix, changes no other, and a second call changes nothing |
| App.ApiFailures | sample/app.py:85-88 | `initialize_api` raises KeyError for a missing TITLE, or a missing FLASK_URL_PREFIX when a blueprint would be made |
| App.DatabaseSpec | sample/app.py:95-116 | `initialize_database` raises exactly when SQLALCHEMY_REBUILD is missing, and then leaves the table as it was |
| App.DataSpec | sample/app.py:119-144 | `initialize_data` raises only SystemExit, and that only when the file is missing, or KeyError for a missing key; when it raises the table is as it was |
| App.RebuildSeedsOneRow | sample/app.py:107-114 | with a truthy SQLALCHEMY_REBUILD the table holds exactly one row, the active System person created by actor 1 at `now`, with no stored modification stamps; otherwise it is untouched |
| App.DataDispatch | sample/app.py:138-144 | `initialize_data` takes the local path exactly when LOCAL is truthy; that path exits when the file is missing and otherwise initialises the database |
| App.KwargsOverrideSettings | sample/app.py:151-152 | after `initialize` every kwarg wins over the setting of the same key, and every other named key holds its setting; a kwarg spelled like a setting is that setting's key |
| App.InitializeKeepsKeys | sample/app.py:151-152 | `initialize` drops no key: the config holds the old keys, every named key and every kwarg key |
| App.DefaultInitialize | sample/app.py:147-155 | a first `initialize` with default settings succeeds, seeds the System person and registers 'Sample App' under '/api' |
| App.FlaskApp.constructor | sample/app.py:11 | a new application has an empty config, no blueprints, and the given database |
| App.FlaskApp.SettingsToConfig | sample/app.py:19-51 | the config afterwards is the old config overwritten by the settings entries |
| App.FlaskApp.ArgumentsToConfig | sample/app.py:54-63 | the loop leaves the old config overwritten by the kwargs |
| App.FlaskApp.InitializeApi | sample/app.py:78-92 | blueprints and result follow the `initialize_api` specification |
| App.FlaskApp.InitializeDatabase | sample/app.py:95-116 | table and result follow the `initialize_database` specification |
| App.FlaskApp.InitializeData | sample/app.py:119-144 | table and result follow the `initialize_data` specification |
| App.FlaskApp.Initialize | sample/app.py:147-155 | settings, kwargs, data and API steps in that order, as the `initialize` specification says |
| CommandLine.TableListsExitCodes | sample/__main__.py:36-51 | `make_table` prints one row per exit code, with its message |
| CommandLine.Split | sample/__main__.py:62 | `split('=')` yields at least one piece, the first being the text before the first '=' |
| CommandLine.BindParts | sample/__main__.py:61-66 | a `--bind=` argument always splits into two or more pieces, the second being the text between the first and second '=' |
| CommandLine.LastBindWins | sample/__main__.py:60-66 | the last `--bind=` argument decides the bind |
| CommandLine.NoBindKeeps | sample/__main__.py:60-66 | without a `--bind=` argument the bind stays what it was |
| CommandLine.BindIsNotWorkers | sample/__main__.py:61-68 | no argument is both a `--bind=` and a `--workers=` argument |
| CommandLine.StartsWithAt | sample/__main__.py:61-75 | `startswith(prefix)` holds exactly when the prefix fits and matches character by character |
| CommandLine.FlagsAreStartsWith | sample/__main__.py:61-75 | each flag test is `startswith` with its literal: `--bind=`, `--workers=`, `--codes`, `--help`, `--no-start` |
| CommandLine.ScanArg | sample/__main__.py:61-76 | one argument that hands on to the next does not ask to stop; one that exits does so with 0 or -5, with 0 only for a stopping argument; one that crashes is a `--workers=` argument |
| CommandLine.ScanArgFacts | sample/__main__.py:61-76 | one argument crashes exactly when it is `--workers=` with `parts` unassigned, otherwise ends the scan exactly when it asks to stop and then with 0; it prints the table exactly for `--codes`/`--help`; one that does not end the scan takes the bind of a `--bind=` and leaves `parts` assigned once a `--bind=` was seen |
| CommandLine.TablesAreRows | sample/__main__.py:72-74 | what the `--codes`/`--help` arguments print is table rows only |
| CommandLine.NoTables | sample/__main__.py:72-74 | without `--codes` or `--help` no table is printed |
| CommandLine.FirstStop | sample/__main__.py:75-76 | the index of the first argument starting with `--help` or `--no-start` |
| CommandLine.Scan | sample/__main__.py:60-80 | the options returned have 4 workers, an exit is 0 or -5, and a crash needs a `--workers=` argument |
| CommandLine.Run | sample/__main__.py:54-80 | `handel_user_arguments` returns 4 workers whenever it returns, and never exits with -6 |
| CommandLine.ScanOptions | sample/__main__.py:60-80 | a scan that returns options had no stopping argument, keeps workers 4, ends with the last bind, and printed a table per `--codes`/`--help` |
| CommandLine.ScanExit | sample/__main__.py:72-76 | a scan that exits does so with 0 at the first stopping argument, after the tables up to it |
| CommandLine.TablesForPrefix | sample/__main__.py:72-74 | the tables printed up to an argument are the first argument's table followed by those of the rest up to it |
| CommandLine.ScanCrash | sample/__main__.py:62-71 | the scan crashes exactly when `--workers=` comes before any `--bind=` and any stopping argument |
| CommandLine.DefaultOptions | sample/__main__.py:58-80 | with no recognised flag the result is bind '127.0.0. 1:5000' and workers 4, and nothing is printed |
| CommandLine.OptionsBind | sample/__main__.py:61-66 | bind is the second '='-piece of the last `--bind=` argument, the default without one; workers is always 4 |
| CommandLine.ExitCodesUnused | sample/__main__.py:61-71 | the -5 and -6 exits never happen and nothing goes to standard error |
| CommandLine.WorkersBeforeBindCrashes | sample/__main__.py:62-69 | `--workers=` before any `--bind=` crashes, and nothing else does |
| CommandLine.StopFlagsExit | sample/__main__.py:75-76 | unless it crashes first, the scan exits 0 exactly when some argument, argv[0] included, starts with `--help` or `--no-start` |
| CommandLine.HelpPrintsTable | sample/__main__.py:72-76 | a first stopping `--help` exits 0 after printing the table for it |
| CommandLine.HandleArgument | sample/__main__.py:61-76 | the body of the loop for one argument does what the one-argument step specifies: ends with -5, a crash or 0, or hands on the bind, `parts` and what it printed |
| CommandLine.HandleUserArguments | sample/__main__.py:54-80 | the loop over argv returns what the scan specification gives |

## Left out

- SQLAlchemy sessions, queries and column declarations: the table is a map. Type coercion of column values, foreign keys and the identity map (two loads of one row being one object) are not modelled.
- A failed `update` or `persistant_delete` leaves pending changes in the real session; the model discards them.
- `create` reads the clock once for both audit stamps, where the source reads `datetime.now()` twice.
- RSA key generation and RS256: a key is a number and signing is an opaque constructor. Token text, headers and the `.decode("utf-8")` calls are not modelled.
- `random.sample` is modelled from the generator's draws (the pool branch of CPython's algorithm); the generator itself is not.
- `datetime.now()`/`utcnow()` are integer-second parameters; `dateutil.parser.parse` is a parameter function.
- `_raw` and `_tokens` are class attributes shared by all factories; the model has one factory, as the program does.
- Flask routing, request parsing, marshalling (`marshal_list_with`), Swagger models, CORS and blueprint internals. The POST body is returned as the stored row; whether the framework can serialise it is not modelled.
- A 405 for an unsupported method has no body in the model; the 500 body holds the exception itself rather than its serialisation.
- `int()` parsing of APPLICATION_PORT is a host parameter; `str.lower` lowers ASCII letters only.
- `os.path.abspath`, `tempfile.gettempdir`, `os.makedirs`, `touch` and `os.path.exists` are host parameters or a `fileExists` flag; their own failures are not modelled.
- `get_logger`, every log call, `print(column)` in `dict_to_entity`, the table borders and the row text format of `make_table`.
- gunicorn's `StandaloneApplication`, `run_application`, `local_main` and `main`; `sys.exit` is an outcome value.
- Keyword arguments to `initialize` are given as config keys. A kwarg whose text is one of the named keys is that named key: the type of `Other` excludes those texts.
- `api.init_app`, `db.init_app` and the application context of `initialize_database`.
- Concurrent requests and thread safety of the shared token lists.
- App.FlaskApp.SettingsToConfig: the eighteen assignments are one map update, because no key is read back in between.
- Authentication.UserId: `user_id()` is the constant 1, used by the endpoints; it has no contract of its own.
- App.FlaskApp.constructor: `Flask(__name__)` starts with Flask's default config entries (DEBUG, SECRET_KEY and the rest); the model starts with an empty config. None of those default keys is a key the application writes or reads, so no step here depends on them.
- Restplus.HandleError: the handlers are modelled with Flask's debug mode off. In debug mode (the FLASK_DEBUG environment variable set) exceptions propagate, and flask_restplus re-raises those that are not HTTP errors (NoResultFound, IntegrityError, AttributeError, the "Not Implemented" exception) instead of calling these handlers; Unauthorized, an HTTP error, is still handled.
- Modification stamps: `audit_modify` sets `modified_by_id` and `modified_on` on the object, but the person table has no such columns, so they are never stored. The model keeps them on the object in the session and stores rows without them (`Accessible.Persisted`), so a row loaded again has none.
