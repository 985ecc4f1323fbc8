/**
 * The service configuration read from the environment: the back-end list
 * in `$SAPI_BACKENDS`, the OAuth settings and the role groups.
 *
 * The environment is a parameter (a map from variable names to values);
 * the back-end classes available to `getattr` are a set of class names.
 * The configuration of the application is a class whose `config` field
 * the loaders update.
 */
module Conf {
  import opened Common
  import opened DictUtils

  /** `BACKEND_SEPARATOR`, the unicorn between back-ends. */
  const BackendSeparator: char := '\U{1F984}'
  /** `CONFIG_SEPARATOR`, the rainbow between the fields of one back-end. */
  const ConfigSeparator: char := '\U{1F308}'
  const BackendsVariable := "SAPI_BACKENDS"

  // -----------------------------------------------------------------------
  // conf_to_dict

  /** `conf_to_dict(conf_list)`: an odd-length list fails its assertion; otherwise `dict(pairwise(...))`. */
  function ConfToDict(confList: seq<string>): (r: Result<map<string, string>>)
    ensures r.Ok? <==> |confList| % 2 == 0
    ensures r.Raised? ==> r.exc == AssertionError("")
  {
    if |confList| % 2 != 0 then Raised(AssertionError(""))
    else Ok(DictOf(Pairwise(confList)))
  }

  /**
   * The keys of `conf_to_dict` are the entries at even positions, and each
   * maps to the entry after its last occurrence.
   */
  lemma ConfToDictLookup(confList: seq<string>, p: nat)
    requires |confList| % 2 == 0
    requires 2 * p + 1 < |confList|
    requires forall q :: p < q && 2 * q + 1 < |confList| ==> confList[2 * q] != confList[2 * p]
    ensures confList[2 * p] in ConfToDict(confList).value
    ensures ConfToDict(confList).value[confList[2 * p]] == confList[2 * p + 1]
  {
    var pairs := Pairwise(confList);
    var k := confList[2 * p];
    assert pairs[p] == (k, confList[2 * p + 1]);
    forall q | p < q < |pairs| ensures pairs[q].0 != k {
      assert pairs[q] == (confList[2 * q], confList[2 * q + 1]);
    }
    DictOfLastWins(pairs, k);
  }

  /** Every key of `conf_to_dict` is an entry at an even position. */
  lemma ConfToDictKeys(confList: seq<string>, k: string)
    requires |confList| % 2 == 0
    requires k in ConfToDict(confList).value
    ensures exists i :: 0 <= i < |confList| / 2 && confList[2 * i] == k
  {
    var pairs := Pairwise(confList);
    DictOfLastWins(pairs, k);
    var i :| 0 <= i < |pairs| && pairs[i].0 == k;
    assert confList[2 * i] == k;
  }

  /** The key/value list that lists `pairs` one after the other. */
  function Flatten(pairs: seq<(string, string)>): (l: seq<string>)
    ensures |l| == 2 * |pairs|
    ensures forall i :: 0 <= i < |pairs| ==> l[2 * i] == pairs[i].0 && l[2 * i + 1] == pairs[i].1
  {
    if pairs == [] then []
    else
      var rest := Flatten(pairs[1..]);
      var l := [pairs[0].0, pairs[0].1] + rest;
      assert forall i :: 1 <= i < |pairs| ==> l[2 * i] == rest[2 * (i - 1)] && l[2 * i + 1] == rest[2 * (i - 1) + 1];
      l
  }

  /** `conf_to_dict` reads a flattened list of pairs back as `dict(pairs)`. */
  lemma ConfToDictFlatten(pairs: seq<(string, string)>)
    ensures ConfToDict(Flatten(pairs)) == Ok(DictOf(pairs))
  {
    var l := Flatten(pairs);
    assert Pairwise(l) == pairs;
  }

  // -----------------------------------------------------------------------
  // load_backend_conf

  /** A back-end to instantiate: its endpoint, class name and keyword arguments. */
  datatype BackendEntry = BackendEntry(endpoint: string, className: string, options: map<string, string>)

  /**
   * One back-end line, split at the rainbows: the endpoint, the class
   * (`IndexError` when the line has no second field, `AttributeError` when
   * no such class exists), then the options.
   */
  function ParseBackend(line: string, classes: set<string>): (r: Result<BackendEntry>)
    ensures r.Ok? ==> r.value.className in classes
    ensures r.Ok? <==> |Split(line, ConfigSeparator)| >= 2 && Split(line, ConfigSeparator)[1] in classes
                       && |Split(line, ConfigSeparator)| % 2 == 0
  {
    var conf := Split(line, ConfigSeparator);
    assert |conf| >= 2 ==> |conf[2..]| + 2 == |conf|;
    if |conf| < 2 then Raised(IndexError)
    else if conf[1] !in classes then Raised(AttributeError)
    else match ConfToDict(conf[2..])
      case Raised(e) => Raised(e)
      case Ok(options) => Ok(BackendEntry(conf[0], conf[1], options))
  }

  /**
   * The back-ends `load_backend_conf` instantiates from the lines of the
   * variable, in order, up to the first line that fails, and that failure.
   */
  function LoadPlan(lines: seq<string>, classes: set<string>): (plan: (seq<BackendEntry>, Option<Exception>))
    ensures |plan.0| <= |lines|
    ensures plan.1.None? <==> |plan.0| == |lines|
    decreases |lines|
  {
    if lines == [] then ([], None)
    else match ParseBackend(lines[0], classes)
      case Raised(e) => ([], Some(e))
      case Ok(b) =>
        var rest := LoadPlan(lines[1..], classes);
        ([b] + rest.0, rest.1)
  }

  /**
   * The plan instantiates the parsed lines one by one and stops at the
   * first line that fails, reporting that line's exception.
   */
  lemma {:induction false} LoadPlanStopsAtFirstFailure(lines: seq<string>, classes: set<string>)
    ensures var plan := LoadPlan(lines, classes);
            && (forall i :: 0 <= i < |plan.0| ==> ParseBackend(lines[i], classes) == Ok(plan.0[i]))
            && (plan.1.Some? ==> ParseBackend(lines[|plan.0|], classes) == Raised(plan.1.value))
  {
    if lines != [] && ParseBackend(lines[0], classes).Ok? {
      LoadPlanStopsAtFirstFailure(lines[1..], classes);
    }
  }

  /** A back-end written out as a configuration line. */
  datatype BackendLine = BackendLine(endpoint: string, className: string, options: seq<(string, string)>)

  function RenderLine(b: BackendLine): string
  {
    Join([b.endpoint, b.className] + Flatten(b.options), ConfigSeparator)
  }

  /** `$SAPI_BACKENDS` listing the back-ends `bs`. */
  function RenderBackends(bs: seq<BackendLine>): string
  {
    Join(seq(|bs|, i requires 0 <= i < |bs| => RenderLine(bs[i])), BackendSeparator)
  }

  /** A line holds no separator except the rainbows between its fields. */
  predicate CleanLine(b: BackendLine)
  {
    && ConfigSeparator !in b.endpoint && BackendSeparator !in b.endpoint
    && ConfigSeparator !in b.className && BackendSeparator !in b.className
    && forall i :: 0 <= i < |b.options| ==>
         ConfigSeparator !in b.options[i].0 && BackendSeparator !in b.options[i].0 &&
         ConfigSeparator !in b.options[i].1 && BackendSeparator !in b.options[i].1
  }

  /** A rendered line is read back as the back-end it describes. */
  lemma ParseRenderLine(b: BackendLine, classes: set<string>)
    requires CleanLine(b)
    requires b.className in classes
    ensures BackendSeparator !in RenderLine(b)
    ensures ParseBackend(RenderLine(b), classes) == Ok(BackendEntry(b.endpoint, b.className, DictOf(b.options)))
  {
    var fields := [b.endpoint, b.className] + Flatten(b.options);
    forall i | 0 <= i < |fields| ensures ConfigSeparator !in fields[i] && BackendSeparator !in fields[i] {
      if i >= 2 {
        var p := (i - 2) / 2;
        assert fields[i] == if i % 2 == 0 then b.options[p].0 else b.options[p].1;
      }
    }
    SplitJoin(fields, ConfigSeparator);
    JoinFree(fields, ConfigSeparator, BackendSeparator);
    assert fields[2..] == Flatten(b.options);
    ConfToDictFlatten(b.options);
  }

  /** Joining pieces free of a character other than the separator gives a string free of it. */
  lemma {:induction false} JoinFree(parts: seq<string>, sep: char, c: char)
    requires sep != c
    requires forall i :: 0 <= i < |parts| ==> c !in parts[i]
    ensures c !in Join(parts, sep)
  {
    if |parts| > 1 {
      JoinFree(parts[1..], sep, c);
    }
  }

  /**
   * Writing back-ends into `$SAPI_BACKENDS` and loading them gives every one
   * of them back, in order, each with `dict(options)` as its arguments.
   */
  lemma {:induction false} LoadRendered(bs: seq<BackendLine>, classes: set<string>)
    requires |bs| >= 1
    requires forall i :: 0 <= i < |bs| ==> CleanLine(bs[i]) && bs[i].className in classes
    ensures var plan := LoadPlan(Split(RenderBackends(bs), BackendSeparator), classes);
            && plan.1.None?
            && |plan.0| == |bs|
            && forall i :: 0 <= i < |bs| ==>
                 plan.0[i] == BackendEntry(bs[i].endpoint, bs[i].className, DictOf(bs[i].options))
  {
    var lines := seq(|bs|, i requires 0 <= i < |bs| => RenderLine(bs[i]));
    forall i | 0 <= i < |bs| ensures BackendSeparator !in lines[i] {
      ParseRenderLine(bs[i], classes);
    }
    SplitJoin(lines, BackendSeparator);
    var plan := LoadPlan(lines, classes);
    LoadPlanStopsAtFirstFailure(lines, classes);
    forall i | 0 <= i < |bs|
      ensures ParseBackend(lines[i], classes).Ok?
      ensures ParseBackend(lines[i], classes).value == BackendEntry(bs[i].endpoint, bs[i].className, DictOf(bs[i].options))
    {
      ParseRenderLine(bs[i], classes);
    }
  }

  // -----------------------------------------------------------------------
  // OAuth settings and role groups

  /** `os.environ`. */
  type Environment = map<string, string>

  /**
   * `set_oauth_property`: the variable `SAPI_OAUTH_<name>` wins over the
   * default; with neither a set variable nor a truthy default it is a
   * `KeyError` naming the variable.
   */
  function OauthSetting(env: Environment, keyName: string, default: Option<string>): (r: Result<string>)
    ensures var envKey := "SAPI_OAUTH_" + keyName;
            && (r.Raised? <==> envKey !in env && !Truthy(default))
            && (r.Raised? ==> r.exc == KeyError("$" + envKey + " not set!"))
            && (envKey in env ==> r == Ok(env[envKey]))
            && (envKey !in env && Truthy(default) ==> r == Ok(default.value))
  {
    var internalKey := "OAUTH_" + keyName;
    var envKey := "SAPI_" + internalKey;
    assert envKey == "SAPI_OAUTH_" + keyName;
    if !Truthy(default) && envKey !in env then Raised(KeyError("$" + envKey + " not set!"))
    else if envKey in env then Ok(env[envKey])
    else Ok(default.value)
  }

  /** `set(row)` for the one CSV row of a group list. */
  function GroupsOf(groupString: string): (groups: set<string>)
    ensures groups == {} <==> groupString == ""
  {
    if groupString == "" then {}
    else
      var row := Split(groupString, ',');
      var groups := set g | g in row;
      assert row[0] in groups;
      groups
  }

  /** A comma-joined list of groups is read back as the set of those groups. */
  lemma GroupsOfJoin(groups: seq<string>)
    requires |groups| >= 1
    requires forall i :: 0 <= i < |groups| ==> ',' !in groups[i]
    requires Join(groups, ',') != ""
    ensures GroupsOf(Join(groups, ',')) == set g | g in groups
  {
    SplitJoin(groups, ',');
  }

  /** The names `set_auth_string` uses for a role: `<ROLE>_GROUPS` and `SAPI_ROLE_<ROLE>_GROUPS`. */
  function GroupsKey(roleName: string): string
  {
    Upper(roleName) + "_GROUPS"
  }

  function GroupsVariable(roleName: string): string
  {
    "SAPI_ROLE_" + GroupsKey(roleName)
  }

  /** The groups of a role: an unset or empty variable gives none. */
  function RoleGroups(env: Environment, roleName: string): (groups: set<string>)
    ensures groups == {} <==> GroupsVariable(roleName) !in env || env[GroupsVariable(roleName)] == ""
  {
    GroupsOf(if GroupsVariable(roleName) in env then env[GroupsVariable(roleName)] else "")
  }

  /** The configuration key of each OAuth property `load_oauth_conf` sets, with its default. */
  const OauthProperties: seq<(string, Option<string>)> := [
    ("CLIENT_ID", None),
    ("SECRET_KEY", None),
    ("ACCESS_TOKEN_URL", Some("https://oauth.web.cern.ch/OAuth/Token")),
    ("AUTHORIZE_URL", Some("https://oauth.web.cern.ch/OAuth/Authorize")),
    ("GROUPS_URL", Some("https://oauthresource.web.cern.ch/api/Groups")),
    ("CALLBACK_URL_RELATIVE", Some("/oauth-done"))
  ]

  /** The configuration keys `load_oauth_conf` writes. */
  function OauthKeys(): set<string>
  {
    set i | 0 <= i < |OauthProperties| :: "OAUTH_" + OauthProperties[i].0
  }

  /** Only the client id and the secret key have no default, so only they must be in the environment. */
  lemma OauthRequiredKeys(env: Environment)
    ensures (forall i :: 0 <= i < |OauthProperties| ==> OauthSetting(env, OauthProperties[i].0, OauthProperties[i].1).Ok?)
            <==> "SAPI_OAUTH_CLIENT_ID" in env && "SAPI_OAUTH_SECRET_KEY" in env
  {
    assert "SAPI_OAUTH_" + "CLIENT_ID" == "SAPI_OAUTH_CLIENT_ID";
    assert "SAPI_OAUTH_" + "SECRET_KEY" == "SAPI_OAUTH_SECRET_KEY";
    if "SAPI_OAUTH_CLIENT_ID" in env && "SAPI_OAUTH_SECRET_KEY" in env {
      forall i | 0 <= i < |OauthProperties|
        ensures OauthSetting(env, OauthProperties[i].0, OauthProperties[i].1).Ok?
      {
        if i >= 2 {
          assert Truthy(OauthProperties[i].1);
        }
      }
    } else {
      assert OauthProperties[0] == ("CLIENT_ID", None);
      assert OauthProperties[1] == ("SECRET_KEY", None);
    }
  }

  // -----------------------------------------------------------------------
  // The application configuration

  /** A configuration value the loaders store. */
  datatype ConfValue = Text(s: string) | Groups(groups: set<string>) | Flag(b: bool) | Mapping(m: map<string, string>)

  /**
   * `load_oauth_conf` from the `i`-th property on, given the configuration
   * so far: each property is written in turn, and the first one that
   * raises stops the loading with the properties before it written.
   */
  function LoadFrom(env: Environment, config: map<string, ConfValue>, i: nat): (Result<()>, map<string, ConfValue>)
    requires i <= |OauthProperties|
    decreases |OauthProperties| - i
  {
    if i == |OauthProperties| then (Ok(()), config)
    else
      var (name, default) := OauthProperties[i];
      match OauthSetting(env, name, default)
      case Raised(e) => (Raised(e), config)
      case Ok(v) => LoadFrom(env, config["OAUTH_" + name := Text(v)], i + 1)
  }

  /** `load_oauth_conf` on a configuration: its outcome and the configuration after it. */
  function LoadOauth(env: Environment, config: map<string, ConfValue>): (Result<()>, map<string, ConfValue>)
  {
    LoadFrom(env, config, 0)
  }

  /** The keys the properties from the `i`-th on write. */
  function KeysFrom(i: nat): set<string>
  {
    set j | i <= j < |OauthProperties| :: "OAUTH_" + OauthProperties[j].0
  }

  /** Loading from the `i`-th property touches no key outside those it writes. */
  lemma {:induction false} LoadFromFrame(env: Environment, config: map<string, ConfValue>, i: nat, k: string)
    requires i <= |OauthProperties|
    requires k !in KeysFrom(i)
    ensures var out := LoadFrom(env, config, i).1;
            (k in out <==> k in config) && (k in out ==> out[k] == config[k])
    decreases |OauthProperties| - i
  {
    if i < |OauthProperties| {
      var (name, default) := OauthProperties[i];
      assert "OAUTH_" + name in KeysFrom(i);
      assert KeysFrom(i + 1) <= KeysFrom(i);
      if OauthSetting(env, name, default).Ok? {
        LoadFromFrame(env, config["OAUTH_" + name := Text(OauthSetting(env, name, default).value)], i + 1, k);
      }
    }
  }

  /**
   * Loading from the `i`-th property succeeds exactly when every property
   * from there on has a setting, and then each holds its setting.
   */
  lemma {:induction false} LoadFromValues(env: Environment, config: map<string, ConfValue>, i: nat)
    requires i <= |OauthProperties|
    ensures LoadFrom(env, config, i).0.Ok? <==>
              forall j :: i <= j < |OauthProperties| ==> OauthSetting(env, OauthProperties[j].0, OauthProperties[j].1).Ok?
    ensures LoadFrom(env, config, i).0.Ok? ==>
              forall j :: i <= j < |OauthProperties| ==>
                var out := LoadFrom(env, config, i).1;
                "OAUTH_" + OauthProperties[j].0 in out &&
                out["OAUTH_" + OauthProperties[j].0] == Text(OauthSetting(env, OauthProperties[j].0, OauthProperties[j].1).value)
    decreases |OauthProperties| - i
  {
    if i < |OauthProperties| {
      var (name, default) := OauthProperties[i];
      if OauthSetting(env, name, default).Ok? {
        var next := config["OAUTH_" + name := Text(OauthSetting(env, name, default).value)];
        LoadFromValues(env, next, i + 1);
        forall j | i < j < |OauthProperties| ensures "OAUTH_" + name != "OAUTH_" + OauthProperties[j].0 {
          PropertyKeysDistinct(j);
        }
        assert "OAUTH_" + name !in KeysFrom(i + 1);
        LoadFromFrame(env, next, i + 1, "OAUTH_" + name);
      }
    }
  }

  /**
   * `load_oauth_conf` succeeds exactly when the client id and the secret
   * key are in the environment, and then every property holds its setting.
   */
  lemma LoadOauthSucceeds(env: Environment, config: map<string, ConfValue>)
    ensures LoadOauth(env, config).0.Ok? <==> "SAPI_OAUTH_CLIENT_ID" in env && "SAPI_OAUTH_SECRET_KEY" in env
    ensures LoadOauth(env, config).0.Ok? ==> forall i :: 0 <= i < |OauthProperties| ==>
              var out := LoadOauth(env, config).1;
              "OAUTH_" + OauthProperties[i].0 in out &&
              out["OAUTH_" + OauthProperties[i].0] == Text(OauthSetting(env, OauthProperties[i].0, OauthProperties[i].1).value)
  {
    OauthRequiredKeys(env);
    LoadFromValues(env, config, 0);
  }

  /** A missing client id raises before anything is written. */
  lemma LoadOauthNoClientId(env: Environment, config: map<string, ConfValue>)
    requires "SAPI_OAUTH_CLIENT_ID" !in env
    ensures LoadOauth(env, config) == (Raised(KeyError("$SAPI_OAUTH_CLIENT_ID not set!")), config)
  {
    var (name, default) := OauthProperties[0];
    assert name == "CLIENT_ID" && default == None;
    assert "SAPI_OAUTH_" + name == "SAPI_OAUTH_CLIENT_ID";
    assert "$" + ("SAPI_OAUTH_" + name) + " not set!" == "$SAPI_OAUTH_CLIENT_ID not set!";
  }

  /** A missing secret key raises once the client id is written. */
  lemma LoadOauthNoSecretKey(env: Environment, config: map<string, ConfValue>)
    requires "SAPI_OAUTH_CLIENT_ID" in env && "SAPI_OAUTH_SECRET_KEY" !in env
    ensures LoadOauth(env, config) ==
              (Raised(KeyError("$SAPI_OAUTH_SECRET_KEY not set!")),
               config["OAUTH_CLIENT_ID" := Text(env["SAPI_OAUTH_CLIENT_ID"])])
  {
    var (name, default) := OauthProperties[0];
    assert name == "CLIENT_ID" && default == None;
    assert "SAPI_OAUTH_" + name == "SAPI_OAUTH_CLIENT_ID";
    assert "OAUTH_" + name == "OAUTH_CLIENT_ID";
    var next := config["OAUTH_CLIENT_ID" := Text(env["SAPI_OAUTH_CLIENT_ID"])];
    assert LoadOauth(env, config) == LoadFrom(env, next, 1);
    var (name1, default1) := OauthProperties[1];
    assert name1 == "SECRET_KEY" && default1 == None;
    assert "SAPI_OAUTH_" + name1 == "SAPI_OAUTH_SECRET_KEY";
    assert "$" + ("SAPI_OAUTH_" + name1) + " not set!" == "$SAPI_OAUTH_SECRET_KEY not set!";
  }

  /** `load_oauth_conf` changes no configuration key but the OAuth ones. */
  lemma LoadOauthFrame(env: Environment, config: map<string, ConfValue>, k: string)
    requires k !in OauthKeys()
    ensures var out := LoadOauth(env, config).1;
            (k in out <==> k in config) && (k in out ==> out[k] == config[k])
  {
    assert KeysFrom(0) == OauthKeys();
    LoadFromFrame(env, config, 0, k);
  }


  /** The `app.config` dictionary the loaders fill in. */
  class App {
    var config: map<string, ConfValue>

    constructor(initial: map<string, ConfValue>)
      ensures config == initial
    {
      config := initial;
    }

    /** `set_oauth_property(app, key_name, default_value)`. */
    method SetOauthProperty(env: Environment, keyName: string, default: Option<string>) returns (r: Result<()>)
      modifies this`config
      ensures OauthSetting(env, keyName, default).Raised? ==>
                r == Raised(OauthSetting(env, keyName, default).exc) && config == old(config)
      ensures OauthSetting(env, keyName, default).Ok? ==>
                r == Ok(()) && config == old(config)["OAUTH_" + keyName := Text(OauthSetting(env, keyName, default).value)]
    {
      var internalKey := "OAUTH_" + keyName;
      var envKey := "SAPI_" + internalKey;
      assert envKey == "SAPI_OAUTH_" + keyName;
      if !Truthy(default) && envKey !in env {
        return Raised(KeyError("$" + envKey + " not set!"));
      }
      config := config[internalKey := Text(if envKey in env then env[envKey] else default.value)];
      r := Ok(());
    }

    /**
     * `load_oauth_conf(app)`: the six properties in order, stopping at the
     * first missing one (the properties of `OauthProperties`, in its order).
     */
    method LoadOauthConf(env: Environment) returns (r: Result<()>)
      modifies this`config
      ensures (r, config) == LoadOauth(env, old(config))
    {
      ghost var before := config;
      r := SetOauthProperty(env, "CLIENT_ID", None);
      if r.Raised? {
        return;
      }
      assert LoadFrom(env, config, 1) == LoadOauth(env, before);
      r := SetOauthProperty(env, "SECRET_KEY", None);
      if r.Raised? {
        return;
      }
      assert LoadFrom(env, config, 2) == LoadOauth(env, before);
      // the remaining properties have defaults and cannot raise
      r := SetOauthProperty(env, "ACCESS_TOKEN_URL", Some("https://oauth.web.cern.ch/OAuth/Token"));
      assert LoadFrom(env, config, 3) == LoadOauth(env, before);
      r := SetOauthProperty(env, "AUTHORIZE_URL", Some("https://oauth.web.cern.ch/OAuth/Authorize"));
      assert LoadFrom(env, config, 4) == LoadOauth(env, before);
      r := SetOauthProperty(env, "GROUPS_URL", Some("https://oauthresource.web.cern.ch/api/Groups"));
      assert LoadFrom(env, config, 5) == LoadOauth(env, before);
      r := SetOauthProperty(env, "CALLBACK_URL_RELATIVE", Some("/oauth-done"));
      assert LoadFrom(env, config, 6) == LoadOauth(env, before);
      r := Ok(());
    }

    /** `set_auth_string(app, role_name)`. */
    method SetAuthString(env: Environment, roleName: string)
      modifies this`config
      ensures Upper(roleName) != "USER" ==>
                config == old(config)[GroupsKey(roleName) := Groups(RoleGroups(env, roleName))]
      ensures Upper(roleName) == "USER" ==>
                config == old(config)[GroupsKey(roleName) := Groups(RoleGroups(env, roleName))]
                                     ["USER_IS_UNAUTHENTICATED" := Flag(RoleGroups(env, roleName) == {})]
    {
      var role := Upper(roleName);
      var keyName := role + "_GROUPS";
      var envVarName := "SAPI_ROLE_" + keyName;
      var groupString := if envVarName in env then env[envVarName] else "";
      var groupData := GroupsOf(groupString);
      config := config[keyName := Groups(groupData)];
      if role == "USER" {
        config := config["USER_IS_UNAUTHENTICATED" := Flag(groupData == {})];
      }
    }

    /**
     * `load_backend_conf(app, backends_module)`: makes sure the `SUBSYSTEM`
     * mapping exists, reads `$SAPI_BACKENDS` and instantiates its back-ends
     * in order; returns those instantiated and the exception that stopped
     * the loading, if any.
     */
    method LoadBackendConf(env: Environment, classes: set<string>) returns (loaded: seq<BackendEntry>, failure: Option<Exception>)
      modifies this`config
      ensures config == if "SUBSYSTEM" in old(config) then old(config) else old(config)["SUBSYSTEM" := Mapping(map[])]
      ensures BackendsVariable !in env ==> loaded == [] && failure == Some(KeyError(BackendsVariable))
      ensures BackendsVariable in env ==>
                (loaded, failure) == LoadPlan(Split(env[BackendsVariable], BackendSeparator), classes)
    {
      if "SUBSYSTEM" !in config {
        config := config["SUBSYSTEM" := Mapping(map[])];
      }
      if BackendsVariable !in env {
        return [], Some(KeyError(BackendsVariable));
      }
      var backends := Split(env[BackendsVariable], BackendSeparator);
      loaded, failure := [], None;
      var i := 0;
      assert backends[0..] == backends;
      assert loaded + LoadPlan(backends, classes).0 == LoadPlan(backends, classes).0;
      while i < |backends|
        invariant 0 <= i <= |backends|
        invariant failure == None
        invariant LoadPlan(backends, classes) == (loaded + LoadPlan(backends[i..], classes).0, LoadPlan(backends[i..], classes).1)
      {
        var rest := backends[i..];
        assert rest[0] == backends[i] && rest[1..] == backends[i + 1..];
        var entry := ParseBackend(backends[i], classes);
        if entry.Raised? {
          assert LoadPlan(rest, classes) == ([], Some(entry.exc));
          assert loaded + [] == loaded;
          return loaded, Some(entry.exc);
        }
        var later := LoadPlan(backends[i + 1..], classes);
        assert LoadPlan(rest, classes) == ([entry.value] + later.0, later.1);
        assert loaded + ([entry.value] + later.0) == (loaded + [entry.value]) + later.0;
        loaded := loaded + [entry.value];
        i := i + 1;
      }
      assert backends[i..] == [];
      assert loaded + [] == loaded;
    }
  }

  /** The six configuration keys are different, so setting a later one keeps the earlier ones. */
  lemma PropertyKeysDistinct(i: nat)
    requires i < |OauthProperties|
    ensures forall j :: 0 <= j < i ==> "OAUTH_" + OauthProperties[j].0 != "OAUTH_" + OauthProperties[i].0
  {
    forall j | 0 <= j < i ensures "OAUTH_" + OauthProperties[j].0 != "OAUTH_" + OauthProperties[i].0 {
      var a := "OAUTH_" + OauthProperties[j].0;
      var b := "OAUTH_" + OauthProperties[i].0;
      assert a[6..] == OauthProperties[j].0 && b[6..] == OauthProperties[i].0;
    }
  }
}
