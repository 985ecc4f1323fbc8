/**
 * The `controller:path` parsing of `BasicStorage.__init__`
 * (storage/vendors/BasicStorage.py).
 *
 * A server path names a volume by the controller that serves it and the
 * junction path on that controller. The constructor requires exactly one
 * colon, takes the cluster name from the controller with the regular
 * expression `^(\D{6,})\d{1,}.*$`, checks the path against `^[/\-\w]+$`, and
 * reads the cluster's storage type from the configuration.
 *
 * Without the MULTILINE flag `$` matches at the end of the string or just
 * before a final newline, `.` matches anything but a newline and `\D` matches
 * a newline; the predicates below spell these rules out.
 */
module ServerPath {
  import opened Common

  const ColonMessage := "too many <:> in the tuple controller serverpath, this is an error"
  const LayoutMessage := "remote path contains strange characters"

  /** The configuration: cluster name to its settings. */
  type Config = map<string, map<string, string>>

  /** The length of the longest prefix of `s` without a decimal digit. */
  function LeadingNonDigits(s: string): (n: nat)
    ensures n <= |s|
    ensures forall i :: 0 <= i < n ==> !IsDigit(s[i])
    ensures n == |s| || IsDigit(s[n])
  {
    if s == [] || IsDigit(s[0]) then 0 else 1 + LeadingNonDigits(s[1..])
  }

  /** `s` matches `.*$`: no newline except possibly the last character. */
  predicate SingleLine(s: string)
  {
    forall i :: 0 <= i < |s| - 1 ==> s[i] != '\n'
  }

  /**
   * `^(\D{6,})\d{1,}.*$` matches `controller` with `cluster` as its group:
   * at least six non-digits, then a digit, then one line.
   */
  predicate ControllerMatches(controller: string, cluster: string)
    // the group is the longest digit-free prefix, so it is unique
    ensures ControllerMatches(controller, cluster) ==> |cluster| == LeadingNonDigits(controller)
  {
    assert 6 <= |cluster| < |controller| && controller[..|cluster|] == cluster &&
           (forall i :: 0 <= i < |cluster| ==> !IsDigit(cluster[i])) && IsDigit(controller[|cluster|]) ==>
             |cluster| == LeadingNonDigits(controller) by {
      if 6 <= |cluster| < |controller| && controller[..|cluster|] == cluster &&
         (forall i :: 0 <= i < |cluster| ==> !IsDigit(cluster[i])) && IsDigit(controller[|cluster|]) {
        assert forall i :: 0 <= i < |cluster| ==> !IsDigit(controller[i]) by {
          forall i | 0 <= i < |cluster| ensures !IsDigit(controller[i]) {
            assert controller[i] == controller[..|cluster|][i];
          }
        }
      }
    }
    && 6 <= |cluster| < |controller|
    && controller[..|cluster|] == cluster
    && (forall i :: 0 <= i < |cluster| ==> !IsDigit(cluster[i]))
    && IsDigit(controller[|cluster|])
    && SingleLine(controller[|cluster|..])
  }

  /**
   * `helper.search(controller).groups()[0]`, or `None` where `search`
   * finds no match (and `.groups()` then raises `AttributeError`).
   */
  function ClusterOf(controller: string): (r: Option<string>)
    ensures r.Some? ==> ControllerMatches(controller, r.value)
    ensures r.Some? ==> forall k :: ControllerMatches(controller, k) ==> k == r.value
    ensures r.None? ==> forall k :: !ControllerMatches(controller, k)
  {
    var n := LeadingNonDigits(controller);
    var r := if 6 <= n < |controller| && SingleLine(controller[n..]) then Some(controller[..n]) else None;
    assert forall k :: ControllerMatches(controller, k) ==> |k| == n by {
      forall k | ControllerMatches(controller, k) ensures |k| == n {
        assert forall i :: 0 <= i < |k| ==> !IsDigit(controller[i]) by {
          forall i | 0 <= i < |k| ensures !IsDigit(controller[i]) {
            assert controller[i] == controller[..|k|][i];
          }
        }
      }
    }
    r
  }

  /** The characters `[/\-\w]`. */
  predicate LayoutChar(c: char)
  {
    c == '/' || c == '-' || IsWordChar(c)
  }

  /**
   * `^[/\-\w]+$` matches `layout`: one or more path characters, optionally
   * followed by a single final newline.
   */
  predicate LayoutMatches(layout: string)
    ensures LayoutMatches(layout) ==> |layout| >= 1 && ':' !in layout && SingleLine(layout)
  {
    || (|layout| >= 1 && forall i :: 0 <= i < |layout| ==> LayoutChar(layout[i]))
    || (|layout| >= 2 && layout[|layout| - 1] == '\n' &&
        forall i :: 0 <= i < |layout| - 1 ==> LayoutChar(layout[i]))
  }

  /** What the constructor stores about a server path. */
  datatype Location = Location(controller: string, serverlayout: string, cluster: string, storageType: Option<string>)

  /**
   * `CONFIG[cluster]["type"]` and the truthiness test on it: a missing entry
   * raises `KeyError`, an empty type leaves the type unset.
   */
  function ConfiguredType(config: Config, cluster: string): (r: Result<Option<string>>)
    ensures cluster !in config ==> r == Raised(KeyError(cluster))
    ensures cluster in config && "type" !in config[cluster] ==> r == Raised(KeyError("type"))
    ensures r.Ok? <==> cluster in config && "type" in config[cluster]
    ensures r.Ok? ==> (r.value.Some? <==> config[cluster]["type"] != "")
    ensures r.Ok? && r.value.Some? ==> r.value.value == config[cluster]["type"]
  {
    if cluster !in config then Raised(KeyError(cluster))
    else if "type" !in config[cluster] then Raised(KeyError("type"))
    else if config[cluster]["type"] != "" then Ok(Some(config[cluster]["type"]))
    else Ok(None)
  }

  /**
   * The checks of the constructor in their order: the colon count, the
   * cluster name, the path characters, then the configuration lookup.
   */
  function Parse(serverpath: string, config: Config): (r: Result<Location>)
    ensures Count(serverpath, ':') != 1 ==> r == Raised(AssertionError(ColonMessage))
    ensures r.Ok? ==> serverpath == r.value.controller + ":" + r.value.serverlayout
    ensures r.Ok? ==> ':' !in r.value.controller && ':' !in r.value.serverlayout
    ensures r.Ok? ==> ControllerMatches(r.value.controller, r.value.cluster)
    ensures r.Ok? ==> LayoutMatches(r.value.serverlayout)
    ensures r.Ok? ==> ConfiguredType(config, r.value.cluster) == Ok(r.value.storageType)
  {
    if Count(serverpath, ':') != 1 then Raised(AssertionError(ColonMessage))
    else
      var parts := Split(serverpath, ':');
      SplitCount(serverpath, ':');
      JoinSplit(serverpath, ':');
      assert Join(parts, ':') == parts[0] + [':'] + parts[1];
      var controller, layout := parts[0], parts[1];
      match ClusterOf(controller)
      case None => Raised(AttributeError)
      case Some(cluster) =>
        if !LayoutMatches(layout) then Raised(AssertionError(LayoutMessage))
        else match ConfiguredType(config, cluster)
          case Raised(e) => Raised(e)
          case Ok(t) => Ok(Location(controller, layout, cluster, t))
  }

  /**
   * For a server path assembled from a colon-free controller and path, the
   * outcome of parsing is decided by the two regular expressions and the
   * configuration, in that order, and success gives the parts back.
   */
  lemma ParseOfParts(controller: string, layout: string, config: Config)
    requires ':' !in controller && ':' !in layout
    ensures ClusterOf(controller).None? ==> Parse(controller + ":" + layout, config) == Raised(AttributeError)
    ensures ClusterOf(controller).Some? && !LayoutMatches(layout) ==>
              Parse(controller + ":" + layout, config) == Raised(AssertionError(LayoutMessage))
    ensures ClusterOf(controller).Some? && LayoutMatches(layout) &&
            ConfiguredType(config, ClusterOf(controller).value).Raised? ==>
              Parse(controller + ":" + layout, config) ==
                Raised(ConfiguredType(config, ClusterOf(controller).value).exc)
    ensures ClusterOf(controller).Some? && LayoutMatches(layout) &&
            ConfiguredType(config, ClusterOf(controller).value).Ok? ==>
              Parse(controller + ":" + layout, config) ==
                Ok(Location(controller, layout, ClusterOf(controller).value,
                            ConfiguredType(config, ClusterOf(controller).value).value))
  {
    var serverpath := controller + ":" + layout;
    assert Join([controller, layout], ':') == serverpath;
    SplitJoin([controller, layout], ':');
    SplitCount(serverpath, ':');
  }

  /** A volume handle on a controller: the state `BasicStorage.__init__` sets up. */
  class BasicStorage {
    var serverpath: string
    var controller: string
    var serverlayout: string
    var volume: map<string, string>
    var storageType: Option<string>
    var clusterToConnect: string

    constructor (serverpath: string, loc: Location)
      ensures this.serverpath == serverpath && controller == loc.controller
      ensures serverlayout == loc.serverlayout && clusterToConnect == loc.cluster
      ensures storageType == loc.storageType && volume == map[]
    {
      this.serverpath := serverpath;
      controller := loc.controller;
      serverlayout := loc.serverlayout;
      clusterToConnect := loc.cluster;
      storageType := loc.storageType;
      volume := map[];
    }

    /**
     * `BasicStorage(serverpath)`: the object exists only when the server
     * path parses; otherwise the exception the constructor raises.
     */
    static method New(serverpath: string, config: Config) returns (r: Result<BasicStorage>)
      ensures Parse(serverpath, config).Raised? ==> r == Raised(Parse(serverpath, config).exc)
      ensures Parse(serverpath, config).Ok? ==>
                && r.Ok? && fresh(r.value)
                && r.value.serverpath == serverpath
                && r.value.controller == Parse(serverpath, config).value.controller
                && r.value.serverlayout == Parse(serverpath, config).value.serverlayout
                && r.value.clusterToConnect == Parse(serverpath, config).value.cluster
                && r.value.GetType() == Parse(serverpath, config).value.storageType
                && r.value.volume == map[]
    {
      var parsed := Parse(serverpath, config);
      if parsed.Raised? {
        return Raised(parsed.exc);
      }
      var b := new BasicStorage(serverpath, parsed.value);
      return Ok(b);
    }

    /** `GetType`: the storage type read from the configuration, unchanged. */
    function GetType(): (t: Option<string>)
      reads this
      ensures t == storageType
    {
      storageType
    }
  }
}
