/**
 * The string assembly in botpower's `main`: the command-line overrides of the
 * configuration, the query string and the request URL. Reading the
 * configuration file, the HTTP request and the printing are not modelled.
 */
module Driver {
  import opened Wrappers
  import opened Request

  /** A command-line option that was given and is not empty: Python's truth test on it. */
  predicate Given(arg: Option<string>)
  {
    arg.Some? && arg.value != ""
  }

  /** The keys a set of command-line options overrides. */
  function OverriddenKeys(hostname: Option<string>, username: Option<string>, password: Option<string>): set<string>
  {
    (if Given(hostname) then {"hostname"} else {})
    + (if Given(username) then {"username"} else {})
    + (if Given(password) then {"password"} else {})
  }

  /**
   * The overrides of `main`: each given option replaces (or adds) its key,
   * every other key keeps its loaded value.
   */
  method ApplyOverrides(cfg: map<string, string>, hostname: Option<string>, username: Option<string>,
                        password: Option<string>) returns (merged: map<string, string>)
    ensures merged.Keys == cfg.Keys + OverriddenKeys(hostname, username, password)
    ensures forall k :: k in cfg && k !in OverriddenKeys(hostname, username, password) ==> merged[k] == cfg[k]
    ensures Given(hostname) ==> merged["hostname"] == hostname.value
    ensures Given(username) ==> merged["username"] == username.value
    ensures Given(password) ==> merged["password"] == password.value
  {
    merged := cfg;
    if Given(hostname) {
      merged := merged["hostname" := hostname.value];
    }
    if Given(username) {
      merged := merged["username" := username.value];
    }
    if Given(password) {
      merged := merged["password" := password.value];
    }
  }

  /** The query string of `main`, or the KeyError the builder raises. */
  function Query(outlet: string, action: string): Result<string>
  {
    if action != "display" then
      match OutletParams(outlet, action)
      case Ok(params) => Ok("cmd=setpower+" + params)
      case Err(f) => Err(f)
    else Ok("cmd=getpower")
  }

  /** The request URL: scheme, host, API path and query, concatenated verbatim. */
  function Url(cfg: map<string, string>, query: string): Result<string>
  {
    match Lookup(cfg, "hostname")
    case Err(f) => Err(f)
    case Ok(host) =>
      match Lookup(cfg, "api_url")
      case Err(f) => Err(f)
      case Ok(api) => Ok("http://" + host + api + query)
  }

  /** The URL `main` requests for an outlet and an action. */
  function RequestUrl(cfg: map<string, string>, outlet: string, action: string): Result<string>
  {
    match Query(outlet, action)
    case Err(f) => Err(f)
    case Ok(query) => Url(cfg, query)
  }

  /** The query and URL assembly of `main`, appending to `queryParams` as the source does. */
  method BuildRequestUrl(cfg: map<string, string>, outlet: string, action: string) returns (r: Result<string>)
    ensures r == RequestUrl(cfg, outlet, action)
  {
    var queryParams := "";
    if action != "display" {
      queryParams := queryParams + "cmd=setpower+";
      assert queryParams == "cmd=setpower+";
      var params := SetOutlet(outlet, action);
      if params.Err? {
        return Err(params.failure);
      }
      queryParams := queryParams + params.value;
    } else {
      queryParams := queryParams + "cmd=getpower";
      assert queryParams == "cmd=getpower";
    }
    assert Query(outlet, action) == Ok(queryParams);
    var host := Lookup(cfg, "hostname");
    if host.Err? {
      return Err(host.failure);
    }
    var api := Lookup(cfg, "api_url");
    if api.Err? {
      return Err(api.failure);
    }
    return Ok("http://" + host.value + api.value + queryParams);
  }

  /**
   * `display` reads with `cmd=getpower` whatever the outlet; `on` and `off`
   * write with `cmd=setpower+` and the builder's fragment; any other action
   * fails in the builder with KeyError(action).
   */
  lemma QueryCases(outlet: string, action: string)
    ensures action == "display" ==> Query(outlet, action) == Ok("cmd=getpower")
    ensures action in {"on", "off"} ==>
      OutletParams(outlet, action).Ok? && Query(outlet, action) == Ok("cmd=setpower+" + OutletParams(outlet, action).value)
    ensures action !in {"on", "off", "display"} ==> Query(outlet, action) == Err(KeyError(action))
  {
    UnknownActionFails(outlet, action);
  }

  /**
   * The URL exists exactly when the configuration has a host name and an API
   * path, and ends with the query unchanged; a missing host name is reported
   * before a missing API path.
   */
  lemma UrlVerbatim(cfg: map<string, string>, query: string)
    ensures Url(cfg, query).Ok? <==> "hostname" in cfg && "api_url" in cfg
    ensures Url(cfg, query).Ok? ==>
      var url := Url(cfg, query).value;
      && url == "http://" + cfg["hostname"] + cfg["api_url"] + query
      && |query| <= |url| && url[|url| - |query|..] == query
    ensures "hostname" !in cfg ==> Url(cfg, query) == Err(KeyError("hostname"))
    ensures "hostname" in cfg && "api_url" !in cfg ==> Url(cfg, query) == Err(KeyError("api_url"))
  {
    if "hostname" in cfg && "api_url" in cfg {
      var head := "http://" + cfg["hostname"] + cfg["api_url"];
      assert Url(cfg, query).value == head + query;
      assert (head + query)[|head|..] == query;
    }
  }
}
