/**
 * The `CONFIG` object of templates/js/config.js: its declared API and feature
 * values, the hostname-based overrides applied by the top-level `if` blocks,
 * and the shallow `Object.freeze` calls that follow them.
 */
module AppConfig {
  import opened Base
  import opened Strings
  import FetchRetry

  const ProductionBaseUrl: string := "https://api.example.com"
  const DevelopmentBaseUrl: string := "http://localhost:8080"
  const StagingBaseUrl: string := "https://staging-api.example.com"

  /** The objects that make up `CONFIG`: the root, its seven sections and the objects nested in them. */
  datatype ConfigObject =
    | Root | Api | Ui | Storage | Features | Validation | Messages
    | ApiEndpoints | MessagesError | MessagesSuccess | MessagesConfirm

  /** The objects the script passes to `Object.freeze`. */
  const FrozenObjects: set<ConfigObject> := {Root, Api, Ui, Storage, Features, Validation, Messages}

  predicate IsDevelopmentHost(hostname: string)
  {
    hostname == "localhost" || hostname == "127.0.0.1"
  }

  predicate IsStagingHost(hostname: string)
  {
    Contains(hostname, "staging")
  }

  /** Neither development hostname contains "staging", so at most one override applies. */
  lemma DevelopmentHostsAreNotStaging(hostname: string)
    ensures IsDevelopmentHost(hostname) ==> !IsStagingHost(hostname)
  {
    if hostname == "localhost" {
      AbsentCharNotContained(hostname, "staging", 6);
    } else if hostname == "127.0.0.1" {
      AbsentCharNotContained(hostname, "staging", 0);
    }
  }

  /** The `(BASE_URL, DEBUG)` pair the page ends up with on `hostname`: the development URL with
      debugging on a development host, the staging URL on a staging host, production otherwise. */
  function EnvironmentFor(hostname: string): (r: (string, bool))
    ensures IsDevelopmentHost(hostname) ==> r == (DevelopmentBaseUrl, true)
    ensures IsStagingHost(hostname) ==> r == (StagingBaseUrl, false)
    ensures !IsDevelopmentHost(hostname) && !IsStagingHost(hostname) ==> r == (ProductionBaseUrl, false)
  {
    var afterDev := if IsDevelopmentHost(hostname) then (DevelopmentBaseUrl, true) else (ProductionBaseUrl, false);
    DevelopmentHostsAreNotStaging(hostname);
    if IsStagingHost(hostname) then (StagingBaseUrl, afterDev.1) else afterDev
  }

  class Config {
    var baseUrl: string
    var timeout: int
    var retryCount: int
    var retryDelay: int
    var endpoints: map<string, string>
    var debug: bool
    /** The objects `Object.freeze` has been applied to. */
    var frozen: set<ConfigObject>

    /** The object literal as declared. */
    constructor ()
      ensures baseUrl == ProductionBaseUrl && timeout == 10000 && retryCount == 3 && retryDelay == 1000
      ensures endpoints == map["USERS" := "/users", "ITEMS" := "/items", "AUTH" := "/auth"]
      ensures !debug && frozen == {}
    {
      baseUrl := ProductionBaseUrl;
      timeout := 10000;
      retryCount := 3;
      retryDelay := 1000;
      endpoints := map["USERS" := "/users", "ITEMS" := "/items", "AUTH" := "/auth"];
      debug := false;
      frozen := {};
    }

    /** A property can be assigned when the object holding it is not frozen. */
    predicate Writable(o: ConfigObject)
      reads this
    {
      o !in frozen
    }

    /** `CONFIG.API.BASE_URL = url`; in a non-strict script a write to a frozen object is ignored. */
    method SetBaseUrl(url: string)
      modifies this`baseUrl
      ensures baseUrl == if Writable(Api) then url else old(baseUrl)
    {
      if Writable(Api) {
        baseUrl := url;
      }
    }

    /** `CONFIG.FEATURES.DEBUG = on`. */
    method SetDebug(on: bool)
      modifies this`debug
      ensures debug == if Writable(Features) then on else old(debug)
    {
      if Writable(Features) {
        debug := on;
      }
    }

    /** `CONFIG.API.ENDPOINTS[name] = path`. */
    method SetEndpoint(name: string, path: string)
      modifies this`endpoints
      ensures endpoints == if Writable(ApiEndpoints) then old(endpoints)[name := path] else old(endpoints)
    {
      if Writable(ApiEndpoints) {
        endpoints := endpoints[name := path];
      }
    }

    /** The two override blocks, run before anything is frozen. */
    method ApplyEnvironment(hostname: string)
      requires frozen == {}
      modifies this`baseUrl, this`debug
      ensures baseUrl == if IsStagingHost(hostname) then StagingBaseUrl
                         else if IsDevelopmentHost(hostname) then DevelopmentBaseUrl
                         else old(baseUrl)
      ensures debug == (IsDevelopmentHost(hostname) || old(debug))
    {
      if IsDevelopmentHost(hostname) {
        SetBaseUrl(DevelopmentBaseUrl);
        SetDebug(true);
      }
      if IsStagingHost(hostname) {
        SetBaseUrl(StagingBaseUrl);
      }
    }

    /** `Object.freeze(o)`. */
    method Freeze(o: ConfigObject)
      modifies this`frozen
      ensures frozen == old(frozen) + {o}
    {
      frozen := frozen + {o};
    }

    /** The seven `Object.freeze` calls: the root and its sections, not the objects nested in them. */
    method FreezeSections()
      modifies this`frozen
      ensures frozen == old(frozen) + FrozenObjects
    {
      Freeze(Root);
      Freeze(Api);
      Freeze(Ui);
      Freeze(Storage);
      Freeze(Features);
      Freeze(Validation);
      Freeze(Messages);
    }
  }

  /** Loading config.js on `hostname`: the literal, the overrides, then the freeze calls. */
  method LoadConfig(hostname: string) returns (c: Config)
    ensures (c.baseUrl, c.debug) == EnvironmentFor(hostname)
    ensures c.timeout == 10000 && c.retryCount == 3 && c.retryDelay == 1000
    ensures c.frozen == FrozenObjects
    ensures !c.Writable(Api) && !c.Writable(Features) && !c.Writable(Root)
    ensures c.Writable(ApiEndpoints) && c.Writable(MessagesError)
  {
    c := new Config();
    c.ApplyEnvironment(hostname);
    DevelopmentHostsAreNotStaging(hostname);
    c.FreezeSections();
  }

  /** What `fetchWithRetry` reads from a loaded configuration. */
  function ApiSettingsOf(timeout: int, retryCount: int, retryDelay: int): FetchRetry.ApiSettings
  {
    FetchRetry.ApiSettings(Some(timeout), Some(retryCount), Some(retryDelay))
  }

  /** With the declared values, a request whose `retries` argument is omitted may make four fetch
      calls, each with a 10000 ms timeout and 1000 ms between them. */
  lemma DeclaredRetryPolicy()
    ensures var api := ApiSettingsOf(10000, 3, 1000);
      FetchRetry.MaxAttempts(FetchRetry.EffectiveRetries(None, api)) == 4 &&
      FetchRetry.OrDefault(api.timeout, 10000) == 10000 &&
      FetchRetry.OrDefault(api.retryDelay, 1000) == 1000
  {
  }
}
