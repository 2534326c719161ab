/**
 * The base-URL and environment helpers (src/utils/util.ts). The browser's
 * `window.location` and the build's `import.meta.env` are parameters: a
 * `Location` record, the `VITE_BASE_URL` override (absent or a string) and
 * the `DEV` flag.
 */
module Util {
  import opened Types
  import opened JsText

  /** The fields of `window.location` the helpers read. */
  datatype Location = Location(protocol: string, hostname: string, port: string)

  /** The override is used when it is set, is not the text "undefined" or "null", and is not blank. */
  predicate UsableOverride(envBaseUrl: Maybe<string>)
  {
    envBaseUrl.Just? && envBaseUrl.value != "" && envBaseUrl.value != "undefined"
    && envBaseUrl.value != "null" && Trim(envBaseUrl.value) != ""
  }

  /** The port is shown: it is set and is not the default port of the protocol. */
  predicate ShowsPort(loc: Location)
  {
    loc.port != "" && !((loc.protocol == "http:" && loc.port == "80") || (loc.protocol == "https:" && loc.port == "443"))
  }

  /** `getBaseURL` */
  function GetBaseUrl(loc: Location, envBaseUrl: Maybe<string>): (url: string)
    ensures UsableOverride(envBaseUrl) ==> url == envBaseUrl.value
    ensures !UsableOverride(envBaseUrl) ==> StartsWith(url, loc.protocol + "//" + loc.hostname)
    ensures !UsableOverride(envBaseUrl) && ShowsPort(loc) ==> url == loc.protocol + "//" + loc.hostname + ":" + loc.port
    ensures !UsableOverride(envBaseUrl) && !ShowsPort(loc) ==> url == loc.protocol + "//" + loc.hostname
  {
    if UsableOverride(envBaseUrl) then envBaseUrl.value
    else
      var baseUrl := loc.protocol + "//" + loc.hostname;
      if ShowsPort(loc) then baseUrl + ":" + loc.port else baseUrl
  }

  /** `getCurrentDomain` */
  function GetCurrentDomain(loc: Location): (domain: string)
    ensures StartsWith(domain, loc.hostname)
    ensures ShowsPort(loc) ==> domain == loc.hostname + ":" + loc.port
    ensures !ShowsPort(loc) ==> domain == loc.hostname
  {
    if ShowsPort(loc) then loc.hostname + ":" + loc.port else loc.hostname
  }

  /** Without an override, the base URL is the protocol followed by the displayed domain. */
  lemma BaseUrlIsProtocolAndDomain(loc: Location, envBaseUrl: Maybe<string>)
    requires !UsableOverride(envBaseUrl)
    ensures GetBaseUrl(loc, envBaseUrl) == loc.protocol + "//" + GetCurrentDomain(loc)
  {
    if ShowsPort(loc) {
      assert loc.protocol + "//" + loc.hostname + ":" + loc.port
          == loc.protocol + "//" + (loc.hostname + ":" + loc.port);
    }
  }

  /** A blank override, or none, falls back to the location. */
  lemma BlankOverrideIgnored(loc: Location, s: string)
    requires forall i :: 0 <= i < |s| ==> IsWhiteSpace(s[i])
    ensures GetBaseUrl(loc, Just(s)) == GetBaseUrl(loc, Nothing)
  {
    TrimEmpty(s);
  }

  /** `isDevelopment` */
  function IsDevelopment(loc: Location, dev: bool): (r: bool)
    ensures r <==> loc.hostname in {"localhost", "127.0.0.1"} || StartsWith(loc.hostname, "192.168.")
                   || StartsWith(loc.hostname, "10.") || dev
  {
    loc.hostname == "localhost" || loc.hostname == "127.0.0.1" || StartsWith(loc.hostname, "192.168.")
    || StartsWith(loc.hostname, "10.") || dev
  }

  /** `getEnvironmentType` */
  function GetEnvironmentType(loc: Location, dev: bool): (kind: string)
    ensures kind in {"Development", "Production", "Local"}
    ensures kind == "Development" <==>
      || loc.hostname == "localhost" || loc.hostname == "127.0.0.1"
      || StartsWith(loc.hostname, "192.168.") || StartsWith(loc.hostname, "10.") || dev
    ensures kind == "Production" <==> !IsDevelopment(loc, dev) && loc.protocol == "https:"
    ensures kind == "Local" <==> !IsDevelopment(loc, dev) && loc.protocol != "https:"
  {
    if IsDevelopment(loc, dev) then "Development"
    else if loc.protocol == "https:" then "Production"
    else "Local"
  }
}
