/** Validation of the user's init configuration and the derived core configuration: the
    cookie options, the sample rate, and the fixed event and batch limits. */
module Configuration {
  import opened Text

  const OneKiloByte: nat := 1024
  const OneSecond: nat := 1000

  /** The init configuration fields the core reads; `None` is an option left undefined. */
  datatype InitConfiguration = InitConfiguration(
    clientToken: Option<string>,
    sampleRate: Option<real>,
    silentMultipleInit: Option<bool>,
    service: Option<string>,
    useCrossSiteSessionCookie: Option<bool>,
    useSecureSessionCookie: Option<bool>,
    trackSessionAcrossSubdomains: Option<bool>)

  datatype CookieOptions = CookieOptions(secure: bool, crossSite: bool, domain: Option<string>)

  datatype CoreConfiguration = CoreConfiguration(
    cookieOptions: CookieOptions,
    sampleRate: real,
    service: Option<string>,
    silentMultipleInit: bool,
    batchBytesLimit: nat,
    eventRateLimiterThreshold: nat,
    maxInternalMonitoringMessagesPerPage: nat,
    requestErrorResponseLengthLimit: nat,
    flushTimeout: nat,
    maxBatchSize: nat,
    maxMessageSize: nat)

  /** Why a configuration is refused (each reported to the console in the original). */
  datatype ConfigError = MissingClientToken | InvalidSampleRate

  datatype BuildResult = Rejected(error: ConfigError) | Accepted(configuration: CoreConfiguration)

  /** `isPercentage`: a number between 0 and 100, bounds included. */
  predicate IsPercentage(x: real) {
    0.0 <= x <= 100.0
  }

  /** `!!flag` for an optional boolean. */
  predicate Enabled(flag: Option<bool>) {
    flag == Some(true)
  }

  /** `mustUseSecureCookie`. */
  predicate MustUseSecureCookie(init: InitConfiguration) {
    Enabled(init.useSecureSessionCookie) || Enabled(init.useCrossSiteSessionCookie)
  }

  /** `buildCookieOptions`; `currentSite` is what `getCurrentSite()` returns. */
  function BuildCookieOptions(init: InitConfiguration, currentSite: string): (o: CookieOptions)
    ensures o.secure <==> Enabled(init.useSecureSessionCookie) || Enabled(init.useCrossSiteSessionCookie)
    ensures o.crossSite <==> Enabled(init.useCrossSiteSessionCookie)
    ensures o.domain.Some? <==> Enabled(init.trackSessionAcrossSubdomains)
    ensures o.domain.Some? ==> o.domain.value == currentSite
  {
    CookieOptions(
      MustUseSecureCookie(init),
      Enabled(init.useCrossSiteSessionCookie),
      if Enabled(init.trackSessionAcrossSubdomains) then Some(currentSite) else None)
  }

  /** `validateAndBuildConfiguration` without the transport part: `init` is `None` when no
      init configuration is given at all. */
  function ValidateAndBuildConfiguration(init: Option<InitConfiguration>, currentSite: string): (r: BuildResult)
    ensures r == Rejected(MissingClientToken) <==> init.None? || !Truthy(init.value.clientToken)
    ensures r == Rejected(InvalidSampleRate) <==>
      init.Some? && Truthy(init.value.clientToken)
      && init.value.sampleRate.Some? && !IsPercentage(init.value.sampleRate.value)
    ensures r.Accepted? ==>
      var c := r.configuration;
      && IsPercentage(c.sampleRate)
      && c.sampleRate == (if init.value.sampleRate.Some? then init.value.sampleRate.value else 100.0)
      && c.silentMultipleInit == Enabled(init.value.silentMultipleInit)
      && c.service == init.value.service
      && c.cookieOptions == BuildCookieOptions(init.value, currentSite)
      && c.batchBytesLimit == 16384
      && c.eventRateLimiterThreshold == 3000
      && c.maxInternalMonitoringMessagesPerPage == 15
      && c.requestErrorResponseLengthLimit == 32768
      && c.flushTimeout == 30000
      && c.maxBatchSize == 50
      && c.maxMessageSize == 262144
  {
    if init.None? || !Truthy(init.value.clientToken) then Rejected(MissingClientToken)
    else if init.value.sampleRate.Some? && !IsPercentage(init.value.sampleRate.value) then Rejected(InvalidSampleRate)
    else
      var i := init.value;
      Accepted(CoreConfiguration(
        cookieOptions := BuildCookieOptions(i, currentSite),
        sampleRate := if i.sampleRate.Some? then i.sampleRate.value else 100.0,
        service := i.service,
        silentMultipleInit := Enabled(i.silentMultipleInit),
        batchBytesLimit := 16 * OneKiloByte,
        eventRateLimiterThreshold := 3000,
        maxInternalMonitoringMessagesPerPage := 15,
        requestErrorResponseLengthLimit := 32 * OneKiloByte,
        flushTimeout := 30 * OneSecond,
        maxBatchSize := 50,
        maxMessageSize := 256 * OneKiloByte))
  }

  // ----- properties -----

  /** A cross-site cookie is always a secure one. */
  lemma CrossSiteCookieIsSecure(init: InitConfiguration, currentSite: string)
    ensures BuildCookieOptions(init, currentSite).crossSite ==> BuildCookieOptions(init, currentSite).secure
  {
  }

  /** A configuration is accepted exactly when it has a client token and its sample rate, if
      given, is a percentage; the two refusals are checked in that order. */
  lemma AcceptedIffValid(init: Option<InitConfiguration>, currentSite: string)
    ensures ValidateAndBuildConfiguration(init, currentSite).Accepted? <==>
      init.Some? && Truthy(init.value.clientToken)
      && (init.value.sampleRate.None? || IsPercentage(init.value.sampleRate.value))
  {
  }

  /** Whether a configuration is accepted does not depend on the site: only the cookie domain
      does. */
  lemma SiteOnlyAffectsDomain(init: Option<InitConfiguration>, site1: string, site2: string)
    ensures
      var r1 := ValidateAndBuildConfiguration(init, site1);
      var r2 := ValidateAndBuildConfiguration(init, site2);
      && r1.Accepted? == r2.Accepted?
      && (r1.Accepted? ==>
            r1.configuration.(cookieOptions := r2.configuration.cookieOptions) == r2.configuration
            && r1.configuration.cookieOptions.(domain := None) == r2.configuration.cookieOptions.(domain := None))
  {
  }
}
