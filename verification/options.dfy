/**
 * Client settings (options.go): the defaults and the validator run when a
 * client is made.
 */
module ClientOptions {
  import opened Errors

  const ApiHost: string := "api.pathofexile.com"

  datatype Options = Options(host: string, useSSL: bool, rateLimit: int, stashTabRateLimit: int)

  /**
   * validateOptions: the host must be the official API host, then the standard
   * rate, then the stash-tab rate must be at least one request per second. The
   * first check that fails decides the error.
   */
  function ValidateOptions(o: Options): (r: Option<Error>)
    ensures r.None? <==> o.host == ApiHost && o.rateLimit >= 1 && o.stashTabRateLimit >= 1
    ensures r == Some(InvalidHost) <==> o.host != ApiHost
    ensures r == Some(InvalidRateLimit) <==> o.host == ApiHost && o.rateLimit < 1
    ensures r == Some(InvalidStashTabRateLimit) <==>
              o.host == ApiHost && o.rateLimit >= 1 && o.stashTabRateLimit < 1
  {
    if o.host != ApiHost then Some(InvalidHost)
    else if o.rateLimit < 1 then Some(InvalidRateLimit)
    else if o.stashTabRateLimit < 1 then Some(InvalidStashTabRateLimit)
    else None
  }

  /** DefaultOptions: the official host over SSL, 4 standard and 1 stash-tab request per second; they pass validation. */
  function DefaultOptions(): (o: Options)
    ensures ValidateOptions(o).None?
    ensures o.useSSL
  {
    Options(ApiHost, true, 4, 1)
  }
}
