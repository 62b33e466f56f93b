/** The site map: one entry per locale's home page. The base URL comes from
    the environment and the modification time from the clock; both are
    parameters here. */
module Sitemap {
  import opened Numeric

  const FallbackBaseUrl: string := "https://joaokremer.dev"
  const Locales: seq<string> := ["pt", "en"]

  /** The environment value, unless it is unset or empty. */
  function BaseUrl(env: Option<string>): (b: string)
    ensures env.Some? && env.value != "" ==> b == env.value
    ensures env == None || env == Some("") ==> b == FallbackBaseUrl
    ensures b != ""
  {
    if env.Some? && env.value != "" then env.value else FallbackBaseUrl
  }

  datatype Entry = Entry(url: string, lastModified: int, changeFrequency: string, priority: real)

  function EntryFor(baseUrl: string, locale: string, now: int): Entry
  {
    Entry(baseUrl + "/" + locale, now, "monthly", 1.0)
  }

  /** `sitemap()`. */
  function Build(env: Option<string>, now: int): seq<Entry>
  {
    seq(|Locales|, i requires 0 <= i < |Locales| => EntryFor(BaseUrl(env), Locales[i], now))
  }

  /** Two entries, for "pt" then "en", each at base URL + "/" + locale,
      with distinct URLs, monthly change frequency, priority 1 and the
      current time. */
  lemma BuildSpec(env: Option<string>, now: int)
    ensures |Build(env, now)| == 2
    ensures Build(env, now)[0].url == BaseUrl(env) + "/pt"
    ensures Build(env, now)[1].url == BaseUrl(env) + "/en"
    ensures Build(env, now)[0].url != Build(env, now)[1].url
    ensures forall i :: 0 <= i < |Build(env, now)| ==>
              && Build(env, now)[i].url == BaseUrl(env) + "/" + Locales[i]
              && Build(env, now)[i].changeFrequency == "monthly"
              && Build(env, now)[i].priority == 1.0
              && Build(env, now)[i].lastModified == now
  {
    var b := BaseUrl(env);
    var u0 := Build(env, now)[0].url;
    var u1 := Build(env, now)[1].url;
    assert u0[|b| + 1] == 'p' && u1[|b| + 1] == 'e';
  }
}
