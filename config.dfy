/**
 * The redirect URI used when the app runs on Render: the host name from
 * the environment (or a default) gets the `.onrender.com` suffix unless
 * it already ends with it, and is wrapped as `https://<host>/callback`.
 */
module Config {
  import opened Wrappers

  const RenderSuffix: string := ".onrender.com"

  /** The host name used when `RENDER_EXTERNAL_HOSTNAME` is unset. */
  const DefaultHostname: string := "rabarba-organizer"

  predicate EndsWith(s: string, suffix: string)
  {
    |suffix| <= |s| && s[|s| - |suffix|..] == suffix
  }

  predicate StartsWith(s: string, prefix: string)
  {
    |prefix| <= |s| && s[..|prefix|] == prefix
  }

  /** The host name with the Render suffix, added only when missing. */
  function RenderHostname(hostname: string): (h: string)
    ensures EndsWith(h, RenderSuffix)
    ensures StartsWith(h, hostname)
    ensures EndsWith(hostname, RenderSuffix) ==> h == hostname
    ensures !EndsWith(hostname, RenderSuffix) ==> |h| == |hostname| + |RenderSuffix|
  {
    if EndsWith(hostname, RenderSuffix) then hostname else hostname + RenderSuffix
  }

  /** Adding the suffix a second time adds nothing. */
  lemma RenderHostnameIdempotent(hostname: string)
    ensures RenderHostname(RenderHostname(hostname)) == RenderHostname(hostname)
  {
  }

  /** The URI built around a host name, by whether it already has the suffix. */
  lemma WrappedUri(hostname: string)
    ensures StartsWith("https://" + RenderHostname(hostname) + "/callback", "https://")
    ensures EndsWith("https://" + RenderHostname(hostname) + "/callback", RenderSuffix + "/callback")
    ensures EndsWith(hostname, RenderSuffix) ==>
              "https://" + RenderHostname(hostname) + "/callback" == "https://" + hostname + "/callback"
    ensures !EndsWith(hostname, RenderSuffix) ==>
              "https://" + RenderHostname(hostname) + "/callback" == "https://" + hostname + RenderSuffix + "/callback"
  {
    var host := RenderHostname(hostname);
    var uri := "https://" + host + "/callback";
    assert uri[|uri| - |RenderSuffix + "/callback"|..] == host[|host| - |RenderSuffix|..] + "/callback";
    assert uri[..8] == "https://";
  }

  lemma DefaultHostnameNeedsSuffix()
    ensures !EndsWith(DefaultHostname, RenderSuffix)
  {
    var tail := DefaultHostname[|DefaultHostname| - |RenderSuffix|..];
    assert tail[0] == 'r' != RenderSuffix[0];
  }

  /**
   * `SPOTIFY_REDIRECT_URI` when `RENDER` is set. `envHostname` is
   * `RENDER_EXTERNAL_HOSTNAME`, `rabarba-organizer` when unset; the suffix
   * is added only when the host does not already end with it.
   */
  function RenderRedirectUri(envHostname: Option<string>): (uri: string)
    ensures StartsWith(uri, "https://")
    ensures EndsWith(uri, RenderSuffix + "/callback")
    ensures envHostname.None? ==> uri == "https://" + DefaultHostname + RenderSuffix + "/callback"
    ensures envHostname.Some? && EndsWith(envHostname.value, RenderSuffix) ==>
              uri == "https://" + envHostname.value + "/callback"
    ensures envHostname.Some? && !EndsWith(envHostname.value, RenderSuffix) ==>
              uri == "https://" + envHostname.value + RenderSuffix + "/callback"
  {
    var hostname := match envHostname case Some(h) => h case None => DefaultHostname;
    WrappedUri(hostname);
    DefaultHostnameNeedsSuffix();
    "https://" + RenderHostname(hostname) + "/callback"
  }
}
