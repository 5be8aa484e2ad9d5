/** The URL both clients post to: the configured host with its trailing
    slashes removed, then `/rewrite`. */
module Endpoint {
  import opened PyStr

  const RewritePath: string := "/rewrite"

  /** `host.rstrip("/") + "/rewrite"`. */
  function RewriteUrl(host: string): (url: string)
    ensures |url| >= |RewritePath| && url[|url| - |RewritePath|..] == RewritePath
    ensures var base := url[..|url| - |RewritePath|];
      && base <= host
      && (base == [] || base[|base| - 1] != '/')
      && forall i :: |base| <= i < |host| ==> host[i] == '/'
  {
    var base := RStripChar(host, '/');
    var url := base + RewritePath;
    assert url[..|url| - |RewritePath|] == base;
    assert url[|url| - |RewritePath|..] == RewritePath;
    url
  }

  /** A trailing slash on the host makes no difference to the URL. */
  lemma TrailingSlashIgnored(host: string)
    ensures RewriteUrl(host + "/") == RewriteUrl(host)
  {
    assert (host + "/")[..|host|] == host;
  }

  /** A host without a trailing slash is used as it is. */
  lemma HostKeptVerbatim(host: string)
    requires host == [] || host[|host| - 1] != '/'
    ensures RewriteUrl(host) == host + RewritePath
  {
  }
}
