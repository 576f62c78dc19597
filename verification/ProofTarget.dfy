/**
 The target of a proof (dpop.go): what the htu that the middleware puts together from a
 request has to do with the URL that the client has sent the request to.
 */
module ProofTarget {
  import opened Wrappers
  import opened Middleware
  import opened Urls
  import Text

  /** The scheme and host of the request, as the server or a trusted proxy has seen them. */
  predicate Targets(cfg: Config, r: Request, scheme: string, host: string) {
    && (scheme == if cfg.trustForwarded && r.forwardedProto != "" then r.forwardedProto
                  else if r.tls then "https" else "http")
    && (host == if cfg.trustForwarded && r.forwardedHost != "" then r.forwardedHost else r.host)
  }

  /** The URL parser of the middleware, for these authorities. */
  ghost predicate ParsesUrls(cfg: Config, authority: string -> Option<string>) {
    forall s :: cfg.parseUrl(s) == Parse(authority, s)
  }

  /** An htu that names scheme and host, but for case, and the very path. */
  predicate Names(cfg: Config, htu: string, scheme: string, name: string, path: string) {
    && cfg.parseUrl(htu).Some?
    && Text.EqualFold(cfg.parseUrl(htu).value.scheme, scheme)
    && Text.EqualFold(cfg.parseUrl(htu).value.host, name)
    && cfg.parseUrl(htu).value.path == path
  }

  /** The htu of a proof is taken for the target of the request exactly if it names that target. */
  ghost predicate MatchesTarget(cfg: Config, r: Request, scheme: string, name: string) {
    forall htu :: HTUEqual(cfg, htu, RequestHTU(r, cfg.trustForwarded)) <==> Names(cfg, htu, scheme, name, r.path)
  }

  /** The URL that the middleware makes of a request names the target exactly if its path has come through. */
  lemma MatchesIff(cfg: Config, r: Request, scheme: string, name: string, path: Option<string>, honest: string)
    requires cfg.parseUrl(RequestHTU(r, cfg.trustForwarded)) ==
             match path { case None => None case Some(p) => Some(Url(scheme, name, p)) }
    requires Names(cfg, honest, scheme, name, r.path)
    ensures HTUEqual(cfg, honest, RequestHTU(r, cfg.trustForwarded)) <==> path == Some(r.path)
    ensures MatchesTarget(cfg, r, scheme, name) <==> path == Some(r.path)
  {
  }

  lemma ParsedTo(cfg: Config, authority: string -> Option<string>, s: string, url: Option<Url>)
    requires ParsesUrls(cfg, authority) && Parse(authority, s) == url
    ensures cfg.parseUrl(s) == url
  {
  }

  lemma SpelledOut(cfg: Config, r: Request, scheme: string, host: string)
    requires Targets(cfg, r, scheme, host)
    ensures RequestHTU(r, cfg.trustForwarded) == scheme + "://" + host + r.path
  {
  }

  lemma Rebuilt(cfg: Config, r: Request, authority: string -> Option<string>, scheme: string, host: string,
                name: string)
    requires ParsesUrls(cfg, authority) && Targets(cfg, r, scheme, host) && IsRooted(r.path)
    requires IsScheme(scheme) && IsAuthority(host) && authority(host) == Some(name)
    ensures cfg.parseUrl(RequestHTU(r, cfg.trustForwarded)) ==
            match Reparsed(r.path) { case None => None case Some(p) => Some(Url(scheme, name, p)) }
  {
    SpelledOut(cfg, r, scheme, host);
    ParseRebuilt(authority, scheme, host, name, r.path);
    var url := match Reparsed(r.path) { case None => None case Some(p) => Some(Url(scheme, name, p)) };
    ParsedTo(cfg, authority, scheme + "://" + host + r.path, url);
  }

  lemma HonestNames(cfg: Config, authority: string -> Option<string>, scheme: string, host: string, name: string,
                    path: string)
    requires ParsesUrls(cfg, authority) && IsRooted(path)
    requires IsScheme(scheme) && IsAuthority(host) && authority(host) == Some(name)
    ensures Names(cfg, scheme + "://" + host + EscapePath(path), scheme, name, path)
  {
    ParseEscaped(authority, scheme, host, name, path);
    ParsedTo(cfg, authority, scheme + "://" + host + EscapePath(path), Some(Url(scheme, name, path)));
  }

  /** The proof of an honest client names the target with its path escaped; just for a plain path is it accepted. */
  lemma HonestIff(cfg: Config, r: Request, authority: string -> Option<string>, scheme: string, host: string,
                  name: string)
    requires ParsesUrls(cfg, authority) && Targets(cfg, r, scheme, host) && IsRooted(r.path)
    requires IsScheme(scheme) && IsAuthority(host) && authority(host) == Some(name)
    ensures
      var honest := scheme + "://" + host + EscapePath(r.path);
      && Names(cfg, honest, scheme, name, r.path)
      && (HTUEqual(cfg, honest, RequestHTU(r, cfg.trustForwarded)) <==> IsPlainPath(r.path))
    ensures MatchesTarget(cfg, r, scheme, name) <==> IsPlainPath(r.path)
  {
    Rebuilt(cfg, r, authority, scheme, host, name);
    HonestNames(cfg, authority, scheme, host, name, r.path);
    ReparsedIff(r.path);
    MatchesIff(cfg, r, scheme, name, Reparsed(r.path), scheme + "://" + host + EscapePath(r.path));
  }

  /** No URL names a path that is neither empty nor starts with a slash. */
  lemma NeverNamed(cfg: Config, authority: string -> Option<string>, htu: string, scheme: string, name: string,
                   path: string)
    requires ParsesUrls(cfg, authority) && scheme != "" && !IsRooted(path)
    ensures !Names(cfg, htu, scheme, name, path)
  {
    if Names(cfg, htu, scheme, name, path) {
      ParsedIsRooted(authority, htu);
    }
  }

  /**
   The middleware matches the target exactly if the decoded path of the request has only
   plain characters. A path such as that of OPTIONS * no URL names, and no proof can match it
   exactly if what is put together does not parse.
   */
  lemma TargetIff(cfg: Config, r: Request, authority: string -> Option<string>, scheme: string, host: string,
                  name: string)
    requires ParsesUrls(cfg, authority) && Targets(cfg, r, scheme, host)
    requires IsScheme(scheme) && IsAuthority(host) && authority(host) == Some(name)
    ensures MatchesTarget(cfg, r, scheme, name) <==>
            if IsRooted(r.path) then IsPlainPath(r.path)
            else Parse(authority, RequestHTU(r, cfg.trustForwarded)).None?
  {
    if IsRooted(r.path) {
      HonestIff(cfg, r, authority, scheme, host, name);
    } else {
      forall htu
        ensures !Names(cfg, htu, scheme, name, r.path)
      {
        NeverNamed(cfg, authority, htu, scheme, name, r.path);
      }
      var rebuilt := RequestHTU(r, cfg.trustForwarded);
      assert HTUEqual(cfg, rebuilt, rebuilt) <==> cfg.parseUrl(rebuilt).Some?;
    }
  }

  /** A request to /a%3Fb, as the server sees it. */
  const QUESTION := Request("GET", [], [], true, "h", "/a?b", "", "")

  lemma QuestionMarkCuts()
    ensures Reparsed("/a?b") == Some("/a")
  {
    Text.CutIff("/a?b", '?', "/a", "b");
    UnescapeIff("/a");
  }

  lemma QuestionMarkEscaped()
    ensures EscapePath("/a?b") == "/a%3Fb"
  {
    assert "/a?b"[1..] == "a?b" && "a?b"[1..] == "?b" && "?b"[1..] == "b" && "b"[1..] == "";
    assert EscapePath("/a?b") == EscapeChar('/') + (EscapeChar('a') + (EscapeChar('?') + (EscapeChar('b') + "")));
  }

  /** The request to /a%3Fb is taken for one to /a: a proof for /a matches it, one for /a%3Fb does not. */
  lemma QuestionMarkMismatch(cfg: Config, authority: string -> Option<string>)
    requires ParsesUrls(cfg, authority) && !cfg.trustForwarded && authority("h") == Some("h")
    ensures HTUEqual(cfg, "https" + "://" + "h" + "/a", RequestHTU(QUESTION, false))
    ensures !HTUEqual(cfg, "https" + "://" + "h" + "/a%3Fb", RequestHTU(QUESTION, false))
  {
    QuestionMarkCuts();
    Rebuilt(cfg, QUESTION, authority, "https", "h", "h");
    QuestionMarkEscaped();
    HonestNames(cfg, authority, "https", "h", "h", "/a?b");
    EscapePlain();
    HonestNames(cfg, authority, "https", "h", "h", "/a");
  }

  lemma EscapePlain()
    ensures EscapePath("/a") == "/a"
  {
    assert "/a"[1..] == "a" && "a"[1..] == "";
    assert EscapePath("/a") == EscapeChar('/') + (EscapeChar('a') + "");
  }
}
