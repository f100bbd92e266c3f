/** The issuer URL the operator publishes, and the callback the JupyterHub configuration
    derives from it: two sides of one naming rule, in two languages. */
module IssuerUrl {
  import opened Text

  // ---------- the operator's side ----------

  datatype IdentityMode = NoIdentity | Platform | External

  /** The two fields of the instance the issuer depends on, and the mode. */
  datatype Instance = Instance(mode: IdentityMode, baseDomain: Option<string>, issuerUrl: Option<string>)

  datatype Outcome = Absent | Issuer(url: string) | Failed(message: string)

  /** `trim_end_matches`, and Python's `rstrip` with one character. */
  function TrimEnd(s: string, c: char): (r: string)
    ensures |r| <= |s| && r == s[..|r|] && forall i :: |r| <= i < |s| ==> s[i] == c
    ensures r == "" || r[|r| - 1] != c
  {
    if s == "" || s[|s| - 1] != c then s else TrimEnd(s[..|s| - 1], c)
  }

  function RealmUrl(domain: string): string {
    "https://id." + domain + "/realms/stardelt"
  }

  /** `issuer_url`. */
  function IssuerOf(spec: Instance): Outcome {
    match spec.mode
    case NoIdentity => Absent
    case Platform =>
      if spec.baseDomain == None then Failed("identity needs baseDomain") else Issuer(RealmUrl(spec.baseDomain.value))
    case External =>
      if spec.issuerUrl == None then Failed("identity.mode external needs identity.issuerUrl")
      else if !StartsWith(spec.issuerUrl.value, "https://") then Failed("identity.issuerUrl must be an https:// URL")
      else Issuer(TrimEnd(spec.issuerUrl.value, '/'))
  }

  datatype Hosts = Hosts(nova: string, trino: string, lakekeeper: string, superset: string, airflow: string,
                         jupyter: string)

  function HostsOf(domain: string): Hosts {
    Hosts(domain, "trino." + domain, "lakekeeper." + domain, "superset." + domain, "airflow." + domain,
          "jupyter." + domain)
  }

  /** The pattern the schema asks of a base domain: labels of lower-case letters, digits and
      inner dashes, joined by dots. Here only the characters it allows. */
  predicate DomainCharacters(domain: string) {
    domain != "" && forall c | c in domain :: 'a' <= c <= 'z' || '0' <= c <= '9' || c == '-' || c == '.'
  }

  // ---------- the hub's side ----------

  /** What follows the first `://`. */
  function AfterMark(s: string): Option<string> {
    if s == "" then None else if StartsWith(s, "://") then Some(s[3..]) else AfterMark(s[1..])
  }

  /** `split("://", 1)[-1]`. */
  function AfterScheme(s: string): string {
    if AfterMark(s).Some? then AfterMark(s).value else s
  }

  /** `split(c, 1)[0]`. */
  function Before(s: string, c: char): string {
    s[..Find(s, c)]
  }

  /** `_host`. */
  function HostOf(issuer: string): string {
    if issuer != "" then Before(AfterScheme(issuer), '/') else ""
  }

  /** `_base`: the host without its first label. */
  function BaseOf(host: string): string {
    var dot := Find(host, '.');
    if dot < |host| then host[dot + 1..] else ""
  }

  function CallbackAt(base: string): string {
    "https://jupyter." + base + "/hub/oauth_callback"
  }

  /** The fields of the hub's configuration object this script sets. */
  class Configuration {
    var authorizeUrl: Option<string>
    var tokenUrl: Option<string>
    var userdataUrl: Option<string>
    var oauthCallbackUrl: Option<string>
    var enableAuthState: bool

    constructor ()
      ensures authorizeUrl == None && tokenUrl == None && userdataUrl == None && oauthCallbackUrl == None
      ensures !enableAuthState
    {
      authorizeUrl, tokenUrl, userdataUrl, oauthCallbackUrl, enableAuthState := None, None, None, None, false;
    }

    /** The script, given two of its environment variables; an unset one is empty. */
    method Configure(issuerUrl: string, callbackUrl: string)
      modifies this
      ensures oauthCallbackUrl ==
        if callbackUrl != "" then Some(callbackUrl)
        else if BaseOf(HostOf(TrimEnd(issuerUrl, '/'))) != "" then
          Some(CallbackAt(BaseOf(HostOf(TrimEnd(issuerUrl, '/')))))
        else old(oauthCallbackUrl)
      ensures TrimEnd(issuerUrl, '/') == "" ==>
        authorizeUrl == old(authorizeUrl) && tokenUrl == old(tokenUrl) && userdataUrl == old(userdataUrl) &&
        enableAuthState == old(enableAuthState)
      ensures TrimEnd(issuerUrl, '/') != "" ==>
        authorizeUrl == Some(TrimEnd(issuerUrl, '/') + "/protocol/openid-connect/auth") &&
        tokenUrl == Some(TrimEnd(issuerUrl, '/') + "/protocol/openid-connect/token") &&
        userdataUrl == Some(TrimEnd(issuerUrl, '/') + "/protocol/openid-connect/userinfo") && enableAuthState
    {
      var issuer := TrimEnd(issuerUrl, '/');
      if issuer != "" {
        authorizeUrl := Some(issuer + "/protocol/openid-connect/auth");
        tokenUrl := Some(issuer + "/protocol/openid-connect/token");
        userdataUrl := Some(issuer + "/protocol/openid-connect/userinfo");
      }
      var host := HostOf(issuer);
      var base := BaseOf(host);
      var callback := callbackUrl;
      if callback == "" && base != "" {
        callback := CallbackAt(base);
      }
      if callback != "" {
        oauthCallbackUrl := Some(callback);
      }
      if issuer != "" {
        enableAuthState := true;
      }
    }
  }

  // ---------- the two agree ----------

  lemma MarkLater(c: char, t: string)
    requires c != ':'
    ensures AfterMark([c] + t) == AfterMark(t)
  {
    var s := [c] + t;
    assert s[1..] == t && s[0] == c && "://"[0] == ':';
    assert |s| >= 3 ==> s[..3][0] == c;
  }

  lemma SchemeSkipped(s: string)
    ensures AfterScheme("https://" + s) == s
  {
    assert ("://" + s)[3..] == s && ("://" + s)[..3] == "://";
    MarkLater('s', "://" + s);
    MarkLater('p', ['s'] + ("://" + s));
    MarkLater('t', ['p'] + (['s'] + ("://" + s)));
    MarkLater('t', ['t'] + (['p'] + (['s'] + ("://" + s))));
    MarkLater('h', ['t'] + (['t'] + (['p'] + (['s'] + ("://" + s)))));
    assert "https://" + s == ['h'] + (['t'] + (['t'] + (['p'] + (['s'] + ("://" + s)))));
  }

  /** The host of the platform's issuer: `id.` and the domain up to its first `/`. */
  lemma PlatformHost(domain: string)
    ensures HostOf(RealmUrl(domain)) == "id." + Before(domain, '/')
  {
    var i := Find(domain, '/');
    var d := domain[..i];
    if i < |domain| {
      RealmSplit(domain, d, domain[i + 1..]);
      HostUpTo("id." + d, domain[i + 1..] + "/realms/stardelt");
    } else {
      assert d == domain;
      RealmEnd(domain);
      HostUpTo("id." + d, "realms/stardelt");
    }
  }

  lemma RealmSplit(domain: string, d: string, rest: string)
    requires domain == d + ['/'] + rest
    ensures RealmUrl(domain) == "https://" + (("id." + d) + ['/'] + (rest + "/realms/stardelt"))
  {
  }

  lemma RealmEnd(domain: string)
    ensures RealmUrl(domain) == "https://" + (("id." + domain) + ['/'] + "realms/stardelt")
  {
    assert "/realms/stardelt" == ['/'] + "realms/stardelt";
  }

  lemma BaseAfterId(d: string)
    ensures BaseOf("id." + d) == d
  {
    assert "id." + d == "id" + ['.'] + d;
    FindAfter("id", '.', d);
  }

  /** No `/` to trim: the issuer ends in the realm's name. */
  lemma RealmUntrimmed(domain: string)
    ensures TrimEnd(RealmUrl(domain), '/') == RealmUrl(domain)
  {
    var u := RealmUrl(domain);
    assert u[|u| - 1] == "/realms/stardelt"[15];
  }

  /** The base the hub recovers is the base domain exactly when it holds no `/`. */
  lemma BaseRecovered(domain: string)
    ensures BaseOf(HostOf(TrimEnd(RealmUrl(domain), '/'))) == Before(domain, '/')
    ensures BaseOf(HostOf(TrimEnd(RealmUrl(domain), '/'))) == domain <==> '/' !in domain
  {
    RealmUntrimmed(domain);
    PlatformHost(domain);
    BaseAfterId(Before(domain, '/'));
    if '/' !in domain {
      FindNone(domain, '/');
    }
  }

  /** The callback names the operator's Jupyter host exactly when the bases are equal. */
  lemma CallbackOf(base: string, domain: string)
    ensures CallbackAt(base) == "https://" + HostsOf(domain).jupyter + "/hub/oauth_callback" <==> base == domain
  {
    var given := "https://" + HostsOf(domain).jupyter + "/hub/oauth_callback";
    assert given == CallbackAt(domain);
    assert CallbackAt(base)[16..|CallbackAt(base)| - 19] == base;
    assert CallbackAt(domain)[16..|CallbackAt(domain)| - 19] == domain;
  }

  /** In platform mode, without an override, the hub registers the callback on the host the
      operator gives it, exactly when the domain is not empty and holds no `/`. */
  lemma CallbackAgrees(spec: Instance, domain: string)
    requires spec.mode == Platform && spec.baseDomain == Some(domain)
    ensures IssuerOf(spec) == Issuer(RealmUrl(domain))
    ensures var base := BaseOf(HostOf(TrimEnd(IssuerOf(spec).url, '/')));
      base != "" && CallbackAt(base) == "https://" + HostsOf(domain).jupyter + "/hub/oauth_callback"
      <==> domain != "" && '/' !in domain
  {
    BaseRecovered(domain);
    CallbackOf(Before(domain, '/'), domain);
  }

  /** A domain the schema accepts is one of those. */
  lemma SchemaDomains(spec: Instance, domain: string)
    requires spec.mode == Platform && spec.baseDomain == Some(domain) && DomainCharacters(domain)
    ensures BaseOf(HostOf(TrimEnd(IssuerOf(spec).url, '/'))) == domain
    ensures CallbackAt(domain) == "https://" + HostsOf(domain).jupyter + "/hub/oauth_callback"
  {
    BaseRecovered(domain);
    CallbackAgrees(spec, domain);
  }

  /** The whole path: what a hub without an override registers for such an instance. */
  method HubOf(spec: Instance, domain: string) returns (c: Configuration)
    requires spec.mode == Platform && spec.baseDomain == Some(domain) && DomainCharacters(domain)
    ensures fresh(c)
    ensures c.oauthCallbackUrl == Some("https://" + HostsOf(domain).jupyter + "/hub/oauth_callback")
  {
    SchemaDomains(spec, domain);
    c := new Configuration();
    c.Configure(IssuerOf(spec).url, "");
  }

  // ---------- external mode ----------

  lemma HostUpTo(host: string, rest: string)
    requires '/' !in host
    ensures HostOf("https://" + (host + ['/'] + rest)) == host
  {
    var s := host + ['/'] + rest;
    SchemeSkipped(s);
    FindAfter(host, '/', rest);
    assert s[..|host|] == host;
  }

  lemma HostAlone(host: string)
    requires '/' !in host
    ensures HostOf("https://" + host) == host
  {
    SchemeSkipped(host);
    FindNone(host, '/');
  }

  lemma TrimStep(s: string, c: char)
    ensures TrimEnd(s + [c], c) == TrimEnd(s, c)
  {
    assert (s + [c])[..|s|] == s;
  }

  lemma TrimTwice(s: string, c: char)
    ensures TrimEnd(TrimEnd(s, c), c) == TrimEnd(s, c)
  {
  }

  /** Nothing is left of an issuer without a host but its scheme. */
  lemma NoHost()
    ensures BaseOf(HostOf(TrimEnd("https://", '/'))) == ""
  {
    assert "https://" == ("https:" + ['/']) + ['/'];
    TrimStep("https:" + ['/'], '/');
    TrimStep("https:", '/');
    assert TrimEnd("https:", '/') == "https:";
    assert '.' !in "https:" && '.' !in HostOf("https:");
    FindNone(HostOf("https:"), '.');
  }

  lemma WithoutPath(host: string)
    requires '/' !in host
    ensures BaseOf(HostOf(TrimEnd("https://" + host, '/'))) == BaseOf(host)
  {
    var url := "https://" + host;
    if host == "" {
      assert url == "https://" && BaseOf("") == "";
      NoHost();
    } else {
      assert host[|host| - 1] in host && url[|url| - 1] == host[|host| - 1];
      HostAlone(host);
    }
  }

  lemma Regrouped(front: string, host: string, rest: string)
    requires rest != "" && rest[0] == '/'
    ensures front + host + rest == front + (host + ['/'] + rest[1..])
    ensures (front + host + rest)[|front + host + rest| - 1] == rest[|rest| - 1]
  {
    assert rest == ['/'] + rest[1..];
  }

  lemma WithPath(host: string, rest: string)
    requires '/' !in host && rest != "" && rest[0] == '/' && rest[|rest| - 1] != '/'
    ensures HostOf(TrimEnd("https://" + host + rest, '/')) == host
  {
    Regrouped("https://", host, rest);
    HostUpTo(host, rest[1..]);
  }

  lemma SlashTrimmed(front: string, rest: string)
    requires rest != "" && rest[|rest| - 1] == '/'
    ensures TrimEnd(front + rest, '/') == TrimEnd(front + rest[..|rest| - 1], '/')
  {
    assert front + rest == (front + rest[..|rest| - 1]) + ['/'];
    TrimStep(front + rest[..|rest| - 1], '/');
  }

  /** The host less its first label survives whatever path follows, slashes at the end and
      all. */
  lemma {:induction false} BaseOfIssuer(host: string, rest: string)
    requires '/' !in host && (rest == "" || rest[0] == '/')
    ensures BaseOf(HostOf(TrimEnd("https://" + host + rest, '/'))) == BaseOf(host)
  {
    if rest == "" {
      assert "https://" + host + rest == "https://" + host;
      WithoutPath(host);
    } else if rest[|rest| - 1] == '/' {
      SlashTrimmed("https://" + host, rest);
      BaseOfIssuer(host, rest[..|rest| - 1]);
    } else {
      WithPath(host, rest);
    }
  }

  /** The host an author's issuer URL names. */
  function GivenHost(url: string): string
    requires StartsWith(url, "https://")
  {
    Before(url[8..], '/')
  }

  /** In external mode the issuer's host need not be `id.` and the base domain. Whatever
      path it has: without an override the hub registers the callback on the operator's host
      exactly when the issuer's host, less its first label, is the base domain. */
  lemma ExternalCallback(spec: Instance, url: string, domain: string)
    requires spec.mode == External && spec.issuerUrl == Some(url) && StartsWith(url, "https://")
    ensures IssuerOf(spec).Issuer?
    ensures var base := BaseOf(HostOf(TrimEnd(IssuerOf(spec).url, '/')));
      base != "" && CallbackAt(base) == "https://" + HostsOf(domain).jupyter + "/hub/oauth_callback"
      <==> domain != "" && BaseOf(GivenHost(url)) == domain
  {
    var host, rest := GivenHost(url), url[8 + |GivenHost(url)|..];
    assert url == "https://" + host + rest;
    BaseOfIssuer(host, rest);
    TrimTwice(url, '/');
    CallbackOf(BaseOf(host), domain);
  }

  /** An issuer exactly from a platform's domain or an author's https URL: the URL it names
      is the author's less the slashes at its end. */
  lemma IssuerExactly(spec: Instance)
    ensures IssuerOf(spec) == Absent <==> spec.mode == NoIdentity
    ensures IssuerOf(spec).Issuer? <==>
      || (spec.mode == Platform && spec.baseDomain.Some?)
      || (spec.mode == External && spec.issuerUrl.Some? && StartsWith(spec.issuerUrl.value, "https://"))
    ensures spec.mode == Platform && spec.baseDomain.Some? ==>
      IssuerOf(spec).url == "https://id." + spec.baseDomain.value + "/realms/stardelt"
    ensures spec.mode == External && IssuerOf(spec).Issuer? ==>
      var url, given := IssuerOf(spec).url, spec.issuerUrl.value;
      && url <= given && (forall i :: |url| <= i < |given| ==> given[i] == '/')
      && (url == "" || url[|url| - 1] != '/')
  {
  }

  /** The hosts of an instance are its domain and five different labels under it. */
  lemma HostsExactly(domain: string)
    ensures var h := HostsOf(domain);
      && h.nova == domain && h.trino == "trino." + domain && h.lakekeeper == "lakekeeper." + domain
      && h.superset == "superset." + domain && h.airflow == "airflow." + domain && h.jupyter == "jupyter." + domain
      && |{h.nova, h.trino, h.lakekeeper, h.superset, h.airflow, h.jupyter}| == 6
  {
    var h := HostsOf(domain);
    assert |h.nova| == |domain| && |h.trino| == |domain| + 6 && |h.lakekeeper| == |domain| + 11;
    assert |h.superset| == |domain| + 9 && |h.airflow| == |domain| + 8 && |h.jupyter| == |domain| + 8;
    assert h.airflow[0] == 'a' && h.jupyter[0] == 'j';
  }

  lemma BaseAfterLabel(first: string, base: string)
    requires '.' !in first
    ensures BaseOf(first + ['.'] + base) == base
  {
    FindAfter(first, '.', base);
  }

  /** What the hub registers, for an issuer on a host under `provider`. */
  lemma ProviderCallback(spec: Instance, first: string, provider: string, path: string, domain: string)
    requires spec.mode == External && '.' !in first && '/' !in first && '/' !in provider && path != "" && path[0] == '/'
    requires spec.issuerUrl == Some("https://" + (first + ['.'] + provider) + path)
    ensures IssuerOf(spec).Issuer? && BaseOf(HostOf(TrimEnd(IssuerOf(spec).url, '/'))) == provider
    ensures CallbackAt(provider) == "https://" + HostsOf(domain).jupyter + "/hub/oauth_callback" <==> provider == domain
  {
    BaseOfIssuer(first + ['.'] + provider, path);
    TrimTwice(spec.issuerUrl.value, '/');
    BaseAfterLabel(first, provider);
    CallbackOf(provider, domain);
  }

  /** The repository's example of an external provider, at `login.microsoftonline.com`: its
      checklist names a callback under `data.example.com`, while the hub registers one on a
      host of the provider, whatever path follows. */
  lemma EntraCallback(spec: Instance, path: string)
    requires spec.mode == External && path != "" && path[0] == '/'
    requires spec.issuerUrl == Some("https://" + ("login" + ['.'] + "microsoftonline.com") + path)
    ensures IssuerOf(spec).Issuer?
    ensures var base := BaseOf(HostOf(TrimEnd(IssuerOf(spec).url, '/')));
      && base == "microsoftonline.com"
      && CallbackAt(base) != "https://" + HostsOf("data.example.com").jupyter + "/hub/oauth_callback"
  {
    assert |"microsoftonline.com"| != |"data.example.com"|;
    ProviderCallback(spec, "login", "microsoftonline.com", path, "data.example.com");
  }
}
