/** The identity server's static registration (Auth.IdentityServer/Config.cs):
    the identity resources and API scopes it declares, the client template of
    the single-page application, and the merge of the configured SPA URLs into
    that client's CORS origins and redirect URIs. */
module Config {

  /** An identity resource, by the scope name that requests it. */
  datatype IdentityResource = IdentityResource(name: string)

  /** An API scope: its name and display name. */
  datatype ApiScope = ApiScope(name: string, displayName: string)

  /** The scope names of the library's standard OpenId and Profile
      identity resources. */
  const OpenIdScope := "openid"
  const ProfileScope := "profile"

  /** The library's authorization-code grant type. */
  const AuthorizationCode := "authorization_code"

  /** The path appended to each SPA URL to form its redirect URI. */
  const CallbackPath := "/oidc-callback"

  function IdentityResources(): seq<IdentityResource>
  {
    [IdentityResource(OpenIdScope), IdentityResource(ProfileScope)]
  }

  function ApiScopes(): seq<ApiScope>
  {
    [ApiScope("Auth.oscgre.api", "API de Sistema OSCGRE")]
  }

  /** The scopes the SPA client may request. */
  const SpaAllowedScopes := [OpenIdScope, ProfileScope, "Auth.oscgre.api"]

  /** Every scope the client may request is declared, either as an identity
      resource or as an API scope. */
  lemma AllowedScopesAreDeclared()
    ensures forall s :: s in SpaAllowedScopes ==>
      (exists r :: r in IdentityResources() && r.name == s) || (exists a :: a in ApiScopes() && a.name == s)
  {
    assert IdentityResources()[0].name == OpenIdScope;
    assert IdentityResources()[1].name == ProfileScope;
    assert ApiScopes()[0].name == "Auth.oscgre.api";
  }

  /** The configured settings: the base URLs of the single-page applications. */
  datatype ClientsSettings = ClientsSettings(spaUrls: seq<string>)

  /** A client registration. Its collections are sets of strings that the
      registration code adds to in place. */
  class Client {
    var clientId: string
    var clientName: string
    var allowedGrantTypes: seq<string>
    var requireClientSecret: bool
    var redirectUris: set<string>
    var allowOfflineAccess: bool
    var postLogoutRedirectUris: set<string>
    var allowedScopes: seq<string>
    var allowedCorsOrigins: set<string>

    /** A client whose redirect URIs and CORS origins start empty. */
    constructor (clientId: string, clientName: string, allowedGrantTypes: seq<string>, requireClientSecret: bool,
                 allowOfflineAccess: bool, postLogoutRedirectUris: set<string>, allowedScopes: seq<string>)
      ensures this.clientId == clientId && this.clientName == clientName
      ensures this.allowedGrantTypes == allowedGrantTypes && this.requireClientSecret == requireClientSecret
      ensures this.allowOfflineAccess == allowOfflineAccess && this.postLogoutRedirectUris == postLogoutRedirectUris
      ensures this.allowedScopes == allowedScopes
      ensures redirectUris == {} && allowedCorsOrigins == {}
    {
      this.clientId := clientId;
      this.clientName := clientName;
      this.allowedGrantTypes := allowedGrantTypes;
      this.requireClientSecret := requireClientSecret;
      this.allowOfflineAccess := allowOfflineAccess;
      this.postLogoutRedirectUris := postLogoutRedirectUris;
      this.allowedScopes := allowedScopes;
      redirectUris := {};
      allowedCorsOrigins := {};
    }
  }

  /** The settings of the SPA client template, all but its two collections
      that the merge fills. */
  predicate HasSpaSettings(c: Client)
    reads c
  {
    c.clientId == "Auth.oscgre.spa" && c.clientName == "SPA de Generico" &&
    c.allowedGrantTypes == [AuthorizationCode] && !c.requireClientSecret &&
    c.allowOfflineAccess && c.postLogoutRedirectUris == {"https://localhost:5002/signout-callback-oidc"} &&
    c.allowedScopes == SpaAllowedScopes
  }

  /** `Clients`: every access builds a new one-element list holding a new
      client from the template, with empty redirect URIs and CORS origins. */
  method Clients() returns (clients: seq<Client>)
    ensures |clients| == 1 && fresh(clients[0])
    ensures HasSpaSettings(clients[0])
    ensures clients[0].redirectUris == {} && clients[0].allowedCorsOrigins == {}
  {
    var spa := new Client("Auth.oscgre.spa", "SPA de Generico", [AuthorizationCode], false,
                          true, {"https://localhost:5002/signout-callback-oidc"}, SpaAllowedScopes);
    clients := [spa];
  }

  /** The CORS origins the merge adds: the SPA URLs themselves. */
  function CorsOrigins(urls: seq<string>): set<string>
  {
    set u | u in urls
  }

  /** The redirect URIs the merge adds: each SPA URL followed by the
      callback path. */
  function CallbackUris(urls: seq<string>): set<string>
  {
    set u | u in urls :: u + CallbackPath
  }

  /** Appending the same suffix never makes two URLs equal. */
  lemma SuffixInjective(a: string, b: string, suffix: string)
    requires a + suffix == b + suffix
    ensures a == b
  {
    assert |a| == |b|;
    assert a == (a + suffix)[..|a|];
    assert b == (b + suffix)[..|b|];
  }

  /** A URL's redirect URI is registered exactly when the URL is configured. */
  lemma CallbackUriIffConfigured(urls: seq<string>, u: string)
    ensures u + CallbackPath in CallbackUris(urls) <==> u in urls
  {
    if u + CallbackPath in CallbackUris(urls) {
      var v :| v in urls && v + CallbackPath == u + CallbackPath;
      SuffixInjective(v, u, CallbackPath);
    }
  }

  /** Each configured URL contributes its own redirect URI: there are as many
      redirect URIs as distinct CORS origins. */
  lemma {:induction false} CallbackUrisMatchOrigins(urls: seq<string>)
    ensures |CallbackUris(urls)| == |CorsOrigins(urls)|
  {
    if urls != [] {
      var init, last := urls[..|urls| - 1], urls[|urls| - 1];
      assert urls == init + [last];
      CallbackUrisMatchOrigins(init);
      assert CorsOrigins(urls) == CorsOrigins(init) + {last};
      assert CallbackUris(urls) == CallbackUris(init) + {last + CallbackPath};
      CallbackUriIffConfigured(init, last);
    }
  }

  /** GetClients: adds each SPA URL to the first client's CORS origins and
      the URL followed by the callback path to its redirect URIs; the
      client's other settings stay those of the template. */
  method GetClients(settings: ClientsSettings) returns (clients: seq<Client>)
    ensures |clients| == 1 && fresh(clients[0])
    ensures HasSpaSettings(clients[0])
    ensures clients[0].allowedCorsOrigins == CorsOrigins(settings.spaUrls)
    ensures clients[0].redirectUris == CallbackUris(settings.spaUrls)
  {
    clients := Clients();
    var targetClient := clients[0];
    var urls := settings.spaUrls;
    for i := 0 to |urls|
      invariant HasSpaSettings(targetClient)
      invariant targetClient.allowedCorsOrigins == CorsOrigins(urls[..i])
      invariant targetClient.redirectUris == CallbackUris(urls[..i])
    {
      var clientUrl := urls[i];
      assert urls[..i + 1] == urls[..i] + [clientUrl];
      targetClient.allowedCorsOrigins := targetClient.allowedCorsOrigins + {clientUrl};
      var redirectUri := clientUrl + CallbackPath;
      targetClient.redirectUris := targetClient.redirectUris + {redirectUri};
    }
    assert urls[..|urls|] == urls;
  }

  /** Two calls build two distinct clients: the second call's URLs do not
      reach the first call's client, nor the other way round. */
  method RepeatedCallsDoNotAccumulate(first: ClientsSettings, second: ClientsSettings)
    returns (a: seq<Client>, b: seq<Client>)
    ensures |a| == 1 && |b| == 1 && a[0] != b[0]
    ensures a[0].allowedCorsOrigins == CorsOrigins(first.spaUrls)
    ensures a[0].redirectUris == CallbackUris(first.spaUrls)
    ensures b[0].allowedCorsOrigins == CorsOrigins(second.spaUrls)
    ensures b[0].redirectUris == CallbackUris(second.spaUrls)
  {
    a := GetClients(first);
    b := GetClients(second);
  }
}
