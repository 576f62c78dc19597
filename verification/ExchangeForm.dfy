/**
 The form of a token-exchange request: how the client builds and authenticates it
 (exchange.go, exchange_client_auth.go), and what the validator reads from it.
 */
module ExchangeForm {
  import opened Wrappers
  import Text

  /** The parameter names that the repository uses, and any other. */
  datatype Key =
    | GrantType | SubjectToken | SubjectTokenType | ActorToken | ActorTokenType
    | Resource | Audience | Scope | RequestedTokenType | ClientId | ClientSecret
    | Other(name: string)

  type Form = map<Key, seq<string>>

  const TOKEN_EXCHANGE := "urn:ietf:params:oauth:grant-type:token-exchange"
  const ACCESS_TOKEN := "urn:ietf:params:oauth:token-type:access_token"

  function OrDefault(tokenType: string): string {
    if tokenType == "" then ACCESS_TOKEN else tokenType
  }

  /** url.Values.Get: the first value, or the empty string. */
  function Get(f: Form, k: Key): string {
    if k in f && f[k] != [] then f[k][0] else ""
  }

  /** All values of a key. */
  function All(f: Form, k: Key): seq<string> {
    if k in f then f[k] else []
  }

  datatype ExchangeRequest = ExchangeRequest(
    subjectToken: string,
    subjectTokenType: string,
    actorToken: string,
    actorTokenType: string,
    resource: seq<string>,
    audience: seq<string>,
    scope: seq<string>,
    requestedTokenType: string)

  /** url.Values: a map that its methods change in place. */
  class Values {
    var entries: Form

    constructor ()
      ensures entries == map[]
    {
      entries := map[];
    }

    method Set(k: Key, v: string)
      modifies this
      ensures entries == old(entries)[k := [v]]
    {
      entries := entries[k := [v]];
    }

    method Add(k: Key, v: string)
      modifies this
      ensures entries == old(entries)[k := All(old(entries), k) + [v]]
    {
      entries := entries[k := All(entries, k) + [v]];
    }

    /** cloneValues, which copies one key after the other into a new map. */
    method Clone() returns (out: Values)
      ensures fresh(out) && out.entries == entries
    {
      out := new Values();
      var todo := entries.Keys;
      while todo != {}
        invariant fresh(out) && todo <= entries.Keys
        invariant out.entries == map k | k in entries && k !in todo :: entries[k]
      {
        var k :| k in todo;
        out.entries := out.entries[k := entries[k]];
        todo := todo - {k};
      }
      assert out.entries == entries;
    }
  }

  /** The form with these values under this key, if they are to be sent. */
  function Put(f: Form, send: bool, k: Key, vs: seq<string>): Form {
    if send then f[k := vs] else f
  }

  /** The form of a request. */
  function FormOf(req: ExchangeRequest): Form {
    var f: Form := map[][GrantType := [TOKEN_EXCHANGE]][SubjectToken := [req.subjectToken]];
    var f := f[SubjectTokenType := [OrDefault(req.subjectTokenType)]];
    var f := Put(f, req.actorToken != "", ActorToken, [req.actorToken]);
    var f := Put(f, req.actorToken != "", ActorTokenType, [req.actorTokenType]);
    var f := Put(f, req.resource != [], Resource, req.resource);
    var f := Put(f, req.audience != [], Audience, req.audience);
    var f := Put(f, req.scope != [], Scope, [Text.Join(req.scope)]);
    Put(f, req.requestedTokenType != "", RequestedTokenType, [req.requestedTokenType])
  }

  /** Adds all values under a key that the form does not have yet. */
  method AddAll(form: Values, k: Key, vs: seq<string>)
    requires k !in form.entries
    modifies form
    ensures form.entries == Put(old(form.entries), vs != [], k, vs)
  {
    for i := 0 to |vs|
      invariant form.entries == Put(old(form.entries), i > 0, k, vs[..i])
    {
      form.Add(k, vs[i]);
      assert vs[..i + 1] == vs[..i] + [vs[i]];
    }
    assert vs[..|vs|] == vs;
  }

  /** buildExchangeForm. */
  method BuildExchangeForm(req: ExchangeRequest) returns (form: Values)
    ensures fresh(form) && form.entries == FormOf(req)
  {
    form := new Values();
    form.Set(GrantType, TOKEN_EXCHANGE);
    form.Set(SubjectToken, req.subjectToken);
    form.Set(SubjectTokenType, OrDefault(req.subjectTokenType));
    if req.actorToken != "" {
      form.Set(ActorToken, req.actorToken);
      form.Set(ActorTokenType, req.actorTokenType);
    }
    AddAll(form, Resource, req.resource);
    AddAll(form, Audience, req.audience);
    if |req.scope| > 0 {
      form.Set(Scope, Text.Join(req.scope));
    }
    if req.requestedTokenType != "" {
      form.Set(RequestedTokenType, req.requestedTokenType);
    }
  }

  // ---------------------------------------------------------------- client authentication

  /** ClientSecretAuth: credentials in the form, or in the Authorization header. */
  datatype SecretAuth = SecretAuth(clientID: string, secret: string, post: bool)

  function Authenticated(auth: SecretAuth, f: Form): Form {
    if auth.post then f[ClientId := [auth.clientID]][ClientSecret := [auth.secret]] else f
  }

  function Basic(auth: SecretAuth): Option<(string, string)> {
    if auth.post then None else Some((auth.clientID, auth.secret))
  }

  /** secretAuth.apply, which changes the form or sets the basic credentials of the request. */
  method Apply(auth: SecretAuth, form: Values) returns (basic: Option<(string, string)>)
    modifies form
    ensures form.entries == Authenticated(auth, old(form.entries)) && basic == Basic(auth)
  {
    if auth.post {
      form.Set(ClientId, auth.clientID);
      form.Set(ClientSecret, auth.secret);
      return None;
    }
    return Some((auth.clientID, auth.secret));
  }

  // ---------------------------------------------------------------- what the validator reads

  /** The parameters of an exchange as they are read from a form. */
  datatype Asked = Asked(
    grantType: string,
    subjectToken: string,
    subjectTokenType: string,
    actorToken: string,
    actorTokenType: string,
    resource: seq<string>,
    audience: seq<string>,
    scope: seq<string>,
    requestedTokenType: string)

  function Read(f: Form): Asked {
    Asked(Get(f, GrantType), Get(f, SubjectToken), Get(f, SubjectTokenType), Get(f, ActorToken), Get(f, ActorTokenType),
          All(f, Resource), All(f, Audience), Text.Fields(Get(f, Scope)), Get(f, RequestedTokenType))
  }

  /** What a validator should make of a request: an actor type without an actor token is dropped. */
  function Meant(req: ExchangeRequest): Asked {
    Asked(TOKEN_EXCHANGE, req.subjectToken, OrDefault(req.subjectTokenType), req.actorToken,
          if req.actorToken != "" then req.actorTokenType else "",
          req.resource, req.audience, req.scope, req.requestedTokenType)
  }

  /** The values that a request has for each key. */
  function ValuesOf(req: ExchangeRequest, k: Key): seq<string> {
    match k
    case GrantType => [TOKEN_EXCHANGE]
    case SubjectToken => [req.subjectToken]
    case SubjectTokenType => [OrDefault(req.subjectTokenType)]
    case ActorToken => if req.actorToken != "" then [req.actorToken] else []
    case ActorTokenType => if req.actorToken != "" then [req.actorTokenType] else []
    case Resource => req.resource
    case Audience => req.audience
    case Scope => if req.scope != [] then [Text.Join(req.scope)] else []
    case RequestedTokenType => if req.requestedTokenType != "" then [req.requestedTokenType] else []
    case _ => []
  }

  lemma FormAt(req: ExchangeRequest, k: Key)
    ensures All(FormOf(req), k) == ValuesOf(req, k)
  {
  }

  lemma GetIsFirst(f: Form, k: Key)
    ensures Get(f, k) == if All(f, k) == [] then "" else All(f, k)[0]
  {
  }

  lemma FormReads(req: ExchangeRequest)
    ensures Read(FormOf(req)) == Meant(req).(scope := Text.Fields(Text.Join(req.scope)))
  {
    var f := FormOf(req);
    forall k
      ensures All(f, k) == ValuesOf(req, k)
      ensures Get(f, k) == if ValuesOf(req, k) == [] then "" else ValuesOf(req, k)[0]
    {
      FormAt(req, k);
      GetIsFirst(f, k);
    }
  }

  lemma AuthenticationKeeps(auth: SecretAuth, f: Form)
    ensures Read(Authenticated(auth, f)) == Read(f)
  {
  }

  /** The credentials are sent once: in the form under their names, or as those of basic authentication. */
  lemma CredentialsIff(auth: SecretAuth, req: ExchangeRequest)
    ensures
      var f := Authenticated(auth, FormOf(req));
      && All(f, ClientId) == (if auth.post then [auth.clientID] else [])
      && All(f, ClientSecret) == (if auth.post then [auth.secret] else [])
      && (Basic(auth) == None <==> auth.post)
      && (!auth.post ==> Basic(auth) == Some((auth.clientID, auth.secret)))
  {
    FormAt(req, ClientId);
    FormAt(req, ClientSecret);
  }

  /** The names of section 2.1 of RFC 8693 and of its token types. */
  lemma FormNames(req: ExchangeRequest)
    ensures Get(FormOf(req), GrantType) == "urn:ietf:params:oauth:grant-type:token-exchange"
    ensures req.subjectTokenType == "" ==>
              Get(FormOf(req), SubjectTokenType) == "urn:ietf:params:oauth:token-type:access_token"
  {
    FormAt(req, GrantType);
    FormAt(req, SubjectTokenType);
  }

  /** The validator reads what the client meant, up to the splitting of its scopes into words. */
  lemma RequestRoundTrip(req: ExchangeRequest, auth: SecretAuth)
    ensures
      var asked := Read(Authenticated(auth, FormOf(req)));
      && asked == Meant(req).(scope := Text.AllFields(req.scope))
      && (asked == Meant(req) <==> forall i :: 0 <= i < |req.scope| ==> Text.IsWord(req.scope[i]))
  {
    AuthenticationKeeps(auth, FormOf(req));
    FormReads(req);
    Text.FieldsOfJoin(req.scope);
    Text.JoinFieldsRoundTrip(req.scope);
  }
}
