/**
 The exchanging client against an arbitrary server (exchange.go): one POST, and at most
 one more with the nonce that the server has asked for.
 */
module ExchangeClient {
  import opened Wrappers
  import opened ExchangeForm
  import opened ExchangeWire
  import Clock
  import Json
  import Text

  /** One POST as it goes out; proof is the DPoP header, if there is one. */
  datatype Sent = Sent(form: Form, basic: Option<(string, string)>, proof: Option<string>)

  /** body is None if it is not JSON. */
  datatype HttpResponse = HttpResponse(status: int, nonce: string, body: Option<Json.Value>)

  datatype ClientError =
    | BadRequest(err: string)
    | Proofless(err: string)
    | Transport
    | Api(exchange: ExchangeError)
    | BadResponse(err: string)

  /** The outcome of one attempt: a token or an error, and the nonce of a use_dpop_nonce challenge. */
  datatype Attempt = Attempt(result: Result<IssuedToken, ClientError>, nonce: string)

  /** A DPoP key signs a fresh proof for an attempt and a nonce, which is empty if there is none. */
  datatype DPoPKey = DPoPKey(sign: (nat, string) -> Result<string, string>)

  /** badRequest is the error of making a request to the endpoint, if its URL is not well-formed. */
  datatype Client = Client(auth: SecretAuth, dpop: Option<DPoPKey>, badRequest: Option<string>)

  const USE_DPOP_NONCE := "use_dpop_nonce"

  function Redirected(status: int): ExchangeError {
    ExchangeError("invalid_request", "token endpoint returned a redirect, which is not followed", "", status)
  }

  /** What the client makes of a response; None is a transport error. */
  function Judge(response: Option<HttpResponse>): Attempt {
    match response
    case None => Attempt(Failure(Transport), "")
    case Some(r) =>
      if 300 <= r.status < 400 then
        Attempt(Failure(Api(Redirected(r.status))), "")
      else if r.status / 100 != 2 then
        var ee := ParseExchangeError(r.status, r.body);
        Attempt(Failure(Api(ee)), if ee.code == USE_DPOP_NONCE then r.nonce else "")
      else
        match ParseExchangeResult(r.body)
        case Failure(err) => Attempt(Failure(BadResponse(err)), "")
        case Success(token) => Attempt(Success(token), "")
  }

  /** The POST of an attempt, unless the request or the proof for it cannot be made. */
  function Prepared(x: Client, form: Form, attempt: nat, nonce: string): Result<Sent, ClientError> {
    if x.badRequest.Some? then Failure(BadRequest(x.badRequest.value))
    else if x.dpop.None? then Success(Sent(Authenticated(x.auth, form), Basic(x.auth), None))
    else
      match x.dpop.value.sign(attempt, nonce)
      case Failure(err) => Failure(Proofless(err))
      case Success(proof) => Success(Sent(Authenticated(x.auth, form), Basic(x.auth), Some(proof)))
  }

  /** A server that may answer each POST by all it has been sent so far. */
  type Server = seq<Sent> -> Option<HttpResponse>

  /** One attempt: the POSTs that have been sent then, and the outcome. */
  function DoOnce(x: Client, server: Server, sent: seq<Sent>, form: Form, attempt: nat, nonce: string)
    : (seq<Sent>, Attempt)
  {
    match Prepared(x, form, attempt, nonce)
    case Failure(err) => (sent, Attempt(Failure(err), ""))
    case Success(post) => (sent + [post], Judge(server(sent + [post])))
  }

  function Exchanged(x: Client, server: Server, sent: seq<Sent>, form: Form)
    : (seq<Sent>, Result<IssuedToken, ClientError>)
  {
    var (sent1, first) := DoOnce(x, server, sent, form, 0, "");
    if first.result.Success? || x.dpop.None? || first.nonce == "" then (sent1, first.result)
    else
      var (sent2, second) := DoOnce(x, server, sent1, form, 1, first.nonce);
      (sent2, second.result)
  }

  /** The connection to the server, with everything sent over it. */
  class Network {
    var sent: seq<Sent>
    const server: Server

    constructor (server: Server)
      ensures this.server == server && sent == []
    {
      this.server, sent := server, [];
    }

    method Post(post: Sent) returns (response: Option<HttpResponse>)
      modifies this
      ensures sent == old(sent) + [post] && response == server(sent)
    {
      sent := sent + [post];
      return server(sent);
    }
  }

  /** do. The caller's form is not in the frame of what it modifies. */
  method Do(x: Client, net: Network, form: Values, attempt: nat, nonce: string) returns (outcome: Attempt)
    modifies net
    ensures (net.sent, outcome) == DoOnce(x, net.server, old(net.sent), form.entries, attempt, nonce)
  {
    var authForm := form.Clone();
    if x.badRequest.Some? {
      return Attempt(Failure(BadRequest(x.badRequest.value)), "");
    }
    var basic := Apply(x.auth, authForm);
    var proof := None;
    if x.dpop.Some? {
      match x.dpop.value.sign(attempt, nonce) {
        case Failure(err) => return Attempt(Failure(Proofless(err)), "");
        case Success(signed) => proof := Some(signed);
      }
    }
    var response := net.Post(Sent(authForm.entries, basic, proof));
    return Judge(response);
  }

  /** exchangeWithNonceRetry. */
  method ExchangeWithNonceRetry(x: Client, net: Network, form: Values)
    returns (result: Result<IssuedToken, ClientError>)
    modifies net
    ensures (net.sent, result) == Exchanged(x, net.server, old(net.sent), form.entries)
  {
    var first := Do(x, net, form, 0, "");
    if first.result.Success? {
      return first.result;
    }
    if x.dpop.None? || first.nonce == "" {
      return first.result;
    }
    var second := Do(x, net, form, 1, first.nonce);
    return second.result;
  }

  /** A response that challenges the client for this nonce. */
  predicate Challenges(response: Option<HttpResponse>, nonce: string) {
    && response.Some? && nonce != "" && response.value.nonce == nonce
    && !(200 <= response.value.status < 400)
    && ParseExchangeError(response.value.status, response.value.body).code == USE_DPOP_NONCE
  }

  lemma JudgeNonceIff(response: Option<HttpResponse>, nonce: string)
    requires nonce != ""
    ensures Judge(response).nonce == nonce <==> Challenges(response, nonce)
    ensures Challenges(response, nonce) ==> Judge(response).result.Failure?
  {
  }

  /** What has to happen for a second POST: a DPoP key, a challenge with a nonce, and a proof for it. */
  predicate Retries(x: Client, server: Server, sent: seq<Sent>, form: Form, nonce: string) {
    && x.dpop.Some? && Prepared(x, form, 0, "").Success?
    && Challenges(server(sent + [Prepared(x, form, 0, "").value]), nonce)
    && Prepared(x, form, 1, nonce).Success?
  }

  /** What becomes of each response: only a success with a readable token is one. */
  lemma JudgeIs(response: Option<HttpResponse>)
    ensures response.None? ==> Judge(response).result == Failure(Transport)
    ensures
      response.Some? ==>
        var status, result := response.value.status, Judge(response).result;
        && (200 <= status < 300 ==>
              match ParseExchangeResult(response.value.body)
              case Success(token) => result == Success(token)
              case Failure(err) => result == Failure(BadResponse(err)))
        && (300 <= status < 400 ==>
              result == Failure(Api(ExchangeError("invalid_request",
                                                  "token endpoint returned a redirect, which is not followed",
                                                  "", status))))
        && (!(200 <= status < 400) ==> result == Failure(Api(ParseExchangeError(status, response.value.body))))
  {
  }

  /** A response that a client with a DPoP key can answer with another attempt. */
  predicate IsChallenge(response: Option<HttpResponse>) {
    response.Some? && Challenges(response, response.value.nonce)
  }

  /** The first POST decides, unless it is challenged and there is a key; then the second does, if it can be made. */
  lemma ExchangedIs(x: Client, server: Server, sent: seq<Sent>, form: Form)
    ensures
      var first := Prepared(x, form, 0, "");
      if first.Failure? then Exchanged(x, server, sent, form) == (sent, Failure(first.error))
      else
        var sent1 := sent + [first.value];
        if x.dpop.None? || !IsChallenge(server(sent1)) then
          Exchanged(x, server, sent, form) == (sent1, Judge(server(sent1)).result)
        else
          var second := Prepared(x, form, 1, server(sent1).value.nonce);
          if second.Failure? then Exchanged(x, server, sent, form) == (sent1, Failure(second.error))
          else
            var sent2 := sent1 + [second.value];
            Exchanged(x, server, sent, form) == (sent2, Judge(server(sent2)).result)
  {
    var first := Prepared(x, form, 0, "");
    if first.Success? {
      var response := server(sent + [first.value]);
      if response.Some? && response.value.nonce != "" {
        JudgeNonceIff(response, response.value.nonce);
      }
      NonceIsSent(response);
    }
  }

  /** A nonce is never made up. */
  lemma NonceIsSent(response: Option<HttpResponse>)
    ensures Judge(response).nonce == "" || (response.Some? && Judge(response).nonce == response.value.nonce)
  {
  }

  /** A POST carries the form with the credentials of the client, and a proof exactly if there is a key. */
  lemma PreparedIs(x: Client, form: Form, attempt: nat, nonce: string)
    ensures
      var prepared := Prepared(x, form, attempt, nonce);
      var signed := if x.dpop.Some? then x.dpop.value.sign(attempt, nonce) else Failure("");
      && (x.badRequest.Some? ==> prepared == Failure(BadRequest(x.badRequest.value)))
      && (x.badRequest.None? && x.dpop.Some? && signed.Failure? ==> prepared == Failure(Proofless(signed.error)))
      && (x.badRequest.None? && (x.dpop.None? || signed.Success?) ==>
            prepared == Success(Sent(Authenticated(x.auth, form), Basic(x.auth),
                                     if x.dpop.None? then None else Some(signed.value))))
  {
  }

  /**
   An exchange is at most two POSTs, and two exactly after a nonce challenge to a client
   with a DPoP key. Both carry the same parameters and credentials; the second carries a
   proof for the nonce of the challenge, and its response decides.
   */
  lemma RetriesOnce(x: Client, server: Server, sent: seq<Sent>, form: Form)
    ensures
      var (sent', result) := Exchanged(x, server, sent, form);
      && |sent| <= |sent'| <= |sent| + 2 && sent'[..|sent|] == sent
      && (forall k :: |sent| <= k < |sent'| ==>
            sent'[k].form == Authenticated(x.auth, form) && sent'[k].basic == Basic(x.auth)
            && (sent'[k].proof.Some? <==> x.dpop.Some?))
      && (|sent'| == |sent| + 2 <==> exists nonce :: Retries(x, server, sent, form, nonce))
      && (forall nonce :: Retries(x, server, sent, form, nonce) && |sent'| == |sent| + 2 ==>
            && sent'[|sent| + 1].proof == Some(x.dpop.value.sign(1, nonce).value)
            && result == Judge(server(sent')).result)
  {
    var (sent1, first) := DoOnce(x, server, sent, form, 0, "");
    forall nonce | nonce != "" && Prepared(x, form, 0, "").Success?
      ensures first.nonce == nonce <==> Challenges(server(sent1), nonce)
      ensures Challenges(server(sent1), nonce) ==> first.result.Failure?
    {
      JudgeNonceIff(server(sent1), nonce);
    }
    if |Exchanged(x, server, sent, form).0| == |sent| + 2 {
      assert Retries(x, server, sent, form, first.nonce);
    }
  }

  /** What the server writes with WriteExchangeResponse, the client returns. */
  lemma ClientReadsToken(t: IssuedToken, status: int, nonce: string)
    requires t.accessToken != "" && Clock.IsDuration(t.expiresIn)
    requires forall i :: 0 <= i < |t.scope| ==> Text.IsWord(t.scope[i])
    requires 200 <= status < 300
    ensures Judge(Some(HttpResponse(status, nonce, ResponseBody(t)))) == Attempt(Success(Delivered(t)), "")
  {
    ResponseRoundTrip(t);
  }

  /** What WriteExchangeError writes, the client returns, if the error has a code and an error's status. */
  lemma ClientReadsError(ee: ExchangeError, nonce: string)
    requires ee.code != "" && !(200 <= StatusOf(ee) < 400)
    ensures
      var attempt := Judge(Some(HttpResponse(StatusOf(ee), nonce, Some(ErrorBody(ee)))));
      && attempt.result == Failure(Api(ee.(httpStatus := StatusOf(ee))))
      && attempt.nonce == if ee.code == USE_DPOP_NONCE then nonce else ""
  {
    ErrorRoundTrip(ee);
  }

  /** An exchange whose last POST is answered with a written token returns that token. */
  lemma ExchangeDelivers(x: Client, server: Server, sent: seq<Sent>, form: Form, t: IssuedToken, status: int,
                         nonce: string)
    requires t.accessToken != "" && Clock.IsDuration(t.expiresIn) && 200 <= status < 300
    requires forall i :: 0 <= i < |t.scope| ==> Text.IsWord(t.scope[i])
    requires |Exchanged(x, server, sent, form).0| > |sent|
    requires server(Exchanged(x, server, sent, form).0) == Some(HttpResponse(status, nonce, ResponseBody(t)))
    ensures Exchanged(x, server, sent, form).1 == Success(Delivered(t))
  {
    ExchangedIs(x, server, sent, form);
    ClientReadsToken(t, status, nonce);
  }

  /** An exchange whose only POST is answered with a written error returns that error. */
  lemma ExchangeReports(x: Client, server: Server, sent: seq<Sent>, form: Form, ee: ExchangeError, nonce: string)
    requires ee.code != "" && !(200 <= StatusOf(ee) < 400) && Prepared(x, form, 0, "").Success?
    requires
      server(sent + [Prepared(x, form, 0, "").value])
      == Some(HttpResponse(StatusOf(ee), nonce, Some(ErrorBody(ee))))
    requires x.dpop.None? || ee.code != USE_DPOP_NONCE || nonce == ""
    ensures Exchanged(x, server, sent, form) ==
            (sent + [Prepared(x, form, 0, "").value], Failure(Api(ee.(httpStatus := StatusOf(ee)))))
  {
    ExchangedIs(x, server, sent, form);
    ClientReadsError(ee, nonce);
    ErrorRoundTrip(ee);
  }

  /** The error that is left after a retry is that of the second answer. */
  lemma RetryReports(x: Client, server: Server, sent: seq<Sent>, form: Form, ee: ExchangeError, nonce: string)
    requires ee.code != "" && !(200 <= StatusOf(ee) < 400) && |Exchanged(x, server, sent, form).0| == |sent| + 2
    requires server(Exchanged(x, server, sent, form).0)
             == Some(HttpResponse(StatusOf(ee), nonce, Some(ErrorBody(ee))))
    ensures Exchanged(x, server, sent, form).1 == Failure(Api(ee.(httpStatus := StatusOf(ee))))
  {
    ExchangedIs(x, server, sent, form);
    ClientReadsError(ee, nonce);
  }
}
