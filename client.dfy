/** The Clickatell HTTP/S API client: a session state machine (has the client
    authenticated, and with which session id) and the reading of the gateway's replies.
    The network is abstracted away: every operation receives the body the gateway
    answers with, and reports the requests it sends. An operation that may have to
    authenticate first also receives the body of the reply to that `auth` request,
    which it reads only when it does authenticate. */
module Client {
  import opened Wrappers
  import opened Text
  import opened Form

  /** Length of the session id the gateway hands out on `auth`. */
  const SessionIdLength := 32
  /** Length of the message id `getmsgcharge` asks about. */
  const MsgIdLength := 32
  /** Length of a voucher redeemed by `tokenpay`. */
  const VoucherLength := 16
  const DefaultUserAgent := "pyclickatell"

  /** Separator of the tokens in a reply body. */
  const ReplySeparator := ": "

  /** The exceptions an operation can end with: a failed `assert`, an index past the
      end of the token list, a key missing from the message dictionary. */
  datatype Error = AssertionError | IndexError | KeyError

  /** How a call ends: it returns a value or raises. */
  datatype Outcome<+T> = Return(value: T) | Raise(error: Error)

  /** The gateway's endpoints, one per operation. */
  datatype Endpoint = Auth | GetBalance | GetMsgCharge | Ping | SendMsg | TokenPay

  /** What one call of the request executor sends: the endpoint and the form. */
  datatype Request = Request(endpoint: Endpoint, form: FormMap)

  /** The client's mutable state, as a value. */
  datatype Session = Session(hasAuthed: bool, sessionId: Option<string>)

  /** Only `auth` installs a session id, and only one of the required length; only
      `auth` sets `hasAuthed`, and it installs an id when it does. */
  predicate SessionValid(s: Session)
  {
    && (s.hasAuthed ==> s.sessionId.Some?)
    && (s.sessionId.Some? ==> |s.sessionId.value| == SessionIdLength)
  }

  /** The reply body as the request executor returns it: split on ": ". The tokens
      hold no ": " and give the body back when joined with it. */
  function Tokenise(body: string): (tokens: seq<string>)
    ensures tokens != []
    ensures Join(tokens, ReplySeparator) == body
    ensures forall t :: t in tokens ==> !Contains(t, ReplySeparator)
  {
    JoinSplit(body, ReplySeparator);
    SplitTokensFree(body, ReplySeparator);
    Split(body, ReplySeparator)
  }

  /** `getmsgcharge` tokenises again: it joins the tokens with a space and splits
      the result on a space. */
  function Retokenise(tokens: seq<string>): (words: seq<string>)
    ensures words != []
    ensures Join(words, " ") == Join(tokens, " ")
    ensures forall w :: w in words ==> !Contains(w, " ")
  {
    JoinSplit(Join(tokens, " "), " ");
    SplitTokensFree(Join(tokens, " "), " ");
    Split(Join(tokens, " "), " ")
  }

  // ---------------------------------------------------------------------------
  // Field lists of the requests

  /** The fields of `auth`: the three credentials, each under its own name. */
  function AuthFields(username: string, password: string, apiId: string): (post: seq<Field>)
    ensures FormOf(post) == map["user" := Some(username), "password" := Some(password), "api_id" := Some(apiId)]
  {
    var post := [("user", Some(username)), ("password", Some(password)), ("api_id", Some(apiId))];
    assert post[..2] == [post[0], post[1]] && post[..2][..1] == [post[0]];
    assert FormOf(post[..1]) == map["user" := Some(username)];
    assert FormOf(post[..2]) == map["user" := Some(username), "password" := Some(password)];
    post
  }

  /** The fields of `getbalance` and `ping`: the session id alone. */
  function SessionFields(sessionId: Option<string>): (post: seq<Field>)
    ensures FormOf(post) == map["session_id" := sessionId]
  {
    [("session_id", sessionId)]
  }

  /** The fields of `getmsgcharge`: the session id and the message id. */
  function ChargeFields(sessionId: Option<string>, apimsgid: string): (post: seq<Field>)
    ensures FormOf(post) == map["session_id" := sessionId, "apimsgid" := Some(apimsgid)]
  {
    [("session_id", sessionId), ("apimsgid", Some(apimsgid))]
  }

  /** The fields of `tokenpay`: the session id and the voucher. */
  function VoucherFields(sessionId: Option<string>, voucher: string): (post: seq<Field>)
    ensures FormOf(post) == map["session_id" := sessionId, "token" := Some(voucher)]
  {
    [("session_id", sessionId), ("token", Some(voucher))]
  }

  /** The fields of `sendmsg`: session id, destination and text always, in that order;
      then `from` when the message names a sender, then `climsgid` when it carries a
      client message id. */
  function SendFields(sessionId: Option<string>, message: map<string, string>): (post: seq<Field>)
    requires "to" in message && "text" in message
    ensures |post| >= 3
    ensures post[..3] == [("session_id", sessionId), ("to", Some(message["to"])), ("text", Some(message["text"]))]
    ensures "sender" in message <==> exists i :: 3 <= i < |post| && post[i].0 == "from"
    ensures "climsgid" in message <==> exists i :: 3 <= i < |post| && post[i].0 == "climsgid"
    ensures forall i :: 3 <= i < |post| && post[i].0 == "from" ==>
              "sender" in message && post[i].1 == Some(message["sender"])
    ensures forall i :: 3 <= i < |post| && post[i].0 == "climsgid" ==>
              "climsgid" in message && post[i].1 == Some(message["climsgid"])
    ensures forall i, j :: 3 <= i < j < |post| ==> post[i].0 == "from" && post[j].0 == "climsgid"
    ensures forall i :: 3 <= i < |post| ==> post[i].0 == "from" || post[i].0 == "climsgid"
  {
    var base := [("session_id", sessionId), ("to", Some(message["to"])), ("text", Some(message["text"]))];
    var withSender := if "sender" in message then base + [("from", Some(message["sender"]))] else base;
    var post := if "climsgid" in message then withSender + [("climsgid", Some(message["climsgid"]))] else withSender;
    assert "sender" in message ==> post[3].0 == "from";
    assert "climsgid" in message ==> post[|post| - 1].0 == "climsgid";
    post
  }

  // ---------------------------------------------------------------------------
  // Reading the replies

  /** `auth`: a first token "OK" accepts, and the second token is the session id,
      which must have the session-id length; any other first token refuses. */
  function AuthReply(tokens: seq<string>): (r: Outcome<Option<string>>)
    requires tokens != []
    ensures r.Return? ==> (r.value.Some? <==> tokens[0] == "OK")
    ensures r.Return? && r.value.Some? ==>
              |tokens| >= 2 && r.value.value == tokens[1] && |r.value.value| == SessionIdLength
    ensures r.Raise? <==> tokens[0] == "OK" && (|tokens| < 2 || |tokens[1]| != SessionIdLength)
    ensures r.Raise? ==> r.error == if |tokens| < 2 then IndexError else AssertionError
  {
    if tokens[0] == "OK" then
      if |tokens| < 2 then Raise(IndexError)
      else if |tokens[1]| != SessionIdLength then Raise(AssertionError)
      else Return(Some(tokens[1]))
    else Return(None)
  }

  /** `getbalance`: a first token "Credit" gives the second token; anything else gives
      False (None here). */
  function BalanceReply(tokens: seq<string>): (r: Outcome<Option<string>>)
    requires tokens != []
    ensures r.Return? ==> (r.value.Some? <==> tokens[0] == "Credit")
    ensures r.Return? && r.value.Some? ==> |tokens| >= 2 && r.value.value == tokens[1]
    ensures r.Raise? <==> tokens[0] == "Credit" && |tokens| < 2
    ensures r.Raise? ==> r.error == IndexError
  {
    if tokens[0] == "Credit" then
      if |tokens| < 2 then Raise(IndexError) else Return(Some(tokens[1]))
    else Return(None)
  }

  /** `getmsgcharge`, on the words of the retokenised reply: a first word "apiMsgId"
      must be followed by the id asked about, and then the fourth word is the charge;
      any other first word gives False (None here). */
  function ChargeReply(apimsgid: string, tokens: seq<string>): (r: Outcome<Option<string>>)
    requires tokens != []
    ensures var words := Retokenise(tokens);
      && (r.Return? ==> (r.value.Some? <==> words[0] == "apiMsgId"))
      && (r.Return? && r.value.Some? ==> |words| >= 4 && words[1] == apimsgid && r.value.value == words[3])
      && (r.Raise? <==> words[0] == "apiMsgId" && (|words| < 4 || words[1] != apimsgid))
      && (r == Raise(AssertionError) <==> words[0] == "apiMsgId" && |words| >= 2 && words[1] != apimsgid)
      && (r.Raise? ==> r.error == if |words| >= 2 && words[1] != apimsgid then AssertionError else IndexError)
  {
    var words := Retokenise(tokens);
    if words[0] == "apiMsgId" then
      if |words| < 2 then Raise(IndexError)
      else if words[1] != apimsgid then Raise(AssertionError)
      else if |words| < 4 then Raise(IndexError)
      else Return(Some(words[3]))
    else Return(None)
  }

  /** `sendmsg`: a first token "ID" gives the message id, which must not be empty;
      anything else gives the one-element tuple (False,) (None here). */
  function SendReply(tokens: seq<string>): (r: Outcome<Option<string>>)
    requires tokens != []
    ensures r.Return? ==> (r.value.Some? <==> tokens[0] == "ID")
    ensures r.Return? && r.value.Some? ==> |tokens| >= 2 && r.value.value == tokens[1] && r.value.value != ""
    ensures r.Raise? <==> tokens[0] == "ID" && (|tokens| < 2 || tokens[1] == "")
    ensures r.Raise? ==> r.error == if |tokens| < 2 then IndexError else AssertionError
  {
    if tokens[0] == "ID" then
      if |tokens| < 2 then Raise(IndexError)
      else if tokens[1] == "" then Raise(AssertionError)
      else Return(Some(tokens[1]))
    else Return(None)
  }

  /** The implicit authentication every operation but `auth` begins with: `auth` runs
      exactly when the client has not authenticated; its refusal lets the operation go
      on with the session unchanged, its exception ends the operation. */
  function AuthenticateFirst(s: Session, authTokens: seq<string>): (r: Outcome<Session>)
    requires authTokens != []
    ensures s.hasAuthed ==> r == Return(s)
    ensures r.Raise? ==> !s.hasAuthed && AuthReply(authTokens) == Raise(r.error)
    ensures r.Return? && r.value != s ==>
              !s.hasAuthed && authTokens[0] == "OK" && |authTokens| >= 2
              && r.value == Session(true, Some(authTokens[1]))
    ensures !s.hasAuthed && authTokens[0] != "OK" ==> r == Return(s)
    ensures !s.hasAuthed && AuthReply(authTokens).Raise? ==> r == Raise(AuthReply(authTokens).error)
    ensures !s.hasAuthed && AuthReply(authTokens).Return? && AuthReply(authTokens).value.Some? ==>
              r == Return(Session(true, AuthReply(authTokens).value))
    ensures SessionValid(s) && r.Return? ==> SessionValid(r.value)
  {
    if s.hasAuthed then Return(s)
    else
      match AuthReply(authTokens)
      case Raise(e) => Raise(e)
      case Return(None) => Return(s)
      case Return(Some(id)) => Return(Session(true, Some(id)))
  }

  // ---------------------------------------------------------------------------
  // The client object

  class Clickatell {
    const username: string
    const password: string
    const apiId: string
    const userAgent: string

    var hasAuthed: bool
    var sessionId: Option<string>

    function State(): Session
      reads this
    {
      Session(hasAuthed, sessionId)
    }

    predicate Valid()
      reads this
    {
      SessionValid(State())
    }

    function AuthRequest(): Request
    {
      Request(Endpoint.Auth, FormOf(AuthFields(username, password, apiId)))
    }

    /** The requests of the implicit authentication: none when already authenticated. */
    function AuthRequests(authed: bool): seq<Request>
    {
      if authed then [] else [AuthRequest()]
    }

    /** A new client has not authenticated and has no session id. */
    constructor (username: string, password: string, apiId: string, userAgent: string := DefaultUserAgent)
      ensures Valid()
      ensures !hasAuthed && sessionId == None
      ensures this.username == username && this.password == password && this.apiId == apiId
      ensures this.userAgent == userAgent
    {
      this.hasAuthed := false;
      this.username := username;
      this.password := password;
      this.apiId := apiId;
      this.sessionId := None;
      this.userAgent := userAgent;
    }

    /** The request executor: folds the field list into the form, sends it, and splits
        the reply body on ": ". */
    method Curl(endpoint: Endpoint, post: seq<Field>, body: string) returns (tokens: seq<string>, sent: Request)
      ensures sent.endpoint == endpoint && sent.form == FormOf(post)
      ensures sent.form.Keys == Names(post)
      ensures forall i: nat :: i < |post| && IsLast(post, i) ==> sent.form[post[i].0] == post[i].1
      ensures tokens == Tokenise(body) && Join(tokens, ReplySeparator) == body
    {
      var form := BuildForm(post);
      sent := Request(endpoint, form);
      tokens := Tokenise(body);
    }

    /** `auth`: on acceptance installs the session id and marks the client authenticated;
        on refusal, and when it raises, changes nothing. */
    method Auth(body: string) returns (out: Outcome<bool>, sent: Request)
      requires Valid()
      modifies this
      ensures Valid()
      ensures sent == AuthRequest()
      ensures var reply := AuthReply(Tokenise(body));
        && (reply.Raise? ==> out == Raise(reply.error) && State() == old(State()))
        && (reply == Return(None) ==> out == Return(false) && State() == old(State()))
        && (reply.Return? && reply.value.Some? ==> out == Return(true) && State() == Session(true, reply.value))
    {
      var result;
      result, sent := Curl(Endpoint.Auth, AuthFields(username, password, apiId), body);
      if result[0] == "OK" {
        if |result| < 2 {
          return Raise(IndexError), sent;
        }
        if |result[1]| != SessionIdLength {
          return Raise(AssertionError), sent;
        }
        sessionId := Some(result[1]);
        hasAuthed := true;
        out := Return(true);
      } else {
        out := Return(false);
      }
    }

    /** Authenticates when the client has not; returns the exception that `auth`
        raised, if any. */
    method AuthIfNeeded(authBody: string) returns (error: Option<Error>, sent: seq<Request>)
      requires Valid()
      modifies this
      ensures Valid()
      ensures sent == AuthRequests(old(hasAuthed))
      ensures var pre := AuthenticateFirst(old(State()), Tokenise(authBody));
        && (pre.Raise? ==> error == Some(pre.error) && State() == old(State()))
        && (pre.Return? ==> error == None && State() == pre.value)
    {
      sent := [];
      error := None;
      if !hasAuthed {
        var out, req := Auth(authBody);
        sent := [req];
        if out.Raise? {
          error := Some(out.error);
        }
      }
    }

    /** `getbalance`. */
    method GetBalance(authBody: string, body: string) returns (out: Outcome<Option<string>>, sent: seq<Request>)
      requires Valid()
      modifies this
      ensures Valid()
      ensures var pre := AuthenticateFirst(old(State()), Tokenise(authBody));
        && (pre.Raise? ==> out == Raise(pre.error) && State() == old(State()) && sent == AuthRequests(old(hasAuthed)))
        && (pre.Return? ==>
              && out == BalanceReply(Tokenise(body))
              && State() == pre.value
              && sent == AuthRequests(old(hasAuthed))
                         + [Request(Endpoint.GetBalance, FormOf(SessionFields(pre.value.sessionId)))])
    {
      var error;
      error, sent := AuthIfNeeded(authBody);
      if error.Some? {
        return Raise(error.value), sent;
      }
      var result, req := Curl(Endpoint.GetBalance, SessionFields(sessionId), body);
      sent := sent + [req];
      if result[0] == "Credit" {
        if |result| < 2 {
          return Raise(IndexError), sent;
        }
        out := Return(Some(result[1]));
      } else {
        out := Return(None);
      }
    }

    /** `getmsgcharge`: the message id must have the message-id length, which is
        checked after the implicit authentication and before the request. */
    method GetMsgCharge(apimsgid: string, authBody: string, body: string)
      returns (out: Outcome<Option<string>>, sent: seq<Request>)
      requires Valid()
      modifies this
      ensures Valid()
      ensures var pre := AuthenticateFirst(old(State()), Tokenise(authBody));
        && (pre.Raise? ==> out == Raise(pre.error) && State() == old(State()) && sent == AuthRequests(old(hasAuthed)))
        && (pre.Return? && |apimsgid| != MsgIdLength ==>
              out == Raise(AssertionError) && State() == pre.value && sent == AuthRequests(old(hasAuthed)))
        && (pre.Return? && |apimsgid| == MsgIdLength ==>
              && out == ChargeReply(apimsgid, Tokenise(body))
              && State() == pre.value
              && sent == AuthRequests(old(hasAuthed))
                         + [Request(Endpoint.GetMsgCharge, FormOf(ChargeFields(pre.value.sessionId, apimsgid)))])
    {
      var error;
      error, sent := AuthIfNeeded(authBody);
      if error.Some? {
        return Raise(error.value), sent;
      }
      if |apimsgid| != MsgIdLength {
        return Raise(AssertionError), sent;
      }
      var result, req := Curl(Endpoint.GetMsgCharge, ChargeFields(sessionId, apimsgid), body);
      sent := sent + [req];
      var words := Retokenise(result);
      if words[0] == "apiMsgId" {
        if |words| < 2 {
          return Raise(IndexError), sent;
        }
        if apimsgid != words[1] {
          return Raise(AssertionError), sent;
        }
        if |words| < 4 {
          return Raise(IndexError), sent;
        }
        out := Return(Some(words[3]));
      } else {
        out := Return(None);
      }
    }

    /** `ping`: a first token "OK" keeps the session; any other clears `hasAuthed`
        (but not the session id), so that the next operation authenticates again. */
    method Ping(authBody: string, body: string) returns (out: Outcome<bool>, sent: seq<Request>)
      requires Valid()
      modifies this
      ensures Valid()
      ensures var pre := AuthenticateFirst(old(State()), Tokenise(authBody));
        && (pre.Raise? ==> out == Raise(pre.error) && State() == old(State()) && sent == AuthRequests(old(hasAuthed)))
        && (pre.Return? ==>
              var ok := Tokenise(body)[0] == "OK";
              && out == Return(ok)
              && State() == (if ok then pre.value else Session(false, pre.value.sessionId))
              && sent == AuthRequests(old(hasAuthed))
                         + [Request(Endpoint.Ping, FormOf(SessionFields(pre.value.sessionId)))])
    {
      var error;
      error, sent := AuthIfNeeded(authBody);
      if error.Some? {
        return Raise(error.value), sent;
      }
      var result, req := Curl(Endpoint.Ping, SessionFields(sessionId), body);
      sent := sent + [req];
      if result[0] == "OK" {
        out := Return(true);
      } else {
        hasAuthed := false;
        out := Return(false);
      }
    }

    /** `sendmsg`: the message dictionary must hold "to" and "text"; "sender" and
        "climsgid" are optional. */
    method SendMsg(message: map<string, string>, authBody: string, body: string)
      returns (out: Outcome<Option<string>>, sent: seq<Request>)
      requires Valid()
      modifies this
      ensures Valid()
      ensures var pre := AuthenticateFirst(old(State()), Tokenise(authBody));
        && (pre.Raise? ==> out == Raise(pre.error) && State() == old(State()) && sent == AuthRequests(old(hasAuthed)))
        && (pre.Return? && ("to" !in message || "text" !in message) ==>
              out == Raise(KeyError) && State() == pre.value && sent == AuthRequests(old(hasAuthed)))
        && (pre.Return? && "to" in message && "text" in message ==>
              && out == SendReply(Tokenise(body))
              && State() == pre.value
              && sent == AuthRequests(old(hasAuthed))
                         + [Request(Endpoint.SendMsg, FormOf(SendFields(pre.value.sessionId, message)))])
    {
      var error;
      error, sent := AuthIfNeeded(authBody);
      if error.Some? {
        return Raise(error.value), sent;
      }
      if "to" !in message || "text" !in message {
        return Raise(KeyError), sent;
      }
      var post := [("session_id", sessionId), ("to", Some(message["to"])), ("text", Some(message["text"]))];
      if "sender" in message {
        post := post + [("from", Some(message["sender"]))];
      }
      if "climsgid" in message {
        post := post + [("climsgid", Some(message["climsgid"]))];
      }
      var result, req := Curl(Endpoint.SendMsg, post, body);
      sent := sent + [req];
      if result[0] == "ID" {
        if |result| < 2 {
          return Raise(IndexError), sent;
        }
        if result[1] == "" {
          return Raise(AssertionError), sent;
        }
        out := Return(Some(result[1]));
      } else {
        out := Return(None);
      }
    }

    /** `tokenpay`: the voucher must have the voucher length, which is checked after
        the implicit authentication and before the request; a first token "OK"
        means the voucher was redeemed. */
    method TokenPay(voucher: string, authBody: string, body: string) returns (out: Outcome<bool>, sent: seq<Request>)
      requires Valid()
      modifies this
      ensures Valid()
      ensures var pre := AuthenticateFirst(old(State()), Tokenise(authBody));
        && (pre.Raise? ==> out == Raise(pre.error) && State() == old(State()) && sent == AuthRequests(old(hasAuthed)))
        && (pre.Return? && |voucher| != VoucherLength ==>
              out == Raise(AssertionError) && State() == pre.value && sent == AuthRequests(old(hasAuthed)))
        && (pre.Return? && |voucher| == VoucherLength ==>
              && out == Return(Tokenise(body)[0] == "OK")
              && State() == pre.value
              && sent == AuthRequests(old(hasAuthed))
                         + [Request(Endpoint.TokenPay, FormOf(VoucherFields(pre.value.sessionId, voucher)))])
    {
      var error;
      error, sent := AuthIfNeeded(authBody);
      if error.Some? {
        return Raise(error.value), sent;
      }
      if |voucher| != VoucherLength {
        return Raise(AssertionError), sent;
      }
      var result, req := Curl(Endpoint.TokenPay, VoucherFields(sessionId, voucher), body);
      sent := sent + [req];
      out := Return(result[0] == "OK");
    }
  }
}
