# pyclickatell client, modelled in Dafny

`clickatell.py` is a small Python 2 client for the Clickatell SMS gateway's HTTP/S
API. A `Clickatell` object keeps two pieces of state: whether it has authenticated
(`has_authed`) and the session id the gateway handed out (`session_id`). Its
operations are `auth`, `getbalance`, `getmsgcharge`, `ping`, `sendmsg` and
`tokenpay`. Each one builds a list of POST fields. The request executor `curl` folds
that list into a dictionary, posts it, and splits the reply body on `": "`. The
operation then decides on the first reply tokens.

The model abstracts the network away:
- Every operation receives the reply body the gateway answers with.
- An operation that authenticates implicitly also receives the body of the reply to
  that `auth` request. It reads that body only when it does authenticate.
- Every operation returns the requests it sent, each as an endpoint and a form, so
  it is visible whether the implicit `auth` went out.
- Python exceptions are results: `Outcome.Raise(AssertionError | IndexError | KeyError)`.
- `False`, and the `(False,)` of `sendmsg`, are `None`.

The model has five modules:
- `Wrappers` (`wrappers.dfy`): `Option`.
- `Text` (`text.dfy`): Python's `str.split(sep)` and `sep.join(tokens)`, with the
  round trips between them.
- `Form` (`form.dfy`): the dictionary fold of `curl`, as a loop proved against the
  function `FormOf`.
- `Client` (`client.dfy`):
  - the session state `Session` and its invariant `SessionValid`;
  - the field lists of the requests;
  - the reply decisions;
  - the class `Clickatell`, whose methods update `hasAuthed` and `sessionId` in place.
- `ClientProperties` (`client_properties.dfy`): what each operation answers, stated
  on the raw reply body, and what the `sendmsg` form holds.

## Model

| member | source | states |
|---|---|---|
| Client.Clickatell.constructor | clickatell.py:33-49 | A new client has not authenticated and has no session id. It keeps the credentials and the user agent, which defaults to "pyclickatell". |
| Client.Clickatell.Auth | clickatell.py:51-71 | Sends user, password and api_id. A first token "OK" with a 32-character second token installs that session id, sets hasAuthed and returns True. A missing second token raises IndexError; one of another length raises AssertionError; both leave the state unchanged. Any other first token returns False and leaves the state unchanged. |
| Client.Clickatell.AuthIfNeeded | clickatell.py:77-78 | Sends the auth request exactly when the client has not authenticated. The new state is the one AuthenticateFirst gives. An exception raised by auth is handed back. |
| Client.AuthenticateFirst | clickatell.py:77-78 | An authenticated session is left alone. Otherwise the outcome follows auth's reply in every case. An accepting reply gives the authenticated session with that reply's id. A refusing reply leaves the session unchanged, so the operation goes on with whatever session id there was. An exception from auth is raised as it is. No other session change and no other exception can happen. The session invariant is preserved. |
| Client.AuthReply | clickatell.py:65-71 | auth's decision on the reply tokens. A first token "OK" with a 32-character second token accepts that token as the session id. "OK" with no second token raises IndexError, and "OK" with a second token of another length raises AssertionError. Any other first token refuses. |
| Client.Tokenise | clickatell.py:222 | The reply body split on ": ". There is at least one token, no token contains ": ", and joining the tokens with ": " gives the body back. |
| Client.Retokenise | clickatell.py:110 | The tokens joined by a space and split on a space. There is at least one word, no word contains a space, and the words joined by a space give the same string as the tokens joined by a space. |
| Client.AuthFields | clickatell.py:57-61 | The auth form maps user, password and api_id to the three credentials, and holds nothing else. |
| Client.SessionFields | clickatell.py:82-84 | The getbalance form, which ping also sends (clickatell.py:128-130), maps session_id to the current session id, and holds nothing else. |
| Client.ChargeFields | clickatell.py:104-107 | The getmsgcharge form maps session_id to the session id and apimsgid to the message id, and holds nothing else. |
| Client.VoucherFields | clickatell.py:196-199 | The tokenpay form maps session_id to the session id and token to the voucher, and holds nothing else. |
| Client.Clickatell.GetBalance | clickatell.py:73-91 | Runs the implicit auth; if that raises, it stops there. Otherwise it sends session_id and answers BalanceReply of the reply. The state is the one after the implicit auth. |
| Client.BalanceReply | clickatell.py:86-91 | Returns the second token exactly when the first token is "Credit" and a second exists. A "Credit" reply with one token raises IndexError. Anything else returns False. |
| Client.Clickatell.GetMsgCharge | clickatell.py:93-117 | Runs the implicit auth. Then a message id not of length 32 raises AssertionError before any request of its own. Otherwise it sends session_id and apimsgid and answers ChargeReply of the reply. |
| Client.ChargeReply | clickatell.py:109-117 | Works on the words of the reply joined and split again by spaces. First word "apiMsgId": a second word different from the id asked about raises AssertionError, too few words raise IndexError, else the fourth word is returned. Any other first word returns False. |
| Client.Clickatell.Ping | clickatell.py:119-138 | Runs the implicit auth and sends session_id. A first token "OK" returns True and keeps the state. Any other first token returns False and clears hasAuthed but not the session id, so the next operation authenticates again. |
| Client.Clickatell.SendMsg | clickatell.py:140-183 | Runs the implicit auth. A message without "to" or "text" raises KeyError. Otherwise it sends the form of SendFields and answers SendReply of the reply. |
| Client.SendFields | clickatell.py:164-174 | The field list starts with session_id, to and text, in that order. ("from", sender) is in it exactly when the message has a sender, and ("climsgid", id) exactly when it has a climsgid, with from before climsgid. Nothing else is in it. |
| Client.SendReply | clickatell.py:178-183 | Returns the message id exactly when the first token is "ID" and the second token exists and is non-empty. A missing second token raises IndexError and an empty one AssertionError. Any other first token returns (False,). |
| Client.Clickatell.TokenPay | clickatell.py:185-206 | Runs the implicit auth. Then a voucher not of length 16 raises AssertionError before any request of its own. Otherwise it sends session_id and token and returns whether the first token is "OK". |
| Client.Clickatell.Curl | clickatell.py:208-222 | The request carries the form of the field list: one entry per field name, each with the value of its last occurrence. The tokens are the body split on ": ", and joining them with ": " gives the body back. |
| Form.FormOf | clickatell.py:212-214 | The fields stored one after the other into an empty dictionary. Every entry of the result is some field of the list, with its name as the key and its value as the value. |
| Form.BuildForm | clickatell.py:212-214 | The loop computes FormOf of the list. Its keys are exactly the field names, and each name maps to the value of its last occurrence. |
| Form.FormOfKeys | clickatell.py:212-214 | The dictionary has exactly the field names as keys. |
| Form.FormOfLastWins | clickatell.py:212-214 | A field that no later field of the same name follows is what the dictionary holds for its name. |
| Text.Split | clickatell.py:222 | str.split: the result is never empty, and its first token is a prefix of the string. |
| Text.Join | clickatell.py:110 | sep.join: the result starts with the first token. |
| Text.JoinSplit | clickatell.py:222 | Joining the tokens of a body with the separator gives the body back. |
| Text.SplitTokensFree | clickatell.py:222 | No token contains the separator. |
| Text.SplitFree | clickatell.py:222 | A string without the separator is a single token. |
| Text.SplitAppend | clickatell.py:222 | For ": " and " ", which cannot overlap themselves, splitting a + sep + b gives the tokens of a followed by the tokens of b. |
| Text.SplitJoin | clickatell.py:222 | On tokens free of the separator, split undoes join, so the two are inverses. |
| Text.SplitJoinEach | clickatell.py:110 | Joining with a separator and splitting again gives each token's own split, concatenated in order. |
| ClientProperties.RetokeniseSplitsEachToken | clickatell.py:110 | The words getmsgcharge reads are the space-separated words of each ": "-token, in order. |
| ClientProperties.RetokeniseKeepsSpaceFreeTokens | clickatell.py:110 | When no token holds a space, the retokenised reply equals the reply's tokens. |
| ClientProperties.LeadingTokens | clickatell.py:222 | A reply starts with given separator-free tokens exactly when its body is those tokens joined by ": ", alone or followed by a further ": ". |
| ClientProperties.AuthAcceptsExactly | clickatell.py:63-69 | auth accepts a 32-character session id exactly when the body is "OK: " then the id, alone or followed by ": ". |
| ClientProperties.AuthRefusesExactly | clickatell.py:63-71 | auth returns False exactly when the body is neither "OK" nor starts with "OK: ". |
| ClientProperties.BalanceExactly | clickatell.py:86-89 | getbalance returns a credit exactly when the body is "Credit: " then the credit, alone or followed by ": ". |
| ClientProperties.SendAcceptsExactly | clickatell.py:176-181 | sendmsg returns (True, id) for a non-empty id exactly when the body is "ID: " then the id, alone or followed by ": ". |
| ClientProperties.BalanceExample | clickatell.py:86-89 | The reply "Credit: 150" gives the balance "150". |
| ClientProperties.SendAcceptedExample | clickatell.py:176-181 | The reply "ID: abc123" gives the message id "abc123". |
| ClientProperties.SendRefusedExample | clickatell.py:176-183 | The reply "ERR: 001, invalid destination" gives (False,). |
| ClientProperties.ChargeIsValueAfterId | clickatell.py:109-115 | For the reply "apiMsgId: id key: value rest" (id, key and value free of spaces and colons), getmsgcharge returns value. This is the charge when the gateway puts the charge there. |
| ClientProperties.SendFieldNames | clickatell.py:164-174 | The sendmsg field names are session_id, to and text, plus from when there is a sender and climsgid when there is a climsgid. |
| ClientProperties.SendFieldsLast | clickatell.py:164-174 | No sendmsg field is overwritten by a later field of the same name. |
| ClientProperties.SendFormCarriesEveryField | clickatell.py:164-176 | The sendmsg form has exactly the keys of SendFieldNames. Each key holds its field's value: the session id, to, text, and sender under "from" and climsgid when they are present. |

## Left out

- The network: `urllib2.Request`, `urllib2.urlopen`, `urllib.urlencode` and the
  `User-Agent` and `Accept` headers (clickatell.py:216-221). Reply bodies are inputs,
  and a request is its endpoint and its form.
- The endpoint URLs: each is represented by an `Endpoint` constructor.
- The user agent: it is stored, but the header that carries it is network I/O.
- How `urlencode` renders the values: a session id that is still None is sent as
  the text "None". The model keeps the form value as `Option<string>`.
- The order of the encoded fields: a Python dictionary has no order the code relies
  on.
- The `print result[1]` in `sendmsg` (clickatell.py:179): it is debug output.
- The checks `0 <= result[1]` and `0 <= result[3]` (clickatell.py:88, 114): under
  Python 2 they compare an int with a string and always hold. Only the index access
  they make is modelled, as an IndexError when the token is missing. Credits and
  charges stay token strings.
- `ClickatellError` and `ClickatellAuthenticationError` (clickatell.py:18-25): they
  are declared but never raised.
- Running with `python -O`, which disables the `assert` statements: the model keeps
  them enabled.
- Client.Clickatell.SendMsg: message values are strings in the model. In the source
  they may be any value that `urlencode` can render.
- Network failures and the exceptions `urlopen` raises: they are not part of this
  model.
