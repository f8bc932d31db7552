/** Properties of the client's reply reading stated on the raw reply body, and of the
    form `sendmsg` sends. */
module ClientProperties {
  import opened Wrappers
  import opened Text
  import opened Form
  import opened Client

  /** No character of `s` is `c`. */
  predicate Avoids(s: string, c: char)
  {
    forall i :: 0 <= i < |s| ==> s[i] != c
  }

  lemma AvoidsFirstChar(s: string, sep: string)
    requires sep != [] && Avoids(s, sep[0])
    ensures !Contains(s, sep)
  {
    forall i: nat | i <= |s| ensures !OccursAt(s, sep, i) {
    }
  }

  lemma {:induction false} JoinAppend(a: seq<string>, b: seq<string>, sep: string)
    requires a != [] && b != []
    ensures Join(a + b, sep) == Join(a, sep) + sep + Join(b, sep)
    decreases |a|
  {
    if |a| > 1 {
      JoinAppend(a[1..], b, sep);
      assert (a + b)[1..] == a[1..] + b;
    } else {
      assert (a + b)[1..] == b;
    }
  }

  /** A reply that starts with the tokens `lead` has a body that starts with them. */
  lemma BodyOfLeadingTokens(body: string, lead: seq<string>)
    requires lead != []
    requires |Tokenise(body)| >= |lead| && Tokenise(body)[..|lead|] == lead
    ensures body == Join(lead, ReplySeparator) || OccursAt(body, Join(lead, ReplySeparator) + ReplySeparator, 0)
  {
    var tokens := Tokenise(body);
    JoinSplit(body, ReplySeparator);
    if |tokens| > |lead| {
      assert tokens == lead + tokens[|lead|..];
      JoinAppend(lead, tokens[|lead|..], ReplySeparator);
      var prefix := Join(lead, ReplySeparator) + ReplySeparator;
      assert body == prefix + Join(tokens[|lead|..], ReplySeparator);
      assert body[0..|prefix|] == prefix;
    } else {
      assert tokens == lead;
    }
  }

  /** The tokens joined by ": " split back into themselves, when none of them
      contains the separator. */
  lemma LeadingTokensOfJoin(body: string, lead: seq<string>)
    requires lead != [] && forall t :: t in lead ==> !Contains(t, ReplySeparator)
    requires body == Join(lead, ReplySeparator)
    ensures |Tokenise(body)| >= |lead| && Tokenise(body)[..|lead|] == lead
  {
    ColonSpaceBorderless();
    SplitJoin(lead, ReplySeparator);
  }

  /** A body made of the tokens `lead` joined by ": ", a further ": " and anything
      at all gives a reply that starts with those tokens. */
  lemma LeadingTokensOfPrefix(body: string, lead: seq<string>, rest: string)
    requires lead != [] && forall t :: t in lead ==> !Contains(t, ReplySeparator)
    requires body == Join(lead, ReplySeparator) + ReplySeparator + rest
    ensures |Tokenise(body)| >= |lead| && Tokenise(body)[..|lead|] == lead
  {
    ColonSpaceBorderless();
    SplitJoinThen(lead, ReplySeparator, rest);
    var more := Split(rest, ReplySeparator);
    assert (lead + more)[..|lead|] == lead;
  }

  lemma PrefixThenRest(s: string, prefix: string)
    requires OccursAt(s, prefix, 0)
    ensures s == prefix + s[|prefix|..]
  {
    assert s[0..|prefix|] == prefix;
  }

  /** The reply starts with the tokens `lead` exactly when its body is those tokens
      joined by ": ", alone or followed by a further ": ". */
  lemma LeadingTokens(body: string, lead: seq<string>)
    requires lead != [] && forall t :: t in lead ==> !Contains(t, ReplySeparator)
    ensures |Tokenise(body)| >= |lead| && Tokenise(body)[..|lead|] == lead
            <==> body == Join(lead, ReplySeparator) || OccursAt(body, Join(lead, ReplySeparator) + ReplySeparator, 0)
  {
    if |Tokenise(body)| >= |lead| && Tokenise(body)[..|lead|] == lead {
      BodyOfLeadingTokens(body, lead);
    }
    if body == Join(lead, ReplySeparator) {
      LeadingTokensOfJoin(body, lead);
    } else if OccursAt(body, Join(lead, ReplySeparator) + ReplySeparator, 0) {
      var prefix := Join(lead, ReplySeparator) + ReplySeparator;
      PrefixThenRest(body, prefix);
      LeadingTokensOfPrefix(body, lead, body[|prefix|..]);
    }
  }

  lemma LeadingPair(body: string, key: string, value: string)
    requires !Contains(key, ReplySeparator) && !Contains(value, ReplySeparator)
    ensures var tokens := Tokenise(body);
      |tokens| >= 2 && tokens[0] == key && tokens[1] == value
      <==> body == key + ": " + value || OccursAt(body, key + ": " + value + ": ", 0)
  {
    var lead := [key, value];
    LeadingTokens(body, lead);
    assert Join(lead, ReplySeparator) == key + ": " + value;
    var tokens := Tokenise(body);
    if |tokens| >= 2 && tokens[0] == key && tokens[1] == value {
      assert tokens[..2] == lead;
    }
  }

  lemma LeadingKey(body: string, key: string)
    requires !Contains(key, ReplySeparator)
    ensures Tokenise(body)[0] == key <==> body == key || OccursAt(body, key + ": ", 0)
  {
    LeadingTokens(body, [key]);
    var tokens := Tokenise(body);
    if tokens[0] == key {
      assert tokens[..1] == [key];
    }
  }

  /** `auth` accepts session id `id` exactly when the body is "OK: id", alone or
      followed by a further ": ". */
  lemma AuthAcceptsExactly(body: string, id: string)
    requires |id| == SessionIdLength && !Contains(id, ReplySeparator)
    ensures AuthReply(Tokenise(body)) == Return(Some(id))
            <==> body == "OK: " + id || OccursAt(body, "OK: " + id + ": ", 0)
  {
    AvoidsFirstChar("OK", ReplySeparator);
    LeadingPair(body, "OK", id);
  }

  /** `auth` refuses (returns False, changing nothing) exactly when the body neither
      is "OK" nor starts with "OK: ". */
  lemma AuthRefusesExactly(body: string)
    ensures AuthReply(Tokenise(body)) == Return(None) <==> !(body == "OK" || OccursAt(body, "OK: ", 0))
  {
    AvoidsFirstChar("OK", ReplySeparator);
    LeadingKey(body, "OK");
  }

  /** `getbalance` returns `credit` exactly when the body is "Credit: credit", alone
      or followed by a further ": ". */
  lemma BalanceExactly(body: string, credit: string)
    requires !Contains(credit, ReplySeparator)
    ensures BalanceReply(Tokenise(body)) == Return(Some(credit))
            <==> body == "Credit: " + credit || OccursAt(body, "Credit: " + credit + ": ", 0)
  {
    AvoidsFirstChar("Credit", ReplySeparator);
    LeadingPair(body, "Credit", credit);
  }

  /** `sendmsg` returns (True, id) exactly when the body is "ID: id" with a non-empty
      id, alone or followed by a further ": ". */
  lemma SendAcceptsExactly(body: string, id: string)
    requires id != "" && !Contains(id, ReplySeparator)
    ensures SendReply(Tokenise(body)) == Return(Some(id))
            <==> body == "ID: " + id || OccursAt(body, "ID: " + id + ": ", 0)
  {
    AvoidsFirstChar("ID", ReplySeparator);
    LeadingPair(body, "ID", id);
  }

  // The three examples take the reply body as a parameter fixed by their `requires`,
  // rather than naming the literal in the ensures: on an all-literal argument Dafny
  // would unroll Split character by character.
  lemma BalanceExample(body: string)
    requires body == "Credit: 150"
    ensures BalanceReply(Tokenise(body)) == Return(Some("150"))
  {
    AvoidsFirstChar("150", ReplySeparator);
    BalanceExactly(body, "150");
  }

  lemma SendAcceptedExample(body: string)
    requires body == "ID: abc123"
    ensures SendReply(Tokenise(body)) == Return(Some("abc123"))
  {
    AvoidsFirstChar("abc123", ReplySeparator);
    SendAcceptsExactly(body, "abc123");
  }

  lemma SendRefusedExample(body: string)
    requires body == "ERR: 001, invalid destination"
    ensures SendReply(Tokenise(body)) == Return(None)
  {
    AvoidsFirstChar("ERR", ReplySeparator);
    LeadingKey(body, "ERR");
    assert body[0..5] == "ERR: ";
  }

  /** The retokenising of `getmsgcharge` splits each ": "-token on spaces and
      concatenates the words in order. */
  lemma RetokeniseSplitsEachToken(tokens: seq<string>)
    requires tokens != []
    ensures Retokenise(tokens) == SplitEach(tokens, " ")
  {
    SpaceBorderless();
    SplitJoinEach(tokens, " ");
  }

  /** Tokens without spaces survive the retokenising unchanged. */
  lemma RetokeniseKeepsSpaceFreeTokens(tokens: seq<string>)
    requires tokens != [] && forall t :: t in tokens ==> !Contains(t, " ")
    ensures Retokenise(tokens) == tokens
  {
    SpaceBorderless();
    SplitJoin(tokens, " ");
  }

  /** The first token of a reply has no ": " before the first ':' of the body. */
  lemma FirstTokenReachesColon(s: string, n: nat)
    requires n <= |s| && forall i :: 0 <= i < n ==> s[i] != ':'
    ensures |Tokenise(s)[0]| >= n
  {
    var tokens := Tokenise(s);
    JoinSplit(s, ReplySeparator);
    if |tokens| > 1 {
      JoinAppend([tokens[0]], tokens[1..], ReplySeparator);
      assert [tokens[0]] + tokens[1..] == tokens;
      assert s == tokens[0] + ReplySeparator + Join(tokens[1..], ReplySeparator);
      assert s[|tokens[0]|] == ':';
    }
  }

  /** The ": "-tokens of a getmsgcharge reply whose tag, message id and first key
      hold no ':'. */
  lemma ChargeTokens(tag: string, id: string, key: string, tail: string)
    requires Avoids(tag, ':') && Avoids(id, ':') && Avoids(key, ':')
    ensures Tokenise(tag + ": " + id + " " + key + ": " + tail)
            == [tag, id + " " + key] + Tokenise(tail)
  {
    ColonSpaceBorderless();
    var lead := [tag, id + " " + key];
    assert Avoids(id + " " + key, ':');
    AvoidsFirstChar(id + " " + key, ReplySeparator);
    AvoidsFirstChar(tag, ReplySeparator);
    assert Join(lead, ReplySeparator) == tag + ": " + id + " " + key;
    assert tag + ": " + id + " " + key + ": " + tail == Join(lead, ReplySeparator) + ReplySeparator + tail;
    SplitJoinThen(lead, ReplySeparator, tail);
  }

  /** Two space-free words joined by a space split into those two words. */
  lemma TwoWords(a: string, b: string)
    requires Avoids(a, ' ') && Avoids(b, ' ')
    ensures Split(a + " " + b, " ") == [a, b]
  {
    SpaceBorderless();
    AvoidsFirstChar(a, " ");
    AvoidsFirstChar(b, " ");
    SplitAppend(a, " ", b);
    SplitFree(a, " ");
    SplitFree(b, " ");
  }

  /** A space-free word followed by a space is the first word of the split. */
  lemma FirstWord(a: string, x: string)
    requires Avoids(a, ' ')
    ensures Split(a + " " + x, " ")[0] == a
  {
    SpaceBorderless();
    AvoidsFirstChar(a, " ");
    SplitAppend(a, " ", x);
    SplitFree(a, " ");
  }

  /** The first ": "-token of "value rest", for a value without ':', starts with
      that value and the space after it. */
  lemma TailFirstToken(value: string, rest: string)
    requires Avoids(value, ':')
    ensures var u0 := Tokenise(value + " " + rest)[0];
      |u0| > |value| && u0 == value + " " + u0[|value| + 1..]
  {
    var tail := value + " " + rest;
    FirstTokenReachesColon(tail, |value| + 1);
    var u0 := Tokenise(tail)[0];
    assert u0 <= tail;
    assert u0[..|value| + 1] == tail[..|value| + 1] == value + " ";
  }

  /** The words of the ": "-tokens that follow the message-id token, when the first
      of them starts with a space-free value and a space. */
  lemma WordsAfterId(value: string, u: seq<string>)
    requires Avoids(value, ' ')
    requires u != [] && |u[0]| > |value| && u[0] == value + " " + u[0][|value| + 1..]
    ensures SplitEach(u, " ") != [] && SplitEach(u, " ")[0] == value
  {
    var u0 := u[0];
    FirstWord(value, u0[|value| + 1..]);
    assert u == [u0] + u[1..];
    SplitEachCons(u0, u[1..], " ");
  }

  /** Splitting two leading tokens and then the rest. */
  lemma SplitEachTwo(a: string, b: string, u: seq<string>)
    ensures SplitEach([a, b] + u, " ") == Split(a, " ") + (Split(b, " ") + SplitEach(u, " "))
  {
    assert [a, b] + u == [a] + ([b] + u);
    SplitEachCons(a, [b] + u, " ");
    SplitEachCons(b, u, " ");
  }

  /** A space-free tag, id and key give the first three words. */
  lemma LabelIdKeyWords(tag: string, id: string, key: string, u: seq<string>)
    requires Avoids(tag, ' ') && Avoids(id, ' ') && Avoids(key, ' ')
    ensures SplitEach([tag, id + " " + key] + u, " ") == [tag, id, key] + SplitEach(u, " ")
  {
    SplitEachTwo(tag, id + " " + key, u);
    AvoidsFirstChar(tag, " ");
    SplitFree(tag, " ");
    TwoWords(id, key);
  }

  /** The words that `getmsgcharge` reads, given the ": "-tokens of its reply. */
  lemma ChargeWords(tag: string, id: string, key: string, value: string, u: seq<string>)
    requires Avoids(tag, ' ') && Avoids(id, ' ') && Avoids(key, ' ') && Avoids(value, ' ')
    requires u != [] && |u[0]| > |value| && u[0] == value + " " + u[0][|value| + 1..]
    ensures var words := SplitEach([tag, id + " " + key] + u, " ");
      |words| >= 4 && words[..4] == [tag, id, key, value]
  {
    LabelIdKeyWords(tag, id, key, u);
    WordsAfterId(value, u);
    var more := SplitEach(u, " ");
    assert ([tag, id, key] + more)[..4] == [tag, id, key, more[0]];
  }

  /** getmsgcharge answers with the fourth word once the first two are the tag and
      the id asked about. */
  lemma ChargeOfWords(id: string, tokens: seq<string>, key: string, value: string)
    requires tokens != []
    requires |Retokenise(tokens)| >= 4 && Retokenise(tokens)[..4] == ["apiMsgId", id, key, value]
    ensures ChargeReply(id, tokens) == Return(Some(value))
  {
    var words := Retokenise(tokens);
    assert words[0] == words[..4][0] && words[1] == words[..4][1] && words[3] == words[..4][3];
  }

  /** The words of a reply "<tag>: <id> <key>: <value> <rest>". */
  lemma ChargeReplyWords(tag: string, id: string, key: string, value: string, rest: string)
    requires Avoids(tag, ' ') && Avoids(tag, ':')
    requires Avoids(id, ' ') && Avoids(id, ':')
    requires Avoids(key, ' ') && Avoids(key, ':')
    requires Avoids(value, ' ') && Avoids(value, ':')
    ensures var words := Retokenise(Tokenise(tag + ": " + id + " " + key + ": " + value + " " + rest));
      |words| >= 4 && words[..4] == [tag, id, key, value]
  {
    var tail := value + " " + rest;
    assert tag + ": " + id + " " + key + ": " + value + " " + rest == tag + ": " + id + " " + key + ": " + tail;
    ChargeTokens(tag, id, key, tail);
    TailFirstToken(value, rest);
    var u := Tokenise(tail);
    ChargeWords(tag, id, key, value, u);
    RetokeniseSplitsEachToken([tag, id + " " + key] + u);
  }

  /** `getmsgcharge` returns the value of whatever field follows the message id:
      for a body "apiMsgId: <id> <key>: <value> ..." it returns <value> (the charge
      when the gateway puts the charge there, another field's value otherwise). */
  lemma ChargeIsValueAfterId(id: string, key: string, value: string, rest: string)
    requires Avoids(id, ' ') && Avoids(id, ':')
    requires Avoids(key, ' ') && Avoids(key, ':')
    requires Avoids(value, ' ') && Avoids(value, ':')
    ensures ChargeReply(id, Tokenise("apiMsgId: " + id + " " + key + ": " + value + " " + rest)) == Return(Some(value))
  {
    ChargeReplyWords("apiMsgId", id, key, value, rest);
    assert "apiMsgId" + ": " == "apiMsgId: ";
    ChargeOfWords(id, Tokenise("apiMsgId: " + id + " " + key + ": " + value + " " + rest), key, value);
  }

  /** No `sendmsg` field is overwritten by a later one of the same name. */
  lemma SendFieldsLast(sessionId: Option<string>, message: map<string, string>, i: nat)
    requires "to" in message && "text" in message
    requires i < |SendFields(sessionId, message)|
    ensures IsLast(SendFields(sessionId, message), i)
  {
    var post := SendFields(sessionId, message);
    assert post[0].0 == "session_id" && post[1].0 == "to" && post[2].0 == "text";
    forall j | i < j < |post| ensures post[j].0 != post[i].0 {
      if 3 <= i {
        assert post[i].0 == "from" && post[j].0 == "climsgid";
      }
    }
  }

  /** The names `sendmsg` sends: the three fixed ones, and "from" and "climsgid" when
      the message has a sender and a client message id. */
  function SendNames(message: map<string, string>): set<string>
  {
    {"session_id", "to", "text"}
      + (if "sender" in message then {"from"} else {})
      + (if "climsgid" in message then {"climsgid"} else {})
  }

  lemma SendFieldNames(sessionId: Option<string>, message: map<string, string>)
    requires "to" in message && "text" in message
    ensures Names(SendFields(sessionId, message)) == SendNames(message)
  {
    var post := SendFields(sessionId, message);
    var expected := SendNames(message);
    forall x | x in Names(post) ensures x in expected {
      var i :| 0 <= i < |post| && post[i].0 == x;
      if i >= 3 {
        assert post[i].0 == "from" || post[i].0 == "climsgid";
      } else {
        assert post[..3][i] == post[i];
      }
    }
    assert post[..3][0] == post[0] && post[..3][1] == post[1] && post[..3][2] == post[2];
    assert "session_id" == post[0].0 && "to" == post[1].0 && "text" == post[2].0;
    if "sender" in message {
      var i :| 3 <= i < |post| && post[i].0 == "from";
    }
    if "climsgid" in message {
      var i :| 3 <= i < |post| && post[i].0 == "climsgid";
    }
  }

  /** Every field of `sendmsg` reaches the gateway: the field names are distinct, so
      the form holds each with its value, and nothing else. */
  lemma SendFormCarriesEveryField(sessionId: Option<string>, message: map<string, string>)
    requires "to" in message && "text" in message
    ensures var form := FormOf(SendFields(sessionId, message));
      && form.Keys == SendNames(message)
      && form["session_id"] == sessionId
      && form["to"] == Some(message["to"])
      && form["text"] == Some(message["text"])
      && ("sender" in message ==> form["from"] == Some(message["sender"]))
      && ("climsgid" in message ==> form["climsgid"] == Some(message["climsgid"]))
  {
    var post := SendFields(sessionId, message);
    assert post[..3][0] == post[0] && post[..3][1] == post[1] && post[..3][2] == post[2];
    SendFieldNames(sessionId, message);
    FormOfKeys(post);
    SendFieldsLast(sessionId, message, 0);
    FormOfLastWins(post, 0);
    SendFieldsLast(sessionId, message, 1);
    FormOfLastWins(post, 1);
    SendFieldsLast(sessionId, message, 2);
    FormOfLastWins(post, 2);
    if "sender" in message {
      var i :| 3 <= i < |post| && post[i].0 == "from";
      SendFieldsLast(sessionId, message, i);
      FormOfLastWins(post, i);
    }
    if "climsgid" in message {
      var i :| 3 <= i < |post| && post[i].0 == "climsgid";
      SendFieldsLast(sessionId, message, i);
      FormOfLastWins(post, i);
    }
  }
}
