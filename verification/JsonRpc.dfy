/** Messages of the core: their classification, their names and the replies built from them. */
module JsonRpc {

  import opened Wrappers
  import opened Words

  const VSN := "1.0"
  const SEPARATOR := '_'
  const RESPONSE_SUFFIX := "_response"

  const DEFAULT_ERROR_CODE := -32000

  datatype RpcError = RpcError(code: int, message: string)

  /** A nil `ID`, `Params`, `Result` or `Error` is None. */
  datatype Message = Message(
    version: string,
    id: Option<string>,
    procedure: string,
    params: Option<string>,
    error: Option<RpcError>,
    result: Option<string>,
    notifyAll: bool,
    notifyExclusion: seq<string>,
    origin: string)
  {
    predicate HasValidVersion() {
      version == VSN
    }

    predicate HasValidID() {
      id.Some? && |id.value| > 0 && id.value[0] != '{' && id.value[0] != '['
    }

    predicate IsNotification() {
      HasValidVersion() && id.None? && procedure != ""
    }

    predicate IsCall() {
      HasValidVersion() && HasValidID() && procedure != ""
    }

    predicate IsResponse() {
      HasValidVersion() && HasValidID() && params.None? && HasSuffix(procedure, RESPONSE_SUFFIX)
    }

    function Namespace(): string {
      SplitN(procedure, SEPARATOR, 2)[0]
    }

    /** None where the source would index past the end of the split (a method without separator). */
    function MethodName(): Option<string> {
      var pieces := SplitN(procedure, SEPARATOR, 3);
      if |pieces| < 2 then None else Some(pieces[1])
    }

    function ReplyMethod(): string {
      if HasSuffix(procedure, RESPONSE_SUFFIX) then "" else procedure + RESPONSE_SUFFIX
    }

    function ErrorResponse(err: RpcError): Message {
      ErrorMessage(err).(id := id, procedure := ReplyMethod(), origin := origin)
    }

    /** `encoded` is None when marshalling the result failed. */
    function Response(encoded: Option<string>): Message {
      match encoded
      case None => ErrorResponse(RpcError(-32002, "marshal"))
      case Some(text) => Message(VSN, id, ReplyMethod(), None, None, Some(text), false, [], origin)
    }
  }

  function ErrorMessage(err: RpcError): Message {
    Message(VSN, Some("null"), "", None, Some(err), None, false, [], "")
  }

  /** How one execution of a callback may end. */
  datatype Outcome =
    | BadParams(reason: string)
    | Failed(err: RpcError)
    | Returned(encoded: Option<string>)

  /** `handleCall`: the answer to a message, given the names the module serves. */
  function HandleCall(callbacks: set<string>, msg: Message, outcome: Outcome): Message {
    if msg.MethodName().None? || msg.MethodName().value !in callbacks then
      msg.ErrorResponse(RpcError(-32601, "method not found"))
    else
      match outcome
      case BadParams(reason) => msg.ErrorResponse(RpcError(-32602, reason))
      case Failed(err) => msg.ErrorResponse(err)
      case Returned(encoded) => msg.Response(encoded)
  }

  /** `handleCallMsg`: what goes back on the wire, if anything. */
  function Answer(callbacks: set<string>, msg: Message, outcome: Outcome): Option<Message> {
    if msg.IsNotification() then None
    else if msg.IsCall() then Some(HandleCall(callbacks, msg, outcome))
    else if msg.HasValidID() then Some(msg.ErrorResponse(RpcError(-32600, "invalid request")))
    else Some(ErrorMessage(RpcError(-32600, "invalid request")))
  }

  /** The key under which a callback is known to every client. */
  function KnownName(moduleName: string, callback: string): string {
    moduleName + [SEPARATOR] + callback
  }

  // ---- naming ----

  /** The module is recovered from a known name exactly when its own name has no separator. */
  lemma NamespaceInverts(msg: Message, moduleName: string, rest: string)
    requires msg.procedure == KnownName(moduleName, rest)
    ensures msg.Namespace() == moduleName <==> SEPARATOR !in moduleName
  {
    if SEPARATOR !in moduleName {
      FirstSplit(moduleName, rest, SEPARATOR);
      assert msg.procedure[..|moduleName|] == moduleName;
    } else {
      assert msg.procedure[|moduleName|] == SEPARATOR;
      assert SEPARATOR !in msg.Namespace();
    }
  }

  /** The callback is recovered exactly when its own name has no separator. */
  lemma MethodNameInverts(msg: Message, moduleName: string, callback: string)
    requires msg.procedure == KnownName(moduleName, callback)
    requires SEPARATOR !in moduleName
    ensures msg.MethodName() == Some(callback) <==> SEPARATOR !in callback
  {
    FirstSplit(moduleName, callback, SEPARATOR);
    assert msg.procedure[..|moduleName|] == moduleName;
    assert msg.procedure[|moduleName| + 1..] == callback;
    assert SplitN(msg.procedure, SEPARATOR, 3) == [moduleName] + SplitN(callback, SEPARATOR, 2);
    var i := IndexOf(callback, SEPARATOR);
    if i == |callback| {
      assert SEPARATOR !in callback;
    } else {
      assert SplitN(callback, SEPARATOR, 2)[0] == callback[..i];
    }
  }

  /** The reply to a known call still names the same module and callback. */
  lemma ReplyNameInverts(msg: Message, moduleName: string, callback: string)
    requires SEPARATOR !in moduleName && SEPARATOR !in callback
    requires msg.procedure == KnownName(moduleName, callback) + RESPONSE_SUFFIX
    ensures msg.Namespace() == moduleName && msg.MethodName() == Some(callback)
  {
    SuffixShape();
    ThreePieces(msg, moduleName, callback, "response");
  }

  lemma SuffixShape()
    ensures RESPONSE_SUFFIX == [SEPARATOR] + "response"
  {
  }

  lemma ThreePieces(msg: Message, a: string, b: string, c: string)
    requires SEPARATOR !in a && SEPARATOR !in b
    requires msg.procedure == KnownName(a, b) + ([SEPARATOR] + c)
    ensures msg.Namespace() == a && msg.MethodName() == Some(b)
  {
    var rest := b + [SEPARATOR] + c;
    assert msg.procedure == a + [SEPARATOR] + rest;
    SplitInThree(a, b, c);
    NamespaceInverts(msg, a, rest);
  }

  lemma SplitInThree(a: string, b: string, c: string)
    requires SEPARATOR !in a && SEPARATOR !in b
    ensures SplitN(a + [SEPARATOR] + (b + [SEPARATOR] + c), SEPARATOR, 3) == [a, b, c]
  {
    var rest := b + [SEPARATOR] + c;
    var s := a + [SEPARATOR] + rest;
    FirstSplit(a, rest, SEPARATOR);
    FirstSplit(b, c, SEPARATOR);
    assert s[..|a|] == a && s[|a| + 1..] == rest;
    assert rest[..|b|] == b && rest[|b| + 1..] == c;
  }

  /** A known name looks like a reply exactly when the callback is called "response". */
  lemma SuffixOfKnownName(moduleName: string, callback: string)
    requires SEPARATOR !in callback
    ensures HasSuffix(KnownName(moduleName, callback), RESPONSE_SUFFIX) <==> callback == "response"
  {
    var s := KnownName(moduleName, callback);
    var at := |s| - |RESPONSE_SUFFIX|;
    if HasSuffix(s, RESPONSE_SUFFIX) {
      assert s[at] == s[at..][0] == SEPARATOR;
      assert s[|moduleName|] == SEPARATOR;
      assert forall k :: |moduleName| < k < |s| ==> s[k] == callback[k - |moduleName| - 1];
      assert forall k :: 0 < k < |RESPONSE_SUFFIX| ==> RESPONSE_SUFFIX[k] != SEPARATOR;
      assert forall k :: at <= k < |s| ==> s[k] == s[at..][k - at];
      assert at == |moduleName|;
      assert callback == s[|moduleName| + 1..] == s[at..][1..];
    }
    if callback == "response" {
      assert s == moduleName + RESPONSE_SUFFIX;
    }
  }

  // ---- replies ----

  /** The name addresses callback c of some module; a suffix may follow. */
  ghost predicate Addresses(procedure: string, c: string) {
    exists t, rest ::
      && SEPARATOR !in t && SEPARATOR !in c && (rest == "" || rest[0] == SEPARATOR)
      && procedure == KnownName(t, c) + rest
  }

  lemma AddressedCallback(msg: Message, c: string)
    requires Addresses(msg.procedure, c)
    ensures msg.MethodName() == Some(c)
  {
    var t, rest :| SEPARATOR !in t && SEPARATOR !in c && (rest == "" || rest[0] == SEPARATOR)
                   && msg.procedure == KnownName(t, c) + rest;
    if rest == "" {
      assert msg.procedure == KnownName(t, c);
      MethodNameInverts(msg, t, c);
    } else {
      assert rest == [SEPARATOR] + rest[1..];
      ThreePieces(msg, t, c, rest[1..]);
    }
  }

  /** The answer reports this outcome: the result alone, or an error with its code and nothing else. */
  predicate Reports(answer: Message, served: bool, outcome: Outcome) {
    if !served then answer.result.None? && answer.error.Some? && answer.error.value.code == -32601
    else
      match outcome
      case BadParams(reason) => answer.result.None? && answer.error == Some(RpcError(-32602, reason))
      case Failed(err) => answer.result.None? && answer.error == Some(err)
      case Returned(encoded) =>
        if encoded.Some? then answer.error.None? && answer.result == encoded
        else answer.result.None? && answer.error.Some? && answer.error.value.code == -32002
  }

  /** Whatever the callback does, a call is answered, with its own id and origin, and the answer says
      what the callback did, or that there is none of that name. It counts as a reply exactly when the
      call's method did not already carry the suffix. */
  lemma CallIsAnswered(callbacks: set<string>, call: Message, outcome: Outcome)
    requires call.IsCall()
    ensures var answer := Answer(callbacks, call, outcome);
      && answer.Some?
      && answer.value.id == call.id
      && answer.value.origin == call.origin
      && !answer.value.notifyAll && answer.value.notifyExclusion == [] && answer.value.params.None?
      && answer.value.version == "1.0"
      && (answer.value.IsResponse() <==> !HasSuffix(call.procedure, "_response"))
      && (answer.value.IsResponse() ==> answer.value.procedure == call.procedure + "_response")
      && (forall c :: Addresses(call.procedure, c) ==> Reports(answer.value, c in callbacks, outcome))
  {
    var answer := HandleCall(callbacks, call, outcome);
    assert answer.procedure == call.ReplyMethod();
    assert HasSuffix(call.procedure + RESPONSE_SUFFIX, RESPONSE_SUFFIX) by {
      var s := call.procedure + RESPONSE_SUFFIX;
      assert s[|s| - |RESPONSE_SUFFIX|..] == RESPONSE_SUFFIX;
    }
    forall c | Addresses(call.procedure, c)
      ensures Reports(answer, c in callbacks, outcome)
    {
      AddressedCallback(call, c);
    }
  }

  /** What the messages that travel the hub count as, by their fields: a request with an id is a call and
      no reply unless its name ends in the suffix, one without an id is a notification and nothing else,
      and an answer with the suffix is a reply. */
  lemma KindsOfMessages(n: nat, procedure: string, params: Option<string>, notifyAll: bool, exclusion: seq<string>, origin: string)
    requires procedure != ""
    ensures var call := Message("1.0", Some(Decimal(n)), procedure, params, None, None, notifyAll, exclusion, origin);
      && call.IsCall() && !call.IsNotification()
      && (call.IsResponse() <==> params.None? && exists p :: procedure == p + "_response")
    ensures var notification := Message("1.0", None, procedure, params, None, None, notifyAll, exclusion, origin);
      notification.IsNotification() && !notification.IsCall() && !notification.IsResponse()
  {
    DecimalRoundTrip(n);
    if p :| procedure == p + "_response" {
      assert procedure[|p|..] == "_response";
    }
    if HasSuffix(procedure, RESPONSE_SUFFIX) {
      assert procedure == procedure[..|procedure| - |RESPONSE_SUFFIX|] + "_response";
    }
  }
}
