/** The request validator and normaliser of lib/parse.js: an inbound Alexa
    envelope is either recognised and flattened into a parsed message, or
    rejected with a fixed error record that carries the input for debugging.
    The promise it returns is modelled as a `Result`. */
module Parser {
  import opened JsValues

  const NotValidError := "Not valid Alexa request"
  const NotValidDescription := "It seems that event is not a valid Alexa request. In case you think this is an issue, please report it at https://github.com/stojanovic/alexa-skill-kit/issues and include debug info from this object."

  /** The three request kinds recognised by name. */
  const StandardTypes: seq<Value> := [Str("LaunchRequest"), Str("IntentRequest"), Str("SessionEndedRequest")]

  const AudioPlayerPrefix := "AudioPlayer."
  const PlaybackControllerPrefix := "PlaybackController."

  /** The rejection value: `{error, description, debug}`. */
  datatype ErrorRecord = ErrorRecord(error: string, description: string, debug: Value)
  {
    function ToValue(): Value {
      Obj(map["error" := Str(error), "description" := Str(description), "debug" := debug])
    }
  }

  /** The flattened record handed to the skill's handler. */
  datatype ParsedMessage = ParsedMessage(
    requestType: Value,
    request: Value,
    intent: Value,
    session: Value,
    sessionAttributes: Value,
    user: Value,
    originalRequest: Value)
  {
    function ToValue(): (v: Value)
      ensures v.Obj? && !IsArray(v)
    {
      Obj(map[
        "type" := requestType,
        "request" := request,
        "intent" := intent,
        "session" := session,
        "sessionAttributes" := sessionAttributes,
        "user" := user,
        "originalRequest" := originalRequest])
    }
  }

  /** The error record for a rejected input. */
  function NotValid(message: Value): ErrorRecord {
    ErrorRecord(NotValidError, NotValidDescription, debug := message)
  }

  /** `/^prefix/.test(t)` for a literal prefix. Only string values are
      matched; the coercion of other values to strings is not modelled. */
  predicate MatchesPrefix(t: Value, prefix: string) {
    t.Str? && prefix <= t.s
  }

  /** The request-kind test of lib/parse.js line 5, on `request.type`. */
  predicate RecognisedType(t: Value) {
    !(IndexOf(StandardTypes, t) < 0 && !MatchesPrefix(t, AudioPlayerPrefix) && !MatchesPrefix(t, PlaybackControllerPrefix))
  }

  /** The validity condition of lib/parse.js line 5. */
  predicate IsValid(message: Value) {
    !(TypeOf(message) != "object" || !Truthy(message) || !Truthy(Get(message, "request"))
      || !RecognisedType(Get(Get(message, "request"), "type")))
  }

  /** An independent statement of the request kinds that are accepted. */
  predicate KnownKind(kind: string) {
    kind == "LaunchRequest" || kind == "IntentRequest" || kind == "SessionEndedRequest"
    || (|kind| >= |AudioPlayerPrefix| && kind[..|AudioPlayerPrefix|] == AudioPlayerPrefix)
    || (|kind| >= |PlaybackControllerPrefix| && kind[..|PlaybackControllerPrefix|] == PlaybackControllerPrefix)
  }

  /** The record projected from a valid message (lib/parse.js lines 13-21). */
  function Project(message: Value): ParsedMessage {
    var request := Get(message, "request");
    var session := Get(message, "session");
    var context := Get(message, "context");
    ParsedMessage(
      requestType := Get(request, "type"),
      request := request,
      intent := Or(Get(request, "intent"), Null),
      session := Or(session, Null),
      sessionAttributes := Or(And(session, Get(session, "attributes")), Obj(map[])),
      user := Or(Or(And(context, Get(context, "user")), And(session, Get(session, "user"))), Obj(map[])),
      originalRequest := message)
  }

  /** `parse(message)`. The rejection is not followed by a `return` in the
      source, but a promise settles once, so a rejected input never
      resolves: the outcome is the rejection. */
  function Parse(message: Value): (r: Result<ParsedMessage, ErrorRecord>)
    // Rejected exactly when the message is not an object with a truthy
    // `request` whose `type` is a recognised kind.
    ensures r.Err? <==>
      !(message.Obj? && Truthy(Get(message, "request"))
        && Get(Get(message, "request"), "type").Str? && KnownKind(Get(Get(message, "request"), "type").s))
    // The rejection is the fixed record, with the input verbatim as debug.
    ensures r.Err? ==>
      r.error.error == NotValidError && r.error.description == NotValidDescription && r.error.debug == message
    // On acceptance the kind, the request and the whole envelope are copied.
    ensures r.Ok? ==>
      && r.value.originalRequest == message
      && r.value.request == Get(message, "request")
      && r.value.requestType == Get(r.value.request, "type")
      && r.value.requestType.Str? && KnownKind(r.value.requestType.s)
  {
    if !IsValid(message) then Err(NotValid(message))
    else Ok(Project(message))
  }

  /** Strings, numbers, booleans, functions, `null`, `undefined` and arrays
      are all rejected, with the input itself as `debug`. */
  lemma RejectsNonObjects(message: Value)
    requires !message.Obj?
    ensures Parse(message) == Err(NotValid(message))
    ensures Parse(message).error.ToValue().fields["debug"] == message
  {
  }

  /** An object whose `request` is missing or falsy is rejected. */
  lemma RejectsWithoutRequest(message: Value)
    requires !Truthy(Get(message, "request"))
    ensures Parse(message) == Err(NotValid(message))
  {
  }

  /** A `request.type` that is not a string, or names no known kind, is
      rejected. */
  lemma RejectsUnknownType(message: Value)
    requires !Get(Get(message, "request"), "type").Str? || !KnownKind(Get(Get(message, "request"), "type").s)
    ensures Parse(message) == Err(NotValid(message))
  {
  }

  /** Whatever else the envelope holds, an object whose `request` is an
      object with a known `type` is accepted. */
  lemma AcceptsKnownKinds(message: Value, kind: string)
    requires message.Obj? && Get(message, "request").Obj?
    requires Get(Get(message, "request"), "type") == Str(kind) && KnownKind(kind)
    ensures Parse(message).Ok? && Parse(message).value.requestType == Str(kind)
  {
  }

  /** The prefixes must be followed by their dot: `AudioPlayerX` and
      `SomeCustomType` are rejected, `AudioPlayer.PlaybackStarted` and
      `PlaybackController.NextCommandIssued` are accepted. */
  lemma KindExamples()
    ensures !KnownKind("AudioPlayerX") && !KnownKind("SomeCustomType") && !KnownKind("PlaybackController")
    ensures KnownKind("AudioPlayer.PlaybackStarted") && KnownKind("PlaybackController.NextCommandIssued")
    ensures KnownKind("LaunchRequest") && KnownKind("IntentRequest") && KnownKind("SessionEndedRequest")
  {
    var almost, custom := "AudioPlayerX", "SomeCustomType";
    assert almost[..|AudioPlayerPrefix|][11] != AudioPlayerPrefix[11];
    assert custom[..|AudioPlayerPrefix|][0] != AudioPlayerPrefix[0];
  }

  /** `intent` and `session` are copied when truthy and become `null`
      otherwise; `sessionAttributes` is `session.attributes` when both are
      truthy and an empty object otherwise. */
  lemma IntentSessionDefaults(message: Value)
    requires Parse(message).Ok?
    ensures var p := Parse(message).value;
      var request := Get(message, "request");
      var session := Get(message, "session");
      && p.intent == (if Truthy(Get(request, "intent")) then Get(request, "intent") else Null)
      && p.session == (if Truthy(session) then session else Null)
      && p.sessionAttributes ==
           (if Truthy(session) && Truthy(Get(session, "attributes")) then Get(session, "attributes") else Obj(map[]))
  {
  }

  /** `user` is taken from `context.user` first, then `session.user`, and is
      an empty object when neither is present. */
  lemma UserPrecedence(message: Value)
    requires Parse(message).Ok?
    ensures var p := Parse(message).value;
      var contextUser := Get(Get(message, "context"), "user");
      var sessionUser := Get(Get(message, "session"), "user");
      && (Truthy(contextUser) ==> p.user == contextUser)
      && (!Truthy(contextUser) && Truthy(sessionUser) ==> p.user == sessionUser)
      && (!Truthy(contextUser) && !Truthy(sessionUser) ==> p.user == Obj(map[]))
  {
  }

  /** The minimal launch request `{request: {type: 'LaunchRequest'}}` parses
      to the record with every default in place. */
  lemma MinimalLaunchRequest()
    ensures var request := Obj(map["type" := Str("LaunchRequest")]);
      var message := Obj(map["request" := request]);
      Parse(message) == Ok(ParsedMessage(Str("LaunchRequest"), request, Null, Null, Obj(map[]), Obj(map[]), message))
  {
  }
}
