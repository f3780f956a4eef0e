/** The entry point of lib/index.js, `alexaSkillKit(message, context,
    handler)`: three synchronous argument guards, then the chain
    parse -> handler -> reply -> `context.succeed`, with every rejection
    delivered to `context.fail`.

    The promise chain is modelled by the outcome it settles to. The
    handler's behaviour is a parameter `run`: `run(x)` is `Ok(v)` when the
    handler called with `x` returns, or resolves to, `v`, and `Err(e)` when
    it throws, or its promise rejects with, `e`. */
module SkillKit {
  import opened JsValues
  import Parser
  import Responder

  const MessageRequired := "Message is required for Alexa Skill Kit."
  const ContextRequired := "Context is required for Alexa Skill Kit."
  const HandlerRequired := "Handler is required for Alexa Skill Kit."

  /** The one sink call a settled pipeline makes. */
  datatype Sink = Succeed(response: Value) | Fail(reason: Value)

  datatype Outcome =
    | Throw(message: string)
      // an `Error` thrown synchronously by one of the argument guards
    | HostTypeError
      // the `TypeError` the runtime raises when the context guard reads a
      // property of a `null` context
    | Settled(handlerArg: Option<Value>, sink: Sink)
      // the guards passed: the handler was called with `handlerArg` (if at
      // all) and then exactly one sink was called

  /** The context guard's test: an object with function-valued `succeed`
      and `fail` members. */
  predicate IsContext(context: Value) {
    context.Obj? && Get(context, "succeed").Fun? && Get(context, "fail").Fun?
  }

  /** `alexaSkillKit(message, context, handler)`. */
  function AlexaSkillKit(message: Value, context: Value, handler: Value, run: Value -> Result<Value, Value>): (r: Outcome)
    // The guards throw, in the order message, context, handler.
    ensures TypeOf(message) != "object" ==> r == Throw(MessageRequired)
    ensures TypeOf(message) == "object" && context != Null && !IsContext(context) ==> r == Throw(ContextRequired)
    ensures TypeOf(message) == "object" && context == Null ==> r == HostTypeError
    ensures TypeOf(message) == "object" && IsContext(context) && !handler.Fun? ==> r == Throw(HandlerRequired)
    // Once the guards pass, the pipeline settles and calls one sink.
    ensures r.Settled? <==> TypeOf(message) == "object" && IsContext(context) && handler.Fun?
    // The handler runs exactly when the message parses, on the parsed record.
    ensures r.Settled? ==>
      (r.handlerArg.Some? <==> Parser.Parse(message).Ok?)
      && (r.handlerArg.Some? ==> r.handlerArg.value == Parser.Parse(message).value.ToValue())
    // A parse rejection reaches `fail` as the error record.
    ensures r.Settled? && r.handlerArg.None? ==> r.sink == Fail(Parser.NotValid(message).ToValue())
    // Otherwise `succeed` gets the coerced reply when the handler resolves,
    // and `fail` gets the handler's rejection unchanged.
    ensures r.Settled? && r.handlerArg.Some? ==>
      match run(r.handlerArg.value)
      case Ok(v) => r.sink == Succeed(Responder.Reply(v))
      case Err(e) => r.sink == Fail(e)
  {
    if TypeOf(message) != "object" then
      Throw(MessageRequired)
    else if context == Null then
      // `typeof null` is 'object', so the guard goes on to read `null.succeed`.
      HostTypeError
    else if TypeOf(context) != "object" || TypeOf(Get(context, "succeed")) != "function"
      || TypeOf(Get(context, "fail")) != "function" then
      Throw(ContextRequired)
    else if TypeOf(handler) != "function" then
      Throw(HandlerRequired)
    else
      match Parser.Parse(message)
      case Err(error) => Settled(None, Fail(error.ToValue()))
      case Ok(parsed) =>
        var arg := parsed.ToValue();
        match run(arg)
        case Err(e) => Settled(Some(arg), Fail(e))
        case Ok(v) => Settled(Some(arg), Succeed(Responder.Reply(v)))
  }

  /** A thrown guard error names the first guard that fails; nothing is
      parsed, no handler runs and no sink is called. */
  lemma GuardOrder(message: Value, context: Value, handler: Value, run: Value -> Result<Value, Value>)
    requires AlexaSkillKit(message, context, handler, run).Throw?
    ensures AlexaSkillKit(message, context, handler, run).message ==
      if TypeOf(message) != "object" then MessageRequired
      else if !IsContext(context) then ContextRequired
      else HandlerRequired
  {
  }

  /** `null` and arrays pass the message guard (their `typeof` is
      'object') and are turned down by the parser, through `fail`. */
  lemma NullAndArrayReachParser(message: Value, context: Value, handler: Value, run: Value -> Result<Value, Value>)
    requires message.Null? || message.Arr?
    requires IsContext(context) && handler.Fun?
    ensures AlexaSkillKit(message, context, handler, run) == Settled(None, Fail(Parser.NotValid(message).ToValue()))
  {
  }

  /** A handler that hands back the parsed record makes `succeed` receive
      that record unchanged: it is a plain object. */
  lemma PassThrough(message: Value, context: Value, handler: Value)
    requires Parser.Parse(message).Ok? && IsContext(context) && handler.Fun?
    ensures var parsed := Parser.Parse(message).value.ToValue();
      AlexaSkillKit(message, context, handler, x => Ok(x)) == Settled(Some(parsed), Succeed(parsed))
  {
  }

  /** A rejection of the handler's promise reaches `fail` unchanged. */
  lemma HandlerRejection(message: Value, context: Value, handler: Value, reason: Value)
    requires Parser.Parse(message).Ok? && IsContext(context) && handler.Fun?
    ensures AlexaSkillKit(message, context, handler, _ => Err(reason)).sink == Fail(reason)
  {
  }

  /** A launch request answered with 'Hello' yields the PlainText envelope;
      answered with 123 it yields `succeed(undefined)` and no failure. */
  lemma LaunchScenarios(context: Value, handler: Value)
    requires IsContext(context) && handler.Fun?
    ensures var message := Obj(map["request" := Obj(map["type" := Str("LaunchRequest")])]);
      && AlexaSkillKit(message, context, handler, _ => Ok(Str("Hello"))).sink
         == Succeed(Responder.PlainTextResponse("Hello"))
      && AlexaSkillKit(message, context, handler, _ => Ok(Num(123.0))).sink == Succeed(Undefined)
  {
    var message := Obj(map["request" := Obj(map["type" := Str("LaunchRequest")])]);
    Parser.MinimalLaunchRequest();
    assert Parser.Parse(message).Ok?;
    assert !Responder.IsBlank("Hello") by { assert !Responder.IsWhitespace("Hello"[0]); }
    assert Responder.Reply(Str("Hello")) == Responder.PlainTextResponse("Hello");
    assert Responder.Reply(Num(123.0)) == Undefined;
  }
}
