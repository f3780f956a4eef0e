# alexa-skill-kit in Dafny

A model of the adapter that sits between an AWS Lambda function and an Amazon
Alexa skill's business logic. The adapter has three parts:

- `parse(message)` (lib/parse.js) checks that an inbound Alexa envelope is a
  recognised request. It accepts `LaunchRequest`, `IntentRequest`,
  `SessionEndedRequest` and any type starting with `AudioPlayer.` or
  `PlaybackController.`. An accepted envelope is flattened into a record with
  the fields `type`, `request`, `intent`, `session`, `sessionAttributes`,
  `user` and `originalRequest`. Anything else is rejected with the fixed
  `Not valid Alexa request` error record, which carries the input as `debug`.
- `reply(message)` (lib/reply.js) turns the handler's answer into an Alexa
  response. A non-blank string becomes a PlainText speech envelope. A plain
  object passes through. Anything else gives `undefined`.
- `alexaSkillKit(message, context, handler)` (lib/index.js) checks its three
  arguments in order. Each failed check throws its own message. It then runs
  parse, the handler, reply and `context.succeed`, and sends any rejection to
  `context.fail`.

The three parts are pure, so the model is made of datatypes, functions and
lemmas:

- `js_value.dfy` (module `JsValues`): JavaScript values, plus the operators the
  adapter uses. These are `typeof`, truthiness, property reads, `||`, `&&`,
  `Array.isArray` and `indexOf`.
- `parse.dfy` (module `Parser`): the parser.
- `reply.dfy` (module `Responder`): the reply coercer, with `String.prototype.trim`.
- `index.dfy` (module `SkillKit`): the entry point.

Promises are modelled by the value they settle to. `Parse` returns a `Result`.
The handler is modelled by a parameter `run: Value -> Result<Value, Value>`:
`Ok(v)` means it returned or resolved `v`, and `Err(e)` means it threw or
rejected `e`. The entry point returns an `Outcome`, which is one of:

- the message a guard threw;
- the runtime `TypeError` raised when the context is `null`;
- the argument the handler received (if it ran), and the one sink call the
  settled chain made.

Behaviour of the code worth knowing, which the model keeps:

- The message guard (`typeof message !== 'object'`) lets `null` and arrays
  through, and `parse` then rejects them through `fail`
  (`SkillKit.NullAndArrayReachParser`).
- `parse` asks only for a truthy `request`, not for an object. A string
  `request` has no `type`, so it is still rejected.
- A `null` context passes `typeof context !== 'object'`. Reading
  `context.succeed` then raises a runtime `TypeError`, not the custom
  message. This is modelled as the distinct outcome `HostTypeError`.

## Model

| member | source | states |
|---|---|---|
| `JsValues.TypeOf` | lib/index.js:7-14 | `typeof` is 'object' exactly for null, arrays and objects, and 'function' exactly for functions; these are the tests every guard is built on |
| `JsValues.IndexOf` | lib/parse.js:5 | `indexOf` gives -1 exactly when the value is absent; otherwise it gives the first position holding an equal value |
| `Parser.Parse` | lib/parse.js:3-25 | a rejection happens exactly when the input is not an object with a truthy `request` whose `type` is one of the three names or starts with `AudioPlayer.` or `PlaybackController.`; the rejection is the fixed error record with the input as `debug`; on acceptance `type`, `request` and `originalRequest` are copied from the input |
| `Parser.RejectsNonObjects` | lib/parse.js:5-10 | strings, numbers, booleans, functions, null, undefined and arrays are rejected, and `debug` is the input |
| `Parser.RejectsWithoutRequest` | lib/parse.js:5-10 | an input with a missing or falsy `request` is rejected |
| `Parser.RejectsUnknownType` | lib/parse.js:5-10 | a `request.type` that is not a string, or that names no known kind, is rejected |
| `Parser.AcceptsKnownKinds` | lib/parse.js:5-23 | an object whose `request` is an object with a known `type` is accepted whatever else it holds, and the record's `type` is that kind |
| `Parser.KindExamples` | lib/parse.js:5 | the prefixes need their dot: `AudioPlayerX`, `PlaybackController` and `SomeCustomType` are unknown; the three literal kinds and the dotted prefixed kinds are known |
| `Parser.IntentSessionDefaults` | lib/parse.js:16-18 | `intent` and `session` are copied when truthy and are null otherwise; `sessionAttributes` is `session.attributes` when both are truthy and `{}` otherwise |
| `Parser.UserPrecedence` | lib/parse.js:19 | `user` is `context.user` when that is truthy, else `session.user` when that is truthy, else `{}` |
| `Parser.MinimalLaunchRequest` | lib/parse.js:13-21 | `{request: {type: 'LaunchRequest'}}` parses to the record with null `intent` and `session` and empty `sessionAttributes` and `user` |
| `Responder.TrimStart` | lib/reply.js:4 | the result is a suffix of the input; everything cut off is whitespace; the result starts with a non-whitespace character or is empty |
| `Responder.TrimEnd` | lib/reply.js:4 | the result is a prefix of the input; everything cut off is whitespace; the result ends with a non-whitespace character or is empty |
| `Responder.TrimStartEmptyIffBlank` | lib/reply.js:4 | removing the leading whitespace leaves nothing exactly when the string is blank |
| `Responder.TrimEndEmptyIffBlank` | lib/reply.js:4 | removing the trailing whitespace leaves nothing exactly when the string is blank |
| `Responder.TrimEmptyIffBlank` | lib/reply.js:4 | `s.trim().length` is zero exactly when every character of `s` is whitespace |
| `Responder.Reply` | lib/reply.js:3-19 | a string with a non-whitespace character gives the PlainText envelope around that exact string; a blank string gives undefined; an object is returned unchanged; every other value gives undefined |
| `Responder.ReplyShape` | lib/reply.js:3-19 | the result is always undefined or a non-null, non-array object |
| `Responder.ReplyIdempotent` | lib/reply.js:4-19 | coercing a coerced reply changes nothing |
| `Responder.TextUntrimmed` | lib/reply.js:4-14 | for a non-blank string the envelope has version '1.0', `shouldEndSession` true, speech type 'PlainText', and the untrimmed string as text |
| `Responder.BlankExamples` | lib/reply.js:4 | '' and ' \t\n' give undefined; 'hello' and ' hi ' give their envelopes |
| `Responder.EnvelopeFields` | lib/reply.js:5-14 | the envelope reads back as version '1.0', `response.shouldEndSession` true, `response.outputSpeech.type` 'PlainText' and `response.outputSpeech.text` the given text |
| `SkillKit.AlexaSkillKit` | lib/index.js:6-21 | the guards throw in the order message, context, handler (a null context raises the runtime error instead); the chain settles exactly when all guards pass; the handler runs exactly when parsing succeeds, and it gets the parsed record; a parse rejection sends the error record to `fail`; a resolved handler sends `reply` of its value to `succeed`; a rejected handler sends its reason to `fail` unchanged |
| `SkillKit.GuardOrder` | lib/index.js:7-14 | a thrown message names the first guard that fails |
| `SkillKit.NullAndArrayReachParser` | lib/index.js:7-20 | null and array messages pass the message guard, and `fail` receives the parse error record |
| `SkillKit.PassThrough` | lib/index.js:16-19 | a handler that returns the parsed record makes `succeed` receive that record unchanged |
| `SkillKit.HandlerRejection` | lib/index.js:17-20 | a rejected handler's reason reaches `fail` unchanged |
| `SkillKit.LaunchScenarios` | lib/index.js:16-19 | for a launch request, a handler answering 'Hello' makes `succeed` receive the PlainText envelope, and one answering 123 makes `succeed` receive undefined |

## Left out

- Promise scheduling and timing: each promise is modelled by the value it settles to. The promise that `alexaSkillKit` and `parse` return is not modelled as an object.
- A `succeed` sink that throws: its exception would run `fail` as well, through the trailing `.catch`. The sinks are assumed not to throw, so each settled outcome names exactly one sink call.
- Parser.Parse: a non-string `request.type` never matches the prefix tests. The source first converts the value to a string for the regular expression, so for example the array `['AudioPlayer.Play']` is accepted by the source but rejected by the model.
- Parser.Parse: function values carry no properties in the model, so every property read on one gives `undefined`. This affects each read in lib/parse.js:5 and lib/parse.js:13-21:
  - a `request` that is a function with a `type` property is accepted by the source but rejected by the model;
  - a function-valued `session` carrying `attributes` or `user` has those read by the source, while the model gives `{}` for `sessionAttributes` and falls through to `{}` for `user`;
  - a function-valued `context` carrying `user` has it read by the source, while the model moves on to `session.user`.
- JsValues.Get: only an object's own properties are read. Properties inherited through a modified prototype are not modelled.
- JsValues.Truthy: numbers are reals, and `NaN` (which is falsy) is not modelled. Numbers matter here only as "a number".
- Object identity: values are compared structurally. "Returned unchanged" is structural equality, which the code's reference identity implies.
- The handler is modelled only by what it settles to. Any side effects it has, and its `this` binding, are not modelled.
