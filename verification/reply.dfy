/** The reply coercer of lib/reply.js: what a skill handler returns becomes
    the response handed to the Lambda context. A non-blank string is wrapped
    in a PlainText speech envelope, a plain object passes through untouched,
    and anything else yields `undefined`. */
module Responder {
  import opened JsValues

  /** The characters `String.prototype.trim` removes: the ECMAScript
      WhiteSpace and LineTerminator code points. */
  predicate IsWhitespace(c: char) {
    var n := c as int;
    n == 0x09 || n == 0x0A || n == 0x0B || n == 0x0C || n == 0x0D || n == 0x20
    || n == 0xA0 || n == 0x1680 || (0x2000 <= n <= 0x200A) || n == 0x2028 || n == 0x2029
    || n == 0x202F || n == 0x205F || n == 0x3000 || n == 0xFEFF
  }

  /** A string made only of whitespace (the empty string included). */
  predicate IsBlank(s: string) {
    forall i :: 0 <= i < |s| ==> IsWhitespace(s[i])
  }

  /** `s` without its leading whitespace. */
  function TrimStart(s: string): (r: string)
    ensures |r| <= |s| && r == s[|s| - |r|..]
    ensures forall k :: 0 <= k < |s| - |r| ==> IsWhitespace(s[k])
    ensures r == [] || !IsWhitespace(r[0])
  {
    if s != [] && IsWhitespace(s[0]) then TrimStart(s[1..]) else s
  }

  /** `s` without its trailing whitespace. */
  function TrimEnd(s: string): (r: string)
    ensures |r| <= |s| && r == s[..|r|]
    ensures forall k :: |r| <= k < |s| ==> IsWhitespace(s[k])
    ensures r == [] || !IsWhitespace(r[|r| - 1])
  {
    if s != [] && IsWhitespace(s[|s| - 1]) then TrimEnd(s[..|s| - 1]) else s
  }

  /** `s.trim()`: `s` without its leading and trailing whitespace. */
  function Trim(s: string): string {
    TrimEnd(TrimStart(s))
  }

  /** A string is blank exactly when trimming its start leaves nothing. */
  lemma TrimStartEmptyIffBlank(s: string)
    ensures TrimStart(s) == [] <==> IsBlank(s)
  {
    var t := TrimStart(s);
    if t != [] {
      assert s[|s| - |t|] == t[0];
    }
  }

  /** A string is blank exactly when trimming its end leaves nothing. */
  lemma TrimEndEmptyIffBlank(s: string)
    ensures TrimEnd(s) == [] <==> IsBlank(s)
  {
    var t := TrimEnd(s);
    if t != [] {
      assert s[|t| - 1] == t[|t| - 1];
    }
  }

  /** `message.trim().length` is zero exactly for blank strings. */
  lemma TrimEmptyIffBlank(s: string)
    ensures Trim(s) == [] <==> IsBlank(s)
  {
    var t := TrimStart(s);
    TrimStartEmptyIffBlank(s);
    TrimEndEmptyIffBlank(t);
    if t != [] {
      assert !IsWhitespace(t[0]);
    }
  }

  /** The speech envelope for a PlainText reply that ends the session. */
  function PlainTextResponse(text: string): (r: Value)
    ensures r.Obj? && !IsArray(r)
  {
    Obj(map[
      "version" := Str("1.0"),
      "response" := Obj(map[
        "shouldEndSession" := Bool(true),
        "outputSpeech" := Obj(map["type" := Str("PlainText"), "text" := Str(text)])])])
  }

  /** `reply(message)`; `undefined` stands for "no response". */
  function Reply(message: Value): (r: Value)
    // A string with a non-whitespace character becomes the PlainText envelope.
    ensures message.Str? && !IsBlank(message.s) ==> r == PlainTextResponse(message.s)
    // A blank string yields nothing.
    ensures message.Str? && IsBlank(message.s) ==> r == Undefined
    // A plain object is returned as it is.
    ensures message.Obj? ==> r == message
    // Every other value (undefined, null, booleans, numbers, arrays,
    // functions) yields nothing.
    ensures !message.Str? && !message.Obj? ==> r == Undefined
  {
    assert message.Str? ==> (|Trim(message.s)| > 0 <==> !IsBlank(message.s)) by {
      if message.Str? { TrimEmptyIffBlank(message.s); }
    }
    if TypeOf(message) == "string" && |Trim(message.s)| > 0 then
      PlainTextResponse(message.s)
    else if TypeOf(message) == "object" && message != Null && !IsArray(message) then
      message
    else
      Undefined
  }

  /** The result is always `undefined` or a non-null, non-array object. */
  lemma ReplyShape(message: Value)
    ensures var r := Reply(message); r == Undefined || (TypeOf(r) == "object" && r != Null && !IsArray(r))
  {
  }

  /** Coercing a coerced reply changes nothing. */
  lemma ReplyIdempotent(message: Value)
    ensures Reply(Reply(message)) == Reply(message)
  {
  }

  /** The spoken text is the handler's string exactly, surrounding
      whitespace included: trimming only decides whether there is a reply. */
  lemma TextUntrimmed(s: string)
    requires !IsBlank(s)
    ensures var r := Reply(Str(s));
      && Get(r, "version") == Str("1.0")
      && Get(Get(r, "response"), "shouldEndSession") == Bool(true)
      && Get(Get(Get(r, "response"), "outputSpeech"), "type") == Str("PlainText")
      && Get(Get(Get(r, "response"), "outputSpeech"), "text") == Str(s)
  {
    assert Reply(Str(s)) == PlainTextResponse(s);
    EnvelopeFields(s);
  }

  /** The fields of the PlainText envelope, read back by property access. */
  lemma EnvelopeFields(text: string)
    ensures var r := PlainTextResponse(text);
      && Get(r, "version") == Str("1.0")
      && Get(Get(r, "response"), "shouldEndSession") == Bool(true)
      && Get(Get(Get(r, "response"), "outputSpeech"), "type") == Str("PlainText")
      && Get(Get(Get(r, "response"), "outputSpeech"), "text") == Str(text)
  {
  }

  /** Empty strings and runs of spaces, tabs and newlines give no reply;
      `'hello'` and `' hi '` do. */
  lemma BlankExamples()
    ensures Reply(Str("")) == Undefined
    ensures Reply(Str(" \t\n")) == Undefined
    ensures Reply(Str("hello")) == PlainTextResponse("hello")
    ensures Reply(Str(" hi ")) == PlainTextResponse(" hi ")
  {
    var spaces := " \t\n";
    assert IsWhitespace(spaces[0]) && IsWhitespace(spaces[1]) && IsWhitespace(spaces[2]);
    assert IsBlank(spaces);
    assert !IsBlank("hello") by { assert !IsWhitespace("hello"[0]); }
    assert !IsBlank(" hi ") by { assert !IsWhitespace(" hi "[1]); }
  }
}
