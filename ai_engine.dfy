/**
 * The reply handling of the reflection generator: locating the JSON span in
 * what the local model printed, the prompt passed to the model, and the
 * three-way classification of the reply. The `ollama run` process is a
 * parameter (`run`), and so is `json.loads` (`parse`).
 */
module AiEngine {
  import opened Wrappers
  import opened Text
  import opened Json

  /** The index of the first `c` in `s`. */
  function IndexOfFirst(s: string, c: char): (r: Option<nat>)
    ensures r.None? <==> c !in s
    ensures r.Some? ==> r.value < |s| && s[r.value] == c && c !in s[..r.value]
  {
    if s == [] then None
    else if s[0] == c then Some(0)
    else match IndexOfFirst(s[1..], c)
      case None => None
      case Some(i) =>
        assert s[..i + 1] == [s[0]] + s[1..][..i];
        Some(i + 1)
  }

  /** The index of the last `c` in `s`. */
  function IndexOfLast(s: string, c: char): (r: Option<nat>)
    ensures r.None? <==> c !in s
    ensures r.Some? ==> r.value < |s| && s[r.value] == c && c !in s[r.value + 1..]
  {
    if s == [] then None
    else if s[|s| - 1] == c then Some(|s| - 1)
    else
      var r := IndexOfLast(s[..|s| - 1], c);
      assert s == s[..|s| - 1] + [s[|s| - 1]];
      assert r.Some? ==> s[r.value + 1..] == s[..|s| - 1][r.value + 1..] + [s[|s| - 1]];
      r
  }

  /** Some `{` of `text` is followed, at some later index, by a `}`. */
  ghost predicate HasBracePair(text: string)
  {
    exists i, j :: 0 <= i < j < |text| && text[i] == '{' && text[j] == '}'
  }

  /** `text[i..j + 1]` runs from the first `{` of `text` to its last `}`. */
  ghost predicate IsOutermostSpan(text: string, i: int, j: int)
  {
    && 0 <= i < j < |text|
    && text[i] == '{' && text[j] == '}'
    && '{' !in text[..i] && '}' !in text[j + 1..]
  }

  /**
   * `_extract_json`: the match of the greedy pattern `\{.*\}` under DOTALL.
   * The search starts at the first `{`; the greedy `.*` then stretches, across
   * newlines, to the last `}`. When no `}` follows the first `{`, no later `{`
   * can match either, and the result is `None`.
   */
  function ExtractJson(text: string): (r: Option<string>)
    ensures r.Some? <==> HasBracePair(text)
    ensures r.Some? ==> exists i, j :: IsOutermostSpan(text, i, j) && r.value == text[i..j + 1]
  {
    match IndexOfFirst(text, '{')
    case None => None
    case Some(i) =>
      match IndexOfLast(text, '}')
      case None => None
      case Some(j) =>
        assert HasBracePair(text) ==> i < j by {
          if HasBracePair(text) {
            var i0, j0 :| 0 <= i0 < j0 < |text| && text[i0] == '{' && text[j0] == '}';
            assert i <= i0 && j0 <= j;
          }
        }
        if i < j then
          assert IsOutermostSpan(text, i, j);
          Some(text[i..j + 1])
        else
          None
  }

  /**
   * Round trip: a JSON object text `s` wrapped in prose or a markdown fence
   * that opens no brace before it and closes none after it is extracted
   * unchanged.
   */
  lemma ExtractFromWrapped(prefix: string, s: string, suffix: string)
    requires '{' !in prefix && '}' !in suffix
    requires |s| > 0 && s[0] == '{' && s[|s| - 1] == '}'
    ensures ExtractJson(prefix + s + suffix) == Some(s)
  {
    var text := prefix + s + suffix;
    var a, b := |prefix|, |prefix| + |s| - 1;
    assert text[a] == '{' && text[b] == '}';
    assert text[..a] == prefix;
    assert text[b + 1..] == suffix;
    assert IsOutermostSpan(text, a, b) && text[a..b + 1] == s;
    var r := ExtractJson(text);
    var i, j :| IsOutermostSpan(text, i, j) && r.value == text[i..j + 1];
    assert i == a && j == b;
  }

  /** Idempotence: extracting from an extracted span gives the span back. */
  lemma ExtractJsonIdempotent(text: string)
    requires ExtractJson(text).Some?
    ensures ExtractJson(ExtractJson(text).value) == ExtractJson(text)
  {
    var s := ExtractJson(text).value;
    var i, j :| IsOutermostSpan(text, i, j) && s == text[i..j + 1];
    assert s[0] == '{' && s[|s| - 1] == '}';
    var empty: string := [];
    assert empty + s + empty == s;
    ExtractFromWrapped(empty, s, empty);
  }

  /**
   * The prompt `call_ollama` feeds to the model: the prompt itself when the
   * context is missing or empty (both falsy in Python), otherwise the context
   * and the prompt under the headings `Context:` and `User:`.
   */
  function CombinedPrompt(prompt: string, context: Option<string>): (r: string)
    ensures |r| >= |prompt| && r[|r| - |prompt|..] == prompt
    ensures (context.None? || context.value == []) ==> r == prompt
    ensures context.Some? && context.value != [] ==>
      && |r| == |"Context:\n"| + |context.value| + |"\n\nUser:\n"| + |prompt|
      && r[..9] == "Context:\n"
      && r[9..9 + |context.value|] == context.value
      && r[9 + |context.value|..|r| - |prompt|] == "\n\nUser:\n"
  {
    if context.None? || context.value == [] then prompt
    else "Context:\n" + context.value + "\n\nUser:\n" + prompt
  }

  /**
   * `call_ollama`: runs the model on the combined prompt; `run` gives the
   * process's standard output, or `None` when it exited with an error.
   */
  function CallOllama(prompt: string, context: Option<string>, run: string -> Option<string>): (r: Option<string>)
    ensures var out := run(CombinedPrompt(prompt, context));
      && (r.None? <==> out.None?)
      && (r.Some? ==> r.value == Strip(out.value))
  {
    match run(CombinedPrompt(prompt, context))
    case None => None
    case Some(out) => Some(Strip(out))
  }

  const OllamaFailure: string := "Failed to get response from Ollama."

  /** The dictionary returned when the model gave no reply. */
  const ErrorReply: Dict := map["error" := Str(OllamaFailure)]

  /** The dictionary returned when the reply held no parsable JSON object; it keeps the reply verbatim. */
  function RawReply(response: string): Dict
  {
    map["raw_response" := Str(response)]
  }

  /**
   * The branches of `generate_reflection` after the model was called, given
   * what `call_ollama` returned. A missing or empty reply gives the error
   * dictionary; a reply without a brace span, or whose span does not parse,
   * gives the raw reply; otherwise the parsed object is returned as is.
   */
  function ClassifyReply(response: Option<string>, parse: string -> Option<Dict>): (res: Dict)
    ensures (response.None? || response.value == []) ==> res == ErrorReply
    ensures response.Some? && response.value != [] && !HasBracePair(response.value) ==> res == RawReply(response.value)
    ensures response.Some? && response.value != [] && HasBracePair(response.value) ==>
      exists span :: ExtractJson(response.value) == Some(span) &&
        (if parse(span).Some? then res == parse(span).value else res == RawReply(response.value))
  {
    if response.None? || response.value == [] then
      ErrorReply
    else
      match ExtractJson(response.value)
      case None => RawReply(response.value)
      case Some(span) =>
        match parse(span)
        case None => RawReply(response.value)
        case Some(data) => data
  }

  /**
   * `generate_reflection`: calls the model once, without context, on
   * `prompt` (the reflection prompt built from the user's input), and
   * classifies the stripped reply. A failed run or an output that is all
   * whitespace gives the error dictionary; a raw reply is the stripped output.
   */
  function GenerateReflection(prompt: string, run: string -> Option<string>, parse: string -> Option<Dict>): (res: Dict)
    ensures run(prompt).None? ==> res == ErrorReply
    ensures run(prompt).Some? ==> res == ClassifyReply(Some(Strip(run(prompt).value)), parse)
  {
    ClassifyReply(CallOllama(prompt, None, run), parse)
  }

  /**
   * The model's output reaches the classification only after stripping:
   * an output of whitespace alone is an error, never a raw reply.
   */
  lemma BlankOutputIsError(prompt: string, run: string -> Option<string>, parse: string -> Option<Dict>)
    requires run(prompt).Some?
    requires forall k :: 0 <= k < |run(prompt).value| ==> IsSpace(run(prompt).value[k])
    ensures GenerateReflection(prompt, run, parse) == ErrorReply
  {
  }

  /** No extraction and no parse happen for an empty reply: the parser cannot change the result. */
  lemma EmptyReplyIgnoresParser(response: Option<string>, parse1: string -> Option<Dict>, parse2: string -> Option<Dict>)
    requires response.None? || response.value == []
    ensures ClassifyReply(response, parse1) == ClassifyReply(response, parse2) == ErrorReply
  {
  }

  /**
   * A reply that wraps a JSON object in prose or a markdown fence yields the
   * object exactly as the parser returns it, unmodified.
   */
  lemma FencedReplyParsed(prefix: string, s: string, suffix: string, parse: string -> Option<Dict>)
    requires '{' !in prefix && '}' !in suffix
    requires |s| > 0 && s[0] == '{' && s[|s| - 1] == '}'
    requires parse(s).Some?
    ensures ClassifyReply(Some(prefix + s + suffix), parse) == parse(s).value
  {
    ExtractFromWrapped(prefix, s, suffix);
  }

  /** A wrapped object text that does not parse leaves the whole reply in `raw_response`. */
  lemma FencedReplyUnparsable(prefix: string, s: string, suffix: string, parse: string -> Option<Dict>)
    requires '{' !in prefix && '}' !in suffix
    requires |s| > 0 && s[0] == '{' && s[|s| - 1] == '}'
    requires parse(s).None?
    ensures ClassifyReply(Some(prefix + s + suffix), parse) == RawReply(prefix + s + suffix)
  {
    ExtractFromWrapped(prefix, s, suffix);
  }
}
