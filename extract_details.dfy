/**
 * The route that reads a support chat and asks the language model for the
 * details of a dispute: it formats the history as a transcript, strips the
 * code fences the model may wrap its answer in, and parses the answer.
 *
 * The language model and the JSON parser are foreign: they are the
 * parameters `generate` and `parse`, and the fixed instructions around the
 * transcript are part of `generate`.
 */
module ExtractDetails {
  import opened Wrappers
  import opened Values
  import Text

  /** A message of the chat history; `None` is a missing field. */
  datatype HistoryMessage = HistoryMessage(role: Option<Value>, content: Option<Value>)

  /** The `history` field: missing or falsy, a non-list value, or a list. */
  datatype HistoryField = Missing | NotAList | List(messages: seq<HistoryMessage>)

  /** A template placeholder: `String(v)`, "undefined" for a missing field. */
  function Display(v: Option<Value>): string {
    if v.None? then "undefined" else ToText(v.value)
  }

  /** `${role}: ${content}`. */
  function Line(m: HistoryMessage): string {
    Display(m.role) + ": " + Display(m.content)
  }

  function Lines(h: seq<HistoryMessage>): (ls: seq<string>)
    ensures |ls| == |h|
    ensures forall i :: 0 <= i < |h| ==> ls[i] == Line(h[i])
  {
    if h == [] then [] else [Line(h[0])] + Lines(h[1..])
  }

  /** One line per message, joined by newlines. */
  function Transcript(h: seq<HistoryMessage>): string {
    Text.Join(Lines(h), "\n")
  }

  /** The transcript grows by one line, after a newline, per message appended. */
  lemma {:induction false} TranscriptAppend(h: seq<HistoryMessage>, m: HistoryMessage)
    ensures Transcript(h + [m]) == if h == [] then Line(m) else Transcript(h) + "\n" + Line(m)
  {
    assert Lines(h + [m]) == Lines(h) + [Line(m)];
    if h != [] {
      Text.JoinSnoc(Lines(h), Line(m), "\n");
    }
  }

  /** Every message's line appears in the transcript. */
  lemma {:induction false} TranscriptHasEveryLine(h: seq<HistoryMessage>, k: nat)
    requires k < |h|
    ensures Text.Contains(Transcript(h), Line(h[k]))
  {
    Text.JoinHasPart(Lines(h), "\n", k);
  }

  const JsonFence := "```json"

  /** Remove every "```json", then every "```", then trim. */
  function Clean(text: string): string {
    Text.Trim(Text.RemoveAll(Text.RemoveAll(text, JsonFence), Text.Fence))
  }

  /** The cleaned text holds no code fence and starts and ends with a non-blank character. */
  lemma {:induction false} CleanHasNoFence(text: string)
    ensures !Text.Contains(Clean(text), Text.Fence)
    ensures Clean(text) == [] || (!Text.IsSpace(Clean(text)[0]) && !Text.IsSpace(Clean(text)[|Clean(text)| - 1]))
  {
    var stripped := Text.RemoveAll(Text.RemoveAll(text, JsonFence), Text.Fence);
    Text.RemoveFenceComplete(Text.RemoveAll(text, JsonFence));
    var a, b :| 0 <= a <= b <= |stripped| && Clean(text) == stripped[a..b];
    Text.ContainsInSlice(stripped, a, b, Text.Fence);
  }

  /** An answer without backticks is only trimmed. */
  lemma {:induction false} CleanWithoutBackticks(text: string)
    requires forall i :: 0 <= i < |text| ==> text[i] != '`'
    ensures Clean(text) == Text.Trim(text)
  {
    Text.RemoveAllAbsent(text, JsonFence);
    Text.RemoveAllAbsent(text, Text.Fence);
  }

  const NoModelKeyError := "Gemini API Key not configured"
  const InvalidHistoryError := "Invalid chat history"
  const ExtractionError := "Failed to extract details"

  datatype ExtractResponse<J> = Extracted(details: J) | ExtractRejected(error: string) | ExtractFailed(error: string)

  /**
   * `POST /api/extract-dispute-details`: 500 without the model key, 400 for a
   * missing or non-list history; otherwise the model's answer to the
   * transcript is cleaned and parsed, and a failed answer or parse is a 500.
   */
  function Extract<J>(modelKey: Option<string>, history: HistoryField, generate: string -> Option<string>,
                      parse: string -> Option<J>): (r: ExtractResponse<J>)
    ensures !(modelKey.Some? && modelKey.value != "") ==> r == ExtractFailed(NoModelKeyError)
    ensures modelKey.Some? && modelKey.value != "" && !history.List? ==> r == ExtractRejected(InvalidHistoryError)
    ensures r.Extracted? <==>
      && modelKey.Some? && modelKey.value != "" && history.List?
      && generate(Transcript(history.messages)).Some?
      && parse(Clean(generate(Transcript(history.messages)).value)).Some?
    ensures r.Extracted? ==> Some(r.details) == parse(Clean(generate(Transcript(history.messages)).value))
    ensures r.ExtractFailed? && modelKey.Some? && modelKey.value != "" ==> r.error == ExtractionError
  {
    if !(modelKey.Some? && modelKey.value != "") then ExtractFailed(NoModelKeyError)
    else if !history.List? then ExtractRejected(InvalidHistoryError)
    else
      var answer := generate(Transcript(history.messages));
      if answer.None? then ExtractFailed(ExtractionError)
      else
        var details := parse(Clean(answer.value));
        if details.None? then ExtractFailed(ExtractionError) else Extracted(details.value)
  }
}
