/**
 * The backend's evaluation service (backend/src/services/openaiService.js):
 * post-processing of the judge model's reply (span extraction, field
 * validation, demo fallback) and the fail-open moderation defaults.
 *
 * The two external calls are inputs: the chat completion reply and the
 * moderation reply. `JSON.parse` is a parameter of type string -> Option<Json>,
 * and the three `Math.random()` draws are reals in [0, 1).
 */
module OpenAIService {

  import opened Wrappers
  import opened JsText

  /** A parsed JSON value. Numbers are integers here; an object is a map, as
      `JSON.parse` keeps the last of repeated keys. */
  datatype Json =
    | JNull
    | JBool(b: bool)
    | JNumber(n: int)
    | JString(s: string)
    | JArray(items: seq<Json>)
    | JObject(fields: map<string, Json>)

  /** The typed view of a judgment: the four fields the backend checks. */
  datatype Judgment = Judgment(effectiveness: int, damage: int, feedback: string, success: bool)

  /** A moderation result entry: `flagged` and the category flags in key order. */
  datatype ModerationResult = ModerationResult(flagged: bool, categories: seq<(string, bool)>)

  /** What an awaited service call produced: a value, or a thrown Error's message. */
  datatype Outcome = Returned(value: Json) | Threw(message: string)

  /** The pieces of a chat completion reply that the service reads. */
  datatype Message = Message(content: Option<string>)
  datatype Choice = Choice(message: Option<Message>)
  datatype ChatReply =
    | ChatFailed                                  // the call rejected (network, API error)
    | ChatCompleted(choices: Option<seq<Choice>>) // `choices` may be missing

  /** The moderation call: rejected, or its list of result entries. */
  datatype ModerationReply = ModerationFailed | ModerationCompleted(results: seq<ModerationResult>)

  /** A value of `Math.random()`. */
  type Unit = r: real | 0.0 <= r < 1.0

  /** The three random draws the demo fallback makes, in source order. */
  datatype Draw = Draw(effectivenessRoll: Unit, damageRoll: Unit, successRoll: Unit)

  const NotInitializedMessage := "OpenAI client not initialized. Please check your API key."
  const DemoFeedback := "Unable to connect to AI evaluation service. This is a demo result."

  /** `{flagged: false, categories: {}}`, returned when moderation cannot run. */
  const SafeModeration := ModerationResult(false, [])

  /** The typed fields of `j` when it is an object whose `effectiveness` and
      `damage` are numbers, `feedback` a string and `success` a boolean;
      None when the backend's type check rejects `j`. */
  function Fields(j: Json): (r: Option<Judgment>)
    ensures r.Some? <==>
      j.JObject? && "effectiveness" in j.fields && j.fields["effectiveness"].JNumber?
      && "damage" in j.fields && j.fields["damage"].JNumber?
      && "feedback" in j.fields && j.fields["feedback"].JString?
      && "success" in j.fields && j.fields["success"].JBool?
    ensures r.Some? ==> r.value == Judgment(j.fields["effectiveness"].n, j.fields["damage"].n,
                                            j.fields["feedback"].s, j.fields["success"].b)
  {
    match j
    case JObject(f) =>
      if && "effectiveness" in f && f["effectiveness"].JNumber?
         && "damage" in f && f["damage"].JNumber?
         && "feedback" in f && f["feedback"].JString?
         && "success" in f && f["success"].JBool?
      then Some(Judgment(f["effectiveness"].n, f["damage"].n, f["feedback"].s, f["success"].b))
      else None
    case _ => None
  }

  /** Whether `/\{[\s\S]*\}/` matches `t`: some `{` comes before some `}`. */
  predicate HasBraceSpan(t: string) {
    var open := FirstIndexOf(t, '{');
    var close := LastIndexOf(t, '}');
    open.Some? && close.Some? && open.value < close.value
  }

  /** The text handed to `JSON.parse`: the greedy match of `/\{[\s\S]*\}/`
      (first `{` through last `}`) when there is one, otherwise all of `t`. */
  function JsonCandidate(t: string): string {
    if HasBraceSpan(t) then t[FirstIndexOf(t, '{').value..LastIndexOf(t, '}').value + 1] else t
  }

  /** The candidate is exactly the greedy match: the text from the first `{`
      through the last `}`. Without a match it is the whole text. */
  lemma JsonCandidateExact(t: string)
    ensures !HasBraceSpan(t) ==> JsonCandidate(t) == t
    ensures HasBraceSpan(t) ==>
      exists i, j :: && 0 <= i < j < |t| && JsonCandidate(t) == t[i..j + 1]
                     && t[i] == '{' && '{' !in t[..i] && t[j] == '}' && '}' !in t[j + 1..]
  {
    if HasBraceSpan(t) {
      var i, j := FirstIndexOf(t, '{').value, LastIndexOf(t, '}').value;
      assert JsonCandidate(t) == t[i..j + 1];
    }
  }

  /** The regex matches exactly when some `{` comes before some `}`. */
  lemma HasBraceSpanIff(t: string)
    ensures HasBraceSpan(t) <==> exists i, j :: 0 <= i < j < |t| && t[i] == '{' && t[j] == '}'
  {
    if exists i, j :: 0 <= i < j < |t| && t[i] == '{' && t[j] == '}' {
      var i, j :| 0 <= i < j < |t| && t[i] == '{' && t[j] == '}';
      var open, close := FirstIndexOf(t, '{'), LastIndexOf(t, '}');
      assert open.Some? && close.Some?;
      BeforeFirst(t, '{', open.value, i);
      AfterLast(t, '}', close.value, j);
    }
  }

  /** With a match, the candidate starts with `{` and ends with `}`. */
  lemma JsonCandidateIsBraced(t: string)
    requires HasBraceSpan(t)
    ensures var r := JsonCandidate(t); 2 <= |r| && r[0] == '{' && r[|r| - 1] == '}'
  {
    var first, last := FirstIndexOf(t, '{').value, LastIndexOf(t, '}').value;
    assert JsonCandidate(t) == t[first..last + 1];
  }

  /** The candidate is the leftmost-longest brace span: every `{`...`}` span of
      `t` lies between the first `{` and the last `}`. */
  lemma JsonCandidateIsLeftmostLongest(t: string)
    requires HasBraceSpan(t)
    ensures var first, last := FirstIndexOf(t, '{').value, LastIndexOf(t, '}').value;
      forall i, j :: 0 <= i < j < |t| && t[i] == '{' && t[j] == '}' ==> first <= i && j <= last
  {
    var first, last := FirstIndexOf(t, '{').value, LastIndexOf(t, '}').value;
    forall i, j | 0 <= i < j < |t| && t[i] == '{' && t[j] == '}'
      ensures first <= i && j <= last
    {
      BeforeFirst(t, '{', first, i);
      AfterLast(t, '}', last, j);
    }
  }

  lemma BeforeFirst(t: string, c: char, f: nat, i: nat)
    requires f < |t| && c !in t[..f] && i < |t| && t[i] == c
    ensures f <= i
  {
  }

  lemma AfterLast(t: string, c: char, l: nat, j: nat)
    requires l < |t| && c !in t[l + 1..] && j < |t| && t[j] == c
    ensures j <= l
  {
  }

  /** `choices[0].message.content`, when the reply has one. */
  function ReplyContent(reply: ChatReply): Option<string> {
    match reply
    case ChatFailed => None
    case ChatCompleted(choices) =>
      if choices.Some? && |choices.value| > 0 && choices.value[0].message.Some?
      then choices.value[0].message.value.content
      else None
  }

  /** The demo judgment: `floor(r * 10) + 1`, `floor(r * 100)`, the fixed
      feedback text, and `r > 0.5`. */
  function FallbackJson(d: Draw): Json {
    JObject(map[
      "effectiveness" := JNumber((d.effectivenessRoll * 10.0).Floor + 1),
      "damage" := JNumber((d.damageRoll * 100.0).Floor),
      "feedback" := JString(DemoFeedback),
      "success" := JBool(d.successRoll > 0.5)])
  }

  /** Every fallback passes the backend's own type check, with an integer
      effectiveness in [1, 10], an integer damage in [0, 99] and the demo text. */
  lemma FallbackIsBoundedJudgment(d: Draw)
    ensures Fields(FallbackJson(d)).Some?
    ensures var j := Fields(FallbackJson(d)).value;
      && 1 <= j.effectiveness <= 10 && 0 <= j.damage <= 99
      && j.feedback == DemoFeedback && j.success == (d.successRoll > 0.5)
  {
    FloorBelow(d.effectivenessRoll, 10);
    FloorBelow(d.damageRoll, 100);
  }

  /** Every value in those ranges is produced by some draw, so the bounds are exact. */
  lemma FallbackCoversRanges(e: int, dmg: int, success: bool)
    requires 1 <= e <= 10 && 0 <= dmg <= 99
    ensures exists d: Draw :: Fields(FallbackJson(d)) == Some(Judgment(e, dmg, DemoFeedback, success))
  {
    var re: Unit := (e - 1) as real / 10.0;
    var rd: Unit := dmg as real / 100.0;
    var rs: Unit := if success then 0.75 else 0.25;
    var d := Draw(re, rd, rs);
    assert re * 10.0 == (e - 1) as real;
    assert rd * 100.0 == dmg as real;
    assert Fields(FallbackJson(d)) == Some(Judgment(e, dmg, DemoFeedback, success));
  }

  lemma FloorBelow(r: Unit, n: nat)
    requires n > 0
    ensures 0 <= (r * n as real).Floor < n
  {
    assert 0.0 <= r * n as real < n as real;
  }

  /** The service object; `hasClient` records whether the constructor found an
      API key and built a client. */
  class Service {
    const hasClient: bool

    constructor (apiKeyPresent: bool)
      ensures hasClient == apiKeyPresent
    {
      hasClient := apiKeyPresent;
    }

    /** `evaluateSpell`: throws when there is no client; otherwise always returns
        a judgment-shaped object, the parsed reply itself when it checks out, the
        demo fallback on every other path. */
    method EvaluateSpell(spell: string, creatureType: string, creatureWeakness: string,
                         reply: ChatReply, parse: string -> Option<Json>, draw: Draw)
      returns (r: Outcome)
      ensures !hasClient ==> r == Threw(NotInitializedMessage)
      ensures hasClient ==> r.Returned? && Fields(r.value).Some?
      ensures hasClient && ReplyContent(reply).Some? && Trim(ReplyContent(reply).value) != []
              && parse(JsonCandidate(Trim(ReplyContent(reply).value))).Some?
              && Fields(parse(JsonCandidate(Trim(ReplyContent(reply).value))).value).Some?
              ==> r == Returned(parse(JsonCandidate(Trim(ReplyContent(reply).value))).value)
      ensures hasClient && !(ReplyContent(reply).Some? && Trim(ReplyContent(reply).value) != []
              && parse(JsonCandidate(Trim(ReplyContent(reply).value))).Some?
              && Fields(parse(JsonCandidate(Trim(ReplyContent(reply).value))).value).Some?)
              ==> r == Returned(FallbackJson(draw))
    {
      if !hasClient {
        return Threw(NotInitializedMessage);
      }
      FallbackIsBoundedJudgment(draw);
      var content := ReplyContent(reply);
      if content.None? || Trim(content.value) == [] {
        return Returned(FallbackJson(draw));
      }
      var trimmed := Trim(content.value);
      var jsonStr := trimmed;
      if HasBraceSpan(trimmed) {
        jsonStr := trimmed[FirstIndexOf(trimmed, '{').value..LastIndexOf(trimmed, '}').value + 1];
      }
      var parsed := parse(jsonStr);
      if parsed.None? || Fields(parsed.value).None? {
        return Returned(FallbackJson(draw));
      }
      return Returned(parsed.value);
    }

    /** `moderateContent`: fails open to `{flagged: false, categories: {}}` when
        there is no client or the call fails; otherwise the first result entry,
        which is `undefined` (None) when the reply lists no results. */
    function ModerateContent(text: string, reply: ModerationReply): (r: Option<ModerationResult>)
      ensures !hasClient ==> r == Some(SafeModeration)
      ensures hasClient && reply.ModerationFailed? ==> r == Some(SafeModeration)
      ensures hasClient && reply.ModerationCompleted? && |reply.results| > 0 ==> r == Some(reply.results[0])
      ensures r.None? <==> hasClient && reply.ModerationCompleted? && reply.results == []
    {
      if !hasClient then Some(SafeModeration)
      else match reply
        case ModerationFailed => Some(SafeModeration)
        case ModerationCompleted(results) => if |results| > 0 then Some(results[0]) else None
    }
  }
}
