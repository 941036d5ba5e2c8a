/**
 * The `POST /api/spells/evaluate` handler (backend/src/routes/spells.js) as a
 * function of the request body and of what the two awaited service calls
 * produce. Besides the response it returns the calls the handler makes, in
 * order, so that "the evaluator is never called" can be stated.
 */
module SpellRoutes {

  import opened Wrappers
  import opened JsText
  import opened OpenAIService

  /** The request body fields the handler reads; None is an absent field. */
  datatype RequestBody = RequestBody(
    spell: Option<string>,
    creatureType: Option<string>,
    creatureWeakness: Option<string>,
    isBoss: Option<bool>,
    bossPhase: Option<int>)

  datatype Body =
    | ErrorBody(error: string)
    | ModerationFailure(error: string, message: string, kind: string, flaggedCategories: seq<string>)
    | ServerError(error: string, message: string)
    | Evaluated(spell: string, creatureType: string, evaluation: Json, isBoss: bool, bossPhase: Option<int>)

  datatype Response = Response(status: int, body: Body)

  /** A call the handler makes into the service, with its arguments. */
  datatype Call =
    | ModerateCall(text: string)
    | EvaluateCall(spell: string, creatureType: string, creatureWeakness: string,
                   isBoss: bool, bossPhase: Option<int>)

  datatype Handled = Handled(response: Response, calls: seq<Call>)

  const MaxSpellLength := 500
  const DefaultCreatureType := "Fire Dragon"
  const DefaultCreatureWeakness := "ice and water magic"
  const SpellRequired := "Spell text is required"
  const SpellTooLong := "Spell must be 500 characters or less"
  const EvaluationFailed := "Failed to evaluate spell"
  /** The TypeError V8 raises for `moderation.flagged` when moderation returned undefined. */
  const UndefinedModerationMessage := "Cannot read properties of undefined (reading 'flagged')"

  const MessagePrefix := "Your spell contains content that isn't appropriate for this game. "
  const MessageSuffix := "Remember: effective spells are clear, creative, and target the creature's weakness!"
  const HarassmentAdvice := "Try focusing on magical attacks against the creature rather than harmful language. "
  const SexualAdvice := "Keep your spells focused on fantasy combat and magical abilities. "
  const HateAdvice := "Use respectful language when describing your magical abilities. "
  const SelfHarmAdvice := "Focus on casting spells against the creature, not harmful actions. "
  const GraphicViolenceAdvice := "Try describing magical effects rather than graphic violence. "

  /** `relevant_categories`: the moderation categories that may block a spell. */
  const RelevantCategories: map<string, bool> := map[
    "harassment" := true,
    "harassment/threatening" := true,
    "sexual" := true,
    "hate" := true,
    "hate/threatening" := true,
    "illicit" := false,
    "illicit/violent" := false,
    "self-harm/intent" := true,
    "self-harm/instructions" := true,
    "self-harm" := true,
    "sexual/minors" := true,
    "violence" := false,
    "violence/graphic" := true]

  /** The properties every object literal inherits from `Object.prototype`.
      Looking one up on `relevant_categories` gives a function (an object for
      `__proto__`), which is truthy. */
  const InheritedProperties: set<string> := {
    "constructor", "hasOwnProperty", "isPrototypeOf", "propertyIsEnumerable",
    "toLocaleString", "toString", "valueOf", "__defineGetter__", "__defineSetter__",
    "__lookupGetter__", "__lookupSetter__", "__proto__"}

  /** `relevant_categories[cat]` is truthy: a listed category mapped to true, or
      an inherited property; any other name is undefined. */
  predicate IsRelevant(cat: string) {
    if cat in RelevantCategories then RelevantCategories[cat] else cat in InheritedProperties
  }

  /** The 400 error for the spell text, if any: missing, empty or all
      whitespace first, then more than 500 characters before trimming. */
  function SpellTextError(spell: Option<string>): (e: Option<string>)
    ensures spell.None? ==> e == Some(SpellRequired)
    ensures spell.Some? ==>
      (e == Some(SpellRequired) <==> AllWhitespace(spell.value))
      && (e == Some(SpellTooLong) <==> !AllWhitespace(spell.value) && |spell.value| > MaxSpellLength)
      && (e.None? <==> !AllWhitespace(spell.value) && |spell.value| <= MaxSpellLength)
  {
    if spell.None? || spell.value == [] then Some(SpellRequired)
    else
      TrimEmptyIffAllWhitespace(spell.value);
      if |Trim(spell.value)| == 0 then Some(SpellRequired)
      else if |spell.value| > MaxSpellLength then Some(SpellTooLong)
      else None
  }

  /** `Object.keys(categories).some(cat => categories[cat] && relevant_categories[cat])`. */
  predicate AnyRelevantFlag(categories: seq<(string, bool)>) {
    exists i :: 0 <= i < |categories| && categories[i].1 && IsRelevant(categories[i].0)
  }

  /** `Object.keys(categories).filter(...)`: the categories that are both true
      and relevant, in key order. */
  function FlaggedRelevant(categories: seq<(string, bool)>): (r: seq<string>)
    ensures |r| <= |categories|
  {
    if categories == [] then []
    else (if categories[0].1 && IsRelevant(categories[0].0) then [categories[0].0] else [])
         + FlaggedRelevant(categories[1..])
  }

  /** The filtered list holds exactly the true-and-relevant categories, and is
      empty exactly when `some` finds none. */
  lemma {:induction false} FlaggedRelevantMembers(categories: seq<(string, bool)>)
    ensures forall c :: c in FlaggedRelevant(categories) <==> (c, true) in categories && IsRelevant(c)
    ensures FlaggedRelevant(categories) == [] <==> !AnyRelevantFlag(categories)
  {
    if categories != [] {
      FlaggedRelevantMembers(categories[1..]);
      assert forall i :: 1 <= i < |categories| ==> categories[i] == categories[1..][i - 1];
      assert forall p :: p in categories <==> p == categories[0] || p in categories[1..];
    }
  }

  /** The key order of the categories is kept: filtering distributes over concatenation. */
  lemma {:induction false} FlaggedRelevantKeepsOrder(a: seq<(string, bool)>, b: seq<(string, bool)>)
    ensures FlaggedRelevant(a + b) == FlaggedRelevant(a) + FlaggedRelevant(b)
  {
    if a == [] {
      assert a + b == b;
    } else {
      assert (a + b)[0] == a[0];
      assert (a + b)[1..] == a[1..] + b;
      FlaggedRelevantKeepsOrder(a[1..], b);
    }
  }

  predicate IsBlocked(m: ModerationResult) {
    m.flagged && AnyRelevantFlag(m.categories)
  }

  /** The five `includes` tests of the advice chain, in their order. */
  predicate FlagsHarassment(flagged: seq<string>) {
    "harassment" in flagged || "harassment/threatening" in flagged
  }

  predicate FlagsSexual(flagged: seq<string>) {
    "sexual" in flagged || "sexual/minors" in flagged
  }

  predicate FlagsHate(flagged: seq<string>) {
    "hate" in flagged || "hate/threatening" in flagged
  }

  predicate FlagsSelfHarm(flagged: seq<string>) {
    "self-harm/intent" in flagged || "self-harm/instructions" in flagged || "self-harm" in flagged
  }

  predicate FlagsGraphicViolence(flagged: seq<string>) {
    "violence/graphic" in flagged
  }

  /** The category names some advice test looks for. */
  const AdvisedCategories: set<string> := {
    "harassment", "harassment/threatening", "sexual", "sexual/minors", "hate", "hate/threatening",
    "self-harm/intent", "self-harm/instructions", "self-harm", "violence/graphic"}

  /** The one advice sentence for the first matching group, in the order
      harassment, sexual, hate, self-harm, graphic violence; empty if none. */
  function Advice(flagged: seq<string>): (a: string)
    ensures a == HarassmentAdvice <==> FlagsHarassment(flagged)
    ensures a == SexualAdvice <==> !FlagsHarassment(flagged) && FlagsSexual(flagged)
    ensures a == HateAdvice <==> !FlagsHarassment(flagged) && !FlagsSexual(flagged) && FlagsHate(flagged)
    ensures a == SelfHarmAdvice <==>
      !FlagsHarassment(flagged) && !FlagsSexual(flagged) && !FlagsHate(flagged) && FlagsSelfHarm(flagged)
    ensures a == GraphicViolenceAdvice <==>
      && !FlagsHarassment(flagged) && !FlagsSexual(flagged) && !FlagsHate(flagged) && !FlagsSelfHarm(flagged)
      && FlagsGraphicViolence(flagged)
    ensures a == "" <==> forall c :: c in flagged ==> c !in AdvisedCategories
  {
    if FlagsHarassment(flagged) then HarassmentAdvice
    else if FlagsSexual(flagged) then SexualAdvice
    else if FlagsHate(flagged) then HateAdvice
    else if FlagsSelfHarm(flagged) then SelfHarmAdvice
    else if FlagsGraphicViolence(flagged) then GraphicViolenceAdvice
    else ""
  }

  /** The relevant names are the advised categories and the inherited properties. */
  lemma RelevantCategoryNames(c: string)
    ensures IsRelevant(c) <==> c in AdvisedCategories || c in InheritedProperties
  {
  }

  /** The block message: fixed prefix, at most one advice sentence, fixed suffix. */
  function BlockMessage(flagged: seq<string>): (m: string)
    ensures |MessagePrefix| + |MessageSuffix| <= |m|
    ensures m[..|MessagePrefix|] == MessagePrefix && m[|m| - |MessageSuffix|..] == MessageSuffix
    ensures m[|MessagePrefix|..|m| - |MessageSuffix|] == Advice(flagged)
  {
    MessagePrefix + Advice(flagged) + MessageSuffix
  }

  /** A blocked spell gets an advice sentence exactly when a true category is one
      the advice tests look for. */
  lemma BlockedSpellAdvice(m: ModerationResult)
    ensures Advice(FlaggedRelevant(m.categories)) != "" <==>
      exists i :: 0 <= i < |m.categories| && m.categories[i].1 && m.categories[i].0 in AdvisedCategories
  {
    var f := FlaggedRelevant(m.categories);
    FlaggedRelevantMembers(m.categories);
    if Advice(f) != "" {
      var c :| c in f && c in AdvisedCategories;
      var i :| 0 <= i < |m.categories| && m.categories[i] == (c, true);
    } else {
      forall i | 0 <= i < |m.categories| && m.categories[i].1
        ensures m.categories[i].0 in AdvisedCategories ==> m.categories[i].0 in f
      {
        RelevantCategoryNames(m.categories[i].0);
        assert m.categories[i] in m.categories;
      }
    }
  }

  /** With the moderation API's category names, which are no inherited
      properties, a blocked spell always gets one of the five sentences. */
  lemma BlockedSpellGetsAdvice(m: ModerationResult)
    requires IsBlocked(m)
    requires forall i :: 0 <= i < |m.categories| ==> m.categories[i].0 !in InheritedProperties
    ensures Advice(FlaggedRelevant(m.categories)) in
      {HarassmentAdvice, SexualAdvice, HateAdvice, SelfHarmAdvice, GraphicViolenceAdvice}
  {
    var i :| 0 <= i < |m.categories| && m.categories[i].1 && IsRelevant(m.categories[i].0);
    RelevantCategoryNames(m.categories[i].0);
    BlockedSpellAdvice(m);
  }

  /** A true category named after an inherited property blocks the spell, and the
      message then carries no advice sentence. */
  lemma InheritedCategoryBlocksWithoutAdvice()
    ensures IsBlocked(ModerationResult(true, [("constructor", true)]))
    ensures Advice(FlaggedRelevant([("constructor", true)])) == ""
  {
    assert FlaggedRelevant([("constructor", true)]) == ["constructor"];
  }

  function ServerFailure(message: string): Response {
    Response(500, ServerError(EvaluationFailed, message))
  }

  /** The whole handler. `moderation` is what `moderateContent` resolved to
      (None is `undefined`); `evaluation` is what `evaluateSpell` would produce
      and is consulted only when the handler gets that far. */
  function HandleEvaluate(req: RequestBody, moderation: Option<ModerationResult>, evaluation: Outcome): (h: Handled)
    ensures SpellTextError(req.spell).Some? ==>
      h == Handled(Response(400, ErrorBody(SpellTextError(req.spell).value)), [])
    ensures SpellTextError(req.spell).None? ==> |h.calls| >= 1 && h.calls[0] == ModerateCall(req.spell.value)
    ensures |h.calls| <= 2
    ensures (exists k :: 0 <= k < |h.calls| && h.calls[k].EvaluateCall?) ==> h.response.status != 400
  {
    var spell := req.spell;
    var creatureType := if req.creatureType.Some? then req.creatureType.value else DefaultCreatureType;
    var creatureWeakness := if req.creatureWeakness.Some? then req.creatureWeakness.value else DefaultCreatureWeakness;
    var isBoss := if req.isBoss.Some? then req.isBoss.value else false;
    var bossPhase := req.bossPhase;
    match SpellTextError(spell)
    case Some(e) => Handled(Response(400, ErrorBody(e)), [])
    case None =>
      var moderated := [ModerateCall(spell.value)];
      match moderation
      case None => Handled(ServerFailure(UndefinedModerationMessage), moderated)
      case Some(m) =>
        if IsBlocked(m) then
          var flagged := FlaggedRelevant(m.categories);
          Handled(Response(400, ModerationFailure("moderation_failure", BlockMessage(flagged),
                                                  "content_moderation", flagged)), moderated)
        else
          var calls := moderated + [EvaluateCall(spell.value, creatureType, creatureWeakness, isBoss, bossPhase)];
          match evaluation
          case Threw(msg) => Handled(ServerFailure(msg), calls)
          case Returned(v) => Handled(Response(200, Evaluated(spell.value, creatureType, v, isBoss, bossPhase)), calls)
  }

  /** A missing, empty or all-whitespace spell is rejected with 400 before any
      service call, whatever moderation and evaluation would have said. */
  lemma BlankSpellRejectedWithoutCalls(req: RequestBody, m: Option<ModerationResult>, e: Outcome)
    requires req.spell.None? || AllWhitespace(req.spell.value)
    ensures HandleEvaluate(req, m, e) == Handled(Response(400, ErrorBody(SpellRequired)), [])
  {
  }

  /** Length is checked on the untrimmed text and only after the blank check:
      500 characters pass the gate, 501 are rejected with no service call. */
  lemma LengthLimit(req: RequestBody, m: Option<ModerationResult>, e: Outcome)
    requires req.spell.Some? && !AllWhitespace(req.spell.value)
    ensures |req.spell.value| > 500 ==>
      HandleEvaluate(req, m, e) == Handled(Response(400, ErrorBody(SpellTooLong)), [])
    ensures |req.spell.value| <= 500 ==> HandleEvaluate(req, m, e).calls[0] == ModerateCall(req.spell.value)
  {
  }

  /** Blocking: 400 with exactly the true-and-relevant categories, and no
      evaluator call; a result that is not blocking never produces this. */
  lemma ModerationBlocks(req: RequestBody, m: ModerationResult, e: Outcome)
    requires SpellTextError(req.spell).None?
    ensures var h := HandleEvaluate(req, Some(m), e);
      (h.response.body.ModerationFailure? <==> IsBlocked(m))
      && (IsBlocked(m) ==>
            h.response.status == 400
            && h.response.body == ModerationFailure("moderation_failure",
                 BlockMessage(FlaggedRelevant(m.categories)), "content_moderation",
                 FlaggedRelevant(m.categories))
            && h.calls == [ModerateCall(req.spell.value)])
  {
  }

  /** Categories that are not relevant never block, whether flagged or not. */
  lemma IrrelevantCategoriesNeverBlock(m: ModerationResult)
    requires forall i :: 0 <= i < |m.categories| && m.categories[i].1 ==> !IsRelevant(m.categories[i].0)
    ensures !IsBlocked(m)
  {
  }

  /** `illicit`, `illicit/violent` and `violence` are listed but not relevant,
      and a result with `flagged` false never blocks. */
  lemma NonBlockingCategories(m: ModerationResult)
    ensures !IsRelevant("illicit") && !IsRelevant("illicit/violent") && !IsRelevant("violence")
    ensures !m.flagged ==> !IsBlocked(m)
  {
  }

  /** A passing spell is evaluated once, with the request's fields or their
      defaults, and the 200 body echoes them with the evaluator's value unchanged. */
  lemma PassEchoesRequest(req: RequestBody, m: ModerationResult, v: Json)
    requires SpellTextError(req.spell).None? && !IsBlocked(m)
    ensures var ct := if req.creatureType.Some? then req.creatureType.value else "Fire Dragon";
      var cw := if req.creatureWeakness.Some? then req.creatureWeakness.value else "ice and water magic";
      var boss := if req.isBoss.Some? then req.isBoss.value else false;
      HandleEvaluate(req, Some(m), Returned(v)) ==
        Handled(Response(200, Evaluated(req.spell.value, ct, v, boss, req.bossPhase)),
                [ModerateCall(req.spell.value), EvaluateCall(req.spell.value, ct, cw, boss, req.bossPhase)])
  {
  }

  /** An exception from the awaited calls becomes a 500 carrying its message. */
  lemma ExceptionsBecome500(req: RequestBody, m: Option<ModerationResult>, msg: string)
    requires SpellTextError(req.spell).None?
    ensures m.None? ==> HandleEvaluate(req, m, Threw(msg)).response ==
                        Response(500, ServerError("Failed to evaluate spell", UndefinedModerationMessage))
    ensures m.Some? && !IsBlocked(m.value) ==>
      HandleEvaluate(req, m, Threw(msg)).response == Response(500, ServerError("Failed to evaluate spell", msg))
  {
  }

  /** Wiring the route to a service that has no API key: moderation fails open,
      evaluation throws, and a valid spell gets a 500, not a fallback judgment. */
  lemma NoClientValidSpellGets500(svc: Service, req: RequestBody, reply: ModerationReply)
    requires !svc.hasClient && SpellTextError(req.spell).None?
    ensures HandleEvaluate(req, svc.ModerateContent(req.spell.value, reply), Threw(NotInitializedMessage)).response
            == Response(500, ServerError("Failed to evaluate spell", NotInitializedMessage))
  {
  }

  /** With a configured service every 2xx response carries a judgment-shaped
      evaluation, the shape the browser client reads. */
  lemma SuccessCarriesJudgment(req: RequestBody, m: Option<ModerationResult>, e: Outcome)
    requires e.Returned? ==> Fields(e.value).Some?
    ensures var r := HandleEvaluate(req, m, e).response;
      200 <= r.status <= 299 ==> r.body.Evaluated? && Fields(r.body.evaluation).Some?
  {
  }
}
