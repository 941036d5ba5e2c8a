/**
 * The battle screen (frontend/src/components/GameInterface.js): the
 * `currentCreature`, `battleResult`, `isLoading` and `gameState` state cells and
 * the two handlers that update them, `handleSpellCast` and `resetGame`.
 *
 * The awaited `fetch` is an input: `BeginCast` is the part of `handleSpellCast`
 * before the request goes out (it returns the request body), `FinishCast` the
 * part after the reply (or the network error) is in.
 */
module GameInterface {

  import opened Wrappers
  import opened OpenAIService
  import opened SpellRoutes
  import opened Creatures
  import opened ShippedCreatures
  import opened BattleResult
  import SpellInput

  /** The outcome of the `fetch` call: it rejected, or the backend replied. */
  datatype Fetch = NetworkError | Replied(response: Response)

  /** `response.ok`. */
  predicate Ok(status: int) {
    200 <= status <= 299
  }

  /** The judgment the success path reads, when the whole `try` block gets
      through: an ok reply whose body has an `evaluation`. */
  function Judged(reply: Fetch): (j: Option<Judgment>)
    ensures j.Some? ==> reply.Replied? && Ok(reply.response.status) && reply.response.body.Evaluated?
    ensures reply.NetworkError? || !Ok(reply.response.status) ==> j.None?
    ensures reply.Replied? && Ok(reply.response.status) && reply.response.body.Evaluated? ==>
      j == Fields(reply.response.body.evaluation)
  {
    if reply.Replied? && Ok(reply.response.status) && reply.response.body.Evaluated?
    then Fields(reply.response.body.evaluation)
    else None
  }

  /** An ok reply with an evaluation carries the four judgment fields; the
      backend guarantees this (SpellRoutes.SuccessCarriesJudgment). */
  predicate WellFormed(reply: Fetch) {
    reply.Replied? && Ok(reply.response.status) && reply.response.body.Evaluated?
    ==> Fields(reply.response.body.evaluation).Some?
  }

  const FailureFeedback := "Failed to connect to the magical evaluation system. Try again!"

  /** The result stored by the `catch` block. */
  const FailureJudgment := Judgment(1, 0, FailureFeedback, false)

  /** `Math.max(0, currentHealth - damage)`. */
  function ApplyDamage(health: int, damage: int): (r: int)
    ensures r >= 0
    ensures r == 0 <==> damage >= health
    ensures r > 0 ==> r == health - damage
    ensures damage >= 0 && health >= 0 ==> r <= health
  {
    if health - damage > 0 then health - damage else 0
  }

  /** The state after a judged spell: victory when the creature is down, back
      to ready after an ineffective zero-damage spell, otherwise unchanged. */
  function NextState(prev: GameState, newHealth: int, j: Judgment): (s: GameState)
    ensures newHealth <= 0 ==> s == Victory
    ensures newHealth > 0 && j.damage == 0 && j.effectiveness <= 3 ==> s == Ready
    ensures newHealth > 0 && !(j.damage == 0 && j.effectiveness <= 3) ==> s == prev
  {
    if newHealth <= 0 then Victory
    else if j.damage == 0 && j.effectiveness <= 3 then Ready
    else prev
  }

  /** The health after a series of damages, one `ApplyDamage` per cast. */
  function HealthAfter(health: int, damages: seq<int>): int {
    if |damages| == 0 then health
    else ApplyDamage(HealthAfter(health, damages[..|damages| - 1]), damages[|damages| - 1])
  }

  function Sum(damages: seq<int>): int {
    if |damages| == 0 then 0 else Sum(damages[..|damages| - 1]) + damages[|damages| - 1]
  }

  /** With non-negative damages the floor at 0 never loses a hit: the health is
      what is left of the starting health after the total damage, or 0. */
  lemma {:induction false} HealthAfterIsRemaining(health: int, damages: seq<int>)
    requires health >= 0
    requires forall i :: 0 <= i < |damages| ==> damages[i] >= 0
    ensures HealthAfter(health, damages) == if health - Sum(damages) > 0 then health - Sum(damages) else 0
  {
    if |damages| > 0 {
      var p := damages[..|damages| - 1];
      assert forall i :: 0 <= i < |p| ==> p[i] == damages[i];
      HealthAfterIsRemaining(health, p);
    }
  }

  class Game {
    const creature: Creature
    var currentHealth: int
    var battleResult: Option<ShownResult>
    var isLoading: bool
    var gameState: GameState

    /** The creature is always the Fire Dragon, its health is never negative, and
        the only states the handlers set are ready and victory. */
    predicate Valid()
      reads this
    {
      creature == FireDragon && currentHealth >= 0 && (gameState == Ready || gameState == Victory)
    }

    constructor ()
      ensures Valid()
      ensures currentHealth == creature.maxHealth == 100 && gameState == Ready
      ensures battleResult == None && !isLoading
    {
      creature := FireDragon;
      currentHealth := FireDragon.maxHealth;
      battleResult := None;
      isLoading := false;
      gameState := Ready;
    }

    /** `disabled` for the spell input. */
    predicate SpellInputDisabled()
      reads this
    {
      gameState == Victory
    }

    /** The result card is rendered exactly while a result is stored. */
    function ResultCard(): (v: Option<View>)
      reads this
      ensures v.Some? <==> battleResult.Some?
      ensures v.Some? ==> v.value == Render(battleResult.value, gameState)
    {
      if battleResult.Some? then Some(Render(battleResult.value, gameState)) else None
    }

    /** `handleSpellCast` up to the `fetch`: loading on, result cleared, and the
        request body naming the current creature. */
    method BeginCast(spellText: string) returns (request: RequestBody)
      requires Valid()
      modifies this
      ensures Valid()
      ensures isLoading && battleResult == None
      ensures currentHealth == old(currentHealth) && gameState == old(gameState)
      ensures request == RequestBody(Some(spellText), Some(creature.name), Some(creature.weakness), None, None)
    {
      isLoading := true;
      battleResult := None;
      request := RequestBody(Some(spellText), Some(creature.name), Some(creature.weakness), None, None);
    }

    /** `handleSpellCast` after the `fetch`: apply a judged spell, or store the
        fixed failure result and keep health and state; loading ends on every path. */
    method FinishCast(reply: Fetch)
      requires Valid() && WellFormed(reply)
      modifies this
      ensures Valid() && !isLoading
      ensures Judged(reply).Some? ==>
        var j := Judged(reply).value;
        && currentHealth == ApplyDamage(old(currentHealth), j.damage)
        && gameState == NextState(old(gameState), currentHealth, j)
        && battleResult == Some(ShownResult(j, false))
      ensures Judged(reply).None? ==>
        && battleResult == Some(ShownResult(FailureJudgment, false))
        && currentHealth == old(currentHealth) && gameState == old(gameState)
    {
      var judged := Judged(reply);
      if judged.None? {
        battleResult := Some(ShownResult(FailureJudgment, false));
      } else {
        var result := judged.value;
        battleResult := Some(ShownResult(result, false));
        var damage := result.damage;
        var newHealth := ApplyDamage(currentHealth, damage);
        currentHealth := newHealth;
        if newHealth <= 0 {
          gameState := Victory;
        } else if damage == 0 && result.effectiveness <= 3 {
          gameState := Ready;
        }
      }
      isLoading := false;
    }

    /** `handleSpellCast` as one sequential step. */
    method HandleSpellCast(spellText: string, reply: Fetch) returns (request: RequestBody)
      requires Valid() && WellFormed(reply)
      modifies this
      ensures Valid() && !isLoading
      ensures request == RequestBody(Some(spellText), Some("Fire Dragon"), Some("ice and water magic"), None, None)
      ensures Judged(reply).Some? ==>
        var j := Judged(reply).value;
        && currentHealth == ApplyDamage(old(currentHealth), j.damage)
        && gameState == NextState(old(gameState), currentHealth, j)
        && battleResult == Some(ShownResult(j, false))
      ensures Judged(reply).None? ==>
        && battleResult == Some(ShownResult(FailureJudgment, false))
        && currentHealth == old(currentHealth) && gameState == old(gameState)
    {
      request := BeginCast(spellText);
      FinishCast(reply);
    }

    /** `resetGame`: full health, no result, ready. */
    method ResetGame()
      requires Valid()
      modifies this
      ensures Valid()
      ensures currentHealth == creature.maxHealth && battleResult == None && gameState == Ready
      ensures isLoading == old(isLoading)
    {
      currentHealth := creature.maxHealth;
      battleResult := None;
      gameState := Ready;
    }
  }

  /** Any reply that is not ok, a blocked spell's 400 among them, ends as the
      fixed connection-failure result; the moderation message is not shown. */
  lemma RejectedReplyShowsFailure(r: Response)
    requires !Ok(r.status)
    ensures Judged(Replied(r)).None?
  {
  }

  /** A blocked spell's reply is a 400, so the browser shows the failure result. */
  lemma BlockedSpellShowsFailure(req: RequestBody, m: ModerationResult, e: Outcome)
    requires SpellTextError(req.spell).None? && IsBlocked(m)
    ensures Judged(Replied(HandleEvaluate(req, Some(m), e).response)).None?
  {
    ModerationBlocks(req, m, e);
  }

  /** Once a victory is reached the input is disabled, so no spell can be cast. */
  lemma VictoryBlocksCasting(g: Game, text: string, isLoading: bool)
    requires g.gameState == Victory
    ensures SpellInput.Submission(text, isLoading, g.SpellInputDisabled()).None?
  {
  }
}
