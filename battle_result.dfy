/**
 * The result card shown after a cast (frontend/src/components/BattleResult.js):
 * the ordered decision tables for the icon, the headline and the CSS class, the
 * moderated branch and the improvement-tips condition.
 */
module BattleResult {

  import opened OpenAIService

  /** The `gameState` strings the battle screen uses. */
  datatype GameState = Ready | Battle | Victory | Defeat

  /** The `result` prop: its `evaluation` and its `moderated` flag (absent is false). */
  datatype ShownResult = ShownResult(evaluation: Judgment, moderated: bool)

  const TrophyIcon := "\U{1F3C6}"
  const CollisionIcon := "\U{1F4A5}"
  const SwordsIcon := "\U{2694}\U{FE0F}"
  const SparklesIcon := "\U{2728}"
  const DashIcon := "\U{1F4A8}"

  /** `getResultIcon`, first matching row wins. */
  function ResultIcon(state: GameState, e: Judgment): (r: string)
    ensures r == TrophyIcon <==> state == Victory
    ensures r == CollisionIcon <==> state != Victory && e.success && e.damage > 70
    ensures r == SwordsIcon <==> state != Victory && e.success && 30 < e.damage <= 70
    ensures r == SparklesIcon <==> state != Victory && 0 < e.damage && !(e.success && e.damage > 30)
    ensures r == DashIcon <==> state != Victory && e.damage <= 0
  {
    if state == Victory then TrophyIcon
    else if e.success && e.damage > 70 then CollisionIcon
    else if e.success && e.damage > 30 then SwordsIcon
    else if e.damage > 0 then SparklesIcon
    else DashIcon
  }

  /** `getResultText`, first matching row wins. */
  function ResultText(state: GameState, e: Judgment): (r: string)
    ensures r == "Victory!" <==> state == Victory
    ensures r == "Critical Hit!" <==> state != Victory && e.success && e.damage > 70
    ensures r == "Direct Hit!" <==> state != Victory && e.success && 30 < e.damage <= 70
    ensures r == "Glancing Blow" <==> state != Victory && 0 < e.damage && !(e.success && e.damage > 30)
    ensures r == "Spell Fizzled" <==> state != Victory && e.damage <= 0
  {
    if state == Victory then "Victory!"
    else if e.success && e.damage > 70 then "Critical Hit!"
    else if e.success && e.damage > 30 then "Direct Hit!"
    else if e.damage > 0 then "Glancing Blow"
    else "Spell Fizzled"
  }

  /** `getResultClass`: the same shape of table with other cut-offs. */
  function ResultClass(state: GameState, e: Judgment): (r: string)
    ensures r == "result-victory" <==> state == Victory
    ensures r == "result-critical" <==> state != Victory && e.success && e.damage > 50
    ensures r == "result-hit" <==> state != Victory && e.success && e.damage <= 50
    ensures r == "result-weak" <==> state != Victory && !e.success && e.damage > 0
    ensures r == "result-miss" <==> state != Victory && !e.success && e.damage <= 0
  {
    if state == Victory then "result-victory"
    else if e.success && e.damage > 50 then "result-critical"
    else if e.success then "result-hit"
    else if e.damage > 0 then "result-weak"
    else "result-miss"
  }

  /** The icon and the headline always name the same tier. */
  lemma IconAndTextAgree(state: GameState, e: Judgment)
    ensures (ResultIcon(state, e), ResultText(state, e)) in
      {(TrophyIcon, "Victory!"), (CollisionIcon, "Critical Hit!"), (SwordsIcon, "Direct Hit!"),
       (SparklesIcon, "Glancing Blow"), (DashIcon, "Spell Fizzled")}
  {
  }

  /** How the class relates to the icon: a critical icon always has the critical
      class and a direct hit a critical or hit class, but a successful spell with
      little damage has a weak icon and the hit class. */
  lemma ClassAgainstIcon(state: GameState, e: Judgment)
    ensures ResultIcon(state, e) == CollisionIcon ==> ResultClass(state, e) == "result-critical"
    ensures ResultIcon(state, e) == SwordsIcon ==> ResultClass(state, e) in {"result-critical", "result-hit"}
    ensures ResultClass(state, e) == "result-miss" ==> ResultIcon(state, e) == DashIcon
    ensures state != Victory && e.success && 0 < e.damage <= 30 ==>
      ResultIcon(state, e) == SparklesIcon && ResultClass(state, e) == "result-hit"
  {
  }

  /** The improvement tips are shown for an effectiveness of 3 or less. */
  predicate ShowsTips(e: Judgment) {
    e.effectiveness <= 3
  }

  /** What the card renders: the blocked view with the feedback text, or the
      scored view. */
  datatype View =
    | BlockedView(warning: string)
    | ScoredView(icon: string, text: string, cssClass: string,
                 effectiveness: int, damage: int, feedback: string, tips: bool)

  function Render(result: ShownResult, state: GameState): (v: View)
    ensures result.moderated ==> v == BlockedView(result.evaluation.feedback)
    ensures !result.moderated ==>
      (&& v.ScoredView? && v.feedback == result.evaluation.feedback
       && v.effectiveness == result.evaluation.effectiveness && v.damage == result.evaluation.damage
       && (v.tips <==> result.evaluation.effectiveness <= 3)
       && v.icon == ResultIcon(state, result.evaluation) && v.text == ResultText(state, result.evaluation)
       && v.cssClass == ResultClass(state, result.evaluation))
  {
    var e := result.evaluation;
    if result.moderated then BlockedView(e.feedback)
    else ScoredView(ResultIcon(state, e), ResultText(state, e), ResultClass(state, e),
                    e.effectiveness, e.damage, e.feedback, ShowsTips(e))
  }

  /** A moderated result renders the same blocked view whatever the game state
      and whatever the scores are: only the feedback text shows. */
  lemma ModeratedIgnoresScores(a: ShownResult, b: ShownResult, s: GameState, t: GameState)
    requires a.moderated && b.moderated && a.evaluation.feedback == b.evaluation.feedback
    ensures Render(a, s) == Render(b, t)
  {
  }

  /** Victory takes precedence over the scores in all three tables. */
  lemma VictoryFirst(e: Judgment)
    ensures ResultIcon(Victory, e) == TrophyIcon && ResultText(Victory, e) == "Victory!"
      && ResultClass(Victory, e) == "result-victory"
  {
  }
}
