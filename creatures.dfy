/**
 * The world/stage/creature catalogue and its queries (frontend/src/data/creatures.js).
 * The queries are stated for any catalogue; `Game` is the shipped one.
 * Display copy (descriptions, images, story text, hints) is not modelled.
 */
module Creatures {

  import opened Wrappers

  datatype Phase = Phase(phase: nat, phaseHealth: nat, weakness: string)

  datatype Creature = Creature(
    id: string, name: string, maxHealth: nat, weakness: string,
    world: string, stage: string, isBoss: bool, phases: seq<Phase>)

  datatype Stage = Stage(id: string, name: string, creatures: seq<string>, requiredToUnlock: seq<string>)

  datatype World = World(id: string, name: string, stages: seq<Stage>)

  /** `worlds` in `Object.values` order, and `creatures` keyed by id. */
  datatype Catalogue = Catalogue(worlds: seq<World>, creatures: map<string, Creature>)

  /** A `getAvailableStages` entry: the stage, its world, and `isCompleted`. */
  datatype AvailableStage = AvailableStage(stage: Stage, world: World, isCompleted: bool)

  // ---------------------------------------------------------------- lookups

  /** `worlds[worldId]`: the world stored under that key (keys are the ids). */
  function WorldById(cat: Catalogue, worldId: string): (r: Option<World>)
    ensures r.Some? ==> r.value in cat.worlds && r.value.id == worldId
    ensures r.None? ==> forall w :: w in cat.worlds ==> w.id != worldId
  {
    FindWorld(cat.worlds, worldId)
  }

  function FindWorld(ws: seq<World>, worldId: string): (r: Option<World>)
    ensures r.Some? ==> r.value in ws && r.value.id == worldId
    ensures r.None? ==> forall w :: w in ws ==> w.id != worldId
  {
    if ws == [] then None
    else if ws[0].id == worldId then Some(ws[0])
    else FindWorld(ws[1..], worldId)
  }

  /** `stages.find(s => s.id === stageId)`: the first stage with that id. */
  function FindStage(stages: seq<Stage>, stageId: string): (r: Option<Stage>)
    ensures r.Some? ==> r.value in stages && r.value.id == stageId
    ensures r.None? <==> forall s :: s in stages ==> s.id != stageId
  {
    if stages == [] then None
    else if stages[0].id == stageId then Some(stages[0])
    else FindStage(stages[1..], stageId)
  }

  /** No stage before position `i` has the id. */
  predicate NoStageBefore(stages: seq<Stage>, stageId: string, i: nat)
    requires i <= |stages|
  {
    forall j :: 0 <= j < i ==> stages[j].id != stageId
  }

  /** `find` returns the first stage with the id: none before it has that id. */
  lemma {:induction false} FindStageIsFirst(stages: seq<Stage>, stageId: string)
    ensures FindStage(stages, stageId).Some? ==>
      exists i :: && 0 <= i < |stages| && stages[i] == FindStage(stages, stageId).value
                  && NoStageBefore(stages, stageId, i)
  {
    if stages == [] {
    } else if stages[0].id == stageId {
      assert NoStageBefore(stages, stageId, 0);
    } else {
      var rest := stages[1..];
      assert FindStage(stages, stageId) == FindStage(rest, stageId);
      FindStageIsFirst(rest, stageId);
      if FindStage(rest, stageId).Some? {
        var i :| && 0 <= i < |rest| && rest[i] == FindStage(rest, stageId).value
                 && NoStageBefore(rest, stageId, i);
        assert stages[i + 1] == rest[i];
        assert NoStageBefore(stages, stageId, i + 1) by {
          forall j | 0 <= j < i + 1 ensures stages[j].id != stageId {
            if j > 0 { assert stages[j] == rest[j - 1]; }
          }
        }
      }
    }
  }

  /** `getStageById(worldId, stageId)`. */
  function StageById(cat: Catalogue, worldId: string, stageId: string): (r: Option<Stage>)
    ensures r.Some? ==> exists w :: w in cat.worlds && w.id == worldId && r.value in w.stages
    ensures r.Some? ==> r.value.id == stageId
    ensures r.None? <==>
      WorldById(cat, worldId).None? || forall s :: s in WorldById(cat, worldId).value.stages ==> s.id != stageId
  {
    match WorldById(cat, worldId)
    case None => None
    case Some(w) => FindStage(w.stages, stageId)
  }

  /** Every creature id listed by a stage has an entry in `creatures`. */
  ghost predicate CreaturesResolve(cat: Catalogue) {
    forall w, s, id :: w in cat.worlds && s in w.stages && id in s.creatures ==> id in cat.creatures
  }

  ghost predicate StagesResolve(cat: Catalogue, stages: seq<Stage>) {
    forall s, id :: s in stages && id in s.creatures ==> id in cat.creatures
  }

  ghost predicate IdsResolve(cat: Catalogue, ids: seq<string>) {
    forall id :: id in ids ==> id in cat.creatures
  }

  /** `ids.map(id => creatures[id])`. */
  function CreaturesOf(cat: Catalogue, ids: seq<string>): (r: seq<Creature>)
    requires IdsResolve(cat, ids)
    ensures |r| == |ids|
    ensures forall i :: 0 <= i < |ids| ==> r[i] == cat.creatures[ids[i]]
  {
    if ids == [] then [] else CreaturesOf(cat, ids[..|ids| - 1]) + [cat.creatures[ids[|ids| - 1]]]
  }

  /** `getCreaturesByStage`: `[]` for an unknown world or stage, otherwise the
      stage's creatures in listed order. */
  function CreaturesByStage(cat: Catalogue, worldId: string, stageId: string): (r: seq<Creature>)
    requires CreaturesResolve(cat)
    ensures StageById(cat, worldId, stageId).None? ==> r == []
    ensures StageById(cat, worldId, stageId).Some? ==>
      var ids := StageById(cat, worldId, stageId).value.creatures;
      |r| == |ids| && forall i :: 0 <= i < |ids| ==> r[i] == cat.creatures[ids[i]]
  {
    match StageById(cat, worldId, stageId)
    case None => []
    case Some(s) => CreaturesOf(cat, s.creatures)
  }

  // ---------------------------------------------------------------- unlocking

  /** The stage `isStageUnlocked` consults: the first match in the first world
      that has one. */
  function LocateStage(ws: seq<World>, stageId: string): (r: Option<Stage>)
    ensures r.Some? ==> r.value.id == stageId && exists w :: w in ws && r.value in w.stages
    ensures r.None? <==> forall w, s :: w in ws && s in w.stages ==> s.id != stageId
  {
    if ws == [] then None
    else match FindStage(ws[0].stages, stageId)
      case Some(s) => Some(s)
      case None => LocateStage(ws[1..], stageId)
  }

  /** No world before position `i` has a stage with the id. */
  predicate NoMatchBefore(ws: seq<World>, stageId: string, i: nat)
    requires i <= |ws|
  {
    forall j :: 0 <= j < i ==> FindStage(ws[j].stages, stageId).None?
  }

  /** The stage found is the first match in the first world that has one: every
      earlier world has no stage with the id. */
  lemma {:induction false} LocateStageIsFirst(ws: seq<World>, stageId: string)
    ensures LocateStage(ws, stageId).Some? ==>
      exists i :: && 0 <= i < |ws| && LocateStage(ws, stageId) == FindStage(ws[i].stages, stageId)
                  && NoMatchBefore(ws, stageId, i)
  {
    if ws == [] {
    } else if FindStage(ws[0].stages, stageId).Some? {
      assert LocateStage(ws, stageId) == FindStage(ws[0].stages, stageId);
      assert NoMatchBefore(ws, stageId, 0);
    } else {
      var rest := ws[1..];
      assert LocateStage(ws, stageId) == LocateStage(rest, stageId);
      LocateStageIsFirst(rest, stageId);
      if LocateStage(rest, stageId).Some? {
        var i :| && 0 <= i < |rest| && LocateStage(rest, stageId) == FindStage(rest[i].stages, stageId)
                 && NoMatchBefore(rest, stageId, i);
        ShiftNoMatch(ws, stageId, i);
        assert ws[i + 1] == rest[i];
      }
    }
  }

  lemma ShiftNoMatch(ws: seq<World>, stageId: string, i: nat)
    requires 0 < |ws| && i < |ws| - 1
    requires FindStage(ws[0].stages, stageId).None? && NoMatchBefore(ws[1..], stageId, i)
    ensures NoMatchBefore(ws, stageId, i + 1)
  {
    forall j | 0 <= j < i + 1 ensures FindStage(ws[j].stages, stageId).None? {
      if j > 0 { assert ws[j] == ws[1..][j - 1]; }
    }
  }

  /** `isStageUnlocked(stageId, completedStages)`. */
  predicate IsStageUnlocked(cat: Catalogue, stageId: string, completed: seq<string>) {
    match LocateStage(cat.worlds, stageId)
    case None => false
    case Some(s) => forall r :: r in s.requiredToUnlock ==> r in completed
  }

  /** Unlocked exactly when the stage exists and all its requirements are completed;
      a stage with no requirements is always unlocked, an unknown id never. */
  lemma UnlockedIff(cat: Catalogue, stageId: string, completed: seq<string>)
    ensures IsStageUnlocked(cat, stageId, completed) <==>
      LocateStage(cat.worlds, stageId).Some?
      && forall r :: r in LocateStage(cat.worlds, stageId).value.requiredToUnlock ==> r in completed
    ensures LocateStage(cat.worlds, stageId).Some? && LocateStage(cat.worlds, stageId).value.requiredToUnlock == []
            ==> IsStageUnlocked(cat, stageId, completed)
    ensures (forall w, s :: w in cat.worlds && s in w.stages ==> s.id != stageId)
            ==> !IsStageUnlocked(cat, stageId, completed)
  {
  }

  /** Completing more stages never locks a stage. */
  lemma UnlockMonotone(cat: Catalogue, stageId: string, c: seq<string>, d: seq<string>)
    requires forall x :: x in c ==> x in d
    requires IsStageUnlocked(cat, stageId, c)
    ensures IsStageUnlocked(cat, stageId, d)
  {
  }

  // ---------------------------------------------------------------- available stages

  function Entry(cat: Catalogue, w: World, s: Stage, completed: seq<string>): seq<AvailableStage> {
    if IsStageUnlocked(cat, s.id, completed) then [AvailableStage(s, w, s.id in completed)] else []
  }

  /** The available entries of the stages `stages` of world `w`, in order. */
  function AvailableInStages(cat: Catalogue, w: World, stages: seq<Stage>, completed: seq<string>): seq<AvailableStage>
  {
    if stages == [] then []
    else AvailableInStages(cat, w, stages[..|stages| - 1], completed) + Entry(cat, w, stages[|stages| - 1], completed)
  }

  /** The available entries of the worlds `ws`, world order then stage order. */
  function AvailableInWorlds(cat: Catalogue, ws: seq<World>, completed: seq<string>): seq<AvailableStage>
  {
    if ws == [] then []
    else AvailableInWorlds(cat, ws[..|ws| - 1], completed)
         + AvailableInStages(cat, ws[|ws| - 1], ws[|ws| - 1].stages, completed)
  }

  /** What `getAvailableStages(completed)` returns. */
  function AvailableStages(cat: Catalogue, completed: seq<string>): seq<AvailableStage> {
    AvailableInWorlds(cat, cat.worlds, completed)
  }

  /** `getAvailableStages`: two nested loops pushing each unlocked stage. */
  method GetAvailableStages(cat: Catalogue, completed: seq<string>) returns (available: seq<AvailableStage>)
    ensures available == AvailableStages(cat, completed)
  {
    available := [];
    var i := 0;
    while i < |cat.worlds|
      invariant 0 <= i <= |cat.worlds|
      invariant available == AvailableInWorlds(cat, cat.worlds[..i], completed)
    {
      var w := cat.worlds[i];
      var j := 0;
      ghost var before := available;
      while j < |w.stages|
        invariant 0 <= j <= |w.stages|
        invariant available == before + AvailableInStages(cat, w, w.stages[..j], completed)
      {
        var s := w.stages[j];
        if IsStageUnlocked(cat, s.id, completed) {
          available := available + [AvailableStage(s, w, s.id in completed)];
        }
        AvailableInStagesSnoc(cat, w, w.stages, j, completed);
        j := j + 1;
      }
      assert w.stages[..|w.stages|] == w.stages;
      AvailableInWorldsSnoc(cat, cat.worlds, i, completed);
      i := i + 1;
    }
    assert cat.worlds[..|cat.worlds|] == cat.worlds;
  }

  lemma AvailableInStagesSnoc(cat: Catalogue, w: World, stages: seq<Stage>, j: nat, completed: seq<string>)
    requires j < |stages|
    ensures AvailableInStages(cat, w, stages[..j + 1], completed)
            == AvailableInStages(cat, w, stages[..j], completed) + Entry(cat, w, stages[j], completed)
  {
    assert stages[..j + 1][..j] == stages[..j];
  }

  lemma AvailableInWorldsSnoc(cat: Catalogue, ws: seq<World>, i: nat, completed: seq<string>)
    requires i < |ws|
    ensures AvailableInWorlds(cat, ws[..i + 1], completed)
            == AvailableInWorlds(cat, ws[..i], completed) + AvailableInStages(cat, ws[i], ws[i].stages, completed)
  {
    assert ws[..i + 1][..i] == ws[..i];
  }

  lemma {:induction false} AvailableInStagesMembers(cat: Catalogue, w: World, stages: seq<Stage>, completed: seq<string>)
    ensures forall a :: a in AvailableInStages(cat, w, stages, completed) <==>
      a.world == w && a.stage in stages && IsStageUnlocked(cat, a.stage.id, completed)
      && a.isCompleted == (a.stage.id in completed)
  {
    if stages != [] {
      var init := stages[..|stages| - 1];
      AvailableInStagesMembers(cat, w, init, completed);
      assert stages == init + [stages[|stages| - 1]];
    }
  }

  lemma {:induction false} AvailableInWorldsMembers(cat: Catalogue, ws: seq<World>, completed: seq<string>)
    ensures forall a :: a in AvailableInWorlds(cat, ws, completed) <==>
      a.world in ws && a.stage in a.world.stages && IsStageUnlocked(cat, a.stage.id, completed)
      && a.isCompleted == (a.stage.id in completed)
  {
    if ws != [] {
      var init := ws[..|ws| - 1];
      var last := ws[|ws| - 1];
      AvailableInWorldsMembers(cat, init, completed);
      AvailableInStagesMembers(cat, last, last.stages, completed);
      assert ws == init + [last];
    }
  }

  /** `getAvailableStages` lists exactly the unlocked stages, each with its world
      and tagged completed exactly when its id is in `completed`. */
  lemma AvailableStagesMembers(cat: Catalogue, completed: seq<string>)
    ensures forall a :: a in AvailableStages(cat, completed) <==>
      a.world in cat.worlds && a.stage in a.world.stages && IsStageUnlocked(cat, a.stage.id, completed)
      && a.isCompleted == (a.stage.id in completed)
  {
    AvailableInWorldsMembers(cat, cat.worlds, completed);
  }

  // ---------------------------------------------------------------- all creatures

  function CreaturesInStages(cat: Catalogue, stages: seq<Stage>): seq<Creature>
    requires StagesResolve(cat, stages)
  {
    if stages == [] then []
    else CreaturesInStages(cat, stages[..|stages| - 1]) + CreaturesOf(cat, stages[|stages| - 1].creatures)
  }

  function CreaturesInWorlds(cat: Catalogue, ws: seq<World>): seq<Creature>
    requires forall w, s, id :: w in ws && s in w.stages && id in s.creatures ==> id in cat.creatures
  {
    if ws == [] then []
    else CreaturesInWorlds(cat, ws[..|ws| - 1]) + CreaturesInStages(cat, ws[|ws| - 1].stages)
  }

  /** How many creature ids the stages list, summed stage by stage. */
  function CreatureCount(stages: seq<Stage>): nat {
    if stages == [] then 0 else |stages[0].creatures| + CreatureCount(stages[1..])
  }

  function WorldsCreatureCount(ws: seq<World>): nat {
    if ws == [] then 0 else CreatureCount(ws[0].stages) + WorldsCreatureCount(ws[1..])
  }

  /** `getAllCreaturesInOrder`: three nested loops, world, stage, creature;
      the two inner loops are `AppendWorldCreatures`. */
  method GetAllCreaturesInOrder(cat: Catalogue) returns (ordered: seq<Creature>)
    requires CreaturesResolve(cat)
    ensures ordered == CreaturesInWorlds(cat, cat.worlds)
    ensures |ordered| == WorldsCreatureCount(cat.worlds)
  {
    ordered := [];
    var i := 0;
    while i < |cat.worlds|
      invariant 0 <= i <= |cat.worlds|
      invariant ordered == CreaturesInWorlds(cat, cat.worlds[..i])
    {
      assert StagesResolve(cat, cat.worlds[i].stages) by { assert cat.worlds[i] in cat.worlds; }
      ordered := AppendWorldCreatures(cat, cat.worlds[i], ordered);
      CreaturesInWorldsSnoc(cat, cat.worlds, i);
      i := i + 1;
    }
    assert cat.worlds[..|cat.worlds|] == cat.worlds;
    WorldsCount(cat, cat.worlds);
  }

  /** The body of the world loop: push the creatures of each stage of `w`. */
  method AppendWorldCreatures(cat: Catalogue, w: World, ordered0: seq<Creature>) returns (ordered: seq<Creature>)
    requires StagesResolve(cat, w.stages)
    ensures ordered == ordered0 + CreaturesInStages(cat, w.stages)
  {
    ordered := ordered0;
    var j := 0;
    while j < |w.stages|
      invariant 0 <= j <= |w.stages|
      invariant StagesResolve(cat, w.stages[..j])
      invariant ordered == ordered0 + CreaturesInStages(cat, w.stages[..j])
    {
      assert IdsResolve(cat, w.stages[j].creatures) by { assert w.stages[j] in w.stages; }
      assert StagesResolve(cat, w.stages[..j + 1]) by { assert w.stages[..j + 1] == w.stages[..j] + [w.stages[j]]; }
      ghost var before := ordered;
      ordered := AppendStageCreatures(cat, w.stages[j].creatures, ordered);
      CreaturesInStagesSnoc(cat, w.stages, j);
      ConcatAssociative(ordered0, CreaturesInStages(cat, w.stages[..j]), CreaturesOf(cat, w.stages[j].creatures));
      j := j + 1;
    }
    assert w.stages[..|w.stages|] == w.stages;
  }

  /** The body of the stage loop: push the creature of each listed id. */
  method AppendStageCreatures(cat: Catalogue, ids: seq<string>, ordered0: seq<Creature>) returns (ordered: seq<Creature>)
    requires IdsResolve(cat, ids)
    ensures ordered == ordered0 + CreaturesOf(cat, ids)
  {
    ordered := ordered0;
    var k := 0;
    while k < |ids|
      invariant 0 <= k <= |ids|
      invariant ordered == ordered0 + CreaturesOf(cat, ids[..k])
    {
      ordered := ordered + [cat.creatures[ids[k]]];
      CreaturesOfSnoc(cat, ids, k);
      k := k + 1;
    }
    assert ids[..|ids|] == ids;
  }

  lemma ConcatAssociative<T>(a: seq<T>, b: seq<T>, c: seq<T>)
    ensures (a + b) + c == a + (b + c)
  {
  }

  lemma CreaturesOfSnoc(cat: Catalogue, ids: seq<string>, k: nat)
    requires k < |ids| && IdsResolve(cat, ids)
    ensures CreaturesOf(cat, ids[..k + 1]) == CreaturesOf(cat, ids[..k]) + [cat.creatures[ids[k]]]
  {
    assert ids[..k + 1][..k] == ids[..k];
  }

  lemma CreaturesInStagesSnoc(cat: Catalogue, stages: seq<Stage>, j: nat)
    requires j < |stages| && StagesResolve(cat, stages)
    ensures CreaturesInStages(cat, stages[..j + 1])
            == CreaturesInStages(cat, stages[..j]) + CreaturesOf(cat, stages[j].creatures)
  {
    assert stages[..j + 1][..j] == stages[..j];
  }

  lemma CreaturesInWorldsSnoc(cat: Catalogue, ws: seq<World>, i: nat)
    requires i < |ws| && forall w, s, id :: w in ws && s in w.stages && id in s.creatures ==> id in cat.creatures
    ensures CreaturesInWorlds(cat, ws[..i + 1])
            == CreaturesInWorlds(cat, ws[..i]) + CreaturesInStages(cat, ws[i].stages)
  {
    assert ws[..i + 1][..i] == ws[..i];
  }

  lemma {:induction false} CountSnoc(stages: seq<Stage>)
    requires stages != []
    ensures CreatureCount(stages) == CreatureCount(stages[..|stages| - 1]) + |stages[|stages| - 1].creatures|
  {
    if |stages| > 1 {
      assert stages[1..][..|stages[1..]| - 1] == stages[..|stages| - 1][1..];
      CountSnoc(stages[1..]);
    }
  }

  lemma {:induction false} WorldsCountSnoc(ws: seq<World>)
    requires ws != []
    ensures WorldsCreatureCount(ws) == WorldsCreatureCount(ws[..|ws| - 1]) + CreatureCount(ws[|ws| - 1].stages)
  {
    if |ws| > 1 {
      assert ws[1..][..|ws[1..]| - 1] == ws[..|ws| - 1][1..];
      WorldsCountSnoc(ws[1..]);
    }
  }

  lemma {:induction false} StagesCount(cat: Catalogue, stages: seq<Stage>)
    requires StagesResolve(cat, stages)
    ensures |CreaturesInStages(cat, stages)| == CreatureCount(stages)
  {
    if stages != [] {
      StagesCount(cat, stages[..|stages| - 1]);
      CountSnoc(stages);
    }
  }

  /** The creature list is as long as the stages' creature lists put together. */
  lemma {:induction false} WorldsCount(cat: Catalogue, ws: seq<World>)
    requires forall w, s, id :: w in ws && s in w.stages && id in s.creatures ==> id in cat.creatures
    ensures |CreaturesInWorlds(cat, ws)| == WorldsCreatureCount(ws)
  {
    if ws != [] {
      WorldsCount(cat, ws[..|ws| - 1]);
      StagesCount(cat, ws[|ws| - 1].stages);
      WorldsCountSnoc(ws);
    }
  }
}
