/**
 * The world map screen's queries and its one piece of state
 * (frontend/src/components/WorldMap.js). `completed` and `defeated` are the
 * `completedStages` and `defeatedCreatures` props.
 */
module WorldMap {

  import opened Wrappers
  import opened Seqs
  import opened Creatures

  predicate IsCreatureDefeated(defeated: seq<string>, creatureId: string) {
    creatureId in defeated
  }

  predicate IsStageCompleted(completed: seq<string>, stageId: string) {
    stageId in completed
  }

  /** `getStageProgress` before formatting: `defeatedCount/total`. */
  datatype Progress = Progress(defeatedCount: nat, total: nat)

  function StageProgress(cat: Catalogue, defeated: seq<string>, worldId: string, stageId: string): (p: Progress)
    requires CreaturesResolve(cat)
    ensures p.defeatedCount <= p.total == |CreaturesByStage(cat, worldId, stageId)|
    ensures p.defeatedCount == p.total <==>
      var cs := CreaturesByStage(cat, worldId, stageId);
      forall i :: 0 <= i < |cs| ==> IsCreatureDefeated(defeated, cs[i].id)
    ensures p.defeatedCount > 0 <==>
      var cs := CreaturesByStage(cat, worldId, stageId);
      exists i :: 0 <= i < |cs| && IsCreatureDefeated(defeated, cs[i].id)
    ensures p.defeatedCount == Count(CreaturesByStage(cat, worldId, stageId), (c: Creature) => IsCreatureDefeated(defeated, c.id))
    ensures StageById(cat, worldId, stageId).None? ==> p == Progress(0, 0)
  {
    var cs := CreaturesByStage(cat, worldId, stageId);
    var isDefeated := (c: Creature) => IsCreatureDefeated(defeated, c.id);
    FilterLength(cs, isDefeated);
    Progress(|Filter(cs, isDefeated)|, |cs|)
  }

  /** `availableStages.some(a => a.id === stage.id)`. */
  predicate IsStageAvailable(cat: Catalogue, completed: seq<string>, stage: Stage) {
    exists a :: a in AvailableStages(cat, completed) && a.stage.id == stage.id
  }

  /** A stage is available exactly when its id is unlocked. */
  lemma AvailableIffUnlocked(cat: Catalogue, completed: seq<string>, stage: Stage)
    ensures IsStageAvailable(cat, completed, stage) <==> IsStageUnlocked(cat, stage.id, completed)
  {
    AvailableStagesMembers(cat, completed);
    if IsStageUnlocked(cat, stage.id, completed) {
      var s := LocateStage(cat.worlds, stage.id).value;
      var w :| w in cat.worlds && s in w.stages;
      var a := AvailableStage(s, w, s.id in completed);
      assert a in AvailableStages(cat, completed);
    }
  }

  /** `isWorldUnlocked`: the filter of available stages is not empty. */
  predicate IsWorldUnlocked(cat: Catalogue, completed: seq<string>, world: World) {
    |Filter(world.stages, (s: Stage) => IsStageAvailable(cat, completed, s))| > 0
  }

  /** The world card's completed/MASTERED state: the filter of completed stages
      keeps them all. */
  predicate IsWorldMastered(completed: seq<string>, world: World) {
    |Filter(world.stages, (s: Stage) => IsStageCompleted(completed, s.id))| == |world.stages|
  }

  lemma WorldUnlockedIff(cat: Catalogue, completed: seq<string>, world: World)
    ensures IsWorldUnlocked(cat, completed, world) <==>
      exists i :: 0 <= i < |world.stages| && IsStageUnlocked(cat, world.stages[i].id, completed)
  {
    FilterLength(world.stages, (s: Stage) => IsStageAvailable(cat, completed, s));
    forall i | 0 <= i < |world.stages|
      ensures IsStageAvailable(cat, completed, world.stages[i]) <==> IsStageUnlocked(cat, world.stages[i].id, completed)
    {
      AvailableIffUnlocked(cat, completed, world.stages[i]);
    }
  }

  lemma WorldMasteredIff(completed: seq<string>, world: World)
    ensures IsWorldMastered(completed, world) <==>
      forall i :: 0 <= i < |world.stages| ==> world.stages[i].id in completed
  {
    FilterLength(world.stages, (s: Stage) => IsStageCompleted(completed, s.id));
  }

  /** A creature card reacts to clicks iff its stage is available or completed. */
  predicate CanSelectCreature(stageAvailable: bool, stageCompleted: bool) {
    stageAvailable || stageCompleted
  }

  predicate ShowsLockedOverlay(stageAvailable: bool, stageCompleted: bool) {
    !stageAvailable && !stageCompleted
  }

  /** The locked overlay is shown on a stage exactly when it is neither unlocked
      nor completed, and then a click on its creatures selects nothing. */
  lemma LockedIffNotSelectable(cat: Catalogue, completed: seq<string>, stage: Stage, creatureId: string)
    ensures var locked := ShowsLockedOverlay(IsStageAvailable(cat, completed, stage), IsStageCompleted(completed, stage.id));
      && (locked <==> !IsStageUnlocked(cat, stage.id, completed) && stage.id !in completed)
      && (locked <==> ClickCreature(cat, completed, stage, creatureId).None?)
  {
    AvailableIffUnlocked(cat, completed, stage);
  }

  /** The creature a click on its card selects, if the card reacts. */
  function ClickCreature(cat: Catalogue, completed: seq<string>, stage: Stage, creatureId: string): (r: Option<string>)
    ensures r.Some? <==> IsStageUnlocked(cat, stage.id, completed) || stage.id in completed
    ensures r.Some? ==> r.value == creatureId
  {
    AvailableIffUnlocked(cat, completed, stage);
    if CanSelectCreature(IsStageAvailable(cat, completed, stage), IsStageCompleted(completed, stage.id))
    then Some(creatureId) else None
  }

  /** The `selectedWorld` state of the screen; the props are fixed for its lifetime. */
  class Screen {
    const cat: Catalogue
    const completed: seq<string>
    const defeated: seq<string>
    var selectedWorld: Option<World>

    constructor (cat: Catalogue, completed: seq<string>, defeated: seq<string>)
      ensures this.cat == cat && this.completed == completed && this.defeated == defeated
      ensures selectedWorld == None
    {
      this.cat := cat;
      this.completed := completed;
      this.defeated := defeated;
      selectedWorld := None;
    }

    /** The details view is rendered exactly when a world is selected. */
    predicate ShowsDetails()
      reads this
    {
      selectedWorld.Some?
    }

    /** The `d/n` a stage card of this screen shows, from the screen's own
        `defeatedCreatures` prop. */
    function StageCardProgress(worldId: string, stageId: string): (p: Progress)
      requires CreaturesResolve(cat)
      ensures p.total == |CreaturesByStage(cat, worldId, stageId)|
      ensures p.defeatedCount == Count(CreaturesByStage(cat, worldId, stageId),
                                       (c: Creature) => IsCreatureDefeated(defeated, c.id))
    {
      StageProgress(cat, defeated, worldId, stageId)
    }

    /** Clicking a world card selects it only when the world is unlocked. */
    method ClickWorld(world: World)
      modifies this
      ensures IsWorldUnlocked(cat, completed, world) ==> selectedWorld == Some(world) && ShowsDetails()
      ensures !IsWorldUnlocked(cat, completed, world) ==> selectedWorld == old(selectedWorld)
    {
      if IsWorldUnlocked(cat, completed, world) {
        selectedWorld := Some(world);
      }
    }

    /** The back button returns to the overview. */
    method Back()
      modifies this
      ensures selectedWorld == None && !ShowsDetails()
    {
      selectedWorld := None;
    }
  }
}
