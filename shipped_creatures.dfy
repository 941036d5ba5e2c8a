/**
 * The catalogue the game ships (frontend/src/data/creatures.js): the three
 * worlds with their six stages and the eleven creatures keyed by id.
 */
module ShippedCreatures {

  import opened Creatures

  const ElementalBasic := Stage("elemental_basic", "Basic Elements", ["fireDragon", "earthGolem"], [])
  const ElementalAdvanced := Stage("elemental_advanced", "Elemental Masters", ["iceSerpent", "stormEagle"], ["elemental_basic"])
  const ShadowBasic := Stage("shadow_basic", "Realm of Shadows", ["shadowWraith", "wiseLion"], ["elemental_basic", "elemental_advanced"])
  const ShadowAdvanced := Stage("shadow_advanced", "Nightmare Depths", ["nightmareHound", "voidPhantom"], ["shadow_basic"])
  const SanctumGuardians := Stage("sanctum_guardians", "Temple Guardians", ["crystalGuardian", "timeKeeper"], ["shadow_basic", "shadow_advanced"])
  const SanctumFinal := Stage("sanctum_final", "The Oracle's Chamber", ["ancientOracle"], ["sanctum_guardians"])

  const Worlds: seq<World> := [
    World("elementalRealm", "Elemental Realm", [ElementalBasic, ElementalAdvanced]),
    World("shadowKingdom", "Shadow Kingdom", [ShadowBasic, ShadowAdvanced]),
    World("ancientSanctum", "Ancient Sanctum", [SanctumGuardians, SanctumFinal])]

  const FireDragon := Creature("fireDragon", "Fire Dragon", 100, "ice and water magic",
                               "elementalRealm", "elemental_basic", false, [])

  const AncientOracle := Creature("ancientOracle", "Ancient AI Oracle", 300, "adaptive - changes based on battle phase",
    "ancientSanctum", "sanctum_final", true, [
      Phase(1, 100, "clarity and specificity"),
      Phase(2, 100, "logical reasoning and chain-of-thought"),
      Phase(3, 100, "creativity, context, and advanced techniques")])

  const EarthGolem := Creature("earthGolem", "Earth Golem", 150, "erosion, plant magic, and weathering",
    "elementalRealm", "elemental_basic", false, [])
  const IceSerpent := Creature("iceSerpent", "Ice Serpent", 120, "detailed thermal magic and precise temperature control",
    "elementalRealm", "elemental_advanced", false, [])
  const StormEagle := Creature("stormEagle", "Storm Eagle", 110, "structured, step-by-step reasoning and systematic approaches",
    "elementalRealm", "elemental_advanced", false, [])
  const ShadowWraith := Creature("shadowWraith", "Shadow Wraith", 80, "light magic and positive emotions",
    "shadowKingdom", "shadow_basic", false, [])
  const WiseLion := Creature("wiseLion", "Wise Lion", 120, "logical reasoning and clever solutions",
    "shadowKingdom", "shadow_basic", false, [])
  const NightmareHound := Creature("nightmareHound", "Nightmare Hound", 140, "role-playing, creative narratives, and storytelling approaches",
    "shadowKingdom", "shadow_advanced", false, [])
  const VoidPhantom := Creature("voidPhantom", "Void Phantom", 130, "explicit constraints, context setting, and boundary definitions",
    "shadowKingdom", "shadow_advanced", false, [])
  const CrystalGuardian := Creature("crystalGuardian", "Crystal Guardian", 160, "chain-of-thought reasoning and explicit thinking processes",
    "ancientSanctum", "sanctum_guardians", false, [])
  const TimeKeeper := Creature("timeKeeper", "Time Keeper", 150, "meta-cognitive approaches and self-reflective reasoning",
    "ancientSanctum", "sanctum_guardians", false, [])

  const CreatureTable: map<string, Creature> := map[
    "fireDragon" := FireDragon,
    "earthGolem" := EarthGolem,
    "iceSerpent" := IceSerpent,
    "stormEagle" := StormEagle,
    "shadowWraith" := ShadowWraith,
    "wiseLion" := WiseLion,
    "nightmareHound" := NightmareHound,
    "voidPhantom" := VoidPhantom,
    "crystalGuardian" := CrystalGuardian,
    "timeKeeper" := TimeKeeper,
    "ancientOracle" := AncientOracle]

  const Game := Catalogue(Worlds, CreatureTable)

  function PhaseHealthSum(phases: seq<Phase>): nat {
    if phases == [] then 0 else phases[0].phaseHealth + PhaseHealthSum(phases[1..])
  }

  /** The boss's `maxHealth` (300) is the sum of its phase healths (100 + 100 + 100). */
  lemma BossHealthIsSumOfPhases()
    ensures CreatureTable["ancientOracle"].isBoss
    ensures CreatureTable["ancientOracle"].maxHealth == PhaseHealthSum(CreatureTable["ancientOracle"].phases) == 300
  {
  }

  /** `id` is in the table, and its entry records that id, world and stage. */
  predicate Recorded(id: string, worldId: string, stageId: string) {
    id in CreatureTable && CreatureTable[id].id == id
      && CreatureTable[id].world == worldId && CreatureTable[id].stage == stageId
  }

  /** Every creature stage `s` of world `worldId` lists is recorded there. */
  predicate StageRecorded(worldId: string, s: Stage) {
    forall i :: 0 <= i < |s.creatures| ==> Recorded(s.creatures[i], worldId, s.id)
  }

  lemma ElementalBasicRecorded()
    ensures StageRecorded("elementalRealm", ElementalBasic)
  {
  }

  lemma ElementalAdvancedRecorded()
    ensures StageRecorded("elementalRealm", ElementalAdvanced)
  {
  }

  lemma ShadowBasicRecorded()
    ensures StageRecorded("shadowKingdom", ShadowBasic)
  {
  }

  lemma ShadowAdvancedRecorded()
    ensures StageRecorded("shadowKingdom", ShadowAdvanced)
  {
  }

  lemma SanctumGuardiansRecorded()
    ensures StageRecorded("ancientSanctum", SanctumGuardians)
  {
  }

  lemma SanctumFinalRecorded()
    ensures StageRecorded("ancientSanctum", SanctumFinal)
  {
  }

  /** Every stage of the shipped catalogue names creatures that exist, and each
      of them records that world and stage. */
  lemma GameCreaturesResolve()
    ensures CreaturesResolve(Game)
    ensures forall w, s, id :: w in Game.worlds && s in w.stages && id in s.creatures ==>
      Game.creatures[id].id == id && Game.creatures[id].world == w.id && Game.creatures[id].stage == s.id
  {
    ElementalBasicRecorded();
    ElementalAdvancedRecorded();
    ShadowBasicRecorded();
    ShadowAdvancedRecorded();
    SanctumGuardiansRecorded();
    SanctumFinalRecorded();
    forall w, s, id | w in Game.worlds && s in w.stages && id in s.creatures
      ensures Recorded(id, w.id, s.id)
    {
      assert w == Worlds[0] || w == Worlds[1] || w == Worlds[2];
      assert StageRecorded(w.id, s);
      var i :| 0 <= i < |s.creatures| && s.creatures[i] == id;
    }
  }
}
