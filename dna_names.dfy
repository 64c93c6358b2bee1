/**
 * The DNA-name override table of the name-conversion script, and the fact that every
 * spelled-out name is its key with spaces put back in.
 */
module DnaNames {
  import opened Wrappers
  import opened Text

  /** A word of a spelled-out DNA name. */
  type Word = w: string | ' ' !in w witness ""

  /**
   * `get_dna_name_mappings`, entry by entry in the script's order. Each entry is written as
   * the words of the spelled-out name (the value) and is named by its key, the same words
   * run together.
   */
  const DnaTable: seq<seq<Word>> := [
    BlessofBody,
    DesireforLife,
    AttentionAccuracy,
    ShieldHitAccuracy,
    ShieldIntensify,
    EquilibriumTime,
    RemedyCast,
    ShieldSence,
    SelfHeal,
    LightningShield,
    SelfLightningShockCast,
    BlessofMana,
    LightHeal,
    LightningShockCooltime,
    SelfLightningShock,
    LightHealCast,
    LightHealMana,
    HolyReflectionAccuracy,
    HolyReflectionTime,
    LightPartyHeal,
    LastDitch,
    DashCooltime,
    HammerTheButcher,
    BlessofBodyTime,
    DoubleHandMaster,
    BurningHell,
    IronPhysics,
    TwoHandMaster,
    Unblocking,
    FireBall,
    FlameThrower,
    CharmOfMana,
    FlameArrow,
    FlameNova,
    DutchCourage,
    BurningHellLonger,
    FlameThrowerCast,
    FlameShield,
    FireTotemCast,
    PlagueCharm,
    FireRain,
    FireRainCast,
    SpeedWeaponTime,
    LegStrikeTime,
    ConcentrateTime,
    RangeWeaponMaster,
    ArmourCrashComboTime,
    ScrewAttackTime,
    BloodBoltTime,
    VampireTouch,
    PrisonTime,
    BloodNailTime,
    PoisonNova,
    BloodBusterWide,
    TimeBomb
  ]

  const BlessofBody: seq<Word> := ["Bless", "of", "Body"]
  const DesireforLife: seq<Word> := ["Desire", "for", "Life"]
  const AttentionAccuracy: seq<Word> := ["Attention", "Accuracy"]
  const ShieldHitAccuracy: seq<Word> := ["Shield", "Hit", "Accuracy"]
  const ShieldIntensify: seq<Word> := ["Shield", "Intensify"]
  const EquilibriumTime: seq<Word> := ["Equilibrium", "Time"]
  const RemedyCast: seq<Word> := ["Remedy", "Cast"]
  const ShieldSence: seq<Word> := ["Shield", "Sence"]
  const SelfHeal: seq<Word> := ["Self", "Heal"]
  const LightningShield: seq<Word> := ["Lightning", "Shield"]
  const SelfLightningShockCast: seq<Word> := ["Self", "Lightning", "Shock", "Cast"]
  const BlessofMana: seq<Word> := ["Bless", "of", "Mana"]
  const LightHeal: seq<Word> := ["Light", "Heal"]
  const LightningShockCooltime: seq<Word> := ["Lightning", "Shock", "Cooltime"]
  const SelfLightningShock: seq<Word> := ["Self", "Lightning", "Shock"]
  const LightHealCast: seq<Word> := ["Light", "Heal", "Cast"]
  const LightHealMana: seq<Word> := ["Light", "Heal", "Mana"]
  const HolyReflectionAccuracy: seq<Word> := ["Holy", "Reflection", "Accuracy"]
  const HolyReflectionTime: seq<Word> := ["Holy", "Reflection", "Time"]
  const LightPartyHeal: seq<Word> := ["Light", "Party", "Heal"]
  const LastDitch: seq<Word> := ["Last", "Ditch"]
  const DashCooltime: seq<Word> := ["Dash", "Cooltime"]
  const HammerTheButcher: seq<Word> := ["Hammer", "The", "Butcher"]
  const BlessofBodyTime: seq<Word> := ["Bless", "of", "Body", "Time"]
  const DoubleHandMaster: seq<Word> := ["Double", "Hand", "Master"]
  const BurningHell: seq<Word> := ["Burning", "Hell"]
  const IronPhysics: seq<Word> := ["Iron", "Physics"]
  const TwoHandMaster: seq<Word> := ["Two", "Hand", "Master"]
  const Unblocking: seq<Word> := ["Unblocking"]
  const FireBall: seq<Word> := ["Fire", "Ball"]
  const FlameThrower: seq<Word> := ["Flame", "Thrower"]
  const CharmOfMana: seq<Word> := ["Charm", "Of", "Mana"]
  const FlameArrow: seq<Word> := ["Flame", "Arrow"]
  const FlameNova: seq<Word> := ["Flame", "Nova"]
  const DutchCourage: seq<Word> := ["Dutch", "Courage"]
  const BurningHellLonger: seq<Word> := ["Burning", "Hell", "Longer"]
  const FlameThrowerCast: seq<Word> := ["Flame", "Thrower", "Cast"]
  const FlameShield: seq<Word> := ["Flame", "Shield"]
  const FireTotemCast: seq<Word> := ["Fire", "Totem", "Cast"]
  const PlagueCharm: seq<Word> := ["Plague", "Charm"]
  const FireRain: seq<Word> := ["Fire", "Rain"]
  const FireRainCast: seq<Word> := ["Fire", "Rain", "Cast"]
  const SpeedWeaponTime: seq<Word> := ["Speed", "Weapon", "Time"]
  const LegStrikeTime: seq<Word> := ["Leg", "Strike", "Time"]
  const ConcentrateTime: seq<Word> := ["Concentrate", "Time"]
  const RangeWeaponMaster: seq<Word> := ["Range", "Weapon", "Master"]
  const ArmourCrashComboTime: seq<Word> := ["Armour", "Crash", "Combo", "Time"]
  const ScrewAttackTime: seq<Word> := ["Screw", "Attack", "Time"]
  const BloodBoltTime: seq<Word> := ["Blood", "Bolt", "Time"]
  const VampireTouch: seq<Word> := ["Vampire", "Touch"]
  const PrisonTime: seq<Word> := ["Prison", "Time"]
  const BloodNailTime: seq<Word> := ["Blood", "Nail", "Time"]
  const PoisonNova: seq<Word> := ["Poison", "Nova"]
  const BloodBusterWide: seq<Word> := ["Blood", "Buster", "Wide"]
  const TimeBomb: seq<Word> := ["Time", "Bomb"]

  /** The key of an entry: its words with nothing between them. */
  function Key(words: seq<Word>): string
  {
    Concat(words)
  }

  /** The spelled-out name of an entry: its words joined by single spaces. */
  function Spelled(words: seq<Word>): string
  {
    JoinWith(words, ' ')
  }

  /** The entry a dict built from `entries` keeps for `name`: the last one with that key. */
  function Lookup(entries: seq<seq<Word>>, name: string): (r: Option<seq<Word>>)
    ensures r.Some? <==> exists i :: 0 <= i < |entries| && Key(entries[i]) == name
    ensures r.Some? ==> r.value in entries && Key(r.value) == name
  {
    if |entries| == 0 then None
    else if Key(entries[|entries| - 1]) == name then Some(entries[|entries| - 1])
    else
      var r := Lookup(entries[..|entries| - 1], name);
      assert forall i :: 0 <= i < |entries| - 1 ==> entries[..|entries| - 1][i] == entries[i];
      r
  }

  /** The override for a space-free DNA name, if the table has one. */
  function DnaName(name: string): (r: Option<string>)
    ensures r.Some? <==> exists i :: 0 <= i < |DnaTable| && Key(DnaTable[i]) == name
  {
    match Lookup(DnaTable, name)
    case None => None
    case Some(words) => Some(Spelled(words))
  }

  /** Removing the spaces from every override value gives back its key. */
  lemma DnaNameDespaced(name: string)
    requires DnaName(name).Some?
    ensures Delete(DnaName(name).value, ' ') == name
  {
    var words := Lookup(DnaTable, name).value;
    DeleteJoin(words, ' ');
  }

  /** A key holds no space: it is space-free words run together. */
  lemma {:induction false} KeyNoSpace(words: seq<Word>)
    ensures ' ' !in Key(words)
  {
    if |words| > 0 {
      KeyNoSpace(words[1..]);
      assert Key(words) == words[0] + Key(words[1..]);
    }
  }

  /** Only a name without spaces can have an override. */
  lemma OverriddenNameHasNoSpace(name: string)
    requires DnaName(name).Some?
    ensures ' ' !in name
  {
    KeyNoSpace(Lookup(DnaTable, name).value);
  }
}
