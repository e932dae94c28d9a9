/**
 * The RPG stat calculator: eight integer stats, a per-class default stat
 * table, equipment whose main stat lands in a class-dependent component, a
 * character holding at most one item per slot, its total stats (base plus the
 * component-wise sum over the equipped items) and its per-class damage.
 *
 * The C++ enum `CharacterClass` can hold values other than its four
 * enumerators; the `default:` branches of the program give those all-zero
 * stats, so the model has a fifth case `Unlisted` for them. `NUM_SLOTS` is a
 * count, not a slot, and is not a `SlotType` here.
 */
module Rpg {

  datatype CharacterClass = Defender | Healer | MeleeFighter | RangedFighter | Unlisted

  datatype SlotType = Helmet | Shoulders | Gloves | Cloak | Weapon

  datatype Stats = Stats(health: int, armor: int, strength: int, intellect: int,
                         agility: int, accuracy: int, luck: int, mastery: int)

  /** A default-constructed `Stats`. */
  const Zero := Stats(0, 0, 0, 0, 0, 0, 0, 0)

  /** Component-wise sum. */
  function Add(a: Stats, b: Stats): Stats {
    Stats(a.health + b.health, a.armor + b.armor, a.strength + b.strength,
          a.intellect + b.intellect, a.agility + b.agility, a.accuracy + b.accuracy,
          a.luck + b.luck, a.mastery + b.mastery)
  }

  predicate NonNegative(s: Stats) {
    s.health >= 0 && s.armor >= 0 && s.strength >= 0 && s.intellect >= 0 &&
    s.agility >= 0 && s.accuracy >= 0 && s.luck >= 0 && s.mastery >= 0
  }

  /** `getDefaultStats`: the fixed starting stats of each class, all zeros for any other value. */
  function DefaultStats(cls: CharacterClass): (r: Stats)
    ensures r == Zero <==> cls == Unlisted
    ensures NonNegative(r)
  {
    match cls
    case Defender => Stats(100, 50, 10, 5, 5, 5, 5, 5)
    case Healer => Stats(80, 30, 5, 10, 5, 5, 5, 5)
    case MeleeFighter => Stats(90, 40, 10, 5, 10, 5, 5, 5)
    case RangedFighter => Stats(70, 20, 5, 10, 10, 5, 5, 5)
    case Unlisted => Zero
  }

  datatype Equipment = Equipment(stats: Stats, slotType: SlotType, name: string)

  /** The component an item's main stat goes into for a class (0 for an unlisted class). */
  function MainStat(cls: CharacterClass, s: Stats): int {
    match cls
    case Defender => s.strength
    case Healer => s.intellect
    case MeleeFighter => s.agility
    case RangedFighter => s.agility
    case Unlisted => 0
  }

  /**
   * The `Equipment` constructor: health and armor as given, the main stat in
   * the class's component and no other primary stat, accuracy and luck both the
   * first secondary stat, mastery the second.
   */
  function MakeEquipment(slot: SlotType, name: string, health: int, armor: int,
                         mainStat: int, secondary1: int, secondary2: int,
                         cls: CharacterClass): (e: Equipment)
    ensures e.slotType == slot && e.name == name
    ensures e.stats.health == health && e.stats.armor == armor
    ensures e.stats.accuracy == secondary1 && e.stats.luck == secondary1
    ensures e.stats.mastery == secondary2
    ensures cls != Unlisted ==> MainStat(cls, e.stats) == mainStat
    ensures e.stats.strength == (if cls == Defender then mainStat else 0)
    ensures e.stats.intellect == (if cls == Healer then mainStat else 0)
    ensures e.stats.agility == (if cls == MeleeFighter || cls == RangedFighter then mainStat else 0)
  {
    var strength := if cls == Defender then mainStat else 0;
    var intellect := if cls == Healer then mainStat else 0;
    var agility := if cls == MeleeFighter || cls == RangedFighter then mainStat else 0;
    Equipment(Stats(health, armor, strength, intellect, agility, secondary1, secondary1, secondary2),
              slot, name)
  }

  /**
   * `calculateDamage`: the class term plus mastery plus the ability damage; a
   * class outside the four has no class term.
   */
  function Damage(cls: CharacterClass, total: Stats, abilityDamage: int): (r: int)
    ensures NonNegative(total) ==> r >= total.mastery + abilityDamage
    ensures cls == Unlisted ==> r == total.mastery + abilityDamage
  {
    var classTerm :=
      match cls
      case Defender => total.strength * 2
      case Healer => total.intellect * 2
      case MeleeFighter => total.agility * 2 + total.strength
      case RangedFighter => total.intellect * 2 + total.agility
      case Unlisted => 0;
    classTerm + total.mastery + abilityDamage
  }

  /** Damage is additive over stats: an item's stats add their own damage, at no ability. */
  lemma DamageAdditive(cls: CharacterClass, a: Stats, b: Stats, abilityDamage: int)
    ensures Damage(cls, Add(a, b), abilityDamage) == Damage(cls, a, abilityDamage) + Damage(cls, b, 0)
  {
  }

  /**
   * What one item adds to damage: twice its main stat (once for a ranged
   * fighter, whose items put the main stat into agility while the class term
   * doubles intellect) plus its mastery.
   */
  lemma ItemDamage(slot: SlotType, name: string, health: int, armor: int, mainStat: int,
                   secondary1: int, secondary2: int, cls: CharacterClass)
    ensures var e := MakeEquipment(slot, name, health, armor, mainStat, secondary1, secondary2, cls);
      Damage(cls, e.stats, 0) ==
        (match cls
         case RangedFighter => mainStat
         case Unlisted => 0
         case _ => 2 * mainStat) + secondary2
  {
  }

  /** Some slot of a non-empty set: the order `updateTotalStats` happens to visit the map in. */
  ghost function AnySlot(ks: set<SlotType>): (s: SlotType)
    requires ks != {}
    ensures s in ks
  {
    var s :| s in ks; s
  }

  /** The component-wise sum of the stats of the items in the slots `ks`. */
  ghost function SumOver(m: map<SlotType, Equipment>, ks: set<SlotType>): Stats
    requires ks <= m.Keys
    decreases ks
  {
    if ks == {} then Zero
    else
      var s := AnySlot(ks);
      Add(SumOver(m, ks - {s}), m[s].stats)
  }

  /** The component-wise sum of the stats of every equipped item. */
  ghost function Equipped(m: map<SlotType, Equipment>): Stats {
    SumOver(m, m.Keys)
  }

  lemma AddZero(a: Stats)
    ensures Add(a, Zero) == a
  {
  }

  lemma AddAssoc(a: Stats, b: Stats, c: Stats)
    ensures Add(Add(a, b), c) == Add(a, Add(b, c))
  {
  }

  lemma AddSwap(a: Stats, x: Stats, y: Stats)
    ensures Add(Add(a, x), y) == Add(Add(a, y), x)
  {
  }

  /** Adding one more slot adds exactly that slot's item, whichever slot the sum visits first. */
  lemma {:induction false} SumOverInsert(m: map<SlotType, Equipment>, ks: set<SlotType>, k: SlotType)
    requires ks <= m.Keys && k in m && k !in ks
    ensures SumOver(m, ks + {k}) == Add(SumOver(m, ks), m[k].stats)
    decreases |ks|
  {
    var ks' := ks + {k};
    var s := AnySlot(ks');
    if s == k {
      assert ks' - {s} == ks;
    } else {
      var rest := ks - {s};
      assert ks' - {s} == rest + {k};
      SumOverInsert(m, rest, k);
      assert rest + {s} == ks;
      SumOverInsert(m, rest, s);
      AddSwap(SumOver(m, rest), m[k].stats, m[s].stats);
    }
  }

  /** Adding one more slot's item to a running total counts that slot too. */
  lemma AddOneSlot(base: Stats, m: map<SlotType, Equipment>, ks: set<SlotType>, k: SlotType)
    requires ks <= m.Keys && k in m && k !in ks
    ensures Add(Add(base, SumOver(m, ks)), m[k].stats) == Add(base, SumOver(m, ks + {k}))
  {
    SumOverInsert(m, ks, k);
    AddAssoc(base, SumOver(m, ks), m[k].stats);
  }

  /** Two maps with the same items in the slots `ks` have the same sum over `ks`. */
  lemma {:induction false} SumOverAgree(m1: map<SlotType, Equipment>, m2: map<SlotType, Equipment>,
                                        ks: set<SlotType>)
    requires ks <= m1.Keys && ks <= m2.Keys
    requires forall s :: s in ks ==> m1[s] == m2[s]
    ensures SumOver(m1, ks) == SumOver(m2, ks)
    decreases ks
  {
    if ks != {} {
      SumOverAgree(m1, m2, ks - {AnySlot(ks)});
    }
  }

  /** Nothing equipped: the equipment adds nothing. */
  lemma EquippedNone()
    ensures Equipped(map[]) == Zero
  {
    var none: map<SlotType, Equipment> := map[];
    assert none.Keys == {};
  }

  /** Equipping `e` replaces its slot's item: the sum is the other slots' items plus `e`. */
  lemma EquippedReplace(m: map<SlotType, Equipment>, e: Equipment)
    ensures Equipped(m[e.slotType := e]) == Add(Equipped(m - {e.slotType}), e.stats)
  {
    var s := e.slotType;
    var m' := m[s := e];
    var rest := m - {s};
    assert m'.Keys == rest.Keys + {s};
    SumOverInsert(m', rest.Keys, s);
    SumOverAgree(m', rest, rest.Keys);
  }

  /** The slot names `generateRandomEquipment` gives its items. */
  function SlotName(slot: SlotType): string {
    match slot
    case Helmet => "Helmet"
    case Shoulders => "Shoulders"
    case Gloves => "Gloves"
    case Cloak => "Cloak"
    case Weapon => "Weapon"
  }

  /** A value of `uniform_int_distribution<int>(1, 10)`. */
  predicate InRoll(x: int) {
    1 <= x <= 10
  }

  /** An item `generateRandomEquipment` can produce for a class. */
  predicate Rolled(e: Equipment, cls: CharacterClass) {
    e.name == SlotName(e.slotType) &&
    InRoll(e.stats.health) && InRoll(e.stats.armor) &&
    InRoll(e.stats.accuracy) && e.stats.luck == e.stats.accuracy && InRoll(e.stats.mastery) &&
    RolledPrimaries(e.stats, cls)
  }

  /** The main stat is a roll in the class's component; the other primary stats are 0. */
  predicate RolledPrimaries(s: Stats, cls: CharacterClass) {
    match cls
    case Defender => InRoll(s.strength) && s.intellect == 0 && s.agility == 0
    case Healer => s.strength == 0 && InRoll(s.intellect) && s.agility == 0
    case MeleeFighter => s.strength == 0 && s.intellect == 0 && InRoll(s.agility)
    case RangedFighter => s.strength == 0 && s.intellect == 0 && InRoll(s.agility)
    case Unlisted => s.strength == 0 && s.intellect == 0 && s.agility == 0
  }

  /** The least and the most damage one rolled item adds for a class. */
  function ItemDamageLow(cls: CharacterClass): int {
    match cls
    case RangedFighter => 2
    case Unlisted => 1
    case _ => 3
  }

  function ItemDamageHigh(cls: CharacterClass): int {
    match cls
    case RangedFighter => 20
    case Unlisted => 10
    case _ => 30
  }

  /** A rolled item adds between `ItemDamageLow` and `ItemDamageHigh` to the damage. */
  lemma RolledItemDamage(e: Equipment, cls: CharacterClass)
    requires Rolled(e, cls)
    ensures ItemDamageLow(cls) <= Damage(cls, e.stats, 0) <= ItemDamageHigh(cls)
  {
  }

  /**
   * The equipment in the slots `ks`, every item rolled for the class, adds
   * between `ItemDamageLow` and `ItemDamageHigh` damage per slot.
   */
  lemma {:induction false} SumOverDamage(m: map<SlotType, Equipment>, ks: set<SlotType>, cls: CharacterClass)
    requires ks <= m.Keys
    requires forall s :: s in ks ==> Rolled(m[s], cls)
    ensures |ks| * ItemDamageLow(cls) <= Damage(cls, SumOver(m, ks), 0) <= |ks| * ItemDamageHigh(cls)
    decreases ks
  {
    if ks != {} {
      var s := AnySlot(ks);
      SumOverDamage(m, ks - {s}, cls);
      DamageAdditive(cls, SumOver(m, ks - {s}), m[s].stats, 0);
      RolledItemDamage(m[s], cls);
      OneMore(|ks - {s}|, ItemDamageLow(cls));
      OneMore(|ks - {s}|, ItemDamageHigh(cls));
    }
  }

  lemma OneMore(n: int, x: int)
    ensures (n + 1) * x == n * x + x
  {
  }

  /**
   * `generateRandomEquipment`: five independent rolls in [1, 10] (health,
   * armor, main stat, two secondary stats) passed to the `Equipment`
   * constructor with the slot's name; the rolls are a nondeterministic choice.
   */
  method GenerateRandomEquipment(slot: SlotType, cls: CharacterClass) returns (e: Equipment)
    ensures e.slotType == slot && Rolled(e, cls)
  {
    assert InRoll(1);
    var health :| InRoll(health);
    var armor :| InRoll(armor);
    var mainStat :| InRoll(mainStat);
    var secondary1 :| InRoll(secondary1);
    var secondary2 :| InRoll(secondary2);
    e := MakeEquipment(slot, SlotName(slot), health, armor, mainStat, secondary1, secondary2, cls);
  }

  /** The number of a class in `startGame`'s menu (0 for an unlisted value, which is not offered). */
  function MenuNumber(cls: CharacterClass): int {
    match cls
    case Defender => 1
    case Healer => 2
    case MeleeFighter => 3
    case RangedFighter => 4
    case Unlisted => 0
  }

  /** The class `startGame` creates for a menu choice: the class of that number, otherwise a defender. */
  function ClassOfChoice(choice: int): (cls: CharacterClass)
    ensures cls != Unlisted
    ensures 1 <= choice <= 4 ==> MenuNumber(cls) == choice
    ensures !(1 <= choice <= 4) ==> cls == Defender
  {
    if choice == 2 then Healer
    else if choice == 3 then MeleeFighter
    else if choice == 4 then RangedFighter
    else Defender
  }

  /** A character with its equipment slots and its running totals. */
  class Character {
    var nickname: string
    var charClass: CharacterClass
    var baseStats: Stats
    var totalStats: Stats
    var abilityDamage: int
    var equipmentSlots: map<SlotType, Equipment>

    /** Each item sits under its own slot. */
    predicate SlotsKeyed()
      reads this`equipmentSlots
    {
      forall s :: s in equipmentSlots ==> equipmentSlots[s].slotType == s
    }

    /** The totals are the base stats plus every equipped item. */
    ghost predicate TotalsCurrent()
      reads this`totalStats, this`baseStats, this`equipmentSlots
    {
      totalStats == Add(baseStats, Equipped(equipmentSlots))
    }

    ghost predicate Valid()
      reads this`totalStats, this`baseStats, this`equipmentSlots
    {
      SlotsKeyed() && TotalsCurrent()
    }

    constructor (name: string, cls: CharacterClass)
      ensures nickname == name && charClass == cls && abilityDamage == 0
      ensures baseStats == DefaultStats(cls) && totalStats == baseStats
      ensures equipmentSlots == map[] && Valid()
    {
      nickname := name;
      charClass := cls;
      abilityDamage := 0;
      baseStats := DefaultStats(cls);
      totalStats := DefaultStats(cls);
      equipmentSlots := map[];
      new;
      EquippedNone();
    }

    /** `equip`: put `e` in its slot, replacing any item there, then recompute the totals. */
    method Equip(e: Equipment)
      modifies this
      ensures equipmentSlots == old(equipmentSlots)[e.slotType := e]
      ensures nickname == old(nickname) && charClass == old(charClass)
      ensures baseStats == old(baseStats) && abilityDamage == old(abilityDamage)
      ensures TotalsCurrent()
      ensures old(SlotsKeyed()) ==> SlotsKeyed()
    {
      equipmentSlots := equipmentSlots[e.slotType := e];
      UpdateTotalStats();
    }

    /**
     * `updateTotalStats`: reset the totals to the base stats, then add every
     * equipped item, visiting the slots in an unspecified order.
     */
    method UpdateTotalStats()
      modifies this`totalStats
      ensures totalStats == Add(baseStats, Equipped(equipmentSlots))
    {
      totalStats := baseStats;
      var remaining := equipmentSlots.Keys;
      ghost var visited: set<SlotType> := {};
      AddZero(baseStats);
      while remaining != {}
        invariant remaining + visited == equipmentSlots.Keys && remaining !! visited
        invariant totalStats == Add(baseStats, SumOver(equipmentSlots, visited))
        decreases |remaining|
      {
        var s :| s in remaining;
        var eq := equipmentSlots[s];
        AddOneSlot(baseStats, equipmentSlots, visited, s);
        totalStats := Add(totalStats, eq.stats);  // the eight `+=`, one per component
        remaining := remaining - {s};
        visited := visited + {s};
      }
    }

    /** `applyRandomAbility`: the ability damage becomes some element of the list. */
    method ApplyRandomAbility(abilityDamages: seq<int>)
      requires |abilityDamages| > 0
      modifies this
      ensures abilityDamage in abilityDamages
      ensures nickname == old(nickname) && charClass == old(charClass) && baseStats == old(baseStats)
      ensures totalStats == old(totalStats) && equipmentSlots == old(equipmentSlots)
    {
      var index :| 0 <= index < |abilityDamages|;
      abilityDamage := abilityDamages[index];
    }

    /**
     * `calculateDamage` of this character: with current totals, the base
     * damage plus what each equipped item adds.
     */
    function CalculateDamage(): (r: int)
      reads this
      ensures TotalsCurrent() ==>
        r == Damage(charClass, baseStats, abilityDamage) + Damage(charClass, Equipped(equipmentSlots), 0)
    {
      DamageAdditive(charClass, baseStats, Equipped(equipmentSlots), abilityDamage);
      Damage(charClass, totalStats, abilityDamage)
    }
  }

  /**
   * A character whose items were all rolled for its class deals its base
   * damage plus between `ItemDamageLow` and `ItemDamageHigh` per equipped slot.
   */
  lemma CharacterDamageBounds(c: Character)
    requires c.TotalsCurrent()
    requires forall s :: s in c.equipmentSlots ==> Rolled(c.equipmentSlots[s], c.charClass)
    ensures var base := Damage(c.charClass, c.baseStats, c.abilityDamage);
      var n := |c.equipmentSlots|;
      base + n * ItemDamageLow(c.charClass) <= c.CalculateDamage() <= base + n * ItemDamageHigh(c.charClass)
  {
    SumOverDamage(c.equipmentSlots, c.equipmentSlots.Keys, c.charClass);
  }

  /**
   * `generateEquipmentsForCharacter`: `numEquipments` times, roll a slot and
   * equip a freshly rolled item there; an item already in that slot is replaced.
   */
  method GenerateEquipmentsForCharacter(c: Character, numEquipments: int) returns (ghost touched: set<SlotType>)
    modifies c
    ensures numEquipments > 0 ==> c.TotalsCurrent() && |c.equipmentSlots| > 0
    ensures numEquipments <= 0 ==> c.equipmentSlots == old(c.equipmentSlots) && c.totalStats == old(c.totalStats)
    ensures old(c.TotalsCurrent()) ==> c.TotalsCurrent()
    ensures |touched| <= (if numEquipments > 0 then numEquipments else 0)
    ensures forall s :: s !in touched ==>
      (s in c.equipmentSlots <==> s in old(c.equipmentSlots)) &&
      (s in c.equipmentSlots ==> c.equipmentSlots[s] == old(c.equipmentSlots)[s])
    ensures old(c.SlotsKeyed()) ==> c.SlotsKeyed()
    ensures old(c.equipmentSlots).Keys <= c.equipmentSlots.Keys
    ensures forall s :: s in c.equipmentSlots ==>
      (s in old(c.equipmentSlots) && c.equipmentSlots[s] == old(c.equipmentSlots)[s]) ||
      Rolled(c.equipmentSlots[s], c.charClass)
    ensures |c.equipmentSlots| <= |old(c.equipmentSlots)| + (if numEquipments > 0 then numEquipments else 0)
    ensures c.nickname == old(c.nickname) && c.charClass == old(c.charClass) && c.baseStats == old(c.baseStats)
    ensures c.abilityDamage == old(c.abilityDamage)
  {
    touched := {};
    var i := 0;
    while i < numEquipments
      invariant 0 <= i && (numEquipments > 0 ==> i <= numEquipments) && (numEquipments <= 0 ==> i == 0)
      invariant i == 0 ==> c.equipmentSlots == old(c.equipmentSlots) && c.totalStats == old(c.totalStats)
      invariant |touched| <= i
      invariant forall s :: s !in touched ==>
        (s in c.equipmentSlots <==> s in old(c.equipmentSlots)) &&
        (s in c.equipmentSlots ==> c.equipmentSlots[s] == old(c.equipmentSlots)[s])
      invariant i > 0 ==> |c.equipmentSlots| > 0
      invariant |c.equipmentSlots| <= |old(c.equipmentSlots)| + i
      invariant c.nickname == old(c.nickname) && c.charClass == old(c.charClass) && c.baseStats == old(c.baseStats)
      invariant c.abilityDamage == old(c.abilityDamage)
      invariant old(c.SlotsKeyed()) ==> c.SlotsKeyed()
      invariant i > 0 ==> c.TotalsCurrent()
      invariant old(c.equipmentSlots).Keys <= c.equipmentSlots.Keys
      invariant forall s :: s in c.equipmentSlots ==>
        (s in old(c.equipmentSlots) && c.equipmentSlots[s] == old(c.equipmentSlots)[s]) ||
        Rolled(c.equipmentSlots[s], c.charClass)
    {
      var slot: SlotType :| true;
      var e := GenerateRandomEquipment(slot, c.charClass);
      c.Equip(e);
      touched := touched + {slot};
      i := i + 1;
    }
  }

  /** `addAbilities`: append exactly 20, 25, ..., 65, in that order. */
  method AddAbilities(abilityDamages: seq<int>) returns (r: seq<int>)
    ensures |r| == |abilityDamages| + 10
    ensures r[..|abilityDamages|] == abilityDamages
    ensures forall i :: |abilityDamages| <= i < |r| ==> r[i] == 20 + 5 * (i - |abilityDamages|)
  {
    r := abilityDamages;
    r := r + [20];
    r := r + [25];
    r := r + [30];
    r := r + [35];
    r := r + [40];
    r := r + [45];
    r := r + [50];
    r := r + [55];
    r := r + [60];
    r := r + [65];
  }
}
