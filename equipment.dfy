// Weapons and equipment slots of src/components/equipment.py.

module Equipment {

  import opened Util
  import opened Geometry
  import opened Components

  datatype EquipmentSlot = MainHand | OffHand | Head | Body | Hands | Feet | RingL | RingR | Amulet

  /** The slots in declaration order, which is also the order of the `slots` dictionary. */
  const AllSlots: seq<EquipmentSlot> := [MainHand, OffHand, Head, Body, Hands, Feet, RingL, RingR, Amulet]

  /** The position of a slot in declaration order. */
  function SlotIndex(s: EquipmentSlot): (i: nat)
    ensures i < |AllSlots| && AllSlots[i] == s
  {
    match s
    case MainHand => 0
    case OffHand => 1
    case Head => 2
    case Body => 3
    case Hands => 4
    case Feet => 5
    case RingL => 6
    case RingR => 7
    case Amulet => 8
  }

  /** The position of the slot at position i is i. */
  lemma SlotIndexIsPosition(i: nat)
    requires i < |AllSlots|
    ensures SlotIndex(AllSlots[i]) == i
  {
    assert i in {0, 1, 2, 3, 4, 5, 6, 7, 8};
  }

  /** Slot `k` of the declaration order is not among the later ones. */
  lemma SlotAheadOfRest(k: nat)
    requires k < |AllSlots|
    ensures AllSlots[k] !in AllSlots[k + 1..] && AllSlots[k..] == [AllSlots[k]] + AllSlots[k + 1..]
  {
    AllSlotsListsEverySlotOnce();
    var tail := AllSlots[k + 1..];
    forall j | 0 <= j < |tail|
      ensures tail[j] != AllSlots[k]
    {
      assert tail[j] == AllSlots[k + 1 + j];
    }
  }

  /** A pair for slot k in front of pairs for later slots in slot order
      keeps the pairs in slot order. */
  lemma ConsKeepsOrder<T>(k: nat, p: (EquipmentSlot, T), rest: seq<(EquipmentSlot, T)>)
    requires SlotIndex(p.0) == k
    requires forall q | q in rest :: SlotIndex(q.0) > k
    requires forall i, j :: 0 <= i < j < |rest| ==> SlotIndex(rest[i].0) < SlotIndex(rest[j].0)
    ensures forall q | q in [p] + rest :: SlotIndex(q.0) >= k
    ensures forall i, j :: 0 <= i < j < |[p] + rest| ==> SlotIndex(([p] + rest)[i].0) < SlotIndex(([p] + rest)[j].0)
    ensures forall i, j :: 0 <= i < j < |[p] + rest| ==> ([p] + rest)[i].0 != ([p] + rest)[j].0
  {
    var r := [p] + rest;
    forall i, j | 0 <= i < j < |r|
      ensures SlotIndex(r[i].0) < SlotIndex(r[j].0)
    {
      assert r[j] == rest[j - 1];
      if i > 0 {
        assert r[i] == rest[i - 1];
      }
    }
  }

  lemma AllSlotsListsEverySlotOnce()
    ensures forall s: EquipmentSlot :: s in AllSlots
    ensures forall i, j :: 0 <= i < j < |AllSlots| ==> AllSlots[i] != AllSlots[j]
  {
    forall s: EquipmentSlot
      ensures s in AllSlots
    {
      assert AllSlots[SlotIndex(s)] == s;
    }
  }

  /** `data.get(key, default)`. */
  function GetOr<T>(o: Option<T>, default: T): (r: T)
    ensures o.Some? ==> r == o.value
    ensures o.None? ==> r == default
  {
    if o.Some? then o.value else default
  }

  /** The weapon record dictionary read by `from_dict`: each key may be missing.
      The colour is not modelled. */
  datatype WeaponDict = WeaponDict(
    name: Option<string>, glyph: Option<char>, weaponType: Option<string>,
    damage: Option<int>, range: Option<int>, accuracy: Option<int>, speed: Option<int>,
    durability: Option<int>, manaCost: Option<int>, effects: Option<seq<string>>,
    element: Option<string>, ammoType: Option<string>, value: Option<int>,
    rarity: Option<string>, description: Option<string>)

  /** The durability after `use`: one less, not below 0, and only for weapons
      that wear (max_durability > 0). */
  function UsedDurability(durability: int, maxDurability: int): (d: int)
  {
    if maxDurability > 0 then Max(0, durability - 1) else durability
  }

  /** The durability after `repair(amount)`: full for a negative amount,
      otherwise raised by amount but not above max_durability. */
  function RepairedDurability(durability: int, maxDurability: int, amount: int): (d: int)
  {
    if amount < 0 then maxDurability else Min(maxDurability, durability + amount)
  }

  /** `is_broken` on plain values. */
  predicate Broken(durability: int, maxDurability: int)
  {
    maxDurability > 0 && durability <= 0
  }

  /** The durability after `n` uses. */
  function UsedTimes(durability: int, maxDurability: int, n: nat): int
    decreases n
  {
    if n == 0 then durability else UsedTimes(UsedDurability(durability, maxDurability), maxDurability, n - 1)
  }

  /** A wearing weapon breaks after exactly as many uses as its durability, and
      not before; one that does not wear never breaks. */
  lemma {:induction false} UsesUntilBroken(durability: nat, maxDurability: int, n: nat)
    ensures maxDurability > 0 ==> (Broken(UsedTimes(durability, maxDurability, n), maxDurability) <==> n >= durability)
    ensures maxDurability > 0 ==> UsedTimes(durability, maxDurability, n) == Max(0, durability - n)
    ensures maxDurability <= 0 ==> !Broken(UsedTimes(durability, maxDurability, n), maxDurability)
    decreases n
  {
    if n > 0 {
      UsesUntilBroken(UsedDurability(durability, maxDurability), maxDurability, n - 1);
    }
  }

  /** Using never drives durability negative, and a full repair of a wearing
      weapon un-breaks it; a non-negative repair never exceeds the maximum and
      never lowers a durability that is within it. */
  lemma DurabilityBounds(durability: int, maxDurability: int, amount: int)
    ensures durability >= 0 ==> UsedDurability(durability, maxDurability) >= 0
    ensures durability >= 0 ==> UsedDurability(durability, maxDurability) <= durability
    ensures maxDurability > 0 ==> !Broken(RepairedDurability(durability, maxDurability, -1), maxDurability)
    ensures amount >= 0 ==> RepairedDurability(durability, maxDurability, amount) <= maxDurability
    ensures amount >= 0 && durability <= maxDurability ==> RepairedDurability(durability, maxDurability, amount) >= durability
  {
  }

  class WeaponData {
    const weaponId: string
    const name: string
    const glyph: char
    const weaponType: string
    const damage: int
    const range: int
    const accuracy: int
    const speed: int
    var durability: int
    const maxDurability: int
    const manaCost: int
    const effects: seq<string>
    const element: string
    const ammoType: string
    const value: int
    const rarity: string
    const description: string

    /** `WeaponData.from_dict`: missing keys take their defaults, and
        max_durability is read from the same key as durability. */
    constructor FromDict(weaponId: string, data: WeaponDict)
      ensures this.weaponId == weaponId
      ensures name == GetOr(data.name, "Unknown") && glyph == GetOr(data.glyph, ')')
      ensures weaponType == GetOr(data.weaponType, "melee")
      ensures damage == GetOr(data.damage, 1) && range == GetOr(data.range, 1)
      ensures accuracy == GetOr(data.accuracy, 0) && speed == GetOr(data.speed, 2)
      ensures durability == GetOr(data.durability, 100) && maxDurability == durability
      ensures manaCost == GetOr(data.manaCost, 0) && effects == GetOr(data.effects, [])
      ensures element == GetOr(data.element, "physical") && ammoType == GetOr(data.ammoType, "none")
      ensures value == GetOr(data.value, 10) && rarity == GetOr(data.rarity, "common")
      ensures description == GetOr(data.description, "")
    {
      this.weaponId := weaponId;
      name := GetOr(data.name, "Unknown");
      glyph := GetOr(data.glyph, ')');
      weaponType := GetOr(data.weaponType, "melee");
      damage := GetOr(data.damage, 1);
      range := GetOr(data.range, 1);
      accuracy := GetOr(data.accuracy, 0);
      speed := GetOr(data.speed, 2);
      durability := GetOr(data.durability, 100);
      maxDurability := GetOr(data.durability, 100);
      manaCost := GetOr(data.manaCost, 0);
      effects := GetOr(data.effects, []);
      element := GetOr(data.element, "physical");
      ammoType := GetOr(data.ammoType, "none");
      value := GetOr(data.value, 10);
      rarity := GetOr(data.rarity, "common");
      description := GetOr(data.description, "");
    }

    /** `is_broken`. */
    predicate IsBroken()
      reads this
    {
      Broken(durability, maxDurability)
    }

    /** `use`. */
    method Use()
      modifies this`durability
      ensures durability == UsedDurability(old(durability), maxDurability)
    {
      if maxDurability > 0 {
        durability := Max(0, durability - 1);
      }
    }

    /** `repair(amount)`; the default amount -1 means a full repair. */
    method Repair(amount: int)
      modifies this`durability
      ensures durability == RepairedDurability(old(durability), maxDurability, amount)
    {
      if amount < 0 {
        durability := maxDurability;
      } else {
        durability := Min(maxDurability, durability + amount);
      }
    }
  }

  /** The weapon that counts for bonuses: the given one unless absent or broken. */
  function Usable(w: WeaponData?): (r: WeaponData?)
    reads w
    ensures r == null <==> w == null || w.IsBroken()
    ensures r != null ==> r == w
  {
    if w != null && !w.IsBroken() then w else null
  }

  /** The attack range for a weapon: its own range, or 1 bare-handed or broken. */
  function AttackRange(w: WeaponData?): (r: int)
    reads w
    ensures w == null || w.IsBroken() ==> r == 1
    ensures w != null && !w.IsBroken() ==> r == w.range
  {
    var u := Usable(w);
    if u == null then 1 else u.range
  }

  const OutOfRange: string := "사거리 밖입니다."

  /** `can_attack_target`: allowed exactly within the attack range (Chebyshev
      distance), with the out-of-range message otherwise. */
  function CanAttackTarget(attacker: Entity, target: Entity, weapon: WeaponData?): (r: (bool, string))
    reads attacker, target, weapon
    ensures r.0 <==> Chebyshev((attacker.x, attacker.y), (target.x, target.y)) <= AttackRange(weapon)
    ensures r.1 == (if r.0 then "" else OutOfRange)
  {
    var distance := Max(Abs(target.x - attacker.x), Abs(target.y - attacker.y));
    if distance > AttackRange(weapon) then (false, OutOfRange) else (true, "")
  }

  /** Bare hands reach exactly the eight neighbouring cells. */
  lemma BareHandsReachNeighbours(attacker: Entity, target: Entity)
    ensures CanAttackTarget(attacker, target, null).0 <==>
      (attacker.x, attacker.y) == (target.x, target.y) || Adjacent8((attacker.x, attacker.y), (target.x, target.y))
  {
    Adjacent8IsChebyshevOne((attacker.x, attacker.y), (target.x, target.y));
  }

  class Equipment {
    var slots: map<EquipmentSlot, WeaponData?>
    var entity: Entity?

    ghost predicate Valid()
      reads this
    {
      forall s: EquipmentSlot :: s in slots
    }

    /** Every slot starts empty. */
    constructor ()
      ensures Valid() && entity == null
      ensures forall s: EquipmentSlot :: slots[s] == null
    {
      slots := map s | s in AllSlots :: null;
      AllSlotsListsEverySlotOnce();
      entity := null;
    }

    function MainWeapon(): WeaponData?
      requires Valid()
      reads this
    {
      slots[MainHand]
    }

    function OffHandItem(): WeaponData?
      requires Valid()
      reads this
    {
      slots[EquipmentSlot.OffHand]
    }

    /** `equip`: the slot takes the item and the previous occupant is returned. */
    method Equip(slot: EquipmentSlot, item: WeaponData?) returns (previous: WeaponData?)
      requires Valid()
      modifies this`slots
      ensures Valid()
      ensures previous == old(slots[slot])
      ensures slots == old(slots)[slot := item]
    {
      previous := slots[slot];
      slots := slots[slot := item];
    }

    /** `unequip`: the slot is emptied and its occupant returned. */
    method Unequip(slot: EquipmentSlot) returns (item: WeaponData?)
      requires Valid()
      modifies this`slots
      ensures Valid()
      ensures item == old(slots[slot])
      ensures slots == old(slots)[slot := null]
    {
      item := slots[slot];
      slots := slots[slot := null];
    }

    /** `get_total_damage_bonus`. */
    function DamageBonus(): (b: int)
      requires Valid()
      reads this, slots[MainHand]
      ensures MainWeapon() == null || MainWeapon().IsBroken() ==> b == 0
      ensures MainWeapon() != null && !MainWeapon().IsBroken() ==> b == MainWeapon().damage
    {
      var w := Usable(slots[MainHand]);
      if w == null then 0 else w.damage
    }

    /** `get_total_defense_bonus`: armour is not implemented, so always 0. */
    function DefenseBonus(): (b: int)
      ensures b == 0
    {
      0
    }

    /** `get_total_accuracy_bonus`. */
    function AccuracyBonus(): (b: int)
      requires Valid()
      reads this, slots[MainHand]
      ensures MainWeapon() == null || MainWeapon().IsBroken() ==> b == 0
      ensures MainWeapon() != null && !MainWeapon().IsBroken() ==> b == MainWeapon().accuracy
    {
      var w := Usable(slots[MainHand]);
      if w == null then 0 else w.accuracy
    }

    /** `get_attack_range`. */
    function GetAttackRange(): (r: int)
      requires Valid()
      reads this, slots[MainHand]
      ensures MainWeapon() == null || MainWeapon().IsBroken() ==> r == 1
      ensures MainWeapon() != null && !MainWeapon().IsBroken() ==> r == MainWeapon().range
    {
      AttackRange(slots[MainHand])
    }

    /** `get_weapon_speed`. */
    function GetWeaponSpeed(): (r: int)
      requires Valid()
      reads this, slots[MainHand]
      ensures MainWeapon() == null || MainWeapon().IsBroken() ==> r == 2
      ensures MainWeapon() != null && !MainWeapon().IsBroken() ==> r == MainWeapon().speed
    {
      var w := Usable(slots[MainHand]);
      if w == null then 2 else w.speed
    }

    /** `get_equipped_list`: the occupied slots with their items, in slot order. */
    function GetEquippedList(): (r: seq<(EquipmentSlot, WeaponData)>)
      requires Valid()
      reads this
      ensures forall p | p in r :: slots[p.0] == p.1
      ensures forall s: EquipmentSlot :: slots[s] != null ==> (s, slots[s]) in r
      ensures forall i, j :: 0 <= i < j < |r| ==> r[i].0 != r[j].0
      ensures forall i, j :: 0 <= i < j < |r| ==> SlotIndex(r[i].0) < SlotIndex(r[j].0)
    {
      var r := EquippedFrom(0);
      forall s: EquipmentSlot | slots[s] != null
        ensures (s, slots[s]) in r
      {
        assert AllSlots[SlotIndex(s)] == s;
      }
      r
    }

    function EquippedFrom(k: nat): (r: seq<(EquipmentSlot, WeaponData)>)
      requires Valid() && k <= |AllSlots|
      reads this
      ensures forall p | p in r :: slots[p.0] == p.1
      ensures forall i :: k <= i < |AllSlots| && slots[AllSlots[i]] != null ==> (AllSlots[i], slots[AllSlots[i]]) in r
      ensures forall i, j :: 0 <= i < j < |r| ==> r[i].0 != r[j].0
      ensures forall p | p in r :: SlotIndex(p.0) >= k
      ensures forall i, j :: 0 <= i < j < |r| ==> SlotIndex(r[i].0) < SlotIndex(r[j].0)
      decreases |AllSlots| - k
    {
      if k == |AllSlots| then []
      else
        var rest := EquippedFrom(k + 1);
        var s := AllSlots[k];
        SlotIndexIsPosition(k);
        if slots[s] == null then rest
        else
          ConsKeepsOrder(k, (s, slots[s]), rest);
          [(s, slots[s])] + rest
    }
  }
}
