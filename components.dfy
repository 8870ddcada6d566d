// Entities and the components attached to them: src/components/entity.py,
// fighter.py, inventory.py, and the stateful parts of survival.py, npc.py and
// ai.py.  The components keep a back-link to the actor that owns them, so they
// live in one module with the entity class.

module Components {

  import opened Util
  import opened SurvivalRules
  import NpcRules

  /** Which constructor made the entity: `Entity`, `Actor` or `Item`. */
  datatype EntityKind = PlainEntity | ActorEntity | ItemEntity

  /** The two AI classes of ai.py. */
  datatype AiKind = Hostile | Passive

  class Entity {
    var x: int
    var y: int
    const glyph: char
    const name: string
    const blocksMovement: bool
    const kind: EntityKind
    // Actor components (null on plain entities and items).
    var ai: AiComponent?
    var fighter: Fighter?
    var inventory: Inventory?
    var survival: Survival?
    var npc: NpcComponent?
    var gold: int
    // Item attributes (false / 0 on other entities).
    const consumable: bool
    const nutrition: int
    const hydration: int

    /** `Entity(x, y, char, color, name, blocks_movement)`. */
    constructor (x: int, y: int, glyph: char, name: string, blocksMovement: bool)
      ensures this.x == x && this.y == y && this.glyph == glyph && this.name == name
      ensures this.blocksMovement == blocksMovement && kind == PlainEntity
      ensures ai == null && fighter == null && inventory == null && survival == null && npc == null
      ensures gold == 0 && !consumable && nutrition == 0 && hydration == 0
    {
      this.x, this.y, this.glyph, this.name := x, y, glyph, name;
      this.blocksMovement := blocksMovement;
      kind := PlainEntity;
      ai, fighter, inventory, survival, npc := null, null, null, null, null;
      gold := 0;
      consumable, nutrition, hydration := false, 0, 0;
    }

    /** `Actor(...)` as written: it always blocks movement and stores every
        component, but it sets a component's back-link only when the component is
        truthy, and an `Inventory` with no items is falsy through `__len__`. */
    constructor Actor(x: int, y: int, glyph: char, name: string,
                      ai: AiComponent?, fighter: Fighter?, inventory: Inventory?,
                      survival: Survival?, npc: NpcComponent?, gold: int)
      modifies ai, fighter, inventory, survival, npc
      ensures this.x == x && this.y == y && this.glyph == glyph && this.name == name
      ensures blocksMovement && kind == ActorEntity
      ensures this.ai == ai && this.fighter == fighter && this.inventory == inventory
      ensures this.survival == survival && this.npc == npc && this.gold == gold
      ensures !consumable && nutrition == 0 && hydration == 0
      ensures ai != null ==> ai.entity == this && unchanged(ai`isHostile)
      ensures fighter != null ==> fighter.entity == this && fighter.hp == old(fighter.hp)
      ensures survival != null ==> survival.entity == this && unchanged(survival`hunger, survival`thirst, survival`stamina)
      ensures npc != null ==> npc.entity == this && npc.disposition == old(npc.disposition)
      ensures inventory != null ==> inventory.items == old(inventory.items)
      ensures inventory != null ==> (inventory.entity == this <==> |inventory.items| > 0)
      ensures inventory != null && |inventory.items| == 0 ==> inventory.entity == old(inventory.entity)
    {
      this.x, this.y, this.glyph, this.name := x, y, glyph, name;
      blocksMovement := true;
      kind := ActorEntity;
      consumable, nutrition, hydration := false, 0, 0;
      this.ai, this.fighter, this.inventory, this.survival, this.npc := ai, fighter, inventory, survival, npc;
      this.gold := gold;
      new;
      if ai != null { ai.entity := this; }
      if fighter != null { fighter.entity := this; }
      if inventory != null && |inventory.items| > 0 { inventory.entity := this; }
      if survival != null { survival.entity := this; }
      if npc != null { npc.entity := this; }
    }

    /** `Actor(...)` with the evident intent: every component that is present,
        including an empty inventory, gets its back-link. */
    constructor LinkedActor(x: int, y: int, glyph: char, name: string,
                            ai: AiComponent?, fighter: Fighter?, inventory: Inventory?,
                            survival: Survival?, npc: NpcComponent?, gold: int)
      modifies ai, fighter, inventory, survival, npc
      ensures this.x == x && this.y == y && this.glyph == glyph && this.name == name
      ensures blocksMovement && kind == ActorEntity
      ensures this.ai == ai && this.fighter == fighter && this.inventory == inventory
      ensures this.survival == survival && this.npc == npc && this.gold == gold
      ensures !consumable && nutrition == 0 && hydration == 0
      ensures ai != null ==> ai.entity == this && unchanged(ai`isHostile)
      ensures fighter != null ==> fighter.entity == this && fighter.hp == old(fighter.hp)
      ensures survival != null ==> survival.entity == this && unchanged(survival`hunger, survival`thirst, survival`stamina)
      ensures npc != null ==> npc.entity == this && npc.disposition == old(npc.disposition)
      ensures inventory != null ==> inventory.entity == this && inventory.items == old(inventory.items)
    {
      this.x, this.y, this.glyph, this.name := x, y, glyph, name;
      blocksMovement := true;
      kind := ActorEntity;
      consumable, nutrition, hydration := false, 0, 0;
      this.ai, this.fighter, this.inventory, this.survival, this.npc := ai, fighter, inventory, survival, npc;
      this.gold := gold;
      new;
      if ai != null { ai.entity := this; }
      if fighter != null { fighter.entity := this; }
      if inventory != null { inventory.entity := this; }
      if survival != null { survival.entity := this; }
      if npc != null { npc.entity := this; }
    }

    /** `Item(...)`: never blocks movement. */
    constructor Item(x: int, y: int, glyph: char, name: string,
                     consumable: bool, nutrition: int, hydration: int)
      ensures this.x == x && this.y == y && this.glyph == glyph && this.name == name
      ensures !blocksMovement && kind == ItemEntity
      ensures this.consumable == consumable && this.nutrition == nutrition && this.hydration == hydration
      ensures ai == null && fighter == null && inventory == null && survival == null && npc == null
      ensures gold == 0
    {
      this.x, this.y, this.glyph, this.name := x, y, glyph, name;
      blocksMovement := false;
      kind := ItemEntity;
      this.consumable, this.nutrition, this.hydration := consumable, nutrition, hydration;
      ai, fighter, inventory, survival, npc := null, null, null, null, null;
      gold := 0;
    }

    /** `move(dx, dy)`: a relative shift of the position and nothing else. */
    method Move(dx: int, dy: int)
      modifies this`x, this`y
      ensures x == old(x) + dx && y == old(y) + dy
    {
      x := x + dx;
      y := y + dy;
    }

    /** `is_alive`: only actors have the property, and it needs a fighter with hp left. */
    predicate IsAlive()
      reads this, fighter
    {
      kind == ActorEntity && fighter != null && fighter.hp > 0
    }
  }

  /** max(0, amount - defense): the damage that gets through the defense. */
  function Mitigated(amount: int, defense: int): (r: nat)
    ensures r <= Max(0, amount) || defense < 0
    ensures amount > defense ==> r == amount - defense
    ensures amount <= defense ==> r == 0
  {
    if amount > defense then amount - defense else 0
  }

  class Fighter {
    var entity: Entity?
    const maxHp: int
    var hp: int
    const defense: int
    const power: int

    ghost predicate Valid()
      reads this
    {
      0 <= hp <= maxHp
    }

    /** `Fighter(hp, defense, power)`: starts at full health. */
    constructor (hp: int, defense: int, power: int)
      requires hp >= 0
      ensures Valid() && this.hp == hp && maxHp == hp
      ensures this.defense == defense && this.power == power && entity == null
    {
      maxHp, this.hp := hp, hp;
      this.defense, this.power := defense, power;
      entity := null;
    }

    /** The `hp` setter: `max(0, min(value, max_hp))`. */
    method SetHp(value: int)
      requires Valid()
      modifies this`hp
      ensures Valid() && hp == Clamp(value, 0, maxHp)
    {
      hp := Clamp(value, 0, maxHp);
    }

    /** `take_damage`: the mitigated amount comes off hp, which stops at 0. */
    method TakeDamage(amount: int) returns (actual: int)
      requires Valid()
      modifies this`hp
      ensures Valid()
      ensures actual == Mitigated(amount, defense)
      ensures hp == Max(0, old(hp) - actual)
    {
      actual := Mitigated(amount, defense);
      SetHp(hp - actual);
    }

    /** `heal`: hp rises by at most `amount` and never above max_hp; the gain is returned. */
    method Heal(amount: int) returns (gained: int)
      requires Valid()
      modifies this`hp
      ensures Valid()
      ensures hp == Clamp(old(hp) + amount, 0, maxHp)
      ensures gained == hp - old(hp)
      ensures amount >= 0 ==> 0 <= gained <= amount
    {
      var before := hp;
      SetHp(Min(maxHp, hp + amount));
      gained := hp - before;
    }

    /** `attack(target)`: deals `power` through the target's `take_damage`;
        (0, false) when the target has no fighter. */
    method Attack(target: Entity) returns (damage: int, dead: bool)
      requires target.fighter != null ==> target.fighter.Valid()
      modifies target.fighter
      ensures target.fighter == null ==> damage == 0 && !dead
      ensures target.fighter != null ==>
        && target.fighter.Valid()
        && damage == Mitigated(power, target.fighter.defense)
        && target.fighter.hp == Max(0, old(target.fighter.hp) - damage)
        && dead == (target.fighter.hp <= 0)
    {
      var f := target.fighter;
      if f == null {
        return 0, false;
      }
      damage := f.TakeDamage(power);
      dead := f.hp <= 0;
    }
  }

  /** Lower-casing of the ASCII letters, as `str.lower` does for them. */
  function AsciiLower(c: char): (r: char)
    ensures 'A' <= c <= 'Z' ==> r as int == c as int + 32
    ensures !('A' <= c <= 'Z') ==> r == c
  {
    if 'A' <= c <= 'Z' then (c as int + 32) as char else c
  }

  /** `ord(char.lower()) - ord('a')`. */
  function LetterIndex(c: char): (i: int)
    ensures 'a' <= c <= 'z' ==> i == c as int - 'a' as int
    ensures 'A' <= c <= 'Z' ==> i == c as int - 'A' as int
  {
    AsciiLower(c) as int - 'a' as int
  }

  lemma LettersIndexTheAlphabet(c: char)
    requires 'a' <= c <= 'z' || 'A' <= c <= 'Z'
    ensures 0 <= LetterIndex(c) < 26
    ensures LetterIndex(AsciiLower(c)) == LetterIndex(c)
  {}

  /** An inventory is falsy exactly when it holds nothing, whatever its
      capacity. */
  lemma FalsyExactlyWhenEmpty(inv: Inventory)
    ensures !inv.Truthy() <==> inv.Len() == 0
    ensures !inv.Truthy() <==> inv.items == []
  {
  }

  class Inventory {
    const capacity: int
    var items: seq<Entity>
    var entity: Entity?

    /** `Inventory(capacity=26)`. */
    constructor (capacity: int)
      ensures this.capacity == capacity && items == [] && entity == null
    {
      this.capacity := capacity;
      items := [];
      entity := null;
    }

    /** `__len__`. */
    function Len(): (n: nat)
      reads this
      ensures n == |items|
    {
      |items|
    }

    /** `bool(inventory)`: Python takes an object that defines `__len__` as
        true exactly when its length is not zero. */
    predicate Truthy()
      reads this
    {
      Len() != 0
    }

    /** `is_full`: `len(items) >= capacity`. */
    predicate IsFull()
      reads this
    {
      |items| >= capacity
    }

    /** `add`: appends unless full. */
    method Add(item: Entity) returns (ok: bool)
      modifies this`items
      ensures ok == !old(IsFull())
      ensures items == if ok then old(items) + [item] else old(items)
      ensures old(|items|) <= capacity ==> |items| <= capacity
    {
      if IsFull() {
        return false;
      }
      items := items + [item];
      ok := true;
    }

    /** `remove`: deletes the first occurrence when present. */
    method Remove(item: Entity) returns (ok: bool)
      modifies this`items
      ensures ok == (item in old(items))
      ensures items == RemoveFirst(old(items), item)
      ensures ok ==> multiset(items) == multiset(old(items)) - multiset{item}
      ensures !ok ==> items == old(items)
    {
      ok := item in items;
      RemoveFirstAbsent(items, item);
      RemoveFirstMultiset(items, item);
      items := RemoveFirst(items, item);
    }

    /** `get_item_at`: the item at a valid index, None elsewhere. */
    function GetItemAt(index: int): (r: Entity?)
      reads this
      ensures r != null <==> 0 <= index < |items|
      ensures r != null ==> r == items[index]
    {
      if 0 <= index < |items| then items[index] else null
    }

    /** `get_item_by_char`: letter 'a' or 'A' is slot 0, and so on. */
    function GetItemByChar(c: char): (r: Entity?)
      reads this
      ensures ('a' <= c <= 'z' || 'A' <= c <= 'Z') && LetterIndex(c) < |items| ==> r == items[LetterIndex(c)]
      ensures !(0 <= LetterIndex(c) < |items|) ==> r == null
    {
      GetItemAt(LetterIndex(c))
    }
  }

  class Survival {
    const maxHunger: int
    const maxThirst: int
    const maxStamina: int
    var hunger: int
    var thirst: int
    var stamina: int
    var isResting: bool
    var isStarving: bool
    var isDehydrated: bool
    var entity: Entity?

    ghost predicate Valid()
      reads this
    {
      && 0 <= hunger <= maxHunger && 0 <= thirst <= maxThirst && 0 <= stamina <= maxStamina
      && (isStarving ==> hunger == 0) && (isDehydrated ==> thirst == 0)
    }

    /** `Survival(max_hunger=1000, max_thirst=1000, max_stamina=100)`: every meter full. */
    constructor (maxHunger: int, maxThirst: int, maxStamina: int)
      requires maxHunger >= 0 && maxThirst >= 0 && maxStamina >= 0
      ensures Valid()
      ensures this.maxHunger == maxHunger && this.maxThirst == maxThirst && this.maxStamina == maxStamina
      ensures hunger == maxHunger && thirst == maxThirst && stamina == maxStamina
      ensures !isResting && !isStarving && !isDehydrated && entity == null
    {
      this.maxHunger, this.maxThirst, this.maxStamina := maxHunger, maxThirst, maxStamina;
      hunger, thirst, stamina := maxHunger, maxThirst, maxStamina;
      isResting, isStarving, isDehydrated := false, false, false;
      entity := null;
    }

    /** The hunger setter: clamps and recomputes `is_starving`. */
    method SetHunger(value: int)
      requires Valid()
      modifies this`hunger, this`isStarving
      ensures Valid()
      ensures hunger == Clamp(value, 0, maxHunger) && isStarving == (hunger == 0)
    {
      hunger := Clamp(value, 0, maxHunger);
      isStarving := hunger <= 0;
    }

    /** The thirst setter: clamps and recomputes `is_dehydrated`. */
    method SetThirst(value: int)
      requires Valid()
      modifies this`thirst, this`isDehydrated
      ensures Valid()
      ensures thirst == Clamp(value, 0, maxThirst) && isDehydrated == (thirst == 0)
    {
      thirst := Clamp(value, 0, maxThirst);
      isDehydrated := thirst <= 0;
    }

    /** The stamina setter: clamps only. */
    method SetStamina(value: int)
      requires Valid()
      modifies this`stamina
      ensures Valid() && stamina == Clamp(value, 0, maxStamina)
    {
      stamina := Clamp(value, 0, maxStamina);
    }

    function HungerStatus(): Status reads this { StatusOf(hunger) }

    function ThirstStatus(): Status reads this { StatusOf(thirst) }

    /** `process_turn` without the temperature step: hunger -1, thirst -2, stamina
        +5 resting or +1 otherwise, each clamped, and a message for each meter
        whose status changed, hunger first. */
    method ProcessTurn() returns (messages: seq<string>)
      requires Valid()
      modifies this`hunger, this`isStarving, this`thirst, this`isDehydrated, this`stamina
      ensures Valid()
      ensures hunger == Max(0, old(hunger) - 1) && isStarving == (hunger == 0)
      ensures thirst == Max(0, old(thirst) - 2) && isDehydrated == (thirst == 0)
      ensures stamina == Min(maxStamina, old(stamina) + (if isResting then 5 else 1))
      ensures messages == TransitionMessages(Hunger, old(hunger), hunger)
                        + TransitionMessages(Thirst, old(thirst), thirst)
    {
      var h0, t0 := hunger, thirst;
      SetHunger(hunger - 1);
      SetThirst(thirst - 2);
      if isResting {
        SetStamina(stamina + 5);
      } else {
        SetStamina(stamina + 1);
      }
      messages := TransitionMessages(Hunger, h0, hunger) + TransitionMessages(Thirst, t0, thirst);
    }

    /** `eat`: hunger rises by the nutrition, clamped, and the verdict depends on the new level. */
    method Eat(nutrition: int) returns (msg: string)
      requires Valid()
      modifies this`hunger, this`isStarving
      ensures Valid()
      ensures hunger == Clamp(old(hunger) + nutrition, 0, maxHunger)
      ensures nutrition >= 0 ==> hunger - old(hunger) == Min(nutrition, maxHunger - old(hunger))
      ensures msg == IntakeMessage(Hunger, hunger, maxHunger, hunger - old(hunger))
      ensures msg == CannotEat <==> hunger <= old(hunger)
    {
      var before := hunger;
      SetHunger(hunger + nutrition);
      msg := IntakeMessage(Hunger, hunger, maxHunger, hunger - before);
    }

    /** `drink`: the same rule for thirst. */
    method Drink(hydration: int) returns (msg: string)
      requires Valid()
      modifies this`thirst, this`isDehydrated
      ensures Valid()
      ensures thirst == Clamp(old(thirst) + hydration, 0, maxThirst)
      ensures hydration >= 0 ==> thirst - old(thirst) == Min(hydration, maxThirst - old(thirst))
      ensures msg == IntakeMessage(Thirst, thirst, maxThirst, thirst - old(thirst))
      ensures msg == CannotDrink <==> thirst <= old(thirst)
    {
      var before := thirst;
      SetThirst(thirst + hydration);
      msg := IntakeMessage(Thirst, thirst, maxThirst, thirst - before);
    }

    method Rest() returns (msg: string)
      modifies this`isResting
      ensures isResting && msg == RestStarted
    {
      isResting := true;
      msg := RestStarted;
    }

    method StopRest() returns (msg: string)
      modifies this`isResting
      ensures !isResting && msg == RestStopped
    {
      isResting := false;
      msg := RestStopped;
    }

    /** `get_status_string` (body temperature taken as normal). */
    function GetStatusString(): (s: string)
      reads this
      ensures s == "정상" <==> HungerStatus() == Normal && ThirstStatus() == Normal
      ensures HungerStatus() != Normal && ThirstStatus() == Normal ==> s == HungerWord(HungerStatus()).value
      ensures HungerStatus() == Normal && ThirstStatus() != Normal ==> s == ThirstWord(ThirstStatus()).value
      ensures HungerStatus() != Normal && ThirstStatus() != Normal ==>
        s == HungerWord(HungerStatus()).value + ", " + ThirstWord(ThirstStatus()).value
    {
      StatusLine(hunger, thirst)
    }
  }

  class NpcComponent {
    const role: NpcRules.NPCRole
    const dialogues: map<string, NpcRules.Dialogue>
    var shopInventory: seq<Entity>
    const gold: int
    const faction: string
    var currentDialogueId: string
    var disposition: int
    var entity: Entity?

    /** `NPCComponent(role, dialogues, shop_inventory, gold, faction)`. */
    constructor (role: NpcRules.NPCRole, dialogues: map<string, NpcRules.Dialogue>,
                 shopInventory: seq<Entity>, gold: int, faction: string)
      ensures this.role == role && this.dialogues == dialogues && this.shopInventory == shopInventory
      ensures this.gold == gold && this.faction == faction
      ensures currentDialogueId == "greeting" && disposition == 50 && entity == null
    {
      this.role, this.dialogues, this.shopInventory := role, dialogues, shopInventory;
      this.gold, this.faction := gold, faction;
      currentDialogueId := "greeting";
      disposition := 50;
      entity := null;
    }

    predicate IsFriendly() reads this { NpcRules.IsFriendly(disposition) }

    predicate IsHostile() reads this { NpcRules.IsHostile(disposition) }

    function GetGreeting(): string reads this { NpcRules.Greeting(role, disposition) }

    /** `change_disposition`: clamps to [0, 100] and reports the change under the
        owner's name. */
    method ChangeDisposition(amount: int) returns (msg: string)
      requires entity != null
      modifies this`disposition
      ensures disposition == NpcRules.NewDisposition(old(disposition), amount)
      ensures msg == NpcRules.DispositionMessage(entity.name, old(disposition), disposition)
    {
      var before := disposition;
      disposition := NpcRules.NewDisposition(disposition, amount);
      msg := NpcRules.DispositionMessage(entity.name, before, disposition);
    }

    method AddToShop(item: Entity)
      modifies this`shopInventory
      ensures shopInventory == old(shopInventory) + [item]
    {
      shopInventory := shopInventory + [item];
    }

    /** `remove_from_shop`: removes the first occurrence when present. */
    method RemoveFromShop(item: Entity) returns (ok: bool)
      modifies this`shopInventory
      ensures ok == (item in old(shopInventory))
      ensures shopInventory == RemoveFirst(old(shopInventory), item)
      ensures ok ==> multiset(shopInventory) == multiset(old(shopInventory)) - multiset{item}
      ensures !ok ==> shopInventory == old(shopInventory)
    {
      ok := item in shopInventory;
      RemoveFirstAbsent(shopInventory, item);
      RemoveFirstMultiset(shopInventory, item);
      shopInventory := RemoveFirst(shopInventory, item);
    }
  }

  /** `HostileAI(detection_range)` or `PassiveAI(flee_hp_percent)`. */
  class AiComponent {
    const kind: AiKind
    const detectionRange: int
    const fleeHpPercent: real
    var isHostile: bool
    var entity: Entity?

    constructor Hostile(detectionRange: int)
      ensures kind == AiKind.Hostile && this.detectionRange == detectionRange && entity == null && !isHostile
    {
      kind := AiKind.Hostile;
      this.detectionRange := detectionRange;
      fleeHpPercent := 0.0;
      isHostile := false;
      entity := null;
    }

    constructor Passive(fleeHpPercent: real)
      ensures kind == AiKind.Passive && this.fleeHpPercent == fleeHpPercent && !isHostile && entity == null
    {
      kind := AiKind.Passive;
      detectionRange := 0;
      this.fleeHpPercent := fleeHpPercent;
      isHostile := false;
      entity := null;
    }

    /** `become_hostile`. */
    method BecomeHostile()
      modifies this`isHostile
      ensures isHostile
    {
      isHostile := true;
    }
  }
}
