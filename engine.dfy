// The Python game engine of src/systems/engine.py: the bounded message log,
// the game state, the turn clock, and the rules for moving, attacking, dying,
// the enemies' turn, picking up, using and dropping items.  Messages keep
// their colour; the environment temperature and the look of the dead player
// (its glyph and colour) are not modelled.

module Engines {

  import opened Util
  import opened Geometry
  import opened Tiles
  import opened Components
  import opened GameMaps
  import opened Ai
  import opened Clocks
  import opened SurvivalRules
  import opened EnemyMoves

  datatype GameState = MainMenu | Playing | PlayerDead | InventoryScreen | Targeting | Look

  type Color = (int, int, int)

  datatype Message = Message(text: string, color: Color)

  const White: Color := (255, 255, 255)
  const Gray: Color := (128, 128, 128)

  /** The log after `MessageLog.add`: the message goes last, and one oldest
      message goes once the log is longer than `max`. */
  function LogAdd(log: seq<Message>, m: Message, max: int): seq<Message>
  {
    var l := log + [m];
    if |l| > max then l[1..] else l
  }

  /** A log within its bound stays within it, ends with the new message, and
      loses at most its oldest message, and only when it was full. */
  lemma LogAddShape(log: seq<Message>, m: Message, max: int)
    requires 0 < max && |log| <= max
    ensures var r := LogAdd(log, m, max);
      && |r| <= max && r[|r| - 1] == m
      && (|log| < max ==> r == log + [m])
      && (|log| == max ==> r == log[1..] + [m])
  {
  }

  /** The log after adding each of `ms` in turn. */
  function LogAddAll(log: seq<Message>, ms: seq<Message>, max: int): seq<Message>
    decreases |ms|
  {
    if ms == [] then log else LogAddAll(LogAdd(log, ms[0], max), ms[1..], max)
  }

  /** Adding several messages keeps a log within its bound. */
  lemma {:induction false} LogAddAllBounded(log: seq<Message>, ms: seq<Message>, max: int)
    requires 0 < max && |log| <= max
    ensures |LogAddAll(log, ms, max)| <= max
    decreases |ms|
  {
    if ms != [] {
      LogAddShape(log, ms[0], max);
      LogAddAllBounded(LogAdd(log, ms[0], max), ms[1..], max);
    }
  }

  /** Adding a run of one message is adding the message. */
  lemma LogAddAllOne(log: seq<Message>, m: Message, max: int)
    ensures LogAddAll(log, [m], max) == LogAdd(log, m, max)
  {
    assert [m][1..] == [];
  }

  /** Adding a message after a run of messages is adding the longer run. */
  lemma {:induction false} LogAddAllSnoc(log: seq<Message>, ms: seq<Message>, m: Message, max: int)
    ensures LogAddAll(log, ms + [m], max) == LogAdd(LogAddAll(log, ms, max), m, max)
    decreases |ms|
  {
    if ms == [] {
      assert ms + [m] == [m];
    } else {
      assert (ms + [m])[1..] == ms[1..] + [m];
      LogAddAllSnoc(LogAdd(log, ms[0], max), ms[1..], m, max);
    }
  }

  /** Adding two runs one after the other is adding their concatenation. */
  lemma {:induction false} LogAddAllAppend(log: seq<Message>, ms: seq<Message>, ns: seq<Message>, max: int)
    ensures LogAddAll(log, ms + ns, max) == LogAddAll(LogAddAll(log, ms, max), ns, max)
    decreases |ms|
  {
    if ms == [] {
      assert ms + ns == ns;
    } else {
      assert (ms + ns)[1..] == ms[1..] + ns;
      LogAddAllAppend(LogAdd(log, ms[0], max), ms[1..], ns, max);
    }
  }

  /** Python `s[start:]`: a negative start counts back from the end, and
      both kinds are cut to the list. */
  function SliceFrom<T>(s: seq<T>, start: int): (r: seq<T>)
    ensures |r| <= |s| && r == s[|s| - |r|..]
    ensures start >= 0 ==> |r| == Max(0, |s| - start)
    ensures start < 0 ==> |r| == Min(-start, |s|)
  {
    var k := if start < 0 then Max(0, |s| + start) else Min(start, |s|);
    s[k..]
  }

  /** Each of `texts` as a message of one colour. */
  function Colored(texts: seq<string>, c: Color): (r: seq<Message>)
    ensures |r| == |texts|
    ensures forall i | 0 <= i < |texts| :: r[i] == Message(texts[i], c)
  {
    seq(|texts|, i requires 0 <= i < |texts| => Message(texts[i], c))
  }

  class MessageLog {
    var messages: seq<Message>
    const maxMessages: int

    /** `MessageLog(max_messages=100)`. */
    constructor (maxMessages: int)
      ensures messages == [] && this.maxMessages == maxMessages
    {
      messages := [];
      this.maxMessages := maxMessages;
    }

    /** `add(text, color)`. */
    method Add(text: string, color: Color)
      modifies this`messages
      ensures messages == LogAdd(old(messages), Message(text, color), maxMessages)
    {
      messages := messages + [Message(text, color)];
      if |messages| > maxMessages {
        messages := messages[1..];
      }
    }

    /** `get_recent(count)` is `messages[-count:]`: the last `count` messages
        for a positive count, the whole log for 0, and the log without its
        first `-count` messages for a negative count. */
    function GetRecent(count: int): (r: seq<Message>)
      reads this
      ensures |r| <= |messages| && r == messages[|messages| - |r|..]
      ensures count > 0 ==> |r| == Min(count, |messages|)
      ensures count == 0 ==> r == messages
      ensures count < 0 ==> |r| == Max(0, |messages| + count)
    {
      SliceFrom(messages, -count)
    }

    /** A run of `add` calls with one colour, in order. */
    method AddAll(texts: seq<string>, color: Color)
      modifies this`messages
      ensures messages == LogAddAll(old(messages), Colored(texts, color), maxMessages)
    {
      ghost var start := messages;
      for i := 0 to |texts|
        invariant messages == LogAddAll(start, Colored(texts[..i], color), maxMessages)
      {
        Add(texts[i], color);
        assert Colored(texts[..i + 1], color) == Colored(texts[..i], color) + [Message(texts[i], color)];
        LogAddAllSnoc(start, Colored(texts[..i], color), Message(texts[i], color), maxMessages);
      }
      assert texts[..|texts|] == texts;
    }

    /** `clear`. */
    method Clear()
      modifies this`messages
      ensures messages == []
    {
      messages := [];
    }
  }

  /** The names of `s`, in order. */
  function Names(s: seq<Entity>): (r: seq<string>)
    reads set e | e in s
    ensures |r| == |s| && forall i | 0 <= i < |s| :: r[i] == s[i].name
  {
    if s == [] then [] else [s[0].name] + Names(s[1..])
  }

  /** The message for the items at the player's new cell. */
  function ItemsHereText(here: seq<Entity>): string
    reads set e | e in here
  {
    "여기에 " + Join(Names(here), ", ") + "이(가) 있다."
  }

  /** The message of the player's death. */
  const DeathMessage := Message("당신은 죽었다...", (255, 0, 0))

  /** The name of the item `use_item` treats as a healing potion. */
  const HealingPotion := "치료 물약"

  /** The guard of `pickup_item` as written, `not self.game_map or not
      self.player.inventory`: an `Inventory` defines `__len__`, so an empty
      one is falsy and refuses the pickup like a missing one. */
  predicate PickupRefusedAsWritten(hasMap: bool, inv: Inventory?)
    reads inv
  {
    !hasMap || inv == null || !inv.Truthy()
  }

  /** The guard `pickup_item` evidently means: no map, or no inventory. */
  predicate PickupRefused(hasMap: bool, inv: Inventory?)
  {
    !hasMap || inv == null
  }

  /** With the guard as written, a player with an empty inventory never picks
      anything up, though the inventory has room: the guard refuses exactly
      the inventories that have nothing in them yet. */
  lemma EmptyInventoryNeverPicksUp(inv: Inventory)
    requires inv.items == [] && inv.capacity > 0
    ensures PickupRefusedAsWritten(true, inv)
    ensures !PickupRefused(true, inv) && !inv.IsFull()
  {
    FalsyExactlyWhenEmpty(inv);
  }

  /** The two guards differ exactly on empty inventories. */
  lemma PickupGuardsDiffer(hasMap: bool, inv: Inventory?)
    ensures PickupRefusedAsWritten(hasMap, inv) == (PickupRefused(hasMap, inv) || inv.Len() == 0)
  {
  }

  /** The report of eating `nutrition` at `hunger` of `maxHunger`, in green. */
  function EatReport(nutrition: int, hunger: int, maxHunger: int): (m: Message)
    ensures m.color == (0, 255, 0)
    ensures 0 <= hunger <= maxHunger && nutrition > 0 ==> (m.text == CannotEat <==> hunger == maxHunger)
  {
    var h := Clamp(hunger + nutrition, 0, maxHunger);
    Message(IntakeMessage(Hunger, h, maxHunger, h - hunger), (0, 255, 0))
  }

  /** The report of drinking `hydration` at `thirst` of `maxThirst`, in cyan. */
  function DrinkReport(hydration: int, thirst: int, maxThirst: int): (m: Message)
    ensures m.color == (0, 200, 255)
    ensures 0 <= thirst <= maxThirst && hydration > 0 ==> (m.text == CannotDrink <==> thirst == maxThirst)
  {
    var t := Clamp(thirst + hydration, 0, maxThirst);
    Message(IntakeMessage(Thirst, t, maxThirst, t - thirst), (0, 200, 255))
  }

  /** The report of a healing potion that gave `gain` hp, in green. */
  function HealMessage(gain: int): Message
  {
    Message("체력이 " + IntToString(gain) + " 회복되었다!", (0, 255, 0))
  }

  /** The report of an enemy's blow of `damage` on the player: the damage
      in light red, or a blocked blow in gray when nothing got through. */
  function EnemyBlowMessage(name: string, damage: int): (m: Message)
    ensures damage > 0 ==> m.color == (255, 100, 100) && m.text == name + "이(가) 당신에게 " + IntToString(damage) + " 데미지를 입혔다!"
    ensures damage <= 0 ==> m.color == (200, 200, 200) && m.text == name + "이(가) 당신을 공격했지만 막아냈다."
  {
    if damage > 0 then Message(name + "이(가) 당신에게 " + IntToString(damage) + " 데미지를 입혔다!", (255, 100, 100))
    else Message(name + "이(가) 당신을 공격했지만 막아냈다.", (200, 200, 200))
  }

  /** The item `_kill_entity` leaves where a monster died. */
  ghost predicate CorpseOf(c: Entity, e: Entity, glyph: char)
    reads c, e
  {
    && c.kind == ItemEntity && !c.blocksMovement
    && c.x == e.x && c.y == e.y && c.glyph == glyph && c.name == e.name + "의 시체"
    && c.consumable && c.nutrition == 100 && c.hydration == 20
  }

  /** The entities of a map with their AI and fighter components. */
  function Parts(s: seq<Entity>): set<object>
    reads set e | e in s
  {
    (set e | e in s :: e as object)
    + (set e | e in s && e.fighter != null :: e.fighter as object)
    + (set e | e in s && e.ai != null :: e.ai as object)
  }

  /** What the enemies' turn relies on: every entity stands on the map, every
      AI points back at its owner, and every fighter's hp lies in [0, max_hp]. */
  ghost predicate Settled(m: GameMap)
    reads m, Parts(m.entities)
  {
    && m.Valid()
    && (forall e | e in m.entities :: m.InBounds(e.x, e.y))
    && (forall e | e in m.entities && e.ai != null :: e.ai.entity == e)
    && (forall e | e in m.entities && e.fighter != null :: e.fighter.Valid())
  }

  /** The positions of `s`, in order. */
  ghost function Positions(s: seq<Entity>): (r: seq<Cell>)
    reads set e | e in s
    ensures |r| == |s| && forall k | 0 <= k < |s| :: r[k] == (s[k].x, s[k].y)
  {
    seq(|s|, k requires 0 <= k < |s| reads s => (s[k].x, s[k].y))
  }

  /** The AI components of `s`, in order. */
  ghost function AisOf(s: seq<Entity>): (r: seq<AiComponent?>)
    reads (set e | e in s)`ai
    ensures |r| == |s| && forall k | 0 <= k < |s| :: r[k] == s[k].ai
  {
    if s == [] then [] else AisOf(s[..|s| - 1]) + [s[|s| - 1].ai]
  }

  /** The fighter components of `s`, in order. */
  ghost function FightersOf(s: seq<Entity>): (r: seq<Fighter?>)
    reads set e | e in s
    ensures |r| == |s| && forall k | 0 <= k < |s| :: r[k] == s[k].fighter
  {
    seq(|s|, k requires 0 <= k < |s| reads s => s[k].fighter)
  }

  /** The state the enemies' turn keeps: the map is `Settled`, the entities
      keep their components, and each entity either stands where it stood at
      the start (`start`) or on a walkable tile other than the player's cell. */
  ghost predicate TurnState(m: GameMap, start: seq<Cell>, ais: seq<AiComponent?>, fighters: seq<Fighter?>, p: Cell)
    reads m, m.tiles, Parts(m.entities)
  {
    && Settled(m)
    && |start| == |m.entities| && |ais| == |m.entities| && |fighters| == |m.entities|
    && (forall k | 0 <= k < |m.entities| :: m.entities[k].ai == ais[k] && m.entities[k].fighter == fighters[k])
    && (forall k | 0 <= k < |m.entities| ::
          (m.entities[k].x, m.entities[k].y) == start[k]
          || (Walkable(m.tiles[m.entities[k].x, m.entities[k].y]) && (m.entities[k].x, m.entities[k].y) != p))
  }

  /** No two blocking entities share a cell. */
  ghost predicate Apart(s: seq<Entity>)
    reads set e | e in s
  {
    forall i, j | 0 <= i < j < |s| && s[i].blocksMovement && s[j].blocksMovement ::
      (s[i].x, s[i].y) != (s[j].x, s[j].y)
  }

  /** `actor.ai.perform(game_map, player)`: the rule of the actor's AI class. */
  function Decide(ai: AiComponent, m: GameMap, target: Entity?, roll: Fraction, order: seq<Cell>): (r: Option<Cell>)
    requires m.Valid()
    requires ai.entity != null ==> m.InBounds(ai.entity.x, ai.entity.y)
    requires ai.entity != null && ai.entity.fighter != null ==> ai.entity.fighter.maxHp != 0
    requires multiset(order) == multiset(Directions8)
    reads ai, ai.entity, target, m, m.tiles, m.visible, m.EntitySet()
    reads if ai.entity == null then {} else {ai.entity.fighter}
    ensures ai.entity == null ==> r == None
    ensures ai.kind == Hostile ==> r == HostilePerform(ai, m, target, roll, order)
    ensures ai.kind == Passive ==> r == PassivePerform(ai, m, target, roll, order)
    ensures r.Some? ==> UnitStep(r.value)
  {
    if ai.kind == Hostile then HostilePerform(ai, m, target, roll, order)
    else PassivePerform(ai, m, target, roll, order)
  }

  /** The player's hp, the message log and the game state. */
  datatype Standing = Standing(hp: int, log: seq<Message>, state: GameState)

  /** `_handle_enemy_attack`: what an actor's turn does to the player standing
      on `p`.  A blow is reported and takes the player's hp down by its damage
      to no less than 0; at 0 the player dies.  Any other turn, and an attack
      without a fighter on either side, leaves the player as it was. */
  function Suffer(mv: EnemyMove, p: Cell, s: Standing, max: int): (r: Standing)
    ensures !(Attacks(mv, p) && mv.blow.Some?) ==> r == s
    ensures Attacks(mv, p) && mv.blow.Some? ==>
      && r.hp == Max(0, s.hp - mv.blow.value)
      && (max > 0 ==> |r.log| >= 1 && r.log[|r.log| - 1] == (if r.hp > 0 then EnemyBlowMessage(mv.name, mv.blow.value) else DeathMessage))
      && r.state == (if r.hp > 0 then s.state else PlayerDead)
  {
    if Attacks(mv, p) && mv.blow.Some? then
      var hp := Max(0, s.hp - mv.blow.value);
      var struck := LogAdd(s.log, EnemyBlowMessage(mv.name, mv.blow.value), max);
      if hp > 0 then Standing(hp, struck, s.state)
      else Standing(hp, LogAdd(struck, DeathMessage, max), PlayerDead)
    else s
  }

  /** The actors' turns `moves`, one after the other. */
  function SufferAll(moves: seq<EnemyMove>, p: Cell, s: Standing, max: int): Standing
  {
    if moves == [] then s
    else Suffer(moves[|moves| - 1], p, SufferAll(moves[..|moves| - 1], p, s, max), max)
  }

  /** One more turn at the end of a run of turns is suffered after them. */
  lemma SufferAllStep(moves: seq<EnemyMove>, mv: EnemyMove, p: Cell, s: Standing, max: int)
    ensures SufferAll(moves + [mv], p, s, max) == Suffer(mv, p, SufferAll(moves, p, s, max), max)
  {
    assert (moves + [mv])[..|moves|] == moves;
  }

  /** Over a whole enemies' turn the player's hp never rises nor drops below
      0, and the game ends exactly when the hp reaches 0: a player alive with
      positive hp at the start is dead at the end if and only if the hp is 0. */
  lemma {:induction false} SufferAllKeepsDeathAtZero(moves: seq<EnemyMove>, p: Cell, s: Standing, max: int)
    requires s.hp >= 0 && (s.state == PlayerDead <==> s.hp == 0)
    ensures var r := SufferAll(moves, p, s, max);
      && 0 <= r.hp <= s.hp
      && (r.state == PlayerDead <==> r.hp == 0)
      && (r.state == s.state || r.state == PlayerDead)
    decreases |moves|
  {
    if moves != [] {
      SufferAllKeepsDeathAtZero(moves[..|moves| - 1], p, s, max);
    }
  }

  class Engine {
    const player: Entity
    const gameMap: GameMap?
    const messageLog: MessageLog
    var gameState: GameState
    var turnCount: int
    var hour: int
    var day: int
    /** `Symbols.CORPSE`, the glyph of a corpse. */
    const corpseGlyph: char

    /** `Engine(player, game_map)`: playing, turn 0, 08:00 of day 1, a log of 100. */
    constructor (player: Entity, gameMap: GameMap?, corpseGlyph: char)
      ensures this.player == player && this.gameMap == gameMap && this.corpseGlyph == corpseGlyph
      ensures fresh(messageLog) && messageLog.messages == [] && messageLog.maxMessages == 100
      ensures gameState == Playing && turnCount == 0 && hour == 8 && day == 1
    {
      this.player, this.gameMap, this.corpseGlyph := player, gameMap, corpseGlyph;
      messageLog := new MessageLog(100);
      gameState, turnCount, hour, day := Playing, 0, 8, 1;
    }

    ghost predicate Valid()
      reads this, gameMap, player, player.fighter, player.survival
    {
      && (gameMap != null ==> gameMap.Valid())
      && (player.fighter != null ==> player.fighter.Valid())
      && (player.survival != null ==> player.survival.Valid())
    }

    /** `_kill_entity(entity)`: the player's death ends the game; any other
        entity leaves the map's entities and a corpse joins its items. */
    method KillEntity(e: Entity)
      requires e == player || gameMap != null
      modifies messageLog`messages, this`gameState, gameMap
      ensures e == player ==>
        && gameState == PlayerDead
        && messageLog.messages == LogAdd(old(messageLog.messages), DeathMessage, messageLog.maxMessages)
        && (gameMap != null ==> gameMap.entities == old(gameMap.entities) && gameMap.items == old(gameMap.items))
      ensures e != player ==>
        && gameState == old(gameState) && messageLog.messages == old(messageLog.messages)
        && gameMap.entities == RemoveFirst(old(gameMap.entities), e)
        && |gameMap.items| == |old(gameMap.items)| + 1
        && gameMap.items[..|old(gameMap.items)|] == old(gameMap.items)
        && fresh(gameMap.items[|old(gameMap.items)|])
        && CorpseOf(gameMap.items[|old(gameMap.items)|], e, corpseGlyph)
    {
      if e == player {
        KillPlayer();
      } else {
        var corpse := new Entity.Item(e.x, e.y, corpseGlyph, e.name + "의 시체", true, 100, 20);
        gameMap.AddItem(corpse);
        gameMap.RemoveEntity(e);
      }
    }

    /** `_kill_entity(player)`: the game is over. */
    method KillPlayer()
      modifies messageLog`messages, this`gameState
      ensures gameState == PlayerDead
      ensures messageLog.messages == LogAdd(old(messageLog.messages), DeathMessage, messageLog.maxMessages)
    {
      messageLog.Add(DeathMessage.text, DeathMessage.color);
      gameState := PlayerDead;
    }

    /** What `_handle_melee_attack(target)` leaves behind, with `ok` its
        result: without a fighter on either side nothing changes and the
        result is false; otherwise the player's blow lands through the
        target's defense and is reported, and a target brought to 0 hp is
        reported slain, leaves the entities and adds its corpse as the last
        item.  The game state and the target's fighter are kept either way. */
    twostate predicate MeleeDone(target: Entity, ok: bool)
      requires gameMap != null
      reads this, player, player.fighter, target, target.fighter, messageLog, gameMap
      reads set e | e in gameMap.items
    {
      && gameState == old(gameState) && target.fighter == old(target.fighter)
      && (player.fighter == null || target.fighter == null ==>
            && !ok && messageLog.messages == old(messageLog.messages)
            && gameMap.entities == old(gameMap.entities) && gameMap.items == old(gameMap.items)
            && (target.fighter != null ==> target.fighter.hp == old(target.fighter.hp)))
      && (player.fighter != null && target.fighter != null ==>
            var damage := Mitigated(player.fighter.power, target.fighter.defense);
            var struck := LogAdd(old(messageLog.messages),
                                 if damage > 0 then Message(target.name + "에게 " + IntToString(damage) + " 데미지를 입혔다!", (255, 200, 200))
                                 else Message(target.name + "을(를) 공격했지만 데미지가 없다.", Gray),
                                 messageLog.maxMessages);
            && ok && target.fighter.Valid()
            && target.fighter.hp == Max(0, old(target.fighter.hp) - damage)
            && (target.fighter.hp > 0 ==>
                  messageLog.messages == struck
                  && gameMap.entities == old(gameMap.entities) && gameMap.items == old(gameMap.items))
            && (target.fighter.hp <= 0 ==>
                  && messageLog.messages == LogAdd(struck, Message(target.name + "을(를) 처치했다!", (255, 255, 0)), messageLog.maxMessages)
                  && gameMap.entities == RemoveFirst(old(gameMap.entities), target)
                  && |gameMap.items| == |old(gameMap.items)| + 1
                  && gameMap.items[..|old(gameMap.items)|] == old(gameMap.items)
                  && CorpseOf(gameMap.items[|old(gameMap.items)|], target, corpseGlyph)))
    }

    /** `_handle_melee_attack(target)`, as `MeleeDone` states it. */
    method HandleMeleeAttack(target: Entity) returns (ok: bool)
      requires Valid() && gameMap != null && target != player
      requires target.fighter != null ==> target.fighter.Valid()
      modifies target.fighter, messageLog`messages, this`gameState, gameMap
      ensures gameMap != null && MeleeDone(target, ok)
    {
      if player.fighter == null || target.fighter == null {
        return false;
      }
      var damage, dead := player.fighter.Attack(target);
      if damage > 0 {
        messageLog.Add(target.name + "에게 " + IntToString(damage) + " 데미지를 입혔다!", (255, 200, 200));
      } else {
        messageLog.Add(target.name + "을(를) 공격했지만 데미지가 없다.", Gray);
      }
      if dead {
        messageLog.Add(target.name + "을(를) 처치했다!", (255, 255, 0));
        KillEntity(target);
      }
      ok := true;
    }

    /** `handle_player_turn(dx, dy)`.  Outside play or without a map nothing
        happens.  A step off the map or onto an unwalkable tile is refused
        with a message.  An actor other than the player on the target cell is
        attacked instead, with the outcome `MeleeDone` states, the player
        standing still.  Otherwise the player moves, and the items there are
        named.  The result says whether the turn was used. */
    method HandlePlayerTurn(dx: int, dy: int) returns (consumed: bool)
      requires Valid()
      requires gameMap != null ==> forall e | e in gameMap.entities && e.fighter != null :: e.fighter.Valid()
      modifies player`x, player`y, messageLog`messages, this`gameState, gameMap
      modifies if gameMap == null then {} else set e | e in gameMap.entities && e.fighter != null :: e.fighter
      ensures var (nx, ny) := (old(player.x) + dx, old(player.y) + dy);
        var stays := player.x == old(player.x) && player.y == old(player.y);
        && (old(gameState) != Playing || gameMap == null ==>
              !consumed && stays && messageLog.messages == old(messageLog.messages) && gameState == old(gameState))
        && (old(gameState) == Playing && gameMap != null && !gameMap.InBounds(nx, ny) ==>
              && !consumed && stays && gameState == old(gameState)
              && gameMap.entities == old(gameMap.entities) && gameMap.items == old(gameMap.items)
              && messageLog.messages == LogAdd(old(messageLog.messages), Message("그쪽으로는 갈 수 없다.", Gray), messageLog.maxMessages))
        && (old(gameState) == Playing && gameMap != null && gameMap.InBounds(nx, ny) && !Walkable(gameMap.tiles[nx, ny]) ==>
              && !consumed && stays && gameState == old(gameState)
              && gameMap.entities == old(gameMap.entities) && gameMap.items == old(gameMap.items)
              && messageLog.messages == LogAdd(old(messageLog.messages), Message("벽이 막고 있다.", Gray), messageLog.maxMessages))
      ensures old(gameState) == Playing && gameMap != null && gameMap.InBounds(old(player.x) + dx, old(player.y) + dy)
              && Walkable(gameMap.tiles[old(player.x) + dx, old(player.y) + dy]) ==>
        var target := old(gameMap.GetActorAt(player.x + dx, player.y + dy));
        && (target != null && target != player ==>
              && player.x == old(player.x) && player.y == old(player.y)
              && (MeleeDone(target, consumed) == true))
        && (target == null || target == player ==>
              && consumed && player.x == old(player.x) + dx && player.y == old(player.y) + dy
              && gameState == old(gameState)
              && gameMap.entities == old(gameMap.entities) && gameMap.items == old(gameMap.items)
              && var here := ItemsAt(gameMap.items, player.x, player.y);
                 messageLog.messages == if here == [] then old(messageLog.messages)
                                        else LogAdd(old(messageLog.messages), Message(ItemsHereText(here), White), messageLog.maxMessages))
    {
      if gameState != Playing || gameMap == null {
        return false;
      }
      var nx, ny := player.x + dx, player.y + dy;
      if !gameMap.InBounds(nx, ny) {
        messageLog.Add("그쪽으로는 갈 수 없다.", Gray);
        return false;
      }
      if !Walkable(gameMap.tiles[nx, ny]) {
        messageLog.Add("벽이 막고 있다.", Gray);
        return false;
      }
      var target := gameMap.GetActorAt(nx, ny);
      if target != null && target != player {
        consumed := HandleMeleeAttack(target);
        return;
      }
      player.Move(dx, dy);
      var here := gameMap.GetItemsAt(player.x, player.y);
      if here != [] {
        messageLog.Add(ItemsHereText(here), White);
      }
      consumed := true;
    }

    /** `_handle_enemy_attack(attacker)`: the attacker's blow on the player,
        reported, with the player's death when it brings hp to 0. */
    method HandleEnemyAttack(attacker: Entity,
                             ghost start: seq<Cell>, ghost ais: seq<AiComponent?>, ghost fighters: seq<Fighter?>)
      requires Valid()
      requires gameMap != null ==> TurnState(gameMap, start, ais, fighters, (player.x, player.y))
      modifies player.fighter, messageLog`messages, this`gameState
      ensures Valid()
      ensures gameMap != null ==> TurnState(gameMap, start, ais, fighters, (player.x, player.y))
      ensures player.fighter != null ==> player.fighter.hp <= old(player.fighter.hp)
      ensures gameState == old(gameState) || gameState == PlayerDead
      ensures attacker.fighter == null || player.fighter == null ==>
        && messageLog.messages == old(messageLog.messages) && gameState == old(gameState)
        && (player.fighter != null ==> player.fighter.hp == old(player.fighter.hp))
      ensures attacker.fighter != null && player.fighter != null ==>
        var damage := Mitigated(attacker.fighter.power, player.fighter.defense);
        var struck := LogAdd(old(messageLog.messages),
                             EnemyBlowMessage(attacker.name, damage),
                             messageLog.maxMessages);
        && player.fighter.Valid()
        && player.fighter.hp == Max(0, old(player.fighter.hp) - damage)
        && (player.fighter.hp > 0 ==> messageLog.messages == struck && gameState == old(gameState))
        && (player.fighter.hp <= 0 ==>
              && messageLog.messages == LogAdd(struck, DeathMessage, messageLog.maxMessages)
              && gameState == PlayerDead)
    {
      if attacker.fighter == null || player.fighter == null {
        return;
      }
      var damage, dead := attacker.fighter.Attack(player);
      assert gameMap != null ==> TurnState(gameMap, start, ais, fighters, (player.x, player.y));
      ReportBlow(attacker.name, damage, dead);
    }

    /** The messages of an enemy's blow of `damage` on the player, and the
        player's death when `dead`. */
    method ReportBlow(name: string, damage: int, dead: bool)
      modifies messageLog`messages, this`gameState
      ensures var struck := LogAdd(old(messageLog.messages),
                                   EnemyBlowMessage(name, damage),
                                   messageLog.maxMessages);
        && (!dead ==> messageLog.messages == struck && gameState == old(gameState))
        && (dead ==> messageLog.messages == LogAdd(struck, DeathMessage, messageLog.maxMessages)
                     && gameState == PlayerDead)
    {
      var m := EnemyBlowMessage(name, damage);
      messageLog.Add(m.text, m.color);
      if dead {
        KillPlayer();
      }
    }

    /** The player's hp (0 without a fighter), the log and the game state. */
    function Now(): Standing
      reads this, player, player.fighter, messageLog
    {
      Standing(if player.fighter == null then 0 else player.fighter.hp, messageLog.messages, gameState)
    }

    /** The turn of `actor` choosing `step`, as the present state decides it. */
    function MoveFor(actor: Entity, step: Option<Cell>): EnemyMove
      requires gameMap != null && gameMap.Valid()
      reads this, player, player.fighter, actor, actor.fighter, gameMap, gameMap.tiles, gameMap.EntitySet()
    {
      var aim := Aim(EnemyMove(actor.name, (actor.x, actor.y), step, false, None));
      EnemyMove(actor.name, (actor.x, actor.y), step, step.Some? && gameMap.IsWalkable(aim.0, aim.1),
                if actor.fighter == null || player.fighter == null then None
                else Some(Mitigated(actor.fighter.power, player.fighter.defense)))
    }

    /** The turn of `actor` in `handle_enemy_turn`, drawing `roll` and `order`:
        the player and an actor without an AI do not act, any other actor
        takes the step its AI decides on. */
    ghost function MoveOf(actor: Entity, roll: Fraction, order: seq<Cell>): EnemyMove
      requires gameMap != null && Settled(gameMap) && actor in gameMap.entities
      requires actor.fighter != null && actor.fighter.maxHp > 0
      requires multiset(order) == multiset(Directions8)
      reads this, player, player.fighter, gameMap, gameMap.tiles, gameMap.visible, gameMap.EntitySet(), Parts(gameMap.entities)
    {
      MoveFor(actor, if actor == player || actor.ai == null then None else Decide(actor.ai, gameMap, player, roll, order))
    }

    /** What `handle_enemy_turn` does with the step (dx, dy) an actor's AI
        chose: onto the player's cell it is an attack, onto a walkable cell a
        move, and otherwise nothing; `Landing` and `Suffer` say the outcome. */
    method EnemyAct(actor: Entity, dx: int, dy: int,
                     ghost start: seq<Cell>, ghost ais: seq<AiComponent?>, ghost fighters: seq<Fighter?>)
      requires Valid() && gameMap != null && actor != player
      requires TurnState(gameMap, start, ais, fighters, (player.x, player.y))
      modifies actor`x, actor`y, player.fighter, messageLog`messages, this`gameState
      ensures Valid()
      ensures TurnState(gameMap, start, ais, fighters, (player.x, player.y))
      ensures var mv := old(MoveFor(actor, Some((dx, dy))));
        && (actor.x, actor.y) == Landing(mv, old((player.x, player.y)))
        && Now() == Suffer(mv, old((player.x, player.y)), old(Now()), messageLog.maxMessages)
      ensures player.fighter != null ==> player.fighter.hp <= old(player.fighter.hp)
      ensures gameState == old(gameState) || gameState == PlayerDead
      ensures old(Apart(gameMap.entities)) ==> Apart(gameMap.entities)
    {
      var nx, ny := actor.x + dx, actor.y + dy;
      if nx == player.x && ny == player.y {
        EnemyStrike(actor, dx, dy, start, ais, fighters);
      } else {
        EnemyStep(actor, dx, dy, start, ais, fighters);
      }
    }

    /** The attack branch of `EnemyAct`: the actor stays put and the player
        suffers its blow. */
    method EnemyStrike(actor: Entity, dx: int, dy: int,
                       ghost start: seq<Cell>, ghost ais: seq<AiComponent?>, ghost fighters: seq<Fighter?>)
      requires Valid() && gameMap != null && actor != player
      requires (actor.x + dx, actor.y + dy) == (player.x, player.y)
      requires TurnState(gameMap, start, ais, fighters, (player.x, player.y))
      modifies player.fighter, messageLog`messages, this`gameState
      ensures Valid()
      ensures TurnState(gameMap, start, ais, fighters, (player.x, player.y))
      ensures var mv := old(MoveFor(actor, Some((dx, dy))));
        && (actor.x, actor.y) == Landing(mv, old((player.x, player.y)))
        && Now() == Suffer(mv, old((player.x, player.y)), old(Now()), messageLog.maxMessages)
      ensures player.fighter != null ==> player.fighter.hp <= old(player.fighter.hp)
      ensures gameState == old(gameState) || gameState == PlayerDead
      ensures old(Apart(gameMap.entities)) ==> Apart(gameMap.entities)
    {
      HandleEnemyAttack(actor, start, ais, fighters);
    }

    /** The other branch of `EnemyAct`: the actor moves when the cell it aims
        at is walkable, and the player is untouched. */
    method EnemyStep(actor: Entity, dx: int, dy: int,
                     ghost start: seq<Cell>, ghost ais: seq<AiComponent?>, ghost fighters: seq<Fighter?>)
      requires Valid() && gameMap != null && actor != player
      requires (actor.x + dx, actor.y + dy) != (player.x, player.y)
      requires TurnState(gameMap, start, ais, fighters, (player.x, player.y))
      modifies actor`x, actor`y
      ensures Valid()
      ensures TurnState(gameMap, start, ais, fighters, (player.x, player.y))
      ensures var mv := old(MoveFor(actor, Some((dx, dy))));
        && (actor.x, actor.y) == Landing(mv, old((player.x, player.y)))
        && Now() == old(Now()) == Suffer(mv, old((player.x, player.y)), old(Now()), messageLog.maxMessages)
      ensures old(Apart(gameMap.entities)) ==> Apart(gameMap.entities)
    {
      MoveActor(actor, dx, dy, start, ais, fighters);
    }

    /** An actor's step (dx, dy) off the player's cell: a move when the
        destination is walkable, and nothing otherwise. */
    method MoveActor(actor: Entity, dx: int, dy: int,
                     ghost start: seq<Cell>, ghost ais: seq<AiComponent?>, ghost fighters: seq<Fighter?>)
      requires Valid() && gameMap != null
      requires actor != player && (actor.x + dx, actor.y + dy) != (player.x, player.y)
      requires TurnState(gameMap, start, ais, fighters, (player.x, player.y))
      modifies actor`x, actor`y
      ensures (actor.x, actor.y) == (if old(gameMap.IsWalkable(actor.x + dx, actor.y + dy)) then old((actor.x + dx, actor.y + dy)) else old((actor.x, actor.y)))
      ensures Valid()
      ensures TurnState(gameMap, start, ais, fighters, (player.x, player.y))
      ensures old(Apart(gameMap.entities)) ==> Apart(gameMap.entities)
    {
      if gameMap.IsWalkable(actor.x + dx, actor.y + dy) {
        StepActor(actor, dx, dy, start, ais, fighters);
      }
    }

    /** The move of an actor onto a walkable cell keeps blocking entities
        on distinct cells. */
    method StepActor(actor: Entity, dx: int, dy: int,
                     ghost start: seq<Cell>, ghost ais: seq<AiComponent?>, ghost fighters: seq<Fighter?>)
      requires Valid() && gameMap != null && gameMap.IsWalkable(actor.x + dx, actor.y + dy)
      requires actor != player && (actor.x + dx, actor.y + dy) != (player.x, player.y)
      requires TurnState(gameMap, start, ais, fighters, (player.x, player.y))
      modifies actor`x, actor`y
      ensures actor.x == old(actor.x) + dx && actor.y == old(actor.y) + dy
      ensures Valid()
      ensures TurnState(gameMap, start, ais, fighters, (player.x, player.y))
      ensures old(Apart(gameMap.entities)) ==> Apart(gameMap.entities)
    {
      ghost var ents := gameMap.entities;
      ghost var before := seq(|ents|, k requires 0 <= k < |ents| reads ents => (ents[k].x, ents[k].y));
      actor.Move(dx, dy);
      forall i, j | 0 <= i < j < |ents| && ents[i].blocksMovement && ents[j].blocksMovement && old(Apart(ents))
        ensures (ents[i].x, ents[i].y) != (ents[j].x, ents[j].y)
      {
        if ents[i] == actor && ents[j] == actor {
          assert false;
        } else if ents[i] == actor {
          assert before[j] == (ents[j].x, ents[j].y);
        } else if ents[j] == actor {
          assert before[i] == (ents[i].x, ents[i].y);
        } else {
          assert before[i] == (ents[i].x, ents[i].y) && before[j] == (ents[j].x, ents[j].y);
        }
      }
    }

    /** `handle_enemy_turn`: every live actor of the map but the player that
        has an AI acts once, in list order, the i-th live actor drawing
        `rolls(i)` and `orders(i)`.  The ghost `moves` are the actors' turns
        as `ActorTurn` states each one: every actor ends where its last turn
        lands it and starts its first turn where it stood, the other entities
        stay put, and the player ends as the turns in order leave it.  No
        actor ever steps onto the player's cell or onto an unwalkable tile,
        and blocking entities never come to share a cell. */
    method HandleEnemyTurn(rolls: nat -> Fraction, orders: nat -> seq<Cell>) returns (ghost moves: seq<EnemyMove>)
      requires Valid()
      requires forall i :: multiset(orders(i)) == multiset(Directions8)
      requires gameMap != null ==> Settled(gameMap)
      modifies (if gameMap == null then {} else set e | e in gameMap.Actors())`x, (if gameMap == null then {} else set e | e in gameMap.Actors())`y
      modifies player.fighter, messageLog`messages, this`gameState
      ensures Valid()
      ensures gameMap == null ==> Now() == old(Now())
      ensures gameMap != null ==>
        && gameMap.entities == old(gameMap.entities) && gameMap.items == old(gameMap.items)
        && player.x == old(player.x) && player.y == old(player.y)
        && TurnState(gameMap, old(Positions(gameMap.entities)), old(AisOf(gameMap.entities)), old(FightersOf(gameMap.entities)), (player.x, player.y))
        && (old(Apart(gameMap.entities)) ==> Apart(gameMap.entities))
      ensures gameMap != null ==>
        var actors := old(gameMap.Actors());
        && |moves| == |actors|
        && Traced(actors, player, AisOf(actors), old(Positions(actors)), Positions(actors), moves, old((player.x, player.y)))
      ensures gameMap != null ==> Now() == SufferAll(moves, old((player.x, player.y)), old(Now()), messageLog.maxMessages)
      ensures player.fighter == old(player.fighter)
      ensures player.fighter != null ==> player.fighter.hp <= old(player.fighter.hp)
      ensures gameState == old(gameState) || gameState == PlayerDead
    {
      if gameMap == null {
        return [];
      }
      var actors := gameMap.Actors();
      ghost var ents := gameMap.entities;
      ghost var start := Positions(ents);
      ghost var ais := AisOf(ents);
      ghost var fighters := FightersOf(ents);
      assert forall k | 0 <= k < |actors| :: actors[k] in ents && actors[k].IsAlive();
      moves := RunActors(actors, rolls, orders, start, ais, fighters, (player.x, player.y),
                         if player.fighter == null then 0 else player.fighter.hp, gameState, Apart(ents));
    }

    /** What each actor's turn keeps of the state at the start of the
        enemies' turn, in which the player stood on `p` with `hp` hp, the game
        was in `state` and blocking entities were `apart` or not: the map
        stays `TurnState`, the player stays on `p`, hp never rises, the game
        can only end, and apart entities stay apart. */
    ghost predicate TurnKept(start: seq<Cell>, ais: seq<AiComponent?>, fighters: seq<Fighter?>,
                             p: Cell, hp: int, state: GameState, apart: bool)
      reads this, gameMap, player, player.fighter, player.survival
      reads if gameMap == null then {} else {gameMap.tiles} + Parts(gameMap.entities)
    {
      && Valid() && gameMap != null
      && (player.x, player.y) == p
      && TurnState(gameMap, start, ais, fighters, p)
      && (apart ==> Apart(gameMap.entities))
      && (player.fighter != null ==> player.fighter.hp <= hp)
      && (gameState == state || gameState == PlayerDead)
    }

    /** The loop of `handle_enemy_turn` over the live actors `actors`. */
    method RunActors(actors: seq<Entity>, rolls: nat -> Fraction, orders: nat -> seq<Cell>,
                     ghost start: seq<Cell>, ghost ais: seq<AiComponent?>, ghost fighters: seq<Fighter?>,
                     ghost p: Cell, ghost hp: int, ghost state: GameState, ghost apart: bool)
      returns (ghost moves: seq<EnemyMove>)
      requires TurnKept(start, ais, fighters, p, hp, state, apart)
      requires forall i :: multiset(orders(i)) == multiset(Directions8)
      requires forall k | 0 <= k < |actors| :: actors[k] in gameMap.entities && actors[k].IsAlive()
      modifies (set e | e in actors)`x, (set e | e in actors)`y
      modifies player.fighter, messageLog`messages, this`gameState
      ensures TurnKept(start, ais, fighters, p, hp, state, apart)
      ensures |moves| == |actors|
      ensures Traced(actors, player, AisOf(actors), old(Positions(actors)), Positions(actors), moves, p)
      ensures Now() == SufferAll(moves, p, old(Now()), messageLog.maxMessages)
    {
      ghost var before, kinds := Positions(actors), AisOf(actors);
      ghost var now, std := before, Now();
      moves := [];
      var i := 0;
      while i < |actors|
        invariant 0 <= i <= |actors|
        invariant TurnKept(start, ais, fighters, p, hp, state, apart)
        invariant Positions(actors) == now && Now() == std
        invariant |moves| == i && Traced(actors, player, kinds, before, now, moves, p)
        invariant std == SufferAll(moves, p, old(Now()), messageLog.maxMessages)
      {
        ghost var mv := TakeTurn(actors[i], rolls(i), orders(i), actors, now, kinds[i], start, ais, fighters, p, hp, state, apart);
        TracedStep(actors, player, kinds, before, now, moves, p, mv);
        SufferAllStep(moves, mv, p, old(Now()), messageLog.maxMessages);
        moves, now, std := moves + [mv], Relocated(actors, now, actors[i], Landing(mv, p)), Suffer(mv, p, std, messageLog.maxMessages);
        i := i + 1;
      }
    }

    /** `ActorTurn` as the loop of `handle_enemy_turn` uses it: the turn
        `mv` is the one `MoveOf` draws from the state at its start, and it is
        also stated in the terms of the loop's trace: its start cell among the
        actors' cells `now`, and the actors' cells after it. */
    method TakeTurn(actor: Entity, roll: Fraction, order: seq<Cell>,
                    ghost actors: seq<Entity>, ghost now: seq<Cell>, ghost kind: AiComponent?,
                    ghost start: seq<Cell>, ghost ais: seq<AiComponent?>, ghost fighters: seq<Fighter?>,
                    ghost p: Cell, ghost hp: int, ghost state: GameState, ghost apart: bool)
      returns (ghost mv: EnemyMove)
      requires TurnKept(start, ais, fighters, p, hp, state, apart)
      requires actor in gameMap.entities && actor.fighter != null && actor.fighter.maxHp > 0
      requires multiset(order) == multiset(Directions8)
      requires Positions(actors) == now && kind == actor.ai
      modifies actor`x, actor`y, player.fighter, messageLog`messages, this`gameState
      ensures TurnKept(start, ais, fighters, p, hp, state, apart)
      ensures mv == old(MoveOf(actor, roll, order))
      ensures mv.name == actor.name && (actor == player || kind == null ==> mv.step == None)
      ensures forall j | 0 <= j < |actors| && actors[j] == actor :: mv.from == now[j]
      ensures Positions(actors) == Relocated(actors, now, actor, Landing(mv, p))
      ensures Now() == Suffer(mv, p, old(Now()), messageLog.maxMessages)
    {
      mv := ActorTurn(actor, roll, order, start, ais, fighters, p, hp, state, apart);
    }

    /** The loop body of `handle_enemy_turn` for one live actor: its turn
        `mv` is the one `MoveOf` draws from the state at its start, the actor
        ends where `Landing` puts it, and the player as `Suffer` leaves it. */
    method ActorTurn(actor: Entity, roll: Fraction, order: seq<Cell>,
                     ghost start: seq<Cell>, ghost ais: seq<AiComponent?>, ghost fighters: seq<Fighter?>,
                     ghost p: Cell, ghost hp: int, ghost state: GameState, ghost apart: bool)
      returns (ghost mv: EnemyMove)
      requires TurnKept(start, ais, fighters, p, hp, state, apart)
      requires actor in gameMap.entities && actor.fighter != null && actor.fighter.maxHp > 0
      requires multiset(order) == multiset(Directions8)
      modifies actor`x, actor`y, player.fighter, messageLog`messages, this`gameState
      ensures TurnKept(start, ais, fighters, p, hp, state, apart)
      ensures mv == old(MoveOf(actor, roll, order)) && mv.name == actor.name
      ensures actor == player || actor.ai == null ==> mv.step == None
      ensures mv.from == old((actor.x, actor.y))
      ensures (actor.x, actor.y) == Landing(mv, p)
      ensures Now() == Suffer(mv, p, old(Now()), messageLog.maxMessages)
    {
      mv := MoveOf(actor, roll, order);
      if actor != player && actor.ai != null {
        var action := Decide(actor.ai, gameMap, player, roll, order);
        if action.Some? {
          EnemyAct(actor, action.value.0, action.value.1, start, ais, fighters);
        }
      }
    }

    /** `process_turn` without the temperature: the clock advances, with a
        message on a new day; the player's survival meters run down, with
        their messages; a starving or dehydrated player loses 1 hp and dies
        at 0. */
    method ProcessTurn()
      requires Valid()
      modifies this`turnCount, this`hour, this`day, messageLog`messages, this`gameState
      modifies player.survival, player.fighter
      ensures Valid()
      ensures (turnCount, hour, day) == Clock(old(turnCount), old(hour), old(day))
      ensures var dawn := if day != old(day) then LogAdd(old(messageLog.messages), Message("Day " + IntToString(day) + "이 밝았다.", (255, 255, 200)), messageLog.maxMessages)
                          else old(messageLog.messages);
        && (player.survival == null ==>
              messageLog.messages == dawn && gameState == old(gameState)
              && (player.fighter != null ==> player.fighter.hp == old(player.fighter.hp)))
        && (player.survival != null ==>
              var sv := player.survival;
              var reports := TransitionMessages(Hunger, old(sv.hunger), sv.hunger) + TransitionMessages(Thirst, old(sv.thirst), sv.thirst);
              var logged := LogAddAll(dawn, Colored(reports, (255, 200, 0)), messageLog.maxMessages);
              var hurt := (sv.isStarving || sv.isDehydrated) && player.fighter != null;
              && sv.hunger == Max(0, old(sv.hunger) - 1) && sv.isStarving == (sv.hunger == 0)
              && sv.thirst == Max(0, old(sv.thirst) - 2) && sv.isDehydrated == (sv.thirst == 0)
              && sv.stamina == Min(sv.maxStamina, old(sv.stamina) + (if sv.isResting then 5 else 1))
              && (!hurt ==> messageLog.messages == logged && gameState == old(gameState)
                            && (player.fighter != null ==> player.fighter.hp == old(player.fighter.hp)))
              && (hurt ==> player.fighter.hp == Max(0, old(player.fighter.hp) - 1)
                           && (player.fighter.hp > 0 ==> messageLog.messages == logged && gameState == old(gameState))
                           && (player.fighter.hp <= 0 ==>
                                 messageLog.messages == LogAdd(logged, DeathMessage, messageLog.maxMessages)
                                 && gameState == PlayerDead)))
    {
      AdvanceClock();
      SurvivalTurn();
    }

    /** The clock part of `process_turn`. */
    method AdvanceClock()
      modifies this`turnCount, this`hour, this`day, messageLog`messages
      ensures (turnCount, hour, day) == Clock(old(turnCount), old(hour), old(day))
      ensures messageLog.messages ==
        if day != old(day) then LogAdd(old(messageLog.messages), Message("Day " + IntToString(day) + "이 밝았다.", (255, 255, 200)), messageLog.maxMessages)
        else old(messageLog.messages)
    {
      turnCount := turnCount + 1;
      if turnCount % 60 == 0 {
        hour := hour + 1;
        if hour >= 24 {
          hour := 0;
          day := day + 1;
          messageLog.Add("Day " + IntToString(day) + "이 밝았다.", (255, 255, 200));
        }
      }
    }

    /** The survival part of `process_turn`. */
    method SurvivalTurn()
      requires Valid()
      modifies messageLog`messages, this`gameState, player.survival, player.fighter
      ensures Valid()
      ensures player.survival == null ==>
        messageLog.messages == old(messageLog.messages) && gameState == old(gameState)
        && (player.fighter != null ==> player.fighter.hp == old(player.fighter.hp))
      ensures player.survival != null ==>
        var sv := player.survival;
        var reports := TransitionMessages(Hunger, old(sv.hunger), sv.hunger) + TransitionMessages(Thirst, old(sv.thirst), sv.thirst);
        var logged := LogAddAll(old(messageLog.messages), Colored(reports, (255, 200, 0)), messageLog.maxMessages);
        var hurt := (sv.isStarving || sv.isDehydrated) && player.fighter != null;
        && sv.hunger == Max(0, old(sv.hunger) - 1) && sv.isStarving == (sv.hunger == 0)
        && sv.thirst == Max(0, old(sv.thirst) - 2) && sv.isDehydrated == (sv.thirst == 0)
        && sv.stamina == Min(sv.maxStamina, old(sv.stamina) + (if sv.isResting then 5 else 1))
        && (!hurt ==> messageLog.messages == logged && gameState == old(gameState)
                      && (player.fighter != null ==> player.fighter.hp == old(player.fighter.hp)))
        && (hurt ==> player.fighter.hp == Max(0, old(player.fighter.hp) - 1)
                     && (player.fighter.hp > 0 ==> messageLog.messages == logged && gameState == old(gameState))
                     && (player.fighter.hp <= 0 ==>
                           messageLog.messages == LogAdd(logged, DeathMessage, messageLog.maxMessages)
                           && gameState == PlayerDead))
    {
      var sv := player.survival;
      if sv != null {
        var reports := sv.ProcessTurn();
        messageLog.AddAll(reports, (255, 200, 0));
        if sv.isStarving || sv.isDehydrated {
          var f := player.fighter;
          if f != null {
            f.SetHp(f.hp - 1);
            if f.hp <= 0 {
              KillPlayer();
            }
          }
        }
      }
    }

    /** The player's inventory, as a frame. */
    function Pack(): set<Inventory>
      reads this, player
    {
      if player.inventory == null then {} else {player.inventory}
    }

    /** The map, as a frame. */
    function Floor(): set<GameMap>
      reads this
    {
      if gameMap == null then {} else {gameMap}
    }

    /** `pickup_item`: the first item on the player's cell moves from the map
        into the inventory, unless there is none or the inventory is full;
        each outcome is reported. */
    method PickupItem() returns (ok: bool)
      modifies Floor()`items, Pack()`items, messageLog`messages
      ensures PickupRefused(gameMap != null, player.inventory) ==>
        !ok && messageLog.messages == old(messageLog.messages)
      ensures !PickupRefused(gameMap != null, player.inventory) ==>
        var here := old(gameMap.GetItemsAt(player.x, player.y));
        var inv := player.inventory;
        && (ok <==> here != [] && !old(inv.IsFull()))
        && (here == [] ==> messageLog.messages == LogAdd(old(messageLog.messages), Message("여기에는 아무것도 없다.", White), messageLog.maxMessages))
        && (here != [] && old(inv.IsFull()) ==>
              messageLog.messages == LogAdd(old(messageLog.messages), Message("인벤토리가 가득 찼다!", White), messageLog.maxMessages))
        && (ok ==>
              && gameMap.items == RemoveFirst(old(gameMap.items), here[0])
              && inv.items == old(inv.items) + [here[0]]
              && messageLog.messages == LogAdd(old(messageLog.messages), Message(here[0].name + "을(를) 주웠다.", (200, 200, 255)), messageLog.maxMessages))
        && (!ok ==> gameMap.items == old(gameMap.items) && inv.items == old(inv.items))
        && multiset(gameMap.items) + multiset(inv.items) == old(multiset(gameMap.items) + multiset(inv.items))
    {
      var inv := player.inventory;
      if gameMap == null || inv == null {
        return false;
      }
      var items := gameMap.GetItemsAt(player.x, player.y);
      if items == [] {
        messageLog.Add("여기에는 아무것도 없다.", White);
        return false;
      }
      var item := items[0];
      if inv.IsFull() {
        messageLog.Add("인벤토리가 가득 찼다!", White);
        return false;
      }
      gameMap.RemoveItem(item);
      var added := inv.Add(item);
      messageLog.Add(item.name + "을(를) 주웠다.", (200, 200, 255));
      ok := true;
    }

    /** The player's survival meters, as a frame. */
    function Meters(): set<Survival>
      reads this, player
    {
      if player.survival == null then {} else {player.survival}
    }

    /** The player's fighter, as a frame. */
    function Body(): set<Fighter>
      reads this, player
    {
      if player.fighter == null then {} else {player.fighter}
    }

    /** `use_item(index)`: the item at `index` of the inventory, when it is
        consumable, is consumed, leaves the inventory and is reported used;
        one that is not consumable is only reported; a missing inventory or
        index does nothing. */
    method UseItem(index: int) returns (ok: bool)
      requires Valid()
      modifies Pack()`items, Meters()`hunger, Meters()`isStarving, Meters()`thirst, Meters()`isDehydrated
      modifies Body()`hp, messageLog`messages
      ensures Valid()
      ensures var inv := player.inventory;
        (inv == null || !(0 <= index < old(|inv.items|))) ==>
          !ok && messageLog.messages == old(messageLog.messages) && unchanged(Pack(), Meters(), Body())
      ensures var inv := player.inventory;
        inv != null && 0 <= index < old(|inv.items|) ==>
          var item := old(inv.items[index]);
          && ok == item.consumable
          && (!ok ==>
                && messageLog.messages == LogAdd(old(messageLog.messages), Message(item.name + "은(는) 사용할 수 없다.", White), messageLog.maxMessages)
                && unchanged(Pack(), Meters(), Body()))
          && (ok ==>
                && inv.items == RemoveFirst(old(inv.items), item)
                && messageLog.messages
                   == LogAdd(LogAddAll(old(messageLog.messages), old(EatReports(item) + DrinkReports(item) + HealReports(item)), messageLog.maxMessages),
                             Message(item.name + "을(를) 사용했다.", White), messageLog.maxMessages)
                && (player.survival != null ==>
                      && player.survival.hunger == (if item.nutrition > 0 then Clamp(old(player.survival.hunger) + item.nutrition, 0, player.survival.maxHunger) else old(player.survival.hunger))
                      && player.survival.thirst == (if item.hydration > 0 then Clamp(old(player.survival.thirst) + item.hydration, 0, player.survival.maxThirst) else old(player.survival.thirst)))
                && (player.fighter != null ==>
                      player.fighter.hp == (if item.name == HealingPotion then Min(player.fighter.maxHp, old(player.fighter.hp) + 20) else old(player.fighter.hp))))
    {
      var inv := player.inventory;
      if inv == null {
        return false;
      }
      var item := inv.GetItemAt(index);
      if item == null {
        return false;
      }
      if !item.consumable {
        messageLog.Add(item.name + "은(는) 사용할 수 없다.", White);
        return false;
      }
      UseUp(item);
      ok := true;
    }

    /** The consumable `item` of the inventory consumed, removed and
        reported used. */
    method UseUp(item: Entity)
      requires Valid() && player.inventory != null
      modifies Pack()`items, Meters()`hunger, Meters()`isStarving, Meters()`thirst, Meters()`isDehydrated
      modifies Body()`hp, messageLog`messages
      ensures Valid()
      ensures player.inventory.items == RemoveFirst(old(player.inventory.items), item)
      ensures messageLog.messages
              == LogAdd(LogAddAll(old(messageLog.messages), old(EatReports(item) + DrinkReports(item) + HealReports(item)), messageLog.maxMessages),
                        Message(item.name + "을(를) 사용했다.", White), messageLog.maxMessages)
      ensures player.survival != null ==>
        && player.survival.hunger == (if item.nutrition > 0 then Clamp(old(player.survival.hunger) + item.nutrition, 0, player.survival.maxHunger) else old(player.survival.hunger))
        && player.survival.thirst == (if item.hydration > 0 then Clamp(old(player.survival.thirst) + item.hydration, 0, player.survival.maxThirst) else old(player.survival.thirst))
      ensures player.fighter != null ==>
        player.fighter.hp == (if item.name == HealingPotion then Min(player.fighter.maxHp, old(player.fighter.hp) + 20) else old(player.fighter.hp))
    {
      Consume(item);
      UsedUp(item);
    }

    /** The used `item` leaves the inventory, reported used. */
    method UsedUp(item: Entity)
      requires player.inventory != null
      modifies Pack()`items, messageLog`messages
      ensures player.inventory.items == RemoveFirst(old(player.inventory.items), item)
      ensures messageLog.messages == LogAdd(old(messageLog.messages), Message(item.name + "을(를) 사용했다.", White), messageLog.maxMessages)
    {
      var removed := player.inventory.Remove(item);
      messageLog.Add(item.name + "을(를) 사용했다.", White);
    }

    /** The items the player carries, as a frame. */
    function Carried(): set<Entity>
      reads this, player, Pack()
    {
      if player.inventory == null then {} else set e | e in player.inventory.items
    }

    /** `drop_item(index)`: the item at `index` of the inventory leaves it
        and lies on the map at the player's feet, reported dropped; a missing
        map, inventory or index does nothing. */
    method DropItem(index: int) returns (ok: bool)
      modifies Pack()`items, Floor()`items, Carried()`x, Carried()`y, messageLog`messages
      ensures var inv := player.inventory;
        ok == (inv != null && gameMap != null && 0 <= index < old(|inv.items|))
      ensures !ok ==>
        messageLog.messages == old(messageLog.messages) && unchanged(Pack(), Floor()) && unchanged(old(Carried()))
      ensures ok ==>
        var inv := player.inventory;
        var item := old(inv.items[index]);
        && inv.items == RemoveFirst(old(inv.items), item)
        && gameMap.items == old(gameMap.items) + [item]
        && (item.x, item.y) == old((player.x, player.y))
        && (forall e | e in old(inv.items) && e != item :: e.x == old(e.x) && e.y == old(e.y))
        && multiset(gameMap.items) + multiset(inv.items) == old(multiset(gameMap.items) + multiset(inv.items))
        && messageLog.messages == LogAdd(old(messageLog.messages), Message(item.name + "을(를) 버렸다.", White), messageLog.maxMessages)
    {
      var inv := player.inventory;
      if inv == null || gameMap == null {
        return false;
      }
      var item := inv.GetItemAt(index);
      if item == null {
        return false;
      }
      DropCarried(item);
      ok := true;
    }

    /** The carried `item` moved from the inventory onto the map at the
        player's feet, reported dropped. */
    method DropCarried(item: Entity)
      requires player.inventory != null && gameMap != null && item in player.inventory.items
      modifies Pack()`items, Floor()`items, item`x, item`y, messageLog`messages
      ensures player.inventory.items == RemoveFirst(old(player.inventory.items), item)
      ensures gameMap.items == old(gameMap.items) + [item]
      ensures (item.x, item.y) == old((player.x, player.y))
      ensures multiset(gameMap.items) + multiset(player.inventory.items)
              == old(multiset(gameMap.items) + multiset(player.inventory.items))
      ensures messageLog.messages == LogAdd(old(messageLog.messages), Message(item.name + "을(를) 버렸다.", White), messageLog.maxMessages)
    {
      var removed := player.inventory.Remove(item);
      item.x, item.y := player.x, player.y;
      gameMap.AddItem(item);
      messageLog.Add(item.name + "을(를) 버렸다.", White);
    }

    /** What `use_item` does with a consumable: the player eats what has
        nutrition and drinks what has hydration (when the player has survival
        meters), and heals 20 with a healing potion (when the player fights),
        each reported in turn. */
    method Consume(item: Entity)
      requires Valid()
      modifies Meters()`hunger, Meters()`isStarving, Meters()`thirst, Meters()`isDehydrated
      modifies Body()`hp, messageLog`messages
      ensures Valid()
      ensures var sv := player.survival;
        sv != null ==>
          && sv.hunger == (if item.nutrition > 0 then Clamp(old(sv.hunger) + item.nutrition, 0, sv.maxHunger) else old(sv.hunger))
          && sv.thirst == (if item.hydration > 0 then Clamp(old(sv.thirst) + item.hydration, 0, sv.maxThirst) else old(sv.thirst))
      ensures var f := player.fighter;
        f != null ==> f.hp == (if item.name == HealingPotion then Min(f.maxHp, old(f.hp) + 20) else old(f.hp))
      ensures messageLog.messages == LogAddAll(old(messageLog.messages), old(EatReports(item) + DrinkReports(item) + HealReports(item)), messageLog.maxMessages)
    {
      ghost var log0 := messageLog.messages;
      ghost var heal := HealReports(item);
      EatAndDrink(item);
      ghost var log1 := messageLog.messages;
      assert HealReports(item) == heal;
      HealPart(item);
      LogAddAllAppend(log0, old(EatReports(item) + DrinkReports(item)), heal, messageLog.maxMessages);
    }

    /** The eating and drinking of `use_item`, each reported. */
    method EatAndDrink(item: Entity)
      requires Valid()
      modifies Meters()`hunger, Meters()`isStarving, Meters()`thirst, Meters()`isDehydrated, messageLog`messages
      ensures Valid()
      ensures var sv := player.survival;
        sv != null ==>
          && sv.hunger == (if item.nutrition > 0 then Clamp(old(sv.hunger) + item.nutrition, 0, sv.maxHunger) else old(sv.hunger))
          && sv.thirst == (if item.hydration > 0 then Clamp(old(sv.thirst) + item.hydration, 0, sv.maxThirst) else old(sv.thirst))
      ensures messageLog.messages == LogAddAll(old(messageLog.messages), old(EatReports(item) + DrinkReports(item)), messageLog.maxMessages)
    {
      ghost var log0 := messageLog.messages;
      ghost var eat, drink := EatReports(item), DrinkReports(item);
      EatPart(item);
      assert DrinkReports(item) == drink;
      DrinkPart(item);
      LogAddAllAppend(log0, eat, drink, messageLog.maxMessages);
    }

    /** The report of eating `item`, when it has nutrition and the player
        has survival meters. */
    ghost function EatReports(item: Entity): seq<Message>
      reads this, item, player, Meters()`hunger
    {
      var sv := player.survival;
      if item.nutrition > 0 && sv != null then [EatReport(item.nutrition, sv.hunger, sv.maxHunger)] else []
    }

    /** The report of drinking `item`, when it has hydration and the player
        has survival meters. */
    ghost function DrinkReports(item: Entity): seq<Message>
      reads this, item, player, Meters()`thirst
    {
      var sv := player.survival;
      if item.hydration > 0 && sv != null then [DrinkReport(item.hydration, sv.thirst, sv.maxThirst)] else []
    }

    /** The report of drinking a healing potion, when the player fights. */
    ghost function HealReports(item: Entity): seq<Message>
      reads this, item, player, Body()`hp
    {
      var f := player.fighter;
      if item.name == HealingPotion && f != null then [HealMessage(Min(f.maxHp, f.hp + 20) - f.hp)] else []
    }

    /** `survival.eat(item.nutrition)` with its report in green. */
    method EatPart(item: Entity)
      requires Valid()
      modifies Meters()`hunger, Meters()`isStarving, messageLog`messages
      ensures Valid()
      ensures var sv := player.survival;
        sv != null ==> sv.hunger == (if item.nutrition > 0 then Clamp(old(sv.hunger) + item.nutrition, 0, sv.maxHunger) else old(sv.hunger))
      ensures messageLog.messages == LogAddAll(old(messageLog.messages), old(EatReports(item)), messageLog.maxMessages)
    {
      var sv := player.survival;
      if item.nutrition > 0 && sv != null {
        var msg := sv.Eat(item.nutrition);
        messageLog.Add(msg, (0, 255, 0));
      }
    }

    /** `survival.drink(item.hydration)` with its report in cyan. */
    method DrinkPart(item: Entity)
      requires Valid()
      modifies Meters()`thirst, Meters()`isDehydrated, messageLog`messages
      ensures Valid()
      ensures var sv := player.survival;
        sv != null ==> sv.thirst == (if item.hydration > 0 then Clamp(old(sv.thirst) + item.hydration, 0, sv.maxThirst) else old(sv.thirst))
      ensures messageLog.messages == LogAddAll(old(messageLog.messages), old(DrinkReports(item)), messageLog.maxMessages)
    {
      var sv := player.survival;
      if item.hydration > 0 && sv != null {
        var msg := sv.Drink(item.hydration);
        messageLog.Add(msg, (0, 200, 255));
      }
    }

    /** The healing potion's `fighter.heal(20)` with its report in green. */
    method HealPart(item: Entity)
      requires Valid()
      modifies messageLog`messages
      modifies Body()`hp
      ensures Valid()
      ensures var f := player.fighter;
        f != null ==> f.hp == (if item.name == HealingPotion then Min(f.maxHp, old(f.hp) + 20) else old(f.hp))
      ensures messageLog.messages == LogAddAll(old(messageLog.messages), old(HealReports(item)), messageLog.maxMessages)
    {
      var f := player.fighter;
      if item.name == HealingPotion && f != null {
        ghost var reports := HealReports(item);
        var gained := f.Heal(20);
        assert gained == Min(f.maxHp, old(f.hp) + 20) - old(f.hp);
        var m := HealMessage(gained);
        messageLog.Add(m.text, m.color);
        assert reports == [m];
        LogAddAllOne(old(messageLog.messages), m, messageLog.maxMessages);
      }
    }
  }
}
