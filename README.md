# A Dafny model of the ASCII survival roguelike

The game is a turn-based ASCII roguelike in the style of NetHack and
Unreal World, written twice: once for the browser (`web/game.js` with the
first-person view of `web/view3d.js`) and once in Python on tcod
(`src/components/*`, `src/systems/*`). This project models the logic the two
share, and each half on its own terms:

- **Tile grid, visibility and paths** (`game_map.dfy`, `tiles.dfy`):
  - the map is a class over a `width × height` array of tiles, with its
    entity and item lists;
  - the look-ups behind `is_walkable`, `get_actor_at` and `get_items_at`;
  - the ray-marching field of view, which clears `visible`, marks the
    observer's cell and only ever grows `explored`;
  - the A* search, with its heap and `came_from` / `g_score` maps.
- **Dungeon generation** (`rooms.dfy`, `carving.dfy`, `procgen.dfy`,
  `web_dungeon.dfy`): rooms are placed by rejection sampling under the
  edge-inclusive overlap test, then joined centre to centre by L-shaped
  tunnels; the stairs go at the last room's centre; the Python generator also
  places monsters and items.
- **Components** (`components.dfy`, `equipment.dfy`, `npc_rules.dfy`,
  `survival_rules.dfy`, `ai.dfy`):
  - entities and actors with their component back-links;
  - the fighter's clamped hit points;
  - the bounded inventory;
  - the hunger, thirst and stamina meters with their status thresholds;
  - weapons, durability and equipment slots;
  - NPC disposition, greetings and dialogue tables;
  - the hostile and passive step rules.
- **Game systems** (`quest.dfy`, `religion.dfy`, `dicts.dfy`, `economy.dfy`,
  `engine.dfy`, `clock.dfy`):
  - the quest life cycle and the quest log's three lists;
  - favour, prayer, sacrifice, sin and abilities, over the blessing, curse
    and cooldown dictionaries;
  - the gold/silver/copper wallet and shop stock;
  - the engine: its bounded message log, its turn/hour/day clock, and its
    move, attack, enemy-turn, pickup, use and drop rules, with the enemies'
    turn replayed as values in `enemy_moves.dfy`.
- **The browser game** (`web_game.dfy`, `web_quest.dfy`, `web_religion.dfy`):
  - the `Actor` counters and the message log;
  - the end-of-turn clock, `pickupItem`, `buyItem`, `tryUseStairs` and the
    retry loop of `generateNewFloor`;
  - the browser quest and religion classes.
- **The first-person projector** (`view3d.dfy`, `view3d_order.dfy`,
  `ranking.dfy`):
  - the facing state machine;
  - the probes of each depth layer;
  - the front-wall fill;
  - the projection of entities, their farthest-first draw order and their
    clipped blitting into an 18 × 50 character frame (the renderer that
    `web/game.js:517` creates);
  - the minimap;
  - the same geometry in IEEE doubles (`doubles.dfy`,
    `browser_geometry.dfy`), where it agrees with the exact model and where
    it does not;
  - the entity list `render3D` hands to the renderer (`web_scene.dfy`).

Where the source mutates an object, the model is a class whose methods
modify its fields and state the new state of what they modify. The enemies'
turn states it through values: the actors' turns, their replay and what
they do to the player (module EnemyMoves, `enemy_moves.dfy`); the frame
keeps every entity other than a live actor in place. Where the source loops, the
model loops, with invariants. Pure rules are functions, each with lemmas
relating it to an independent statement of what it means.

Modelling conventions:

- **Randomness.** `Math.random()` and Python's `random` become a stream
  `rng: nat -> Fraction` of draws in [0, 1), consumed from an index that
  the operation returns.
  - `randomInt(lo, hi)` / `random.randint(lo, hi)` is `lo + floor(u * (hi - lo + 1))`.
  - The Python call's `ValueError` for `hi < lo` becomes a failed result.
- **Floating point.**
  - The field-of-view ray directions (`cos` / `sin`) are given as a sequence
    of cells per ray.
  - The A* step costs 1 and 1.4 are scaled to 10 and 14.
  - The fractional viewports are floored to cells on the 50 × 18 screen.
    Module View3D computes the renderer's fractions over exact reals. Module
    BrowserGeometry computes them again in binary64 doubles (`Doubles.Round`
    after every operation) and proves which results agree.
  - The survival thresholds `0.8 * max` and `0.5 * max` are compared
    exactly.
- **Integers.** Integers are unbounded. Python's `//` and JavaScript's `Math.floor(a / b)` with a
  positive divisor round down, as Dafny's `/` does, negative operands included.
- **Dictionaries.** Python dictionaries whose insertion order matters
  (blessings, curses, cooldowns) are association lists without duplicate
  keys.
- **Field names.** The browser renderer is modelled on its own field names
  (`isFloorItem`, `isFlying`, `isGrounded`, `isCorpse`).

## Model

| member | source | states |
|---|---|---|
| Carving.CarveBox | src/systems/procgen.py:136-137 | every cell of the box becomes floor and every cell outside it keeps its tile; an empty box carves nothing (also `generateDungeon`'s room loop, web/game.js:442-446) |
| Carving.CarveCells | src/systems/procgen.py:143-145 | exactly the listed tunnel cells become floor; every other cell keeps its tile |
| Clocks.ClockShape | src/systems/engine.py:232-239 | a turn advances the counter by one, keeps the hour in [0, 24), moves the hour only on a multiple of 60 turns and starts a new day exactly on the wrap from hour 23 (likewise `endTurn`, web/game.js:755-763) |
| Clocks.TimePeriod | src/systems/engine.py:349-358 | morning exactly in [6, 12), day exactly in [12, 18), evening exactly in [18, 21) and night exactly outside [6, 21) (likewise `getTimePeriod`, web/game.js:1474-1479) |
| Clocks.Pad2 | src/systems/engine.py:347 | the printed digits spell the hour, padded with zeros to exactly two characters below 100; a negative value prints '-' and the digits of its magnitude; the text is never shorter than two characters |
| Clocks.TimeString | src/systems/engine.py:345-347 | the text is "Day ", then digits spelling the day, then ", ", the two-character padded hour and ":00" |
| Geometry.Chebyshev | src/components/ai.py:53 | the king-move distance is zero exactly for equal cells, bounds both coordinate differences and equals one of them |
| Geometry.Adjacent8IsChebyshevOne | src/components/ai.py:65 | "adjacent" (distance at most one between distinct cells) means Chebyshev distance one |
| Geometry.Dist2 | src/systems/game_map.py:173-174 | the squared distance used for the radius test is zero exactly for equal cells |
| Geometry.Directions8AreUnitSteps | src/components/ai.py:105-109 | the eight listed directions are exactly the unit steps around a cell |
| Tiles.OpenTilesAreWalkableAndTransparent | src/systems/tile_types.py:48-198 | the tiles both walkable and transparent are exactly floor, stairs, open door, grass, shallow water, sand, snow, trap and road |
| Tiles.SolidTilesBlockEverything | src/systems/tile_types.py:48-198 | the tiles that block both movement and sight are exactly shroud, wall, closed door, tree and rock (the shroud is drawn blank) |
| Tiles.TallGrassIsWalkableButOpaque | src/systems/tile_types.py:110-116 | tall grass is the only tile one can walk through but not see through |
| Tiles.SeeThroughObstacles | src/systems/tile_types.py:134-181 | deep water and the campfire are the only tiles one can see across but not enter |
| Tiles.WebTileTable | web/game.js:24-31 | the browser's six tiles have the glyphs and the walkable and transparent flags of the table |
| Util.RandomInt | web/game.js:496-498 | a draw lands in [lo, hi] whenever the bounds are ordered (the same draw stands for Python's `random.randint`) |
| Util.Clamp | src/components/fighter.py:41 | a value inside the bounds is kept, one below goes to the lower bound, one above to the upper bound, and the lower bound wins when the bounds cross |
| Util.Sign | src/components/ai.py:78-79 | the normalised step is -1, 0 or 1 with the sign of the difference |
| Util.RemoveFirstAbsent | src/components/inventory.py:56 | removing a value that is absent leaves the list unchanged (the source guards the call with a membership test) |
| Util.RemoveFirstLength | src/components/inventory.py:56 | removing a present value shortens the list by one |
| Util.RemoveFirstMultiset | src/components/inventory.py:56 | removal takes away exactly one occurrence of the value and keeps everything else |
| Util.RemoveFirstAt | src/components/inventory.py:56 | the occurrence removed is the first one; the order of the rest is kept |
| Util.NatToString | src/systems/engine.py:347 | a number prints as a non-empty string of decimal digits |
| Util.IntToString | src/systems/engine.py:347 | an integer prints as a non-empty string that starts with '-' exactly when it is negative |
| Util.NatToStringValue | src/systems/engine.py:347 | the digits printed for a number spell that number, start with '0' only for 0 itself, and are a single digit exactly below 10 |
| Util.IntToStringValue | src/systems/engine.py:347 | after the sign, the digits printed for an integer spell its magnitude |
| Util.Join | src/systems/economy.py:184 | joining no parts gives the empty string and joining one part gives that part |
| Util.JoinSnoc | src/systems/economy.py:184 | joining one more part appends the separator and then that part |
| Util.JoinLength | src/systems/economy.py:184 | the joined text is as long as all the parts plus one separator between each two of them |
| Components.Entity.constructor | src/components/entity.py:31-45 | a plain entity holds the given position, glyph, name and blocking flag and no components |
| Components.Entity.Actor | src/components/entity.py:73-123 | an actor always blocks and stores every component it is given; each present component's back-link points to the actor, except that an inventory with no items gets no back-link |
| Components.Entity.LinkedActor | src/components/entity.py:73-123 | the same actor with every present component linked back to it, an empty inventory included |
| Components.Entity.Item | src/components/entity.py:140-161 | an item never blocks movement and keeps its consumable flag, nutrition and hydration |
| Components.Entity.Move | src/components/entity.py:47-50 | moving shifts the position by the offset and changes nothing else |
| Components.Mitigated | src/components/fighter.py:53 | the damage that gets through is the excess of the blow over the defense, and zero when the defense absorbs it |
| Components.Fighter.constructor | src/components/fighter.py:23-35 | a fighter starts at full health with the given defense and power |
| Components.Fighter.SetHp | src/components/fighter.py:40-41 | the hp setter clamps to [0, max_hp] |
| Components.Fighter.TakeDamage | src/components/fighter.py:43-56 | the mitigated damage is returned and comes off hp, which stops at zero |
| Components.Fighter.Heal | src/components/fighter.py:58-70 | hp rises to at most max_hp; the returned gain is the actual rise and never exceeds a non-negative amount |
| Components.Fighter.Attack | src/components/fighter.py:72-89 | no damage to a target without a fighter; otherwise the mitigated power comes off the target's hp and the target is reported dead exactly when its hp is zero |
| Components.AsciiLower | src/components/inventory.py:76 | upper-case ASCII letters become lower-case and every other character is kept |
| Components.LetterIndex | src/components/inventory.py:76 | 'a' and 'A' index slot 0, 'b' and 'B' slot 1, and so on |
| Components.LettersIndexTheAlphabet | src/components/inventory.py:66-77 | every letter indexes one of the 26 slots, the same slot in either case |
| Components.Inventory.constructor | src/components/inventory.py:21-24 | a new inventory is empty with the given capacity |
| Components.Inventory.Len | src/components/inventory.py:79-80 | the length is the number of items held; it is what Python's truth test of an inventory reads (Components.FalsyExactlyWhenEmpty) |
| Components.FalsyExactlyWhenEmpty | src/components/inventory.py:79-80 | an inventory is false in a truth test exactly when its length is zero, that is, exactly when it holds nothing, whatever its capacity |
| Components.Inventory.Add | src/components/inventory.py:30-43 | the item is appended exactly when the inventory was not full, and an inventory within its capacity stays within it |
| Components.Inventory.Remove | src/components/inventory.py:45-58 | success exactly when the item was held; the first occurrence goes and the rest are kept in order |
| Components.Inventory.GetItemAt | src/components/inventory.py:60-64 | the item at a valid index, and nothing exactly when the index is out of range |
| Components.Inventory.GetItemByChar | src/components/inventory.py:66-77 | a letter names the slot of its alphabet position; no item when that slot is empty |
| Components.Survival.constructor | src/components/survival.py:33-59 | every meter starts full, not resting, not starving, not dehydrated |
| Components.Survival.SetHunger | src/components/survival.py:64-68 | hunger is clamped to [0, max] and starving means hunger zero |
| Components.Survival.SetThirst | src/components/survival.py:73-77 | thirst is clamped to [0, max] and dehydrated means thirst zero |
| Components.Survival.SetStamina | src/components/survival.py:82-85 | stamina is clamped to [0, max] |
| Components.Survival.ProcessTurn | src/components/survival.py:147-192 | hunger falls by one and thirst by two, never below zero; stamina recovers five when resting and one otherwise, up to its maximum; a message for each meter whose status changed, hunger first |
| Components.Survival.Eat | src/components/survival.py:215-236 | hunger rises by the nutrition up to the maximum; the refusal message exactly when nothing was gained |
| Components.Survival.Drink | src/components/survival.py:238-259 | thirst rises by the hydration up to the maximum; the refusal message exactly when nothing was gained |
| Components.Survival.Rest | src/components/survival.py:261-264 | the actor is resting afterwards and is told so |
| Components.Survival.StopRest | src/components/survival.py:266-269 | the actor is no longer resting afterwards and is told so |
| Components.Survival.GetStatusString | src/components/survival.py:271-299 | the status reads "정상" exactly when hunger and thirst are both normal; otherwise it is the hunger word alone, the thirst word alone, or the hunger word, ", " and the thirst word |
| Components.NpcComponent.constructor | src/components/npc.py:51-72 | a new NPC starts at the greeting dialogue with disposition 50 |
| Components.NpcComponent.ChangeDisposition | src/components/npc.py:119-132 | the disposition moves by the amount within [0, 100] and the message reports the direction of the change |
| Components.NpcComponent.AddToShop | src/components/npc.py:134-136 | the item is appended to the shop's stock |
| Components.NpcComponent.RemoveFromShop | src/components/npc.py:138-143 | success exactly when the item was stocked; its first occurrence goes and the rest are kept |
| Components.AiComponent.Hostile | src/components/ai.py:40-43 | a hostile AI keeps its detection range and has no owner yet |
| Components.AiComponent.Passive | src/components/ai.py:126-129 | a passive AI keeps its flee threshold and starts unprovoked |
| Components.AiComponent.BecomeHostile | src/components/ai.py:216-218 | the AI is hostile afterwards |
| Equipment.SlotIndex | src/components/equipment.py:14-24 | every slot has a position in declaration order, and that position holds the slot |
| Equipment.SlotIndexIsPosition | src/components/equipment.py:14-24 | the slot at each position of the declaration order has that position |
| Equipment.AllSlotsListsEverySlotOnce | src/components/equipment.py:103-105 | the slot order lists every slot, each exactly once, so the initial dictionary covers all slots |
| Equipment.SlotAheadOfRest | src/components/equipment.py:184-187 | a slot never reappears later in the slot order, which makes the equipped list free of duplicate slots |
| Equipment.GetOr | src/components/equipment.py:58-74 | `data.get(key, default)`: the stored value when present, the default otherwise |
| Equipment.WeaponData.FromDict | src/components/equipment.py:53-75 | every field is the dictionary's value or its documented default, and max_durability is read from the same key as durability |
| Equipment.WeaponData.Use | src/components/equipment.py:82-85 | durability drops by one, never below 0, and only for weapons that wear |
| Equipment.WeaponData.Repair | src/components/equipment.py:87-92 | a negative amount restores full durability; otherwise durability rises by the amount, capped at the maximum |
| Equipment.UsesUntilBroken | src/components/equipment.py:77-85 | a wearing weapon is broken after n uses exactly when n reaches its starting durability, its durability is then max(0, d - n), and a weapon that does not wear never breaks |
| Equipment.DurabilityBounds | src/components/equipment.py:77-92 | use keeps durability in [0, d]; a full repair un-breaks a wearing weapon; a non-negative repair never exceeds the maximum and never lowers a durability within it |
| Equipment.Usable | src/components/equipment.py:150-151 | the weapon counts exactly when it is present and not broken |
| Equipment.AttackRange | src/components/equipment.py:328-330 | the weapon's own range when it counts, 1 bare-handed or broken |
| Equipment.CanAttackTarget | src/components/equipment.py:308-340 | an attack is allowed exactly when the Chebyshev distance is within the attack range, with the out-of-range message otherwise and an empty reason when allowed |
| Equipment.BareHandsReachNeighbours | src/components/equipment.py:325-333 | bare-handed, exactly the own cell and the eight neighbouring cells are in reach |
| Equipment.Equipment.constructor | src/components/equipment.py:102-106 | every slot exists and starts empty, with no owner |
| Equipment.Equipment.Equip | src/components/equipment.py:118-131 | the slot takes the item, the previous occupant is returned, no other slot changes |
| Equipment.Equipment.Unequip | src/components/equipment.py:133-145 | the slot is emptied, its occupant is returned, no other slot changes |
| Equipment.Equipment.DamageBonus | src/components/equipment.py:147-153 | the main weapon's damage when it is present and not broken, 0 otherwise |
| Equipment.Equipment.DefenseBonus | src/components/equipment.py:155-158 | always 0 |
| Equipment.Equipment.AccuracyBonus | src/components/equipment.py:160-166 | the main weapon's accuracy when it is present and not broken, 0 otherwise |
| Equipment.Equipment.GetAttackRange | src/components/equipment.py:168-173 | the main weapon's range when it is present and not broken, 1 otherwise |
| Equipment.Equipment.GetWeaponSpeed | src/components/equipment.py:175-180 | the main weapon's speed when it is present and not broken, 2 otherwise |
| Equipment.Equipment.GetEquippedList | src/components/equipment.py:182-187 | exactly the occupied slots, each paired with its item, with no slot listed twice, in the slots' declaration order |
| Equipment.Equipment.EquippedFrom | src/components/equipment.py:184-187 | from a given slot position on: only occupied later slots, every such slot included, no slot twice, in declaration order |
| NpcRules.HostileIsNotFriendly | src/components/npc.py:72-78 | a hostile NPC (below 10) is never friendly (30 and up), and exactly the dispositions in [10, 30) are neither |
| NpcRules.GreetingTable | src/components/npc.py:82-111 | each of the three disposition tiers has a line for every role except the quest giver |
| NpcRules.GreetingTiers | src/components/npc.py:80-113 | the quest giver always gets "..."; otherwise the line comes from the tier the disposition falls in (70 and up, 30 to 69, below 30) |
| NpcRules.NewDisposition | src/components/npc.py:121-122 | the disposition after a change is the plain sum when that lies in [0, 100], 100 when the sum is above 100 and 0 when it is below 0 |
| NpcRules.DispositionMessage | src/components/npc.py:124-132 | the friendship message exactly when the disposition rises across 70, the dislike message exactly when it falls below 30 from 30 or more, and no message exactly when it is unchanged |
| NpcRules.ClosedByEntries | src/components/npc.py:146-311 | a dialogue table whose entries carry their own key as id and whose follow-up links name existing keys is closed |
| NpcRules.MerchantDialoguesClosed | src/components/npc.py:146-188 | the merchant's dialogue table has a greeting, ids match keys, and every follow-up names an entry of the table |
| NpcRules.PriestDialoguesClosed | src/components/npc.py:191-237 | the same for the priest's table |
| NpcRules.BlacksmithDialoguesClosed | src/components/npc.py:240-264 | the same for the blacksmith's table |
| NpcRules.InnkeeperDialoguesClosed | src/components/npc.py:267-311 | the same for the innkeeper's table |
| SurvivalRules.StatusOf | src/components/survival.py:96-116 | a meter at 0 or below is dying, below 50 critical, below 200 warning, and otherwise normal |
| SurvivalRules.StatusMonotone | src/components/survival.py:96-116 | lowering a meter never gives it a better status |
| SurvivalRules.ChangeMessage | src/components/survival.py:163-181 | a status change announces a message exactly when the new status is not normal |
| SurvivalRules.TransitionMessages | src/components/survival.py:160-181 | a turn's meter update yields at most one message per meter, none when the status is unchanged, and exactly one whenever the meter fell and its status changed |
| SurvivalRules.IntakeMessage | src/components/survival.py:215-259 | eating or drinking reports failure when nothing was restored, fullness when the meter reaches 80% of its maximum, enough when it reaches half but not 80%, and too little when it stays below half; each in the eating or the drinking wording |
| SurvivalRules.StatusLine | src/components/survival.py:271-299 | the status line reads "정상" exactly when neither hunger nor thirst needs attention; otherwise it is the hunger word alone, the thirst word alone, or both joined by ", ", hunger first |
| Ai.SignStep | src/components/ai.py:75-80 | the normalised step is a unit step, is zero on an axis exactly when the two cells agree on it, and never points away from the target |
| Ai.MoveTowards | src/components/ai.py:71-95 | the diagonal step is taken when walkable; otherwise the horizontal then the vertical part; no move exactly when all the tried steps are blocked; any step returned is a walkable unit step |
| Ai.FirstWalkable | src/components/ai.py:112-117 | no step exactly when every remaining direction is blocked; otherwise the result is the first walkable direction of the shuffled list |
| Ai.Wander | src/components/ai.py:97-117 | no move when the roll exceeds the chance or when all eight neighbours are blocked, and only then; a move is one of the eight directions and walkable |
| Ai.ShuffledDirections | src/components/ai.py:105-110 | a shuffle of the direction list holds exactly the eight directions |
| Ai.WanderStepsAreUnit | src/components/ai.py:97-117 | every wandering step is a non-zero unit step |
| Ai.HostilePerform | src/components/ai.py:45-50 | no action without an owner or a target; otherwise the hostile step rule |
| Ai.HostileStep | src/components/ai.py:51-69 | wander beyond the detection range or when the monster's cell is not visible; the offset itself when adjacent; otherwise move towards the target; always a unit step |
| Ai.FleeFrom | src/components/ai.py:149-169 | the step away from the target when it is walkable, otherwise peaceful wandering; any step is walkable |
| Ai.FleeNeverApproaches | src/components/ai.py:149-169 | a walkable flight step never brings the actor closer to the target on either axis |
| Ai.Chase | src/components/ai.py:171-193 | the offset when adjacent; otherwise the step toward the target exactly when it is walkable, and no move exactly when it is not |
| Ai.PassivePerform | src/components/ai.py:131-147 | a hurt animal flees, a provoked one chases, any other wanders with the peaceful chance; always a unit step |
| GameMaps.BlockingIndex | src/systems/game_map.py:67-70 | the index of the first entity at or after k that blocks movement at (x, y), or -1 exactly when there is none |
| GameMaps.ActorIndex | src/systems/game_map.py:74-77 | the index of the first actor at or after k standing at (x, y), or -1 exactly when there is none |
| GameMaps.ItemsAt | src/systems/game_map.py:81 | exactly the listed items lying at (x, y), in list order |
| GameMaps.AliveIn | src/systems/game_map.py:102-106 | exactly the live actors of the entity list, in list order |
| GameMaps.RayFromIsPrefix | src/systems/game_map.py:162-183 | the cells a ray marks are a prefix of the cells it passes through |
| GameMaps.RayFromShape | src/systems/game_map.py:162-183 | a ray marks at most `radius` cells, all in bounds, all within the radius when the distance cut-off applies, and every marked cell before the last is transparent |
| GameMaps.MinIndex | src/systems/game_map.py:216 | `heappop` takes a least `(f_score, cell)` entry in tuple order |
| GameMaps.StepCost | src/systems/game_map.py:236 | a move costs at least one straight step (1.0 straight, 1.4 diagonal, scaled by ten) |
| GameMaps.GameMap.constructor | src/systems/game_map.py:29-44 | every tile is wall, nothing is visible or explored, and there are no entities or items (also web/game.js:317-337) |
| GameMaps.GameMap.GetBlockingEntityAt | src/systems/game_map.py:65-70 | none exactly when no entity blocks movement at (x, y); otherwise a listed entity blocking there (also web/game.js:349-351) |
| GameMaps.GameMap.IsWalkable | src/systems/game_map.py:50-63 | walkable exactly when in bounds, on a walkable tile, and no entity blocks there (also web/game.js:343-347) |
| GameMaps.GameMap.GetActorAt | src/systems/game_map.py:72-77 | none exactly when no actor stands at (x, y); otherwise the first listed actor standing there (also web/game.js:353-355) |
| GameMaps.GameMap.GetItemsAt | src/systems/game_map.py:79-81 | exactly the floor items at (x, y), in list order (also web/game.js:357-359) |
| GameMaps.GameMap.Actors | src/systems/game_map.py:101-106 | exactly the live actors among the entities |
| GameMaps.GameMap.AddEntity | src/systems/game_map.py:83-85 | the entity is appended (also web/game.js:361-363) |
| GameMaps.GameMap.RemoveEntity | src/systems/game_map.py:87-90 | the first occurrence is removed, an absent entity changes nothing, and the multiset loses exactly that entity (also web/game.js:365-368) |
| GameMaps.GameMap.AddItem | src/systems/game_map.py:92-94 | the item is appended (also web/game.js:370-372) |
| GameMaps.GameMap.RemoveItem | src/systems/game_map.py:96-99 | the first occurrence is removed, an absent item changes nothing, and the multiset loses exactly that item (also web/game.js:374-377) |
| GameMaps.GameMap.CastRay | src/systems/game_map.py:143-183 | exactly the cells of the ray up to its stopping point become visible and explored, and nothing else changes |
| GameMaps.GameMap.MarkRay | src/systems/game_map.py:162-183 | the stepping loop of a ray marks exactly as many cells as the ray reaches |
| GameMaps.GameMap.ComputeFov | src/systems/game_map.py:113-141 | afterwards a cell is visible exactly when it is the observer's or some ray reaches it, and explored exactly when it was explored before or is visible now (also web/game.js:379-415) |
| GameMaps.GameMap.GetPath | src/systems/game_map.py:185-245 | a non-empty path ends at the goal, starts next to the start, moves by king steps over in-bound walkable cells and never revisits the start; a path to the start itself is empty |
| GameMaps.GameMap.Reconstruct | src/systems/game_map.py:219-224 | following the came-from links back from the goal yields a king-step chain from the start's neighbour to the goal over walkable cells |
| Rooms.Center | src/systems/procgen.py:29-34 | the centre is the floored midpoint of the two corners on each axis (also web/game.js:480-482) |
| Rooms.CenterInInner | src/systems/procgen.py:29-39 | a room at least two cells wide and high has its centre on a cell that gets carved |
| Rooms.CenterInClosed | src/systems/procgen.py:29-34 | the centre of a well-formed room lies in its closed rectangle |
| Rooms.IntersectsSymmetric | src/systems/procgen.py:41-48 | intersection does not depend on the order of the two rooms (also web/game.js:476-478) |
| Rooms.IntersectsIffShareCell | src/systems/procgen.py:41-48 | two well-formed rooms intersect exactly when their closed rectangles share a cell, so rooms touching at an edge or corner count as intersecting |
| Rooms.DisjointRooms | src/systems/procgen.py:41-48 | rooms that do not intersect share no cell of their closed rectangles and none of their carved inner cells |
| Rooms.HRun | src/systems/procgen.py:76-77 | exactly the cells of row y between the two x values, both included (also web/game.js:484-488) |
| Rooms.VRun | src/systems/procgen.py:80-81 | exactly the cells of column x between the two y values, both included (also web/game.js:490-494) |
| Rooms.TunnelBetween | src/systems/procgen.py:51-88 | the tunnel contains both ends and exactly the cells of the L through the corner chosen by the draw |
| Rooms.TunnelInBox | src/systems/procgen.py:64-88 | every tunnel cell lies in the bounding box of the two ends |
| Rooms.HWalk | src/systems/procgen.py:76-77 | a walk of edge steps along row y from one x to the other |
| Rooms.VWalk | src/systems/procgen.py:80-81 | a walk of edge steps along column x from one y to the other |
| Rooms.JoinWalks | src/systems/procgen.py:75-88 | two walks that meet at a cell join into one walk over their cells |
| Rooms.TunnelConnected | src/systems/procgen.py:51-88 | an L-shaped tunnel connects its ends: a walk of edge steps runs from start to end over tunnel cells only |
| Procgen.FirstRoomApart | src/systems/procgen.py:133-150 | a cell of the first room's closed rectangle lies in no later room's inner area, so monsters and items never land on the player's room |
| Procgen.PlaceEntities | src/systems/procgen.py:165-270 | new monsters and items are fresh, of the right kind and inside the room; at most the maximum of each is added; no two entities and no two items end up on one cell; a negative maximum fails as `randint` raises, and non-negative maxima in a room at least two cells wide and high succeed |
| Procgen.PlaceMonsters | src/systems/procgen.py:185-218 | new monsters are fresh actors inside the room, at most the maximum, never two on one cell; a negative maximum fails |
| Procgen.NewMonster | src/systems/procgen.py:196-216 | a goblin (10 hp, defence 0, power 3, sight 6) or an orc (16 hp, defence 1, power 4, sight 8) at the given cell, with its fighter and AI linked back to it |
| Procgen.PlaceItems | src/systems/procgen.py:220-270 | new items are fresh consumables inside the room, at most the maximum, never two on one cell; a negative maximum fails |
| Procgen.NewItem | src/systems/procgen.py:231-268 | dried meat (nutrition 200) below 0.5, a water bottle (hydration 300) below 0.8, a healing potion otherwise, all consumable, at the given cell |
| Procgen.TunnelInMap | src/systems/procgen.py:144-145 | a tunnel between two cells of the map never leaves the map |
| Procgen.CarveRoom | src/systems/procgen.py:137 | after carving, the tiles are floor exactly on the accepted rooms' inner cells and the tunnels, wall elsewhere |
| Procgen.DigTunnel | src/systems/procgen.py:144-145 | after digging, the tiles are floor exactly on the rooms' inner cells and the tunnels including the new one, wall elsewhere |
| Procgen.PopulateRoom | src/systems/procgen.py:147-150 | monsters and items placed in a later room keep every entity and item inside the rooms after the first, never on the player, never two on one cell |
| Procgen.AcceptLaterRoom | src/systems/procgen.py:136-152 | a later room is carved, tunnelled to the previous room's centre and populated, keeping the carved-tiles and population invariants |
| Procgen.TryRoom | src/systems/procgen.py:121-152 | one attempt either leaves the rooms alone or appends one room while keeping every generation invariant; the player moves only when the first room is accepted; an empty size range fails as `randint` raises, and a size range that fits the map succeeds |
| Procgen.AcceptRoom | src/systems/procgen.py:136-152 | an accepted room keeps every generation invariant, and only the first one moves the player |
| Procgen.AcceptNextRoom | src/systems/procgen.py:142-152 | a room after the first keeps every generation invariant |
| Procgen.AcceptFirstRoom | src/systems/procgen.py:136-141 | the first room is carved and the player stands at its centre |
| Procgen.GenerateDungeon | src/systems/procgen.py:91-162 | the rooms are pairwise disjoint, inside the map and of the drawn size range; the player stands at the first room's centre; each later room is tunnelled to the one before; tiles are stairs at the last room's centre, floor on rooms and tunnels, wall elsewhere; the player is the last entity; every monster and item is in a later room, never two on one cell |
| Procgen.BuildRooms | src/systems/procgen.py:118-152 | the room loop keeps every generation invariant across all attempts, with at most one room per attempt |
| Procgen.FinishDungeon | src/systems/procgen.py:154-160 | stairs replace the floor at the last room's centre, then the player is added last, keeping positions distinct |
| Procgen.PlaceStairs | src/systems/procgen.py:155-157 | only the last room's centre changes, to stairs down |
| Procgen.AddPlayer | src/systems/procgen.py:160 | the player is appended after every monster, and no monster shares its cell |
| WebDungeon.WebTunnel | web/game.js:455-461 | the tunnel holds both centres, and a cell is on it exactly when it lies on the L-shaped path that turns at the corner the draw selects |
| WebDungeon.WebTunnelMatchesTunnelBetween | web/game.js:455-461 | the browser generator's tunnel covers exactly the cells that the Python generator's `tunnel_between` covers for the same draw (also src/systems/procgen.py:51-88) |
| WebDungeon.WebTunnelJoinsCentres | web/game.js:449-462 | a tunnel dug between two room centres covers both of them and stays inside their bounding box |
| WebDungeon.CreateHTunnel | web/game.js:484-488 | floor on every cell of the row between the two columns inclusive, and every other tile unchanged |
| WebDungeon.CreateVTunnel | web/game.js:490-494 | floor on every cell of the column between the two rows inclusive, and every other tile unchanged |
| WebDungeon.DigWebTunnel | web/game.js:455-461 | the two tunnel calls carve exactly the tunnel for the draw, so the map stays floor on the rooms and tunnels and wall elsewhere |
| WebDungeon.CarveWebRoom | web/game.js:443-447 | carving a room's whole rectangle keeps the map floor exactly on the rooms and tunnels |
| WebDungeon.WebRoomsStateAppend | web/game.js:431-464 | a room that overlaps none of the earlier ones, tunnelled to the previous room, keeps the rooms disjoint, within their margins and sizes, and each joined to its predecessor |
| WebDungeon.CenterOnMap | web/game.js:480-482 | the centre of a room with its margin lies on the map |
| WebDungeon.TryWebRoom | web/game.js:423-465 | one attempt adds at most one room, drawing the tunnel orientation only for a room after the first, and keeps the generator's invariant |
| WebDungeon.AcceptWebRoom | web/game.js:442-464 | an accepted room and its tunnel to the previous room keep the generator's invariant |
| WebDungeon.GenerateWebDungeon | web/game.js:419-474 | at most maxRooms rooms, pairwise disjoint, of the drawn sizes and with a one-cell margin, each joined to the previous one by a tunnel; the map is floor exactly on rooms and tunnels, with the down-stairs at the last room's centre, and wall elsewhere |
| Quests.Advance | src/systems/quest.py:113-116 | only a matching objective that is not yet done moves; its count stops at the requirement, it is complete exactly when the amount covers what was missing, and its type, target, requirement and description stay |
| Quests.AdvanceAll | src/systems/quest.py:112-116 | every objective of the list is advanced on its own, and the list keeps its length |
| Quests.ProgressNeverOvershoots | src/systems/quest.py:112-116 | progress never carries a count past the larger of its old value and its requirement, keeps counts that were within their requirements within them, and leaves objectives of another type or target alone |
| Quests.CompleteObjectivesIgnoreProgress | src/systems/quest.py:112-120 | once every objective is done, no event moves any of them |
| Quests.Progressed | src/systems/quest.py:96-122 | only an active quest changes; it becomes completed exactly when some objective moved and all are now done; it stays active or completed; no quest becomes, or stops being, available |
| Quests.Ticked | src/systems/quest.py:145-161 | only an active timed quest changes: it loses one turn and fails exactly when none is left; the objectives never change, and no quest becomes available |
| Quests.TimedQuestFailsOnTime | src/systems/quest.py:145-161 | an active timed quest with t turns left is active with t - n turns left after n < t turns, and failed after t turns or more |
| Quests.FailedQuestStaysFailed | src/systems/quest.py:152-153 | turns never change a failed quest |
| Quests.MatchLines | src/systems/quest.py:194-196 | at most one progress line per objective, and none when no objective has the type and target |
| Quests.QuestLines | src/systems/quest.py:192-198 | a quest that did not move contributes no message; one that became completed ends its messages with the completion line |
| Quests.TurnLines | src/systems/quest.py:229-235 | a quest that times out gets exactly the timeout line; an untimed quest gets none; an active timed quest with at most 100 turns left afterwards gets the remaining-time line; never more than one line |
| Quests.DistinctAppend | src/systems/quest.py:178 | two lists without repeats that share nothing join into one without repeats |
| Quests.DistinctRemoveFirst | src/systems/quest.py:220 | removing a quest from a list without repeats leaves no copy of it and keeps the rest without repeats |
| Quests.SplitSeparates | src/systems/quest.py:229-233 | the quests a turn keeps and the quests it fails are two lists without repeats that share no quest |
| Quests.SeparateAdd | src/systems/quest.py:175-180 | appending a quest found in no list keeps the three lists separate |
| Quests.SeparateMove | src/systems/quest.py:218-222 | moving a quest from the active to the completed list keeps the three lists separate |
| Quests.SeparateTurn | src/systems/quest.py:226-237 | moving the timed-out quests to the failed list keeps the three lists separate |
| Quests.Quest.constructor | src/systems/quest.py:62-90 | the given fields, status available and no turns remaining |
| Quests.Quest.UpdateProgress | src/systems/quest.py:96-122 | nothing happens unless the quest is active; then every objective is advanced, the result says whether any moved, and the quest becomes completed exactly when one moved and all are now done |
| Quests.Quest.ProgressLines | src/systems/quest.py:194-196 | the progress lines of the objectives of the given type and target, in order |
| Quests.Quest.Accept | src/systems/quest.py:124-132 | only an available quest is accepted; it becomes active, and a timed one gets its whole time limit |
| Quests.Quest.Fail | src/systems/quest.py:134-136 | the quest is failed, whatever it was |
| Quests.Quest.Finish | src/systems/quest.py:138-143 | a completed quest is finished and returns its rewards; any other keeps its status and returns the empty reward |
| Quests.Quest.ProcessTurn | src/systems/quest.py:145-161 | an active timed quest loses one turn and fails, reporting it, exactly when none is left; any other quest is unchanged |
| Quests.Views | src/systems/quest.py:229 | the status, objectives and turns of each quest, in list order |
| Quests.ProgressReport | src/systems/quest.py:189-211 | no messages when no listed quest is active |
| Quests.SplitWithin | src/systems/quest.py:229-233 | a turn keeps or fails only listed quests, and each listed quest ends on the side its timeout says |
| Quests.SplitMembers | src/systems/quest.py:229-233 | a turn keeps or fails only listed quests |
| Quests.SplitPlaces | src/systems/quest.py:229-233 | each listed quest ends on the side its timeout says |
| Quests.NotKeptBefore | src/systems/quest.py:229-232 | in a list without repeats, the quest being processed is none of the quests kept before it, so the removal takes it out at its own place |
| Quests.TurnReport | src/systems/quest.py:226-237 | a turn writes at most one message per active quest |
| Quests.QuestLog.constructor | src/systems/quest.py:170-173 | the active, completed and failed lists start empty |
| Quests.QuestLog.AddQuest | src/systems/quest.py:175-180 | an available quest is accepted and appended to the active list; any other is refused and nothing changes; the lists stay separate |
| Quests.QuestLog.GetQuest | src/systems/quest.py:182-187 | the first active quest with the id, or none exactly when no active quest has it |
| Quests.QuestLog.UpdateKillQuest | src/systems/quest.py:189-199 | every active quest makes one kill of progress on the monster, and the messages are the per-quest progress and completion lines in list order |
| Quests.QuestLog.UpdateCollectQuest | src/systems/quest.py:201-211 | every active quest makes one item of progress on the item, and the messages are the per-quest progress and completion lines in list order |
| Quests.QuestLog.UpdateAll | src/systems/quest.py:192-199 | the shared update loop: each active quest progresses once, with its messages in list order |
| Quests.QuestLog.UpdateAt | src/systems/quest.py:193-198 | the i-th active quest progresses and the quests before it keep their progress |
| Quests.QuestLog.UpdateOne | src/systems/quest.py:193-198 | one quest's progress and messages |
| Quests.QuestLog.CompleteQuest | src/systems/quest.py:213-224 | an active completed quest is finished, moved from the active list to the end of the completed list, and its rewards returned; otherwise none and nothing changes |
| Quests.QuestLog.ProcessTurn | src/systems/quest.py:226-237 | every active quest counts a turn; those that time out move in order to the end of the failed list; the completed list is untouched; the lists stay separate and the messages are the per-quest turn lines |
| Quests.QuestLog.RunTurns | src/systems/quest.py:229-235 | the loop over the copy of the active list ends with exactly the kept quests active and the timed-out ones appended to the failed list |
| Quests.QuestLog.TurnKeepsValid | src/systems/quest.py:226-237 | after a whole turn the lists are separate and hold no available quest |
| Quests.QuestLog.TurnAt | src/systems/quest.py:230-235 | one quest's turn, and its move to the failed list exactly when it times out |
| Quests.QuestLog.MoveToFailed | src/systems/quest.py:232-233 | the timed-out quest leaves the active list at its own place and is appended to the failed list |
| WebQuests.Advance | web/game.js:155-160 | an objective of another type or target, or one already done, is unchanged; a matching one moves forward by the amount but never past its requirement, and keeps its type, target and requirement |
| WebQuests.AdvanceAll | web/game.js:155-160 | every objective of the quest is advanced on its own, and none is added or removed |
| WebQuests.AdvanceKeepsCounts | web/game.js:155-160 | progress never pushes a count past its requirement, and objectives of any other type or target are untouched |
| WebQuests.LargeAmountCompletes | web/game.js:153-169 | an amount covering every remaining count of the matching objectives completes all of them |
| WebQuests.WebQuest.constructor | web/game.js:144-151 | a new quest holds its objectives and reward and is active |
| WebQuests.WebQuest.UpdateProgress | web/game.js:153-165 | every matching unfinished objective advances, the result says whether any did, and the quest becomes completed exactly when one did and every objective is now done; otherwise its status is kept |
| WebQuests.FindObjective | web/game.js:186 | the index found is the first objective of that type and target, or -1 when there is none |
| WebQuests.WebQuestLog.constructor | web/game.js:173-176 | a new quest log has no active and no completed quests |
| WebQuests.WebQuestLog.AddQuest | web/game.js:178-180 | the quest is appended to the active list |
| WebQuests.WebQuestLog.UpdateKillQuest | web/game.js:182-196 | in a list that holds no quest twice, every active quest's objectives make one kill of progress on the monster (`AdvanceAll`), and a quest is completed exactly when one of its objectives advanced and all are done, otherwise its status is kept; each quest yields at most a progress line and a completion line, a quest's status changes only to completed, no count passes its requirement, and no objective is added or removed |
| WebQuests.WebQuest.KillProgress | web/game.js:184-193 | one quest's part of a kill: its objectives make one kill of progress on the monster, it is completed exactly when one advanced and all are done (otherwise its status is kept), at most two lines, and no count passes its requirement |
| Religions.LevelOf | src/systems/religion.py:96-110 | each favor level holds exactly on its band: wrathful at -50 and below, displeased below 0, neutral below 25, pleased below 50, blessed below 80, exalted from 80 |
| Religions.LevelOfMonotone | src/systems/religion.py:96-110 | more favor never gives a lower level |
| Religions.LevelName | src/systems/religion.py:112-122 | every level has a name of its own, so the "unknown" default is never returned |
| Religions.MinorBlessing | src/systems/religion.py:205-208 | the random choice is one of the three minor blessings |
| Religions.PrayerSucceedsExactly | src/systems/religion.py:171-203 | a heard prayer succeeds exactly from favor 25 up, or from favor 0 up with a draw below 0.3 |
| Religions.PrayerKeepsUnique | src/systems/religion.py:171-203 | every answer to a prayer keeps the blessings and curses one entry per key |
| Religions.ExaltedPrayerBlessings | src/systems/religion.py:217-222 | at the top level every blessing of the deity runs for its own duration, divine protection for 500 turns and a full restore for one; other blessings are kept |
| Religions.WrathfulPrayerCurses | src/systems/religion.py:224-228 | at the lowest level every curse of the deity runs for its own duration; other curses are kept |
| Religions.MinorBlessingLasts | src/systems/religion.py:181-192 | when a neutral or pleased deity grants a minor blessing it runs for 100 turns |
| Religions.FirstNamed | src/systems/religion.py:317-321 | no ability exactly when none has the name; otherwise one of the deity's abilities with that name |
| Religions.FirstNamedIsFirst | src/systems/religion.py:317-321 | the ability found comes before any other of the same name |
| Religions.FindAbility | src/systems/religion.py:317-321 | the search loop finds exactly the first ability of the name, or none |
| Religions.AbilityInvokedExactly | src/systems/religion.py:313-342 | an ability is invoked exactly when a deity is served, it has an ability of that name, no cooldown is left, the favor level reaches the ability's and the faith covers its cost |
| Religions.InvokedAbilityCharges | src/systems/religion.py:339-340 | an invocation leaves the faith non-negative and starts the ability's full cooldown |
| Religions.SinNeverRaisesLevel | src/systems/religion.py:271-272 | a sin never raises the favor level and never takes the favor below -100 |
| Religions.DevotionNeverLowersLevel | src/systems/religion.py:294-295 | a devout act or a sacrifice never lowers the favor level and never takes the favor above 100 |
| Religions.PutEach | src/systems/religion.py:213-215 | copying a deity's effect table in assigns its entries in order, as one table update |
| Religions.Religion.constructor | src/systems/religion.py:80-93 | a new faith serves no deity, has no favor, faith, sins or devotion, and no blessings, curses or cooldowns |
| Religions.Religion.Convert | src/systems/religion.py:124-151 | apostasy sets favor to -30 and adds ten sins, a first conversion sets favor to 10; faith, blessings and curses start over and cooldowns are kept |
| Religions.Religion.Pray | src/systems/religion.py:153-203 | without a deity or before the timeout runs out nothing changes and the prayer fails; otherwise the timeout restarts at 500 and the favor level decides success, blessings and curses |
| Religions.Religion.ApplyMinorBlessing | src/systems/religion.py:205-209 | the chosen minor blessing runs for 100 turns |
| Religions.Religion.ApplyBlessing | src/systems/religion.py:211-215 | the deity's blessing table is copied into the active blessings; without a deity nothing changes |
| Religions.Religion.ApplyMajorBlessing | src/systems/religion.py:217-222 | the deity's blessings, then divine protection for 500 turns and a full restore for one |
| Religions.Religion.ApplyCurse | src/systems/religion.py:224-230 | the deity's curse table is copied into the active curses; without a deity weakness runs for 200 turns |
| Religions.Religion.Sacrifice | src/systems/religion.py:232-256 | without a deity nothing changes; otherwise a tenth of the value is added to the favor (at most 100), a fifth to the faith, and one devotion act is counted |
| Religions.Religion.CommitSin | src/systems/religion.py:258-278 | without a deity nothing changes; otherwise the sins grow by the severity and the favor falls by five per degree, never below -100 |
| Religions.Religion.ActDevout | src/systems/religion.py:280-301 | without a deity nothing changes; otherwise the favor rises by three per degree, never above 100, and faith and devotion grow by the significance |
| Religions.Religion.UseAbility | src/systems/religion.py:303-342 | the checks are made in the source's order; a failed check changes nothing; an invocation pays the faith cost and starts the cooldown |
| Religions.Religion.ProcessTurn | src/systems/religion.py:344-372 | the prayer timeout falls towards zero; cooldowns, blessings and curses each count down one turn and lose the keys that run out; one message per ended blessing, then per ended curse, in order |
| Dicts.Lookup | src/systems/religion.py:327 | a key has a value exactly when the dictionary holds it |
| Dicts.GetOr | src/systems/religion.py:327 | `get` with a default gives the key's value when present and the default otherwise |
| Dicts.Keys | src/systems/religion.py:353 | `list(d)` lists the keys in insertion order, one per entry |
| Dicts.LookupPut | src/systems/religion.py:209 | after an assignment the key holds the new value and every other key keeps its value |
| Dicts.LookupDelete | src/systems/religion.py:356 | after `del` the key is gone and every other key keeps its value |
| Dicts.LookupPutAll | src/systems/religion.py:213-215 | after copying a table in, each copied key holds its value from the table and every other key keeps its own |
| Dicts.LastLookupUnique | src/systems/religion.py:213-215 | in a table with unique keys the value last assigned to a key is its only value |
| Dicts.PutKeys | src/systems/religion.py:209 | an assignment adds exactly its key to the key set |
| Dicts.PutUnique | src/systems/religion.py:209 | an assignment keeps one entry per key |
| Dicts.PutAllUnique | src/systems/religion.py:213-215 | copying a table in keeps one entry per key |
| Dicts.CountedDownKeys | src/systems/religion.py:353-357 | the countdown introduces no new key |
| Dicts.CountedDownUnique | src/systems/religion.py:353-357 | the countdown keeps one entry per key |
| Dicts.LookupCountedDown | src/systems/religion.py:353-357 | after one turn a key with more than one turn left has one turn less, and every other key is gone |
| Dicts.ExpiredKeysExactly | src/systems/religion.py:359-363 | the keys deleted in a turn are exactly those that had at most one turn left |
| Dicts.CountDown | src/systems/religion.py:353-357 | the countdown loop leaves exactly the counted-down dictionary and reports exactly the expired keys in order |
| WebReligions.FavorRank | web/game.js:242-249 | the favour band is the lowest exactly at -50 or below and the highest exactly at 80 or above |
| WebReligions.FavorLevelIsMonotone | web/game.js:242-249 | the favour level is the name of the favour's band, and more favour never gives a lower band |
| WebReligions.PrayerOdds | web/game.js:266-270 | negative favour is never answered, any other favour is answered on a roll below 0.3, and from favour 140 every roll is answered |
| WebReligions.WebReligion.constructor | web/game.js:235-240 | a new religion has no deity, no faith, no favour and no prayer timeout |
| WebReligions.WebReligion.Convert | web/game.js:251-256 | the deity is set with favour 10 and no faith, and the conversion is announced |
| WebReligions.WebReligion.Pray | web/game.js:258-273 | without a deity or with the timeout running nothing changes and the refusal names the reason and the turns left; otherwise the timeout is set to 300, and the prayer succeeds, with a blessing, exactly when the favour is non-negative and the roll is below 0.3 + favour/200; the answer is "no response" for negative favour, "grants grace" when answered and "is silent" otherwise, each with the deity's name |
| WebReligions.WebReligion.ProcessTurn | web/game.js:275-277 | the prayer timeout counts down by one while positive and never goes negative |
| Economy.Split | src/systems/economy.py:168-174 | normalising a total gives fewer than ten silver and ten copper and keeps the value in copper, negative totals included |
| Economy.SplitOfValue | src/systems/economy.py:168-174 | an amount already in normal form is the only normal split of its value, so normalising it changes nothing |
| Economy.WalletParts | src/systems/economy.py:176-184 | one to three parts; a gold part first exactly when there is gold; copper alone when there is neither gold nor silver |
| Economy.EmptyWalletText | src/systems/economy.py:182-184 | an empty wallet reads "0C" |
| Economy.CopperOnlyText | src/systems/economy.py:176-184 | a wallet with only copper shows only its copper |
| Economy.Wallet.constructor | src/systems/economy.py:115-118 | a wallet holds the coins it is given, as given |
| Economy.Wallet.Normalize | src/systems/economy.py:168-174 | the coins become the normal split of the wallet's value |
| Economy.Wallet.Add | src/systems/economy.py:142-147 | the value grows by exactly the amount added and the coins end in normal form |
| Economy.Wallet.Remove | src/systems/economy.py:149-166 | refused exactly when the wallet cannot afford the amount, and then nothing changes; otherwise the value drops by exactly the amount and the coins end in normal form |
| Economy.StockOf | src/systems/economy.py:262-269 | no entry exactly when no stocked item has the name; otherwise a stocked entry of that name |
| Economy.QuantityAdded | src/systems/economy.py:211-218 | adding grows the name's quantity by the amount added and leaves every other name's quantity alone |
| Economy.AddedNames | src/systems/economy.py:211-218 | after adding, the stock holds the old names and the item's and no others |
| Economy.AddedNamesUnique | src/systems/economy.py:211-218 | adding never duplicates a name: the stock gains an entry exactly when the name was missing |
| Economy.QuantityAbsent | src/systems/economy.py:262-269 | a name the stock does not hold has quantity zero |
| Economy.QuantityRemoved | src/systems/economy.py:220-229 | removing takes away the amount asked, or all of the first entry when it holds less, and leaves every other name alone |
| Economy.StockAddedAt | src/systems/economy.py:214-218 | the first entry of the item's name grows in place, or a new entry is appended when there is none |
| Economy.StockRemovedAt | src/systems/economy.py:222-229 | the first entry of the name shrinks in place or is popped when it holds no more than the amount; a missing name leaves the stock unchanged |
| Economy.FindStock | src/systems/economy.py:262-269 | the search loop stops at the first entry of the name, or finds none |
| Economy.Shop.constructor | src/systems/economy.py:199-209 | a new shop has the name given, an empty stock and 500 gold |
| Economy.Shop.AddItem | src/systems/economy.py:211-218 | the stock becomes the stock with the item added |
| Economy.Shop.RemoveItem | src/systems/economy.py:220-229 | the stock becomes the stock with the amount removed; the item of the first entry of the name is returned, or none |
| Economy.Shop.BuyFromShop | src/systems/economy.py:245-288 | success exactly when the item is stocked, in enough quantity, and the buyer can pay; on refusal nothing changes; on success the price passes from the wallet to the shop and the stock shrinks; money is conserved either way |
| Economy.Shop.SellToShop | src/systems/economy.py:290-318 | refused exactly when the shop has less gold than the price, and then nothing changes; otherwise the price passes from the shop to the wallet and the item joins the stock; money is conserved either way |
| Economy.PriceTotalZero | src/systems/economy.py:407-410 | trades at non-negative prices total zero exactly when every price is zero |
| Economy.NoTradeExactly | src/systems/economy.py:403-419 | the session closes with the no-trade message exactly when nothing was spent or earned |
| Economy.TradeSession.constructor | src/systems/economy.py:337-341 | a new session is active with no purchases and no sales |
| Economy.TradeSession.EndSession | src/systems/economy.py:403-419 | the session is no longer active and the message summarises the totals spent and earned |
| Engines.LogAddShape | src/systems/engine.py:34-38 | a log within its bound stays within it and ends with the new message; only a full log loses its oldest message |
| Engines.LogAddAllBounded | src/systems/engine.py:251-252 | adding a run of messages keeps the log within its bound |
| Engines.SliceFrom | src/systems/engine.py:42 | Python's `s[start:]` keeps a suffix of the list: everything from a non-negative start, and the last `-start` elements for a negative one, each cut to the list |
| Engines.Names | src/systems/engine.py:121 | the names of the items, one per item, in order |
| Engines.MessageLog.constructor | src/systems/engine.py:30-32 | a new log is empty with the given bound |
| Engines.MessageLog.Add | src/systems/engine.py:34-38 | the message is appended and the oldest message is dropped once the log exceeds its bound |
| Engines.MessageLog.GetRecent | src/systems/engine.py:40-42 | the result is a suffix of the log: the last `count` messages for a positive count, the whole log for zero, the log without its first `-count` messages for a negative count |
| Engines.MessageLog.AddAll | src/systems/engine.py:251-252 | a run of additions in one colour has the effect of adding the messages one after another |
| Engines.MessageLog.Clear | src/systems/engine.py:44-46 | the log is empty afterwards |
| Engines.EmptyInventoryNeverPicksUp | src/systems/engine.py:263-264 | with the guard as written, which tests the inventory's truth value, a player whose inventory is empty but has room is refused every pickup |
| Engines.PickupGuardsDiffer | src/systems/engine.py:263-264 | the written guard and the intended one disagree exactly on empty inventories |
| Engines.EatReport | src/systems/engine.py:298-300 | the eating report is green, and for a positive nutrition it is the refusal exactly when hunger was already full |
| Engines.DrinkReport | src/systems/engine.py:302-304 | the drinking report is cyan, and for a positive hydration it is the refusal exactly when thirst was already full |
| Engines.EnemyBlowMessage | src/systems/engine.py:213-222 | a blow that does damage reports the damage in light red; a blow that is blocked says so in gray |
| Engines.Decide | src/systems/engine.py:191 | the step chosen is that of the actor's AI class, hostile or passive, and is always a unit step |
| Engines.Suffer | src/systems/engine.py:206-225 | a turn that is not an attack with two fighters leaves the player as it was; an attack takes the hp down by the blow to no less than 0, logs the blow's report, or the death message when the hp reaches 0, and ends the game exactly then |
| Engines.SufferAllStep | src/systems/engine.py:183-204 | the actors' turns act on the player one after the other, in list order |
| Engines.SufferAllKeepsDeathAtZero | src/systems/engine.py:206-225 | over a whole enemies' turn the player's hp never rises nor drops below 0, the game state is kept or becomes dead, and the player is dead exactly when the hp is 0 |
| EnemyMoves.LandingIsAStep | src/systems/engine.py:196-204 | an actor ends its turn where it stood or on the walkable cell it aimed at, never on the player's cell unless it stood there, at most one cell away for a unit step, and it moves exactly when it steps off the player's cell onto a walkable one |
| EnemyMoves.Replay | src/systems/engine.py:183-204 | a replay that follows the rules has at most one turn per actor and a cell for every actor |
| EnemyMoves.TracedStep | src/systems/engine.py:183-204 | the next actor's turn, under its name, idle when the actor is the player or has no AI and starting where it stands, extends the trace by one and moves that actor alone |
| EnemyMoves.ReplayPrefix | src/systems/engine.py:183-204 | every prefix of a replay that follows the rules follows them |
| EnemyMoves.ReplayLeavesTheRest | src/systems/engine.py:183-204 | an actor that has had no turn yet stands where it stood |
| EnemyMoves.ReplayKeepsTheLastTurn | src/systems/engine.py:183-204 | an actor stands where its last turn landed it |
| EnemyMoves.ReplayedTurn | src/systems/engine.py:183-194 | in a replay that follows the rules, each turn goes under its actor's name, is idle for the player and an actor without an AI, and an actor's first turn starts where it stood before any turn |
| Engines.Engine.constructor | src/systems/engine.py:63-77 | a new game is playing at turn 0, 08:00 of day 1, with an empty log of 100 messages |
| Engines.Engine.KillEntity | src/systems/engine.py:153-176 | the player's death logs the death message and ends the game; any other entity leaves the map's entities and its edible corpse is appended to the items at its cell |
| Engines.Engine.KillPlayer | src/systems/engine.py:158-160 | the death message is logged and the game state becomes dead |
| Engines.Engine.HandleMeleeAttack | src/systems/engine.py:126-151 | as `MeleeDone` states: without a fighter on either side nothing changes and the result is false; otherwise the result is true, the mitigated blow comes off the target's hp, stopping at zero, and is reported with its damage, or as no damage in gray; a target brought to zero hp is reported slain, leaves the entity list and its corpse is appended to the items; the game state is kept |
| Engines.Engine.HandlePlayerTurn | src/systems/engine.py:79-124 | outside play or without a map nothing happens; a step off the map or into a wall is refused with its message; an actor other than the player on the target cell is attacked, the player stands still and the outcome is `MeleeDone`'s (the blow, the messages and the corpse); otherwise the player moves, the lists are kept and the items there are named |
| Engines.Engine.HandleEnemyAttack | src/systems/engine.py:206-225 | without two fighters nothing happens; otherwise the attacker's mitigated blow comes off the player's hp, is reported, and the player dies at zero hp |
| Engines.Engine.ReportBlow | src/systems/engine.py:213-225 | the blow's message is logged, then the death when it was fatal |
| Engines.Engine.EnemyAct | src/systems/engine.py:196-204 | the actor ends where `Landing` puts the turn its chosen step makes (a step onto the player's cell is an attack and the actor stays put; any other step moves it exactly when the cell is walkable), and the player's hp, log and game state are what `Suffer` makes of that turn; blocking entities stay on distinct cells |
| Engines.Engine.MoveActor | src/systems/engine.py:203-204 | the actor moves exactly when the destination is walkable |
| Engines.Engine.StepActor | src/systems/engine.py:204 | a move onto a walkable cell other than the player's keeps blocking entities on distinct cells |
| Engines.Engine.HandleEnemyTurn | src/systems/engine.py:178-204 | without a map nothing changes; otherwise the entity and item lists are kept and only live actors may move; the turns returned, one per live actor in list order, are `Traced`: each goes under its actor's name, is idle for the player and an actor without an AI, starts where the actor then stands and lands it where `Landing` says; the player's hp, log and game state are `SufferAll` of those turns; every entity stays put or ends on a walkable cell other than the player's; the player stays put and never gains hp; the game can only end; blocking entities never come to share a cell |
| Engines.Engine.RunActors | src/systems/engine.py:183-204 | one turn per actor, in order: the actors' cells afterwards are the `Replay` of those turns from their cells before, and the player is left as `SufferAll` of them; the invariant of the enemies' turn is kept |
| Engines.Engine.ActorTurn | src/systems/engine.py:184-204 | the turn is the one `MoveOf` draws from the state at its start: the player and an actor without an AI take no step and so change nothing, any other actor takes the step its AI decides; the actor ends where `Landing` puts that turn and the player as `Suffer` leaves it; the invariant of the enemies' turn is kept |
| Engines.Engine.TakeTurn | src/systems/engine.py:184-204 | one actor's turn as the loop uses it: the turn is the one `MoveOf` draws from the state at its start (idle for the player and an actor without an AI, otherwise the AI's decision), it goes under the actor's name, is idle for the player and an actor without an AI, starts where the actor stands in every place the list holds it, moves that actor alone to its landing cell and leaves the player as `Suffer` says |
| Engines.Engine.EnemyStrike | src/systems/engine.py:201-202 | a step onto the player's cell leaves the actor in place and the player as `Suffer` says of the attack |
| Engines.Engine.EnemyStep | src/systems/engine.py:203-204 | a step elsewhere lands the actor where `Landing` says and leaves the player's hp, log and game state unchanged |
| Engines.Engine.ProcessTurn | src/systems/engine.py:227-259 | the clock advances with a message on a new day; the survival meters run down with their messages; a starving or dehydrated player loses one hp and dies at zero |
| Engines.Engine.AdvanceClock | src/systems/engine.py:232-240 | the clock advances by one turn, with the dawn message exactly when the day changes |
| Engines.Engine.SurvivalTurn | src/systems/engine.py:248-259 | the survival meters run down and their messages are logged in amber; a starving or dehydrated player loses one hp and dies at zero |
| Engines.Engine.PickupItem | src/systems/engine.py:261-282 | with the intended guard: success exactly when the cell holds an item and the inventory is not full; the first item there moves from the map into the inventory; every outcome is reported; items are conserved |
| Engines.Engine.UseItem | src/systems/engine.py:284-317 | a missing inventory or index does nothing; an unusable item is only reported; a consumable is eaten, drunk and healed from as it provides, each reported, then removed and reported used |
| Engines.Engine.UseUp | src/systems/engine.py:297-317 | a consumable's effects are applied and reported, then it leaves the inventory and is reported used |
| Engines.Engine.UsedUp | src/systems/engine.py:314-315 | the used item leaves the inventory and is reported used |
| Engines.Engine.DropItem | src/systems/engine.py:319-334 | success exactly when there are a map, an inventory and an item at the index; the item moves from the inventory onto the map at the player's feet and is reported; items are conserved |
| Engines.Engine.DropCarried | src/systems/engine.py:328-332 | the carried item leaves the inventory, lies at the player's feet on the map and is reported dropped |
| Engines.Engine.Consume | src/systems/engine.py:297-312 | a consumable feeds by its nutrition and waters by its hydration when the player has meters, a healing potion heals 20 when the player fights, each reported in that order |
| Engines.Engine.EatAndDrink | src/systems/engine.py:297-304 | eating then drinking, each applied and reported when the item provides it |
| Engines.Engine.EatPart | src/systems/engine.py:298-300 | hunger rises by the nutrition up to the maximum, with its report, when the item has nutrition |
| Engines.Engine.DrinkPart | src/systems/engine.py:302-304 | thirst rises by the hydration up to the maximum, with its report, when the item has hydration |
| Engines.Engine.HealPart | src/systems/engine.py:306-312 | a healing potion restores up to 20 hp, never above the maximum, and reports the gain |
| WebGame.OrDefault | web/game.js:60-63 | an option falls back to its default exactly when it is absent or zero, so the result is the option or the default and is zero only when the default is |
| WebGame.WebActor.constructor | web/game.js:58-100 | a new actor blocks movement at its position, with maximum hp 30 and power 5 unless given, hp full unless given, an empty inventory of 26 slots and no religion or quest log |
| WebGame.WebActor.TakeDamage | web/game.js:106-110 | the damage dealt is the amount minus the defense and never negative, and hp falls by it without going below 0 |
| WebGame.WebActor.Heal | web/game.js:112-116 | hp rises by the amount but never above the maximum, and the gain returned is the change in hp, between 0 and the amount for a healthy actor |
| WebGame.LoggedShape | web/game.js:1466-1472 | a message log within its bound stays within it, ends with the new line, and loses at most its oldest line |
| WebGame.LoggedAllBounded | web/game.js:1466-1472 | any number of messages leave the log within its hundred-line bound |
| WebGame.WebGameSession.constructor | web/game.js:584-590 | a new game starts at turn 0, 08:00 of day 1, on floor 1, playing, with an empty log |
| WebGame.WebGameSession.AddMessage | web/game.js:1466-1472 | the message is appended and, past a hundred lines, the oldest is dropped |
| WebGame.WebGameSession.EndTurnClock | web/game.js:749-764 | the religion's prayer timeout counts down, the turn, hour and day advance as the clock says, and a new day is announced in the log |
| WebGame.WebGameSession.PickupItem | web/game.js:833-850 | with no item underfoot or a full inventory nothing but the log changes and no turn passes; otherwise the first item underfoot moves from the map to the end of the inventory, nothing is lost or duplicated, and the turn ends |
| WebGame.WebGameSession.BuyItem | web/game.js:941-974 | an index outside the shop table changes nothing, a player short of gold only gets a message, and otherwise the price is paid and a fresh item matching the offer joins the inventory |
| WebGame.WebGameSession.PlacePlayer | web/game.js:1889-1906 | the player moves to the first room's centre; with no room the player stays put or lands on a walkable inner cell |
| WebGame.WebGameSession.GenerateNewFloor | web/game.js:1867-1917 | between one and ten dungeons are drawn, stopping at the first with three rooms; the new map holds the player alone at the first room's centre, and the down-stairs at the last room's centre |
| WebGame.WebGameSession.TryUseStairs | web/game.js:1823-1849 | outside play nothing changes; off the stairs only the no-stairs message is logged; on the stairs of the last floor the game is won with the three victory lines and the player stays put; otherwise the floor number rises by one with the descent message (and the deepest-floor line on reaching it) on a fresh valid map holding only the player, with no items, the player at the first room's centre and the stairs at the last room's |
| WebGame.NothingWalkableWithoutRooms | web/game.js:1894-1906 | a dungeon without rooms has no walkable cell, so the fallback search never moves the player |
| WebGame.DrawFloor | web/game.js:1872-1885 | the retry loop stops after ten dungeons or at the first with at least three rooms, and its map is a fresh, empty, valid generator map |
| View3DOrder.SideVectorsAreOpposite | web/view3d.js:15-20 | for every facing the left and right side vectors are opposite |
| View3DOrder.SideVectorsArePerpendicular | web/view3d.js:11-20 | for every facing both side vectors are perpendicular to the facing direction |
| View3DOrder.VisibleSprites | web/view3d.js:358-369 | no more sprites than entities, and every sprite lies at a depth in 1..4 |
| View3DOrder.VisibleSpritesAreTheEntitiesInView | web/view3d.js:360-369 | a sprite is collected exactly when it is the projection of an entity ahead of the player by 1 to 4 cells |
| View3DOrder.FirstKeys | web/view3d.js:375-387 | the position groups' keys hold no key twice |
| View3DOrder.FirstKeysCover | web/view3d.js:376-380 | every sprite's position key is among the group keys |
| View3DOrder.FirstKeysSound | web/view3d.js:376-380 | every group key is the position key of some sprite |
| View3DOrder.FloorCalls | web/view3d.js:400-408 | the floor items of a group are drawn in order, the i-th of n spread by (i - (n-1)/2) * 0.2, with no spread for a single item |
| View3DOrder.MainCalls | web/view3d.js:411-413 | the main entities of a group are drawn in order without spread |
| View3DOrder.BlockKeys | web/view3d.js:396-414 | every draw call of one group is for a sprite of that group's key |
| View3DOrder.BlockFloorFirst | web/view3d.js:399-413 | within one group no floor item is drawn after a main entity |
| View3DOrder.BlockMultiset | web/view3d.js:381-414 | one group draws every sprite of its key exactly as often as the sorted list holds it |
| View3DOrder.DrawsMultiset | web/view3d.js:396-414 | over distinct keys, the draw calls hold each sprite whose key is listed as often as the sorted list does, and no other sprite |
| View3DOrder.DrawsKeys | web/view3d.js:396-414 | every draw call is for a sprite whose key is one of the keys drawn |
| View3DOrder.DrawsDepthOrder | web/view3d.js:390-414 | keys sorted farthest first give draw calls sorted farthest first |
| View3DOrder.DrawsFloorFirst | web/view3d.js:396-414 | over distinct keys, of two calls at one position a floor item is never drawn after a main entity |
| View3DOrder.SortedKeysDistinct | web/view3d.js:390-394 | the sorted group keys hold no key twice |
| View3DOrder.SortedKeysCover | web/view3d.js:376-394 | every sprite of the depth-sorted list has its key among the sorted keys |
| View3DOrder.DepthSortKeeps | web/view3d.js:372 | the depth sort keeps every sprite in view exactly as often as it occurs |
| View3DOrder.SortedSpriteIsKeyed | web/view3d.js:376-394 | a sprite of the depth-sorted list is drawn under one of the sorted keys |
| View3DOrder.DrawnAsOftenAsVisible | web/view3d.js:355-415 | a sprite is drawn as often as it is in view |
| View3DOrder.DrawOrderIsPermutation | web/view3d.js:355-415 | the draw calls are a permutation of the sprites in view: every sprite in view is drawn exactly once per occurrence |
| View3DOrder.DrawOrderIsFarthestFirst | web/view3d.js:372-414 | sprites are drawn farthest first, and at one position floor items come before the entities standing there, so nearer sprites are painted over farther ones |
| View3DOrder.GroupDepths | web/view3d.js:381-386 | the floor items and main entities of a group lie at depths in view |
| View3DOrder.DrawsInView | web/view3d.js:396-414 | every draw call for any keys is at a depth in view |
| View3DOrder.DepthSortedInView | web/view3d.js:372 | the depth-sorted list keeps only sprites at depths in view |
| View3DOrder.DrawOrderInView | web/view3d.js:355-415 | every draw call is at a depth in 1..4, so it has a viewport |
| Ranking.Filter | web/view3d.js:376-387 | the kept elements are exactly the elements of the input that satisfy the test, each as often as in the input, and every kept element satisfies it |
| Ranking.OfRank | web/view3d.js:372 | the elements of one rank are exactly the input's elements of that rank, with their multiplicities |
| Ranking.ByRank | web/view3d.js:372-394 | the stable sort by descending rank keeps every element whose rank is in 1..d exactly as often as the input does, drops the rest, and leaves the result with higher ranks first |
| Ranking.ByRankKeepsDistinct | web/view3d.js:390-394 | sorting a list without duplicates gives a list without duplicates |
| View3D.DirectionFor | web/view3d.js:36-37 | a facing is found exactly for the eight names "up", "down", "left", "right", "N", "S", "E" and "W" |
| View3D.DirectionWordsPointThatWay | web/view3d.js:11-37 | "up", "down", "left" and "right" name the facings whose steps point up, down, left and right on the map |
| View3D.FacingFollowsTheStep | web/view3d.js:40-45 | a horizontal step turns the view along its horizontal sign, otherwise a vertical step along its vertical sign, and no step keeps the facing |
| View3D.DoorsAreWalls | web/view3d.js:343-352 | off the map is wall and never door, a door is always a wall, and on a full-width row a cell is wall exactly when it holds '#' or '+' |
| View3D.ProbesFlankTheFront | web/view3d.js:100-110 | the front probe lies exactly `depth` steps straight ahead, and the side probes are its two neighbours across the line of sight, the right one one step to the right |
| View3D.ViewportsNest | web/view3d.js:23-29 | on the 50 by 18 screen the viewports, floored to cells as `drawFrontWall` does, are (left, right, top, bottom) = (0,50,0,18), (7,42,2,15), (14,36,5,12), (19,31,6,11) and (22,27,8,9), each strictly inside the one for the depth before it |
| View3D.BackgroundIsSymmetric | web/view3d.js:77-97 | the background is symmetric about the horizon row and blank at the horizon; on the screen a row is blank exactly within two rows of the horizon (rows 7-11) and '░' exactly at rows 0-3 and 15-17 |
| View3D.FrontWallOutline | web/view3d.js:284-296 | a front wall's top and bottom rows are '═' and, away from the stripes, its side columns are '║' |
| View3D.ScaleLevel | web/view3d.js:430 | the pattern scale is always between 2 and 5 |
| View3D.ScaleLevelFalls | web/view3d.js:430 | a nearer sprite is drawn at least as large as a farther one, and at the largest scale exactly at depth 1 or nearer |
| View3D.EntityPattern | web/view3d.js:579-582 | a glyph with its own pattern at that scale uses it, with neither its own set nor a default there is no pattern, and any pattern found comes from the table |
| View3D.DefaultPatternsFallBack | web/view3d.js:579-608 | with the built-in table every glyph gets a non-empty pattern, glyphs other than 'g' and 'o' use the '?' default, unknown scales fall back to scale 1, and scale 1 is the glyph itself |
| View3D.AddedPatternIsUsed | web/view3d.js:579-615 | after adding a glyph's patterns that glyph is drawn with them at every scale they cover, and every other glyph is drawn as before unless the default set was replaced |
| View3D.FloorItemPatternShowsTheGlyph | web/view3d.js:483-516 | a floor item is one row showing its own glyph, and a corpse always shows a '%' in its middle row |
| View3D.SpriteTopOffsets | web/view3d.js:447-462 | a floor item is drawn six rows below its centred position, and a flyer of up to five rows is raised by three fifths of its height, rounded down |
| View3D.GroundedSpritesStandOnTheFloor | web/view3d.js:444-462 | a grounded sprite of odd height ends on the row just above its viewport's floor line |
| View3D.StampNeverWritesABlank | web/view3d.js:468-479 | drawing a sprite never blanks a cell: a changed cell holds a character of the sprite's pattern |
| View3D.MinimapRows | web/view3d.js:626-645 | the minimap is a square of 2·radius+1 lines of 2·radius+1 characters, and empty for a negative radius |
| View3D.MinimapAgreesWithWalls | web/view3d.js:626-645 | the centre shows the facing arrow, a cell is blank exactly when it is off the map, and on a map of '.', '#' and '+' a cell shows '#' or '+' exactly when `isWall` (343-347) holds there |
| View3D.SceneryShowsNearestWall | web/view3d.js:55-136 | with the layers drawn farthest first, a cell shows the front wall of the nearest layer whose wall covers it |
| View3D.SceneryWithoutWallIsBackground | web/view3d.js:51-57 | a cell that no layer's front wall covers shows the background |
| View3D.StampCovers | web/view3d.js:468-479 | a sprite covering a cell writes the same character whatever lay beneath, and one not covering it leaves the cell |
| View3D.PaintedShowsLastCover | web/view3d.js:396-414 | after a sequence of draws a cell shows the last draw that covers it |
| View3D.PaintedWithoutCover | web/view3d.js:396-414 | a cell that no draw covers keeps its character |
| View3D.LastCoverIsNearest | web/view3d.js:372-414 | with draws sorted farthest first, the sprite a cell shows is the nearest of those covering it |
| View3D.NearestSpriteShows | web/view3d.js:355-415 | in a frame's entity layer a covered cell shows the last sprite drawn there, and no sprite covering it is nearer |
| View3D.Renderer.constructor | web/view3d.js:5-33 | a new renderer faces north and uses the built-in pattern table |
| View3D.Renderer.SetPlayerDirection | web/view3d.js:35-38 | a known name sets the facing it maps to, and an unknown one leaves the facing |
| View3D.Renderer.SetAngleFromMovement | web/view3d.js:40-45 | the facing becomes the one the movement step points to, or stays for no step |
| View3D.Renderer.CreateBuffer | web/view3d.js:65-74 | a fresh 18 by 50 frame of blank cells |
| View3D.Renderer.DrawBackground | web/view3d.js:77-97 | every cell of the frame gets its row's background shade |
| View3D.Renderer.DrawFrontWall | web/view3d.js:268-340 | the viewport's rectangle, clipped to the screen, gets the wall's characters, with the door when there is one, and every other cell is unchanged |
| View3D.Renderer.UpdatePatterns | web/view3d.js:610-612 | the pattern table is replaced by the new one |
| View3D.Renderer.AddMonsterPattern | web/view3d.js:614-615 | the glyph's pattern set is replaced and every other entry kept |
| View3D.Renderer.DrawDepthLayer | web/view3d.js:100-136 | the layer probes the cell `depth` ahead and its side neighbours, and draws the front wall, with its door, exactly when the front cell is a wall (side walls are not modelled) |
| View3D.Renderer.DrawLayers | web/view3d.js:55-57 | the layers are probed from depth 4 down to 1, and the frame then shows the scenery with the nearest front walls on top |
| View3D.Renderer.CollectVisible | web/view3d.js:358-369 | the sprites collected are the entities in view with their depth and side offset, in order |
| View3D.Renderer.BlitRow | web/view3d.js:469-478 | one pattern row is written, clipped to the screen, skipping its blanks, and nothing else changes |
| View3D.Renderer.DrawEntity | web/view3d.js:417-480 | the sprite's pattern is written over the frame, clipped to the screen, leaving the cells under its blanks |
| View3D.Renderer.DrawFloorGroup | web/view3d.js:400-408 | a group's floor items are drawn in order with their spread, and the frame is painted by those draws |
| View3D.Renderer.DrawMainGroup | web/view3d.js:411-413 | a group's other entities are drawn in order unspread, and the frame is painted by those draws |
| View3D.Renderer.DrawGroup | web/view3d.js:396-414 | one position group draws its floor items and then its other entities |
| View3D.Renderer.DrawGroups | web/view3d.js:396-414 | the groups are drawn in the order of their keys, and the frame is painted by all those draws in turn |
| View3D.Renderer.DrawVisible | web/view3d.js:371-414 | the sprites in view are drawn in the farthest-first group order |
| View3D.Renderer.DrawEntities | web/view3d.js:355-415 | the entities visible from the player are drawn exactly in the draw order, each once, and the frame is painted by those draws |
| View3D.Renderer.Render | web/view3d.js:48-63 | a fresh frame holding the background, the wall layers from depth 4 to 1 and then the entities painted over them |
| View3D.Renderer.RenderMinimap | web/view3d.js:626-645 | the minimap lines joined by newlines, empty for a negative radius and the bare arrow for radius 0 |
| Doubles.Round | web/view3d.js:424-427 | rounding to the nearest double keeps the sign of its argument |
| Doubles.KnownDoubles | web/view3d.js:424-427 | the rounding gives the familiar binary64 values: 0.1 and 0.2 are not exact, their sum is not the double nearest 0.3, and 1/3 rounds down |
| BrowserGeometry.ViewportsAgree | web/view3d.js:272-275 | in doubles the floored viewports are those of exact arithmetic at every depth, and so is the view width at depths 0, 1 and 3; at depth 2 the width is 22 - 2^-48 and at depth 4 it is 5 + 2^-49 |
| BrowserGeometry.BackgroundAgrees | web/view3d.js:78-92 | in doubles every row of the screen gets the same background character as in exact arithmetic |
| BrowserGeometry.VerticalOffsetsAgree | web/view3d.js:447-453 | in doubles a floor item is lowered by 6 rows and a flyer of up to five rows is raised by floor(0.6 h) rows, as in exact arithmetic |
| BrowserGeometry.SideOffsetsDiffer | web/view3d.js:424-425 | at depth 4 the browser places a sprite one step to the left at side offset -3, where exact arithmetic gives -2; one step to the right both give 2 |
| BrowserGeometry.SpreadsDiffer | web/view3d.js:404-427 | the first of five floor items at depth 4 gets spread -2 in the browser and -1 in exact arithmetic; the last of eleven at depth 2 gets 10 and 11 |
| WebScene.ItemGlyph | web/game.js:1307 | an item without a glyph is shown as '!', any other with its own first character |
| WebScene.Items | web/game.js:1301-1312 | one entry for each item on a visible cell and nothing else, at most one per item |
| WebScene.Corpses | web/game.js:1315-1330 | one '%' entry for each dead entity on a visible cell that is neither the player nor an NPC, and nothing else |
| WebScene.Living | web/game.js:1333-1353 | one entry with its own glyph for each living entity on a visible cell other than the player, and nothing else |
| WebScene.AsWrittenDrawsNoFloorItems | web/game.js:1301-1330 | as written no entry reaches the renderer as a floor item or a corpse |
| WebScene.CorrectedTagsFloorItems | web/game.js:1301-1353 | with the renderer's flag names, exactly the visible items and corpses are floor items, exactly the corpses are corpses, and every visible item, corpse and living entity is listed |
| WebScene.TaggingKeepsTheEntries | web/game.js:1301-1353 | the correction changes only the two flags: both lists have the same entries in the same order, at the same cells, with the same glyphs |
| WebScene.CorpseDrawnAsMonster | web/view3d.js:433-437 | as written a dead goblin one cell ahead is drawn with the seven-row '?' monster pattern; with the flags corrected it is drawn as the corpse heap |

## Left out

- DOM and UI work in `web/game.js` is not modelled: HTML building, `document` access, event listeners, map scrolling and modals. It is presentation with no game rule in it.
- `localStorage` save/load in `web/game.js` and `src/systems/save_load.py` are not modelled. They are file and JSON I/O.
- `src/systems/renderer.py`, `src/main.py` and `src/systems/input_handler.py` are not part of this model. They draw to the tcod console and run its event loop.
- Colours are dropped everywhere, because they affect no rule. This covers tile colours, message colours (except where a contract names one), the RGB strings and `dimColor` of the renderer, and `WeaponData`'s colour.
- The renderer's side walls (`drawLeftWall` / `drawRightWall`) are not modelled. They are trapezoids shaded in floating point. `View3D.Renderer.DrawDepthLayer` draws only the front wall and states nothing about the side cells it probes.
- The renderer's `Compass`, `playerAngle`, `renderToHTML`, `convertExternalPatterns`, `getEntitySize` and `getEntityColor` are not modelled. They are presentation or angle arithmetic in floating point. `View3D.Renderer.UpdatePatterns` therefore takes the converted table. `View3D.Renderer.constructor` starts from the built-in patterns, which is what `initAsciiPatterns` (web/view3d.js:548-552) does only when no external `MONSTER_PATTERNS` table is defined. The external table is not part of this model.
- In `drawEntities`, the loop that fills `positionGroups` is replaced by the functions `FloorGroup` / `MainGroup`. Those compute the same groups, so the loop's in-place `Map` updates are not modelled.
- `rotateLeft` / `rotateRight` / `getFacing` are called from `web/game.js` but do not exist in `web/view3d.js`, so there is nothing to model.
- `placeEntitiesForFloor` and `placeEntities` of the browser game are not modelled. The first calls a `GameMap.isBlocked` that does not exist. `View3D.Renderer.Render` and `WebGame.WebGameSession.GenerateNewFloor` therefore see only the entities they are given.
- The ray directions of both fields of view (`cos` / `sin` of each angle) are floating point. They are a given sequence of cells per ray. `update_fov` and `visible_tiles` only forward to `compute_fov` or read a numpy mask, and are not modelled.
- `GameMaps.GameMap.GetPath` bounds its loop by a `fuel` count. With too little fuel it returns `[]` where the source might still find a path. The costs 1 and 1.4 are scaled to 10 and 14. No shortest-path property is claimed, because the Manhattan heuristic is not admissible for king moves.
- `distance_to` / `distanceTo` (square roots) are not modelled.
- `Ai.PassivePerform` compares the hit-point ratio on exact rationals rather than floats. It requires a non-zero `max_hp`, where the source would raise `ZeroDivisionError`.
- The hit and damage rolls of `calculate_weapon_damage`, `create_weapon` and `create_random_weapon` are not modelled. The weapon tables of `src/data/weapons.py` and `web/weapons.js` are not part of this model. `WeaponData.FromDict` takes an already-read record.
- Temperature is not modelled: `body_temp`, the environment temperature, `_regulate_temperature`, `temp_status` and the percentage properties of `survival.py`, because all of them are floating point.
  - `Components.Survival.ProcessTurn` leaves out the temperature step.
  - `Components.Survival.GetStatusString` and `SurvivalRules.StatusLine` assume a normal body temperature (fever and hypothermia words are not produced).
- `generate_wilderness` is not modelled. Its start-position search is a `while True` loop with no bound, around random terrain noise.
- Shop prices are parameters and `ITEM_PRICES` is left out. The price multipliers and `get_buy_price` / `get_sell_price` multiply by floats and round. `Economy.Shop.BuyFromShop` and `Economy.Shop.SellToShop` take the total price.
- `TradeSession.buy`, `sell`, `get_shop_items` and `get_player_sellable_items` are not modelled. They combine the price floats with the player's inventory. Like `pickup_item`, they also test `not self.player.inventory`. Only `TradeSession.end_session` is modelled.
- The preset constructors are data tables and not modelled: `create_general_store` and the other shops, `create_deities`, `create_starter_quests` / `create_advanced_quests`, and the browser's `DEITIES` text beyond names and titles.
- `Religions.Religion.Pray` takes its random draws as parameters. `Religions.Religion.ProcessTurn` computes its expiry messages from the expired keys rather than inside the loops, with the same text and order.
- `del` of a dictionary key is modelled as a no-op when the key is missing. The source only deletes keys it has just found.
- Quests are compared by identity in `complete_quest` (`in` / `remove`), not by dataclass `==`. `required_level`, the descriptions and the reward items are carried but not reasoned about.
- `NpcComponent.get_current_dialogue` is not modelled. It is a dictionary look-up of the current dialogue ID, and nothing else in the core calls it. The four dialogue tables it looks up are modelled in full, texts and options included, by `NpcRules.MerchantDialogues` and its siblings.
- `can_attack_target`'s `mana_cost` check never rejects anything, so it is not modelled.
- Engines.Engine.HandleEnemyTurn and Engines.Engine.RunActors state each actor's turn through `Traced` (its name, the idle rule, its start cell and its landing) and the player through `SufferAll`, but not that each turn is the one its AI draws from the map as it stands when that turn begins. Only `Engines.Engine.ActorTurn` and `Engines.Engine.TakeTurn`, which the loop calls, state that, as `mv == MoveOf(...)` in their own pre-state. Carrying it through the loop would mean recording the whole map, hp and components as they stand before every turn.
- The look of a dead player (glyph, colour, name) in `_kill_entity` is not modelled; `Engines.Engine.KillPlayer` states the state change and the message.
- `Components.Fighter.constructor` requires a non-negative `hp`. The source accepts a negative one, and such a fighter could never satisfy the hit-point invariant.
- `Components.Survival.constructor` requires non-negative maxima. `Survival.__init__` (src/components/survival.py:33-41) accepts any value; only the defaults 1000, 1000 and 100 are ever passed, and with a negative maximum the clamped meters could not satisfy the meter invariant.
- `Components.NpcComponent.ChangeDisposition` requires an owning entity, because the source reads `self.entity.name`.
- `WebQuests.WebQuestLog.UpdateKillQuest` gives only a length bound for its messages, not their exact text. It states each quest's progress only for an active list that holds no quest twice: `addQuest` (web/game.js:178-180) is only called with a quest built for the occasion (web/game.js:541-546), so no quest enters the list twice, and a quest listed twice would be advanced twice.
- `WebGame.WebActor.constructor` leaves out the survival meters, AI, NPC and kill-count options of the browser `Actor`. Those are not used by the modelled browser operations.
- The browser game's `handlePlayerTurn`, `meleeAttack`, `killEntity`, `handleEnemyTurns`, `processSurvival`, `useItem`, `dropItem`, `pray`, `convertTo` and `talkToNPC` are not modelled. They are not copies of the Python engine's rules, which are modelled:
  - `processSurvival` (web/game.js:795-831) takes 1 hp for each empty meter, so 2 when both are empty. It does not clamp the meters at 0. It prints the starvation and dehydration lines only on turns divisible by 10, and it sets `gameState` to 'dead' itself. The engine takes 1 hp when either meter is empty (src/systems/engine.py:248-259).
  - `killEntity` leaves a corpse with nutrition 100 and no hydration (web/game.js:734-736). The engine's corpse has hydration 20 (src/systems/engine.py:164-173). `killEntity` also updates the kill quests and the kill count.
  - `handleEnemyTurns` (web/game.js:769-793) attacks within distance 1.5. Otherwise it chases by whole-axis sign steps, and only while the monster's own cell is visible. Monsters never wander or flee, unlike the Python AI.
  - Unlike the engine, `useItem` (web/game.js:852-878) does not refuse food or drink when the meter is already full.
- `render3D` (web/game.js:1279-1372) also converts the map to characters and sets the compass text. Neither is modelled; module WebScene models only the entity list it passes to the renderer.
- `src/systems/config.py` is not part of this model. Its constants are written where they are used. The monster and item glyphs assumed from its `Symbols` are 'g' for GOBLIN, 'o' for ORC, '%' for FOOD and '!' for POTION.
- View3D.Renderer.DrawEntity places sprites by exact arithmetic. The browser computes `viewWidth`, `sideOffset` and `spreadPixels` in doubles (web/view3d.js:424-427). There, some columns at depths 2 and 4 fall one further left: BrowserGeometry.SideOffsetsDiffer and BrowserGeometry.SpreadsDiffer show two such cases. The viewports, the background and the vertical offsets agree (BrowserGeometry.ViewportsAgree, BackgroundAgrees, VerticalOffsetsAgree).
- View3D.Renderer.DrawEntities draws through `DrawEntity`, so its sprite columns are exact where the browser's are not, as in the line above.
- View3D.Renderer.Render draws the entities through `DrawEntities`, with the same difference in sprite columns.
- View3D.Renderer.DrawEntity draws nothing for an empty pattern. The browser throws a `TypeError` reading `pattern[0].length` (web/view3d.js:463). An empty pattern can come from `addMonsterPattern` or `updatePatterns`, because `patterns[scaleLevel] || patterns[1]` (web/view3d.js:581) accepts an empty array.
- Components.AsciiLower, Components.LetterIndex and Components.Inventory.GetItemByChar fold only ASCII letters. Python's `str.lower()` (src/components/inventory.py:76) also folds non-ASCII letters: the Kelvin sign U+212A lowers to 'k' and selects item 10, and the model finds no item for it. A letter whose lower case is two characters, such as U+0130, makes `ord` raise `TypeError` in the source; the model returns no item.
- Doubles.Round does not model overflow to infinity, past exponent 1023. Its contract states only the sign of the result; that it is the nearest double is checked only on the values the lemmas use.

## Findings

| source | as written | input that shows it | evidently intended | confidence | as-written member | corrected member |
|---|---|---|---|---|---|---|
| src/systems/engine.py:263 | `pickup_item` refuses when `not self.player.inventory`. `Inventory` defines `__len__` (src/components/inventory.py:79-80), so an empty inventory is falsy and the pickup is refused. | A player with an empty inventory of capacity 26 standing on an item: the pickup is refused and the item stays on the map, although the inventory has room. | Refuse only when there is no map or no inventory object (`is None`). Then the first item moves into any inventory that is not full. | not executed | Engines.EmptyInventoryNeverPicksUp | Engines.Engine.PickupItem |
| web/game.js:1310 | `render3D` marks floor items and corpses with `isFloor: true` (web/game.js:1310 and 1327). The renderer reads `isFloorItem` (web/view3d.js:382, 434 and 450) and `isCorpse` (web/view3d.js:487), and nothing sets those. | A dead goblin one cell ahead of a player facing north: the renderer draws the seven-row '?' monster pattern at the centre of the view, not the corpse heap lowered towards the floor. | Items and corpses are passed with `isFloorItem: true`, and corpses also with `isCorpse: true`. They are then grouped as floor items, spread sideways, lowered and drawn with `getFloorItemPattern`. | not executed | WebScene.CorpseDrawnAsMonster | WebScene.CorrectedTagsFloorItems |
