// The browser game of web/game.js: the `Actor` combat counters, the message
// log, the `endTurn` clock, `pickupItem`, `buyItem`, `tryUseStairs` and the
// retry loop of `generateNewFloor`.  A browser actor's map presence (its
// position and list membership) is an `Entity` it owns; DOM work is left out.

module WebGame {

  import opened Util
  import opened Geometry
  import opened Tiles
  import opened Components
  import opened GameMaps
  import opened Rooms
  import opened Procgen
  import opened WebDungeon
  import opened WebReligions
  import opened WebQuests
  import opened Clocks

  /** `CONFIG` */
  const MapWidth := 60
  const MapHeight := 30
  const MaxRooms := 20
  const RoomMinSize := 4
  const RoomMaxSize := 10
  const MaxFloors := 10
  /** `addMessage` keeps the last hundred lines. */
  const LogLimit := 100

  /** `options.key || fallback`: an absent or zero option takes the default. */
  function OrDefault(v: int, fallback: int): (r: int)
    ensures r == fallback || r == v
    ensures r == 0 ==> fallback == 0
  {
    if v != 0 then v else fallback
  }

  class WebActor {
    const body: Entity
    const maxHp: int
    var hp: int
    const defense: int
    const power: int
    var gold: int
    var inventory: seq<Entity>
    const inventoryCapacity: int
    var religion: WebReligion?
    var questLog: WebQuestLog?

    /** `new Actor(x, y, char, color, name, {maxHp, hp, defense, power, gold})`,
        with 0 standing for an absent option. */
    constructor (x: int, y: int, glyph: char, name: string, maxHp: int, hp: int, defense: int, power: int, gold: int)
      ensures fresh(body) && body.x == x && body.y == y && body.glyph == glyph && body.name == name
      ensures body.blocksMovement && body.kind == ActorEntity
      ensures this.maxHp == OrDefault(maxHp, 30) && this.hp == OrDefault(hp, this.maxHp)
      ensures this.defense == defense && this.power == OrDefault(power, 5) && this.gold == gold
      ensures inventory == [] && inventoryCapacity == 26 && religion == null && questLog == null
    {
      body := new Entity.Actor(x, y, glyph, name, null, null, null, null, null, gold);
      this.maxHp := OrDefault(maxHp, 30);
      this.hp := OrDefault(hp, OrDefault(maxHp, 30));
      this.defense, this.power, this.gold := defense, OrDefault(power, 5), gold;
      inventory, inventoryCapacity := [], 26;
      religion, questLog := null, null;
    }

    /** `isAlive`. */
    predicate IsAlive()
      reads this
    {
      hp > 0
    }

    /** `takeDamage(amount)`: the damage through the defense, with hp kept at 0 or more. */
    method TakeDamage(amount: int) returns (actual: int)
      modifies this`hp
      ensures actual == Max(0, amount - defense) && actual >= 0
      ensures hp == Max(0, old(hp) - actual) && hp >= 0
      ensures old(hp) >= 0 ==> hp <= old(hp)
    {
      actual := Max(0, amount - defense);
      hp := Max(0, hp - actual);
    }

    /** `heal(amount)`: hp rises to at most `maxHp`, and the gain is returned. */
    method Heal(amount: int) returns (gained: int)
      modifies this`hp
      ensures hp == Min(maxHp, old(hp) + amount) && hp <= maxHp
      ensures gained == hp - old(hp)
      ensures amount >= 0 && old(hp) <= maxHp ==> 0 <= gained <= amount
    {
      var before := hp;
      hp := Min(maxHp, hp + amount);
      gained := hp - before;
    }
  }

  /** The log after `addMessage(text)` with a bound of `limit` lines. */
  function Logged(log: seq<string>, text: string, limit: nat): seq<string>
  {
    if |log + [text]| > limit then (log + [text])[1..] else log + [text]
  }

  /** The log after a sequence of `addMessage` calls. */
  function LoggedAll(log: seq<string>, texts: seq<string>, limit: nat): seq<string>
    decreases |texts|
  {
    if texts == [] then log else LoggedAll(Logged(log, texts[0], limit), texts[1..], limit)
  }

  /** A log within its bound stays within it, ends with the new line and
      loses at most its oldest line. */
  lemma LoggedShape(log: seq<string>, text: string, limit: nat)
    requires 0 < limit && |log| <= limit
    ensures var r := Logged(log, text, limit);
      |r| <= limit && r[|r| - 1] == text
      && (r == log + [text] || r == log[1..] + [text])
  {
  }

  lemma {:induction false} LoggedAllBounded(log: seq<string>, texts: seq<string>, limit: nat)
    requires 0 < limit && |log| <= limit
    ensures |LoggedAll(log, texts, limit)| <= limit
    decreases |texts|
  {
    if texts != [] {
      LoggedShape(log, texts[0], limit);
      LoggedAllBounded(Logged(log, texts[0], limit), texts[1..], limit);
    }
  }

  /** An entry of the `buyItem` table. */
  datatype ShopOffer = ShopOffer(name: string, price: int, glyph: char, consumable: bool, nutrition: int, hydration: int)

  /** The `shopItems` table of `buyItem`; the potion's heal amount and the
      item types are not modelled. */
  const ShopOffers: seq<ShopOffer> := [
    ShopOffer("마른 고기", 10, '!', true, 30, 0),
    ShopOffer("물병", 5, '!', true, 0, 40),
    ShopOffer("치료 물약", 50, '¡', true, 0, 0),
    ShopOffer("횃불", 15, '/', false, 0, 0)
  ]

  datatype WebGameState = Title | Playing | Dead | Victory

  class WebGameSession {
    const player: WebActor
    var gameMap: GameMap?
    var turnCount: int
    var hour: int
    var day: int
    var gameState: WebGameState
    var messageLog: seq<string>
    var currentFloor: int

    /** The state `newGame` resets: turn 0, 08:00 of day 1, floor 1, playing, empty log. */
    constructor (player: WebActor, gameMap: GameMap)
      ensures this.player == player && this.gameMap == gameMap
      ensures turnCount == 0 && hour == 8 && day == 1 && currentFloor == 1
      ensures gameState == Playing && messageLog == []
    {
      this.player, this.gameMap := player, gameMap;
      turnCount, hour, day, currentFloor := 0, 8, 1, 1;
      gameState, messageLog := Playing, [];
    }

    /** `addMessage(text)`: appended last; beyond 100 lines the oldest goes. */
    method AddMessage(text: string)
      modifies this`messageLog
      ensures messageLog == Logged(old(messageLog), text, LogLimit)
    {
      messageLog := messageLog + [text];
      if |messageLog| > LogLimit {
        messageLog := messageLog[1..];
      }
    }

    /** The clock part of `endTurn`: the religion's turn, then turn, hour and
        day as `Clock` says, with a message on a new day. */
    method EndTurnClock()
      modifies this`turnCount, this`hour, this`day, this`messageLog, player.religion
      ensures (turnCount, hour, day) == Clock(old(turnCount), old(hour), old(day))
      ensures messageLog == if day != old(day) then Logged(old(messageLog), "Day " + IntToString(day) + "이 밝았다.", LogLimit)
                            else old(messageLog)
      ensures player.religion != null ==>
        player.religion.prayerTimeout == if old(player.religion.prayerTimeout) > 0 then old(player.religion.prayerTimeout) - 1
                                         else old(player.religion.prayerTimeout)
    {
      if player.religion != null {
        player.religion.ProcessTurn();
      }
      turnCount := turnCount + 1;
      if turnCount % 60 == 0 {
        hour := hour + 1;
        if hour >= 24 {
          hour := 0;
          day := day + 1;
          AddMessage("Day " + IntToString(day) + "이 밝았다.");
        }
      }
    }

    /** `pickupItem()`: the first item under the player moves from the map
        to the end of the inventory.  Nothing changes but the log when no item
        lies there or the inventory is full.  `tookTurn` says whether the turn
        ends (the call to `endTurn`). */
    method PickupItem() returns (tookTurn: bool)
      requires gameMap != null
      modifies gameMap`items, player`inventory, this`messageLog
      ensures var here := ItemsAt(old(gameMap.items), player.body.x, player.body.y);
        && (here == [] ==> !tookTurn && gameMap.items == old(gameMap.items) && player.inventory == old(player.inventory)
                           && messageLog == Logged(old(messageLog), "여기에는 아무것도 없다.", LogLimit))
        && (here != [] && |old(player.inventory)| >= player.inventoryCapacity ==>
              !tookTurn && gameMap.items == old(gameMap.items) && player.inventory == old(player.inventory)
              && messageLog == Logged(old(messageLog), "인벤토리가 가득 찼다!", LogLimit))
        && (here != [] && |old(player.inventory)| < player.inventoryCapacity ==>
              tookTurn && gameMap.items == RemoveFirst(old(gameMap.items), here[0])
              && player.inventory == old(player.inventory) + [here[0]]
              && multiset(gameMap.items) + multiset(player.inventory) == multiset(old(gameMap.items)) + multiset(old(player.inventory))
              && messageLog == Logged(old(messageLog), here[0].name + "을(를) 주웠다.", LogLimit))
    {
      var items := gameMap.GetItemsAt(player.body.x, player.body.y);
      if |items| == 0 {
        AddMessage("여기에는 아무것도 없다.");
        return false;
      }
      if |player.inventory| >= player.inventoryCapacity {
        AddMessage("인벤토리가 가득 찼다!");
        return false;
      }
      var item := items[0];
      assert item in items;
      gameMap.RemoveItem(item);
      player.inventory := player.inventory + [item];
      AddMessage(item.name + "을(를) 주웠다.");
      tookTurn := true;
    }

    /** `buyItem(index)`: an index outside the table does nothing; a player
        short of the price only gets a message; otherwise the price leaves the
        player's gold and a new item joins the inventory.  The inventory
        capacity is not checked here. */
    method BuyItem(index: int) returns (bought: Entity?)
      modifies player`gold, player`inventory, this`messageLog
      ensures !(0 <= index < |ShopOffers|) ==>
        bought == null && player.gold == old(player.gold) && player.inventory == old(player.inventory) && messageLog == old(messageLog)
      ensures 0 <= index < |ShopOffers| && old(player.gold) < ShopOffers[index].price ==>
        bought == null && player.gold == old(player.gold) && player.inventory == old(player.inventory)
        && messageLog == Logged(old(messageLog), "골드가 부족합니다!", LogLimit)
      ensures 0 <= index < |ShopOffers| && old(player.gold) >= ShopOffers[index].price ==>
        var offer := ShopOffers[index];
        && bought != null && fresh(bought) && player.gold == old(player.gold) - offer.price
        && player.inventory == old(player.inventory) + [bought]
        && bought.name == offer.name && bought.glyph == offer.glyph && bought.kind == ItemEntity
        && bought.consumable == offer.consumable && bought.nutrition == offer.nutrition && bought.hydration == offer.hydration
        && messageLog == Logged(old(messageLog), offer.name + "을(를) 구매했습니다! (-" + IntToString(offer.price) + "G)", LogLimit)
    {
      bought := null;
      if !(0 <= index < |ShopOffers|) {
        return;
      }
      var offer := ShopOffers[index];
      if player.gold < offer.price {
        AddMessage("골드가 부족합니다!");
        return;
      }
      player.gold := player.gold - offer.price;
      bought := new Entity.Item(0, 0, offer.glyph, offer.name, offer.consumable, offer.nutrition, offer.hydration);
      player.inventory := player.inventory + [bought];
      AddMessage(offer.name + "을(를) 구매했습니다! (-" + IntToString(offer.price) + "G)");
    }

    /** The first-room placement and the fallback search of `generateNewFloor`:
        the player goes to the first room's centre; with no room, the columns
        1..width-2 are searched top to bottom for a walkable cell, the inner
        `break` leaving only the column and the outer test `player.x !== 0`
        ending the search. */
    method PlacePlayer(m: GameMap, rooms: seq<Room>)
      requires m.Valid()
      modifies player.body`x, player.body`y
      ensures |rooms| > 0 ==> (player.body.x, player.body.y) == Center(rooms[0])
      ensures |rooms| == 0 ==>
        (player.body.x == old(player.body.x) && player.body.y == old(player.body.y))
        || (1 <= player.body.x < m.width - 1 && 1 <= player.body.y < m.height - 1
            && Walkable(m.tiles[player.body.x, player.body.y]))
    {
      if |rooms| > 0 {
        player.body.x, player.body.y := Center(rooms[0]).0, Center(rooms[0]).1;
        return;
      }
      var x := 1;
      while x < m.width - 1
        invariant 1 <= x
        invariant (player.body.x == old(player.body.x) && player.body.y == old(player.body.y))
          || (1 <= player.body.x < m.width - 1 && 1 <= player.body.y < m.height - 1
              && Walkable(m.tiles[player.body.x, player.body.y]))
      {
        var y := 1;
        while y < m.height - 1
          invariant 1 <= y
          invariant (player.body.x == old(player.body.x) && player.body.y == old(player.body.y))
            || (1 <= player.body.x < m.width - 1 && 1 <= player.body.y < m.height - 1
                && Walkable(m.tiles[player.body.x, player.body.y]))
        {
          if Walkable(m.tiles[x, y]) {
            player.body.x, player.body.y := x, y;
            break;
          }
          y := y + 1;
        }
        if player.body.x != 0 {
          break;
        }
        x := x + 1;
      }
    }

    /** `generateNewFloor()`: dungeons are drawn until one has three rooms or
        ten have been drawn; the player is placed and added to the new map.
        Placing the floor's monsters and items is not modelled. */
    method GenerateNewFloor(rng: nat -> Fraction, start: nat) returns (rooms: seq<Room>, attempts: nat, next: nat)
      modifies this`gameMap, player.body`x, player.body`y
      ensures next >= start && 1 <= attempts <= 10 && (|rooms| >= 3 || attempts == 10)
      ensures gameMap != null && fresh(gameMap) && gameMap.Valid()
      ensures gameMap.width == MapWidth && gameMap.height == MapHeight
      ensures gameMap.entities == [player.body] && gameMap.items == []
      ensures PairwiseDisjoint(rooms) && forall r | r in rooms :: WithMargin(r, MapWidth, MapHeight)
      ensures |rooms| > 0 ==> (player.body.x, player.body.y) == Center(rooms[0])
      ensures |rooms| > 0 ==> var c := Center(rooms[|rooms| - 1]);
        gameMap.InBounds(c.0, c.1) && gameMap.tiles[c.0, c.1] == StairsDown
      ensures |rooms| == 0 ==> player.body.x == old(player.body.x) && player.body.y == old(player.body.y)
    {
      var m;
      m, rooms, attempts, next := DrawFloor(rng, start);
      gameMap := m;
      PlacePlayer(m, rooms);
      m.AddEntity(player.body);
    }

    /** `tryUseStairs()` while playing, on a '>' tile: on the last floor the
        game is won; otherwise the floor number rises and a new floor is drawn,
        whose rooms are returned.  Anywhere else only a message is logged. */
    method TryUseStairs(rng: nat -> Fraction, start: nat) returns (rooms: seq<Room>, next: nat)
      requires gameState == Playing ==> gameMap != null && gameMap.Valid() && gameMap.InBounds(player.body.x, player.body.y)
      modifies this`gameMap, this`gameState, this`currentFloor, this`messageLog, player.body`x, player.body`y
      ensures next >= start
      ensures old(gameState) != Playing ==>
        gameState == old(gameState) && gameMap == old(gameMap) && currentFloor == old(currentFloor) && messageLog == old(messageLog)
        && player.body.x == old(player.body.x) && player.body.y == old(player.body.y) && rooms == []
      ensures old(gameState) == Playing && Glyph(old(gameMap.tiles[player.body.x, player.body.y])) != '>' ==>
        gameState == Playing && gameMap == old(gameMap) && currentFloor == old(currentFloor)
        && messageLog == Logged(old(messageLog), "여기에는 계단이 없다.", LogLimit)
        && player.body.x == old(player.body.x) && player.body.y == old(player.body.y) && rooms == []
      ensures old(gameState) == Playing && Glyph(old(gameMap.tiles[player.body.x, player.body.y])) == '>'
              && old(currentFloor) >= MaxFloors ==>
        gameState == Victory && gameMap == old(gameMap) && currentFloor == old(currentFloor)
        && player.body.x == old(player.body.x) && player.body.y == old(player.body.y) && rooms == []
        && messageLog == Logged(Logged(Logged(old(messageLog),
             "=== 축하합니다! 던전의 최하층에 도달했습니다! ===", LogLimit),
             "당신은 전설적인 모험가로 기록될 것입니다!", LogLimit),
             "최종 기록: " + IntToString(day) + "일차, " + IntToString(turnCount) + "턴, " + IntToString(player.gold) + "골드", LogLimit)
      ensures old(gameState) == Playing && Glyph(old(gameMap.tiles[player.body.x, player.body.y])) == '>'
              && old(currentFloor) < MaxFloors ==>
        gameState == Playing && currentFloor == old(currentFloor) + 1
        && (var descended := Logged(old(messageLog), IntToString(currentFloor) + "층으로 내려간다...", LogLimit);
            messageLog == if currentFloor == MaxFloors then Logged(descended, "이곳이 던전의 최하층인 것 같다...", LogLimit) else descended)
        && gameMap != null && fresh(gameMap) && gameMap.Valid()
        && gameMap.width == MapWidth && gameMap.height == MapHeight
        && gameMap.entities == [player.body] && gameMap.items == []
        && PairwiseDisjoint(rooms) && (forall r | r in rooms :: WithMargin(r, MapWidth, MapHeight))
        && (|rooms| > 0 ==> (player.body.x, player.body.y) == Center(rooms[0]))
        && (|rooms| > 0 ==> var c := Center(rooms[|rooms| - 1]);
              gameMap.InBounds(c.0, c.1) && gameMap.tiles[c.0, c.1] == StairsDown)
    {
      next, rooms := start, [];
      if gameState != Playing {
        return;
      }
      var tile := gameMap.tiles[player.body.x, player.body.y];
      if Glyph(tile) == '>' {
        if currentFloor >= MaxFloors {
          AddMessage("=== 축하합니다! 던전의 최하층에 도달했습니다! ===");
          AddMessage("당신은 전설적인 모험가로 기록될 것입니다!");
          AddMessage("최종 기록: " + IntToString(day) + "일차, " + IntToString(turnCount) + "턴, "
                     + IntToString(player.gold) + "골드");
          gameState := Victory;
          return;
        }
        currentFloor := currentFloor + 1;
        AddMessage(IntToString(currentFloor) + "층으로 내려간다...");
        if currentFloor == MaxFloors {
          AddMessage("이곳이 던전의 최하층인 것 같다...");
        }
        var attempts;
        rooms, attempts, next := GenerateNewFloor(rng, start);
      } else {
        AddMessage("여기에는 계단이 없다.");
      }
    }
  }

  /** A dungeon with no room is wall everywhere, so the fallback search of
      `generateNewFloor` finds nothing. */
  lemma NothingWalkableWithoutRooms(m: GameMap, tunnels: seq<seq<Cell>>)
    requires m.Valid() && |tunnels| == 0
    requires forall x, y | 0 <= x < m.width && 0 <= y < m.height ::
      m.tiles[x, y] == if InSomeArea([], (x, y)) || InSomeTunnel(tunnels, (x, y)) then Floor else Wall
    ensures forall x, y | 0 <= x < m.width && 0 <= y < m.height :: !Walkable(m.tiles[x, y])
  {
  }

  /** The `do { ... } while (rooms.length < 3 && attempts < 10)` loop of
      `generateNewFloor`, with the fresh map it keeps. */
  method DrawFloor(rng: nat -> Fraction, start: nat) returns (m: GameMap, rooms: seq<Room>, attempts: nat, next: nat)
    ensures next >= start && 1 <= attempts <= 10 && (|rooms| >= 3 || attempts == 10)
    ensures fresh(m) && m.Valid() && m.width == MapWidth && m.height == MapHeight
    ensures m.entities == [] && m.items == []
    ensures PairwiseDisjoint(rooms) && forall r | r in rooms :: WithMargin(r, MapWidth, MapHeight)
    ensures |rooms| > 0 ==> var c := Center(rooms[|rooms| - 1]);
      m.InBounds(c.0, c.1) && m.tiles[c.0, c.1] == StairsDown
    ensures |rooms| == 0 ==> forall x, y | 0 <= x < m.width && 0 <= y < m.height :: !Walkable(m.tiles[x, y])
  {
    var tunnels;
    m, rooms, tunnels, next := GenerateWebDungeon(MapWidth, MapHeight, MaxRooms, RoomMinSize, RoomMaxSize, rng, start);
    attempts := 1;
    while |rooms| < 3 && attempts < 10
      invariant 1 <= attempts <= 10 && next >= start
      invariant fresh(m) && m.Valid() && m.width == MapWidth && m.height == MapHeight
      invariant m.entities == [] && m.items == []
      invariant PairwiseDisjoint(rooms) && forall r | r in rooms :: WithMargin(r, MapWidth, MapHeight)
      invariant |tunnels| == Max(0, |rooms| - 1)
      invariant forall x, y | 0 <= x < MapWidth && 0 <= y < MapHeight ::
        m.tiles[x, y] ==
          if |rooms| > 0 && (x, y) == Center(rooms[|rooms| - 1]) then StairsDown
          else if InSomeArea(rooms, (x, y)) || InSomeTunnel(tunnels, (x, y)) then Floor
          else Wall
      decreases 10 - attempts
    {
      m, rooms, tunnels, next := GenerateWebDungeon(MapWidth, MapHeight, MaxRooms, RoomMinSize, RoomMaxSize, rng, next);
      attempts := attempts + 1;
    }
    if |rooms| > 0 {
      var last := rooms[|rooms| - 1];
      assert last in rooms;
      CenterOnMap(last, MapWidth, MapHeight);
    } else {
      NothingWalkableWithoutRooms(m, tunnels);
    }
  }
}
