// The step-choice rules of src/components/ai.py.  Each rule returns the
// direction (dx, dy) an actor wants to take, or None.  The random parts are
// passed in: `roll` is the `random.random()` draw and `order` the shuffled
// direction list.

module Ai {

  import opened Util
  import opened Geometry
  import opened Components
  import opened GameMaps

  /** `_wander` moves with probability 0.25, `_peaceful_wander` with 0.1. */
  const HostileWanderChance: real := 0.25
  const PeacefulWanderChance: real := 0.1

  predicate UnitStep(d: Cell)
  {
    -1 <= d.0 <= 1 && -1 <= d.1 <= 1
  }

  /** Stepping from `me` by `d` lands on a walkable cell. */
  predicate StepOk(m: GameMap, me: Entity, d: Cell)
    requires m.Valid()
    reads m, m.tiles, m.EntitySet(), me
  {
    m.IsWalkable(me.x + d.0, me.y + d.1)
  }

  /** The sign step from `from` toward `to`. */
  function SignStep(from: Cell, to: Cell): (d: Cell)
    ensures UnitStep(d)
    ensures d.0 == 0 <==> from.0 == to.0
    ensures d.1 == 0 <==> from.1 == to.1
    ensures d.0 * (to.0 - from.0) >= 0 && d.1 * (to.1 - from.1) >= 0
  {
    (Sign(to.0 - from.0), Sign(to.1 - from.1))
  }

  /** `_move_towards`: the diagonal sign step, else its horizontal part, else
      its vertical part, whichever is walkable first. */
  function MoveTowards(m: GameMap, me: Entity, tx: int, ty: int): (r: Option<Cell>)
    requires m.Valid()
    reads m, m.tiles, m.EntitySet(), me
    ensures r.Some? ==> UnitStep(r.value) && StepOk(m, me, r.value)
    ensures var s := SignStep((me.x, me.y), (tx, ty));
      && (StepOk(m, me, s) ==> r == Some(s))
      && (r.Some? ==> r.value in [s, (s.0, 0), (0, s.1)])
      && (r.None? <==> !StepOk(m, me, s) && (s.0 == 0 || !StepOk(m, me, (s.0, 0)))
                                         && (s.1 == 0 || !StepOk(m, me, (0, s.1))))
  {
    var s := SignStep((me.x, me.y), (tx, ty));
    if StepOk(m, me, s) then Some(s)
    else if s.0 != 0 && StepOk(m, me, (s.0, 0)) then Some((s.0, 0))
    else if s.1 != 0 && StepOk(m, me, (0, s.1)) then Some((0, s.1))
    else None
  }

  /** The first direction of `order[k..]` that leads to a walkable cell. */
  function FirstWalkable(m: GameMap, me: Entity, order: seq<Cell>, k: nat): (r: Option<Cell>)
    requires m.Valid() && k <= |order|
    reads m, m.tiles, m.EntitySet(), me
    ensures r.None? <==> forall i :: k <= i < |order| ==> !StepOk(m, me, order[i])
    ensures r.Some? ==> exists i :: k <= i < |order| && order[i] == r.value && StepOk(m, me, order[i])
                          && forall j :: k <= j < i ==> !StepOk(m, me, order[j])
    decreases |order| - k
  {
    if k == |order| then None
    else if StepOk(m, me, order[k]) then Some(order[k])
    else FirstWalkable(m, me, order, k + 1)
  }

  /** `_wander` (chance 0.25) and `_peaceful_wander` (chance 0.1): no move when
      the roll exceeds the chance, otherwise the first walkable direction of
      the shuffled neighbour list. */
  function Wander(m: GameMap, me: Entity, roll: Fraction, order: seq<Cell>, chance: real): (r: Option<Cell>)
    requires m.Valid()
    requires multiset(order) == multiset(Directions8)
    reads m, m.tiles, m.EntitySet(), me
    ensures r.Some? ==> r.value in Directions8 && StepOk(m, me, r.value) && roll <= chance
    ensures r.None? <==> roll > chance || forall d | d in Directions8 :: !StepOk(m, me, d)
  {
    if roll > chance then None
    else
      var r := FirstWalkable(m, me, order, 0);
      ShuffledDirections(order);
      assert r.None? <==> forall d | d in Directions8 :: !StepOk(m, me, d) by {
        if r.None? {
          forall d | d in Directions8
            ensures !StepOk(m, me, d)
          {
            var i :| 0 <= i < |order| && order[i] == d;
          }
        }
      }
      r
  }

  /** A shuffle of the neighbour list holds exactly the eight directions. */
  lemma ShuffledDirections(order: seq<Cell>)
    requires multiset(order) == multiset(Directions8)
    ensures forall d :: d in order <==> d in Directions8
  {
    forall d
      ensures d in order <==> d in Directions8
    {
      assert d in order <==> d in multiset(order);
      assert d in Directions8 <==> d in multiset(Directions8);
    }
  }

  /** Every wandering step is a unit step. */
  lemma WanderStepsAreUnit(m: GameMap, me: Entity, roll: Fraction, order: seq<Cell>, chance: real)
    requires m.Valid()
    requires multiset(order) == multiset(Directions8)
    ensures var r := Wander(m, me, roll, order, chance); r.Some? ==> UnitStep(r.value) && r.value != (0, 0)
  {
    var r := Wander(m, me, roll, order, chance);
    if r.Some? {
      Directions8AreUnitSteps(r.value);
    }
  }

  /** `HostileAI.perform`. */
  function HostilePerform(ai: AiComponent, m: GameMap, target: Entity?, roll: Fraction, order: seq<Cell>): (r: Option<Cell>)
    requires m.Valid()
    requires ai.entity != null ==> m.InBounds(ai.entity.x, ai.entity.y)
    requires multiset(order) == multiset(Directions8)
    reads ai, ai.entity, target, m, m.tiles, m.visible, m.EntitySet()
    ensures ai.entity == null || target == null ==> r == None
    ensures ai.entity != null && target != null ==> r == HostileStep(m, ai.entity, target, ai.detectionRange, roll, order)
    ensures r.Some? ==> UnitStep(r.value)
  {
    if ai.entity == null || target == null then None
    else HostileStep(m, ai.entity, target, ai.detectionRange, roll, order)
  }

  /** The body of `HostileAI.perform` for an actor and a target: wander when
      the target is out of range or the actor's cell is not in view, strike
      when adjacent, otherwise close in. */
  function HostileStep(m: GameMap, me: Entity, target: Entity, range: int, roll: Fraction, order: seq<Cell>): (r: Option<Cell>)
    requires m.Valid() && m.InBounds(me.x, me.y)
    requires multiset(order) == multiset(Directions8)
    reads me, target, m, m.tiles, m.visible, m.EntitySet()
    ensures var dist := Chebyshev((me.x, me.y), (target.x, target.y));
      && (dist > range || !m.visible[me.x, me.y] ==> r == Wander(m, me, roll, order, HostileWanderChance))
      && (dist <= range && m.visible[me.x, me.y] && dist <= 1 ==> r == Some((target.x - me.x, target.y - me.y)))
      && (dist <= range && m.visible[me.x, me.y] && dist > 1 ==> r == MoveTowards(m, me, target.x, target.y))
    ensures r.Some? ==> UnitStep(r.value)
  {
    var dx, dy := target.x - me.x, target.y - me.y;
    var distance := Chebyshev((me.x, me.y), (target.x, target.y));
    WanderStepsAreUnit(m, me, roll, order, HostileWanderChance);
    if distance > range then Wander(m, me, roll, order, HostileWanderChance)
    else if !m.visible[me.x, me.y] then Wander(m, me, roll, order, HostileWanderChance)
    else if distance <= 1 then Some((dx, dy))
    else MoveTowards(m, me, target.x, target.y)
  }

  /** `_flee_from`: the sign step away from the target when walkable, otherwise
      peaceful wandering. */
  function FleeFrom(m: GameMap, me: Entity, target: Entity?, roll: Fraction, order: seq<Cell>): (r: Option<Cell>)
    requires m.Valid()
    requires multiset(order) == multiset(Directions8)
    reads m, m.tiles, m.EntitySet(), me, target
    ensures target == null ==> r == None
    ensures target != null ==>
      var away := SignStep((target.x, target.y), (me.x, me.y));
      && (StepOk(m, me, away) ==> r == Some(away))
      && (!StepOk(m, me, away) ==> r == Wander(m, me, roll, order, PeacefulWanderChance))
    ensures r.Some? ==> UnitStep(r.value) && StepOk(m, me, r.value)
  {
    if target == null then None
    else
      var away := SignStep((target.x, target.y), (me.x, me.y));
      WanderStepsAreUnit(m, me, roll, order, PeacefulWanderChance);
      if StepOk(m, me, (Sign(me.x - target.x), Sign(me.y - target.y))) then Some(away)
      else Wander(m, me, roll, order, PeacefulWanderChance)
  }

  /** Fleeing never closes in: the step keeps each coordinate's distance to
      the target from shrinking. */
  lemma FleeNeverApproaches(m: GameMap, me: Entity, target: Entity, roll: Fraction, order: seq<Cell>)
    requires m.Valid()
    requires multiset(order) == multiset(Directions8)
    requires StepOk(m, me, SignStep((target.x, target.y), (me.x, me.y)))
    ensures var r := FleeFrom(m, me, target, roll, order);
      r.Some? && Abs(me.x + r.value.0 - target.x) >= Abs(me.x - target.x)
              && Abs(me.y + r.value.1 - target.y) >= Abs(me.y - target.y)
  {
  }

  /** `_chase`: the offset itself when adjacent, else the sign step toward the
      target when walkable, else no move. */
  function Chase(m: GameMap, me: Entity, target: Entity?): (r: Option<Cell>)
    requires m.Valid()
    reads m, m.tiles, m.EntitySet(), me, target
    ensures target == null ==> r == None
    ensures target != null ==>
      var dist := Chebyshev((me.x, me.y), (target.x, target.y));
      var toward := SignStep((me.x, me.y), (target.x, target.y));
      && (dist <= 1 ==> r == Some((target.x - me.x, target.y - me.y)))
      && (dist > 1 ==> (r == Some(toward) <==> StepOk(m, me, toward)) && (r == None <==> !StepOk(m, me, toward)))
    ensures r.Some? ==> UnitStep(r.value)
  {
    if target == null then None
    else
      var dx, dy := target.x - me.x, target.y - me.y;
      if Max(Abs(dx), Abs(dy)) <= 1 then Some((dx, dy))
      else
        var toward := (Sign(dx), Sign(dy));
        if StepOk(m, me, toward) then Some(toward) else None
  }

  /** The flee test `hp / max_hp < flee_hp_percent`, on exact rationals. */
  predicate WantsToFlee(f: Fighter, fleeHpPercent: real)
    requires f.maxHp != 0
    reads f
  {
    (f.hp as real) / (f.maxHp as real) < fleeHpPercent
  }

  /** `PassiveAI.perform`: flee when hurt, chase once hostile, otherwise wander peacefully. */
  function PassivePerform(ai: AiComponent, m: GameMap, target: Entity?, roll: Fraction, order: seq<Cell>): (r: Option<Cell>)
    requires m.Valid()
    requires multiset(order) == multiset(Directions8)
    requires ai.entity != null && ai.entity.fighter != null ==> ai.entity.fighter.maxHp != 0
    reads ai, ai.entity, target, m, m.tiles, m.EntitySet()
    reads if ai.entity == null then {} else {ai.entity.fighter}
    ensures ai.entity == null ==> r == None
    ensures ai.entity != null ==>
      var me := ai.entity;
      var flee := me.fighter != null && WantsToFlee(me.fighter, ai.fleeHpPercent);
      && (flee ==> r == FleeFrom(m, me, target, roll, order))
      && (!flee && ai.isHostile ==> r == Chase(m, me, target))
      && (!flee && !ai.isHostile ==> r == Wander(m, me, roll, order, PeacefulWanderChance))
    ensures r.Some? ==> UnitStep(r.value)
  {
    if ai.entity == null then None
    else
      var me := ai.entity;
      WanderStepsAreUnit(m, me, roll, order, PeacefulWanderChance);
      if me.fighter != null && WantsToFlee(me.fighter, ai.fleeHpPercent) then FleeFrom(m, me, target, roll, order)
      else if ai.isHostile then Chase(m, me, target)
      else Wander(m, me, roll, order, PeacefulWanderChance)
  }
}
