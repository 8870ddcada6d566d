// One actor's turn in the enemies' turn of src/systems/engine.py, as values:
// where the actor aims, where it ends its turn, and how a whole turn of the
// live actors, one after the other, moves them.

module EnemyMoves {

  import opened Util
  import opened Geometry
  import opened Components
  import opened Ai

  /** One actor's turn in `handle_enemy_turn`, as the state at its start
      decides it: the actor's name and cell, the step its AI chose (`None`
      when it does not act, as the player and an actor without an AI never
      do), whether the cell it aims at is walkable, and the damage its blow
      would deal the player (`None` when either side has no fighter). */
  datatype EnemyMove = EnemyMove(name: string, from: Cell, step: Option<Cell>, open: bool, blow: Option<nat>)

  /** The cell an actor aims at: its own cell when it does not act. */
  function Aim(mv: EnemyMove): Cell
  {
    if mv.step.None? then mv.from else (mv.from.0 + mv.step.value.0, mv.from.1 + mv.step.value.1)
  }

  /** Whether the actor's turn is an attack on the player standing on `p`. */
  predicate Attacks(mv: EnemyMove, p: Cell)
  {
    mv.step.Some? && Aim(mv) == p
  }

  /** Where the actor ends its turn, the player standing on `p`: an attack
      leaves it in place, a step onto a walkable cell is a move, and any
      other step leaves it in place. */
  function Landing(mv: EnemyMove, p: Cell): Cell
  {
    if mv.step.Some? && !Attacks(mv, p) && mv.open then Aim(mv) else mv.from
  }

  /** An actor ends its turn where it stood or on the walkable cell it aimed
      at, never on the player's cell, at most one step away when its AI chose
      a unit step, and it moves exactly when it steps off the player's cell
      onto a walkable one. */
  lemma LandingIsAStep(mv: EnemyMove, p: Cell)
    ensures var r := Landing(mv, p);
      && (r == mv.from || (mv.step.Some? && mv.open && r == Aim(mv)))
      && (mv.from != p ==> r != p)
      && (mv.step.Some? && UnitStep(mv.step.value) ==> Abs(r.0 - mv.from.0) <= 1 && Abs(r.1 - mv.from.1) <= 1)
      && (r != mv.from <==> mv.step.Some? && !Attacks(mv, p) && mv.open && Aim(mv) != mv.from)
  {
  }

  /** The cells `cells` of `actors` with every place `a` holds in the list
      moved to `c`. */
  function Relocated(actors: seq<Entity>, cells: seq<Cell>, a: Entity, c: Cell): (r: seq<Cell>)
    requires |cells| == |actors|
    ensures |r| == |actors|
    ensures forall j | 0 <= j < |actors| :: r[j] == if actors[j] == a then c else cells[j]
  {
    seq(|actors|, j requires 0 <= j < |actors| => if actors[j] == a then c else cells[j])
  }

  /** Replays the turns `moves` of the first |moves| of `actors`, whose AI
      components are `ais`, one after the other, the actors standing on
      `before` and the player, `player`, on `p`: each turn must go under its
      actor's name, be idle when that actor is the player or has no AI, and
      start where the turns before it left the actor, and it moves the actor,
      at every place the actor holds in the list, to where it lands.  The
      result is where the actors then stand, or `None` when a turn breaks
      these rules. */
  function Replay(actors: seq<Entity>, player: Entity, ais: seq<AiComponent?>, before: seq<Cell>,
                  moves: seq<EnemyMove>, p: Cell): (r: Option<seq<Cell>>)
    requires |actors| == |ais| == |before|
    ensures r.Some? ==> |moves| <= |actors| && |r.value| == |actors|
    decreases |moves|
  {
    if moves == [] then Some(before)
    else
      var n := |moves| - 1;
      match Replay(actors, player, ais, before, moves[..n], p)
      case None => None
      case Some(prior) =>
        var mv := moves[n];
        if n < |actors| && mv.name == actors[n].name && (actors[n] == player || ais[n] == null ==> mv.step == None)
           && mv.from == prior[n]
        then Some(Relocated(actors, prior, actors[n], Landing(mv, p)))
        else None
  }

  /** The turns `moves` so far, taken by actors who stood on `before`, follow
      the rules of `Replay` and leave them standing on `now`. */
  predicate Traced(actors: seq<Entity>, player: Entity, ais: seq<AiComponent?>,
                   before: seq<Cell>, now: seq<Cell>, moves: seq<EnemyMove>, p: Cell)
  {
    |actors| == |ais| == |before| && Replay(actors, player, ais, before, moves, p) == Some(now)
  }

  /** The turn `mv` of the next actor, under its name, idle when that actor
      is the player or has no AI, and starting where the actor now stands,
      extends the trace by one and moves that actor alone. */
  lemma TracedStep(actors: seq<Entity>, player: Entity, ais: seq<AiComponent?>,
                   before: seq<Cell>, now: seq<Cell>, moves: seq<EnemyMove>, p: Cell, mv: EnemyMove)
    requires Traced(actors, player, ais, before, now, moves, p) && |moves| < |actors|
    requires mv.name == actors[|moves|].name && (actors[|moves|] == player || ais[|moves|] == null ==> mv.step == None)
    requires mv.from == now[|moves|]
    ensures Traced(actors, player, ais, before, Relocated(actors, now, actors[|moves|], Landing(mv, p)), moves + [mv], p)
  {
    assert (moves + [mv])[..|moves|] == moves;
  }

  /** The first `k` turns of a replay that follows the rules follow them. */
  lemma {:induction false} ReplayPrefix(actors: seq<Entity>, player: Entity, ais: seq<AiComponent?>,
                                        before: seq<Cell>, moves: seq<EnemyMove>, p: Cell, k: nat)
    requires |actors| == |ais| == |before| && k <= |moves|
    requires Replay(actors, player, ais, before, moves, p).Some?
    ensures Replay(actors, player, ais, before, moves[..k], p).Some?
    decreases |moves|
  {
    if k < |moves| {
      var n := |moves| - 1;
      assert moves[..n][..k] == moves[..k];
      ReplayPrefix(actors, player, ais, before, moves[..n], p, k);
    } else {
      assert moves[..k] == moves;
    }
  }

  /** An actor that has not had a turn among `moves` stands where it stood. */
  lemma {:induction false} ReplayLeavesTheRest(actors: seq<Entity>, player: Entity, ais: seq<AiComponent?>,
                                               before: seq<Cell>, moves: seq<EnemyMove>, p: Cell, j: nat)
    requires |actors| == |ais| == |before| && j < |actors|
    requires Replay(actors, player, ais, before, moves, p).Some?
    requires forall k | 0 <= k < |moves| && k < |actors| :: actors[k] != actors[j]
    ensures Replay(actors, player, ais, before, moves, p).value[j] == before[j]
    decreases |moves|
  {
    if moves != [] {
      ReplayLeavesTheRest(actors, player, ais, before, moves[..|moves| - 1], p, j);
    }
  }

  /** An actor whose last turn among `moves` is the `k`th stands where that
      turn landed it. */
  lemma {:induction false} ReplayKeepsTheLastTurn(actors: seq<Entity>, player: Entity, ais: seq<AiComponent?>,
                                                  before: seq<Cell>, moves: seq<EnemyMove>, p: Cell, k: nat)
    requires |actors| == |ais| == |before| && k < |moves|
    requires Replay(actors, player, ais, before, moves, p).Some?
    requires forall i | k < i < |moves| && i < |actors| :: actors[i] != actors[k]
    ensures Replay(actors, player, ais, before, moves, p).value[k] == Landing(moves[k], p)
    decreases |moves|
  {
    var n := |moves| - 1;
    if k < n {
      assert moves[..n][k] == moves[k];
      ReplayKeepsTheLastTurn(actors, player, ais, before, moves[..n], p, k);
    }
  }

  /** In a replay that follows the rules, the `k`th turn goes under its
      actor's name, is idle when that actor is the player or has no AI, and
      starts where that actor stood before any turn when it had no earlier
      turn. */
  lemma ReplayedTurn(actors: seq<Entity>, player: Entity, ais: seq<AiComponent?>,
                     before: seq<Cell>, moves: seq<EnemyMove>, p: Cell, k: nat)
    requires |actors| == |ais| == |before| && k < |moves|
    requires Replay(actors, player, ais, before, moves, p).Some?
    ensures k < |actors| && moves[k].name == actors[k].name
    ensures actors[k] == player || ais[k] == null ==> moves[k].step == None
    ensures (forall i | 0 <= i < k :: actors[i] != actors[k]) ==> moves[k].from == before[k]
  {
    ReplayPrefix(actors, player, ais, before, moves, p, k + 1);
    var m := moves[..k + 1];
    assert m[..k] == moves[..k] && m[k] == moves[k];
    if forall i | 0 <= i < k :: actors[i] != actors[k] {
      ReplayLeavesTheRest(actors, player, ais, before, moves[..k], p, k);
    }
  }
}
