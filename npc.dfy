/**
 * The NPC behaviour controller: a four-state machine stepped once per tick.
 * The state is recomputed from health and the distance between centres, then
 * the action of that state runs: patrol between x = 500 and x = 700, chase the
 * player at speed 2, count the attack cooldown down, or do nothing when dead.
 */
module NpcController {
  import opened Geometry
  import opened PlayerEntity

  datatype State = Patrolling | Chasing | Attacking | Dead

  const NpcWidth := 50
  const NpcHeight := 100
  const NpcSpeed := 2
  const PatrolMin := 500
  const PatrolMax := 700
  /** Distance thresholds between centres (strict: exactly 50 is not attacking). */
  const AttackRange := 50
  const ChaseRange := 200
  /** Ticks to wait after an attack fires. */
  const AttackCooldown := 60
  const FullHealth := 100

  /** The NPC's state as a value. */
  datatype NpcView = NpcView(rect: Rect, state: State, patrolDir: int, health: int, cooldown: int)

  /** A fresh NPC: at (600, 300), patrolling to the right, full health, no cooldown. */
  function InitialNpc(): NpcView
  {
    NpcView(Rect(600, 300, NpcWidth, NpcHeight), Patrolling, 1, FullHealth, 0)
  }

  /**
   * The transition rule, first match wins: no health, then within attack
   * range, then within chase range, else patrol. `d2` is the squared distance
   * between centres, so `d2 < 50 * 50` is `distance < 50`.
   */
  function NextState(health: int, d2: int): (s: State)
    ensures s == Dead <==> health <= 0
    ensures s == Attacking <==> health > 0 && d2 < AttackRange * AttackRange
    ensures s == Chasing <==> health > 0 && AttackRange * AttackRange <= d2 < ChaseRange * ChaseRange
    ensures s == Patrolling <==> health > 0 && ChaseRange * ChaseRange <= d2
  {
    if health <= 0 then Dead
    else if d2 < AttackRange * AttackRange then Attacking
    else if d2 < ChaseRange * ChaseRange then Chasing
    else Patrolling
  }

  function Abs(n: int): nat
  {
    if n < 0 then -n else n
  }

  /**
   * One axis of the chase step: 2 * d divided by the larger of 1 and the
   * distance sqrt(d * d + o * o), truncated toward zero, with `d` the centre
   * difference on this axis and `o` the one on the other axis. Its magnitude
   * k is the largest k with k * sqrt(d * d + o * o) <= 2 * |d|, that is
   * k * k * (d * d + o * o) <= 4 * d * d.
   */
  function ChaseDelta(d: int, o: int): (r: int)
    ensures -NpcSpeed <= r <= NpcSpeed
    ensures d == 0 ==> r == 0
    ensures d > 0 ==> r >= 0
    ensures d < 0 ==> r <= 0
    ensures d * d + o * o > 0 ==>
      r * r * (d * d + o * o) <= NpcSpeed * NpcSpeed * (d * d) <
      (Abs(r) + 1) * (Abs(r) + 1) * (d * d + o * o)
  {
    SumOfSquaresZero(d, o);
    if d == 0 then 0
    else if o == 0 then
      // 2 * d / |d| is exactly 2 or -2
      assert d * d > 0;
      if d > 0 then NpcSpeed else -NpcSpeed
    else if NpcSpeed * NpcSpeed * (d * d) >= d * d + o * o then
      assert o * o > 0 by { SumOfSquaresZero(o, 0); }
      if d > 0 then 1 else -1
    else
      0
  }

  /** The patrol action: step by patrol_dir * speed, turn at or past a bound. */
  function Patrol(n: NpcView): NpcView
  {
    var x := n.rect.x + n.patrolDir * NpcSpeed;
    n.(rect := n.rect.(x := x),
       patrolDir := if x <= PatrolMin || x >= PatrolMax then -n.patrolDir else n.patrolDir)
  }

  /** The chase action: both axes step from the same centre differences. */
  function Chase(n: NpcView, player: Rect): NpcView
  {
    var dx := CenterX(player) - CenterX(n.rect);
    var dy := CenterY(player) - CenterY(n.rect);
    n.(rect := n.rect.(x := n.rect.x + ChaseDelta(dx, dy), y := n.rect.y + ChaseDelta(dy, dx)))
  }

  /** The attack action: fire and reload when the cooldown is 0, else count down. */
  function Attack(n: NpcView): NpcView
  {
    n.(cooldown := if n.cooldown == 0 then AttackCooldown else n.cooldown - 1)
  }

  /** One `update(player)`: recompute the state, then run that state's action. */
  function Updated(n: NpcView, player: Rect): NpcView
  {
    var m := n.(state := NextState(n.health, CentreDistanceSquared(n.rect, player)));
    match m.state
    case Patrolling => Patrol(m)
    case Chasing => Chase(m, player)
    case Attacking => Attack(m)
    case Dead => m
  }

  /** The update fires an attack (the console message) exactly in this case. */
  predicate Fires(n: NpcView, player: Rect)
  {
    NextState(n.health, CentreDistanceSquared(n.rect, player)) == Attacking && n.cooldown == 0
  }

  /** What every NPC keeps: a unit patrol direction, a cooldown in [0, 60], and Dead only without health. */
  predicate NpcInv(n: NpcView)
  {
    (n.patrolDir == 1 || n.patrolDir == -1) &&
    0 <= n.cooldown <= AttackCooldown &&
    (n.state == Dead ==> n.health <= 0)
  }

  /** The NPC entity, whose rectangle, state, direction, health and cooldown change in place. */
  class NPC {
    var rect: Rect
    var state: State
    var patrolDir: int
    var health: int
    var cooldown: int
    const speed: int := NpcSpeed
    const patrolMin: int := PatrolMin
    const patrolMax: int := PatrolMax

    function View(): NpcView
      reads this
    {
      NpcView(rect, state, patrolDir, health, cooldown)
    }

    ghost predicate Valid()
      reads this
    {
      NpcInv(View())
    }

    constructor ()
      ensures View() == InitialNpc() && Valid()
    {
      var r := Rect(0, 0, NpcWidth, NpcHeight);
      r := r.(x := 600);
      r := r.(y := 300);
      rect := r;
      state := Patrolling;
      patrolDir := 1;
      health := FullHealth;
      cooldown := 0;
    }

    /** One tick of behaviour; `fired` reports the attack message. */
    method Update(player: Player) returns (fired: bool)
      requires Valid()
      modifies this
      ensures Valid()
      ensures View() == Updated(old(View()), player.rect)
      ensures fired == Fires(old(View()), player.rect)
    {
      var d2 := CentreDistanceSquared(rect, player.rect);
      if health <= 0 {
        state := Dead;
      } else if d2 < AttackRange * AttackRange {
        state := Attacking;
      } else if d2 < ChaseRange * ChaseRange {
        state := Chasing;
      } else {
        state := Patrolling;
      }

      fired := false;
      if state == Patrolling {
        rect := rect.(x := rect.x + patrolDir * speed);
        if rect.x <= patrolMin || rect.x >= patrolMax {
          patrolDir := -patrolDir;
        }
      } else if state == Chasing {
        var dx := CenterX(player.rect) - CenterX(rect);
        var dy := CenterY(player.rect) - CenterY(rect);
        rect := rect.(x := rect.x + ChaseDelta(dx, dy));
        rect := rect.(y := rect.y + ChaseDelta(dy, dx));
      } else if state == Attacking {
        if cooldown == 0 {
          fired := true;
          cooldown := AttackCooldown;
        } else {
          cooldown := cooldown - 1;
        }
      }
    }
  }
}
