/**
 * Properties of the NPC behaviour controller: the integer model against the
 * Euclidean distance and the real-valued chase formula, what each state's
 * action changes, the invariants every update keeps, the patrol band, and
 * the rhythm of attacks.
 */
module NpcProperties {
  import opened Geometry
  import opened NpcController

  /** For non-negative reals, comparing squares is comparing the values. */
  lemma SquareOrder(u: real, v: real)
    requires u >= 0.0 && v >= 0.0
    ensures u < v <==> u * u < v * v
    ensures u <= v <==> u * u <= v * v
  {
    if u < v {
      StrictSquare(u, v);
    } else if v < u {
      StrictSquare(v, u);
    }
  }

  lemma StrictSquare(u: real, v: real)
    requires 0.0 <= u < v
    ensures u * u < v * v
  {
    var p, q := v - u, v + u;
    assert p * q > 0.0;
    assert v * v - u * u == p * q;
  }

  /**
   * With `dist` the exact Euclidean distance between the centres
   * (non-negative, squaring to d2), the integer rule is the rule stated on
   * distances: Dead without health, else Attacking below 50, else Chasing
   * below 200, else Patrolling.
   */
  lemma NextStateByDistance(health: int, d2: int, dist: real)
    requires dist >= 0.0 && dist * dist == d2 as real
    ensures NextState(health, d2) ==
      if health <= 0 then Dead
      else if dist < AttackRange as real then Attacking
      else if dist < ChaseRange as real then Chasing
      else Patrolling
  {
    SquareOrder(dist, AttackRange as real);
    SquareOrder(dist, ChaseRange as real);
  }

  /** Truncation toward zero, as the game does when it turns the chase step into an integer. */
  function Truncate(q: real): int
  {
    if q >= 0.0 then q.Floor else -((-q).Floor)
  }

  function MaxReal(a: real, b: real): real
  {
    if a >= b then a else b
  }

  /**
   * The integer chase step is the game's real-valued step evaluated exactly:
   * `Truncate(2 * d / MaxReal(dist, 1))`, with `dist` the exact distance
   * sqrt(d * d + o * o).
   */
  lemma ChaseDeltaTruncates(d: int, o: int, dist: real)
    requires dist >= 0.0 && dist * dist == (d * d + o * o) as real
    ensures ChaseDelta(d, o) == Truncate((NpcSpeed * d) as real / MaxReal(dist, 1.0))
  {
    var s := d * d + o * o;
    SumOfSquaresZero(d, o);
    var r := ChaseDelta(d, o);
    if s == 0 {
      if dist > 0.0 {
        StrictSquare(0.0, dist);
      }
      assert MaxReal(dist, 1.0) == 1.0;
    } else {
      SquareOrder(dist, 1.0);
      assert MaxReal(dist, 1.0) == dist;
      var k := Abs(r);
      var a := Abs(NpcSpeed * d);
      assert a * a == NpcSpeed * NpcSpeed * (d * d);
      assert r * r == k * k;
      QuotientFloor(k, a, s, dist);
      if d >= 0 {
        assert (NpcSpeed * d) as real == a as real;
      } else {
        assert (NpcSpeed * d) as real == -(a as real);
        NegatedQuotient(a, dist);
      }
    }
  }

  /** The floor of a / dist is k when k * dist <= a < (k + 1) * dist, stated on squares. */
  lemma QuotientFloor(k: nat, a: nat, s: int, dist: real)
    requires dist >= 1.0 && dist * dist == s as real
    requires k * k * s <= a * a < (k + 1) * (k + 1) * s
    ensures (a as real / dist).Floor == k
  {
    var K, A := k as real, a as real;
    ScaledSquare(k, s, dist);
    ScaledSquare(k + 1, s, dist);
    assert A * A == (a * a) as real;
    SquareOrder(K * dist, A);
    SquareOrder(A, (K + 1.0) * dist);
    FloorFromBounds(k, A, dist);
  }

  /** (n * dist) squared is n * n * s when dist squared is s. */
  lemma ScaledSquare(n: nat, s: int, dist: real)
    requires dist * dist == s as real
    ensures (n as real * dist) * (n as real * dist) == (n * n * s) as real
  {
    var N := n as real;
    assert (N * dist) * (N * dist) == (N * N) * (dist * dist);
    assert N * N == (n * n) as real;
    assert (n * n * s) as real == (n * n) as real * s as real;
  }

  lemma FloorFromBounds(k: int, A: real, dist: real)
    requires dist > 0.0
    requires k as real * dist <= A < (k as real + 1.0) * dist
    ensures (A / dist).Floor == k
  {
    var K, q := k as real, A / dist;
    assert A < K * dist + dist;
    assert q * dist == A;
    assert K <= q;
    var x := (K + 1.0) - q;
    assert x * dist == K * dist + dist - A;
    assert x * dist > 0.0;
  }

  lemma NegatedQuotient(a: nat, dist: real)
    requires a > 0 && dist >= 1.0
    ensures Truncate(-(a as real) / dist) == -((a as real / dist).Floor)
  {
    var q := a as real / dist;
    assert -(a as real) / dist == -q;
    assert q * dist == a as real;
  }

  /** One axis of the chase step never takes the NPC further away on that axis. */
  lemma AxisCloser(d: int, o: int)
    requires d * d + o * o >= 4
    ensures (d - ChaseDelta(d, o)) * (d - ChaseDelta(d, o)) <= d * d
    ensures ChaseDelta(d, o) != 0 ==> (d - ChaseDelta(d, o)) * (d - ChaseDelta(d, o)) < d * d
  {
    var r := ChaseDelta(d, o);
    if r != 0 {
      if o == 0 {
        assert d * d >= 4;
        assert d >= 2 || d <= -2;
      }
      assert (d - r) * (d - r) == d * d - r * (2 * d - r);
      if d > 0 {
        assert r * (2 * d - r) > 0;
      } else {
        assert r * (2 * d - r) == (-r) * (-2 * d + r);
        assert (-r) * (-2 * d + r) > 0;
      }
    }
  }

  /** Away from the player's centre, at least one axis of the chase step moves. */
  lemma ChaseMoves(d: int, o: int)
    requires d * d + o * o > 0
    ensures ChaseDelta(d, o) != 0 || ChaseDelta(o, d) != 0
  {
  }

  /** A chasing NPC ends the tick strictly closer to the player's centre. */
  lemma ChaseApproaches(n: NpcView, player: Rect)
    requires NextState(n.health, CentreDistanceSquared(n.rect, player)) == Chasing
    ensures CentreDistanceSquared(Updated(n, player).rect, player) < CentreDistanceSquared(n.rect, player)
  {
    var dx := CenterX(player) - CenterX(n.rect);
    var dy := CenterY(player) - CenterY(n.rect);
    DistanceSymmetric(n.rect, player);
    assert CentreDistanceSquared(player, n.rect) == dx * dx + dy * dy;
    var m := Updated(n, player);
    assert m.rect.x == n.rect.x + ChaseDelta(dx, dy);
    assert m.rect.y == n.rect.y + ChaseDelta(dy, dx);
    DistanceSymmetric(m.rect, player);
    assert CentreDistanceSquared(m.rect, player) ==
      (dx - ChaseDelta(dx, dy)) * (dx - ChaseDelta(dx, dy)) + (dy - ChaseDelta(dy, dx)) * (dy - ChaseDelta(dy, dx));
    AxisCloser(dx, dy);
    AxisCloser(dy, dx);
    ChaseMoves(dx, dy);
  }

  /** Patrolling: only x moves, by patrol_dir * speed, and the direction turns exactly at or past a bound. */
  lemma PatrolAction(n: NpcView, player: Rect)
    requires NextState(n.health, CentreDistanceSquared(n.rect, player)) == Patrolling
    ensures Updated(n, player).state == Patrolling
    ensures Updated(n, player).rect == n.rect.(x := n.rect.x + n.patrolDir * NpcSpeed)
    ensures var x := Updated(n, player).rect.x;
      Updated(n, player).patrolDir == if x <= PatrolMin || x >= PatrolMax then -n.patrolDir else n.patrolDir
    ensures Updated(n, player).health == n.health && Updated(n, player).cooldown == n.cooldown
  {
  }

  /**
   * The two axes of a chase step together: the step vector is at most the
   * speed long, because each axis is at most the truncated share 2 * d / dist.
   */
  lemma ChaseVectorBound(d: int, o: int)
    ensures ChaseDelta(d, o) * ChaseDelta(d, o) + ChaseDelta(o, d) * ChaseDelta(o, d) <= NpcSpeed * NpcSpeed
  {
    var a, b := ChaseDelta(d, o), ChaseDelta(o, d);
    var s := d * d + o * o;
    SumOfSquaresZero(d, o);
    if s > 0 {
      assert o * o + d * d == s;
      assert a * a * s + b * b * s <= NpcSpeed * NpcSpeed * s;
      assert (a * a + b * b) * s <= NpcSpeed * NpcSpeed * s;
    }
  }

  /**
   * Chasing: the step vector is at most the speed long, and no axis moves
   * away from the player's centre; direction, health and cooldown stay.
   */
  lemma ChaseAction(n: NpcView, player: Rect)
    requires NextState(n.health, CentreDistanceSquared(n.rect, player)) == Chasing
    ensures var m := Updated(n, player);
      var sx, dx := m.rect.x - n.rect.x, CenterX(player) - CenterX(n.rect);
      var sy, dy := m.rect.y - n.rect.y, CenterY(player) - CenterY(n.rect);
      m.state == Chasing &&
      sx * sx + sy * sy <= NpcSpeed * NpcSpeed &&
      -NpcSpeed <= sx <= NpcSpeed && -NpcSpeed <= sy <= NpcSpeed &&
      (dx == 0 ==> sx == 0) && (dx > 0 ==> sx >= 0) && (dx < 0 ==> sx <= 0) &&
      (dy == 0 ==> sy == 0) && (dy > 0 ==> sy >= 0) && (dy < 0 ==> sy <= 0) &&
      m.rect.w == n.rect.w && m.rect.h == n.rect.h &&
      m.patrolDir == n.patrolDir && m.health == n.health && m.cooldown == n.cooldown
  {
    ChaseVectorBound(CenterX(player) - CenterX(n.rect), CenterY(player) - CenterY(n.rect));
  }

  /** Attacking: nothing moves; the cooldown reloads to 60 from 0 (and the attack fires), else counts down. */
  lemma AttackAction(n: NpcView, player: Rect)
    requires NextState(n.health, CentreDistanceSquared(n.rect, player)) == Attacking
    ensures Updated(n, player) == n.(state := Attacking,
      cooldown := if n.cooldown == 0 then AttackCooldown else n.cooldown - 1)
    ensures Fires(n, player) <==> n.cooldown == 0
  {
  }

  /** Dead: everything but the state is left as it was. */
  lemma DeadAction(n: NpcView, player: Rect)
    requires n.health <= 0
    ensures Updated(n, player) == n.(state := Dead)
    ensures !Fires(n, player)
  {
  }

  /** The cooldown changes only on an Attacking tick, and an attack fires only then. */
  lemma CooldownOnlyWhileAttacking(n: NpcView, player: Rect)
    ensures Updated(n, player).cooldown != n.cooldown ==> Updated(n, player).state == Attacking
    ensures Fires(n, player) ==> Updated(n, player).state == Attacking && Updated(n, player).cooldown == AttackCooldown
  {
  }

  /** An update keeps the NPC invariant: unit direction, cooldown in [0, 60], Dead only without health. */
  lemma UpdatePreservesInv(n: NpcView, player: Rect)
    requires NpcInv(n)
    ensures NpcInv(Updated(n, player))
  {
  }

  /**
   * The patrol band: on an even x in [500, 700], and heading inward at a
   * bound. Patrolling keeps the NPC in it, so from the initial NPC it walks
   * 600, 602, ..., 700, 698, ..., 500, 502, ... and turns once at each bound.
   */
  predicate InPatrolBand(n: NpcView)
  {
    (n.patrolDir == 1 || n.patrolDir == -1) &&
    n.rect.x % 2 == 0 && PatrolMin <= n.rect.x <= PatrolMax &&
    (n.rect.x == PatrolMin ==> n.patrolDir == 1) &&
    (n.rect.x == PatrolMax ==> n.patrolDir == -1)
  }

  lemma PatrolKeepsBand(n: NpcView, player: Rect)
    requires InPatrolBand(n)
    requires NextState(n.health, CentreDistanceSquared(n.rect, player)) == Patrolling
    ensures InPatrolBand(Updated(n, player))
    ensures Updated(n, player).patrolDir != n.patrolDir <==>
      Updated(n, player).rect.x == PatrolMin || Updated(n, player).rect.x == PatrolMax
  {
  }

  lemma InitialInPatrolBand()
    ensures InPatrolBand(InitialNpc()) && NpcInv(InitialNpc())
  {
  }

  /**
   * At a bound heading outward, at least 2 outside the band, or 1 outside
   * and heading further out, the turn test holds on every tick, so
   * patrolling alone never brings the NPC back into the band: it steps back
   * and forth between two points.
   */
  lemma PatrolOutsideRangeOscillates(n: NpcView)
    requires n.patrolDir == 1 || n.patrolDir == -1
    requires n.rect.x <= PatrolMin - NpcSpeed || n.rect.x >= PatrolMax + NpcSpeed ||
      (n.rect.x == PatrolMin - 1 && n.patrolDir == -1) || (n.rect.x == PatrolMax + 1 && n.patrolDir == 1) ||
      (n.rect.x == PatrolMin && n.patrolDir == -1) || (n.rect.x == PatrolMax && n.patrolDir == 1)
    ensures Patrol(n).rect.x != n.rect.x
    ensures Patrol(Patrol(n)) == n
  {
  }

  /**
   * A chase can leave the NPC at a bound heading outward: at 502 heading
   * left, with the player's centre 100 to the left, one update moves it onto
   * 500 and keeps its direction.
   */
  lemma ChaseOntoBoundHeadingOutward()
    ensures var n := NpcView(Rect(PatrolMin + NpcSpeed, 300, NpcWidth, NpcHeight), Patrolling, -1, FullHealth, 0);
      var player := Rect(PatrolMin + NpcSpeed - 100, 300, NpcWidth, NpcHeight);
      Updated(n, player).state == Chasing &&
      Updated(n, player).rect.x == PatrolMin && Updated(n, player).patrolDir == -1
  {
  }

  /**
   * One pixel outside the band and heading inward, the first step lands
   * strictly inside without a turn, so the NPC walks back into the band.
   */
  lemma PatrolReentersFromOnePixelOut(n: NpcView)
    requires (n.rect.x == PatrolMin - 1 && n.patrolDir == 1) || (n.rect.x == PatrolMax + 1 && n.patrolDir == -1)
    ensures PatrolMin < Patrol(n).rect.x < PatrolMax
    ensures Patrol(n).patrolDir == n.patrolDir
    ensures Patrol(Patrol(n)).rect.x == n.rect.x + 2 * NpcSpeed * n.patrolDir
  {
  }

  /** k updates against a player standing still. */
  function UpdatedTimes(n: NpcView, player: Rect, k: nat): NpcView
    decreases k
  {
    if k == 0 then n else UpdatedTimes(Updated(n, player), player, k - 1)
  }

  /** In attack range and alive, the NPC stands still and counts its cooldown down by one per tick. */
  lemma {:induction false} CountsDown(n: NpcView, player: Rect, k: nat)
    requires n.health > 0 && CentreDistanceSquared(n.rect, player) < AttackRange * AttackRange
    requires k <= n.cooldown
    ensures UpdatedTimes(n, player, k).rect == n.rect
    ensures UpdatedTimes(n, player, k).health == n.health
    ensures UpdatedTimes(n, player, k).cooldown == n.cooldown - k
    decreases k
  {
    if k > 0 {
      var m := Updated(n, player);
      assert m.rect == n.rect && m.health == n.health && m.cooldown == n.cooldown - 1;
      CountsDown(m, player, k - 1);
    }
  }

  /**
   * The attack rhythm against a player standing in range: after an attack
   * fires, the next 60 updates fire none, and the 61st fires again.
   */
  lemma AttackPeriod(n: NpcView, player: Rect)
    requires Fires(n, player)
    ensures forall j :: 1 <= j <= AttackCooldown ==> !Fires(UpdatedTimes(n, player, j), player)
    ensures Fires(UpdatedTimes(n, player, AttackCooldown + 1), player)
  {
    var m := Updated(n, player);
    assert m.rect == n.rect && m.health == n.health && m.cooldown == AttackCooldown;
    forall j | 1 <= j <= AttackCooldown
      ensures !Fires(UpdatedTimes(n, player, j), player)
    {
      CountsDown(m, player, j - 1);
    }
    CountsDown(m, player, AttackCooldown);
  }
}
