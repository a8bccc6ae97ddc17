/**
 * Properties of combat, replay and whole runs of the game loop: what a press
 * of the attack key does, the lag between a lethal hit and death, what replay
 * restores and when, and what holds over any sequence of ticks.
 */
module GameProperties {
  import opened Geometry
  import opened PlayerEntity
  import opened NpcController
  import opened GameLoop

  /** The ticks of a run, one input each. */
  function Run(w: World, inputs: seq<Input>): World
    decreases |inputs|
  {
    if inputs == [] then w else Run(Step(w, inputs[0]), inputs[1..])
  }

  predicate NoReplayClick(es: seq<Event>)
  {
    forall i :: 0 <= i < |es| ==> !IsReplayClick(es[i])
  }

  predicate NoReplayDuring(inputs: seq<Input>)
  {
    forall i :: 0 <= i < |inputs| ==> NoReplayClick(inputs[i].events)
  }

  /** No tick of the run fires an attack. */
  predicate NoFireDuring(w: World, inputs: seq<Input>)
    decreases |inputs|
  {
    inputs == [] || (!StepFires(w, inputs[0]) && NoFireDuring(Step(w, inputs[0]), inputs[1..]))
  }

  /** One successful hit on a fresh NPC leaves exactly 75 health. */
  lemma OneHit(w: World)
    requires w.npc.state != Dead && w.npc.health == FullHealth && Overlaps(w.player.sword, w.npc.rect)
    ensures OnEvent(w, KeyDown(Space)).npc.health == 75
    ensures OnEvent(w, KeyDown(Space)).npc.state == w.npc.state
  {
  }

  /**
   * Four hits in one tick take 100 health to 0 without touching the state;
   * the NPC becomes Dead only in the update that follows them.
   */
  lemma FourHitsThenDead(w: World, keys: Keys)
    requires w.npc.state != Dead && w.npc.health == FullHealth && Overlaps(w.player.sword, w.npc.rect)
    ensures var es := [KeyDown(Space), KeyDown(Space), KeyDown(Space), KeyDown(Space)];
      OnEvents(w, es).npc.health == 0 &&
      OnEvents(w, es).npc.state == w.npc.state &&
      Step(w, Input(keys, es)).npc.state == Dead
  {
    var es := [KeyDown(Space), KeyDown(Space), KeyDown(Space), KeyDown(Space)];
    assert es[..3] == [KeyDown(Space), KeyDown(Space), KeyDown(Space)];
    assert es[..3][..2] == [KeyDown(Space), KeyDown(Space)];
    assert es[..3][..2][..1] == [KeyDown(Space)];
    assert es[..3][..2][..1][..0] == [];
    var w1 := OnEvents(w, [KeyDown(Space)]);
    assert w1 == Struck(w);
    var w2 := OnEvents(w, es[..3][..2]);
    assert w2 == Struck(w1);
    var w3 := OnEvents(w, es[..3]);
    assert w3 == Struck(w2);
    assert OnEvents(w, es) == Struck(w3);
  }

  /** Against a dead NPC the attack key changes nothing at all. */
  lemma StrikeOnDeadIsNoOp(w: World)
    requires w.npc.state == Dead
    ensures OnEvent(w, KeyDown(Space)) == w
  {
  }

  /**
   * The sword-angle flag changes only three ways: a press against a living
   * NPC swings it to 90, a release lowers it to 0, and a replay rebuilds the
   * player with it at 0.
   */
  lemma SwordAngleFlag(w: World, e: Event)
    ensures var v := OnEvent(w, e);
      v.player.swordAngle != w.player.swordAngle ==>
        (e == KeyDown(Space) && w.npc.state != Dead && v.player.swordAngle == SwordSwung) ||
        (e == KeyUp(Space) && v.player.swordAngle == SwordRest) ||
        (IsReplayClick(e) && v == InitialWorld())
    ensures e == KeyDown(Space) && w.npc.state == Dead ==> OnEvent(w, e).player == w.player
  {
  }

  /**
   * Releasing the attack key lowers the sword to 0 and changes nothing else;
   * any other key, pressed or released, and any other event change nothing.
   */
  lemma KeyUpExactly(w: World, k: Key)
    ensures OnEvent(w, KeyUp(k)) == if k == Space then w.(player := w.player.(swordAngle := SwordRest)) else w
    ensures OnEvent(w, KeyDown(OtherKey)) == w
    ensures OnEvent(w, OtherEvent) == w
  {
  }

  /** The initial values that replay restores, written out. */
  lemma InitialValues()
    ensures InitialWorld().player == PlayerView(Rect(100, 300, 50, 100), Rect(0, 0, 30, 60), 0)
    ensures InitialWorld().npc == NpcView(Rect(600, 300, 50, 100), Patrolling, 1, 100, 0)
    ensures WorldInv(InitialWorld())
  {
  }

  /**
   * A mouse press replays exactly when it is the left button, the NPC is
   * Dead, and the point is inside the button at x in [340, 460), y in [20, 60).
   */
  lemma ReplayExactly(w: World, b: int, px: int, py: int)
    ensures OnEvent(w, MouseButtonDown(b, px, py)) ==
      if b == 1 && 340 <= px < 460 && 20 <= py < 60 && w.npc.state == Dead then InitialWorld() else w
  {
  }

  /** Events change the NPC's state only by a replay out of Dead. */
  lemma StateChangesOnlyByReplay(w: World, e: Event)
    ensures OnEvent(w, e).npc.state != w.npc.state ==>
      w.npc.state == Dead && IsReplayClick(e) && OnEvent(w, e) == InitialWorld()
  {
  }

  /**
   * Without a replay click, events only ever lower the NPC's health, and
   * leave its position, state, direction and cooldown as they were.
   */
  lemma {:induction false} EventsOnlyWound(w: World, es: seq<Event>)
    requires NoReplayClick(es)
    ensures OnEvents(w, es).npc == w.npc.(health := OnEvents(w, es).npc.health)
    ensures OnEvents(w, es).npc.health <= w.npc.health
    ensures w.npc.state == Dead ==> OnEvents(w, es).npc == w.npc
    decreases |es|
  {
    if es != [] {
      var init := es[..|es| - 1];
      assert NoReplayClick(init) by {
        forall i | 0 <= i < |init| ensures !IsReplayClick(init[i]) {
          assert init[i] == es[i];
        }
      }
      EventsOnlyWound(w, init);
      assert !IsReplayClick(es[|es| - 1]);
    }
  }

  /** After every tick the sword sits centred at (x + 50, y + 40) of the player. */
  lemma SwordFollowsPlayer(w: World, input: Input)
    ensures CenterX(Step(w, input).player.sword) == Step(w, input).player.rect.x + SwordOffsetX
    ensures CenterY(Step(w, input).player.sword) == Step(w, input).player.rect.y + SwordOffsetY
  {
  }

  /** Dead is absorbing: until a replay click, a dead NPC stays exactly as it is. */
  lemma {:induction false} DeadStaysDead(w: World, inputs: seq<Input>)
    requires WorldInv(w) && w.npc.state == Dead
    requires NoReplayDuring(inputs)
    ensures Run(w, inputs).npc == w.npc
    decreases |inputs|
  {
    if inputs != [] {
      EventsOnlyWound(w, inputs[0].events);
      var next := Step(w, inputs[0]);
      assert next.npc == w.npc;
      assert NoReplayDuring(inputs[1..]) by {
        forall i | 0 <= i < |inputs[1..]| ensures NoReplayClick(inputs[1..][i].events) {
          assert inputs[1..][i] == inputs[i + 1];
        }
      }
      DeadStaysDead(next, inputs[1..]);
    }
  }

  /** Any run keeps the invariant; in particular the cooldown stays within [0, 60]. */
  lemma {:induction false} RunPreservesInv(w: World, inputs: seq<Input>)
    requires WorldInv(w)
    ensures WorldInv(Run(w, inputs))
    ensures 0 <= Run(w, inputs).npc.cooldown <= AttackCooldown
    ensures Run(w, inputs).npc.patrolDir == 1 || Run(w, inputs).npc.patrolDir == -1
    decreases |inputs|
  {
    if inputs != [] {
      StepPreservesInv(w, inputs[0]);
      RunPreservesInv(Step(w, inputs[0]), inputs[1..]);
    }
  }

  /** Every state reachable from the start keeps the invariant. */
  lemma ReachableInv(inputs: seq<Input>)
    ensures WorldInv(Run(InitialWorld(), inputs))
  {
    RunPreservesInv(InitialWorld(), inputs);
  }

  /**
   * With c ticks of cooldown left and no replay, none of the next c ticks
   * fires an attack, whatever the player does.
   */
  lemma {:induction false} QuietWhileCooling(w: World, inputs: seq<Input>)
    requires |inputs| <= w.npc.cooldown
    requires NoReplayDuring(inputs)
    ensures NoFireDuring(w, inputs)
    decreases |inputs|
  {
    if inputs != [] {
      EventsOnlyWound(w, inputs[0].events);
      var a := AfterInput(w, inputs[0]);
      assert a.npc.cooldown == w.npc.cooldown;
      var next := Step(w, inputs[0]);
      assert next.npc.cooldown >= w.npc.cooldown - 1;
      assert NoReplayDuring(inputs[1..]) by {
        forall i | 0 <= i < |inputs[1..]| ensures NoReplayClick(inputs[1..][i].events) {
          assert inputs[1..][i] == inputs[i + 1];
        }
      }
      QuietWhileCooling(next, inputs[1..]);
    }
  }

  /** After a tick that fires, the next 60 ticks without replay fire no attack. */
  lemma QuietAfterAttack(w: World, input: Input, inputs: seq<Input>)
    requires StepFires(w, input)
    requires |inputs| <= AttackCooldown && NoReplayDuring(inputs)
    ensures NoFireDuring(Step(w, input), inputs)
  {
    QuietWhileCooling(Step(w, input), inputs);
  }
}
