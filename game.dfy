/**
 * The game loop's core: the input events of one tick (sword key presses and
 * releases, replay clicks), the combat they resolve, the replay that rebuilds
 * both entities, and the per-tick order events -> move -> sword -> NPC update.
 */
module GameLoop {
  import opened Geometry
  import opened PlayerEntity
  import opened NpcController

  const Width := 800
  const SwordDamage := 25
  /** The replay button, `Rect(Width / 2 - 60, 20, 120, 40)`. */
  const ReplayButton := Rect(Width / 2 - 60, 20, 120, 40)

  /** The keys whose press and release edges matter: the attack key and all others. */
  datatype Key = Space | OtherKey

  /** An input event of one tick (closing the window is not modelled). */
  datatype Event =
    | KeyDown(key: Key)
    | KeyUp(key: Key)
    | MouseButtonDown(button: int, px: int, py: int)
    | OtherEvent

  /** What one tick reads: the held arrow keys and the queued events, in order. */
  datatype Input = Input(keys: Keys, events: seq<Event>)

  /** Both entities, as the loop holds them. */
  datatype World = World(player: PlayerView, npc: NpcView)

  function InitialWorld(): World
  {
    World(InitialPlayer(), InitialNpc())
  }

  /**
   * The attack key goes down: against a living NPC, a sword overlapping the
   * NPC takes 25 health, and the sword swings either way; against a dead NPC
   * nothing changes. The NPC's state is never touched here.
   */
  function Struck(w: World): (v: World)
    ensures v.npc.health ==
      if w.npc.state != Dead && Overlaps(w.player.sword, w.npc.rect) then w.npc.health - SwordDamage
      else w.npc.health
    ensures v.npc == w.npc.(health := v.npc.health)
    ensures v.player == if w.npc.state != Dead then w.player.(swordAngle := SwordSwung) else w.player
  {
    if w.npc.state != Dead then
      var npc := if Overlaps(w.player.sword, w.npc.rect) then w.npc.(health := w.npc.health - SwordDamage) else w.npc;
      World(w.player.(swordAngle := SwordSwung), npc)
    else
      w
  }

  /** A left click inside the replay button. */
  predicate IsReplayClick(e: Event)
  {
    e.MouseButtonDown? && e.button == 1 && ContainsPoint(ReplayButton, e.px, e.py)
  }

  /** One event, as the body of the event loop handles it. */
  function OnEvent(w: World, e: Event): World
  {
    match e
    case KeyDown(k) => if k == Space then Struck(w) else w
    case KeyUp(k) => if k == Space then w.(player := w.player.(swordAngle := SwordRest)) else w
    case MouseButtonDown(b, px, py) =>
      if b == 1 && ContainsPoint(ReplayButton, px, py) && w.npc.state == Dead then InitialWorld() else w
    case OtherEvent => w
  }

  /** The queued events of a tick, handled in order. */
  function OnEvents(w: World, es: seq<Event>): World
    decreases |es|
  {
    if es == [] then w else OnEvent(OnEvents(w, es[..|es| - 1]), es[|es| - 1])
  }

  /** The world after the events, the movement and the sword placement of a tick. */
  function AfterInput(w: World, input: Input): World
  {
    var v := OnEvents(w, input.events);
    v.(player := SwordPlaced(Moved(v.player, input.keys)))
  }

  /** One whole tick: events, `move`, `update_sword`, then the NPC's `update`. */
  function Step(w: World, input: Input): World
  {
    var a := AfterInput(w, input);
    a.(npc := Updated(a.npc, a.player.rect))
  }

  /** The tick's NPC update fires an attack. */
  predicate StepFires(w: World, input: Input)
  {
    var a := AfterInput(w, input);
    Fires(a.npc, a.player.rect)
  }

  predicate WorldInv(w: World)
  {
    NpcInv(w.npc)
  }

  lemma OnEventPreservesInv(w: World, e: Event)
    requires WorldInv(w)
    ensures WorldInv(OnEvent(w, e))
  {
  }

  lemma {:induction false} OnEventsPreservesInv(w: World, es: seq<Event>)
    requires WorldInv(w)
    ensures WorldInv(OnEvents(w, es))
    decreases |es|
  {
    if es != [] {
      OnEventsPreservesInv(w, es[..|es| - 1]);
      OnEventPreservesInv(OnEvents(w, es[..|es| - 1]), es[|es| - 1]);
    }
  }

  /** Every tick keeps the invariant: unit patrol direction, cooldown in [0, 60], Dead only without health. */
  lemma StepPreservesInv(w: World, input: Input)
    requires WorldInv(w)
    ensures WorldInv(Step(w, input))
  {
    OnEventsPreservesInv(w, input.events);
    var a := AfterInput(w, input);
    assert NpcInv(a.npc);
    assert NpcInv(Updated(a.npc, a.player.rect));
  }

  /** The loop of `main`, holding the two entities and replacing them on replay. */
  class Game {
    var player: Player
    var npc: NPC

    function View(): World
      reads this, player, npc
    {
      World(player.View(), npc.View())
    }

    ghost predicate Valid()
      reads this, player, npc
    {
      WorldInv(View())
    }

    constructor ()
      ensures View() == InitialWorld() && Valid()
    {
      player := new Player();
      npc := new NPC();
    }

    /** The attack-key branch: damage on overlap and the sword swing, both only against a living NPC. */
    method Strike()
      requires Valid()
      modifies player, npc
      ensures Valid()
      ensures View() == Struck(old(View()))
    {
      if npc.state != Dead {
        if Overlaps(player.swordRect, npc.rect) {
          npc.health := npc.health - SwordDamage;
        }
        player.swordAngle := SwordSwung;
      }
    }

    /** The body of the event loop for one event. */
    method ProcessEvent(e: Event)
      requires Valid()
      modifies this, player, npc
      ensures Valid()
      ensures View() == OnEvent(old(View()), e)
      ensures player == old(player) || fresh(player)
      ensures npc == old(npc) || fresh(npc)
    {
      match e
      case KeyDown(k) =>
        if k == Space {
          Strike();
        }
      case KeyUp(k) =>
        if k == Space {
          player.swordAngle := SwordRest;
        }
      case MouseButtonDown(b, px, py) =>
        if b == 1 {
          var buttonRect := ReplayButton;
          if ContainsPoint(buttonRect, px, py) {
            if npc.state == Dead {
              player := new Player();
              npc := new NPC();
            }
          }
        }
      case OtherEvent =>
    }

    /** One tick of the loop; `fired` reports the NPC's attack message. */
    method Tick(input: Input) returns (fired: bool)
      requires Valid()
      modifies this, player, npc
      ensures Valid()
      ensures View() == Step(old(View()), input)
      ensures fired == StepFires(old(View()), input)
    {
      var i := 0;
      while i < |input.events|
        invariant 0 <= i <= |input.events|
        invariant player == old(player) || fresh(player)
        invariant npc == old(npc) || fresh(npc)
        invariant View() == OnEvents(old(View()), input.events[..i])
        invariant Valid()
      {
        assert input.events[..i + 1][..i] == input.events[..i];
        ProcessEvent(input.events[i]);
        i := i + 1;
      }
      assert input.events[..i] == input.events;
      player.Move(input.keys);
      player.UpdateSword();
      fired := npc.Update(player);
    }
  }
}
