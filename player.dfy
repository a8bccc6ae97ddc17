/**
 * The player: a 50 by 100 sprite moved by the four arrow keys at 5 pixels per
 * key per tick, carrying a 30 by 60 sword hitbox whose centre is placed beside
 * the player once per tick.
 */
module PlayerEntity {
  import opened Geometry

  const PlayerWidth := 50
  const PlayerHeight := 100
  const SwordWidth := 30
  const SwordHeight := 60
  const PlayerSpeed := 5
  /** Offset from the player's top-left corner to the sword's centre. */
  const SwordOffsetX := 50
  const SwordOffsetY := 40
  /** The two values of the presentation-only sword-angle flag. */
  const SwordRest := 0
  const SwordSwung := 90

  /** The arrow keys held during one tick. */
  datatype Keys = Keys(left: bool, right: bool, up: bool, down: bool)

  /** The player's state as a value: sprite rectangle, sword rectangle, sword angle. */
  datatype PlayerView = PlayerView(rect: Rect, sword: Rect, swordAngle: int)

  /** A fresh player: at (100, 300), sword at the image's origin until first placed. */
  function InitialPlayer(): PlayerView
  {
    PlayerView(Rect(100, 300, PlayerWidth, PlayerHeight), Rect(0, 0, SwordWidth, SwordHeight), SwordRest)
  }

  function Bit(b: bool): int
  {
    if b then 1 else 0
  }

  /**
   * One tick of movement: the keys are tested one after another, each adding
   * or subtracting the speed on its own axis.
   */
  function Moved(p: PlayerView, keys: Keys): (q: PlayerView)
    ensures q.rect.x == p.rect.x + PlayerSpeed * (Bit(keys.right) - Bit(keys.left))
    ensures q.rect.y == p.rect.y + PlayerSpeed * (Bit(keys.down) - Bit(keys.up))
    ensures q.rect.w == p.rect.w && q.rect.h == p.rect.h
    ensures q.sword == p.sword && q.swordAngle == p.swordAngle
  {
    var r0 := p.rect;
    var r1 := if keys.left then r0.(x := r0.x - PlayerSpeed) else r0;
    var r2 := if keys.right then r1.(x := r1.x + PlayerSpeed) else r1;
    var r3 := if keys.up then r2.(y := r2.y - PlayerSpeed) else r2;
    var r4 := if keys.down then r3.(y := r3.y + PlayerSpeed) else r3;
    p.(rect := r4)
  }

  /** The sword is re-centred at (x + 50, y + 40); nothing else changes. */
  function SwordPlaced(p: PlayerView): (q: PlayerView)
    ensures CenterX(q.sword) == q.rect.x + SwordOffsetX
    ensures CenterY(q.sword) == q.rect.y + SwordOffsetY
    ensures q.sword.w == p.sword.w && q.sword.h == p.sword.h
    ensures q.rect == p.rect && q.swordAngle == p.swordAngle
  {
    p.(sword := WithCenter(p.sword, p.rect.x + SwordOffsetX, p.rect.y + SwordOffsetY))
  }

  /** Holding both keys of an axis leaves that coordinate where it was. */
  lemma OppositeKeysCancel(p: PlayerView, keys: Keys)
    requires keys.left == keys.right && keys.up == keys.down
    ensures Moved(p, keys).rect == p.rect
  {
  }

  /** With the sword at its own size, placing it fixes its corner at (x + 35, y + 10). */
  lemma SwordCorner(p: PlayerView)
    requires p.sword.w == SwordWidth && p.sword.h == SwordHeight
    ensures SwordPlaced(p).sword == Rect(p.rect.x + 35, p.rect.y + 10, SwordWidth, SwordHeight)
  {
  }

  /** The player entity, whose rectangles and sword angle change in place. */
  class Player {
    var rect: Rect
    var swordRect: Rect
    var swordAngle: int
    const speed: int := PlayerSpeed

    function View(): PlayerView
      reads this
    {
      PlayerView(rect, swordRect, swordAngle)
    }

    constructor ()
      ensures View() == InitialPlayer()
    {
      // The image's rectangle, then moved to (100, 300).
      var r := Rect(0, 0, PlayerWidth, PlayerHeight);
      r := r.(x := 100);
      r := r.(y := 300);
      rect := r;
      swordAngle := SwordRest;
      swordRect := Rect(0, 0, SwordWidth, SwordHeight);
    }

    method Move(keys: Keys)
      modifies this
      ensures View() == Moved(old(View()), keys)
    {
      if keys.left {
        rect := rect.(x := rect.x - speed);
      }
      if keys.right {
        rect := rect.(x := rect.x + speed);
      }
      if keys.up {
        rect := rect.(y := rect.y - speed);
      }
      if keys.down {
        rect := rect.(y := rect.y + speed);
      }
    }

    method UpdateSword()
      modifies this
      ensures View() == SwordPlaced(old(View()))
    {
      swordRect := WithCenter(swordRect, rect.x + SwordOffsetX, rect.y + SwordOffsetY);
    }
  }
}
