/**
 * The player (PlayerControler.cs): health with an invincibility guard, a
 * count of bombs on the field bounded by the upgrade manager's bomb capacity,
 * the heart display refreshed every physics step, and the facing sprite
 * chosen from the velocity.
 */
module Player {

  import opened Wrappers
  import opened Upgrades

  /** The notifications the player fires. */
  datatype PlayerEvent = HealthChanged(health: int) | PlayerDeath | BombCountChanged(current: int, max: int)

  datatype HeartSprite = FullHeart | EmptyHeart

  /** One heart image of the UI: its sprite and whether it is shown. */
  datatype HeartImage = HeartImage(sprite: HeartSprite, enabled: bool)

  /** The four directional sprites. */
  datatype Facing = FacingUp | FacingDown | FacingLeft | FacingRight

  /** UpdateSpriteDirection: vertical velocity first, then horizontal; at rest the sprite is kept. */
  function FacingFor(vx: real, vy: real, current: Facing): Facing
  {
    if vy > 0.0 then FacingUp
    else if vy < 0.0 then FacingDown
    else if vx < 0.0 then FacingLeft
    else if vx > 0.0 then FacingRight
    else current
  }

  /**
   * Vertical motion decides the sprite whatever the horizontal motion and
   * the previous sprite; horizontal motion decides it only when there is no
   * vertical motion; a player at rest keeps the sprite it had.
   */
  lemma FacingPriority(vx: real, vy: real, wx: real, current: Facing, other: Facing)
    ensures vy != 0.0 ==> FacingFor(vx, vy, current) == FacingFor(wx, vy, other)
    ensures vy != 0.0 ==> (FacingFor(vx, vy, current) == FacingUp <==> vy > 0.0)
    ensures vy == 0.0 && vx != 0.0 ==> FacingFor(vx, vy, current) == (if vx < 0.0 then FacingLeft else FacingRight)
    ensures vx == 0.0 && vy == 0.0 ==> FacingFor(vx, vy, current) == current
  {
  }

  class PlayerController {
    const maxHealth: int
    var currentHealth: int
    var isInvincible: bool
    var currentBombs: int
    var canPlaceBomb: bool
    /** The player's game object is active (Die deactivates it). */
    var active: bool
    /** Bombs placed whose explosion callback has not yet fired. */
    var pendingBombs: set<nat>
    var nextBomb: nat
    /** The notifications fired so far, in order. */
    var events: seq<PlayerEvent>

    ghost predicate Valid()
      reads this
    {
      && currentBombs == |pendingBombs|
      && (forall b :: b in pendingBombs ==> b < nextBomb)
    }

    /** Start: full health, no bombs out, and the bomb count announced. */
    constructor Start(maxHealth: int, upgrades: PlayerUpgradeManager)
      ensures Valid()
      ensures this.maxHealth == maxHealth && currentHealth == maxHealth
      ensures currentBombs == 0 && !isInvincible && canPlaceBomb && active
      ensures events == [BombCountChanged(0, upgrades.bombCount)]
    {
      this.maxHealth := maxHealth;
      currentHealth := maxHealth;
      isInvincible := false;
      currentBombs := 0;
      canPlaceBomb := true;
      active := true;
      pendingBombs := {};
      nextBomb := 0;
      events := [BombCountChanged(0, upgrades.bombCount)];
    }

    /**
     * OnPlaceBomb: a bomb is placed only on a performed input, while placing
     * is allowed, below the bomb capacity, and on a clear cell; otherwise
     * nothing changes. Starting at or below the capacity, the player stays at
     * or below it.
     */
    method OnPlaceBomb(performed: bool, upgrades: PlayerUpgradeManager, positionClear: bool) returns (placed: Option<nat>)
      requires Valid()
      modifies this`pendingBombs, this`nextBomb, this`currentBombs, this`events
      ensures Valid()
      ensures placed.Some? <==> performed && old(canPlaceBomb) && old(currentBombs) < upgrades.bombCount && positionClear
      ensures placed.None? ==> unchanged(this)
      ensures placed.Some? ==>
                && currentBombs == old(currentBombs) + 1
                && placed.value !in old(pendingBombs) && pendingBombs == old(pendingBombs) + {placed.value}
                && events == old(events) + [BombCountChanged(currentBombs, upgrades.bombCount)]
                && currentHealth == old(currentHealth) && active == old(active)
      ensures old(currentBombs) <= upgrades.bombCount ==> currentBombs <= upgrades.bombCount
    {
      placed := None;
      if performed && canPlaceBomb && currentBombs < upgrades.bombCount {
        placed := TryPlaceBomb(upgrades, positionClear);
      }
    }

    /** TryPlaceBomb: an occupied cell aborts with no change. */
    method TryPlaceBomb(upgrades: PlayerUpgradeManager, positionClear: bool) returns (placed: Option<nat>)
      requires Valid()
      modifies this`pendingBombs, this`nextBomb, this`currentBombs, this`events
      ensures Valid()
      ensures placed.Some? <==> positionClear
      ensures placed.None? ==> unchanged(this)
      ensures placed.Some? ==>
                && currentBombs == old(currentBombs) + 1
                && placed.value !in old(pendingBombs) && pendingBombs == old(pendingBombs) + {placed.value}
                && events == old(events) + [BombCountChanged(currentBombs, upgrades.bombCount)]
                && currentHealth == old(currentHealth) && active == old(active)
                && canPlaceBomb == old(canPlaceBomb)
    {
      if !positionClear {
        return None;
      }
      var bomb := PlaceBomb(upgrades);
      placed := Some(bomb);
    }

    /** PlaceBomb: a new bomb is out (its explosion callback registered) and the count goes up by one. */
    method PlaceBomb(upgrades: PlayerUpgradeManager) returns (bomb: nat)
      requires Valid()
      modifies this`pendingBombs, this`nextBomb, this`currentBombs, this`events
      ensures Valid()
      ensures bomb !in old(pendingBombs) && pendingBombs == old(pendingBombs) + {bomb}
      ensures currentBombs == old(currentBombs) + 1
      ensures events == old(events) + [BombCountChanged(currentBombs, upgrades.bombCount)]
    {
      bomb := nextBomb;
      nextBomb := nextBomb + 1;
      pendingBombs := pendingBombs + {bomb};
      currentBombs := currentBombs + 1;
      events := events + [BombCountChanged(currentBombs, upgrades.bombCount)];
    }

    /** The OnExploded callback of a placed bomb: one bomb fewer on the field. */
    method OnBombExploded(bomb: nat, upgrades: PlayerUpgradeManager)
      requires Valid()
      requires bomb in pendingBombs
      modifies this`pendingBombs, this`currentBombs, this`events
      ensures Valid()
      ensures pendingBombs == old(pendingBombs) - {bomb}
      ensures currentBombs == old(currentBombs) - 1
      ensures events == old(events) + [BombCountChanged(currentBombs, upgrades.bombCount)]
    {
      pendingBombs := pendingBombs - {bomb};
      currentBombs := currentBombs - 1;
      events := events + [BombCountChanged(currentBombs, upgrades.bombCount)];
    }

    /**
     * TakeDamage: while invincible nothing changes; otherwise health drops by
     * exactly the damage and the player dies exactly when it is then at or below 0.
     */
    method TakeDamage(damage: int) returns (died: bool)
      modifies this`currentHealth, this`events, this`active
      ensures old(isInvincible) ==> !died && currentHealth == old(currentHealth)
                                    && events == old(events) && active == old(active)
      ensures !old(isInvincible) ==> currentHealth == old(currentHealth) - damage && (died <==> currentHealth <= 0)
      ensures !old(isInvincible) && !died ==> events == old(events) + [HealthChanged(currentHealth)] && active == old(active)
      ensures !old(isInvincible) && died ==> events == old(events) + [HealthChanged(currentHealth), PlayerDeath] && !active
    {
      died := false;
      if !isInvincible {
        currentHealth := currentHealth - damage;
        events := events + [HealthChanged(currentHealth)];
        if currentHealth <= 0 {
          Die();
          died := true;
        }
      }
    }

    /** Die: the death is announced and the player's object deactivated. */
    method Die()
      modifies this`events, this`active
      ensures events == old(events) + [PlayerDeath] && !active
    {
      events := events + [PlayerDeath];
      active := false;
    }

    /**
     * The heart loop of FixedUpdate: heart i shows a full heart exactly when
     * i < health and is enabled exactly when i < maxHealth (the second
     * assignment to `enabled` overrides the first).
     */
    method RefreshHearts(hearts: array<HeartImage>)
      modifies hearts
      ensures forall i :: 0 <= i < hearts.Length ==>
                hearts[i] == HeartImage(if i < currentHealth then FullHeart else EmptyHeart, i < maxHealth)
    {
      for i := 0 to hearts.Length
        invariant forall j :: 0 <= j < i ==>
                    hearts[j] == HeartImage(if j < currentHealth then FullHeart else EmptyHeart, j < maxHealth)
      {
        if i < currentHealth {
          hearts[i] := hearts[i].(sprite := FullHeart);
        } else {
          hearts[i] := hearts[i].(sprite := EmptyHeart);
        }
        hearts[i] := hearts[i].(enabled := i < maxHealth);
        if i < maxHealth {
          hearts[i] := hearts[i].(enabled := true);
        } else {
          hearts[i] := hearts[i].(enabled := false);
        }
      }
    }
  }
}
