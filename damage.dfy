/**
 * The IDamageable / IDamageDealer contract of the game. A damage dealer does not
 * change its target itself: it calls the target's TakeDamage once per hit; the
 * model records each such call as a Delivery.
 */
module Damage {

  /** The damageable entities of the game. */
  datatype Target = PlayerTarget | EnemyTarget(enemy: nat) | WallTarget(wall: nat)

  /** One call `target.TakeDamage(amount)`. */
  datatype Delivery = Delivery(target: Target, amount: int)
}
