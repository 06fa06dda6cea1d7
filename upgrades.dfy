/**
 * The player's upgrade state (PlayerUpgradeManager.cs): bomb capacity and
 * explosion range, both starting at 1 and only ever raised by one, each
 * change announced with an integer payload; and the pickups that raise them.
 */
module Upgrades {

  /** The three pickups: bomb count, bomb range and move speed. */
  datatype PickupKind = BombCountPickup | RangePickup | SpeedPickup

  /** The integer counters of the upgrade state. */
  datatype Counters = Counters(bombCount: int, explosionRange: int)

  /** What one pickup does to the counters. */
  function AfterPickup(c: Counters, p: PickupKind): Counters
  {
    match p
    case BombCountPickup => c.(bombCount := c.bombCount + 1)
    case RangePickup => c.(explosionRange := c.explosionRange + 1)
    case SpeedPickup => c
  }

  /** The counters after a sequence of pickups, taken in order. */
  function AfterPickups(c: Counters, ps: seq<PickupKind>): Counters
    decreases ps
  {
    if ps == [] then c else AfterPickups(AfterPickup(c, ps[0]), ps[1..])
  }

  /** How many of the pickups are of kind k. */
  function CountOf(ps: seq<PickupKind>, k: PickupKind): nat
  {
    if ps == [] then 0 else (if ps[0] == k then 1 else 0) + CountOf(ps[1..], k)
  }

  /**
   * After any sequence of pickups, the bomb count has gone up by the number
   * of bomb-count pickups and the range by the number of range pickups;
   * speed pickups change neither, and neither counter ever goes down.
   */
  lemma {:induction false} PickupsCount(c: Counters, ps: seq<PickupKind>)
    ensures AfterPickups(c, ps).bombCount == c.bombCount + CountOf(ps, BombCountPickup)
    ensures AfterPickups(c, ps).explosionRange == c.explosionRange + CountOf(ps, RangePickup)
    ensures AfterPickups(c, ps).bombCount >= c.bombCount && AfterPickups(c, ps).explosionRange >= c.explosionRange
    decreases ps
  {
    if ps != [] {
      PickupsCount(AfterPickup(c, ps[0]), ps[1..]);
    }
  }

  class PlayerUpgradeManager {
    var bombCount: int
    var explosionRange: int
    /** The OnPlayerUpgrade payloads fired so far, in order. */
    var notifications: seq<int>

    ghost predicate Valid()
      reads this
    {
      bombCount >= 1 && explosionRange >= 1
    }

    function State(): Counters
      reads this
    {
      Counters(bombCount, explosionRange)
    }

    /** Both counters start at 1. */
    constructor ()
      ensures Valid() && bombCount == 1 && explosionRange == 1 && notifications == []
    {
      bombCount := 1;
      explosionRange := 1;
      notifications := [];
    }

    /** AddBombCount: one more bomb, range unchanged, announced with the new bomb count. */
    method AddBombCount()
      requires Valid()
      modifies this
      ensures Valid()
      ensures bombCount == old(bombCount) + 1 && explosionRange == old(explosionRange)
      ensures notifications == old(notifications) + [bombCount]
    {
      bombCount := bombCount + 1;
      notifications := notifications + [bombCount];
    }

    /** AddRange: one more range, bomb count unchanged, announced with the new range. */
    method AddRange()
      requires Valid()
      modifies this
      ensures Valid()
      ensures explosionRange == old(explosionRange) + 1 && bombCount == old(bombCount)
      ensures notifications == old(notifications) + [explosionRange]
    {
      explosionRange := explosionRange + 1;
      notifications := notifications + [explosionRange];
    }

    /** AddSpeedBoost: the integer counters are unchanged; the announcement carries the range, not the speed. */
    method AddSpeedBoost()
      requires Valid()
      modifies this
      ensures Valid()
      ensures State() == old(State())
      ensures notifications == old(notifications) + [explosionRange]
    {
      notifications := notifications + [explosionRange];
    }

    /** A pickup's OnPickup: its one increment, called once, announced with the bomb count after a bomb pickup and with the range otherwise. */
    method OnPickup(p: PickupKind)
      requires Valid()
      modifies this
      ensures Valid()
      ensures State() == AfterPickup(old(State()), p)
      ensures notifications == old(notifications) + [if p == BombCountPickup then bombCount else explosionRange]
    {
      match p {
        case BombCountPickup => AddBombCount();
        case RangePickup => AddRange();
        case SpeedPickup => AddSpeedBoost();
      }
    }
  }
}
