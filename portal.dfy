/**
 * An enemy portal (Portal.cs): a countdown that, each time it expires, spawns
 * an enemy through the game manager if the manager is below its enemy cap,
 * and a closing flag that, once set, stops the portal for good.
 */
module Portals {

  import opened Geometry
  import opened Game

  class Portal {
    const spawnInterval: int
    /** The cell the portal stands on (its transform.position). */
    const position: Cell
    var spawnTimer: int
    var isClosing: bool
    /** How many times the closing routine has been started. */
    var closeRoutines: nat

    ghost predicate Valid()
      reads this
    {
      closeRoutines == (if isClosing then 1 else 0)
    }

    /** Instantiation followed by Start: the spawn timer is set to a full interval. */
    constructor Start(spawnInterval: int, position: Cell)
      ensures Valid()
      ensures this.spawnInterval == spawnInterval && this.position == position
      ensures spawnTimer == spawnInterval && !isClosing
    {
      this.spawnInterval := spawnInterval;
      this.position := position;
      spawnTimer := spawnInterval;
      isClosing := false;
      closeRoutines := 0;
    }

    /** CanSpawnEnemy: there is a game manager and it is below its enemy cap. */
    predicate CanSpawnEnemy(gm: GameManager?)
      reads gm
    {
      gm != null && |gm.activeEnemies| < gm.currentMaxEnemies
    }

    /**
     * Update, one frame of dt ticks: a closing portal does nothing. Otherwise
     * the timer runs down; on expiry an enemy is spawned only if the manager
     * is below its cap, and the timer is reset whether or not one was.
     * Starting at or under the cap, the manager stays at or under it.
     */
    method Update(dt: nat, gm: GameManager?) returns (spawned: bool)
      requires Valid()
      requires gm != null ==> gm.Valid()
      modifies this`spawnTimer, Managed(gm)`activeEnemies, Managed(gm)`nextHandle, Managed(gm)`events
      ensures Valid() && isClosing == old(isClosing)
      ensures gm != null ==> gm.Valid()
      ensures old(isClosing) ==> spawnTimer == old(spawnTimer)
      ensures !old(isClosing) ==> spawnTimer == if old(spawnTimer) - dt <= 0 then spawnInterval else old(spawnTimer) - dt
      ensures spawned == (!old(isClosing) && old(spawnTimer) - dt <= 0 && old(CanSpawnEnemy(gm)))
      ensures !spawned && gm != null ==> unchanged(gm)
      ensures spawned ==> gm != null && gm.currentMaxEnemies == old(gm.currentMaxEnemies)
                          && gm.totalEnemiesKilled == old(gm.totalEnemiesKilled)
      ensures spawned && gm != null && gm.enemyPrefabCount > 0 ==>
                gm.activeEnemies == old(gm.activeEnemies) + [old(gm.nextHandle)] && gm.nextHandle == old(gm.nextHandle) + 1
      ensures spawned && gm != null && gm.enemyPrefabCount > 0 ==>
                gm.events == old(gm.events) + [EnemiesCountChanged(|gm.activeEnemies|)]
      ensures spawned && gm != null && gm.enemyPrefabCount == 0 ==>
                unchanged(gm)
      ensures gm != null && old(|gm.activeEnemies|) <= gm.currentMaxEnemies ==>
                |gm.activeEnemies| <= gm.currentMaxEnemies
    {
      spawned := false;
      if isClosing {
        return;
      }
      spawnTimer := spawnTimer - dt;
      if spawnTimer <= 0 {
        if CanSpawnEnemy(gm) {
          SpawnEnemy(gm);
          spawned := true;
        }
        spawnTimer := spawnInterval;
      }
    }

    /** ClosePortal: the first call sets the flag and starts the closing routine; later calls do nothing. */
    method ClosePortal()
      requires Valid()
      modifies this`isClosing, this`closeRoutines
      ensures Valid() && isClosing
      ensures old(isClosing) ==> closeRoutines == old(closeRoutines)
    {
      if isClosing {
        return;
      }
      isClosing := true;
      closeRoutines := closeRoutines + 1;
    }

    /** SpawnEnemy: asks the manager for an enemy at the portal. */
    method SpawnEnemy(gm: GameManager)
      requires gm.Valid()
      modifies gm`activeEnemies, gm`nextHandle, gm`events
      ensures gm.Valid()
      ensures gm.enemyPrefabCount == 0 ==> unchanged(gm)
      ensures gm.enemyPrefabCount > 0 ==>
                gm.activeEnemies == old(gm.activeEnemies) + [old(gm.nextHandle)] && gm.nextHandle == old(gm.nextHandle) + 1
                && gm.events == old(gm.events) + [EnemiesCountChanged(|gm.activeEnemies|)]
    {
      gm.SpawnEnemyAtPosition();
    }
  }

  /** Closing is idempotent: two calls leave the portal as one call does. */
  method CloseTwice(p: Portal)
    requires p.Valid()
    modifies p
    ensures p.Valid() && p.isClosing && p.closeRoutines == 1
  {
    p.ClosePortal();
    p.ClosePortal();
  }
}
