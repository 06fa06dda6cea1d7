/**
 * The wave and spawn director (GameManager.cs). It owns the wave number, the
 * enemy cap that grows with every wave, the portal cap that grows on even
 * waves up to 4, the lists of live enemies and portals, and the kill count.
 * Time is counted in ticks; each randomised search draws its candidate cells
 * from a given sequence; the obstacle layer is a predicate on cells.
 */
module Game {

  import opened Wrappers
  import opened Geometry
  import opened Collections
  import opened UnityVector

  /** The notifications the manager fires. */
  datatype GameEvent = WaveChanged(wave: int) | EnemiesCountChanged(count: int) | TotalKillsChanged(kills: int)

  /** A live portal: its instance handle and the cell it was placed on. */
  datatype PortalEntry = PortalEntry(id: nat, pos: Cell)

  /** The wave settings: startMaxEnemies, enemiesIncreasePerWave and waveDuration (in ticks). */
  datatype WaveConfig = WaveConfig(startMaxEnemies: int, enemiesIncreasePerWave: int, waveDuration: int)

  /** The wave part of the manager's state. */
  datatype WaveState = WaveState(wave: int, maxEnemies: int, maxPortals: int, timer: int)

  /** How many random cells a search tries before giving up. */
  const MaxAttempts: nat := 20

  /** The highest portal cap that wave escalation raises maxPortals to. */
  const PortalCapCeiling: int := 4

  function Max(a: int, b: int): int
  {
    if a >= b then a else b
  }

  /** C#'s `a / 2` on int, which truncates toward zero (Dafny's `/` rounds toward negative infinity). */
  function TruncDiv2(a: int): int
  {
    if a >= 0 then a / 2 else -((-a) / 2)
  }

  /**
   * The game area spans `-w/2 .. w/2` with C# division: its bounds are
   * symmetric around 0, and for a non-negative size it has w cells when w
   * is odd and w + 1 when w is even.
   */
  lemma AreaBounds(w: int)
    ensures TruncDiv2(-w) == -TruncDiv2(w)
    ensures w >= 0 ==> TruncDiv2(w) - TruncDiv2(-w) + 1 == (if w % 2 == 1 then w else w + 1)
  {
  }

  /** NextWave on the wave state. */
  function NextWaveState(cfg: WaveConfig, s: WaveState): WaveState
  {
    var wave := s.wave + 1;
    WaveState(wave,
              cfg.startMaxEnemies + (wave - 1) * cfg.enemiesIncreasePerWave,
              if wave % 2 == 0 && s.maxPortals < PortalCapCeiling then s.maxPortals + 1 else s.maxPortals,
              cfg.waveDuration)
  }

  /** The wave state after n wave transitions. */
  function WavesAfter(cfg: WaveConfig, s: WaveState, n: nat): WaveState
    decreases n
  {
    if n == 0 then s else WavesAfter(cfg, NextWaveState(cfg, s), n - 1)
  }

  /** The wave state at Start, with the configured initial portal cap. */
  function FirstWave(cfg: WaveConfig, maxPortals: int): WaveState
  {
    WaveState(1, cfg.startMaxEnemies, maxPortals, cfg.waveDuration)
  }

  /**
   * After n transitions the wave number has gone up by n, the enemy cap is
   * that of the new wave, and the wave timer is a full wave duration.
   */
  lemma {:induction false} WaveEscalation(cfg: WaveConfig, s: WaveState, n: nat)
    ensures WavesAfter(cfg, s, n).wave == s.wave + n
    ensures n > 0 ==> WavesAfter(cfg, s, n).maxEnemies
                      == cfg.startMaxEnemies + (s.wave + n - 1) * cfg.enemiesIncreasePerWave
    ensures n > 0 ==> WavesAfter(cfg, s, n).timer == cfg.waveDuration
    decreases n
  {
    if n > 1 {
      WaveEscalation(cfg, NextWaveState(cfg, s), n - 1);
    }
  }

  /** From wave 1, n transitions give wave 1 + n and the cap startMaxEnemies + n * enemiesIncreasePerWave. */
  lemma EscalationFromFirstWave(cfg: WaveConfig, maxPortals: int, n: nat)
    ensures WavesAfter(cfg, FirstWave(cfg, maxPortals), n).wave == 1 + n
    ensures WavesAfter(cfg, FirstWave(cfg, maxPortals), n).maxEnemies
            == cfg.startMaxEnemies + n * cfg.enemiesIncreasePerWave
  {
    WaveEscalation(cfg, FirstWave(cfg, maxPortals), n);
  }

  /** A wave transition raises the portal cap by one exactly when the new wave is even and the cap is below 4. */
  lemma PortalCapStep(cfg: WaveConfig, s: WaveState)
    ensures var t := NextWaveState(cfg, s);
      && (t.maxPortals == s.maxPortals + 1 <==> (s.wave + 1) % 2 == 0 && s.maxPortals < PortalCapCeiling)
      && (t.maxPortals != s.maxPortals + 1 ==> t.maxPortals == s.maxPortals)
  {
  }

  /** The portal cap never decreases and never passes max(initial cap, 4). */
  lemma {:induction false} PortalCapBounded(cfg: WaveConfig, s: WaveState, n: nat)
    ensures s.maxPortals <= WavesAfter(cfg, s, n).maxPortals <= Max(s.maxPortals, PortalCapCeiling)
    decreases n
  {
    if n > 0 {
      var t := NextWaveState(cfg, s);
      PortalCapBounded(cfg, t, n - 1);
    }
  }

  /** Waves compose: m transitions then n more are m + n transitions. */
  lemma {:induction false} WavesCompose(cfg: WaveConfig, s: WaveState, m: nat, n: nat)
    ensures WavesAfter(cfg, WavesAfter(cfg, s, m), n) == WavesAfter(cfg, s, m + n)
    decreases m
  {
    if m > 0 {
      WavesCompose(cfg, NextWaveState(cfg, s), m - 1, n);
    }
  }

  /** The portal cap is monotone over time: a later wave never has a lower cap. */
  lemma PortalCapMonotone(cfg: WaveConfig, s: WaveState, m: nat, n: nat)
    requires m <= n
    ensures WavesAfter(cfg, s, m).maxPortals <= WavesAfter(cfg, s, n).maxPortals
  {
    WavesCompose(cfg, s, m, n - m);
    PortalCapBounded(cfg, WavesAfter(cfg, s, m), n - m);
  }

  /** The RemoveAll predicate for portals: the instance has been destroyed. */
  function PortalGone(destroyed: set<nat>): PortalEntry -> bool
  {
    (p: PortalEntry) => p.id in destroyed
  }

  /** The RemoveAll predicate for enemies: the instance has been destroyed. */
  function EnemyGone(destroyed: set<nat>): nat -> bool
  {
    (e: nat) => e in destroyed
  }

  /** The number of candidates a search looks at: the first 20 draws. */
  function Attempts(samples: seq<Cell>): nat
  {
    if |samples| < MaxAttempts then |samples| else MaxAttempts
  }

  /** The draws of the i-th search of SpawnInitialEnemies (none when the sequence runs out). */
  function DrawsAt(draws: seq<seq<Cell>>, i: int): seq<Cell>
  {
    if 0 <= i < |draws| then draws[i] else []
  }

  /** The handles first, first + 1, ..., first + n - 1: what n successive Instantiate calls hand out. */
  function Handles(first: nat, n: nat): (hs: seq<nat>)
    ensures |hs| == n
  {
    if n == 0 then [] else Handles(first, n - 1) + [first + n - 1]
  }

  /** The OnEnemiesCountChanged notifications of n successive spawns onto a list of `before` enemies. */
  function CountAnnouncements(before: nat, n: nat): seq<GameEvent>
  {
    if n == 0 then [] else CountAnnouncements(before, n - 1) + [EnemiesCountChanged(before + n)]
  }

  /** One more spawn extends the handles and the count announcements by one entry each. */
  lemma SpawnAppends(listed: seq<nat>, first: nat, log: seq<GameEvent>, n: nat, enemies: seq<nat>, evs: seq<GameEvent>)
    requires enemies == listed + Handles(first, n)
    requires evs == log + CountAnnouncements(|listed|, n)
    ensures |enemies + [first + n]| == |listed| + n + 1
    ensures enemies + [first + n] == listed + Handles(first, n + 1)
    ensures evs + [EnemiesCountChanged(|listed| + n + 1)] == log + CountAnnouncements(|listed|, n + 1)
  {
  }

  /** The n spawns' handles are fresh, distinct and in increasing order. */
  lemma {:induction false} HandlesFresh(first: nat, n: nat)
    ensures forall k :: 0 <= k < n ==> Handles(first, n)[k] == first + k
  {
    if n > 0 {
      HandlesFresh(first, n - 1);
      assert Handles(first, n) == Handles(first, n - 1) + [first + n - 1];
    }
  }

  /** Whether a listed portal is too close, as IsTooCloseToOtherPortal's foreach reaches its answer. */
  datatype Proximity = Clear | TooClose | MissingReference

  /** The verdict of FindPortalSpawnPosition on one candidate: taken, skipped, or an exception. */
  datatype Verdict = Accept | Reject | Abort

  /**
   * The outcome of FindPortalSpawnPosition: a cell, the not-found sentinel, or
   * the MissingReferenceException thrown out of the search.
   */
  datatype PortalSearch = Found(cell: Cell) | NotFound | Aborted

  /**
   * IsTooCloseToOtherPortal, walking the listed portals in order. `is not null`
   * is a reference test, so a portal destroyed since the last RemoveAll gets
   * through it and reading its transform throws; a live portal closer than 2
   * units ends the walk with true.
   */
  function PortalProximity(c: Cell, portals: seq<PortalEntry>, destroyed: set<nat>): Proximity
  {
    if portals == [] then Clear
    else if portals[0].id in destroyed then MissingReference
    else if CellDistSq(c, portals[0].pos) < 4 then TooClose
    else PortalProximity(c, portals[1..], destroyed)
  }

  /** The reference meaning of "too close to another portal": some listed portal is closer than 2 units. */
  predicate NearListedPortal(c: Cell, portals: seq<PortalEntry>)
  {
    exists k :: 0 <= k < |portals| && CellDistSq(c, portals[k].pos) < 4
  }

  /** Every listed portal is still alive. */
  predicate AllLive(portals: seq<PortalEntry>, destroyed: set<nat>)
  {
    forall k :: 0 <= k < |portals| ==> portals[k].id !in destroyed
  }

  /** The walk is Clear exactly when every listed portal is alive and at least 2 units away. */
  lemma {:induction false} ProximityClear(c: Cell, ps: seq<PortalEntry>, d: set<nat>)
    ensures PortalProximity(c, ps, d) == Clear <==>
              forall k :: 0 <= k < |ps| ==> ps[k].id !in d && CellDistSq(c, ps[k].pos) >= 4
  {
    if ps != [] {
      ProximityClear(c, ps[1..], d);
      assert forall k :: 0 < k < |ps| ==> ps[1..][k - 1] == ps[k];
    }
  }

  /** The walk throws exactly when it reaches a destroyed portal before any live portal that is too close. */
  lemma {:induction false} ProximityMissing(c: Cell, ps: seq<PortalEntry>, d: set<nat>)
    ensures PortalProximity(c, ps, d) == MissingReference <==>
              exists k :: 0 <= k < |ps| && ps[k].id in d
                          && forall j :: 0 <= j < k ==> ps[j].id !in d && CellDistSq(c, ps[j].pos) >= 4
  {
    if ps != [] && ps[0].id !in d && CellDistSq(c, ps[0].pos) >= 4 {
      var rest := ps[1..];
      ProximityMissing(c, rest, d);
      if PortalProximity(c, rest, d) == MissingReference {
        var k :| 0 <= k < |rest| && rest[k].id in d
                 && forall j :: 0 <= j < k ==> rest[j].id !in d && CellDistSq(c, rest[j].pos) >= 4;
        assert ps[k + 1].id in d;
        forall j | 0 <= j < k + 1 ensures ps[j].id !in d && CellDistSq(c, ps[j].pos) >= 4 {
          if j > 0 { assert ps[j] == rest[j - 1]; }
        }
      } else {
        forall k | 0 <= k < |ps| && ps[k].id in d
          ensures exists j :: 0 <= j < k && (ps[j].id in d || CellDistSq(c, ps[j].pos) < 4)
        {
          assert k > 0 && rest[k - 1].id in d;
          var j :| 0 <= j < k - 1 && (rest[j].id in d || CellDistSq(c, rest[j].pos) < 4);
          assert ps[j + 1] == rest[j];
        }
      }
    } else if ps != [] && ps[0].id in d {
      assert PortalProximity(c, ps, d) == MissingReference;
    }
  }

  /** With every portal alive the walk never throws, and says TooClose exactly when some portal is too close. */
  lemma {:induction false} ProximityLive(c: Cell, ps: seq<PortalEntry>, d: set<nat>)
    requires AllLive(ps, d)
    ensures PortalProximity(c, ps, d) != MissingReference
    ensures PortalProximity(c, ps, d) == TooClose <==> NearListedPortal(c, ps)
  {
    if ps != [] && CellDistSq(c, ps[0].pos) >= 4 {
      var rest := ps[1..];
      assert AllLive(rest, d) by {
        forall k | 0 <= k < |rest| ensures rest[k].id !in d { assert rest[k] == ps[k + 1]; }
      }
      ProximityLive(c, rest, d);
      if NearListedPortal(c, ps) {
        var k :| 0 <= k < |ps| && CellDistSq(c, ps[k].pos) < 4;
        assert rest[k - 1] == ps[k];
      }
      if NearListedPortal(c, rest) {
        var k :| 0 <= k < |rest| && CellDistSq(c, rest[k].pos) < 4;
        assert ps[k + 1] == rest[k];
      }
    } else if ps != [] {
      assert ps[0].id !in d;
      assert NearListedPortal(c, ps) by { assert CellDistSq(c, ps[0].pos) < 4; }
    }
  }

  /**
   * The walk is Clear exactly when every listed portal is alive and at least
   * 2 units away. It throws exactly when it reaches a destroyed portal before
   * any live portal that is too close. With every portal alive it never
   * throws, and it answers TooClose exactly when some portal is too close.
   */
  lemma PortalProximityScan(c: Cell, ps: seq<PortalEntry>, d: set<nat>)
    ensures PortalProximity(c, ps, d) == Clear <==>
              forall k :: 0 <= k < |ps| ==> ps[k].id !in d && CellDistSq(c, ps[k].pos) >= 4
    ensures PortalProximity(c, ps, d) == MissingReference <==>
              exists k :: 0 <= k < |ps| && ps[k].id in d
                          && forall j :: 0 <= j < k ==> ps[j].id !in d && CellDistSq(c, ps[j].pos) >= 4
    ensures AllLive(ps, d) ==>
              PortalProximity(c, ps, d) != MissingReference
              && (PortalProximity(c, ps, d) == TooClose <==> NearListedPortal(c, ps))
  {
    ProximityClear(c, ps, d);
    ProximityMissing(c, ps, d);
    if AllLive(ps, d) {
      ProximityLive(c, ps, d);
    }
  }

  class GameManager {
    const enemyPrefabCount: nat
    const startMaxEnemies: int
    const enemiesIncreasePerWave: int
    const waveDuration: int
    const portalSpawnInterval: int
    const minDistanceFromPlayer: real
    const initialMaxPortals: int
    const gridWidth: int
    const gridHeight: int
    const gameAreaMinX: int
    const gameAreaMaxX: int
    const gameAreaMinY: int
    const gameAreaMaxY: int

    var maxPortals: int
    var activePortals: seq<PortalEntry>
    /** Handles of the enemies the manager counts as alive. */
    var activeEnemies: seq<nat>
    var currentMaxEnemies: int
    var currentWave: int
    var waveTimer: int
    var portalSpawnTimer: int
    var totalEnemiesKilled: nat
    /** The handle the next Instantiate returns; handles are never reused. */
    var nextHandle: nat
    /** The notifications fired so far, in order. */
    var events: seq<GameEvent>

    ghost predicate Valid()
      reads this
    {
      && currentWave >= 1
      && currentMaxEnemies == startMaxEnemies + (currentWave - 1) * enemiesIncreasePerWave
      && initialMaxPortals <= maxPortals <= Max(initialMaxPortals, PortalCapCeiling)
      && Distinct(activeEnemies)
      && (forall k :: 0 <= k < |activeEnemies| ==> activeEnemies[k] < nextHandle)
      && (forall k :: 0 <= k < |activePortals| ==> activePortals[k].id < nextHandle)
    }

    function Config(): WaveConfig
      reads this
    {
      WaveConfig(startMaxEnemies, enemiesIncreasePerWave, waveDuration)
    }

    function Wave(): WaveState
      reads this
    {
      WaveState(currentWave, currentMaxEnemies, maxPortals, waveTimer)
    }

    /**
     * Start: the area bounds from the grid size (C# division), the first
     * wave with the starting cap and full timers, then SpawnInitialEnemies,
     * which runs startMaxEnemies searches, the i-th on `DrawsAt(draws, i)`.
     * Every search that finds a cell spawns one enemy when there are prefabs.
     */
    constructor Start(enemyPrefabCount: nat, startMaxEnemies: int, enemiesIncreasePerWave: int,
                      waveDuration: int, maxPortals: int, portalSpawnInterval: int,
                      minDistanceFromPlayer: real, gridWidth: int, gridHeight: int,
                      draws: seq<seq<Cell>>, obstacleAt: Cell -> bool, player: Point)
      ensures Valid()
      ensures this.enemyPrefabCount == enemyPrefabCount && this.startMaxEnemies == startMaxEnemies
      ensures this.enemiesIncreasePerWave == enemiesIncreasePerWave && this.waveDuration == waveDuration
      ensures this.portalSpawnInterval == portalSpawnInterval && this.minDistanceFromPlayer == minDistanceFromPlayer
      ensures this.initialMaxPortals == maxPortals && this.maxPortals == maxPortals
      ensures gameAreaMinX == TruncDiv2(-gridWidth) && gameAreaMaxX == TruncDiv2(gridWidth)
      ensures gameAreaMinY == TruncDiv2(-gridHeight) && gameAreaMaxY == TruncDiv2(gridHeight)
      ensures Wave() == FirstWave(Config(), maxPortals)
      ensures portalSpawnTimer == portalSpawnInterval && totalEnemiesKilled == 0 && activePortals == []
      ensures var n := InitialSpawns(draws, obstacleAt, player);
        && activeEnemies == Handles(0, n) && nextHandle == n
        && events == CountAnnouncements(0, n)
    {
      this.enemyPrefabCount := enemyPrefabCount;
      this.startMaxEnemies := startMaxEnemies;
      this.enemiesIncreasePerWave := enemiesIncreasePerWave;
      this.waveDuration := waveDuration;
      this.portalSpawnInterval := portalSpawnInterval;
      this.minDistanceFromPlayer := minDistanceFromPlayer;
      this.initialMaxPortals := maxPortals;
      this.gridWidth := gridWidth;
      this.gridHeight := gridHeight;
      this.maxPortals := maxPortals;
      gameAreaMinX := TruncDiv2(-gridWidth);
      gameAreaMinY := TruncDiv2(-gridHeight);
      gameAreaMaxX := TruncDiv2(gridWidth);
      gameAreaMaxY := TruncDiv2(gridHeight);
      currentMaxEnemies := startMaxEnemies;
      currentWave := 1;
      waveTimer := waveDuration;
      portalSpawnTimer := portalSpawnInterval;
      totalEnemiesKilled := 0;
      activePortals := [];
      activeEnemies := [];
      nextHandle := 0;
      events := [];
      new;
      SpawnInitialEnemies(draws, obstacleAt, player);
    }

    /** How many of the first n searches of SpawnInitialEnemies find a cell. */
    function FoundCount(draws: seq<seq<Cell>>, n: nat, obstacleAt: Cell -> bool, player: Point): nat
    {
      if n == 0 then 0
      else FoundCount(draws, n - 1, obstacleAt, player)
           + (if FreeSearchFrom(DrawsAt(draws, n - 1), 0, obstacleAt, player).Some? then 1 else 0)
    }

    /** The number of enemies SpawnInitialEnemies spawns: one per successful search, none without prefabs. */
    function InitialSpawns(draws: seq<seq<Cell>>, obstacleAt: Cell -> bool, player: Point): nat
    {
      SpawnsAfter(draws, Max(startMaxEnemies, 0), obstacleAt, player)
    }

    /**
     * At most one enemy per search. When every search finds a cell, there is
     * exactly one per search, and when none does, there are none.
     */
    lemma {:induction false} FoundCountBounds(draws: seq<seq<Cell>>, n: nat, obstacleAt: Cell -> bool, player: Point)
      ensures FoundCount(draws, n, obstacleAt, player) <= n
      ensures (forall i :: 0 <= i < n ==> FreeSearchFrom(DrawsAt(draws, i), 0, obstacleAt, player).Some?) ==>
                FoundCount(draws, n, obstacleAt, player) == n
      ensures (forall i :: 0 <= i < n ==> FreeSearchFrom(DrawsAt(draws, i), 0, obstacleAt, player).None?) ==>
                FoundCount(draws, n, obstacleAt, player) == 0
    {
      if n > 0 {
        FoundCountBounds(draws, n - 1, obstacleAt, player);
      }
    }

    /** How many of the first n searches pass SpawnInitialEnemies' guard as written. */
    function GuardedCountAsWritten(draws: seq<seq<Cell>>, n: nat, obstacleAt: Cell -> bool, player: Point): nat
    {
      if n == 0 then 0
      else GuardedCountAsWritten(draws, n - 1, obstacleAt, player)
           + (if SpawnGuardAsWritten(FreeSearchFrom(DrawsAt(draws, n - 1), 0, obstacleAt, player)) then 1 else 0)
    }

    /**
     * As written, every one of the n searches passes the guard, so each spawns
     * an enemy. Spawning only on a found cell gives fewer as soon as one
     * search, the i-th, fails.
     */
    lemma {:induction false} AsWrittenSpawnsOnEverySearch(draws: seq<seq<Cell>>, n: nat, obstacleAt: Cell -> bool, player: Point, i: nat)
      ensures GuardedCountAsWritten(draws, n, obstacleAt, player) == n
      ensures i < n && FreeSearchFrom(DrawsAt(draws, i), 0, obstacleAt, player).None? ==>
                FoundCount(draws, n, obstacleAt, player) < n
    {
      if n > 0 {
        AsWrittenSpawnsOnEverySearch(draws, n - 1, obstacleAt, player, i);
        var last := FreeSearchFrom(DrawsAt(draws, n - 1), 0, obstacleAt, player);
        FailedSearchStillSpawns(last);
        if i < n && FreeSearchFrom(DrawsAt(draws, i), 0, obstacleAt, player).None? {
          if i == n - 1 {
            FoundCountBounds(draws, n - 1, obstacleAt, player);
            assert FoundCount(draws, n, obstacleAt, player) == FoundCount(draws, n - 1, obstacleAt, player);
          } else {
            assert FoundCount(draws, n - 1, obstacleAt, player) < n - 1;
          }
        }
      }
    }

    /**
     * SpawnInitialEnemies: startMaxEnemies searches. Each one that finds a
     * cell spawns one enemy with the next fresh handle and announces the count.
     */
    method SpawnInitialEnemies(draws: seq<seq<Cell>>, obstacleAt: Cell -> bool, player: Point)
      requires Valid()
      modifies this`activeEnemies, this`nextHandle, this`events
      ensures Valid()
      ensures var n := InitialSpawns(draws, obstacleAt, player);
        && activeEnemies == old(activeEnemies) + Handles(old(nextHandle), n)
        && nextHandle == old(nextHandle) + n
        && events == old(events) + CountAnnouncements(|old(activeEnemies)|, n)
    {
      ghost var listed, first, log := activeEnemies, nextHandle, events;
      var i: nat := 0;
      while i < startMaxEnemies
        invariant Valid()
        invariant i <= Max(startMaxEnemies, 0)
        invariant Spawned(listed, first, log, SpawnsAfter(draws, i, obstacleAt, player))
      {
        SpawnIfFound(draws, i, obstacleAt, player, listed, first, log);
        i := i + 1;
      }
    }

    /** The enemies the first i searches spawn: one per search that finds a cell, none without prefabs. */
    function SpawnsAfter(draws: seq<seq<Cell>>, i: nat, obstacleAt: Cell -> bool, player: Point): nat
    {
      if enemyPrefabCount > 0 then FoundCount(draws, i, obstacleAt, player) else 0
    }

    /** After n spawns onto `listed`: the n fresh handles from `first` are appended, with one count announcement each. */
    ghost predicate Spawned(listed: seq<nat>, first: nat, log: seq<GameEvent>, n: nat)
      reads this
    {
      && activeEnemies == listed + Handles(first, n)
      && nextHandle == first + n
      && events == log + CountAnnouncements(|listed|, n)
    }

    /** The (i+1)-th search adds one spawn exactly when there are prefabs and it finds a cell. */
    lemma SpawnsStep(draws: seq<seq<Cell>>, i: nat, obstacleAt: Cell -> bool, player: Point)
      ensures SpawnsAfter(draws, i + 1, obstacleAt, player)
              == SpawnsAfter(draws, i, obstacleAt, player)
                 + (if enemyPrefabCount > 0 && FreeSearchFrom(DrawsAt(draws, i), 0, obstacleAt, player).Some? then 1 else 0)
    {
    }

    /** One iteration of SpawnInitialEnemies: the i-th search, then one spawn if it found a cell. */
    method SpawnIfFound(draws: seq<seq<Cell>>, i: nat, obstacleAt: Cell -> bool, player: Point,
                        ghost listed: seq<nat>, ghost first: nat, ghost log: seq<GameEvent>)
      requires Valid() && Spawned(listed, first, log, SpawnsAfter(draws, i, obstacleAt, player))
      modifies this`activeEnemies, this`nextHandle, this`events
      ensures Valid() && Spawned(listed, first, log, SpawnsAfter(draws, i + 1, obstacleAt, player))
    {
      ghost var n, enemies, logged := SpawnsAfter(draws, i, obstacleAt, player), activeEnemies, events;
      SpawnsStep(draws, i, obstacleAt, player);
      var spawnPos := FindFreeSpawnPosition(DrawsAt(draws, i), obstacleAt, player);
      if spawnPos.Some? {
        SpawnEnemy();
        if enemyPrefabCount > 0 {
          SpawnAppends(listed, first, log, n, enemies, logged);
        }
      }
    }

    method UpdateWaveSystem(dt: nat)
      requires Valid()
      modifies this`currentWave, this`currentMaxEnemies, this`waveTimer, this`maxPortals, this`events
      ensures Valid()
      ensures old(waveTimer) - dt <= 0 ==>
                Wave() == NextWaveState(Config(), old(Wave())) && events == old(events) + [WaveChanged(currentWave)]
      ensures old(waveTimer) - dt > 0 ==>
                Wave() == old(Wave()).(timer := old(waveTimer) - dt) && events == old(events)
    {
      waveTimer := waveTimer - dt;
      if waveTimer <= 0 {
        NextWave();
      }
    }

    /** NextWave: the next wave number, its enemy cap, a full timer, and one more portal on even waves below 4. */
    method NextWave()
      requires Valid()
      modifies this`currentWave, this`currentMaxEnemies, this`waveTimer, this`maxPortals, this`events
      ensures Valid()
      ensures Wave() == NextWaveState(Config(), old(Wave()))
      ensures events == old(events) + [WaveChanged(currentWave)]
    {
      currentWave := currentWave + 1;
      currentMaxEnemies := startMaxEnemies + (currentWave - 1) * enemiesIncreasePerWave;
      waveTimer := waveDuration;
      events := events + [WaveChanged(currentWave)];
      if currentWave % 2 == 0 && maxPortals < PortalCapCeiling {
        maxPortals := maxPortals + 1;
      }
    }

    /**
     * Update, one frame of dt ticks. Nothing happens without a player. Then
     * come the wave step, the portal step and the enemy-list step, in that
     * order. When the portal search throws, the frame ends there: the portal
     * timer is not reset and neither list is cleaned up. The portal search
     * and the number of enemies the list step removed are returned.
     */
    method Update(dt: nat, player: Option<Point>, samples: seq<Cell>, obstacleAt: Cell -> bool,
                  destroyedPortals: set<nat>, destroyedEnemies: set<nat>)
      returns (aborted: bool, search: PortalSearch, removedCount: nat)
      requires Valid()
      modifies this`currentWave, this`currentMaxEnemies, this`waveTimer, this`maxPortals, this`events,
               this`portalSpawnTimer, this`activePortals, this`nextHandle, this`activeEnemies
      ensures Valid()
      ensures player.None? ==> !aborted && search == NotFound && removedCount == 0 && unchanged(this)
      ensures player.Some? ==>
                Wave() == if old(waveTimer) - dt <= 0 then NextWaveState(Config(), old(Wave()))
                          else old(Wave()).(timer := old(waveTimer) - dt)
      ensures player.Some? ==>
                search == if old(portalSpawnTimer) - dt <= 0 && |old(activePortals)| < maxPortals
                          then PortalSearchFrom(samples, 0, old(activePortals), destroyedPortals, obstacleAt, player.value)
                          else NotFound
      ensures aborted <==> search.Aborted?
      ensures search.Found? ==> PortalSpawnOk(search.cell, old(activePortals), obstacleAt, player.value)
      ensures nextHandle == old(nextHandle) + (if search.Found? then 1 else 0)
      ensures totalEnemiesKilled == old(totalEnemiesKilled)
      ensures aborted ==>
                && activePortals == old(activePortals) && activeEnemies == old(activeEnemies)
                && portalSpawnTimer == old(portalSpawnTimer) - dt && removedCount == 0
                && events == old(events) + (if old(waveTimer) - dt <= 0 then [WaveChanged(currentWave)] else [])
      ensures player.Some? && !aborted ==>
                && portalSpawnTimer == (if old(portalSpawnTimer) - dt <= 0 && |old(activePortals)| < maxPortals
                                        then portalSpawnInterval else old(portalSpawnTimer) - dt)
                && activePortals == RemoveAll(old(activePortals) + (if search.Found? then [PortalEntry(old(nextHandle), search.cell)] else []),
                                              PortalGone(destroyedPortals))
                && AllLive(activePortals, destroyedPortals)
                && activeEnemies == RemoveAll(old(activeEnemies), EnemyGone(destroyedEnemies))
                && removedCount == |old(activeEnemies)| - |activeEnemies|
                && events == old(events) + (if old(waveTimer) - dt <= 0 then [WaveChanged(currentWave)] else [])
                                         + (if removedCount > 0 then [EnemiesCountChanged(|activeEnemies|)] else [])
    {
      if player.None? {
        return false, NotFound, 0;
      }
      UpdateWaveSystem(dt);
      var attempted;
      attempted, search := UpdatePortalSystem(dt, samples, obstacleAt, player.value, destroyedPortals);
      if search.Aborted? {
        return true, search, 0;
      }
      removedCount := UpdateEnemyList(destroyedEnemies);
      aborted := false;
    }

    /**
     * UpdatePortalSystem: the portal timer runs down. A portal search is
     * tried only when the timer has expired and fewer than maxPortals portals
     * are listed, destroyed ones included. A found cell gets a new portal
     * with the next handle. After a search that did not throw, the timer is
     * reset and destroyed portals leave the list. A search that throws
     * leaves the timer run down and the list as it was.
     */
    method UpdatePortalSystem(dt: nat, samples: seq<Cell>, obstacleAt: Cell -> bool, player: Point,
                              destroyedPortals: set<nat>)
      returns (attempted: bool, search: PortalSearch)
      requires Valid()
      modifies this`portalSpawnTimer, this`activePortals, this`nextHandle
      ensures Valid()
      ensures attempted == (old(portalSpawnTimer) - dt <= 0 && |old(activePortals)| < maxPortals)
      ensures !attempted ==> search == NotFound
      ensures attempted ==> search == PortalSearchFrom(samples, 0, old(activePortals), destroyedPortals, obstacleAt, player)
      ensures search.Found? ==> PortalSpawnOk(search.cell, old(activePortals), obstacleAt, player)
      ensures nextHandle == old(nextHandle) + (if search.Found? then 1 else 0)
      ensures search.Aborted? ==>
                portalSpawnTimer == old(portalSpawnTimer) - dt && activePortals == old(activePortals)
      ensures !search.Aborted? ==>
                && portalSpawnTimer == (if attempted then portalSpawnInterval else old(portalSpawnTimer) - dt)
                && activePortals == RemoveAll(old(activePortals) + (if search.Found? then [PortalEntry(old(nextHandle), search.cell)] else []),
                                              PortalGone(destroyedPortals))
                && AllLive(activePortals, destroyedPortals)
    {
      portalSpawnTimer := portalSpawnTimer - dt;
      attempted := portalSpawnTimer <= 0 && |activePortals| < maxPortals;
      search := NotFound;
      if attempted {
        search := TrySpawnPortal(samples, obstacleAt, player, destroyedPortals);
        if search.Aborted? {
          return;
        }
        portalSpawnTimer := portalSpawnInterval;
      }
      assert activePortals == old(activePortals) + (if search.Found? then [PortalEntry(old(nextHandle), search.cell)] else []);
      RemoveDestroyedPortals(destroyedPortals);
    }

    /** `activePortals.RemoveAll(portal => portal == null)`: destroyed portals leave the list, in order. */
    method RemoveDestroyedPortals(destroyed: set<nat>)
      requires Valid()
      modifies this`activePortals
      ensures Valid()
      ensures activePortals == RemoveAll(old(activePortals), PortalGone(destroyed))
      ensures AllLive(activePortals, destroyed)
    {
      ghost var listed := activePortals;
      activePortals := RemoveAll(activePortals, PortalGone(destroyed));
      RemoveAllMembers(listed, PortalGone(destroyed));
      forall k | 0 <= k < |activePortals| ensures activePortals[k].id < nextHandle && activePortals[k].id !in destroyed {
        assert activePortals[k] in listed;
      }
    }

    /** TrySpawnPortal: the search's cell gets a new portal with the next handle; otherwise nothing is listed. */
    method TrySpawnPortal(samples: seq<Cell>, obstacleAt: Cell -> bool, player: Point, destroyedPortals: set<nat>)
      returns (search: PortalSearch)
      requires Valid()
      modifies this`activePortals, this`nextHandle
      ensures Valid()
      ensures search == PortalSearchFrom(samples, 0, old(activePortals), destroyedPortals, obstacleAt, player)
      ensures search.Found? ==> PortalSpawnOk(search.cell, old(activePortals), obstacleAt, player)
      ensures AllLive(old(activePortals), destroyedPortals) ==>
                !search.Aborted?
                && (search.Found? <==> exists k :: 0 <= k < Attempts(samples)
                                                   && PortalSpawnOk(samples[k], old(activePortals), obstacleAt, player))
      ensures activePortals == old(activePortals) + (if search.Found? then [PortalEntry(old(nextHandle), search.cell)] else [])
      ensures nextHandle == old(nextHandle) + (if search.Found? then 1 else 0)
    {
      search := FindPortalSpawnPosition(samples, obstacleAt, player, destroyedPortals);
      if search.Found? {
        activePortals := activePortals + [PortalEntry(nextHandle, search.cell)];
        nextHandle := nextHandle + 1;
      }
    }

    /** SpawnEnemyAtPosition (called by portals): the same as SpawnEnemy. */
    method SpawnEnemyAtPosition()
      requires Valid()
      modifies this`activeEnemies, this`nextHandle, this`events
      ensures Valid()
      ensures enemyPrefabCount == 0 ==> activeEnemies == old(activeEnemies) && events == old(events)
                                        && nextHandle == old(nextHandle)
      ensures enemyPrefabCount > 0 ==>
                activeEnemies == old(activeEnemies) + [old(nextHandle)] && nextHandle == old(nextHandle) + 1
                && events == old(events) + [EnemiesCountChanged(|activeEnemies|)]
    {
      SpawnEnemy();
    }

    /** SpawnEnemy: with no enemy prefab nothing happens; otherwise one new enemy is listed and the count announced. */
    method SpawnEnemy()
      requires Valid()
      modifies this`activeEnemies, this`nextHandle, this`events
      ensures Valid()
      ensures enemyPrefabCount == 0 ==> activeEnemies == old(activeEnemies) && events == old(events)
                                        && nextHandle == old(nextHandle)
      ensures enemyPrefabCount > 0 ==>
                activeEnemies == old(activeEnemies) + [old(nextHandle)] && nextHandle == old(nextHandle) + 1
                && events == old(events) + [EnemiesCountChanged(|activeEnemies|)]
    {
      if enemyPrefabCount == 0 {
        return;
      }
      var enemy := nextHandle;
      nextHandle := nextHandle + 1;
      activeEnemies := activeEnemies + [enemy];
      events := events + [EnemiesCountChanged(|activeEnemies|)];
    }

    /** UpdateEnemyList: destroyed enemies leave the list (not counted as kills); the count is announced if any left. */
    method UpdateEnemyList(destroyed: set<nat>) returns (removedCount: nat)
      requires Valid()
      modifies this`activeEnemies, this`events
      ensures Valid()
      ensures activeEnemies == RemoveAll(old(activeEnemies), EnemyGone(destroyed))
      ensures forall e :: e in activeEnemies <==> e in old(activeEnemies) && e !in destroyed
      ensures removedCount == |old(activeEnemies)| - |activeEnemies|
      ensures totalEnemiesKilled == old(totalEnemiesKilled)
      ensures events == old(events) + (if removedCount > 0 then [EnemiesCountChanged(|activeEnemies|)] else [])
    {
      var listed := activeEnemies;
      activeEnemies := RemoveAll(activeEnemies, EnemyGone(destroyed));
      RemoveAllMembers(listed, EnemyGone(destroyed));
      RemoveAllDistinct(listed, EnemyGone(destroyed));
      forall k | 0 <= k < |activeEnemies| ensures activeEnemies[k] < nextHandle {
        assert activeEnemies[k] in listed;
      }
      removedCount := |listed| - |activeEnemies|;
      if removedCount > 0 {
        events := events + [EnemiesCountChanged(|activeEnemies|)];
      }
    }

    /**
     * OnEnemyDied: a listed enemy leaves the list and counts as one kill; an
     * unlisted one changes nothing. Either way it is not listed afterwards, so
     * a second notification for the same enemy counts nothing.
     */
    method OnEnemyDied(enemy: nat)
      requires Valid()
      modifies this`activeEnemies, this`totalEnemiesKilled, this`events
      ensures Valid()
      ensures enemy !in activeEnemies
      ensures old(enemy in activeEnemies) ==>
                && activeEnemies == RemoveFirst(old(activeEnemies), enemy)
                && |activeEnemies| == |old(activeEnemies)| - 1
                && totalEnemiesKilled == old(totalEnemiesKilled) + 1
                && events == old(events) + [EnemiesCountChanged(|activeEnemies|), TotalKillsChanged(totalEnemiesKilled)]
      ensures old(enemy !in activeEnemies) ==>
                activeEnemies == old(activeEnemies) && totalEnemiesKilled == old(totalEnemiesKilled)
                && events == old(events)
    {
      if enemy in activeEnemies {
        ghost var listed := activeEnemies;
        activeEnemies := RemoveFirst(activeEnemies, enemy);
        RemoveFirstDistinct(listed, enemy);
        forall k | 0 <= k < |activeEnemies| ensures activeEnemies[k] < nextHandle {
          assert activeEnemies[k] in listed;
        }
        totalEnemiesKilled := totalEnemiesKilled + 1;
        events := events + [EnemiesCountChanged(|activeEnemies|), TotalKillsChanged(totalEnemiesKilled)];
      }
    }

    /** IsInsideGameArea: the cell lies within the bounds fixed at Start. */
    predicate IsInsideGameArea(c: Cell)
    {
      gameAreaMinX <= c.x <= gameAreaMaxX && gameAreaMinY <= c.y <= gameAreaMaxY
    }

    /** IsPositionFree: inside the area and not on the obstacle layer. */
    predicate IsPositionFree(c: Cell, obstacleAt: Cell -> bool)
    {
      IsInsideGameArea(c) && !obstacleAt(c)
    }

    /** The checks FindFreeSpawnPosition makes on a candidate: free, and more than 3 units from the player. */
    predicate FreeSpawnOk(c: Cell, obstacleAt: Cell -> bool, player: Point)
    {
      IsPositionFree(c, obstacleAt) && DistSq(c, player) > 9.0
    }

    /**
     * The reference meaning of an acceptable portal cell: free, not closer
     * than 2 to a listed portal, and at least minDistanceFromPlayer from the player.
     */
    predicate PortalSpawnOk(c: Cell, portals: seq<PortalEntry>, obstacleAt: Cell -> bool, player: Point)
    {
      IsPositionFree(c, obstacleAt) && !NearListedPortal(c, portals)
      && DistanceAtLeast(DistSq(c, player), minDistanceFromPlayer)
    }

    /** A free position is always inside the game area. */
    lemma FreeIsInside(c: Cell, obstacleAt: Cell -> bool)
      ensures !IsInsideGameArea(c) ==> !IsPositionFree(c, obstacleAt)
      ensures obstacleAt(c) ==> !IsPositionFree(c, obstacleAt)
    {
    }

    /** FindFreeSpawnPosition from draw i on: the first of the first 20 draws that passes, if any. */
    function FreeSearchFrom(samples: seq<Cell>, i: nat, obstacleAt: Cell -> bool, player: Point): Option<Cell>
      decreases Attempts(samples) - i
    {
      if i >= Attempts(samples) then None
      else if FreeSpawnOk(samples[i], obstacleAt, player) then Some(samples[i])
      else FreeSearchFrom(samples, i + 1, obstacleAt, player)
    }

    /** The search finds nothing exactly when no tried draw passes, and otherwise finds the first that does. */
    lemma {:induction false} FreeSearchFirstMatch(samples: seq<Cell>, i: nat, obstacleAt: Cell -> bool, player: Point)
      ensures var r := FreeSearchFrom(samples, i, obstacleAt, player);
        && (r.None? <==> forall k :: i <= k < Attempts(samples) ==> !FreeSpawnOk(samples[k], obstacleAt, player))
        && (r.Some? ==> exists k :: i <= k < Attempts(samples) && samples[k] == r.value
                                    && FreeSpawnOk(samples[k], obstacleAt, player)
                                    && forall j :: i <= j < k ==> !FreeSpawnOk(samples[j], obstacleAt, player))
      decreases Attempts(samples) - i
    {
      if i < Attempts(samples) && !FreeSpawnOk(samples[i], obstacleAt, player) {
        FreeSearchFirstMatch(samples, i + 1, obstacleAt, player);
      }
    }

    /**
     * FindFreeSpawnPosition: tries the draws in order, at most 20, and
     * returns the first that passes the checks; not found when none of
     * the tried draws does.
     */
    method FindFreeSpawnPosition(samples: seq<Cell>, obstacleAt: Cell -> bool, player: Point) returns (r: Option<Cell>)
      ensures r == FreeSearchFrom(samples, 0, obstacleAt, player)
      ensures r.None? <==> forall k :: 0 <= k < Attempts(samples) ==> !FreeSpawnOk(samples[k], obstacleAt, player)
      ensures r.Some? ==> FreeSpawnOk(r.value, obstacleAt, player) && IsInsideGameArea(r.value)
      ensures r.Some? ==> exists k :: 0 <= k < Attempts(samples) && samples[k] == r.value
                                      && forall j :: 0 <= j < k ==> !FreeSpawnOk(samples[j], obstacleAt, player)
    {
      var i := 0;
      while i < MaxAttempts && i < |samples|
        invariant 0 <= i <= Attempts(samples)
        invariant forall j :: 0 <= j < i ==> !FreeSpawnOk(samples[j], obstacleAt, player)
        invariant FreeSearchFrom(samples, i, obstacleAt, player) == FreeSearchFrom(samples, 0, obstacleAt, player)
      {
        var spawnPos := samples[i];
        if FreeSpawnOk(spawnPos, obstacleAt, player) {
          return Some(spawnPos);
        }
        i := i + 1;
      }
      return None;
    }

    /** One candidate of FindPortalSpawnPosition, checked in the order of its `&&` chain. */
    function PortalVerdict(c: Cell, portals: seq<PortalEntry>, destroyed: set<nat>,
                           obstacleAt: Cell -> bool, player: Point): Verdict
    {
      if !IsPositionFree(c, obstacleAt) then Reject
      else match PortalProximity(c, portals, destroyed)
        case MissingReference => Abort
        case TooClose => Reject
        case Clear => if DistanceAtLeast(DistSq(c, player), minDistanceFromPlayer) then Accept else Reject
    }

    /**
     * A candidate is taken exactly when it is free, every listed portal is
     * alive and at least 2 away, and it is far enough from the player. The
     * search throws on it exactly when it is free and the portal walk reaches
     * a destroyed portal. With every portal alive it never throws, and it is
     * taken exactly when it meets the reference checks.
     */
    lemma PortalVerdictMeaning(c: Cell, portals: seq<PortalEntry>, destroyed: set<nat>,
                               obstacleAt: Cell -> bool, player: Point)
      ensures PortalVerdict(c, portals, destroyed, obstacleAt, player) == Accept <==>
                IsPositionFree(c, obstacleAt) && DistanceAtLeast(DistSq(c, player), minDistanceFromPlayer)
                && forall k :: 0 <= k < |portals| ==> portals[k].id !in destroyed && CellDistSq(c, portals[k].pos) >= 4
      ensures PortalVerdict(c, portals, destroyed, obstacleAt, player) == Abort <==>
                IsPositionFree(c, obstacleAt) && PortalProximity(c, portals, destroyed) == MissingReference
      ensures PortalVerdict(c, portals, destroyed, obstacleAt, player) == Accept ==>
                PortalSpawnOk(c, portals, obstacleAt, player) && AllLive(portals, destroyed)
      ensures AllLive(portals, destroyed) ==>
                PortalVerdict(c, portals, destroyed, obstacleAt, player) != Abort
                && (PortalVerdict(c, portals, destroyed, obstacleAt, player) == Accept <==> PortalSpawnOk(c, portals, obstacleAt, player))
    {
      PortalProximityScan(c, portals, destroyed);
    }

    /** FindPortalSpawnPosition from draw i on: the first of the first 20 draws that is taken, or throws. */
    function PortalSearchFrom(samples: seq<Cell>, i: nat, portals: seq<PortalEntry>, destroyed: set<nat>,
                              obstacleAt: Cell -> bool, player: Point): PortalSearch
      decreases Attempts(samples) - i
    {
      if i >= Attempts(samples) then NotFound
      else match PortalVerdict(samples[i], portals, destroyed, obstacleAt, player)
        case Accept => Found(samples[i])
        case Abort => Aborted
        case Reject => PortalSearchFrom(samples, i + 1, portals, destroyed, obstacleAt, player)
    }

    /**
     * Not found exactly when every tried draw is skipped. Otherwise the first
     * draw that is not skipped decides: it is the found cell, or the draw on
     * which the search throws.
     */
    lemma {:induction false} PortalSearchFirstMatch(samples: seq<Cell>, i: nat, portals: seq<PortalEntry>, destroyed: set<nat>,
                                                    obstacleAt: Cell -> bool, player: Point)
      ensures var r := PortalSearchFrom(samples, i, portals, destroyed, obstacleAt, player);
        && (r.NotFound? <==> forall k :: i <= k < Attempts(samples) ==>
                               PortalVerdict(samples[k], portals, destroyed, obstacleAt, player) == Reject)
        && (r.Found? ==> exists k :: i <= k < Attempts(samples) && samples[k] == r.cell
                                    && PortalVerdict(samples[k], portals, destroyed, obstacleAt, player) == Accept
                                    && forall j :: i <= j < k ==> PortalVerdict(samples[j], portals, destroyed, obstacleAt, player) == Reject)
        && (r.Aborted? ==> exists k :: i <= k < Attempts(samples)
                                      && PortalVerdict(samples[k], portals, destroyed, obstacleAt, player) == Abort
                                      && forall j :: i <= j < k ==> PortalVerdict(samples[j], portals, destroyed, obstacleAt, player) == Reject)
      decreases Attempts(samples) - i
    {
      if i < Attempts(samples) && PortalVerdict(samples[i], portals, destroyed, obstacleAt, player) == Reject {
        PortalSearchFirstMatch(samples, i + 1, portals, destroyed, obstacleAt, player);
      }
    }

    /**
     * With every listed portal alive, the search never throws: it finds a
     * cell exactly when some tried draw meets the reference checks, and the
     * cell it finds is the first such draw.
     */
    lemma PortalSearchWithoutDestroyed(samples: seq<Cell>, portals: seq<PortalEntry>, destroyed: set<nat>,
                                       obstacleAt: Cell -> bool, player: Point)
      requires AllLive(portals, destroyed)
      ensures var r := PortalSearchFrom(samples, 0, portals, destroyed, obstacleAt, player);
        && !r.Aborted?
        && (r.Found? <==> exists k :: 0 <= k < Attempts(samples) && PortalSpawnOk(samples[k], portals, obstacleAt, player))
        && (r.Found? ==> exists k :: 0 <= k < Attempts(samples) && samples[k] == r.cell
                                    && PortalSpawnOk(samples[k], portals, obstacleAt, player)
                                    && forall j :: 0 <= j < k ==> !PortalSpawnOk(samples[j], portals, obstacleAt, player))
    {
      forall k | 0 <= k < Attempts(samples)
        ensures PortalVerdict(samples[k], portals, destroyed, obstacleAt, player) != Abort
        ensures PortalVerdict(samples[k], portals, destroyed, obstacleAt, player) == Accept <==> PortalSpawnOk(samples[k], portals, obstacleAt, player)
      {
        PortalVerdictMeaning(samples[k], portals, destroyed, obstacleAt, player);
      }
      PortalSearchFirstMatch(samples, 0, portals, destroyed, obstacleAt, player);
    }

    /**
     * IsTooCloseToOtherPortal's foreach over the listed portals: it throws at
     * the first destroyed portal it reaches and answers true at the first
     * live one closer than 2 units.
     */
    method IsTooCloseToOtherPortal(c: Cell, destroyed: set<nat>) returns (p: Proximity)
      ensures p == PortalProximity(c, activePortals, destroyed)
      ensures p == Clear <==> forall k :: 0 <= k < |activePortals| ==>
                                activePortals[k].id !in destroyed && CellDistSq(c, activePortals[k].pos) >= 4
    {
      PortalProximityScan(c, activePortals, destroyed);
      var i := 0;
      assert activePortals[0..] == activePortals;
      while i < |activePortals|
        invariant 0 <= i <= |activePortals|
        invariant PortalProximity(c, activePortals[i..], destroyed) == PortalProximity(c, activePortals, destroyed)
      {
        assert activePortals[i..][1..] == activePortals[i + 1..];
        var portal := activePortals[i];
        if portal.id in destroyed {
          return MissingReference;
        }
        if CellDistSq(c, portal.pos) < 4 {
          return TooClose;
        }
        i := i + 1;
      }
      return Clear;
    }

    /**
     * FindPortalSpawnPosition: tries the draws in order, at most 20. Each is
     * checked for being free, then against the listed portals, then for its
     * distance from the player. The first that passes is found; a destroyed
     * listed portal reached by the portal check makes the search throw.
     */
    method FindPortalSpawnPosition(samples: seq<Cell>, obstacleAt: Cell -> bool, player: Point, destroyed: set<nat>)
      returns (r: PortalSearch)
      ensures r == PortalSearchFrom(samples, 0, activePortals, destroyed, obstacleAt, player)
      ensures r.NotFound? <==> forall k :: 0 <= k < Attempts(samples) ==>
                                 PortalVerdict(samples[k], activePortals, destroyed, obstacleAt, player) == Reject
      ensures r.Found? ==> PortalSpawnOk(r.cell, activePortals, obstacleAt, player)
                           && forall k :: 0 <= k < |activePortals| ==>
                                activePortals[k].id !in destroyed && CellDistSq(r.cell, activePortals[k].pos) >= 4
      ensures r.Found? ==> exists k :: 0 <= k < Attempts(samples) && samples[k] == r.cell
                                       && forall j :: 0 <= j < k ==> PortalVerdict(samples[j], activePortals, destroyed, obstacleAt, player) == Reject
      ensures r.Aborted? ==> exists k :: 0 <= k < |activePortals| && activePortals[k].id in destroyed
      ensures AllLive(activePortals, destroyed) ==>
                !r.Aborted?
                && (r.NotFound? <==> forall k :: 0 <= k < Attempts(samples) ==> !PortalSpawnOk(samples[k], activePortals, obstacleAt, player))
    {
      var i := 0;
      while i < MaxAttempts && i < |samples|
        invariant 0 <= i <= Attempts(samples)
        invariant forall j :: 0 <= j < i ==> PortalVerdict(samples[j], activePortals, destroyed, obstacleAt, player) == Reject
        invariant PortalSearchFrom(samples, i, activePortals, destroyed, obstacleAt, player)
               == PortalSearchFrom(samples, 0, activePortals, destroyed, obstacleAt, player)
      {
        var spawnPos := samples[i];
        if IsPositionFree(spawnPos, obstacleAt) {
          var proximity := IsTooCloseToOtherPortal(spawnPos, destroyed);
          if proximity == MissingReference {
            r := Aborted;
            break;
          }
          if proximity == Clear && DistanceAtLeast(DistSq(spawnPos, player), minDistanceFromPlayer) {
            r := Found(spawnPos);
            break;
          }
        }
        i := i + 1;
      }
      if i == Attempts(samples) {
        r := NotFound;
      }
      PortalSearchFirstMatch(samples, 0, activePortals, destroyed, obstacleAt, player);
      if r.Found? {
        PortalVerdictMeaning(r.cell, activePortals, destroyed, obstacleAt, player);
      }
      if r.Aborted? {
        var k :| 0 <= k < Attempts(samples) && PortalVerdict(samples[k], activePortals, destroyed, obstacleAt, player) == Abort;
        PortalVerdictMeaning(samples[k], activePortals, destroyed, obstacleAt, player);
        PortalProximityScan(samples[k], activePortals, destroyed);
      }
      if AllLive(activePortals, destroyed) {
        PortalSearchWithoutDestroyed(samples, activePortals, destroyed, obstacleAt, player);
      }
    }
  }

  /** Two death notifications for the same enemy count one kill at most. */
  method KillCountedOnce(gm: GameManager, enemy: nat)
    requires gm.Valid()
    modifies gm
    ensures gm.Valid()
    ensures gm.totalEnemiesKilled == old(gm.totalEnemiesKilled) + (if old(enemy in gm.activeEnemies) then 1 else 0)
  {
    gm.OnEnemyDied(enemy);
    gm.OnEnemyDied(enemy);
  }

  /** The manager as a frame: empty when the reference is null. */
  function Managed(gm: GameManager?): set<GameManager>
  {
    if gm == null then {} else {gm}
  }

  /** The search result as the C# code holds it: the cell, or Vector2.negativeInfinity when nothing was found. */
  function SearchVector(r: Option<Cell>): Vector2
  {
    if r.Some? then Vector2(Finite(r.value.x as real), Finite(r.value.y as real)) else NegativeInfinity
  }

  /** The guard `spawnPos != Vector2.negativeInfinity` of SpawnInitialEnemies and TrySpawnPortal, as written. */
  predicate SpawnGuardAsWritten(r: Option<Cell>)
  {
    !VectorEquals(SearchVector(r), NegativeInfinity)
  }

  /**
   * As written, the guard passes for every search result, the not-found
   * sentinel included, so a failed search still spawns (at negative infinity).
   */
  lemma FailedSearchStillSpawns(r: Option<Cell>)
    ensures SpawnGuardAsWritten(None)
    ensures SpawnGuardAsWritten(r)
  {
    SentinelUnequalToItself();
    if r.Some? {
      FiniteComparisons(r.value.x as real, r.value.y as real);
    }
  }
}
