# Bomberman game core: a verified Dafny model

This project models the gameplay simulation of a small Bomberman-style arcade
game built on Unity:

- **bomb propagation**: a Center cell, then four rays (down, left, right, up), each cut off at the first obstacle;
- **explosion cells**: a sprite and a rotation from the role, and damage delivered to each damageable hit;
- **wave and spawn director**: wave escalation, enemy and portal caps, enemy and portal lists, kill counting, and the bounded 20-try spawn searches;
- **enemy portals**: a spawn countdown guarded by the enemy cap, and a closing flag;
- **damageable entities**: the player (health, invincibility, bomb capacity, heart display, facing sprite), enemies and destructible walls;
- **upgrade counters**: the counters and the pickups that raise them;
- **boundary clamp**: the per-axis clamp on the player's position.

Engine services become inputs to the model:

- The per-frame `Time.deltaTime` is an integer number of ticks `dt`.
- `Random.Range` draws become given sequences of candidate cells. Each search takes its first 20 entries.
- Physics overlap queries become functions and lists. `hitAt: Cell -> Option<Tag>` is the collider found at an explosion cell. `obstacleAt: Cell -> bool` is the spawn obstacle layer. `positionClear` is the bomb-cell test. `seq<Hit>` is an explosion's overlap result.
- `Instantiate` hands out fresh integer handles. `Destroy` sets a flag, or comes in as a set of destroyed handles.
- The C# events (`OnWaveChanged`, `OnEnemiesCountChanged`, `OnTotalKillsChanged`, `OnBombCountChanged`, `OnHealthChanged`, `OnPlayerDeath`, `OnPlayerUpgrade`) are logs of their payloads, appended in firing order.
- An `IDamageable.TakeDamage(n)` call made by a damage dealer is a returned `Delivery(target, n)` record. Each target class models what its own `TakeDamage` does.

Modules: one per core file (`Bombs`, `Explosions`, `Game`, `Portals`, `Player`,
`Upgrades`, `Enemies`, `Walls`, `Boundary`), plus these helpers:

- `Wrappers`: `Option`.
- `Collections`: .NET `List.Remove` and `List.RemoveAll` on sequences.
- `Geometry`: cells, directions, points and squared distances.
- `Damage`: targets and deliveries.

Points where the model takes a position:

- `GetExplosionTypeForPosition` is called by `Bomb.CreateExplosionLine` but is not defined in `Bomb.cs`. It is the parameter `roleOf`. The lemmas `OpenFieldRadiusTwo` and `WallAboveRadiusTwo` instantiate it with one concrete rule, `EndAtRadius`: a ray cell that is not blocked is End at the radius and Side before it. The other lemmas hold for any `roleOf`.
- The blocking cell itself receives an End explosion (`Bomb.cs:54-58`), and the ray stops after that cell.
- The portal cap rises only while it is below 4 and never falls. So it stays at most `max(initial cap, 4)`, and an initial cap above 4 is kept.
- `Bomb.Start` runs `Initialize` with the serialized defaults, and nothing else in `Bomb.cs` calls it. So a bomb explodes with the radius set at `Start`. `UpdateBombStats`, which the player calls right after instantiating a bomb, is not part of this model.
- C#'s `-gridWidth / 2` truncates toward zero. Dafny's `/` does not, so `TruncDiv2` models the C# operator.
- Unity's `Mathf.Sign(0)` is 1, and the model keeps that.
- `Mathf.Clamp` checks the minimum first, and the model keeps that order too.
- `Vector2.Distance(a, b) >= d` is stated on the squared distance as `d <= 0 || dsq >= d*d`. For `> 3` and `< 2` it uses `dsq > 9` and `dsq < 4`.
- Player positions and boundary limits are `real`. Grid cells, explosion cells, portal positions and spawn candidates are integers. A bomb sits half a cell off the integer lattice in the game, so the explosion cells are expressed relative to the bomb's cell.
- `IsTooCloseToOtherPortal` tests `is not null`, a plain reference check. So a portal destroyed since the last `RemoveAll` passes that test, and reading its `transform` throws `MissingReferenceException`. The model walks the list in order (`PortalProximity`). The search ends as `Aborted` when it reaches a destroyed portal before any live portal closer than 2 units.
- The exception leaves `UpdatePortalSystem` and `Update` at once. The portal timer is not reset, `RemoveAll` does not run, and `UpdateEnemyList` is skipped for that frame (`Game.GameManager.Update`).
- `Update`'s `player is null` guard: the player position is an `Option<Point>`.
- The enemy prefabs are assumed non-null: `Instantiate(null)` would throw. The model keeps only how many prefabs there are.
- Unity's `Vector2` equality is not part of the repository. The model follows Unity's published definition: two vectors are `==` when the squared length of their difference is below kEpsilon² (kEpsilon = 1e-5), and `!=` is its negation. `UnityVector` models the IEEE infinities and NaN this comparison meets (see Findings).

## Model

| member | source | states |
|---|---|---|
| `Bombs.BlockingTags` | Assets/Scripts/Environment/Bomb/Bomb.cs:74-84 | A cell blocks only if its collider is tagged Indestructible or Destructible; any other tag, or no collider, does not block |
| `Bombs.IsObstacle` | Assets/Scripts/Environment/Bomb/Bomb.cs:74-84 | Definition of CheckForObstacle on the overlap result: a hit blocks exactly when its tag is Indestructible or Destructible; its properties are stated by `Bombs.BlockingTags` |
| `Bombs.Ray` | Assets/Scripts/Environment/Bomb/Bomb.cs:48-64 | Definition of the cells CreateExplosionLine creates from step i: an obstacle cell gets one End explosion and stops the ray, any other cell gets the role for its step and the ray goes on up to the radius; its properties are stated by the `Bombs.Ray*` lemmas |
| `Bombs.ExplosionCells` | Assets/Scripts/Environment/Bomb/Bomb.cs:38-46 | Definition of what Explode creates: the Center cell, then the down, left, right and up rays from step 1; its properties are stated by `Bombs.ExplosionShape` and `Bombs.OpenFieldCount` |
| `Bombs.RayLength` | Assets/Scripts/Environment/Bomb/Bomb.cs:50 | A ray from step i has at most radius - i + 1 cells, and is empty exactly when i is past the radius |
| `Bombs.RayCellAt` | Assets/Scripts/Environment/Bomb/Bomb.cs:48-64 | The k-th ray cell is at origin + dir*(1+k), never past the radius, with the ray's direction and the bomb's damage. Every cell before the last is unblocked and has the role helper's type. The last is a blocked End cell or the unblocked cell at the radius |
| `Bombs.RayStopsAtFirstObstacle` | Assets/Scripts/Environment/Bomb/Bomb.cs:54-58 | If the first obstacle ahead is at step j, the ray has exactly the steps up to j. Its last cell is an End cell at the obstacle, and nothing beyond it is emitted |
| `Bombs.RayUnobstructed` | Assets/Scripts/Environment/Bomb/Bomb.cs:50-63 | With no obstacle up to the radius, the ray has one cell per step 1..radius, each with the role helper's type |
| `Bombs.RayUniform` | Assets/Scripts/Environment/Bomb/Bomb.cs:66-72 | Every ray cell carries the bomb's damage and the ray's direction |
| `Bombs.ExplosionShape` | Assets/Scripts/Environment/Bomb/Bomb.cs:38-46 | The first cell is Center at the bomb. There are at most 1 + 4*radius cells, only the Center when radius is 0, and every cell carries the one damage value |
| `Bombs.OpenFieldCount` | Assets/Scripts/Environment/Bomb/Bomb.cs:38-64 | With no obstacle anywhere, an explosion of radius r >= 0 has exactly 1 + 4r cells, and the k-th cell of each ray stands at step k + 1 with the role helper's type |
| `Bombs.OpenFieldRadiusTwo` | Assets/Scripts/Environment/Bomb/Bomb.cs:38-64 | A radius-2 bomb at (0,0) with no obstacles, under the End-at-radius role rule, gives nine cells: the Center, then a Side and an End cell on each ray, down, left, right, up |
| `Bombs.WallAboveRadiusTwo` | Assets/Scripts/Environment/Bomb/Bomb.cs:54-58 | For the same bomb with a destructible wall at (0,1), the up ray is the single End cell at (0,1) |
| `Bombs.Bomb.Start` | Assets/Scripts/Environment/Bomb/Bomb.cs:19-30 | Delay, radius and damage come from the defaults, the delay is armed, and nothing has exploded yet |
| `Bombs.Bomb.Initialize` | Assets/Scripts/Environment/Bomb/Bomb.cs:24-30 | Stores delay, radius and damage and restarts the delay |
| `Bombs.Bomb.Tick` | Assets/Scripts/Environment/Bomb/Bomb.cs:32-36 | An exploded bomb does nothing. Otherwise the delay runs down, and once it reaches 0 the bomb emits exactly its explosion cells and is marked exploded |
| `Bombs.Bomb.Explode` | Assets/Scripts/Environment/Bomb/Bomb.cs:38-46 | Appends the Center cell and the down, left, right and up rays, in that order, then the bomb is destroyed |
| `Bombs.Bomb.CreateExplosionLine` | Assets/Scripts/Environment/Bomb/Bomb.cs:48-64 | The loop with its break appends exactly the ray from step 1 |
| `Bombs.Bomb.CreateExplosion` | Assets/Scripts/Environment/Bomb/Bomb.cs:66-72 | Appends one explosion that carries the bomb's damage |
| `Explosions.SpriteSelection` | Assets/Scripts/Environment/Bomb/Explosion.cs:76-85 | Each named role selects its own sprite field. An unnamed role keeps the current sprite |
| `Explosions.CenterIsUnrotated` | Assets/Scripts/Environment/Bomb/Explosion.cs:93-95 | A Center cell has angle 0 for every direction |
| `Explosions.SideFollowsAxis` | Assets/Scripts/Environment/Bomb/Explosion.cs:97-102 | A Side cell has angle 0 on up/down and 90 on every other direction, so opposite directions look alike |
| `Explosions.EndPointsAlongRay` | Assets/Scripts/Environment/Bomb/Explosion.cs:104-109 | End angles of opposite cardinal directions differ by 180, and of perpendicular ones by 90. The four are distinct, and a non-cardinal direction such as the zero vector leaves 0 |
| `Explosions.SpriteFor` | Assets/Scripts/Environment/Bomb/Explosion.cs:76-85 | Definition of the SetSprite switch: Center, Side and End take their own sprite field, an unnamed code keeps the current sprite; stated by `Explosions.SpriteSelection` |
| `Explosions.RotationAngle` | Assets/Scripts/Environment/Bomb/Explosion.cs:87-114 | Definition of the SetRotation switch, with 0 wherever no case assigns; stated by `Explosions.CenterIsUnrotated`, `Explosions.SideFollowsAxis` and `Explosions.EndPointsAlongRay` |
| `Explosions.DamageOncePerHit` | Assets/Scripts/Environment/Bomb/Explosion.cs:52-58 | Each target is damaged once per hit entry that carries it; non-damageable hits cause no damage |
| `Explosions.Explosion.constructor` | Assets/Scripts/Environment/Bomb/Explosion.cs:22 | A fresh explosion has the prefab sprite, angle 0 and stored damage 0 |
| `Explosions.Explosion.Initialize` | Assets/Scripts/Environment/Bomb/Explosion.cs:32-43 | Sets sprite and angle from role and direction, and stores the damage before applying it. Every delivery then carries exactly the damage passed in, one per damageable hit, in hit order |
| `Explosions.Explosion.SetSprite` | Assets/Scripts/Environment/Bomb/Explosion.cs:76-85 | The sprite becomes the role's sprite; any other role keeps the current one |
| `Explosions.Explosion.SetRotation` | Assets/Scripts/Environment/Bomb/Explosion.cs:87-113 | The angle becomes the role/direction angle of the switch, 0 when no case sets it |
| `Explosions.Explosion.ApplyDamageToSurroundings` | Assets/Scripts/Environment/Bomb/Explosion.cs:45-59 | One TakeDamage with the stored damage per damageable hit, in hit order, and none for other hits |
| `Explosions.Explosion.ApplyDamage` | Assets/Scripts/Environment/Bomb/Explosion.cs:71-74 | The target takes exactly the stored damage |
| `Game.AreaBounds` | Assets/Scripts/Managers/GameManager.cs:66-69 | With C# division, the area bounds are symmetric (min = -max). A non-negative size w spans w cells when odd and w + 1 when even |
| `Game.TruncDiv2` | Assets/Scripts/Managers/GameManager.cs:66-69 | Definition of C# `w / 2` on int, truncating toward zero; its effect on the area bounds is stated by `Game.AreaBounds` |
| `Game.WaveEscalation` | Assets/Scripts/Managers/GameManager.cs:146-150 | After n transitions the wave is up by n, the cap is startMax + (wave-1)*increase, and the timer is a full wave duration |
| `Game.NextWaveState` | Assets/Scripts/Managers/GameManager.cs:146-159 | Definition of NextWave on the wave state: wave + 1, the enemy cap for that wave, a full timer, and one more portal on an even wave while the cap is below 4; stated by the wave lemmas and `Game.GameManager.NextWave` |
| `Game.EscalationFromFirstWave` | Assets/Scripts/Managers/GameManager.cs:146-150 | From wave 1, n transitions give wave 1 + n and maxEnemies = startMax + n*increase |
| `Game.PortalCapStep` | Assets/Scripts/Managers/GameManager.cs:155-158 | A transition raises the portal cap by 1 exactly when the new wave is even and the cap is below 4; otherwise the cap is unchanged |
| `Game.PortalCapBounded` | Assets/Scripts/Managers/GameManager.cs:155-158 | Over any number of transitions the portal cap never decreases and never exceeds max(initial, 4) |
| `Game.WavesCompose` | Assets/Scripts/Managers/GameManager.cs:146-159 | m wave transitions followed by n more give the same state as m + n transitions |
| `Game.PortalCapMonotone` | Assets/Scripts/Managers/GameManager.cs:155-158 | A later wave never has a lower portal cap than an earlier one |
| `Game.GameManager.Start` | Assets/Scripts/Managers/GameManager.cs:64-77 | Sets the bounds from the grid size with C# division, the first wave with the starting cap, full wave and portal timers and no kills. Then, under the corrected guard, exactly one enemy is listed per initial search that finds a cell (none without a prefab), with handles 0, 1, ... in order and one count announcement each |
| `Game.GameManager.SpawnInitialEnemies` | Assets/Scripts/Managers/GameManager.cs:161-171 | Makes startMax searches. Each search that finds a cell appends one enemy with the next fresh handle and announces the new count, so exactly FoundCount enemies are added, or none without prefabs |
| `Game.GameManager.SpawnIfFound` | Assets/Scripts/Managers/GameManager.cs:165-169 | One loop iteration: if the state reflects the spawns of the first i searches, afterwards it reflects those of the first i + 1 (under the corrected guard, one more enemy exactly when there are prefabs and the i-th search finds a cell) |
| `Game.GameManager.FoundCountBounds` | Assets/Scripts/Managers/GameManager.cs:163-170 | Counts the searches that find a cell: at most n of them, all n when every search finds a cell, and none when no search does. Under the corrected guard this is the number of initial enemies; as written, every search spawns (see Findings) |
| `Game.HandlesFresh` | Assets/Scripts/Managers/GameManager.cs:249-250 | n successive spawns list the handles first, first + 1, ..., first + n - 1: fresh, distinct and in order |
| `Game.GameManager.AsWrittenSpawnsOnEverySearch` | Assets/Scripts/Managers/GameManager.cs:163-169 | With the guard as written, all n searches spawn an enemy. Spawning only on a found cell gives fewer than n as soon as one search fails |
| `Game.FailedSearchStillSpawns` | Assets/Scripts/Managers/GameManager.cs:166 | Under Unity's `Vector2` equality, `spawnPos != Vector2.negativeInfinity` holds for every search result, the not-found sentinel included |
| `UnityVector.SentinelUnequalToItself` | Assets/Scripts/Managers/GameManager.cs:166 | negativeInfinity minus itself is NaN, so the sentinel is not `==` to itself |
| `UnityVector.FiniteComparisons` | Assets/Scripts/Managers/GameManager.cs:166 | A finite vector is `==` to itself and never `==` to negativeInfinity |
| `Game.GameManager.UpdateWaveSystem` | Assets/Scripts/Managers/GameManager.cs:88-96 | The timer runs down by dt, and exactly when it is then at or below 0 the next wave starts and is announced |
| `Game.GameManager.NextWave` | Assets/Scripts/Managers/GameManager.cs:146-159 | wave := wave+1, maxEnemies := startMax + (wave-1)*increase, timer := wave duration, the wave is announced, and the portal cap gets one more on even waves below 4 |
| `Game.GameManager.Update` | Assets/Scripts/Managers/GameManager.cs:79-86 | Without a player nothing changes. Otherwise the wave state is the wave step's on dt, and the returned search is the portal search on the old list when it is due (timer expired, fewer than maxPortals listed), not found otherwise. The next handle goes up by one exactly on a found cell, which the corrected guard lists. The frame aborts exactly when the search throws; both lists are then unchanged, the portal timer stays run down, and the only event is the wave announcement if the wave timer expired. Otherwise the portal timer is reset exactly when a search was due, the portal list is the old list plus the found portal minus the destroyed ones, the enemy list loses exactly its destroyed enemies, and the events are the wave announcement if due, then the enemy count if any enemy was removed |
| `Game.GameManager.UpdatePortalSystem` | Assets/Scripts/Managers/GameManager.cs:98-109 | A search is tried exactly when the timer has expired and fewer than maxPortals are listed, destroyed ones included. Its outcome is the portal search on the old list, and, under the corrected guard, a found cell is listed with the next handle, which then goes up by one. If the search throws, the timer stays run down and the list is unchanged. Otherwise the timer is reset exactly when a search was tried, and the destroyed portals are removed, so only live ones stay |
| `Game.GameManager.RemoveDestroyedPortals` | Assets/Scripts/Managers/GameManager.cs:108 | The list loses exactly its destroyed portals, keeping the order of the rest, and only live portals remain |
| `Game.GameManager.TrySpawnPortal` | Assets/Scripts/Managers/GameManager.cs:173-181 | The outcome is the portal search. A found cell passes every check and is listed with the next handle; otherwise nothing is listed. With no destroyed portal listed it never throws, and it finds a cell exactly when some tried draw passes the checks |
| `Game.GameManager.SpawnEnemyAtPosition` | Assets/Scripts/Managers/GameManager.cs:111-121 | Same logic as SpawnEnemy: exactly one enemy appended and the count announced when prefabs exist, otherwise no change |
| `Game.GameManager.SpawnEnemy` | Assets/Scripts/Managers/GameManager.cs:244-253 | Exactly one fresh enemy appended and the count announced when prefabs exist; no change otherwise |
| `Game.GameManager.UpdateEnemyList` | Assets/Scripts/Managers/GameManager.cs:123-132 | Exactly the destroyed enemies are removed, in order, and the kill count is unchanged. Returns the number removed, and the count is announced only if some were removed |
| `Game.GameManager.OnEnemyDied` | Assets/Scripts/Managers/GameManager.cs:134-144 | A listed enemy is removed and counted as one kill; an unlisted one changes nothing. It is not listed afterwards, so repeated calls count once |
| `Game.GameManager.FreeIsInside` | Assets/Scripts/Managers/GameManager.cs:255-264 | IsPositionFree is false outside the game area and on an obstacle |
| `Game.GameManager.IsInsideGameArea` | Assets/Scripts/Managers/GameManager.cs:238-242 | Definition: the cell lies within the bounds set at Start, bounds included |
| `Game.GameManager.IsPositionFree` | Assets/Scripts/Managers/GameManager.cs:255-264 | Definition: inside the game area and not on the obstacle layer; stated by `Game.GameManager.FreeIsInside` |
| `Game.GameManager.FindFreeSpawnPosition` | Assets/Scripts/Managers/GameManager.cs:215-236 | Returns the first of at most 20 draws that is free and more than 3 from the player, and not found exactly when none of them passes |
| `Game.GameManager.FreeSearchFrom` | Assets/Scripts/Managers/GameManager.cs:215-236 | Definition of the 20-try loop from try i: the first draw that is free and more than 3 units from the player, or none; stated by `Game.GameManager.FreeSearchFirstMatch` |
| `Game.GameManager.FreeSearchFirstMatch` | Assets/Scripts/Managers/GameManager.cs:217-235 | The search finds nothing exactly when no tried draw passes, and otherwise finds the first draw that does |
| `Game.GameManager.FindPortalSpawnPosition` | Assets/Scripts/Managers/GameManager.cs:195-213 | Returns the first of at most 20 draws that is free, at least 2 from every listed portal (all of them alive) and at least minDistance from the player. Not found exactly when every draw is skipped. It throws only when some listed portal is destroyed; with all alive it never throws, and finds nothing exactly when no draw meets the checks |
| `Game.GameManager.IsTooCloseToOtherPortal` | Assets/Scripts/Managers/GameManager.cs:266-276 | Walks the listed portals in order and stops at the first destroyed or too-close one. The answer is Clear exactly when every listed portal is alive and at least 2 units away |
| `Game.PortalProximity` | Assets/Scripts/Managers/GameManager.cs:266-276 | Definition of IsTooCloseToOtherPortal as an ordered walk: a destroyed listed portal throws, a live one closer than 2 units gives true; stated by `Game.ProximityClear`, `Game.ProximityMissing` and `Game.ProximityLive` |
| `Game.PortalProximityScan` | Assets/Scripts/Managers/GameManager.cs:266-276 | The walk is Clear exactly when every portal is alive and at least 2 away. It throws exactly when it reaches a destroyed portal before any live one that is too close. With all alive it never throws, and it says too close exactly when some portal is closer than 2 |
| `Game.ProximityClear` | Assets/Scripts/Managers/GameManager.cs:268-275 | The walk ends without a hit exactly when every listed portal is alive and at least 2 units away |
| `Game.ProximityMissing` | Assets/Scripts/Managers/GameManager.cs:268-275 | The walk throws exactly when it reaches a destroyed portal before any live portal closer than 2 |
| `Game.ProximityLive` | Assets/Scripts/Managers/GameManager.cs:268-275 | With every listed portal alive, the walk never throws, and it says too close exactly when some portal is closer than 2 |
| `Game.GameManager.PortalVerdictMeaning` | Assets/Scripts/Managers/GameManager.cs:204-206 | A draw is taken exactly when it is free, far enough from the player, and every listed portal is alive and at least 2 away. The search throws on it exactly when it is free and the walk reaches a destroyed portal. With all alive, it is taken exactly when it meets the reference checks |
| `Game.GameManager.PortalVerdict` | Assets/Scripts/Managers/GameManager.cs:204-207 | Definition of the loop body test of FindPortalSpawnPosition, in its order: not free rejects, a throwing proximity walk aborts, a close portal or too short a player distance rejects; stated by `Game.GameManager.PortalVerdictMeaning` |
| `Game.GameManager.PortalSearchFrom` | Assets/Scripts/Managers/GameManager.cs:195-213 | Definition of the portal search from try i: the first accepted draw, an abort where the walk throws, or not found; stated by `Game.GameManager.PortalSearchFirstMatch` and `Game.GameManager.PortalSearchWithoutDestroyed` |
| `Game.GameManager.PortalSearchFirstMatch` | Assets/Scripts/Managers/GameManager.cs:197-212 | Not found exactly when every tried draw is skipped. Otherwise the first draw not skipped decides: it is the found cell, or the draw on which the search throws |
| `Game.GameManager.PortalSearchWithoutDestroyed` | Assets/Scripts/Managers/GameManager.cs:197-212 | With every listed portal alive the search never throws. It finds a cell exactly when some tried draw meets the checks, and the cell is the first such draw |
| `Game.KillCountedOnce` | Assets/Scripts/Managers/GameManager.cs:134-144 | Two death notifications for one enemy add at most one kill |
| `Portals.Portal.Start` | Assets/Scripts/Environment/Enemies/Portal.cs:18-23 | The spawn timer starts at a full interval and the portal is open |
| `Portals.Portal.CanSpawnEnemy` | Assets/Scripts/Environment/Enemies/Portal.cs:40-44 | Definition: a game manager exists and its enemy list is below its current cap; `Portals.Portal.Update` relies on it for its cap guard |
| `Portals.Portal.Update` | Assets/Scripts/Environment/Enemies/Portal.cs:24-38 | A closing portal changes nothing. Otherwise, on expiry it spawns exactly when the manager is below its cap, and the timer resets either way. A spawn with prefabs lists one enemy with the next handle and announces the count, and nothing else of the manager changes. Starting at or below the cap, the manager stays at or below it |
| `Portals.Portal.ClosePortal` | Assets/Scripts/Environment/Enemies/Portal.cs:46-52 | Sets the closing flag; the closing routine starts only on the first call |
| `Portals.Portal.SpawnEnemy` | Assets/Scripts/Environment/Enemies/Portal.cs:54-58 | With prefabs, the manager lists one enemy with the next handle and announces the new count; without prefabs it is unchanged. Nothing else of the manager changes |
| `Portals.CloseTwice` | Assets/Scripts/Environment/Enemies/Portal.cs:46-52 | Two ClosePortal calls start the closing routine once |
| `Player.FacingPriority` | Assets/Scripts/Player/PlayerControler.cs:111-117 | Vertical velocity decides the sprite regardless of horizontal velocity and previous sprite. Horizontal velocity decides only without vertical motion, and at rest the sprite is kept |
| `Player.FacingFor` | Assets/Scripts/Player/PlayerControler.cs:111-117 | Definition of UpdateSpriteDirection: up or down on vertical velocity, then left or right on horizontal velocity, otherwise the sprite is kept; stated by `Player.FacingPriority` |
| `Player.PlayerController.Start` | Assets/Scripts/Player/PlayerControler.cs:49-54 | Full health, no bombs out, and the bomb count announced with the capacity |
| `Player.PlayerController.OnPlaceBomb` | Assets/Scripts/Player/PlayerControler.cs:119-125 | A bomb is placed exactly when the input is performed, placing is allowed, bombs < capacity and the cell is clear; otherwise nothing changes. Only the bomb bookkeeping and the events may change, so health, invincibility and the placing flag are kept. Outstanding bombs stay at or below the capacity |
| `Player.PlayerController.TryPlaceBomb` | Assets/Scripts/Player/PlayerControler.cs:127-138 | An occupied cell aborts with no state change; a clear one places the bomb, one count higher and announced, changing only the bomb bookkeeping and the events |
| `Player.PlayerController.PlaceBomb` | Assets/Scripts/Player/PlayerControler.cs:145-158 | One new bomb outstanding, currentBombs up by exactly 1, and the count announced |
| `Player.PlayerController.OnBombExploded` | Assets/Scripts/Player/PlayerControler.cs:151-154 | The exploded bomb is no longer outstanding, currentBombs goes down by exactly 1, and the count is announced |
| `Player.PlayerController.TakeDamage` | Assets/Scripts/Player/PlayerControler.cs:166-178 | While invincible nothing changes. Otherwise health drops by exactly the damage and the player dies exactly when it is then at or below 0 |
| `Player.PlayerController.Die` | Assets/Scripts/Player/PlayerControler.cs:180-184 | The death is announced and the player deactivated |
| `Player.PlayerController.RefreshHearts` | Assets/Scripts/Player/PlayerControler.cs:76-100 | Afterwards heart i is full exactly when i < health and enabled exactly when i < maxHealth |
| `Upgrades.PickupsCount` | Assets/Scripts/Player/PlayerUpgradeManager.cs:28-45 | After any pickups, bomb count and range have risen by the number of their pickups, speed pickups change neither, and neither ever decreases |
| `Upgrades.PlayerUpgradeManager.constructor` | Assets/Scripts/Player/PlayerUpgradeManager.cs:20-21 | Bomb count and range both start at 1 |
| `Upgrades.PlayerUpgradeManager.AddBombCount` | Assets/Scripts/Player/PlayerUpgradeManager.cs:28-33 | Bomb count +1, range unchanged, and the new bomb count notified |
| `Upgrades.PlayerUpgradeManager.AddRange` | Assets/Scripts/Player/PlayerUpgradeManager.cs:35-39 | Range +1, bomb count unchanged, and the new range notified |
| `Upgrades.PlayerUpgradeManager.AddSpeedBoost` | Assets/Scripts/Player/PlayerUpgradeManager.cs:41-45 | Both counters unchanged, and the current range (not the speed) notified |
| `Upgrades.PlayerUpgradeManager.OnPickup` | Assets/Scripts/UpgradeSystem/UpgradePickups/BombCountUpgrade.cs:7-12 | A pickup applies its own single increment once and fires one notification: the new bomb count after a bomb pickup, and the current range otherwise (the same shape as the range and speed pickups) |
| `Enemies.AxisAlignedIsUnitStep` | Assets/Scripts/Environment/Enemies/Enemy.cs:90-96 | The axis direction is horizontal exactly when abs(x) > abs(y), so ties go vertical. Exactly one component is non-zero, it is plus or minus 1, and it has the sign of the chosen axis (0 counts as positive) |
| `Enemies.AxisAlignedDirection` | Assets/Scripts/Environment/Enemies/Enemy.cs:90-96 | Definition of GetAxisAlignedDirection with Mathf.Abs and Mathf.Sign (Sign(0) = 1); stated by `Enemies.AxisAlignedIsUnitStep` |
| `Enemies.Enemy.constructor` | Assets/Scripts/Environment/Enemies/Enemy.cs:7-8 | The enemy starts with its serialized health and damage, alive and with no drops |
| `Enemies.Enemy.TakeDamage` | Assets/Scripts/Environment/Enemies/Enemy.cs:98-102 | Health drops by exactly the damage; Die happens exactly when it is then at or below 0. The kill is counted once, only if the manager still lists the enemy, and then the new count and kill total are announced. Otherwise the manager is unchanged |
| `Enemies.Enemy.ApplyDamage` | Assets/Scripts/Environment/Enemies/Enemy.cs:104-107 | The target takes this enemy's own damage |
| `Enemies.Enemy.Die` | Assets/Scripts/Environment/Enemies/Enemy.cs:109-115 | Maybe drops, notifies the manager and destroys the enemy. A listed enemy is removed, counted as one kill, and the count and kill total are announced; an unlisted one leaves the manager unchanged. Either way it is not listed afterwards |
| `Enemies.Enemy.TryDropUpgrade` | Assets/Scripts/Environment/Enemies/Enemy.cs:138-144 | DropRandomUpgrade is called exactly when the roll succeeds and possibleDrops is non-empty, so never when it is empty |
| `Walls.DestructibleWall.constructor` | Assets/Scripts/Environment/Wall/DestructibleWall.cs:6-7 | Starts with the given health and effect, not destroyed |
| `Walls.DestructibleWall.TakeDamage` | Assets/Scripts/Environment/Wall/DestructibleWall.cs:9-18 | Health drops by exactly the damage, and the wall is destroyed exactly when it is then at or below 0 |
| `Walls.DestructibleWall.DestroyWall` | Assets/Scripts/Environment/Wall/DestructibleWall.cs:20-28 | The effect is spawned only when there is one; the wall is destroyed either way |
| `Walls.ThreeUnitHitsDestroyDefaultWall` | Assets/Scripts/Environment/Wall/DestructibleWall.cs:6-17 | A default wall (health 3) survives two unit hits and is destroyed by the third |
| `Boundary.ClampedIsInside` | Assets/Scripts/Player/PlayerBoundary.cs:11-12 | With min <= max, x ends in [xMin, xMax] and y in [zMin, zMax] |
| `Boundary.Clamp` | Assets/Scripts/Player/PlayerBoundary.cs:11-12 | Definition of Mathf.Clamp, which tests the minimum first; stated by the `Boundary` lemmas |
| `Boundary.ClampPosition` | Assets/Scripts/Player/PlayerBoundary.cs:10-13 | Definition of the position Update writes back: x clamped to [xMin, xMax], y to [zMin, zMax]; stated by `Boundary.ClampedIsInside`, `Boundary.ClampIdempotent` and `Boundary.AxesIndependent` |
| `Boundary.InsideUnchanged` | Assets/Scripts/Player/PlayerBoundary.cs:11-13 | A position already inside the bounds is unchanged |
| `Boundary.ClampIdempotent` | Assets/Scripts/Player/PlayerBoundary.cs:11-13 | With min <= max, clamping twice equals clamping once |
| `Boundary.AxesIndependent` | Assets/Scripts/Player/PlayerBoundary.cs:11-12 | The new x depends only on the old x, and the new y only on the old y |
| `Boundary.InvertedBoxNotIdempotent` | Assets/Scripts/Player/PlayerBoundary.cs:11-12 | With min > max on an axis, clamping is not idempotent, because Mathf.Clamp tests the minimum first |
| `Collections.RemoveFirst` | Assets/Scripts/Managers/GameManager.cs:138 | Definition of List.Remove: the first occurrence, if any, is dropped |
| `Collections.RemoveFirstMultiset` | Assets/Scripts/Managers/GameManager.cs:138 | Remove takes out exactly one copy of a listed element, and leaves a list without it unchanged |
| `Collections.RemoveFirstDistinct` | Assets/Scripts/Managers/GameManager.cs:136-138 | On a list without duplicates, Remove leaves the element unlisted, keeps every other element and keeps the list free of duplicates |
| `Collections.RemoveAll` | Assets/Scripts/Managers/GameManager.cs:126 | Definition of List.RemoveAll: the elements the predicate rejects stay, in their order |
| `Collections.RemoveAllMembers` | Assets/Scripts/Managers/GameManager.cs:126 | An element stays exactly when it was listed and the predicate rejects it, the list does not grow, and a list with nothing to remove is unchanged |
| `Collections.RemoveAllDistinct` | Assets/Scripts/Managers/GameManager.cs:126 | RemoveAll keeps a list free of duplicates |

## Left out

- Rendering, tweens, gizmos, camera shake and the upgrade UI: presentation only. This covers `DOFade`, the `Destroy(gameObject, timeToLive)` of an explosion, the `OnDrawGizmos*` methods, `CameraShake.cs` and `PlayerUpgradeUI.cs`.
- Input, menus and scenes: `PlayerMovement.cs`, `SoundMenuController.cs`, `RestartButton.cs`, `OnMove`, and the velocity write in `FixedUpdate`. The facing rule takes the velocity as input.
- Physics queries and their float geometry: `OverlapCircle`, `OverlapCircleAll`, `OverlapPoint`, the collider centre and 80% radius of an explosion, and the bomb-cell clearance test. These are the inputs `hitAt`, `obstacleAt`, `hits` and `positionClear`.
- Randomness: `Random.Range` for spawn cells (given draws), for the enemy prefab choice (any prefab gives one enemy, so only the count of prefabs is kept), and for the drop roll (a boolean input). Which upgrade is dropped is left out too.
- Coroutines and timers: `ExplodeAfterDelay` and `WaitForSeconds` are an integer countdown in `Tick`. `Invoke("ClosePortal", lifetime)` is left to the caller of `ClosePortal`. `ClosePortalRoutine`, its animation length and the portal's final `Destroy` are left out, because only the closing flag matters to the simulation.
- `Game.GameManager.SpawnEnemyAtPosition`: the position where an enemy is instantiated is not kept, because the manager tracks enemies by handle only.
- `GameManager.Awake` and the singleton lookups (`GameManager.Instance`, `PlayerUpgradeManager.Instance`) are left out: the model passes the instance explicitly, and a missing one as `null`.
- `TrySpawnEnemyFromPortal` is a private method that nothing calls, so it is left out. `GetWaveProgress` returns a float progress value for display and is left out too.
- Enemy pathfinding (`Seeker`, waypoints, `UpdatePath`, `Update`) and the enemy's facing sprite are left out. Only the axis snapping `GetAxisAlignedDirection` is modelled.
- The world-to-grid rounding (`Mathf.Round(x) - 0.5f`) is left out. Spawn candidates and explosion cells are integer cells.
- `Upgrades.PlayerUpgradeManager.AddSpeedBoost`: the float speed value `_speedBoost` and its `factor` are left out. Only the notification payload and the integer counters are modelled.
- `Upgrades.PlayerUpgradeManager.OnPickup`: the pickup objects destroying themselves after use (`Destroy(gameObject)`, or `Destroy(this)` for the speed pickup) is left out, since pickups are values here.
- `Bomb.UpdateBombStats` and `Bomb.OnExploded` are not part of this model (`Bomb.cs` does not define them). The player's explosion callback is `OnBombExploded`, called by the environment once per placed bomb. `GetExplosionTypeForPosition` is the parameter `roleOf`.
- Delivering a `Delivery` to the matching player, enemy or wall object is left to the caller. Each class models its own `TakeDamage`, so dispatch through an interface is not modelled.
- `OnTriggerEnter2D` (a pickup calls its `OnPickup`, a damage dealer its `ApplyDamage` on the player) is left to the caller, as is the dispatch of deliveries. `portalSpawnDistance` and `maxDistanceFromPlayer` are read nowhere in the core and are left out.
- `Game.GameManager.Start` assumes a Player-tagged object exists. Without one, `FindGameObjectWithTag("Player").transform` throws at GameManager.cs:71, Start stops after setting the bounds (the enemy cap, the timers and the initial enemies are never set), and every later `Update` returns at once on `player is null`. The model starts from a known player position.
- `Game.GameManager.Update` takes the destroyed portals and enemies as sets of handles. They are meant to hold only handles issued before the frame, since an object instantiated during the frame never compares `== null` at GameManager.cs:108 and :126. The contract does not require this, so a set holding `nextHandle` would remove the portal listed in the same frame.
- Player position z: `PlayerBoundary.Update` writes a `Vector2` back into a `Vector3` position, which also sets z to 0. The model is planar and does not track z.
- `Game.GameManager.SpawnInitialEnemies`, `Game.GameManager.SpawnIfFound`, `Game.GameManager.TrySpawnPortal`, `Game.GameManager.Start`, `Game.GameManager.UpdatePortalSystem` and `Game.GameManager.Update` spawn only after a search that found a cell; the last four inherit this from `SpawnIfFound` and `TrySpawnPortal`. As written, the guard also lets a failed search through, which the Findings table records.

## Findings

| source | as written | input that shows it | evidently intended | confidence | as-written member | corrected member |
|---|---|---|---|---|---|---|
| Assets/Scripts/Managers/GameManager.cs:165-169 | `spawnPos != Vector2.negativeInfinity` is true for the sentinel itself: negativeInfinity minus itself is NaN, and a `<` comparison with NaN is false | every draw occupied: FindFreeSpawnPosition returns negativeInfinity, and SpawnEnemy still instantiates an enemy at that position | spawn an enemy only when a free cell was found | high, given Unity's published `Vector2` equality; not executed | `Game.GameManager.AsWrittenSpawnsOnEverySearch` | `Game.GameManager.SpawnInitialEnemies` |
| Assets/Scripts/Managers/GameManager.cs:175-180 | the same guard after FindPortalSpawnPosition | no draw passes the portal checks: a portal is still instantiated at negativeInfinity and listed | list a portal only when a cell was found | high, given Unity's published `Vector2` equality; not executed | `Game.FailedSearchStillSpawns` | `Game.GameManager.TrySpawnPortal` |
