# Zombie shooter: the per-frame simulation, modelled and proved in Dafny

The repository holds one top-down zombie shooter in three versions: the
pygame game (`main.py`), a near-identical copy of it
(`zombie-py/main.py`), and a p5.js port (`zombie-js/sketch.js`). This
project models what a frame of play does in each version:

- the player, who moves, aims, fires bullets under a cooldown, takes
  damage and carries four power-up timers;
- the wave clock and zombie spawning;
- the zombies' walk towards the player;
- collisions between zombies, the player and bullets;
- bullet flight;
- power-up pickups;
- blood splatters and explosions;
- the AI assistant's automatic fire;
- the e-mail text around the game-over screen: masking, the `TextInput`
  widget, the address pattern and the key handling.

Both Python files run the same game loop, player, effects, text input and
masking. They are modelled once, in the `Py*` modules, and the rows cite
`main.py`. That includes the game-over e-mail entry (`show_game_over_screen`),
which both Python files carry line for line.
The p5.js game differs in many constants and in the order of its passes,
so it has its own `Js*` modules. Modules shared by all three versions:
`Powerups`, `Entities`, `Effects` and `Strings`.

Modules:

- `Powerups`: the four power-up kinds, with their names and durations. The
  timer table is a record with one counter per kind. `Tick` counts every
  timer down once. `Grant` restarts one timer at its full duration.
- `Entities`: the zombie, bullet and pickup values; one step of a zombie
  or a bullet; the nearest-zombie search.
- `Effects`: blood splatters and explosions as classes whose frame
  counters `Update` advances in place; the per-frame pass that updates
  them and drops those that have finished.
- `Strings`, `PyText`, `JsText`: splitting an address on `@`; masking an
  address for display; text editing; the address pattern.
- `PyPlayer`, `PyWaves`, `PyRules`, `PyGame`: the Python game. `PyRules`
  states each per-frame pass as a function of the lists before the pass.
  Class `PyGame.Game` holds the loop's variables as fields. Its methods
  update them in place, and each is proved to end in exactly the state
  those functions compute.
- `JsPlayer`, `JsRules`, `JsGame`: the p5.js game in the same form. Its
  passes walk each list from the last index down and splice in place; the
  loop invariants are the predicates `Mauled`, `Tracked`, `Gleaned` and
  `TickedUpTo`.

The following come from outside the program and are parameters of each
frame:

- randomness: spawn edges and offsets, pickup positions and kinds, and
  the 15% drop;
- the maths library: square root, sine, cosine, arc tangent and pi;
- the input devices;
- the leaderboard service's answer.

Floating-point numbers are exact reals.

## Model

| member | source | states |
|---|---|---|
| Powerups.KindsListsEveryKind | main.py:315-320 | the timer table's iteration order lists every power-up kind |
| Powerups.Name | main.py:91-96 | every kind has a non-empty display name |
| Powerups.Duration | main.py:91-96 | every duration lies between 180 and 300 frames (Speed Boost 180, Rapid Fire 200, Shield 240, AI Assistant 300) |
| Powerups.Timers.Set | main.py:391 | writing a kind's timer sets that entry and leaves every other kind's entry alone |
| Powerups.TimersAgree | main.py:315-320 | two timer tables that agree on every kind are equal, since the table has exactly the four kinds as keys |
| Powerups.IdleWellFormed | main.py:315-320 | the starting table has every timer at 0, so none is negative |
| Powerups.TickOne | main.py:401-403 | a running timer loses exactly one frame; a stopped one stays where it is |
| Powerups.Tick | main.py:399-408 | one frame ticks every kind on its own, and no timer becomes negative |
| Powerups.TickManyClosedForm | main.py:399-403 | after n frames without a pickup a timer reads its start minus n while that is positive and exactly 0 afterwards: it never goes negative and stops after exactly its start value |
| Powerups.TickMany | main.py:399-403 | any number of frames without a pickup keeps every timer non-negative |
| Powerups.Grant | main.py:390-391 | a pickup sets its kind's timer to the full duration, not adding what was left, and leaves the other kinds unchanged |
| Powerups.GrantDoesNotStack | main.py:391 | re-picking a kind before it runs out gives the same table whatever was left of it: pickups do not stack |
| Powerups.GrantAll | main.py:1111-1118 | granting a sequence of pickups keeps every timer non-negative |
| Powerups.GrantAllTimers | main.py:1111-1118 | after a sequence of pickups each kind picked holds its full duration and every other kind is unchanged, whatever the order or repeats |
| Powerups.GrantAllSnoc | main.py:1111-1118 | granting one more pickup extends the sequence by that pickup's grant |
| Entities.Without | main.py:1044 | removing element i keeps every other element, in order |
| Entities.Shots | main.py:359-374 | a shot is one bullet, or three under Rapid Fire; all leave from the muzzle point and belong to the gun, and bullet k points at the aim plus (k minus the middle index) times 0.1, so the middle one follows the aim |
| Entities.FacingOf | main.py:460-463 | a walker faces left or right exactly when the horizontal part of its motion is strictly larger, and then towards the sign of that part; otherwise it faces down when moving down and up in every other case, a standstill included |
| Entities.ScaledFacing | main.py:450-463 | normalising a velocity by a positive length does not change the facing it gives |
| Entities.MoveZombie | main.py:445-463 | a zombie step keeps the zombie's speed and faces it along the larger axis of the offset to the target; it moves right exactly when the target is right of its centre, and likewise on every side |
| Entities.MoveBullet | main.py:480-483 | a bullet step keeps the angle and moves exactly 10 times (cos, sin) of the angle |
| Entities.NearestIndex | main.py:1238-1242 | the index returned is nearest to the point among all zombies, and strictly nearer than every earlier one, so ties go to the first |
| Effects.RunClosedForm | main.py:512-517 | after k updates an effect shows picture k div delay and its counter is k mod delay, so the counter stays below delay |
| Effects.Step | main.py:512-517 | with the counter below the delay, one update adds exactly one to frame times delay plus counter and keeps the counter below the delay |
| Effects.Run | main.py:512-517 | after k updates of a fresh effect, frame times delay plus counter is k and the counter is below the delay |
| Effects.Lifetime | main.py:512-517 | the state after k updates still shows a picture exactly when k < maxFrames times delay: updates 1 to maxFrames times delay minus 1 answer true, and update maxFrames times delay is the first to answer false |
| Effects.Splatter.Py | main.py:503-510 | a Python blood splatter starts at picture 0 of 5, 3 frames per picture, at the given point |
| Effects.Splatter.Js | zombie-js/sketch.js:1525-1531 | a p5.js blood splatter starts at picture 0 of 10, 3 frames per picture |
| Effects.Splatter.Update | main.py:512-517 | an update advances the picture every delay calls and answers whether pictures remain |
| Effects.LivingSplatters | main.py:1132-1134 | the splatters kept are exactly those with pictures left, all of them from the list |
| Effects.LivingSplattersFrame | main.py:1132-1134 | which splatters are living depends only on the splatters' own state |
| Effects.LivingSplattersDistinct | main.py:1132-1134 | dropping finished splatters keeps the list free of repeats |
| Effects.UpdateSplatters | main.py:1132-1134 | every splatter is updated exactly once and the list becomes the living ones, in order |
| Effects.Explosion.Py | main.py:524-531 | a Python explosion starts at picture 0 of 6, 2 frames per picture |
| Effects.Explosion.Js | zombie-js/sketch.js:1578-1585 | a p5.js explosion starts at picture 0 of 10, 2 frames per picture |
| Effects.Explosion.Update | main.py:533-538 | an update advances the picture every delay calls and answers whether pictures remain |
| Effects.LivingExplosions | main.py:1136-1138 | the explosions kept are exactly those with pictures left |
| Effects.LivingExplosionsFrame | main.py:1136-1138 | which explosions are living depends only on their own state |
| Effects.LivingExplosionsDistinct | main.py:1136-1138 | dropping finished explosions keeps the list free of repeats |
| Effects.UpdateExplosions | main.py:1136-1138 | every explosion is updated exactly once and the list becomes the living ones, in order |
| Strings.IndexOf | main.py:666 | the position found holds the separator and no earlier position does; it is the length exactly when there is no separator |
| Strings.Before | main.py:666-667 | the first field is a prefix of the string and holds no separator |
| Strings.After | main.py:666-668 | first field, separator and rest put back together give the string |
| Strings.SecondField | main.py:668 | the second field holds no separator, starts the rest, and is all of it when no second separator follows |
| Strings.Stars | main.py:672 | n stars |
| Strings.SplitAt | main.py:666-668 | a separator-free prefix followed by the separator splits exactly there |
| PyText.MaskEmail | main.py:662-676 | an address without `@` is returned as it is; otherwise the user part keeps its length and first character with every other character starred, and the domain is the second `@`-separated field |
| PyText.MaskEmailIdempotent | main.py:662-676 | masking a masked address changes nothing |
| PyText.Edit | main.py:564-570 | Backspace drops the last character (nothing on empty text); Return leaves the text; another key appends its character exactly when it is printable |
| PyText.TextInput.constructor | main.py:547-557 | a new field is inactive and empty, with the cursor shown |
| PyText.TextInput.HandleEvent | main.py:559-571 | a click activates the field exactly when it lands inside it; keys edit only an active field; the answer is true exactly for Return in an active field |
| PyText.TextInput.Update | main.py:573-578 | the cursor toggles every 30 frames and the blink counter stays below 30 |
| PyText.WholeMatchIsSpec | main.py:1521 | the search-free check of the address pattern accepts exactly the strings that some split into local part, `@`, host, `.` and tail matches |
| PyText.WholeMatch | main.py:1521 | an address the search-free check accepts has at least five characters (local part, `@`, host, `.`, tail) and does not end in a newline |
| PyText.MatchesEmailPattern | main.py:1521 | `re.match` with the pattern accepts exactly the strings that split into local part, `@`, host, `.` and tail as the pattern reads, and those strings followed by one final newline, which `$` lets through |
| PyText.WholeMatchWitness | main.py:1521 | an address the check accepts has a split matching the pattern |
| PyText.PartsWitness | main.py:1521 | a split into valid local part, host and tail matches the pattern |
| PyText.SplitWitness | main.py:1521 | valid split points are a witness of the pattern |
| PyText.SplitPointsAreFirst | main.py:1521 | any split matching the pattern is at the first `@` and the first `.` after it, so the check accepts the string |
| PyText.SubmittableHasAt | main.py:1567-1569 | an address the pattern accepts is non-empty and contains `@` |
| PyText.GameOverEntry.constructor | main.py:1494-1497 | the entry starts empty and active, nothing submitted, waiting on the screen |
| PyText.GameOverEntry.Submit | main.py:1567-1577 | a valid non-empty address is submitted exactly when the service accepts it; otherwise the screen says it failed or that the address is invalid, and nothing is submitted |
| PyText.GameOverEntry.HandleEvent | main.py:1545-1583 | Return in the active field and a Submit click on a non-empty address keep the address and have exactly Submit's outcome (submitted and done when valid and accepted, failure or invalid notice otherwise); only a valid address is ever submitted; clicks do not edit; keys never change whether the field is active; typing respects the 30-character limit; Skip stops waiting; keys on an inactive field change nothing; no key but Return in the active field and no click on the input box changes whether the score was submitted or the screen is waiting |
| PyPlayer.Damaged | main.py:416-418 | a hit leaves health between 0 and what it was, 0 exactly when the hit is at least the health, and health minus the hit otherwise |
| PyPlayer.DamagedRepeatedly | main.py:410-420 | n hits of the same amount leave max(0, health - n times amount) |
| PyPlayer.Hits | main.py:416-418 | repeated hits never raise health or take it below 0 |
| PyPlayer.Stepped | main.py:346-355 | a move changes at most one coordinate, by exactly 5 and only towards dir while that side of the screen is not reached, so the player never leaves the band one step around the screen |
| PyPlayer.Sector | main.py:337-344 | the facing is the quarter turn around the aim angle: right, down, up or left |
| PyPlayer.Player.constructor | main.py:303-324 | the player starts centred, with 100 health, no score, facing right and idle timers |
| PyPlayer.Player.UpdateAim | main.py:326-344 | the angle is the arc tangent of the offset from the player's centre to the mouse, and the facing is its sector |
| PyPlayer.Player.Move | main.py:346-357 | the position becomes the stepped one and the facing becomes dir |
| PyPlayer.Player.Shoot | main.py:359-374 | one bullet along the aim, or three at aim minus 0.1, aim and aim plus 0.1 under Rapid Fire, all from the muzzle; the volley is Entities.Shots of the muzzle, the aim and Rapid Fire |
| PyPlayer.Player.ApplyPowerup | main.py:390-397 | the picked kind's timer restarts at its full duration, Speed Boost raises the speed to 7.5, and the message names the kind |
| PyPlayer.Player.UpdatePowerups | main.py:399-408 | every timer ticks once, and the speed returns to 5 exactly on the frame Speed Boost reaches 0 |
| PyPlayer.Player.TakeDamage | main.py:410-420 | behind a shield nothing changes; otherwise health drops by the hit, clamped at 0, and the answer says whether it reached 0 |
| PyWaves.ZombiesPerWave | main.py:1003-1005 | zombies per second are about half the wave number, at least 1 |
| PyWaves.ZombiesPerWaveGrows | main.py:1003-1005 | zombies per second never fall as waves go by |
| PyWaves.SpawnRate | main.py:1009-1011 | the spawn interval lies in [10, 60]; it is 60 exactly at 1 zombie per second and 10 exactly from 6 |
| PyWaves.SpawnRateShrinks | main.py:1009-1011 | a denser wave never spawns less often |
| PyWaves.BatchSize | main.py:1014-1016 | one more zombie per batch every three waves, at least 1 |
| PyWaves.ZombieSpeed | main.py:1020-1022 | new zombies are faster than 2 and at most 4, reaching 4 exactly from wave 10 |
| PyWaves.ZombieSpeedGrows | main.py:1020-1022 | zombie speed never falls as waves go by |
| PyWaves.SpawnPoint | main.py:428-441 | a new zombie's square is just outside the edge it was drawn for, touching it |
| PyRules.FirstHit | main.py:1055-1059 | the bullet chosen is inside the zombie and no earlier bullet is |
| PyRules.TouchesPlayer | main.py:1031-1036 | a zombie touches the player exactly when their centres are less than 32 pixels apart on both axes |
| PyRules.Contains | main.py:1055-1059 | a bullet is inside a zombie exactly when its point is less than 16 pixels from the zombie's centre on both axes |
| PyRules.Chase | main.py:1027-1028 | a zombie's step of the pass keeps its speed and moves it towards the player's centre on each axis, and not at all on an axis where the centres are level |
| PyRules.Resolve | main.py:1029-1072 | each zombie is counted exactly once, as kept, contact or kill; each kill spends exactly one bullet and leaves one explosion; each contact and each kill leaves one splatter; health never rises or goes below 0, and the score never falls |
| PyRules.ResolveTotals | main.py:1029-1072 | one zombie's resolution keeps health at 25 per unshielded contact below the start, clamped at 0, and the score at the start plus 10 per kill plus 5 per shielded contact |
| PyRules.Pass | main.py:1027-1072 | the collision pass never raises health, never takes it below 0 and never lowers the score |
| PyRules.PassTotals | main.py:1027-1072 | every zombie is kept, or removed once by contact or by one bullet; each kill spends one bullet; the score rises by 10 per kill (plus 5 per contact behind a shield); health falls 25 per unshielded contact down to 0; one splatter per removal and one explosion per kill |
| PyRules.PassLeavesClear | main.py:1027-1072 | after the pass no kept zombie touches the player or holds a remaining bullet, and every remaining bullet was there before |
| PyRules.ResolveKeepsClear | main.py:1031-1072 | resolving one zombie keeps the kept zombies clear of the player and of the bullets |
| PyRules.QuietPass | main.py:1027-1028 | a pass with no contact and no kill keeps every zombie, moved, in order |
| PyRules.FlownSpec | main.py:1075-1084 | the bullets kept are the moved bullets still on the screen: every one on screen is kept and nothing else |
| PyRules.OnScreen | main.py:1077-1083 | a bullet stays exactly when none of the four off-screen tests holds |
| PyRules.Flown | main.py:1075-1083 | the bullet pass never adds bullets |
| PyRules.Grabs | main.py:1112-1115 | the player collects a pickup exactly when the player's centre is less than 20 pixels from it on both axes |
| PyRules.Uncollected | main.py:1111-1118 | the collection pass never adds pickups |
| PyRules.Collected | main.py:1111-1118 | at most one kind is collected per pickup |
| PyRules.CollectionSplits | main.py:1111-1118 | every pickup the player's centre reaches is collected and every other one stays |
| PyRules.CollectStep | main.py:1111-1118 | the pass over one more pickup collects it exactly when the player's centre reaches it |
| PyRules.PassStep | main.py:1027-1072 | the pass over one more zombie resolves that zombie after its step |
| PyGame.CollidesWith | main.py:1827-1829 | rocks never block |
| PyGame.Spawned | main.py:1018-1023 | a new zombie is off screen and has the wave's speed |
| PyGame.Batch | main.py:1014-1023 | a batch holds BatchSize zombies, all off screen and no faster than 4 |
| PyGame.Announced | main.py:1116-1125 | after pickups the message names the last one collected, shown for 120 frames; with none nothing changes |
| PyGame.NearestUnique | main.py:1238-1242 | only one index is the first nearest zombie, so the assistant's target is determined |
| PyGame.AssistedDeterminate | main.py:1231-1262 | the assistant's step leaves exactly one possible bullet list |
| PyGame.AssistantShotAt | main.py:1244-1258 | the assistant's bullet leaves from the same point as a single shot of the player, marked as the assistant's, aimed from the player's centre at the target's corner |
| PyGame.Assisted | main.py:1231-1262 | the assistant appends one bullet when armed and a zombie exists, none otherwise, and leaves the earlier bullets as they were |
| PyGame.Game.constructor | main.py:930-951 | the loop starts at wave 1 with empty lists and zeroed counters, and a new player centred on the screen with 100 health, no score, facing right, aim 0, base speed and idle timers |
| PyGame.Game.FireInput | main.py:966-981 | the mouse fires when the cooldown is 0, the space bar when it has counted down to 0; at most one volley per frame, appended after the earlier bullets as Shots of the muzzle and the player's aim (three spread bullets under Rapid Fire); the cooldown is 4 or 9 after a click and 10 after a key |
| PyGame.Game.MoveInput | main.py:983-991 | the held keys move the player left, right, up, down in turn, and the last key held sets the facing |
| PyGame.Game.AdvanceWave | main.py:994-1005 | a new wave starts exactly every 1800 frames, sets zombies per second to follow the wave and shows the banner for 180 frames |
| PyGame.Game.SpawnZombies | main.py:1007-1024 | once the counter reaches the spawn interval a whole batch is appended and the counter restarts; otherwise nothing is added |
| PyGame.Game.AddSplatter | main.py:1038-1042 | one new splatter is appended and the earlier ones are kept |
| PyGame.Game.AddExplosion | main.py:1067 | one new explosion is appended and the earlier ones are kept |
| PyGame.Game.Contact | main.py:1031-1052 | a zombie reaching the player moves the game to the contact outcome: a splatter, and 25 damage or 5 points behind a shield |
| PyGame.Game.Shot | main.py:1054-1072 | a zombie hit by its first bullet moves the game to the kill outcome: both removed, 10 points, a splatter and an explosion |
| PyGame.Game.Meet | main.py:1030-1072 | one zombie moves the game from one outcome of the pass to the next |
| PyGame.Game.ResolveZombies | main.py:1027-1072 | the zombie loop ends in exactly the outcome of the pass |
| PyGame.Game.CollisionPass | main.py:1026-1072 | the zombies, bullets, health, score and new effects are exactly those the pass computes |
| PyGame.Game.MoveBullets | main.py:1074-1084 | the bullets become the moved bullets still on the screen |
| PyGame.Game.SpawnPickup | main.py:1093-1108 | every 600 frames a pickup of the drawn kind is placed at the drawn point, and the counter restarts |
| PyGame.Game.Grab | main.py:1116-1125 | a collected pickup restarts its kind's timer and is announced for 120 frames; the AI Assistant special case writes the same values again |
| PyGame.Game.CollectPickups | main.py:1110-1125 | the pickups left, the timers and the message are exactly those of the collection pass |
| PyGame.Game.GrabAll | main.py:1111-1125 | the pickup loop ends in exactly the state of the collection pass |
| PyGame.Game.Visit | main.py:1112-1125 | one pickup extends the collection pass by that pickup |
| PyGame.Game.UpdateSplatterList | main.py:1131-1134 | every splatter ages one frame and the list becomes the living ones |
| PyGame.Game.UpdateExplosionList | main.py:1136-1138 | every explosion ages one frame and the list becomes the living ones |
| PyGame.Game.AssistantFire | main.py:1231-1262 | a shot leaves exactly when the assistant runs, the tick is a multiple of 10 and a zombie exists; it goes from the muzzle towards the nearest zombie, the first on a tie, and the list is left as Assisted describes |
| PyGame.Game.HandleInput | main.py:954-991 | the tick advances by one and closing the window ends the game |
| PyGame.Game.WaveSection | main.py:993-1024 | the wave clock advances as AdvanceWave states, with its banner; the spawn counter then appends the wave's batch exactly when it reaches the spawn interval of the wave now running, and restarts |
| PyGame.Game.Combat | main.py:1026-1088 | the zombies, bullets, health, score and new splatters and explosions are those of the collision pass Pass over the zombies (Fights), the surviving bullets then moved and those off screen dropped (Flown); earlier effects are kept; the score never falls, health never rises, and the game ends once health is 0 |
| PyGame.Game.Engage | main.py:993-1088 | the wave clock advances; the score never falls, health never rises, the game ends once health is 0, and every new effect is fresh |
| PyGame.Game.PowerupSection | main.py:1090-1125 | the timers tick, the pickup clock may place a pickup, and then the pickups reached are collected and granted on top of the ticked timers, the last one announced |
| PyGame.Game.PlaceAndCollect | main.py:1093-1125 | the pickup clock may place a pickup, then the pickups the player's centre reaches are removed, granted on the timers and the last one announced |
| PyGame.Game.AgeEffects | main.py:1131-1138 | splatters and explosions become the living ones; health, score, waves and the tick are untouched |
| PyGame.Game.Countdown | main.py:1194-1287 | the message and banner timers count down to 0, and the bullets gain the assistant's shot exactly as Assisted describes |
| PyGame.Game.Tidy | main.py:1131-1287 | splatters and explosions become the living ones, the message and banner timers count down, the bullets gain the assistant's shot as Assisted describes, and health, score, waves and the tick are untouched |
| PyGame.Game.Advance | main.py:954-1088 | the score never falls, health never rises, the game is over exactly when the window closed or health is 0, and a wave starts every 1800 frames |
| PyGame.Game.Upkeep | main.py:1090-1287 | health, score, the game-over flag, the tick and the wave clock are untouched |
| PyGame.Game.Tick | main.py:953-1287 | one frame: the tick advances by one; the score never falls and health never rises; the game is over exactly when the window closed or health reached 0; a new wave starts exactly every 1800 frames |
| JsPlayer.Stride | zombie-js/sketch.js:1194-1195 | the step is 7.5 exactly while Speed Boost runs and 5 otherwise |
| JsPlayer.Stepped | zombie-js/sketch.js:1197-1205 | a move changes at most one coordinate, by exactly one stride and only towards dir inside the canvas, so the player never leaves the band one stride around the canvas |
| JsPlayer.Sector | zombie-js/sketch.js:1181-1189 | the facing is the quarter turn around the aim angle, with -pi/4 counted as up |
| JsPlayer.Player.constructor | zombie-js/sketch.js:1151-1167 | the player starts centred on the 800 by 600 canvas with 40 health, speed 5 and idle timers |
| JsPlayer.Player.UpdateAim | zombie-js/sketch.js:1169-1190 | the angle is the arc tangent of the offset from the centre to the mouse, and the facing is its sector |
| JsPlayer.Player.Move | zombie-js/sketch.js:1192-1206 | the position becomes the stepped one; the facing is not changed |
| JsPlayer.Player.Shoot | zombie-js/sketch.js:1208-1226 | one bullet along the aim, or three at aim minus 0.1, aim and aim plus 0.1 under Rapid Fire, all from the muzzle; the volley is Entities.Shots of the muzzle, the aim and Rapid Fire |
| JsPlayer.Player.ApplyPowerup | zombie-js/sketch.js:1259-1268 | the kind's timer restarts at its full duration, Speed Boost sets speed 7.5, and the message names it |
| JsPlayer.Player.UpdatePowerups | zombie-js/sketch.js:1270-1284 | every timer ticks once and the speed returns to 5 on the frame Speed Boost reaches 0 |
| JsPlayer.Player.TakeDamage | zombie-js/sketch.js:1286-1299 | behind a shield nothing changes and the answer is false; otherwise health drops, clamped at 0, and the answer says whether it reached 0 |
| JsRules.ZombiesPerWave | zombie-js/sketch.js:363 | zombies per wave lie between 1 and 20 |
| JsRules.ZombiesPerWaveFloor | zombie-js/sketch.js:363 | zombies per wave are 1.5 times the wave rounded down until the cap of 20, reached exactly from wave 14 |
| JsRules.ZombiesPerWaveGrows | zombie-js/sketch.js:363 | zombies per wave never fall as waves go by |
| JsRules.MaxZombiesGrows | zombie-js/sketch.js:372 | the spawn cap never falls, and exceeds zombies per wave from wave 3 on |
| JsRules.MaxZombies | zombie-js/sketch.js:372 | the spawn cap is never below the wave's zombies per wave |
| JsRules.Spawned | zombie-js/sketch.js:1304-1326 | a new zombie walks at 2 facing right, just outside the edge it was drawn for |
| JsRules.Survivors | zombie-js/sketch.js:385-421 | the zombie pass never adds zombies |
| JsRules.Touches | zombie-js/sketch.js:391-396 | a zombie touches the player exactly when their centres are less than 32 pixels apart on both axes |
| JsRules.Chased | zombie-js/sketch.js:388 | a zombie's step keeps its speed and faces it towards the player's centre along the larger axis |
| JsRules.Contacts | zombie-js/sketch.js:385-421 | there are at most as many contacts as zombies |
| JsRules.ZombiePassSplits | zombie-js/sketch.js:385-421 | every zombie is either kept or counted as a contact, and no kept zombie touches the player |
| JsRules.ZombieStep | zombie-js/sketch.js:386-419 | the pass over one more zombie, visited before those above it, removes that zombie exactly when it touches the player after its step |
| JsRules.LastHit | zombie-js/sketch.js:440-447 | the zombie struck is the highest-index one the bullet overlaps, and none is struck when the bullet overlaps none |
| JsRules.OffCanvas | zombie-js/sketch.js:429-434 | a bullet is past an edge exactly when its point lies outside the closed canvas rectangle |
| JsRules.Hits | zombie-js/sketch.js:442-446 | a bullet overlaps a zombie exactly when the centres of its 4 by 4 square and of the zombie are less than 18 pixels apart on both axes |
| JsRules.Fly | zombie-js/sketch.js:425-479 | one bullet kills at most one zombie; a kill removes one zombie and the bullet and leaves one splatter and at most one drop; without a kill the zombies are unchanged and at most the one bullet is kept |
| JsRules.BulletPass | zombie-js/sketch.js:423-481 | the bullet pass kills at most one zombie per bullet |
| JsRules.BulletPassTotals | zombie-js/sketch.js:423-481 | every kill removes one zombie and one bullet and leaves one splatter and at most one pickup; every bullet kept is on the canvas |
| JsRules.BulletStep | zombie-js/sketch.js:424-480 | the pass over one more bullet flies that bullet after those above it |
| JsRules.Taken | zombie-js/sketch.js:484-513 | at most one kind is collected per pickup |
| JsRules.Reaches | zombie-js/sketch.js:489-494 | the player reaches a pickup exactly when the player's centre is less than 36 pixels from it on both axes |
| JsRules.Kept | zombie-js/sketch.js:484-513 | the pickup pass never adds pickups |
| JsRules.PickupPassSplits | zombie-js/sketch.js:484-513 | every pickup is collected or kept, and none kept is in reach |
| JsRules.PickupPassCovers | zombie-js/sketch.js:484-513 | what the player reaches is collected and everything else stays |
| JsRules.PickupStep | zombie-js/sketch.js:484-513 | the pass over one more pickup collects it exactly when the player reaches it |
| JsRules.Expiring | zombie-js/sketch.js:516-532 | at most one expiry per kind in the table |
| JsRules.ExpiringLists | zombie-js/sketch.js:516-532 | a kind is announced as expired exactly when its timer was at 1 |
| JsRules.Announced | zombie-js/sketch.js:506-508 | with no pickup the message and its timer stay; otherwise the last kind collected is announced as activated for 120 frames |
| JsRules.Expired | zombie-js/sketch.js:526-529 | with nothing expiring the message and its timer stay; otherwise the last kind to expire is announced as expired for 60 frames |
| JsText.DisplayName | zombie-js/sketch.js:1703-1710 | an empty address shows as Anonymous; an address with `@` and a user part shows its first character, three stars, `@` and the second field; anything else shows as it is |
| JsText.DisplayNameMatchesMask | zombie-js/sketch.js:1703-1710 | the p5.js name and the Python mask agree on such an address exactly when the user part has four characters |
| JsGame.Walk | zombie-js/sketch.js:315-326 | the movement keys never take the player out of the band, and with no key held the player stays put |
| JsGame.Cooled | zombie-js/sketch.js:334-350 | after a shot the cooldown is 4 under Rapid Fire and 9 otherwise; without one it counts down to 0; it stays below 10 |
| JsGame.MauledIndex | zombie-js/sketch.js:386-388 | before zombie i is visited it still sits at index i |
| JsGame.MauledBite | zombie-js/sketch.js:391-418 | a zombie that bites extends the zombie pass by one contact |
| JsGame.MauledWalk | zombie-js/sketch.js:388-420 | a zombie that does not bite extends the zombie pass by its moved self |
| JsGame.TickedNext | zombie-js/sketch.js:516-532 | the next kind in table order is still untouched, and its expiry is added exactly when its timer was 1 |
| JsGame.TickedAll | zombie-js/sketch.js:516-532 | once every kind is visited the table is ticked |
| JsGame.GleanedIndex | zombie-js/sketch.js:484-490 | before pickup i is visited it still sits at index i |
| JsGame.GleanedKeep | zombie-js/sketch.js:488-513 | a pickup out of reach extends the pickup pass unchanged |
| JsGame.GleanedTake | zombie-js/sketch.js:488-512 | a pickup in reach is removed, granted and announced, which extends the pickup pass |
| JsGame.TrackedIndex | zombie-js/sketch.js:424-426 | before bullet i is visited it still sits at index i |
| JsGame.TrackedOff | zombie-js/sketch.js:428-437 | a bullet leaving the canvas is removed, which extends the bullet pass |
| JsGame.TrackedMiss | zombie-js/sketch.js:439-480 | a bullet hitting nothing stays, moved, which extends the bullet pass |
| JsGame.TrackedKill | zombie-js/sketch.js:440-478 | a bullet striking a zombie removes both and adds 10 points, a splatter and the drop, which extends the bullet pass |
| JsGame.NearestUnique | zombie-js/sketch.js:1116-1142 | only one index is the first zombie with the nearest centre, so the assistant's target is determined |
| JsGame.AssistedDeterminate | zombie-js/sketch.js:252-281 | the assistant's step leaves exactly one possible bullet list |
| JsGame.AssistantShotAt | zombie-js/sketch.js:256-268 | the assistant's bullet leaves from the same point as a single shot of the player, marked as the assistant's, aimed from the player's centre at the target's corner |
| JsGame.Assisted | zombie-js/sketch.js:252-281 | the assistant appends one bullet when armed and a zombie exists, none otherwise, and leaves the earlier bullets as they were |
| JsGame.Game.constructor | zombie-js/sketch.js:80-96 | setup leaves empty lists, wave 1 of a running game, and a new player centred on the canvas with 40 health, no score, aim 0 facing right, speed 5, cooldown 0 and idle timers |
| JsGame.Game.ResetGame | zombie-js/sketch.js:1091-1114 | a new player centred on the canvas with 40 health, no score, aim 0 facing right, speed 5, cooldown 0 and idle timers; empty lists, wave 1, and a running game |
| JsGame.Game.Restart | zombie-js/sketch.js:1093-1113 | the lists are emptied, the wave clock restarts at wave 1 and the game runs |
| JsGame.Game.ClearLists | zombie-js/sketch.js:1093-1097 | all five entity lists are empty |
| JsGame.Game.MoveKeys | zombie-js/sketch.js:315-326 | the position becomes the walked one for the keys held |
| JsGame.Game.Fire | zombie-js/sketch.js:334-350 | a press with the cooldown run out appends one volley, Shots of the muzzle and the player's aim (three spread bullets under Rapid Fire), after the earlier bullets; the cooldown follows Cooled |
| JsGame.Game.HandleInput | zombie-js/sketch.js:308-351 | the player walks by the keys, then aims at the mouse from its new centre with the matching sector, then fires: the cooldown follows Cooled and the volley fired, if any, is appended as Shots of the new muzzle and aim |
| JsGame.Game.AdvanceWave | zombie-js/sketch.js:354-368 | a new wave starts exactly every 1800 frames with the banner shown for 180 frames |
| JsGame.Game.SpawnZombie | zombie-js/sketch.js:371-377 | on frames divisible by 60 one zombie is added while fewer than the cap are alive |
| JsGame.Game.UpdateWaveSystem | zombie-js/sketch.js:353-383 | the wave clock and spawning as above, then the banner timer counts down; on a frame that starts no wave the banner keeps its wave number |
| JsGame.Game.AddSplatter | zombie-js/sketch.js:408-411 | one new splatter is appended and the earlier ones are kept |
| JsGame.Game.Bite | zombie-js/sketch.js:397-418 | the zombie is removed, health falls by 10 unless shielded (unclamped), a splatter appears at the player's centre, and health at or below 0 ends the game |
| JsGame.Game.Lunge | zombie-js/sketch.js:386-419 | one zombie extends the zombie pass by one step |
| JsGame.Game.Maul | zombie-js/sketch.js:391-418 | a biting zombie extends the zombie pass by one contact |
| JsGame.Game.UpdateZombies | zombie-js/sketch.js:385-421 | the zombies left are exactly the survivors; health falls 10 per unshielded contact; one splatter per contact; the game ends once a contact leaves health at or below 0 |
| JsGame.Game.ZombieLoop | zombie-js/sketch.js:386-420 | the loop from the last zombie down ends in exactly the state of the zombie pass |
| JsGame.Game.Target | zombie-js/sketch.js:440-447 | the inner search returns exactly the last zombie the bullet overlaps |
| JsGame.Game.Kill | zombie-js/sketch.js:448-477 | bullet and zombie are removed, the score rises by 10, a splatter and the drop appear at the zombie's centre |
| JsGame.Game.Travel | zombie-js/sketch.js:424-480 | one bullet extends the bullet pass by one step |
| JsGame.Game.Strike | zombie-js/sketch.js:440-478 | a bullet striking a zombie extends the bullet pass by one kill |
| JsGame.Game.UpdateBullets | zombie-js/sketch.js:423-481 | the bullets, zombies, score, pickups and new splatters are exactly those the bullet pass computes |
| JsGame.Game.FlyBullets | zombie-js/sketch.js:424-480 | the loop from the last bullet down ends in exactly the bullets, zombies, score, pickups and new splatters of `BulletPass`, keeping the earlier splatters |
| JsGame.Game.Collect | zombie-js/sketch.js:495-511 | the pickup is removed, its timer restarts at full duration and it is announced for 120 frames |
| JsGame.Game.CollectPickups | zombie-js/sketch.js:484-513 | the pickups left, the timers and the message are exactly those of the pickup pass |
| JsGame.Game.Gather | zombie-js/sketch.js:488-512 | one pickup extends the pickup pass |
| JsGame.Game.ExpireTimers | zombie-js/sketch.js:516-532 | the timers are ticked once, and the message names the last kind in table order that expired |
| JsGame.Game.Expire | zombie-js/sketch.js:517-531 | one kind of the table is ticked and, if it expired, announced |
| JsGame.Game.UpdatePowerups | zombie-js/sketch.js:483-538 | the pickups left are those of the pickup pass, and the timers are the granted ones ticked once |
| JsGame.Game.AgeSplatters | zombie-js/sketch.js:542-546 | every splatter ages one frame and the list becomes the living ones |
| JsGame.Game.AgeExplosions | zombie-js/sketch.js:549-553 | every explosion ages one frame and the list becomes the living ones |
| JsGame.Game.FindNearestZombie | zombie-js/sketch.js:1116-1142 | nothing exactly when there are no zombies; otherwise the first zombie whose centre is nearest the player's centre |
| JsGame.Game.AssistantFire | zombie-js/sketch.js:252-281 | a shot leaves exactly when the assistant runs, the tick is a multiple of 10 and a zombie exists; it goes from the muzzle towards the corner of the zombie whose centre is nearest, and the list is left as Assisted describes |
| JsGame.Game.Advance | zombie-js/sketch.js:244-246 | the score is unchanged, health never rises, the game ends once health is at or below 0, and the wave clock advances |
| JsGame.Game.Settle | zombie-js/sketch.js:247-281 | the score never falls |
| JsGame.Game.Harvest | zombie-js/sketch.js:247-248 | the score never falls |
| JsGame.Game.UpdateVisualEffects | zombie-js/sketch.js:540-554 | splatters and explosions each age one frame and become the living ones |
| JsGame.Game.Tidy | zombie-js/sketch.js:249-281 | splatters and explosions become the living ones, and the bullets gain the assistant's shot exactly as Assisted describes |
| JsGame.Game.Frame | zombie-js/sketch.js:224-288 | the tick advances by one; the score never falls and health never rises; the game is over exactly when it was before or health is at or below 0; a new wave starts exactly every 1800 frames of play |
| JsGame.Game.Play | zombie-js/sketch.js:242-281 | the score never falls, health never rises, the game is over exactly when health is at or below 0, and the wave clock advances |
| JsGame.Game.KeyPressed | zombie-js/sketch.js:2005-2023 | on the game-over screen, Enter submits exactly a non-empty address with `@`, and Backspace removes the last character; other keys, and all keys during play, pass on |
| JsGame.Game.KeyTyped | zombie-js/sketch.js:2025-2033 | on the game-over screen a typed character is appended while the address is shorter than 50; during play it passes on |

## Left out

- Drawing, sprites, fonts, the canvas and window, sound effects and music are left out. The `play_sound` calls are the only difference between the two Python game loops.
- The leaderboard service and its network calls are left out: `submit_score_to_leaderboard`, `get_leaderboard`, `submitScore`, `loadLeaderboard` and their configuration. The service's answer is the `serverAccepts` parameter.
- The title, leaderboard and name-input screens and the drawing of the game-over screen are left out. Only their e-mail handling is modelled.
- The `async` variants of the game loop and the empty browser loop in `main.py` are left out.
- Randomness (`random`, `randint`, p5's `random`) is left out; the draws are parameters of the frame.
- Square root, sine, cosine, arc tangent and pi are left out; they are function parameters. Floating-point rounding is not modelled; numbers are exact reals.
- Distances are compared squared. Taking the square root keeps the same order, so the nearest zombie is the same.
- The pygame QUIT event is the `quit` flag of a frame's controls. The game-over screen's QUIT (main.py:1541-1543), which ends the program, is not among the e-mail entry's events.
- The p5.js guard against an undefined mouse position is left out. Which mouse button is pressed is also left out: `mouseIsPressed` is read as a left press.
- p5's `frameCount` is the game's tick. Both count calls of `draw` from 0, and `resetGame` resets neither.
- `PowerUp.update` is left out. It only pulses the pickup's drawing.
- The BloodSplatter particles and their fading are left out. They only change the drawing.
- The text cursor's drawing is left out. Only its blink counter is modelled.
- The p5.js game never creates an explosion (there is no `new Explosion`). Its explosion class is modelled, and its list stays empty.
- `applyPowerup`, `Player.updatePowerups` and `takeDamage` in the p5.js game are never called by the frame, which does the same work inline. They are modelled anyway, as `JsPlayer.Player` methods.
- The power-up timer dictionary or object is a record with one counter per kind. The table always holds exactly the four kinds and none is ever added or removed.
- The wave banner's text is kept as the wave number it announces.
- PyText.Printable: Python's `str.isprintable` is approximated by the printable ASCII range and everything above U+00A0.
- JsGame.Game.UpdateZombies: p5.js moves a zombie in place before testing it; the model writes the moved zombie back only when it stays. A zombie that bites is removed in both, so the lists agree.
- JsGame.Game.AgeSplatters: p5.js walks its effect lists from the end, the model from the front. Each effect's update is independent, so the effects kept and their order are the same.
- JsGame.Game.ResetGame: its ensures does not list the message, the banner and message timers, the tick or the e-mail entry. `resetGame` leaves them as they were, and they are outside the method's modifies clause.
- JsGame.SplatterAt: it does not fix a new splatter's frame and counter. The zombie and bullet passes need only its position and constants.
- JsGame.Game.Settle, JsGame.Game.Harvest: state only that the score never falls. What the passes inside them compute is stated by UpdateBullets, UpdatePowerups, Tidy and their lemmas.
- JsGame.Game.UpdatePowerups: its message is not stated. The message after the timers is stated by ExpireTimers.
- PyGame.Game.Upkeep, PyGame.Game.HandleInput: state the frame-level invariants and leave the detail to the sections they call.
- PyGame.Game.Engage: does not state the zombie, bullet and effect lists after the wave and combat sections. WaveSection and Combat state them, each from the state it starts in; composing the two is beyond the solver's resource limit.
- PyGame.Game.Advance: does not state the zombie, bullet and effect lists after the first half of the frame. They are stated section by section, by FireInput, MoveInput, WaveSection and Combat. Composing those contracts through the intermediate states is beyond the solver's resource limit.
- PyGame.Game.Tick: does not state the lists after a whole frame, for the same reason. Its sections state them.
- JsGame.Game.Advance: does not state the bullet, zombie and splatter lists. They are stated by HandleInput, UpdateWaveSystem and UpdateZombies, for the same reason as PyGame.Game.Advance.
- JsGame.Game.Play: does not state the lists after the game logic of a frame. Its sections state them.
- JsGame.Game.Frame: does not state the lists either. It is Play behind the frame counter and the game-over test.
