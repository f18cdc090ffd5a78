# Amazon Warehouse Adventure — a verified model of the game engine

This project models the engine of the terminal roguelike in
`amazon_warehouse_adventure.py`. The player walks a warehouse map of 80 x 22
cells, fights robots and drones, and picks up energy drinks, box cutters,
safety vests and paychecks. Using the stairs goes down a level. On level 5
lies the Promotion Amulet. Carrying it onto the stairs on level 5 or deeper
wins the game.

The model covers everything except the terminal. It has these modules:

- `Grid`: the map, as a sequence of 22 rows of 80 characters.
- `Movement`: the pure geometry of `Entity.move_towards` and `Entity.distance_to`.
- `Combat`: the arithmetic of damage, healing and the rest heal.
- `Entities`: the `Entity` and `Fighter` classes, whose fields change in place, plus `Item.use`.
- `Monster`: `BasicMonster.take_turn`, both on values (`Tick`) and on the objects (`TakeTurn`).
- `MessageLog`: the five-entry log of `add_message`.
- `EnemyTurns`: the enemies' pass of `process_enemy_turns`, on values.
- `Lookup`: `get_blocking_entity_at`, `get_item_at`, and the walk of `move_max_distance` on values.
- `LevelGen`: the map passes of `generate_level`, and the placing of the player on the map.
- `Placement` and `Population`: the rejection loops and tables of `place_entities`.
- `Game`: the `WarehouseRoguelike` class.
  - Its fields are the map, the log, the game-over flag, the level, the player, the monster list, the item list and the move counter.
  - Its methods carry out the commands of `process_input` on those fields.

Randomness is an input. A `LevelDraws` value holds every random choice one
call of `generate_level` makes:

- the cells each decoration pass's random test accepts;
- the machine and dock cells;
- tapes of candidate cells that the rejection loops draw from;
- the counts and kinds of monsters and items.

`ValidDraws` says which ranges those draws come from. A log message is an
`Event` that carries the data the message reports. The wording of the
messages is not modelled.

Where this model and the game's other descriptions disagree, it follows the
code:

- A monster diagonally next to the player is at distance √2 > 1. It keeps
  chasing, which may be a diagonal step. It does not attack.
- Damage is subtracted as is, so hit points can go below zero.
- Item acceptance on level 5 does check the amulet's cell. The amulet itself
  is placed without checking the map or the other entities, so it may lie on
  a wall.
- Monster cells are checked only against earlier monsters. A monster may
  therefore be placed on the player's cell.
- The clearing around the player turns only walls (`#`) into floor. Shelves,
  machines and belts around the player stay.
- Pickers, wanderers and random system events do not exist in this file.
  Every monster uses `BasicMonster`.

## Model

| member | source | states |
|---|---|---|
| Grid.IsAdjacentTo | amazon_warehouse_adventure.py:360-367 | true exactly when one of the four orthogonal neighbours lies on the map and holds the character |
| Movement.Sign | amazon_warehouse_adventure.py:80-83 | the direction of a difference: zero iff the difference is zero, positive iff positive, within -1..1 |
| Movement.ChaseStep | amazon_warehouse_adventure.py:76-95 | a chase step moves at most one cell, each coordinate only toward the target, only onto an enterable cell; the horizontal step wins when possible; a diagonal only when both straight steps are blocked; staying put iff every candidate step is blocked |
| Movement.DistSq | amazon_warehouse_adventure.py:97-100 | the squared distance is non-negative, zero iff the cells coincide, and at most 1 iff the cells are equal or orthogonally adjacent |
| Movement.DistanceComparisons | amazon_warehouse_adventure.py:97-100 | comparing the real root with 6 and with 1 gives the same answers as comparing the square with 36 and with 1 |
| Combat.Damage | amazon_warehouse_adventure.py:114-116 | an attack always does at least one point, and exactly power minus defense when that is positive |
| Combat.Healed | amazon_warehouse_adventure.py:145-147 | healing gives the smaller of the full amount and the maximum: never above either, and equal to one of them; it never lowers hit points that were within the maximum |
| Combat.RestHeal | amazon_warehouse_adventure.py:620-624 | the rest heal gains one point exactly when the counter is even and the player is hurt, and never pushes hit points past the maximum |
| Combat.TwoActionsHealOnce | amazon_warehouse_adventure.py:620-624 | two consecutive counted actions heal a hurt player by exactly one point |
| Entities.Fighter.constructor | amazon_warehouse_adventure.py:103-108 | a new fighter starts at full health with the given statistics |
| Entities.Fighter.TakeDamage | amazon_warehouse_adventure.py:110-112 | hit points drop by exactly the amount, with no floor, and the result reports hit points at or below zero |
| Entities.Fighter.Attack | amazon_warehouse_adventure.py:114-121 | only the target's hit points change, by exactly the damage; the report is a defeat iff the target ends at or below zero, otherwise an attack naming attacker, target and damage |
| Entities.Entity.constructor | amazon_warehouse_adventure.py:51-66 | a new entity holds the given position, glyph, name, blocking flag, fighter and behaviour |
| Entities.Entity.Move | amazon_warehouse_adventure.py:68-74 | the move succeeds iff the target cell is on the map and is floor or stairs; the entity then moves by exactly (dx, dy), otherwise it stays |
| Entities.Entity.MoveTowards | amazon_warehouse_adventure.py:76-95 | the entity ends on the chase step's cell, and the result reports whether it moved |
| Entities.UseItem | amazon_warehouse_adventure.py:145-149 | a healing item used by a fighter heals as Healed and reports it; anything else reports it cannot be used and leaves hit points alone; the other statistics never change |
| Monster.Tick | amazon_warehouse_adventure.py:127-135 | a monster out of sight does nothing; while chasing (1 < distance < 6) it takes exactly the chase step toward the player and does not attack; it moves only then; an adjacent monster never moves; it reports something iff adjacent to a living player, and then the player loses exactly the damage and the report is a defeat iff hit points end at or below zero, naming the player as target and, for a hit that does not defeat, the monster as attacker |
| Monster.TakeTurn | amazon_warehouse_adventure.py:127-135 | on the objects, the monster's position, the player's hit points and the result are those of Tick |
| MessageLog.Newest | amazon_warehouse_adventure.py:177-179 | the log never holds more than five entries, and a short log is kept whole |
| MessageLog.NewestSuffix | amazon_warehouse_adventure.py:177-179 | the kept entries are exactly the last min(n, 5) of the n entries, in order |
| MessageLog.Log | amazon_warehouse_adventure.py:175-179 | adding keeps the newest five of the old log plus the new entry, with the new entry last |
| MessageLog.LogAllKeepsNewest | amazon_warehouse_adventure.py:175-179 | adding any number of entries one by one leaves the newest five of everything added |
| EnemyTurns.SweepShape | amazon_warehouse_adventure.py:694-704 | the pass ticks each monster with a behaviour at most once, in order, and all of them unless the player falls; monsters only change position; untouched monsters stay; the results are appended after the earlier ones and each is an attack on the player |
| EnemyTurns.SweepDamageAccounted | amazon_warehouse_adventure.py:694-704 | every point of damage the player lost is reported in the collected results, and hit points never rise |
| EnemyTurns.SweepStopsOnDefeat | amazon_warehouse_adventure.py:694-704 | the pass stops only on the player's defeat, reported by its last result; a living player who is not defeated ends alive; a player already down is never attacked |
| Lookup.FindBlockerFirst | amazon_warehouse_adventure.py:459-464 | the lookup returns the first blocking entity on the cell, and nothing exactly when none is there |
| Lookup.FindItemFirst | amazon_warehouse_adventure.py:466-471 | the lookup returns the first item on the cell, and nothing exactly when none is there |
| Lookup.Run | amazon_warehouse_adventure.py:473-545 | a long move advances no further than the room up to the edge, ends on the map, and any entity or item it reports stopping at exists |
| Lookup.WalkFrom | amazon_warehouse_adventure.py:476-543 | the step-by-step walk loop computes exactly Run |
| Lookup.RunStaysOpen | amazon_warehouse_adventure.py:479-532 | every cell the long move steps onto is on the map, walkable and free of blocking entities |
| Lookup.RunPassesOver | amazon_warehouse_adventure.py:529-543 | the long move never passes over stairs or an item: it can only stand on one at its last cell |
| Lookup.RunStopReason | amazon_warehouse_adventure.py:478-543 | the reason reported holds where the move ended: the edge ahead, the first blocker ahead, the non-walkable cell ahead, or stairs or an item underfoot after at least one step; stairs or an item underfoot come first, so a reason ahead is reported only when the player has not moved or stands on neither |
| Placement.Select | amazon_warehouse_adventure.py:208-224 | the rejection loops place at most the requested number of things and use no more candidates than the tape holds |
| Placement.SelectSound | amazon_warehouse_adventure.py:208-224 | every chosen cell is floor, free, and drawn from the tape; the chosen cells are distinct; a shortfall means no remaining candidate was acceptable |
| Placement.PickCells | amazon_warehouse_adventure.py:208-224 | the loop over the candidate tape chooses exactly the cells Select describes |
| Placement.EnemyTypes | amazon_warehouse_adventure.py:185-206 | five enemy kinds below level 3, seven from level 3, ten from level 5, all with positive hit points and power and non-negative defense |
| Placement.ItemsAt | amazon_warehouse_adventure.py:245-258 | the k-th placed item lies on the k-th chosen cell, has the glyph, name and effect of the k-th drawn kind, and is never the amulet |
| LevelGen.Carve | amazon_warehouse_adventure.py:272-285 | carving leaves floor exactly on the two-wide aisles (row pairs from rows 3, 7, 11, 15; column pairs from columns 5, 20, 35, 50, 65) and wall everywhere else |
| LevelGen.SameFloorSameAdjacency | amazon_warehouse_adventure.py:288-294 | maps with the same floor cells agree on which cells touch floor, so the in-place shelf pass tests the same thing as testing the carved map |
| LevelGen.ShelfPass | amazon_warehouse_adventure.py:288-294 | the shelf pass gives Shelves of its input, and it only turns walls into shelves |
| LevelGen.RepaintRow | amazon_warehouse_adventure.py:298-300 | one row of a decoration pass turns the drawn cells holding the old kind into the new kind and changes nothing else |
| LevelGen.Repaint | amazon_warehouse_adventure.py:297-312 | a decoration pass gives Repainted, and rewrites exactly one kind of cell into one other kind |
| LevelGen.MachinesReplaceFloor | amazon_warehouse_adventure.py:315-318 | sorting machines replace only floor cells, and only at drawn cells |
| LevelGen.PlaceMachines | amazon_warehouse_adventure.py:315-318 | the machine loop gives Machined |
| LevelGen.BuildLayout | amazon_warehouse_adventure.py:272-323 | the map passes run in order give exactly Layout |
| LevelGen.DrawsOnGrid | amazon_warehouse_adventure.py:315-323 | machine and dock cells drawn from their ranges lie on the map |
| LevelGen.LayoutEnclosed | amazon_warehouse_adventure.py:272-323 | the generated map keeps its whole outer border as wall |
| LevelGen.LayoutHasFloor | amazon_warehouse_adventure.py:272-323 | every generated map has floor at column 5 of row 1, so the interior always has floor for the repositioning scan |
| LevelGen.SpawnIndex | amazon_warehouse_adventure.py:332-334 | the entrance row is the first candidate whose cell in column 5 is floor; there is none iff no candidate is floor |
| LevelGen.PickSpawnRow | amazon_warehouse_adventure.py:332-334 | the redraw loop stops at the first floor candidate |
| LevelGen.FirstFloor | amazon_warehouse_adventure.py:340-348 | the scan finds the first interior floor cell in row-major order, or reports that the interior has none |
| LevelGen.ClearedOnlyWalls | amazon_warehouse_adventure.py:351-355 | clearing turns only walls in the 3x3 block around the player into floor, keeps every other cell, and leaves no wall in that block |
| LevelGen.ClearAround | amazon_warehouse_adventure.py:351-355 | the nested clearing loop gives exactly Cleared |
| LevelGen.ClearedKeepsWalkable | amazon_warehouse_adventure.py:351-355 | clearing never takes away a floor or stairs cell |
| Population.PlaceItems | amazon_warehouse_adventure.py:227-267 | the item and stairs loops give the floor items and the map with the stairs that the draws determine |
| Population.MonstersPlaced | amazon_warehouse_adventure.py:208-224 | at most the drawn number of monsters, each on free floor, on distinct cells; a shortfall means the tape held no acceptable cell |
| Population.ItemsLaidOut | amazon_warehouse_adventure.py:237-258 | the amulet comes first exactly on level 5, at its drawn cell; the other items follow, up to the drawn number, and none of them is the amulet |
| Population.ItemsPlaced | amazon_warehouse_adventure.py:245-258 | each drawn item lies on floor not taken by a monster, the amulet or an earlier item; a shortfall means no candidate was acceptable |
| Population.StairsPlaced | amazon_warehouse_adventure.py:260-267 | at most one stairs cell, on floor not taken by a monster or an item; none means no candidate was acceptable |
| Game.Lower | amazon_warehouse_adventure.py:563-564 | A-Z become a-z, the Kelvin sign becomes k, and every other key is kept |
| Game.DecodeKey | amazon_warehouse_adventure.py:553-576 | q or Q quits, ? asks for help, g or G grabs, > uses the stairs; a lower-case movement key steps and an upper-case one runs, each in the key's direction |
| Game.ShiftRuns | amazon_warehouse_adventure.py:563-583 | a shifted movement key runs in the direction its lower-case key steps, and the Kelvin sign runs up |
| Game.PickUpEffectBounds | amazon_warehouse_adventure.py:633-651 | a pick-up never lowers hit points, keeps them within the maximum, raises the maximum only for the amulet, and changes nothing for a paycheck |
| Game.TakeAmulet | amazon_warehouse_adventure.py:636-637 | the amulet adds ten to both the maximum and the current hit points |
| Game.UseAndEquip | amazon_warehouse_adventure.py:643-651 | any other item is used, then a box cutter adds its damage to power and a vest its defense to defense; the report is the use message |
| Game.WarehouseRoguelike.constructor | amazon_warehouse_adventure.py:152-169 | a new game is playing on level 1 with an empty log, no moves, the player at full health (30, defense 2, power 5) on the entrance cell of column 5, shown as `@` (without the amulet), named Player, blocking and without a behaviour, and the map, monsters, items and stairs of level 1 as GenerateLevel builds them from the draws |
| Game.WarehouseRoguelike.AddMessage | amazon_warehouse_adventure.py:175-179 | the log becomes Log of the old log and the entry, and stays within five entries |
| Game.WarehouseRoguelike.CountAction | amazon_warehouse_adventure.py:621-624 | the counter goes up by one, the rest heal applies, and a heal is reported; nothing else changes |
| Game.WarehouseRoguelike.AttackEntity | amazon_warehouse_adventure.py:600-609 | the target loses exactly the damage, the attack is logged, and the target leaves the list exactly when defeated |
| Game.WarehouseRoguelike.StepOrAttack | amazon_warehouse_adventure.py:595-616 | a blocker ahead is attacked without moving; otherwise the player steps iff the cell is enterable; the result reports whether the action took a turn |
| Game.WarehouseRoguelike.Walk | amazon_warehouse_adventure.py:476-543 | the player moves along Run's steps and the stop reason is Run's; after at least one step the player stands on an enterable cell |
| Game.WarehouseRoguelike.RunInto | amazon_warehouse_adventure.py:488-500 | a run that meets a blocker attacks it, removes it if defeated, and otherwise reports stopping at it |
| Game.WarehouseRoguelike.MoveMaxDistance | amazon_warehouse_adventure.py:473-545 | the player ends Run's steps away; it reports a turn iff it stepped or attacked, and leaves the move counter and the game-over flag to the caller; a blocker is attacked; any other stop is logged with its reason |
| Game.WarehouseRoguelike.EnemyTurn | amazon_warehouse_adventure.py:695-696 | one monster's turn changes that monster's position and the player's hit points as Tick says |
| Game.WarehouseRoguelike.LogResults | amazon_warehouse_adventure.py:707-708 | the results are logged in order |
| Game.WarehouseRoguelike.TakeEnemyTurns | amazon_warehouse_adventure.py:692-704 | the monster loop leaves the monsters, hit points, results and defeat flag of EnemyPass |
| Game.WarehouseRoguelike.ReportEnemyTurns | amazon_warehouse_adventure.py:702-708 | a defeat is logged and ends the game, then the results are logged |
| Game.WarehouseRoguelike.ProcessEnemyTurns | amazon_warehouse_adventure.py:690-708 | the monsters, hit points, game-over flag and log become those of the enemies' pass |
| Game.WarehouseRoguelike.Boost | amazon_warehouse_adventure.py:633-651 | the player's statistics change as PickUpEffect, hit points stay within the maximum, and only the amulet changes the player's glyph |
| Game.WarehouseRoguelike.Apply | amazon_warehouse_adventure.py:633-651 | the boost plus the pick-up's two messages in order |
| Game.WarehouseRoguelike.TakeItem | amazon_warehouse_adventure.py:631-653 | the chosen item is applied (statistics as PickUpEffect, glyph `*` only for the amulet, its messages logged), then it and only it leaves the item list; the player's position and the monsters stay |
| Game.WarehouseRoguelike.AddMonster | amazon_warehouse_adventure.py:216-223 | a new blocking monster of the drawn kind, at full health on the chosen cell, is appended |
| Game.WarehouseRoguelike.SpawnMonsters | amazon_warehouse_adventure.py:208-224 | one monster per chosen cell is appended, as Spawned describes |
| Game.WarehouseRoguelike.PlaceEntities | amazon_warehouse_adventure.py:181-267 | the monsters, items and stairs are those Population determines from the map and the draws |
| Game.WarehouseRoguelike.PlacePlayer | amazon_warehouse_adventure.py:330-348 | on level 1 or without a player, a fresh player at full health on the entrance cell; otherwise the same player, moved to the first interior floor cell |
| Game.WarehouseRoguelike.Enter | amazon_warehouse_adventure.py:326-355 | the lists are emptied, the player is placed (a fresh `@` player, or the same one on the first interior floor cell) and the cells around them are cleared; the invariant holds, so the player stands on floor |
| Game.WarehouseRoguelike.Furnish | amazon_warehouse_adventure.py:326-358 | the player is placed (a fresh `@` player, or the same one on the first interior floor cell), the cells around them are cleared, then the level is populated on the cleared map |
| Game.WarehouseRoguelike.GenerateLevel | amazon_warehouse_adventure.py:269-358 | the same, for the map Layout builds from the draws |
| Game.WarehouseRoguelike.EndTurn | amazon_warehouse_adventure.py:619-626 | a turn that counts raises the counter, applies the rest heal, then lets the enemies act, as TurnEnds; the player, the level and the map stay |
| Game.WarehouseRoguelike.RunCommand | amazon_warehouse_adventure.py:583-592 | the run is announced, then the player ends Run's steps away; the result is true iff it stepped or met a monster; a monster met loses exactly the damage, is logged as attacked, leaves the list iff defeated and otherwise is reported as the stop; any other stop is reported |
| Game.WarehouseRoguelike.PickUpTurn | amazon_warehouse_adventure.py:631-662 | the item is removed and applied (statistics, glyph), then the turn ends: one move is counted, and the monsters, hit points, game-over flag and log are those TurnEnds gives from the state the pick-up left |
| Game.WarehouseRoguelike.GrabCommand | amazon_warehouse_adventure.py:629-664 | the grab succeeds iff an item lies on the player's cell; a success removes the first such item, applies it and ends the turn as TurnEnds, counting one move; a failure logs that nothing is there and changes nothing else: items, monsters, the player and its statistics stay |
| Game.WarehouseRoguelike.Descend | amazon_warehouse_adventure.py:678-680 | the level goes up by one, the descent is logged, and the same player is placed on the first interior floor cell of the new map |
| Game.WarehouseRoguelike.TakeStairs | amazon_warehouse_adventure.py:667-682 | escape iff on the stairs with the amulet on level 5 or deeper, which ends the game and leaves map, monsters, items and player as they were; on the stairs otherwise, descend; off the stairs, only a message and nothing else changes |
| Game.WarehouseRoguelike.EndTurnIf | amazon_warehouse_adventure.py:618-626 | the enemies' pass happens only after the player moved or attacked: if it did, the counter, the rest heal, the enemies' pass and the log become TurnEnds of the state the action left, the player's other statistics stay; otherwise the log, the game-over flag, the player's fighter and the monsters are unchanged; the player's position stays either way |
| Game.WarehouseRoguelike.StepTurn | amazon_warehouse_adventure.py:593-626 | a step ends the turn exactly when it attacked a monster or entered a cell: the counter goes up by one iff a monster stands on, or an enterable cell lies at, the cell ahead; the player ends on that cell iff no monster is there and it is enterable, and otherwise stays put; the level and the map stay |
| Game.WarehouseRoguelike.RunTurn | amazon_warehouse_adventure.py:583-626 | a run ends the turn exactly when it went at least one cell or met a monster: the counter goes up by one iff Run reports at least one step or a stop at a monster; the player ends Run's steps away in the run's direction; the level and the map stay |
| Game.WarehouseRoguelike.ProcessInput | amazon_warehouse_adventure.py:547-684 | quit stops the game loop, help keeps it going, any other key keeps it going iff the game is not over; quit, help and unknown keys change neither the game nor the player, its fighter or the monsters; only the stairs change the level or the map; exactly the commands that take a turn (TakesTurn) count one move |

## Left out

- Terminal I/O is not modelled: `getch` and its fallback, `clear_screen`, `render`, `show_help`, the play loop and its welcome messages, colours, and `time.sleep`.
- The `random` module is not modelled. Every draw is a field of `LevelDraws`, and `ValidDraws` gives its range. A decoration pass's test `random.random() < p` becomes a set of accepted cells.
- The rejection loops (`while True` in `place_entities`, the entrance redraw in `generate_level`) run over finite tapes of candidates. A tape that runs out leaves the rest unplaced, where the original would keep drawing. A new player needs an entrance on the tape (`EntranceFound`); the original would loop forever without one.
- `math.sqrt` is not modelled. `distance_to` is compared through the squared distance, and `Movement.DistanceComparisons` shows that this gives the same answers.
- The wording of messages is not modelled: each message is an `Event` carrying its data.
- The `except` branch of `process_input` is not modelled. No step of the model raises; a key outside the commands decodes to `Other`.
- `Item.use_function` (never set) and the `owner` back-references are left out. `Fighter.Attack` takes its owner as a parameter.
- Game.Lower: models `str.lower` and `str.isupper` only for A-Z and the Kelvin sign. These are the only characters whose lower-case form is a key.
- Game.WarehouseRoguelike.PlaceEntities: requires empty monster and item lists. `generate_level` always empties them just before.
- Game.WarehouseRoguelike.constructor: starts from an empty map. The original's `None` map before the first `generate_level` is not modelled. Width and height are the constants 80 and 22.
- Game.WarehouseRoguelike.TakeStairs: does not restate the contents of the new level after a descent; `GenerateLevel` states them.
- Game.WarehouseRoguelike.Descend: does not restate the contents of the new level; `GenerateLevel` states them.
- Game.WarehouseRoguelike.ProcessInput: states the loop result, what each command leaves alone and which commands count a move. It does not restate the rest heal and the enemies' pass of a turn; `StepTurn` and `RunTurn` reach them through `EndTurnIf`, whose contract states them, and `PickUpTurn` restates them for the grab.
- Game.WarehouseRoguelike.StepOrAttack: does not cover the move counter; `StepTurn` passes its result to `EndTurnIf`, which ends the turn when it reports one.
- Game.WarehouseRoguelike.StepTurn: states the move counter and where the player ends, not the attack's effect on the monster or the end of the turn from the state the step left; `StepOrAttack` states the first and `EndTurnIf` the second.
- Game.WarehouseRoguelike.RunTurn: states the move counter and where the player ends, not the attack's effect on a monster it meets, the stop message or the end of the turn; `RunCommand` states the first two and `EndTurnIf` the last.
- Integers are unbounded, as Python's are.
