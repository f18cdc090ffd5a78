/** WarehouseRoguelike: the game state and the turn engine. The map, the
    message log, the monster and item lists and the counters are fields
    that the commands update in place; the player and the monsters are
    Entity objects. */
module Game {
  import opened Common
  import opened Grid
  import opened Movement
  import opened Combat
  import opened Entities
  import opened Monster
  import opened MessageLog
  import opened EnemyTurns
  import opened Lookup
  import opened Placement
  import opened LevelGen
  import opened Population

  /** A keypress, once decoded: a single step or a run in one of the four
      directions (lower- and upper-case movement keys), grab, use stairs,
      help, quit, or any other key. */
  datatype Command = Step(dir: Dir) | StepFar(dir: Dir) | PickUp | UseStairs | ShowHelp | Quit | Other

  /** The Kelvin sign, the one character outside A-Z whose lower-case
      form is one of the game's keys (k). */
  const Kelvin: char := '\U{212A}'

  /** str.isupper on one character, for the characters whose lower-case
      form is a key of the game: A-Z and the Kelvin sign. Every other
      upper-case character decodes to Other whichever way it is classed. */
  predicate IsUpper(c: char) {
    'A' <= c <= 'Z' || c == Kelvin
  }

  /** str.lower on one character, for the same characters. */
  function Lower(c: char): (r: char)
    ensures 'A' <= c <= 'Z' ==> r == (c as int + 32) as char && 'a' <= r <= 'z'
    ensures c == Kelvin ==> r == 'k'
    ensures IsUpper(c) ==> r != c && !IsUpper(r)
    ensures !IsUpper(c) ==> r == c
  {
    if 'A' <= c <= 'Z' then (c as int + 32) as char else if c == Kelvin then 'k' else c
  }

  /** The direction of a lower-case movement key: h or a left, l or d
      right, k or w up, j or s down. */
  function KeyDir(c: char): Option<Dir> {
    if c == 'h' || c == 'a' then Some(Left)
    else if c == 'l' || c == 'd' then Some(Right)
    else if c == 'k' || c == 'w' then Some(Up)
    else if c == 'j' || c == 's' then Some(Down)
    else None
  }

  /** The key tests of process_input, in its order: q in either case
      quits, ? asks for help, a movement key steps in lower case and runs
      in upper case, g in either case grabs, > takes the stairs. */
  function DecodeKey(key: char): (cmd: Command)
    ensures cmd == Quit <==> key == 'q' || key == 'Q'
    ensures cmd == ShowHelp <==> key == '?'
    ensures cmd == PickUp <==> key == 'g' || key == 'G'
    ensures cmd == UseStairs <==> key == '>'
    ensures cmd.Step? <==> KeyDir(key).Some?
    ensures cmd.Step? ==> KeyDir(key) == Some(cmd.dir)
    ensures cmd.StepFar? <==> IsUpper(key) && KeyDir(Lower(key)).Some?
    ensures cmd.StepFar? ==> KeyDir(Lower(key)) == Some(cmd.dir)
  {
    var k := Lower(key);
    if k == 'q' then Quit
    else if key == '?' then ShowHelp
    else match KeyDir(k)
      case Some(dir) => if IsUpper(key) then StepFar(dir) else Step(dir)
      case None => if k == 'g' then PickUp else if k == '>' then UseStairs else Other
  }

  /** Holding shift turns every step into a run in the same direction, and
      the Kelvin sign runs up like K. */
  lemma ShiftRuns(c: char)
    requires 'a' <= c <= 'z'
    ensures var upper := (c as int - 32) as char;
      && (DecodeKey(c).Step? <==> DecodeKey(upper).StepFar?)
      && (DecodeKey(c).Step? ==> DecodeKey(upper).dir == DecodeKey(c).dir)
    ensures DecodeKey(Kelvin) == StepFar(Up)
  {
    var upper := (c as int - 32) as char;
    assert Lower(upper) == c;
  }

  /** The part of the game state an action that took a turn leaves
      behind, on values: the monsters, the player's hit points, the
      game-over flag and the log. */
  datatype Aftermath = Aftermath(mobs: seq<Mob>, hp: int, gameOver: bool, messages: seq<Event>)

  /** process_enemy_turns on values: the enemies' pass, a defeat reported
      and ending the game, then the pass's results logged in order. */
  function EnemiesAct(g: Grid, h: Hero, ms: seq<Mob>, hp: int, over: bool, messages: seq<Event>): Aftermath
    requires IsGrid(g)
  {
    var pass := EnemyPass(g, h, ms, hp);
    Aftermath(pass.mobs, pass.hp, over || pass.defeated,
              LogAll(if pass.defeated then Log(messages, PlayerDefeated) else messages, pass.results))
  }

  /** The end of a turn on values: the action is counted (count is the
      counter before it), the rest heal applies, then the enemies act. */
  function TurnEnds(g: Grid, h: Hero, ms: seq<Mob>, count: int, hp: int, maxHp: int, over: bool,
                    messages: seq<Event>): Aftermath
    requires IsGrid(g)
  {
    var healed := RestHeal(count + 1, hp, maxHp);
    EnemiesAct(g, h, ms, healed, over, if healed == hp then messages else Log(messages, Rested(healed, maxHp)))
  }

  /** The statistics of a newly created player. */
  const PlayerMaxHp := 30
  const PlayerDefense := 2
  const PlayerPower := 5

  /** The message Fighter.attack returns. */
  function AttackEvent(attacker: string, target: string, damage: int, hpAfter: int): Event {
    if hpAfter <= 0 then Defeated(target, damage) else Attacked(attacker, target, damage)
  }

  /** The list without its k-th element (list.remove of that element, the
      elements being distinct). */
  function Without<T>(s: seq<T>, k: nat): (r: seq<T>)
    requires k < |s|
    ensures |r| == |s| - 1
    ensures forall j :: 0 <= j < k ==> r[j] == s[j]
    ensures forall j :: k <= j < |r| ==> r[j] == s[j + 1]
  {
    s[..k] + s[k + 1..]
  }

  /** The fighter of the entity a lookup found, the only one an attack
      may wound. */
  ghost function FighterAt(es: seq<Entity>, found: Option<nat>): set<Fighter>
    reads es
  {
    if found.Some? && found.value < |es| && es[found.value].fighter != null then {es[found.value].fighter as Fighter} else {}
  }

  /** The entity a long move runs into, if any. */
  function BlockerOf(r: Lookup.Dash): Option<nat> {
    if r.stop.AtBlocker? then Some(r.stop.index) else None
  }

  /** What picking an item up does to the player's statistics: the amulet
      raises both the maximum and the current hit points by ten; any other
      item is used (a healing item heals up to the maximum), then a box
      cutter adds its damage to the power and a safety vest its defense to
      the defense. */
  function PickUpEffect(item: Pickup, s: Stats): Stats {
    if item.glyph == '*' then Stats(s.hp + 10, s.maxHp + 10, s.defense, s.power)
    else
      Stats(if item.effect.healing > 0 then Healed(s.hp, s.maxHp, item.effect.healing) else s.hp,
            s.maxHp,
            if item.glyph == ']' then s.defense + item.effect.defense else s.defense,
            if item.glyph == '/' then s.power + item.effect.damage else s.power)
  }

  /** A pick-up never lowers the hit points or the maximum, keeps the hit
      points within the maximum, raises the maximum only for the amulet,
      and leaves the player unchanged for an item with no effect. */
  lemma PickUpEffectBounds(item: Pickup, s: Stats)
    requires s.hp <= s.maxHp
    ensures var r := PickUpEffect(item, s);
      && s.hp <= r.hp <= r.maxHp
      && (r.maxHp != s.maxHp <==> item.glyph == '*')
      && (item.glyph != '*' && item.effect.healing <= 0 ==> r.hp == s.hp)
      && (item.glyph != '*' && item.glyph != '/' && item.glyph != ']' && item.effect.healing <= 0 ==> r == s)
  {
  }

  /** The messages of a pick-up, oldest first. */
  function PickUpReport(item: Pickup): seq<Event> {
    if item.glyph == '*' then [FoundAmulet(item.name), AmuletPower]
    else [PickedUp(item.name), if item.effect.healing > 0 then ItemUsed(item.name, item.effect.healing) else CannotUse]
  }

  /** The amulet's boost: ten more hit points and ten more maximum. */
  method TakeAmulet(item: Pickup, f: Fighter)
    requires item.glyph == '*'
    modifies f
    ensures StatsOf(f) == PickUpEffect(item, old(StatsOf(f)))
  {
    f.maxHp := f.maxHp + 10;
    f.hp := f.hp + 10;
  }

  /** Whether a command takes a turn for a player at (x, y) on the map g,
      among the bodies bs and the items: a step onto a monster or an
      enterable cell, a long move that goes at least one cell or meets a
      monster, or a grab with an item underfoot. */
  ghost predicate TakesTurn(cmd: Command, g: Grid, bs: seq<Body>, items: seq<Pickup>, x: int, y: int)
    requires IsGrid(g) && InBounds(x, y)
  {
    match cmd
    case Step(dir) => FindBlocker(bs, x + dir.DX(), y + dir.DY()).Some? || CanEnter(g, x + dir.DX(), y + dir.DY())
    case StepFar(dir) =>
      var r := Run(g, bs, items, x, y, dir.DX(), dir.DY());
      r.steps > 0 || r.stop.AtBlocker?
    case PickUp => FindItem(items, x, y).Some?
    case _ => false
  }

  /** Any other item is used (an energy drink heals), then a box cutter
      adds its damage to the power and a safety vest its defense to the
      defense, for good. */
  method UseAndEquip(item: Pickup, user: Entity) returns (ev: Event)
    requires user.fighter != null && item.glyph != '*'
    modifies user.fighter
    ensures StatsOf(user.fighter) == PickUpEffect(item, old(StatsOf(user.fighter)))
    ensures ev == PickUpReport(item)[1]
  {
    ev := UseItem(item, user);
    var f := user.fighter;
    if item.glyph == '/' {
      f.power := f.power + item.effect.damage;
    } else if item.glyph == ']' {
      f.defense := f.defense + item.effect.defense;
    }
  }

  class WarehouseRoguelike {
    var grid: Grid
    var messages: seq<Event>
    var gameOver: bool
    var level: int
    var player: Entity?
    var entities: seq<Entity>
    var items: seq<Pickup>
    var moveCount: int
    ghost var Repr: set<object>

    /** How the objects of the game hang together: the monsters and their
        fighters belong to the game, are distinct from the player and the
        player's fighter, and no monster is listed twice. The fighter of an
        entity never changes, so this reads no object but the game. */
    ghost predicate Linked()
      reads this`entities, this`player, this`Repr
    {
      && this !in Repr
      && (forall k :: 0 <= k < |entities| ==>
            && entities[k] in Repr && entities[k] != player
            && entities[k].fighter != null && entities[k].fighter in Repr
            && (player != null ==> entities[k].fighter != player.fighter))
      && (forall j, k :: 0 <= j < k < |entities| ==> entities[j] != entities[k])
      && (player != null ==> player in Repr && player.fighter != null && player.fighter in Repr)
    }

    /** The invariant every operation keeps, apart from the bound on the
        message log: the objects are linked as above, the map is a full
        grid, the player stands on a floor or stairs cell of it and the
        player's hit points never exceed the maximum. */
    ghost predicate Valid()
      reads this`grid, this`entities, this`player, this`Repr, player
      reads if player != null then player.fighter else null
    {
      && Linked() && IsGrid(grid)
      && (player != null ==>
            && InBounds(player.x, player.y) && Walkable(grid[player.y][player.x])
            && player.fighter.hp <= player.fighter.maxHp)
    }

    /** A game in progress: the invariant holds, the player exists, the
        level number is at least one and the log holds at most five
        messages. */
    ghost predicate Playing()
      reads this`grid, this`entities, this`player, this`Repr, this`level, this`messages, player
      reads if player != null then player.fighter else null
    {
      Valid() && player != null && 1 <= level && |messages| <= Capacity
    }

    /** __init__: level one, no player yet, an empty log, no action
        counted and the game not over; then the first level is generated
        from the draws d, which creates the player. */
    constructor (d: LevelDraws)
      requires ValidDraws(d, 1) && EntranceFound(d)
      ensures Playing() && fresh(Repr)
      ensures level == 1 && messages == [] && !gameOver && moveCount == 0
      ensures player.Position() == Pos(5, d.spawnRows[SpawnIndex(Layout(d), d.spawnRows).value])
      ensures StatsOf(player.fighter) == Stats(PlayerMaxHp, PlayerMaxHp, PlayerDefense, PlayerPower)
      // the player starts without the amulet
      ensures player.glyph == '@' && player.name == "Player" && player.blocks && !player.ai
      // the first level, built from the draws as GenerateLevel states
      ensures forall layout {:trigger Cleared(layout, player.Position())} :: layout == Layout(d) ==>
              var cleared := Cleared(layout, player.Position());
              var cells := MonsterCells(cleared, d);
              && |entities| == |cells|
              && (forall k :: 0 <= k < |entities| ==>
                    MobOf(entities[k]) == Spawned(cells, d.monsterKinds, 1)[k] && entities[k].blocks)
              && items == FloorItems(cleared, 1, d)
              && grid == WithStairs(cleared, StairsCell(cleared, 1, d))
    {
      grid, messages, gameOver, level, player, entities, items := [], [], false, 1, null, [], [];
      moveCount := 0;
      Repr := {};
      new;
      GenerateLevel(d);
    }

    /** add_message: append, dropping the oldest message beyond five. */
    method AddMessage(e: Event)
      modifies this`messages
      ensures messages == Log(old(messages), e)
      ensures |old(messages)| <= Capacity ==> |messages| <= Capacity
    {
      messages := messages + [e];
      if |messages| > Capacity {
        messages := messages[1..];
      }
    }

    /** A counted action: the move counter goes up and every second action
        heals one hit point while the player is below the maximum. */
    method CountAction()
      requires Playing()
      modifies this`moveCount, this`messages, player.fighter`hp
      ensures Playing()
      ensures Mobs(entities) == old(Mobs(entities)) && HeroOf(player) == old(HeroOf(player))
      ensures moveCount == old(moveCount) + 1
      ensures player.fighter.hp == RestHeal(moveCount, old(player.fighter.hp), player.fighter.maxHp)
      ensures messages == if player.fighter.hp == old(player.fighter.hp) then old(messages)
                          else Log(old(messages), Rested(player.fighter.hp, player.fighter.maxHp))
    {
      moveCount := moveCount + 1;
      if moveCount % 2 == 0 && player.fighter.hp < player.fighter.maxHp {
        assert player.fighter !in Fighters(entities);
        player.fighter.hp := player.fighter.hp + 1;
        AddMessage(Rested(player.fighter.hp, player.fighter.maxHp));
      }
    }

    /** The player attacks the k-th monster, reports it, and removes the
        monster from the list when it is defeated. */
    method AttackEntity(k: nat) returns (defeated: bool)
      requires Playing() && k < |entities|
      modifies this`entities, this`messages, entities[k].fighter`hp
      ensures Playing()
      ensures var target := old(entities[k]);
              var damage := Damage(old(player.fighter.power), old(target.fighter.defense));
              && target.fighter.hp == old(target.fighter.hp) - damage
              && (defeated <==> target.fighter.hp <= 0)
              && messages == Log(old(messages), AttackEvent(player.name, target.name, damage, target.fighter.hp))
              && entities == if defeated then Without(old(entities), k) else old(entities)
    {
      var target := entities[k];
      var ev := player.fighter.Attack(player, target);
      AddMessage(ev);
      defeated := target.fighter.hp <= 0;
      if defeated {
        entities := Without(entities, k);
      }
    }

    /** A single step (lower-case movement key): attack a blocking monster
        on the target cell, otherwise step there if it is on the grid and
        walkable. Returns whether the player acted. */
    method StepOrAttack(dx: int, dy: int) returns (moved: bool)
      requires Playing()
      modifies this`entities, this`messages, player`x, player`y
      modifies FighterAt(entities, FindBlocker(Bodies(entities), player.x + dx, player.y + dy))
      ensures Playing()
      // the action takes a turn iff it attacks or steps
      ensures moved <==> FindBlocker(old(Bodies(entities)), old(player.x) + dx, old(player.y) + dy).Some? ||
                         CanEnter(grid, old(player.x) + dx, old(player.y) + dy)
      ensures var nx, ny := old(player.x) + dx, old(player.y) + dy;
              var b := FindBlocker(old(Bodies(entities)), nx, ny);
              && (b.Some? ==>
                    var target := old(entities)[b.value];
                    var damage := Damage(old(player.fighter.power), old(target.fighter.defense));
                    && moved && player.Position() == old(player.Position())
                    && target.fighter.hp == old(target.fighter.hp) - damage
                    && messages == Log(old(messages), AttackEvent(player.name, target.name, damage, target.fighter.hp))
                    && entities == if target.fighter.hp <= 0 then Without(old(entities), b.value) else old(entities))
              && (b.None? ==>
                    && (moved <==> CanEnter(grid, nx, ny))
                    && player.Position() == (if moved then Pos(nx, ny) else old(player.Position()))
                    && entities == old(entities) && messages == old(messages))
    {
      var nx, ny := player.x + dx, player.y + dy;
      var b := FindBlocker(Bodies(entities), nx, ny);
      if b.Some? {
        var _ := AttackEntity(b.value);
        moved := true;
      } else if 0 <= nx < Width && 0 <= ny < Height && (grid[ny][nx] == '.' || grid[ny][nx] == '>') {
        player.x, player.y := nx, ny;
        moved := true;
      } else {
        moved := false;
      }
    }

    /** The message for a long move that did not run into a monster (a
        move that did is reported by RunInto instead). */
    static function StopReport(r: Lookup.Dash, items: seq<Pickup>): Event
      requires !r.stop.AtBlocker?
      requires r.stop.AtItem? ==> r.stop.index < |items|
    {
      match r.stop
      case AtEdge => StoppedAtEdge(r.steps)
      case AtObstacle(c) => StoppedByObstacle(c, r.steps)
      case AtStairs => StoppedAtStairs(r.steps)
      case AtItem(j) => StoppedAtItem(items[j].name, r.steps)
      case AtBlocker(_) => assert false; StoppedAtEdge(r.steps)
    }

    /** The walk of move_max_distance: the player advances while the next
        cell is on the grid, free of blocking monsters and walkable, and
        stops on stairs or an item; Lookup.Run describes where it ends. */
    method Walk(dx: int, dy: int) returns (steps: nat, halt: Stop)
      requires IsGrid(grid) && player != null && InBounds(player.x, player.y) && IsDir(dx, dy)
      modifies player`x, player`y
      ensures Run(grid, old(Bodies(entities)), items, old(player.x), old(player.y), dx, dy) == Lookup.Dash(steps, halt)
      ensures player.Position() == Pos(Shift(old(player.x), dx, steps), Shift(old(player.y), dy, steps))
      ensures steps > 0 ==> CanEnter(grid, player.x, player.y)
    {
      RunStaysOpen(grid, Bodies(entities), items, player.x, player.y, dx, dy);
      steps, halt := WalkFrom(grid, Bodies(entities), items, player.x, player.y, dx, dy);
      player.x, player.y := Shift(player.x, dx, steps), Shift(player.y, dy, steps);
    }

    /** A long move that ends at an entity attacks it and, when the
        entity survives, reports where the move stopped. */
    method RunInto(k: nat, steps: nat)
      requires Playing() && k < |entities|
      modifies this`entities, this`messages, entities[k].fighter`hp
      ensures Playing()
      ensures var target := old(entities[k]);
              var damage := Damage(old(player.fighter.power), old(target.fighter.defense));
              var attacked := Log(old(messages), AttackEvent(player.name, target.name, damage, target.fighter.hp));
              && target.fighter.hp == old(target.fighter.hp) - damage
              && entities == (if target.fighter.hp <= 0 then Without(old(entities), k) else old(entities))
              && messages == (if target.fighter.hp <= 0 then attacked else Log(attacked, StoppedAtEntity(target.name, steps)))
    {
      var target := entities[k];
      var defeated := AttackEntity(k);
      if !defeated {
        AddMessage(StoppedAtEntity(target.name, steps));
      }
    }

    /** move_max_distance (upper-case movement key): walk in one direction
        until the edge, an obstacle, a monster (which is attacked), stairs
        or an item. Returns whether the player moved or attacked. */
    method MoveMaxDistance(dx: int, dy: int) returns (moved: bool)
      requires Playing() && IsDir(dx, dy)
      modifies this`entities, this`messages, player`x, player`y
      modifies FighterAt(entities, BlockerOf(Run(grid, Bodies(entities), items, player.x, player.y, dx, dy)))
      ensures Playing() && moveCount == old(moveCount) && gameOver == old(gameOver)
      ensures var r := Run(old(grid), old(Bodies(entities)), old(items), old(player.x), old(player.y), dx, dy);
              && player.Position() == Pos(Shift(old(player.x), dx, r.steps), Shift(old(player.y), dy, r.steps))
              && (moved <==> r.steps > 0 || r.stop.AtBlocker?)
              && (!r.stop.AtBlocker? ==> entities == old(entities) && messages == Log(old(messages), StopReport(r, old(items))))
              && (r.stop.AtBlocker? ==>
                    var target := old(entities)[r.stop.index];
                    var damage := Damage(old(player.fighter.power), old(target.fighter.defense));
                    var attacked := Log(old(messages), AttackEvent(player.name, target.name, damage, target.fighter.hp));
                    && target.fighter.hp == old(target.fighter.hp) - damage
                    && entities == (if target.fighter.hp <= 0 then Without(old(entities), r.stop.index) else old(entities))
                    && messages == (if target.fighter.hp <= 0 then attacked else Log(attacked, StoppedAtEntity(target.name, r.steps))))
    {
      var steps, halt := Walk(dx, dy);
      if halt.AtBlocker? {
        RunInto(halt.index, steps);
        moved := true;
      } else {
        AddMessage(StopReport(Lookup.Dash(steps, halt), items));
        moved := steps > 0;
      }
    }

    /** The turn of the i-th monster (BasicMonster.take_turn): it may
        move, and the player may lose hit points. */
    method EnemyTurn(monster: Entity, ghost i: nat) returns (result: Option<Event>)
      requires Playing() && i < |entities| && entities[i] == monster
      modifies monster`x, monster`y, player.fighter`hp
      ensures Playing()
      ensures HeroOf(player) == old(HeroOf(player))
      ensures var t := Tick(grid, old(Mobs(entities))[i], old(HeroOf(player)), old(player.fighter.hp));
              && Mobs(entities) == old(Mobs(entities))[i := old(Mobs(entities))[i].(pos := t.pos)]
              && player.fighter.hp == t.playerHp && result == t.result
    {
      ghost var before := Mobs(entities);
      result := TakeTurn(monster, player, grid);
      forall k | 0 <= k < |entities| && k != i
        ensures Mobs(entities)[k] == before[k]
      {
        assert entities[k] != monster && entities[k].fighter != player.fighter;
      }
      assert Mobs(entities)[i] == before[i].(pos := monster.Position());
    }

    /** Appends the results to the log in order. */
    method LogResults(results: seq<Event>)
      modifies this`messages
      ensures messages == LogAll(old(messages), results)
      ensures |old(messages)| <= Capacity ==> |messages| <= Capacity
    {
      var j := 0;
      while j < |results|
        invariant 0 <= j <= |results|
        invariant messages == LogAll(old(messages), results[..j])
      {
        LogAllSnoc(old(messages), results[..j], results[j]);
        assert results[..j + 1] == results[..j] + [results[j]];
        AddMessage(results[j]);
        j := j + 1;
      }
      assert results[..j] == results;
      if |old(messages)| <= Capacity {
        LogAllKeepsNewest(old(messages), results);
      }
    }

    /** The loop of process_enemy_turns: every monster with a behaviour
        takes its turn in list order, and the loop stops as soon as the
        player is defeated. EnemyPass is the same pass on values. */
    method TakeEnemyTurns() returns (results: seq<Event>, defeated: bool)
      requires Playing()
      modifies player.fighter`hp, entities
      ensures Playing()
      ensures HeroOf(player) == old(HeroOf(player))
      ensures var pass := EnemyPass(grid, old(HeroOf(player)), old(Mobs(entities)), old(player.fighter.hp));
              && Mobs(entities) == pass.mobs && player.fighter.hp == pass.hp
              && results == pass.results && defeated == pass.defeated
    {
      ghost var h := HeroOf(player);
      ghost var pass := EnemyPass(grid, h, Mobs(entities), player.fighter.hp);
      results := [];
      defeated := false;
      var i := 0;
      while i < |entities|
        invariant 0 <= i <= |entities|
        invariant Playing() && HeroOf(player) == h
        invariant SweepFrom(grid, h, Mobs(entities), i, player.fighter.hp, results) == pass
      {
        if entities[i].ai {
          SweepFromStep(grid, h, Mobs(entities), i, player.fighter.hp, results);
          var r := EnemyTurn(entities[i], i);
          if r.Some? {
            results := results + [r.value];
            if player.fighter.hp <= 0 {
              defeated := true;
              assert pass == Sweep(Mobs(entities), player.fighter.hp, results, true, i + 1);
              return;
            }
          }
        }
        i := i + 1;
      }
      assert pass == Sweep(Mobs(entities), player.fighter.hp, results, false, i);
    }

    /** The end of process_enemy_turns: a defeat is reported and ends
        the game, then the turns' results are logged in order. */
    method ReportEnemyTurns(results: seq<Event>, defeated: bool)
      requires Playing()
      modifies this`messages, this`gameOver
      ensures Playing()
      ensures gameOver == (old(gameOver) || defeated)
      ensures messages == LogAll(if defeated then Log(old(messages), PlayerDefeated) else old(messages), results)
      ensures |old(messages)| <= Capacity ==> |messages| <= Capacity
    {
      if defeated {
        AddMessage(PlayerDefeated);
        gameOver := true;
      }
      LogResults(results);
    }

    /** process_enemy_turns: the enemies' turns, then their report. */
    method ProcessEnemyTurns()
      requires Playing()
      modifies this`messages, this`gameOver, player.fighter`hp, entities
      ensures var pass := EnemyPass(grid, old(HeroOf(player)), old(Mobs(entities)), old(player.fighter.hp));
              && Mobs(entities) == pass.mobs
              && player.fighter.hp == pass.hp
              && gameOver == (old(gameOver) || pass.defeated)
              && messages == LogAll(if pass.defeated then Log(old(messages), PlayerDefeated) else old(messages), pass.results)
      ensures HeroOf(player) == old(HeroOf(player))
      ensures Playing()
    {
      var results, defeated := TakeEnemyTurns();
      ghost var m := Mobs(entities);
      ReportEnemyTurns(results, defeated);
      assert forall k :: 0 <= k < |entities| ==> MobOf(entities[k]) == m[k];
      assert Mobs(entities) == m;
    }

    /** What an item does to the player: the amulet marks the player with
        its glyph and raises the hit points and their maximum by ten; any
        other item is used, then a box cutter or a safety vest boosts the
        player. Returns the second message of the pick-up. */
    method Boost(item: Pickup) returns (ev: Event)
      requires Playing()
      modifies player`glyph, player.fighter
      ensures Playing() && player.Position() == old(player.Position())
      ensures StatsOf(player.fighter) == PickUpEffect(item, old(StatsOf(player.fighter)))
      ensures player.fighter.hp <= player.fighter.maxHp
      ensures player.glyph == if item.glyph == '*' then '*' else old(player.glyph)
      ensures ev == PickUpReport(item)[1]
    {
      PickUpEffectBounds(item, StatsOf(player.fighter));
      if item.glyph == '*' {
        player.glyph := '*';
        TakeAmulet(item, player.fighter);
        ev := AmuletPower;
      } else {
        ev := UseAndEquip(item, player);
      }
    }

    /** Picking up one item: its two messages around its effect. */
    method Apply(item: Pickup)
      requires Playing()
      modifies this`messages, player`glyph, player.fighter
      ensures Playing() && player.Position() == old(player.Position())
      ensures messages == LogAll(old(messages), PickUpReport(item)) && |messages| <= Capacity
      ensures StatsOf(player.fighter) == PickUpEffect(item, old(StatsOf(player.fighter)))
      ensures player.fighter.hp <= player.fighter.maxHp
      ensures player.glyph == if item.glyph == '*' then '*' else old(player.glyph)
    {
      ghost var m0 := messages;
      AddMessage(if item.glyph == '*' then FoundAmulet(item.name) else PickedUp(item.name));
      var ev := Boost(item);
      AddMessage(ev);
      LogAllTwo(m0, PickUpReport(item)[0], PickUpReport(item)[1]);
      assert PickUpReport(item) == [PickUpReport(item)[0], PickUpReport(item)[1]];
    }

    /** Picking up the k-th item: it is taken off the floor and applied to
        the player. The original applies it first; applying never looks at
        the item list, so the order does not change the outcome. */
    method TakeItem(k: nat)
      requires Playing() && k < |items|
      modifies this`items, this`messages, player`glyph, player.fighter
      ensures Playing()
      ensures player.Position() == old(player.Position()) && Mobs(entities) == old(Mobs(entities))
      ensures var item := old(items)[k];
              && items == Without(old(items), k)
              && messages == LogAll(old(messages), PickUpReport(item))
              && StatsOf(player.fighter) == PickUpEffect(item, old(StatsOf(player.fighter)))
              && player.glyph == if item.glyph == '*' then '*' else old(player.glyph)
    {
      var item := items[k];
      items := Without(items, k);
      Apply(item);
      MobsUnchanged(entities);
    }

    /** A new monster of the given kind, at full health and with the
        chasing behaviour, joins the entity list at the given cell. */
    method AddMonster(at: Pos, kind: EnemyKind)
      requires Linked()
      modifies this`entities, this`Repr
      ensures Linked() && fresh(Repr - old(Repr))
      ensures |entities| == old(|entities|) + 1 && entities[..old(|entities|)] == old(entities)
      ensures var m := entities[old(|entities|)];
              && MobOf(m) == Mob(at, kind.name, true, Stats(kind.hp, kind.hp, kind.defense, kind.power))
              && m.glyph == kind.glyph && m.blocks
    {
      var f := new Fighter(kind.hp, kind.defense, kind.power);
      var m := new Entity(at.x, at.y, kind.glyph, kind.name, true, f, true);
      entities := entities + [m];
      Repr := Repr + {m, f};
    }

    /** The monsters of the chosen cells join the entity list, the k-th of
        kind kinds[k]. */
    method SpawnMonsters(cells: seq<Pos>, kinds: seq<int>)
      requires Valid()
      requires |cells| <= |kinds| && forall k :: 0 <= k < |kinds| ==> 0 <= kinds[k] < |EnemyTypes(level)|
      modifies this`entities, this`Repr
      ensures Valid() && fresh(Repr - old(Repr))
      ensures |entities| == old(|entities|) + |cells| && entities[..old(|entities|)] == old(entities)
      ensures forall k :: old(|entities|) <= k < |entities| ==>
                MobOf(entities[k]) == Spawned(cells, kinds, level)[k - old(|entities|)] && entities[k].blocks
    {
      ghost var n0 := |entities|;
      var i := 0;
      while i < |cells|
        invariant 0 <= i <= |cells| && |entities| == n0 + i
        invariant Linked() && fresh(Repr - old(Repr))
        invariant entities[..n0] == old(entities)
        invariant forall k :: n0 <= k < |entities| ==>
                    MobOf(entities[k]) == Spawned(cells, kinds, level)[k - n0] && entities[k].blocks
      {
        AddMonster(cells[i], EnemyTypes(level)[kinds[i]]);
        i := i + 1;
      }
    }

    /** place_entities on a freshly reset level: the monsters, then the
        amulet on level 5, then the items, then the stairs, each rejection
        loop avoiding what was placed before it. */
    method PlaceEntities(d: LevelDraws)
      requires Valid() && player != null && entities == [] && items == [] && ValidDraws(d, level)
      modifies this`entities, this`items, this`grid, this`Repr
      ensures Valid() && fresh(Repr - old(Repr))
      ensures var cells := MonsterCells(old(grid), d);
              && |entities| == |cells|
              && (forall k :: 0 <= k < |entities| ==>
                    MobOf(entities[k]) == Spawned(cells, d.monsterKinds, level)[k] && entities[k].blocks)
              && items == FloorItems(old(grid), level, d)
              && grid == WithStairs(old(grid), StairsCell(old(grid), level, d))
    {
      var cells := PickCells(grid, [], d.monsterCells, d.numMonsters);
      // the item and stairs loops see the monsters through their cells, so
      // the monster objects can be created after them
      WithStairsKeepsWalkable(grid, StairsCell(grid, level, d), player.x, player.y);
      items, grid := PlaceItems(grid, level, d, cells);
      SpawnMonsters(cells, d.monsterKinds);
    }

    /** The player's entrance: on the first level (or with no player yet)
        a new player with full statistics at column 5 of the first drawn
        row whose cell there is floor; later, the same player moved to the
        first floor cell of the interior in row-major order, or left where
        it was if the map has none. */
    method PlacePlayer(g: Grid, d: LevelDraws)
      requires Linked() && IsGrid(g)
      requires level == 1 || player == null ==>
                 (forall k :: 0 <= k < |d.spawnRows| ==> 0 <= d.spawnRows[k] < Height) && SpawnIndex(g, d.spawnRows).Some?
      requires player != null ==> InBounds(player.x, player.y) && player.fighter.hp <= player.fighter.maxHp
      modifies this`player, this`Repr, (if player != null then {player} else {})`x, (if player != null then {player} else {})`y
      ensures Linked() && player != null && fresh(Repr - old(Repr))
      ensures InBounds(player.x, player.y) && player.fighter.hp <= player.fighter.maxHp
      ensures old(level == 1 || player == null) ==>
                && fresh(player) && fresh(player.fighter)
                && player.Position() == Pos(5, d.spawnRows[SpawnIndex(g, d.spawnRows).value])
                && StatsOf(player.fighter) == Stats(PlayerMaxHp, PlayerMaxHp, PlayerDefense, PlayerPower)
                && player.glyph == '@' && player.name == "Player" && player.blocks && !player.ai
      ensures !old(level == 1 || player == null) ==>
                && player == old(player) && player.glyph == old(player.glyph)
                && (IsFirstFloor(g, player.x, player.y) || (NoFloor(g) && player.Position() == old(player.Position())))
    {
      if level == 1 || player == null {
        var row := PickSpawnRow(g, d.spawnRows);
        var f := new Fighter(PlayerMaxHp, PlayerDefense, PlayerPower);
        player := new Entity(5, row, '@', "Player", true, f, false);
        Repr := Repr + {player, f};
      } else {
        var at := FirstFloor(g);
        if at.Some? {
          player.x, player.y := at.value.x, at.value.y;
        }
      }
    }

    /** The first half of furnishing the warehouse map g: empty the monster
        and item lists, bring the player in and clear the walls around the
        player; the cleared map becomes the level's map. */
    method Enter(g: Grid, d: LevelDraws)
      requires Linked() && IsGrid(g)
      requires player != null ==> InBounds(player.x, player.y) && player.fighter.hp <= player.fighter.maxHp
      requires level == 1 || player == null ==>
                 (forall k :: 0 <= k < |d.spawnRows| ==> 0 <= d.spawnRows[k] < Height) && SpawnIndex(g, d.spawnRows).Some?
      requires !NoFloor(g)
      modifies this`grid, this`entities, this`items, this`player, this`Repr, (if player != null then {player} else {})`x, (if player != null then {player} else {})`y
      ensures Valid() && player != null && fresh(Repr - old(Repr))
      ensures entities == [] && items == [] && grid == Cleared(g, player.Position())
      ensures old(level == 1 || player == null) ==>
                && fresh(player)
                && player.Position() == Pos(5, d.spawnRows[SpawnIndex(g, d.spawnRows).value])
                && StatsOf(player.fighter) == Stats(PlayerMaxHp, PlayerMaxHp, PlayerDefense, PlayerPower)
                && player.glyph == '@' && player.name == "Player" && player.blocks && !player.ai
      ensures !old(level == 1 || player == null) ==>
                && player == old(player) && player.glyph == old(player.glyph)
                && IsFirstFloor(g, player.x, player.y)
    {
      entities := [];
      items := [];
      PlacePlayer(g, d);
      assert g[player.y][player.x] == '.';
      ClearedKeepsWalkable(g, player.Position(), player.x, player.y);
      grid := ClearAround(g, player.Position());
    }

    /** generate_level once the warehouse map g is built: empty the
        monster and item lists, bring the player in, clear the walls around
        the player, then place the monsters, the items and the stairs. */
    method Furnish(g: Grid, d: LevelDraws)
      requires Linked() && IsGrid(g) && 1 <= level && ValidDraws(d, level)
      requires player != null ==> InBounds(player.x, player.y) && player.fighter.hp <= player.fighter.maxHp
      requires level == 1 || player == null ==> SpawnIndex(g, d.spawnRows).Some?
      requires !NoFloor(g)
      modifies this`grid, this`entities, this`items, this`player, this`Repr, (if player != null then {player} else {})`x, (if player != null then {player} else {})`y
      ensures Valid() && player != null && fresh(Repr - old(Repr))
      ensures old(level == 1 || player == null) ==>
                && fresh(player)
                && player.Position() == Pos(5, d.spawnRows[SpawnIndex(g, d.spawnRows).value])
                && StatsOf(player.fighter) == Stats(PlayerMaxHp, PlayerMaxHp, PlayerDefense, PlayerPower)
                && player.glyph == '@' && player.name == "Player" && player.blocks && !player.ai
      ensures !old(level == 1 || player == null) ==>
                && player == old(player) && player.glyph == old(player.glyph)
                && IsFirstFloor(g, player.x, player.y)
      ensures var cleared := Cleared(g, player.Position());
              var cells := MonsterCells(cleared, d);
              && |entities| == |cells|
              && (forall k :: 0 <= k < |entities| ==>
                    MobOf(entities[k]) == Spawned(cells, d.monsterKinds, old(level))[k] && entities[k].blocks)
              && items == FloorItems(cleared, old(level), d)
              && grid == WithStairs(cleared, StairsCell(cleared, old(level), d))
    {
      Enter(g, d);
      label placed:
      PlaceEntities(d);
      assert fresh(Repr - old(Repr)) && unchanged@placed(player, player.fighter);
    }

    /** generate_level: build the warehouse map, then furnish it. */
    method GenerateLevel(d: LevelDraws)
      requires Linked() && 1 <= level && ValidDraws(d, level)
      requires player != null ==> InBounds(player.x, player.y) && player.fighter.hp <= player.fighter.maxHp
      requires level == 1 || player == null ==> EntranceFound(d)
      modifies this`grid, this`entities, this`items, this`player, this`Repr, (if player != null then {player} else {})`x, (if player != null then {player} else {})`y
      ensures Valid() && player != null && fresh(Repr - old(Repr))
      ensures FixturesOnGrid(d)
      ensures old(level == 1 || player == null) ==>
                && fresh(player)
                && player.Position() == Pos(5, d.spawnRows[SpawnIndex(Layout(d), d.spawnRows).value])
                && StatsOf(player.fighter) == Stats(PlayerMaxHp, PlayerMaxHp, PlayerDefense, PlayerPower)
                && player.glyph == '@' && player.name == "Player" && player.blocks && !player.ai
      ensures !old(level == 1 || player == null) ==>
                && player == old(player) && player.glyph == old(player.glyph)
                && IsFirstFloor(Layout(d), player.x, player.y)
      // what was placed, stated for the map the passes build; written as a
      // quantifier over that map so that it is expanded only where a caller
      // mentions the cleared map
      ensures forall layout {:trigger Cleared(layout, player.Position())} :: layout == Layout(d) ==>
              var cleared := Cleared(layout, player.Position());
              var cells := MonsterCells(cleared, d);
              && |entities| == |cells|
              && (forall k :: 0 <= k < |entities| ==>
                    MobOf(entities[k]) == Spawned(cells, d.monsterKinds, old(level))[k] && entities[k].blocks)
              && items == FloorItems(cleared, old(level), d)
              && grid == WithStairs(cleared, StairsCell(cleared, old(level), d))
    {
      LayoutHasFloor(d, level);
      var g := BuildLayout(d);
      Furnish(g, d);
    }

    /** What follows every action that took a turn: the action is counted,
        with the rest heal on every second one, then the enemies take their
        turns against the player's new hit points. */
    method EndTurn()
      requires Playing()
      modifies this`moveCount, this`messages, this`gameOver, player.fighter`hp, entities
      ensures Playing() && unchanged(player) && level == old(level) && grid == old(grid)
      ensures HeroOf(player) == old(HeroOf(player))
      ensures StatsOf(player.fighter) == old(StatsOf(player.fighter)).(hp := player.fighter.hp)
      ensures moveCount == old(moveCount) + 1
      ensures forall h {:trigger TurnEnds(grid, h, old(Mobs(entities)), old(moveCount), old(player.fighter.hp),
                                          player.fighter.maxHp, old(gameOver), old(messages))} ::
                h == old(HeroOf(player)) ==>
                Aftermath(Mobs(entities), player.fighter.hp, gameOver, messages) ==
                TurnEnds(grid, h, old(Mobs(entities)), old(moveCount), old(player.fighter.hp),
                         player.fighter.maxHp, old(gameOver), old(messages))
    {
      ghost var m, h, m0, hp0 := Mobs(entities), HeroOf(player), messages, player.fighter.hp;
      CountAction();
      ghost var lv, gr := level, grid;
      ghost var after := EnemiesAct(grid, h, m, player.fighter.hp, gameOver, messages);
      assert after == TurnEnds(grid, h, m, moveCount - 1, hp0, player.fighter.maxHp, gameOver, m0);
      ProcessEnemyTurns();
      assert level == lv && grid == gr;
      assert Aftermath(Mobs(entities), player.fighter.hp, gameOver, messages) == after;
    }

    /** An upper-case movement key: announce the run, then run as far as
        possible (MoveMaxDistance). Returns whether the player moved or
        attacked; the turn is ended by the caller. */
    method RunCommand(dir: Dir) returns (moved: bool)
      requires Playing()
      modifies this`entities, this`messages, player`x, player`y
      modifies FighterAt(entities, BlockerOf(Run(grid, Bodies(entities), items, player.x, player.y, dir.DX(), dir.DY())))
      ensures Playing() && moveCount == old(moveCount) && gameOver == old(gameOver)
      ensures var r := Run(old(grid), old(Bodies(entities)), old(items), old(player.x), old(player.y), dir.DX(), dir.DY());
              && player.Position() == Pos(Shift(old(player.x), dir.DX(), r.steps), Shift(old(player.y), dir.DY(), r.steps))
              && (moved <==> r.steps > 0 || r.stop.AtBlocker?)
              && (!r.stop.AtBlocker? ==> entities == old(entities) && messages == Log(Log(old(messages), MovingFar(dir)), StopReport(r, old(items))))
              && (r.stop.AtBlocker? ==>
                    var target := old(entities)[r.stop.index];
                    var damage := Damage(old(player.fighter.power), old(target.fighter.defense));
                    var attacked := Log(Log(old(messages), MovingFar(dir)), AttackEvent(player.name, target.name, damage, target.fighter.hp));
                    && target.fighter.hp == old(target.fighter.hp) - damage
                    && entities == (if target.fighter.hp <= 0 then Without(old(entities), r.stop.index) else old(entities))
                    && messages == (if target.fighter.hp <= 0 then attacked else Log(attacked, StoppedAtEntity(target.name, r.steps))))
    {
      ghost var bodies := Bodies(entities);
      AddMessage(MovingFar(dir));
      assert Bodies(entities) == bodies;
      moved := MoveMaxDistance(dir.DX(), dir.DY());
    }

    /** A grab that found the k-th item underfoot: the item is taken and
        applied, then the turn ends as EndTurn states, from the state the
        pick-up left. */
    method PickUpTurn(k: nat)
      requires Playing() && k < |items|
      modifies this`items, this`messages, this`moveCount, this`gameOver, player`glyph, player.fighter, entities
      ensures Playing() && player.Position() == old(player.Position())
      ensures moveCount == old(moveCount) + 1
      ensures var item := old(items)[k];
              var boosted := PickUpEffect(item, old(StatsOf(player.fighter)));
              && items == Without(old(items), k)
              && player.glyph == (if item.glyph == '*' then '*' else old(player.glyph))
              && StatsOf(player.fighter) == boosted.(hp := player.fighter.hp)
              && forall h :: h == HeroOf(player) ==>
                   Aftermath(Mobs(entities), player.fighter.hp, gameOver, messages) ==
                   TurnEnds(grid, h, old(Mobs(entities)), old(moveCount), boosted.hp, boosted.maxHp,
                            old(gameOver), LogAll(old(messages), PickUpReport(item)))
    {
      ghost var item, boosted := items[k], PickUpEffect(items[k], StatsOf(player.fighter));
      ghost var count, over := moveCount, gameOver;
      TakeItem(k);
      label taken:
      ghost var mobs, hero, log, left := Mobs(entities), HeroOf(player), messages, items;
      assert moveCount == count && gameOver == over;
      assert StatsOf(player.fighter) == boosted && log == LogAll(old(messages), PickUpReport(item));
      EndTurn();
      assert hero == old@taken(HeroOf(player)) && mobs == old@taken(Mobs(entities)) && items == left;
      assert Aftermath(Mobs(entities), player.fighter.hp, gameOver, messages) ==
             TurnEnds(grid, hero, mobs, count, boosted.hp, player.fighter.maxHp, over, log);
      assert StatsOf(player.fighter) == boosted.(hp := player.fighter.hp);
    }

    /** The grab command (g or G): pick up the first item lying under the
        player (PickUpTurn), which ends the turn; with nothing there, only say
        so. Returns whether an item was picked up. */
    method GrabCommand() returns (picked: bool)
      requires Playing()
      modifies this`items, this`messages, this`moveCount, this`gameOver, player`glyph, player.fighter, entities
      ensures Playing()
      ensures picked <==> FindItem(old(items), old(player.x), old(player.y)).Some?
      ensures player.Position() == old(player.Position())
      ensures moveCount == old(moveCount) + (if picked then 1 else 0)
      ensures !picked ==>
                && messages == Log(old(messages), NothingToPickUp) && gameOver == old(gameOver)
                && items == old(items) && entities == old(entities)
                && unchanged(player, player.fighter) && unchanged(entities)
      // a success is the pick-up turn of the item found
      ensures picked ==>
                var k := FindItem(old(items), old(player.x), old(player.y)).value;
                var item := old(items)[k];
                var boosted := PickUpEffect(item, old(StatsOf(player.fighter)));
                && items == Without(old(items), k)
                && player.glyph == (if item.glyph == '*' then '*' else old(player.glyph))
                && StatsOf(player.fighter) == boosted.(hp := player.fighter.hp)
                && forall h :: h == HeroOf(player) ==>
                     Aftermath(Mobs(entities), player.fighter.hp, gameOver, messages) ==
                     TurnEnds(grid, h, old(Mobs(entities)), old(moveCount), boosted.hp, boosted.maxHp,
                              old(gameOver), LogAll(old(messages), PickUpReport(item)))
    {
      var k := FindItem(items, player.x, player.y);
      if k.None? {
        AddMessage(NothingToPickUp);
        return false;
      }
      PickUpTurn(k.value);
      picked := true;
    }

    /** Going down the stairs: the level number goes up, the descent is
        reported, and the next level is generated from the draws d with the
        same player, who keeps the statistics and the glyph and is moved to
        the first floor cell of the new map. */
    method Descend(d: LevelDraws)
      requires Playing() && ValidDraws(d, level + 1)
      modifies this`messages, this`level, this`grid, this`entities, this`items, this`player, this`Repr, player`x, player`y
      ensures Playing() && player == old(player) && fresh(Repr - old(Repr))
      ensures level == old(level) + 1 && messages == Log(old(messages), Descended(level))
      ensures IsFirstFloor(Layout(d), player.x, player.y)
    {
      level := level + 1;
      AddMessage(Descended(level));
      ghost var m, l := messages, level;
      assert !(level == 1 || player == null);
      GenerateLevel(d);
      assert messages == m && level == l;
    }

    /** The stairs command (>): on the stairs, a player who carries the
        amulet (shown by the '*' glyph) on level 5 or deeper escapes and
        wins, which ends the game; any other player on the stairs descends
        (Descend); off the stairs the player is only told so. Returns
        whether the player escaped. */
    method TakeStairs(d: LevelDraws) returns (escaped: bool)
      requires Playing() && ValidDraws(d, level + 1)
      modifies this`messages, this`gameOver, this`level, this`grid, this`entities, this`items, this`player, this`Repr, player`x, player`y
      ensures Playing() && player == old(player)
      ensures var onStairs := old(grid[player.y][player.x]) == '>';
              && (escaped <==> onStairs && old(player.glyph) == '*' && old(level) >= 5)
              && (escaped ==>
                    && messages == Log(old(messages), Escaped) && gameOver && level == old(level) && grid == old(grid)
                    && entities == old(entities) && items == old(items)
                    && unchanged(player, player.fighter) && unchanged(entities))
              && (onStairs && !escaped ==>
                    level == old(level) + 1 && gameOver == old(gameOver) && messages == Log(old(messages), Descended(level)))
              && (!onStairs ==>
                    && messages == Log(old(messages), NoStairs) && gameOver == old(gameOver) && level == old(level)
                    && grid == old(grid) && entities == old(entities) && items == old(items)
                    && unchanged(player, player.fighter) && unchanged(entities))
    {
      escaped := false;
      if grid[player.y][player.x] == '>' {
        if player.glyph == '*' && level >= 5 {
          AddMessage(Escaped);
          gameOver := true;
          escaped := true;
        } else {
          Descend(d);
        }
      } else {
        AddMessage(NoStairs);
      }
    }

    /** The turn ends only if the player moved or attacked: then as EndTurn
        states, and otherwise nothing changes. */
    method EndTurnIf(acted: bool)
      requires Playing()
      modifies this`moveCount, this`messages, this`gameOver, player.fighter`hp, entities
      ensures Playing() && level == old(level) && grid == old(grid) && player.Position() == old(player.Position())
      ensures moveCount == old(moveCount) + (if acted then 1 else 0)
      ensures !acted ==> messages == old(messages) && gameOver == old(gameOver) && unchanged(player.fighter) && unchanged(entities)
      ensures acted ==> StatsOf(player.fighter) == old(StatsOf(player.fighter)).(hp := player.fighter.hp)
      ensures acted ==>
                forall h {:trigger TurnEnds(grid, h, old(Mobs(entities)), old(moveCount), old(player.fighter.hp),
                                            player.fighter.maxHp, old(gameOver), old(messages))} ::
                  h == old(HeroOf(player)) ==>
                  Aftermath(Mobs(entities), player.fighter.hp, gameOver, messages) ==
                  TurnEnds(grid, h, old(Mobs(entities)), old(moveCount), old(player.fighter.hp),
                           player.fighter.maxHp, old(gameOver), old(messages))
    {
      if acted {
        EndTurn();
      }
    }

    /** A movement key: step or attack (StepOrAttack), then end the turn
        when that moved or attacked. */
    method StepTurn(dir: Dir)
      requires Playing()
      modifies this`entities, this`messages, this`moveCount, this`gameOver, player`x, player`y, player.fighter`hp, entities
      modifies FighterAt(entities, FindBlocker(Bodies(entities), player.x + dir.DX(), player.y + dir.DY()))
      ensures Playing() && level == old(level) && grid == old(grid)
      // the turn ends iff a monster or an enterable cell lies ahead
      ensures moveCount == old(moveCount) + (if old(FindBlocker(Bodies(entities), player.x + dir.DX(), player.y + dir.DY())).Some? ||
                                               CanEnter(grid, old(player.x) + dir.DX(), old(player.y) + dir.DY()) then 1 else 0)
      // a monster ahead is attacked in place; otherwise the player steps iff the cell is enterable
      ensures var nx, ny := old(player.x) + dir.DX(), old(player.y) + dir.DY();
              player.Position() == if FindBlocker(old(Bodies(entities)), nx, ny).None? && CanEnter(grid, nx, ny)
                                   then Pos(nx, ny) else old(player.Position())
    {
      var moved := StepOrAttack(dir.DX(), dir.DY());
      EndTurnIf(moved);
    }

    /** An upper-case movement key: run (RunCommand), then end the turn
        when that moved or attacked. */
    method RunTurn(dir: Dir)
      requires Playing()
      modifies this`entities, this`messages, this`moveCount, this`gameOver, player`x, player`y, player.fighter`hp, entities
      modifies FighterAt(entities, BlockerOf(Run(grid, Bodies(entities), items, player.x, player.y, dir.DX(), dir.DY())))
      ensures Playing() && level == old(level) && grid == old(grid)
      // the turn ends iff the run goes at least one cell or meets a monster
      ensures var r := old(Run(grid, Bodies(entities), items, player.x, player.y, dir.DX(), dir.DY()));
              moveCount == old(moveCount) + (if r.steps > 0 || r.stop.AtBlocker? then 1 else 0)
      // the player ends the run's steps away, stopped by whatever Run reports
      ensures var r := old(Run(grid, Bodies(entities), items, player.x, player.y, dir.DX(), dir.DY()));
              player.Position() == Pos(Shift(old(player.x), dir.DX(), r.steps), Shift(old(player.y), dir.DY(), r.steps))
    {
      var moved := RunCommand(dir);
      EndTurnIf(moved);
    }

    /** process_input for one key: decode it and run the command. Quit
        stops the game; help, shown on the terminal, and any other key
        change nothing; a step or a run that moved or attacked ends the
        turn (EndTurn), as the grab command does for itself; the other
        commands report whether the game goes on, which it does until the
        player escapes or is defeated. The draws d are used only when the
        player descends. */
    method ProcessInput(key: char, d: LevelDraws) returns (running: bool)
      requires Playing()
      requires DecodeKey(key) == UseStairs ==> ValidDraws(d, level + 1)
      modifies this, Repr
      ensures Playing()
      ensures var cmd := DecodeKey(key);
              && (cmd == Quit ==> !running)
              && (cmd == ShowHelp ==> running)
              && (cmd != Quit && cmd != ShowHelp ==> running == !gameOver)
              && (cmd == Quit || cmd == ShowHelp || cmd == Other ==> unchanged(this) && unchanged(Repr))
              && (cmd != UseStairs ==> level == old(level) && grid == old(grid))
              // exactly the commands that take a turn count one action
              && moveCount == old(moveCount) + (if old(TakesTurn(cmd, grid, Bodies(entities), items, player.x, player.y)) then 1 else 0)
    {
      ghost var turns := TakesTurn(DecodeKey(key), grid, Bodies(entities), items, player.x, player.y);
      match DecodeKey(key) {
      case Quit =>
        return false;
      case ShowHelp =>
        return true;
      case Step(dir) =>
        assert turns == (FindBlocker(Bodies(entities), player.x + dir.DX(), player.y + dir.DY()).Some? ||
                         CanEnter(grid, player.x + dir.DX(), player.y + dir.DY()));
        StepTurn(dir);
      case StepFar(dir) =>
        ghost var r := Run(grid, Bodies(entities), items, player.x, player.y, dir.DX(), dir.DY());
        assert turns == (r.steps > 0 || r.stop.AtBlocker?);
        RunTurn(dir);
      case PickUp =>
        assert turns == FindItem(items, player.x, player.y).Some?;
        var _ := GrabCommand();
      case UseStairs =>
        assert !turns;
        var _ := TakeStairs(d);
      case Other =>
      }
      running := !gameOver;
    }
  }
}
