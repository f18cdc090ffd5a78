/** BasicMonster, the only enemy behaviour of the game: chase the player
    when near, attack when adjacent. */
module Monster {
  import opened Common
  import opened Grid
  import opened Movement
  import opened Combat
  import opened Entities

  datatype Stats = Stats(hp: int, maxHp: int, defense: int, power: int)

  /** What an enemy tick needs to know about a monster entity. */
  datatype Mob = Mob(pos: Pos, name: string, ai: bool, stats: Stats)

  /** What an enemy tick needs to know about the player, apart from the
      player's hit points, which the ticks change. */
  datatype Hero = Hero(pos: Pos, name: string, defense: int)

  /** The monster's new position, the player's new hit points, and what
      take_turn returned. */
  datatype TickOutcome = TickOutcome(pos: Pos, playerHp: int, result: Option<Event>)

  function StatsOf(f: Fighter): Stats
    reads f
  {
    Stats(f.hp, f.maxHp, f.defense, f.power)
  }

  function MobOf(e: Entity): Mob
    requires e.fighter != null
    reads e, e.fighter
  {
    Mob(e.Position(), e.name, e.ai, StatsOf(e.fighter))
  }

  function HeroOf(p: Entity): Hero
    requires p.fighter != null
    reads p, p.fighter
  {
    Hero(p.Position(), p.name, p.fighter.defense)
  }

  /** The entities that may be set in motion by enemy turns. */
  ghost function Fighters(es: seq<Entity>): set<Fighter>
    reads es
  {
    set k | 0 <= k < |es| && es[k].fighter != null :: es[k].fighter as Fighter
  }

  /** The tick-relevant view of a list of monsters. */
  ghost function Mobs(es: seq<Entity>): (r: seq<Mob>)
    requires forall k :: 0 <= k < |es| ==> es[k].fighter != null
    reads es, Fighters(es)
    ensures |r| == |es|
    ensures forall k :: 0 <= k < |es| ==> r[k] == MobOf(es[k])
  {
    if es == [] then []
    else
      assert Fighters(es[1..]) <= Fighters(es) by {
        forall f | f in Fighters(es[1..]) ensures f in Fighters(es) {
          var k :| 0 <= k < |es[1..]| && es[1..][k].fighter != null && f == es[1..][k].fighter as Fighter;
          assert f == es[k + 1].fighter as Fighter;
        }
      }
      [MobOf(es[0])] + Mobs(es[1..])
  }

  /** Monsters whose entities and fighters were left alone look the same
      to the enemy turns as before. */
  twostate lemma MobsUnchanged(es: seq<Entity>)
    requires forall k :: 0 <= k < |es| ==> es[k].fighter != null && unchanged(es[k], es[k].fighter)
    ensures Mobs(es) == old(Mobs(es))
  {
  }

  /** BasicMonster.take_turn on values: sight radius 6 and melee range 1,
      compared on the squared distance. */
  function Tick(g: Grid, m: Mob, h: Hero, hp: int): (t: TickOutcome)
    requires IsGrid(g)
    // out of sight: nothing happens
    ensures DistSq(m.pos, h.pos) >= 36 ==> t == TickOutcome(m.pos, hp, None)
    // a monster that moves does not attack, and moves only while chasing
    ensures t.pos != m.pos ==> t.result == None && t.playerHp == hp && 1 < DistSq(m.pos, h.pos) < 36
    // a monster in sight but not adjacent takes the chase step toward the player
    ensures 1 < DistSq(m.pos, h.pos) < 36 ==> t.pos == ChaseStep(g, m.pos, h.pos)
    // an adjacent monster never moves
    ensures DistSq(m.pos, h.pos) <= 1 ==> t.pos == m.pos
    // it reports something exactly when it attacks: adjacent to a living player
    ensures t.result.Some? <==> DistSq(m.pos, h.pos) <= 1 && hp > 0
    ensures t.result.None? ==> t.playerHp == hp
    ensures t.result.Some? ==>
              t.playerHp == hp - Damage(m.stats.power, h.defense) && t.playerHp < hp &&
              (t.result.value.Defeated? <==> t.playerHp <= 0) &&
              (t.result.value.Attacked? || t.result.value.Defeated?) &&
              t.result.value.target == h.name && t.result.value.damage == Damage(m.stats.power, h.defense) &&
              (t.result.value.Attacked? ==> t.result.value.attacker == m.name)
  {
    var d2 := DistSq(m.pos, h.pos);
    if d2 < 36 then
      if d2 > 1 then
        TickOutcome(ChaseStep(g, m.pos, h.pos), hp, None)
      else if hp > 0 then
        var damage := Damage(m.stats.power, h.defense);
        var ev := if hp - damage <= 0 then Defeated(h.name, damage) else Attacked(m.name, h.name, damage);
        TickOutcome(m.pos, hp - damage, Some(ev))
      else
        TickOutcome(m.pos, hp, None)
    else
      TickOutcome(m.pos, hp, None)
  }

  /** BasicMonster.take_turn on the objects: the monster may move, and the
      player's fighter may lose hit points. */
  method TakeTurn(monster: Entity, player: Entity, g: Grid) returns (result: Option<Event>)
    requires IsGrid(g)
    requires monster != player && monster.fighter != null && player.fighter != null
    requires monster.fighter != player.fighter
    modifies monster`x, monster`y, player.fighter`hp
    ensures monster.Position() == Tick(g, old(MobOf(monster)), old(HeroOf(player)), old(player.fighter.hp)).pos
    ensures player.fighter.hp == Tick(g, old(MobOf(monster)), old(HeroOf(player)), old(player.fighter.hp)).playerHp
    ensures result == Tick(g, old(MobOf(monster)), old(HeroOf(player)), old(player.fighter.hp)).result
  {
    result := None;
    var d2 := monster.DistanceSquaredTo(player);
    if d2 < 36 {
      if d2 > 1 {
        var _ := monster.MoveTowards(player.x, player.y, g);
      } else if player.fighter.hp > 0 {
        var ev := monster.fighter.Attack(monster, player);
        result := Some(ev);
      }
    }
  }
}
