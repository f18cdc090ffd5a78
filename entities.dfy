/** Entity, Fighter and Item: the actors of the simulation. The player and
    the monsters are Entity objects whose position and fighter statistics
    change in place; picked-up items never change and are plain values. */
module Entities {
  import opened Common
  import opened Grid
  import opened Movement
  import opened Combat

  /** The combat component. Its back-reference to the owning entity is
      passed to Attack as a parameter that must point back at it. */
  class Fighter {
    var hp: int
    var maxHp: int
    var defense: int
    var power: int

    constructor (hp: int, defense: int, power: int)
      ensures this.hp == hp && maxHp == hp && this.defense == defense && this.power == power
    {
      this.hp := hp;
      maxHp := hp;
      this.defense := defense;
      this.power := power;
    }

    /** Fighter.take_damage: hit points may go below zero. */
    method TakeDamage(amount: int) returns (defeated: bool)
      modifies this`hp
      ensures hp == old(hp) - amount
      ensures defeated <==> hp <= 0
    {
      hp := hp - amount;
      defeated := hp <= 0;
    }

    /** Fighter.attack: deal Damage(power, defense) to the target's fighter
        and report whether the target is defeated. */
    method Attack(owner: Entity, target: Entity) returns (ev: Event)
      requires owner.fighter == this && target.fighter != null
      modifies target.fighter`hp
      ensures target.fighter.hp == old(target.fighter.hp) - Damage(old(power), old(target.fighter.defense))
      ensures ev == if target.fighter.hp <= 0
                    then Defeated(target.name, Damage(old(power), old(target.fighter.defense)))
                    else Attacked(owner.name, target.name, Damage(old(power), old(target.fighter.defense)))
    {
      var damage := power - target.fighter.defense;
      damage := if 1 < damage then damage else 1;
      var defeated := target.fighter.TakeDamage(damage);
      if defeated {
        ev := Defeated(target.name, damage);
      } else {
        ev := Attacked(owner.name, target.name, damage);
      }
    }
  }

  class Entity {
    var x: int
    var y: int
    var glyph: char
    const name: string
    const blocks: bool
    const fighter: Fighter?
    /** True when the entity carries the chasing behaviour (BasicMonster),
        which has no state of its own. */
    const ai: bool

    constructor (x: int, y: int, glyph: char, name: string, blocks: bool, fighter: Fighter?, ai: bool)
      ensures this.x == x && this.y == y && this.glyph == glyph && this.name == name
      ensures this.blocks == blocks && this.fighter == fighter && this.ai == ai
    {
      this.x, this.y := x, y;
      this.glyph := glyph;
      this.name := name;
      this.blocks := blocks;
      this.fighter := fighter;
      this.ai := ai;
    }

    function Position(): Pos
      reads this
    {
      Pos(x, y)
    }

    /** Entity.move: a bounds-checked step onto a floor or stairs cell. Other
        entities are not consulted. */
    method Move(dx: int, dy: int, g: Grid) returns (moved: bool)
      requires IsGrid(g)
      modifies this`x, this`y
      ensures moved <==> CanEnter(g, old(x) + dx, old(y) + dy)
      ensures Position() == if moved then Pos(old(x) + dx, old(y) + dy) else old(Position())
    {
      moved := false;
      if 0 <= x + dx < Width && 0 <= y + dy < Height {
        if g[y + dy][x + dx] == '.' || g[y + dy][x + dx] == '>' {
          x := x + dx;
          y := y + dy;
          moved := true;
        }
      }
    }

    /** Entity.move_towards: one greedy step toward the target. */
    method MoveTowards(targetX: int, targetY: int, g: Grid) returns (moved: bool)
      requires IsGrid(g)
      modifies this`x, this`y
      ensures Position() == ChaseStep(g, old(Position()), Pos(targetX, targetY))
      ensures moved <==> Position() != old(Position())
    {
      var dx := targetX - x;
      var dy := targetY - y;
      if dx != 0 {
        dx := if dx > 0 then 1 else -1;
      }
      if dy != 0 {
        dy := if dy > 0 then 1 else -1;
      }
      if dx != 0 {
        moved := Move(dx, 0, g);
        if moved {
          return;
        }
      }
      if dy != 0 {
        moved := Move(0, dy, g);
        if moved {
          return;
        }
      }
      if dx != 0 && dy != 0 {
        moved := Move(dx, dy, g);
        if moved {
          return;
        }
      }
      moved := false;
    }

    /** The square of Entity.distance_to. */
    function DistanceSquaredTo(other: Entity): int
      reads this, other
    {
      DistSq(Position(), other.Position())
    }
  }

  /** The Item component: what picking the item up gives. */
  datatype ItemEffect = ItemEffect(healing: int, damage: int, defense: int)

  /** An item lying on the floor. Items never move or change, so they are
      values rather than objects. */
  datatype Pickup = Pickup(x: int, y: int, glyph: char, name: string, effect: ItemEffect)

  /** Item.use: a healing item restores hit points up to the maximum; any
      other item reports that it cannot be used. */
  method UseItem(item: Pickup, user: Entity) returns (ev: Event)
    modifies if user.fighter != null then {user.fighter} else {}
    ensures item.effect.healing > 0 && user.fighter != null ==>
              (user.fighter.hp == Healed(old(user.fighter.hp), old(user.fighter.maxHp), item.effect.healing) &&
               ev == ItemUsed(item.name, item.effect.healing))
    ensures !(item.effect.healing > 0 && user.fighter != null) ==> ev == CannotUse
    ensures user.fighter != null ==>
              (user.fighter.maxHp == old(user.fighter.maxHp) &&
               user.fighter.defense == old(user.fighter.defense) && user.fighter.power == old(user.fighter.power))
    ensures user.fighter != null && !(item.effect.healing > 0) ==> user.fighter.hp == old(user.fighter.hp)
  {
    if item.effect.healing > 0 && user.fighter != null {
      var total := user.fighter.hp + item.effect.healing;
      user.fighter.hp := if total < user.fighter.maxHp then total else user.fighter.maxHp;
      ev := ItemUsed(item.name, item.effect.healing);
    } else {
      ev := CannotUse;
    }
  }
}
