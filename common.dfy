/** Small shared vocabulary: optional values, grid positions, and the
    abstract events that stand for the game's log messages. */
module Common {

  datatype Option<T> = None | Some(value: T)

  datatype Pos = Pos(x: int, y: int)

  /** The four movement directions of the keyboard commands. */
  datatype Dir = Left | Right | Up | Down {
    function DX(): int { match this case Left => -1 case Right => 1 case _ => 0 }
    function DY(): int { match this case Up => -1 case Down => 1 case _ => 0 }
  }

  /** One message of the log. The wording of the original messages is not
      modelled; each event carries the data its message reports. */
  datatype Event =
    | Attacked(attacker: string, target: string, damage: int)
    | Defeated(target: string, damage: int)
    | ItemUsed(item: string, healing: int)
    | CannotUse
    | MovingFar(dir: Dir)
    | StoppedAtEdge(steps: nat)
    | StoppedAtEntity(name: string, steps: nat)
    | StoppedByObstacle(cell: char, steps: nat)
    | StoppedAtStairs(steps: nat)
    | StoppedAtItem(name: string, steps: nat)
    | Rested(hp: int, maxHp: int)
    | FoundAmulet(name: string)
    | AmuletPower
    | PickedUp(name: string)
    | NothingToPickUp
    | Escaped
    | Descended(level: int)
    | NoStairs
    | PlayerDefeated
}
