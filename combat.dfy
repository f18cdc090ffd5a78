/** The arithmetic of fighting and healing, as pure functions. */
module Combat {

  /** Fighter.attack: the damage dealt by an attacker of the given power to
      a defender of the given defense. */
  function Damage(power: int, defense: int): (d: int)
    // always at least one point of damage, however strong the defense
    ensures d >= 1
    // and exactly the power surplus whenever there is one
    ensures power - defense >= 1 ==> d == power - defense
    ensures power - defense < 1 ==> d == 1
  {
    if power - defense >= 1 then power - defense else 1
  }

  /** Item.use: hit points after drinking `healing` points, capped at max. */
  function Healed(hp: int, maxHp: int, healing: int): (r: int)
    // never above the maximum
    ensures r <= maxHp
    // never below the old value when the old value respected the maximum
    ensures hp <= maxHp && healing >= 0 ==> hp <= r
    // either the full amount is gained or the maximum is reached
    ensures r == hp + healing || r == maxHp
    // and never more than the full amount: together, the smaller of the two
    ensures r <= hp + healing
  {
    if hp + healing < maxHp then hp + healing else maxHp
  }

  /** The rest rule of process_input: after the action counter has been
      incremented to `count`, the player regains one point when the count
      is even and the player is hurt. */
  function RestHeal(count: int, hp: int, maxHp: int): (r: int)
    ensures r == hp || r == hp + 1
    ensures r == hp + 1 <==> count % 2 == 0 && hp < maxHp
    ensures hp <= maxHp ==> r <= maxHp
  {
    if count % 2 == 0 && hp < maxHp then hp + 1 else hp
  }

  /** Over two consecutive counted actions with no damage in between, a
      hurt player regains exactly one point. */
  lemma TwoActionsHealOnce(count: int, hp: int, maxHp: int)
    requires hp < maxHp
    ensures RestHeal(count + 1, RestHeal(count, hp, maxHp), maxHp) == hp + 1
  {
    if count % 2 == 0 {
      assert (count + 1) % 2 == 1;
    } else {
      assert (count + 1) % 2 == 0;
    }
  }
}
