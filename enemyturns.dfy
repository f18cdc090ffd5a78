/** process_enemy_turns on values: every monster with a behaviour is ticked
    once, in list order, until one of them defeats the player. */
module EnemyTurns {
  import opened Common
  import opened Grid
  import opened Combat
  import opened Monster

  /** The monsters afterwards, the player's hit points afterwards, the
      collected results, whether the pass stopped on the player's defeat,
      and the index of the first monster not ticked. */
  datatype Sweep = Sweep(mobs: seq<Mob>, hp: int, results: seq<Event>, defeated: bool, ticked: nat)

  /** The pass from monster i on, with the player at `hp` and `results`
      already collected. */
  function SweepFrom(g: Grid, h: Hero, ms: seq<Mob>, i: nat, hp: int, results: seq<Event>): Sweep
    requires IsGrid(g) && i <= |ms|
    decreases |ms| - i
  {
    if i == |ms| then Sweep(ms, hp, results, false, i)
    else if !ms[i].ai then SweepFrom(g, h, ms, i + 1, hp, results)
    else
      var t := Tick(g, ms[i], h, hp);
      var ms' := ms[i := ms[i].(pos := t.pos)];
      match t.result
      case None => SweepFrom(g, h, ms', i + 1, t.playerHp, results)
      case Some(ev) =>
        if t.playerHp <= 0 then Sweep(ms', t.playerHp, results + [ev], true, i + 1)
        else SweepFrom(g, h, ms', i + 1, t.playerHp, results + [ev])
  }

  /** One monster of the pass: the i-th monster's tick, then the rest. */
  lemma SweepFromStep(g: Grid, h: Hero, ms: seq<Mob>, i: nat, hp: int, results: seq<Event>)
    requires IsGrid(g) && i < |ms| && ms[i].ai
    ensures var t := Tick(g, ms[i], h, hp);
            var ms' := ms[i := ms[i].(pos := t.pos)];
            SweepFrom(g, h, ms, i, hp, results) ==
              if t.result.None? then SweepFrom(g, h, ms', i + 1, t.playerHp, results)
              else if t.playerHp <= 0 then Sweep(ms', t.playerHp, results + [t.result.value], true, i + 1)
              else SweepFrom(g, h, ms', i + 1, t.playerHp, results + [t.result.value])
  {
  }

  /** The whole pass, as process_enemy_turns runs it. */
  function EnemyPass(g: Grid, h: Hero, ms: seq<Mob>, hp: int): Sweep
    requires IsGrid(g)
  {
    SweepFrom(g, h, ms, 0, hp, [])
  }

  predicate HitsPlayer(e: Event, player: string) {
    (e.Attacked? || e.Defeated?) && e.target == player
  }

  function DamageOf(e: Event): int {
    if e.Attacked? || e.Defeated? then e.damage else 0
  }

  /** The damage reported by a list of events. */
  function TotalDamage(es: seq<Event>): int {
    if es == [] then 0 else TotalDamage(es[..|es| - 1]) + DamageOf(es[|es| - 1])
  }

  /** Each monster is ticked at most once and in order: monsters before
      i, monsters without a behaviour, and monsters after the point where
      the pass stopped are untouched; a tick changes only the position;
      the results are appended after those already collected and each one
      is an attack on the player. */
  lemma {:induction false} SweepShape(g: Grid, h: Hero, ms: seq<Mob>, i: nat, hp: int, results: seq<Event>)
    requires IsGrid(g) && i <= |ms|
    ensures var r := SweepFrom(g, h, ms, i, hp, results);
      && |r.mobs| == |ms|
      && i <= r.ticked <= |ms|
      && (!r.defeated ==> r.ticked == |ms|)
      && (forall k :: 0 <= k < |ms| ==> r.mobs[k] == ms[k].(pos := r.mobs[k].pos))
      && (forall k :: 0 <= k < |ms| && (k < i || r.ticked <= k || !ms[k].ai) ==> r.mobs[k] == ms[k])
      && |results| <= |r.results| && r.results[..|results|] == results
      && (forall k :: |results| <= k < |r.results| ==> HitsPlayer(r.results[k], h.name))
    decreases |ms| - i
  {
    if i < |ms| {
      if !ms[i].ai {
        SweepShape(g, h, ms, i + 1, hp, results);
      } else {
        var t := Tick(g, ms[i], h, hp);
        var ms' := ms[i := ms[i].(pos := t.pos)];
        match t.result
        case None =>
          SweepShape(g, h, ms', i + 1, t.playerHp, results);
        case Some(ev) =>
          if t.playerHp > 0 {
            SweepShape(g, h, ms', i + 1, t.playerHp, results + [ev]);
            var r := SweepFrom(g, h, ms', i + 1, t.playerHp, results + [ev]);
            assert r.results[..|results|] == (r.results[..|results| + 1])[..|results|];
          } else {
            assert (results + [ev])[..|results|] == results;
          }
      }
    }
  }

  /** Every point of damage the player lost is reported in the results. */
  lemma {:induction false} SweepDamageAccounted(g: Grid, h: Hero, ms: seq<Mob>, i: nat, hp: int, results: seq<Event>)
    requires IsGrid(g) && i <= |ms|
    ensures var r := SweepFrom(g, h, ms, i, hp, results);
      r.hp + TotalDamage(r.results) == hp + TotalDamage(results) && r.hp <= hp
    decreases |ms| - i
  {
    if i < |ms| {
      if !ms[i].ai {
        SweepDamageAccounted(g, h, ms, i + 1, hp, results);
      } else {
        var t := Tick(g, ms[i], h, hp);
        var ms' := ms[i := ms[i].(pos := t.pos)];
        match t.result
        case None =>
          SweepDamageAccounted(g, h, ms', i + 1, t.playerHp, results);
        case Some(ev) =>
          assert (results + [ev])[..|results|] == results;
          if t.playerHp > 0 {
            SweepDamageAccounted(g, h, ms', i + 1, t.playerHp, results + [ev]);
          }
      }
    }
  }

  /** The pass stops exactly on the first result that leaves the player at
      or below zero hit points; a player who starts alive and is not
      defeated ends alive; a player already down is never attacked. */
  lemma {:induction false} SweepStopsOnDefeat(g: Grid, h: Hero, ms: seq<Mob>, i: nat, hp: int, results: seq<Event>)
    requires IsGrid(g) && i <= |ms|
    ensures var r := SweepFrom(g, h, ms, i, hp, results);
      && (r.defeated ==> r.hp <= 0 && |r.results| > |results| && r.results[|r.results| - 1].Defeated?)
      && (hp > 0 && !r.defeated ==> r.hp > 0)
      && (hp <= 0 ==> !r.defeated && r.hp == hp && r.results == results)
    decreases |ms| - i
  {
    if i < |ms| {
      if !ms[i].ai {
        SweepStopsOnDefeat(g, h, ms, i + 1, hp, results);
      } else {
        var t := Tick(g, ms[i], h, hp);
        var ms' := ms[i := ms[i].(pos := t.pos)];
        match t.result
        case None =>
          SweepStopsOnDefeat(g, h, ms', i + 1, t.playerHp, results);
        case Some(ev) =>
          if t.playerHp > 0 {
            SweepStopsOnDefeat(g, h, ms', i + 1, t.playerHp, results + [ev]);
          }
      }
    }
  }
}
