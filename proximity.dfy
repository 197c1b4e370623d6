/**
 * The search for the NPC the player can talk to: the nearest NPC whose
 * centre is strictly within the interaction radius of the player's centre.
 *
 * Centres of odd-sized boxes are half-integers, and distances are square
 * roots; both are avoided by working with doubled coordinates and squared
 * distances. For non-negative d and r, d < r exactly when (2d)^2 < (2r)^2,
 * so comparing these integers decides every comparison the search makes.
 */
module Proximity {
  import opened Wrappers
  import opened Content

  /** Four times the squared distance between the player's centre and the NPC's centre. */
  function Dist4(p: Player, n: Npc): int
  {
    var dx := (2 * p.x + p.width) - (2 * n.x + n.width);
    var dy := (2 * p.y + p.height) - (2 * n.y + n.height);
    dx * dx + dy * dy
  }

  /** The NPC's centre is strictly closer to the player's centre than `radius`. */
  predicate InReach(p: Player, n: Npc, radius: nat)
  {
    Dist4(p, n) < 4 * radius * radius
  }

  /**
   * What the search must return: nothing exactly when no NPC is in reach;
   * otherwise the index of an NPC in reach whose distance is minimal, the
   * first such NPC in the list when several are equally near.
   */
  ghost predicate IsNearest(p: Player, npcs: seq<Npc>, radius: nat, r: Option<nat>)
  {
    match r
    case None => forall i :: 0 <= i < |npcs| ==> !InReach(p, npcs[i], radius)
    case Some(k) =>
      && k < |npcs|
      && InReach(p, npcs[k], radius)
      && (forall i :: 0 <= i < |npcs| ==> Dist4(p, npcs[k]) <= Dist4(p, npcs[i]))
      && (forall i :: 0 <= i < k ==> Dist4(p, npcs[k]) < Dist4(p, npcs[i]))
  }

  /** At most one answer meets the description: the search is deterministic. */
  lemma NearestUnique(p: Player, npcs: seq<Npc>, radius: nat, r1: Option<nat>, r2: Option<nat>)
    requires IsNearest(p, npcs, radius, r1) && IsNearest(p, npcs, radius, r2)
    ensures r1 == r2
  {
  }

  /**
   * The linear scan: the best distance starts at the radius, and an NPC
   * replaces the current best only when it is strictly nearer.
   */
  method FindNearest(p: Player, npcs: seq<Npc>, radius: nat) returns (nearest: Option<nat>)
    ensures IsNearest(p, npcs, radius, nearest)
  {
    nearest := None;
    var shortest := 4 * radius * radius;
    var i := 0;
    while i < |npcs|
      invariant 0 <= i <= |npcs|
      invariant nearest.None? ==>
        shortest == 4 * radius * radius &&
        forall j :: 0 <= j < i ==> !InReach(p, npcs[j], radius)
      invariant nearest.Some? ==>
        && nearest.value < i
        && shortest == Dist4(p, npcs[nearest.value])
        && InReach(p, npcs[nearest.value], radius)
        && (forall j :: 0 <= j < i ==> shortest <= Dist4(p, npcs[j]))
        && (forall j :: 0 <= j < nearest.value ==> shortest < Dist4(p, npcs[j]))
    {
      var d := Dist4(p, npcs[i]);
      if d < shortest {
        shortest := d;
        nearest := Some(i);
      }
      i := i + 1;
    }
  }
}
