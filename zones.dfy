/** Pure queries over the fighting zones, the deck and the enemy roster, and
    the value-level meaning of the two loops of the round engine that fill
    zones and deal damage. A zone is a list of cards, as in the component;
    the engine only ever looks at its front card. */
module Zones {
  import opened Wrappers
  import opened Cards

  /** Each side has two fighting zones. */
  const NumZones: nat := 2
  /** A full deck holds four cards. */
  const DeckCapacity: nat := 4

  function Min(a: int, b: int): int {
    if a <= b then a else b
  }

  predicate Occupied(zone: seq<Card>) {
    |zone| > 0
  }

  predicate Vacant(zone: seq<Card>) {
    |zone| == 0
  }

  /** A zone that `numCardsInFightingZones` counts: non-empty, with an alive,
      settled card at the front. */
  predicate Ready(zone: seq<Card>) {
    |zone| > 0 && IsAlive(zone[0]) && zone[0].added
  }

  /** Every zone holds at most one card. */
  predicate AtMostOneCard(zones: seq<seq<Card>>) {
    forall i :: 0 <= i < |zones| ==> |zones[i]| <= 1
  }

  // ---------------------------------------------------------------------
  // Filtering zones

  /** The indices, in zone order, of those of the first `n` zones that
      satisfy `p`: what a `filter` over the zones keeps. */
  function IndicesWhere(zones: seq<seq<Card>>, n: nat, p: seq<Card> -> bool): (r: seq<nat>)
    requires n <= |zones|
    ensures |r| <= n
    ensures forall k :: 0 <= k < |r| ==> r[k] < n
  {
    if n == 0 then []
    else IndicesWhere(zones, n - 1, p) + (if p(zones[n - 1]) then [n - 1] else [])
  }

  /** The filter keeps exactly the satisfying zones, in increasing order, and
      a kept zone's position in the result is the number of satisfying zones
      before it. */
  lemma {:induction false} IndicesWhereFacts(zones: seq<seq<Card>>, n: nat, p: seq<Card> -> bool)
    requires n <= |zones|
    ensures forall k :: 0 <= k < |IndicesWhere(zones, n, p)| ==>
      IndicesWhere(zones, n, p)[k] < n && p(zones[IndicesWhere(zones, n, p)[k]])
    ensures forall k :: 0 <= k < |IndicesWhere(zones, n, p)| ==>
      |IndicesWhere(zones, IndicesWhere(zones, n, p)[k], p)| == k
    ensures forall a, b :: 0 <= a < b < |IndicesWhere(zones, n, p)| ==>
      IndicesWhere(zones, n, p)[a] < IndicesWhere(zones, n, p)[b]
    ensures forall i :: 0 <= i < n && p(zones[i]) ==> i in IndicesWhere(zones, n, p)
  {
    if n > 0 {
      IndicesWhereFacts(zones, n - 1, p);
    }
  }

  /** The filter keeps every zone exactly when all satisfy `p`, and none
      exactly when none does. */
  lemma {:induction false} IndicesWhereCount(zones: seq<seq<Card>>, n: nat, p: seq<Card> -> bool)
    requires n <= |zones|
    ensures |IndicesWhere(zones, n, p)| == n <==> forall i :: 0 <= i < n ==> p(zones[i])
    ensures |IndicesWhere(zones, n, p)| == 0 <==> forall i :: 0 <= i < n ==> !p(zones[i])
  {
    if n > 0 {
      IndicesWhereCount(zones, n - 1, p);
    }
  }

  // ---------------------------------------------------------------------
  // The component's queries

  /** `numCardsInFightingZones`. */
  function NumCardsInFightingZones(zones: seq<seq<Card>>): nat {
    |IndicesWhere(zones, |zones|, Ready)|
  }

  /** `hasEmptyFightingZones`: the number of ready zones differs from the
      number of zones. */
  function HasEmptyFightingZones(zones: seq<seq<Card>>): bool {
    |zones| != NumCardsInFightingZones(zones)
  }

  /** The count of ready zones lies between 0 and the number of zones, is
      full exactly when every zone is ready, and `hasEmptyFightingZones`
      holds exactly when some zone is empty, dead or unsettled. */
  lemma ZoneCount(zones: seq<seq<Card>>)
    ensures NumCardsInFightingZones(zones) <= |zones|
    ensures NumCardsInFightingZones(zones) == |zones| <==> forall i :: 0 <= i < |zones| ==> Ready(zones[i])
    ensures NumCardsInFightingZones(zones) == 0 <==> forall i :: 0 <= i < |zones| ==> !Ready(zones[i])
    ensures HasEmptyFightingZones(zones) <==> exists i :: 0 <= i < |zones| && !Ready(zones[i])
  {
    IndicesWhereCount(zones, |zones|, Ready);
  }

  /** `availableSpaceInDeck`: free places left in a deck of four. */
  function AvailableSpaceInDeck(deck: seq<Card>): (r: int)
    ensures r <= DeckCapacity
    ensures r == DeckCapacity <==> deck == []
    ensures |deck| <= DeckCapacity ==> 0 <= r
  {
    DeckCapacity - |deck|
  }

  /** `noCardsLeft`. */
  function NoCardsLeft(deck: seq<Card>, zones: seq<seq<Card>>): bool {
    AvailableSpaceInDeck(deck) == DeckCapacity && NumCardsInFightingZones(zones) == 0
  }

  /** The player has no cards left exactly when the deck is empty and no
      zone holds an alive, settled card. */
  lemma NoCardsLeftMeaning(deck: seq<Card>, zones: seq<seq<Card>>)
    ensures NoCardsLeft(deck, zones) <==> deck == [] && forall i :: 0 <= i < |zones| ==> !Ready(zones[i])
  {
    ZoneCount(zones);
  }

  /** The win condition tested by `checkPlayerWin`. */
  function EnemyCleared(roster: seq<Card>, zones: seq<seq<Card>>): bool {
    |roster| == 0 && |IndicesWhere(zones, |zones|, Occupied)| == 0
  }

  /** The enemy is cleared exactly when its roster is empty and every enemy
      zone is empty, whatever the health of the cards still in them. */
  lemma EnemyClearedMeaning(roster: seq<Card>, zones: seq<seq<Card>>)
    ensures EnemyCleared(roster, zones) <==> roster == [] && forall i :: 0 <= i < |zones| ==> zones[i] == []
  {
    IndicesWhereCount(zones, |zones|, Occupied);
  }

  /** The number of cards requested from the supplier after a round; it is
      not clamped and can be zero or negative. */
  function RefillRequest(deck: seq<Card>, zones: seq<seq<Card>>): int {
    AvailableSpaceInDeck(deck) - NumCardsInFightingZones(zones)
  }

  /** The request is at most four, and no less than minus the number of
      zones while the deck holds at most four cards; it is negative for a
      full deck beside a ready zone; and a supplier that serves exactly the
      (non-negative part of the) request tops the deck and the ready zones
      up to four cards. The deck's capacity is not enforced, so none of this
      assumes a deck of at most four. */
  lemma RefillRequestMeaning(deck: seq<Card>, zones: seq<seq<Card>>, served: seq<Card>)
    ensures RefillRequest(deck, zones) <= DeckCapacity
    ensures |deck| <= DeckCapacity ==> -|zones| <= RefillRequest(deck, zones)
    ensures |deck| == DeckCapacity && (exists i :: 0 <= i < |zones| && Ready(zones[i])) ==>
      RefillRequest(deck, zones) < 0
    ensures |served| == (if RefillRequest(deck, zones) < 0 then 0 else RefillRequest(deck, zones)) ==>
      |deck + served| + NumCardsInFightingZones(zones) ==
        if |deck| + NumCardsInFightingZones(zones) < DeckCapacity then DeckCapacity
        else |deck| + NumCardsInFightingZones(zones)
  {
    ZoneCount(zones);
  }

  // ---------------------------------------------------------------------
  // addEnemyCards on values

  /** What `addEnemyCards` leaves in zone `i`: an empty zone takes the roster
      card whose position is the number of empty zones before it, if the
      roster still has one; any other zone is left alone. */
  function FilledZone(zones: seq<seq<Card>>, roster: seq<Card>, i: nat): seq<Card>
    requires i < |zones|
  {
    var k := |IndicesWhere(zones, i, Vacant)|;
    if zones[i] == [] && k < |roster| then [roster[k]] else zones[i]
  }

  function FilledZones(zones: seq<seq<Card>>, roster: seq<Card>): seq<seq<Card>> {
    seq(|zones|, i requires 0 <= i < |zones| => FilledZone(zones, roster, i))
  }

  /** How many roster cards `addEnemyCards` takes. */
  function CardsTaken(zones: seq<seq<Card>>, roster: seq<Card>): nat {
    Min(|IndicesWhere(zones, |zones|, Vacant)|, |roster|)
  }

  function RosterAfterFill(zones: seq<seq<Card>>, roster: seq<Card>): seq<Card> {
    roster[CardsTaken(zones, roster)..]
  }

  /** The zones that receive a card, in zone order. */
  function FilledIndices(zones: seq<seq<Card>>, roster: seq<Card>): seq<nat> {
    IndicesWhere(zones, |zones|, Vacant)[..CardsTaken(zones, roster)]
  }

  /** The walk `addEnemyCards` makes, over its first `i` zones: the zones so
      far, the roster left and the zones filled, in order. Each step looks at
      one zone and, when it is empty, shifts the roster and pushes the card
      shifted off, if there was one. */
  function FillWalk(zones: seq<seq<Card>>, roster: seq<Card>, i: nat): (r: (seq<seq<Card>>, seq<Card>, seq<nat>))
    requires i <= |zones|
    ensures |r.0| == |zones|
  {
    if i == 0 then (zones, roster, [])
    else
      var w := FillWalk(zones, roster, i - 1);
      if |w.0[i - 1]| == 0 && w.1 != [] then (w.0[i - 1 := w.0[i - 1] + [w.1[0]]], w.1[1..], w.2 + [i - 1])
      else w
  }

  /** After `i` steps the walk has filled the first `i` zones as
      `FilledZone` says, left the rest alone, and taken the roster cards
      counted by the empty zones seen so far. */
  lemma {:induction false} FillWalkPrefix(zones: seq<seq<Card>>, roster: seq<Card>, i: nat)
    requires i <= |zones|
    ensures forall j :: 0 <= j < i ==> FillWalk(zones, roster, i).0[j] == FilledZone(zones, roster, j)
    ensures forall j :: i <= j < |zones| ==> FillWalk(zones, roster, i).0[j] == zones[j]
    ensures FillWalk(zones, roster, i).1 == roster[Min(|IndicesWhere(zones, i, Vacant)|, |roster|)..]
    ensures FillWalk(zones, roster, i).2 ==
      IndicesWhere(zones, i, Vacant)[..Min(|IndicesWhere(zones, i, Vacant)|, |roster|)]
  {
    if i > 0 {
      FillWalkPrefix(zones, roster, i - 1);
      FillWalkStep(zones, roster, i - 1);
    }
  }

  /** One step of the walk, given what the earlier steps did. */
  lemma FillWalkStep(zones: seq<seq<Card>>, roster: seq<Card>, i: nat)
    requires i < |zones|
    requires forall j :: 0 <= j < i ==> FillWalk(zones, roster, i).0[j] == FilledZone(zones, roster, j)
    requires forall j :: i <= j < |zones| ==> FillWalk(zones, roster, i).0[j] == zones[j]
    requires FillWalk(zones, roster, i).1 == roster[Min(|IndicesWhere(zones, i, Vacant)|, |roster|)..]
    requires FillWalk(zones, roster, i).2 ==
      IndicesWhere(zones, i, Vacant)[..Min(|IndicesWhere(zones, i, Vacant)|, |roster|)]
    ensures forall j :: 0 <= j < i + 1 ==> FillWalk(zones, roster, i + 1).0[j] == FilledZone(zones, roster, j)
    ensures forall j :: i + 1 <= j < |zones| ==> FillWalk(zones, roster, i + 1).0[j] == zones[j]
    ensures FillWalk(zones, roster, i + 1).1 == roster[Min(|IndicesWhere(zones, i + 1, Vacant)|, |roster|)..]
    ensures FillWalk(zones, roster, i + 1).2 ==
      IndicesWhere(zones, i + 1, Vacant)[..Min(|IndicesWhere(zones, i + 1, Vacant)|, |roster|)]
  {
    var w := FillWalk(zones, roster, i);
    var vacant := IndicesWhere(zones, i, Vacant);
    assert w.0[i] == zones[i];
    if zones[i] == [] {
      assert IndicesWhere(zones, i + 1, Vacant) == vacant + [i];
      if |vacant| < |roster| {
        assert w.1 != [] && w.1[0] == roster[|vacant|];
        assert (vacant + [i])[..|vacant| + 1] == vacant[..|vacant|] + [i];
      } else {
        assert w.1 == [];
        assert (vacant + [i])[..|roster|] == vacant[..|roster|];
      }
    } else {
      assert IndicesWhere(zones, i + 1, Vacant) == vacant;
    }
  }

  /** The whole walk yields the filled zones, the roster left and the filled
      indices. */
  lemma FillWalkComplete(zones: seq<seq<Card>>, roster: seq<Card>)
    ensures FillWalk(zones, roster, |zones|) ==
      (FilledZones(zones, roster), RosterAfterFill(zones, roster), FilledIndices(zones, roster))
  {
    FillWalkPrefix(zones, roster, |zones|);
    var w := FillWalk(zones, roster, |zones|);
    assert w.0 == FilledZones(zones, roster);
  }

  /** `addEnemyCards` consumes the roster first in, first out: the k-th empty
      zone (in zone order) receives exactly roster card k while the roster
      lasts and stays empty after; occupied zones are untouched, and no zone
      ends up with more than one card it did not already hold. */
  lemma FillFifo(zones: seq<seq<Card>>, roster: seq<Card>)
    ensures |FilledZones(zones, roster)| == |zones|
    ensures forall i :: 0 <= i < |zones| && zones[i] != [] ==> FilledZones(zones, roster)[i] == zones[i]
    ensures forall k :: 0 <= k < |IndicesWhere(zones, |zones|, Vacant)| ==>
      FilledZones(zones, roster)[IndicesWhere(zones, |zones|, Vacant)[k]] ==
        if k < |roster| then [roster[k]] else []
    ensures AtMostOneCard(zones) ==> AtMostOneCard(FilledZones(zones, roster))
  {
    IndicesWhereFacts(zones, |zones|, Vacant);
  }

  /** The roster shrinks by exactly the number of zones filled, and the
      filled zones are exactly the zones that changed. */
  lemma FillCount(zones: seq<seq<Card>>, roster: seq<Card>)
    ensures |roster| - |RosterAfterFill(zones, roster)| == |FilledIndices(zones, roster)|
    ensures forall i :: 0 <= i < |zones| ==>
      (FilledZones(zones, roster)[i] != zones[i] <==> i in FilledIndices(zones, roster))
  {
    var vac := IndicesWhere(zones, |zones|, Vacant);
    var taken := CardsTaken(zones, roster);
    IndicesWhereFacts(zones, |zones|, Vacant);
    forall i | 0 <= i < |zones|
      ensures FilledZones(zones, roster)[i] != zones[i] <==> i in FilledIndices(zones, roster)
    {
      FilledIndexIff(zones, roster, i);
    }
  }

  lemma FilledIndexIff(zones: seq<seq<Card>>, roster: seq<Card>, i: nat)
    requires i < |zones|
    ensures FilledZone(zones, roster, i) != zones[i] <==> i in FilledIndices(zones, roster)
  {
    var vac := IndicesWhere(zones, |zones|, Vacant);
    var taken := CardsTaken(zones, roster);
    IndicesWhereFacts(zones, |zones|, Vacant);
    if zones[i] == [] {
      assert i in vac;
      var k :| 0 <= k < |vac| && vac[k] == i;
      assert |IndicesWhere(zones, i, Vacant)| == k;
      if k < taken {
        assert FilledIndices(zones, roster)[k] == i;
      } else {
        forall j | 0 <= j < taken
          ensures FilledIndices(zones, roster)[j] != i
        {
          assert vac[j] < vac[k];
        }
      }
    } else {
      forall j | 0 <= j < taken
        ensures FilledIndices(zones, roster)[j] != i
      {
        assert Vacant(zones[vac[j]]);
      }
    }
  }

  // ---------------------------------------------------------------------
  // takeDamages on values

  /** The damage value the `shift` in `takeDamages` hands to zone `i`: one
      value is consumed per OCCUPIED zone, so an occupied zone receives the
      value whose position is the number of occupied zones before it;
      an empty zone and an exhausted list both give `undefined`. */
  function DamageFor(zones: seq<seq<Card>>, damages: seq<Option<int>>, i: nat): Option<int>
    requires i < |zones|
  {
    var k := |IndicesWhere(zones, i, Occupied)|;
    if zones[i] != [] && k < |damages| then damages[k] else None
  }

  /** Whether `takeDamage` reports the front card of zone `i` dead. */
  predicate Dies(zones: seq<seq<Card>>, damages: seq<Option<int>>, i: nat)
    requires i < |zones|
  {
    zones[i] != [] && DamageFor(zones, damages, i).Some? &&
    !TakeDamage(zones[i][0], DamageFor(zones, damages, i).value).1
  }

  /** What `cardDied` does to the zone of a dead card: its front card, if
      any, is flagged not added. */
  function MarkedDead(zone: seq<Card>): (r: seq<Card>)
    ensures |r| == |zone| && (zone != [] ==> r[0] == zone[0].(added := false) && r[1..] == zone[1..])
  {
    if zone == [] then zone else [zone[0].(added := false)] + zone[1..]
  }

  /** Zone `i` after `takeDamages`: the front card takes its damage and, when
      it dies, `cardDied` flags it not added; the card stays in the zone. */
  function DamagedZone(zones: seq<seq<Card>>, damages: seq<Option<int>>, i: nat): seq<Card>
    requires i < |zones|
  {
    var zone := zones[i];
    var d := DamageFor(zones, damages, i);
    if zone == [] || d.None? then zone
    else
      var hit := TakeDamage(zone[0], d.value);
      var hitZone := [hit.0] + zone[1..];
      if hit.1 then hitZone else MarkedDead(hitZone)
  }

  function DamagedZones(zones: seq<seq<Card>>, damages: seq<Option<int>>): seq<seq<Card>> {
    seq(|zones|, i requires 0 <= i < |zones| => DamagedZone(zones, damages, i))
  }

  /** The zones, among the first `n`, whose front card dies, in zone order. */
  function Deaths(zones: seq<seq<Card>>, damages: seq<Option<int>>, n: nat): (r: seq<nat>)
    requires n <= |zones|
    ensures forall k :: 0 <= k < |r| ==> r[k] < n && Dies(zones, damages, r[k])
  {
    if n == 0 then []
    else Deaths(zones, damages, n - 1) + (if Dies(zones, damages, n - 1) then [n - 1] else [])
  }

  /** The walk `takeDamages` makes, over its first `i` zones: the zones so
      far, the damage values left and the zones whose card died, in order.
      Each step looks at one zone and, when it is occupied, shifts one value
      off the list; a defined value damages the front card, and a card that
      dies is flagged not added. */
  function DamageWalk(zones: seq<seq<Card>>, damages: seq<Option<int>>, i: nat): (r: (seq<seq<Card>>, seq<Option<int>>, seq<nat>))
    requires i <= |zones|
    ensures |r.0| == |zones|
  {
    if i == 0 then (zones, damages, [])
    else
      var w := DamageWalk(zones, damages, i - 1);
      var cards := w.0[i - 1];
      if |cards| == 0 then w
      else
        var damage := if w.1 == [] then None else w.1[0];
        var rest := if w.1 == [] then [] else w.1[1..];
        if damage.None? then (w.0, rest, w.2)
        else
          var hit := TakeDamage(cards[0], damage.value);
          var hitZones := w.0[i - 1 := [hit.0] + cards[1..]];
          if hit.1 then (hitZones, rest, w.2)
          else (hitZones[i - 1 := MarkedDead(hitZones[i - 1])], rest, w.2 + [i - 1])
  }

  /** After `i` steps the walk has damaged the first `i` zones as
      `DamagedZone` says, left the rest alone, consumed one value per
      occupied zone seen so far, and recorded exactly those zones' deaths. */
  lemma {:induction false} DamageWalkPrefix(zones: seq<seq<Card>>, damages: seq<Option<int>>, i: nat)
    requires i <= |zones|
    ensures forall j :: 0 <= j < i ==> DamageWalk(zones, damages, i).0[j] == DamagedZone(zones, damages, j)
    ensures forall j :: i <= j < |zones| ==> DamageWalk(zones, damages, i).0[j] == zones[j]
    ensures DamageWalk(zones, damages, i).1 == damages[Min(|IndicesWhere(zones, i, Occupied)|, |damages|)..]
    ensures DamageWalk(zones, damages, i).2 == Deaths(zones, damages, i)
  {
    if i > 0 {
      DamageWalkPrefix(zones, damages, i - 1);
      DamageWalkStep(zones, damages, i - 1);
    }
  }

  /** One step of the walk, given what the earlier steps did. */
  lemma DamageWalkStep(zones: seq<seq<Card>>, damages: seq<Option<int>>, i: nat)
    requires i < |zones|
    requires forall j :: 0 <= j < i ==> DamageWalk(zones, damages, i).0[j] == DamagedZone(zones, damages, j)
    requires forall j :: i <= j < |zones| ==> DamageWalk(zones, damages, i).0[j] == zones[j]
    requires DamageWalk(zones, damages, i).1 == damages[Min(|IndicesWhere(zones, i, Occupied)|, |damages|)..]
    requires DamageWalk(zones, damages, i).2 == Deaths(zones, damages, i)
    ensures forall j :: 0 <= j < i + 1 ==> DamageWalk(zones, damages, i + 1).0[j] == DamagedZone(zones, damages, j)
    ensures forall j :: i + 1 <= j < |zones| ==> DamageWalk(zones, damages, i + 1).0[j] == zones[j]
    ensures DamageWalk(zones, damages, i + 1).1 == damages[Min(|IndicesWhere(zones, i + 1, Occupied)|, |damages|)..]
    ensures DamageWalk(zones, damages, i + 1).2 == Deaths(zones, damages, i + 1)
  {
    var w := DamageWalk(zones, damages, i);
    var occupied := IndicesWhere(zones, i, Occupied);
    assert w.0[i] == zones[i];
    if zones[i] != [] {
      assert IndicesWhere(zones, i + 1, Occupied) == occupied + [i];
      var damage := if w.1 == [] then None else w.1[0];
      assert damage == DamageFor(zones, damages, i);
    } else {
      assert IndicesWhere(zones, i + 1, Occupied) == occupied;
    }
  }

  /** The whole walk yields the damaged zones and the deaths. */
  lemma DamageWalkComplete(zones: seq<seq<Card>>, damages: seq<Option<int>>)
    ensures DamageWalk(zones, damages, |zones|).0 == DamagedZones(zones, damages)
    ensures DamageWalk(zones, damages, |zones|).2 == Deaths(zones, damages, |zones|)
  {
    DamageWalkPrefix(zones, damages, |zones|);
    assert DamageWalk(zones, damages, |zones|).0 == DamagedZones(zones, damages);
  }

  /** `zone[0]?.meta.damage` for every zone. */
  function FrontDamages(zones: seq<seq<Card>>): seq<Option<int>> {
    seq(|zones|, i requires 0 <= i < |zones| => if zones[i] == [] then None else Some(zones[i][0].damage))
  }

  /** Damages are consumed from the front of the list, one per occupied zone
      in zone order; empty zones receive nothing. */
  lemma DamageConsumedInZoneOrder(zones: seq<seq<Card>>, damages: seq<Option<int>>)
    ensures forall k :: 0 <= k < |IndicesWhere(zones, |zones|, Occupied)| ==>
      DamageFor(zones, damages, IndicesWhere(zones, |zones|, Occupied)[k]) ==
        if k < |damages| then damages[k] else None
    ensures forall i :: 0 <= i < |zones| && zones[i] == [] ==> DamageFor(zones, damages, i) == None
  {
    IndicesWhereFacts(zones, |zones|, Occupied);
  }

  /** When every zone is occupied, zone i receives damage i. */
  lemma DamageAlignedWhenAllOccupied(zones: seq<seq<Card>>, damages: seq<Option<int>>)
    requires forall i :: 0 <= i < |zones| ==> zones[i] != []
    ensures forall i :: 0 <= i < |zones| ==>
      DamageFor(zones, damages, i) == if i < |damages| then damages[i] else None
  {
    forall i | 0 <= i < |zones|
      ensures |IndicesWhere(zones, i, Occupied)| == i
    {
      IndicesWhereCount(zones, i, Occupied);
    }
  }

  /** Damage is not aligned by slot: an occupied zone right after an empty
      one takes the value the empty zone would have taken, whose position in
      the list is below its own index. With the first of two zones empty,
      the second receives the FIRST value. */
  lemma DamageShiftsPastEmptyZone(zones: seq<seq<Card>>, damages: seq<Option<int>>, i: nat)
    requires i + 1 < |zones| && zones[i] == [] && zones[i + 1] != []
    ensures DamageFor(zones, damages, i) == None
    ensures |IndicesWhere(zones, i + 1, Occupied)| == |IndicesWhere(zones, i, Occupied)| <= i
    ensures DamageFor(zones, damages, i + 1) ==
      DamageFor(zones[i := zones[i + 1]], damages, i)
    ensures i == 0 && |damages| >= 1 ==> DamageFor(zones, damages, 1) == damages[0]
  {
    assert IndicesWhere(zones, i + 1, Occupied) == IndicesWhere(zones, i, Occupied);
    IndicesWhereUnchanged(zones, zones[i := zones[i + 1]], i, Occupied);
  }

  /** The filter over the first `n` zones looks at those zones only. */
  lemma {:induction false} IndicesWhereUnchanged(zones: seq<seq<Card>>, zones': seq<seq<Card>>, n: nat, p: seq<Card> -> bool)
    requires n <= |zones| && n <= |zones'|
    requires forall j :: 0 <= j < n ==> zones[j] == zones'[j]
    ensures IndicesWhere(zones, n, p) == IndicesWhere(zones', n, p)
  {
    if n > 0 {
      IndicesWhereUnchanged(zones, zones', n - 1, p);
    }
  }

  /** `takeDamages` touches only front cards and changes no zone's size; a
      zone given `undefined` is unchanged; a dying card is flagged not added
      and stays in its zone; and every front card still deals the damage it
      dealt before, so a card killed this round still hits back. */
  lemma DamageFacts(zones: seq<seq<Card>>, damages: seq<Option<int>>)
    ensures |DamagedZones(zones, damages)| == |zones|
    ensures forall i :: 0 <= i < |zones| ==> |DamagedZones(zones, damages)[i]| == |zones[i]|
    ensures forall i :: 0 <= i < |zones| && zones[i] != [] ==>
      DamagedZones(zones, damages)[i][1..] == zones[i][1..]
    ensures forall i :: 0 <= i < |zones| && DamageFor(zones, damages, i).None? ==>
      DamagedZones(zones, damages)[i] == zones[i]
    ensures forall i :: 0 <= i < |zones| && Dies(zones, damages, i) ==>
      !IsAlive(DamagedZones(zones, damages)[i][0]) && !DamagedZones(zones, damages)[i][0].added
    ensures forall i :: 0 <= i < |zones| && zones[i] != [] && !Dies(zones, damages, i) ==>
      DamagedZones(zones, damages)[i][0].added == zones[i][0].added
    ensures FrontDamages(DamagedZones(zones, damages)) == FrontDamages(zones)
    ensures AtMostOneCard(zones) ==> AtMostOneCard(DamagedZones(zones, damages))
  {
  }

  // ---------------------------------------------------------------------
  // The cards a side holds

  /** All cards held in the zones, as a multiset. */
  function ZoneCards(zones: seq<seq<Card>>): multiset<Card> {
    if zones == [] then multiset{} else multiset(zones[0]) + ZoneCards(zones[1..])
  }

  /** Replacing one zone changes the held cards by exactly that zone's cards. */
  lemma {:induction false} ZoneCardsUpdate(zones: seq<seq<Card>>, i: nat, z: seq<Card>)
    requires i < |zones|
    ensures ZoneCards(zones[i := z]) + multiset(zones[i]) == ZoneCards(zones) + multiset(z)
  {
    if i > 0 {
      ZoneCardsUpdate(zones[1..], i - 1, z);
      assert zones[i := z][0] == zones[0];
      assert zones[i := z][1..] == zones[1..][i - 1 := z];
      assert zones[1..][i - 1] == zones[i];
      calc {
        ZoneCards(zones[i := z]) + multiset(zones[i]);
        multiset(zones[0]) + (ZoneCards(zones[1..][i - 1 := z]) + multiset(zones[1..][i - 1]));
        multiset(zones[0]) + (ZoneCards(zones[1..]) + multiset(z));
        ZoneCards(zones) + multiset(z);
      }
    } else {
      assert zones[i := z][1..] == zones[1..];
    }
  }
}
