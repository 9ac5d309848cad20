/** What the round engine guarantees, proved about the transitions of
    module Round. */
module RoundProperties {
  import opened Wrappers
  import opened Cards
  import opened Zones
  import opened DragDrop
  import opened Round

  // ---------------------------------------------------------------------
  // continue

  /** The verdict of `continue`, in terms of the zones themselves: it is
      ignored while a round resolves; refused with "no cards" exactly when no
      zone holds an alive, settled card (even if the other check fails too);
      refused with "empty zones" exactly when some zones are ready, some are
      not and the deck still has cards; and accepted otherwise. */
  lemma ContinueVerdictMeaning(s: GameState)
    ensures ContinueVerdict(s) == Ignored <==> s.waitingForResp
    ensures ContinueVerdict(s) == Rejected(NoCardsInFightingZone) <==>
      !s.waitingForResp && forall i :: 0 <= i < |s.fightingZones| ==> !Ready(s.fightingZones[i])
    ensures ContinueVerdict(s) == Rejected(EmptyZonesWithCardsInDeck) <==>
      !s.waitingForResp && s.deckCards != [] &&
      (exists i :: 0 <= i < |s.fightingZones| && Ready(s.fightingZones[i])) &&
      (exists i :: 0 <= i < |s.fightingZones| && !Ready(s.fightingZones[i]))
    ensures ContinueVerdict(s) == Accepted <==>
      !s.waitingForResp &&
      (exists i :: 0 <= i < |s.fightingZones| && Ready(s.fightingZones[i])) &&
      (s.deckCards == [] || forall i :: 0 <= i < |s.fightingZones| ==> Ready(s.fightingZones[i]))
  {
    ZoneCount(s.fightingZones);
  }

  /** A `continue` that is not accepted changes nothing; an accepted one
      blocks further continues, stops the timer, appends exactly the seconds
      on the clock to the round times and schedules step 1, and changes
      nothing else. */
  lemma ContinueEffect(s: GameState)
    ensures ContinueVerdict(s) != Accepted ==> Continue(s) == s
    ensures ContinueVerdict(s) == Accepted ==>
      Continue(s).waitingForResp && !Continue(s).timerRunning &&
      Continue(s).roundTimes == s.roundTimes + [s.secondsElapsed] &&
      Continue(s).pendingFill == s.pendingFill + 1 &&
      Continue(s).(waitingForResp := s.waitingForResp, timerRunning := s.timerRunning,
                   roundTimes := s.roundTimes, pendingFill := s.pendingFill) == s
  {
  }

  /** `waitingForResp` clears at the start of step 1, before any damage, so a
      continue that was accepted would be accepted again between step 1 and
      step 2. */
  lemma SecondContinueAcceptedBetweenSteps(s: GameState)
    requires ContinueVerdict(s) == Accepted
    ensures ContinueVerdict(ResolveStep1(Continue(s))) == Accepted
    ensures ResolveStep1(Continue(s)).pendingExchange == s.pendingExchange + 1
  {
    var s1 := ResolveStep1(Continue(s));
    assert s1.fightingZones == s.fightingZones && s1.deckCards == s.deckCards;
    assert !s1.waitingForResp;
  }

  /** An accepted `continue` followed by its two steps adds exactly one round
      time, the seconds on the clock when it was accepted, and increases the
      round number by exactly one. */
  lemma AcceptedRoundAdvances(s: GameState, serveHand: ServeHand, getScore: GetScore)
    requires ContinueVerdict(s) == Accepted
    ensures var s2 := ResolveStep2(ResolveStep1(Continue(s)), serveHand, getScore);
      s2.roundTimes == s.roundTimes + [s.secondsElapsed] && s2.roundNum == s.roundNum + 1 &&
      s2.pendingFill == s.pendingFill && s2.pendingExchange == s.pendingExchange
  {
  }

  // ---------------------------------------------------------------------
  // Timer

  /** A tick carrying `val` shows `30 - (val + 1)` seconds, but never less
      than 0; reaching 0 sets the lose flag, and nothing else changes. */
  lemma TickEffect(s: GameState)
    requires s.timerRunning
    ensures var val := s.nextTick;
      Tick(s).secondsElapsed == (if RoundSeconds - (val + 1) <= 0 then 0 else RoundSeconds - (val + 1)) &&
      0 <= Tick(s).secondsElapsed < RoundSeconds &&
      Tick(s).showLoseModal == (s.showLoseModal || val + 1 >= RoundSeconds) &&
      Tick(s).nextTick == val + 1 &&
      Tick(s).(secondsElapsed := s.secondsElapsed, showLoseModal := s.showLoseModal, nextTick := val) == s
  {
  }

  // ---------------------------------------------------------------------
  // Step 2

  /** Although the enemy's cards are hit first, the player's cards hit back
      with the damage they had before being hit: dead cards stay in their
      zones until removed later, so both sides are damaged by the other's
      pre-exchange front cards. */
  lemma ExchangeUsesPreExchangeDamage(s: GameState, serveHand: ServeHand, getScore: GetScore)
    requires s.pendingExchange > 0
    ensures ResolveStep2(s, serveHand, getScore).fightingZones ==
      DamagedZones(s.fightingZones, FrontDamages(s.enemyFightingZones))
    ensures ResolveStep2(s, serveHand, getScore).enemyFightingZones ==
      DamagedZones(s.enemyFightingZones, FrontDamages(s.fightingZones))
  {
    DamageFacts(s.fightingZones, FrontDamages(s.enemyFightingZones));
  }

  /** Emptiness of zones, and therefore the win condition, is the same
      before and after damage. */
  lemma DamageKeepsEnemyCleared(roster: seq<Card>, zones: seq<seq<Card>>, damages: seq<Option<int>>)
    ensures EnemyCleared(roster, DamagedZones(zones, damages)) == EnemyCleared(roster, zones)
  {
    DamageFacts(zones, damages);
    EnemyClearedMeaning(roster, zones);
    EnemyClearedMeaning(roster, DamagedZones(zones, damages));
    var dz := DamagedZones(zones, damages);
    assert forall i :: 0 <= i < |zones| ==> (dz[i] == [] <==> zones[i] == []) by {
      forall i | 0 <= i < |zones| ensures dz[i] == [] <==> zones[i] == [] {
        assert |dz[i]| == |zones[i]|;
      }
    }
  }

  /** The win check of a round cannot see that round's kills: step 2 sets
      the win flag exactly when it was already set or the enemy was cleared
      BEFORE the exchange. A zone still holding a card killed this round
      counts as occupied. */
  lemma WinDecidedBeforeExchange(s: GameState, serveHand: ServeHand, getScore: GetScore)
    requires s.pendingExchange > 0
    ensures ResolveStep2(s, serveHand, getScore).showWinModal ==
      (s.showWinModal || EnemyCleared(s.enemyCards, s.enemyFightingZones))
  {
    ExchangeUsesPreExchangeDamage(s, serveHand, getScore);
    DamageKeepsEnemyCleared(s.enemyCards, s.enemyFightingZones, FrontDamages(s.fightingZones));
  }

  /** Step 2 sets the lose flag exactly when it was set or the player has no
      cards left after the refill; the latter needs an empty deck before the
      refill and a supplier that served nothing. The refill asks for the free
      deck space minus the zones still ready after the player's cards were
      hit. */
  lemma LossAfterRefill(s: GameState, serveHand: ServeHand, getScore: GetScore)
    requires s.pendingExchange > 0
    ensures var r := ResolveStep2(s, serveHand, getScore);
      var hitZones := DamagedZones(s.fightingZones, FrontDamages(s.enemyFightingZones));
      var served := serveHand(RefillRequest(s.deckCards, hitZones));
      r.deckCards == s.deckCards + served &&
      r.showLoseModal == (s.showLoseModal || NoCardsLeft(r.deckCards, r.fightingZones)) &&
      (NoCardsLeft(r.deckCards, r.fightingZones) ==> s.deckCards == [] && served == [])
  {
    ExchangeUsesPreExchangeDamage(s, serveHand, getScore);
  }

  /** Step 2 advances the round by one and restarts the timer at thirty
      seconds; the round times are untouched. */
  lemma Step2AdvancesRound(s: GameState, serveHand: ServeHand, getScore: GetScore)
    requires s.pendingExchange > 0
    ensures var r := ResolveStep2(s, serveHand, getScore);
      r.roundNum == s.roundNum + 1 && r.roundTimes == s.roundTimes &&
      r.timerRunning && r.nextTick == 0 && r.secondsElapsed == RoundSeconds &&
      r.waitingForResp == s.waitingForResp && r.pendingExchange == s.pendingExchange - 1
  {
  }

  // ---------------------------------------------------------------------
  // Reset and drops

  /** `reset` restores round 1, a thirty-second clock, empty player zones, a
      fresh hand of whatever the supplier serves for four (with its settle
      callback scheduled), no round times and no outcome; it keeps the enemy
      side, `waitingForResp`, the coins and every callback already scheduled,
      so a resolution in flight still runs. */
  lemma ResetEffect(s: GameState, serveHand: ServeHand)
    ensures var r := Reset(s, serveHand);
      r.roundNum == 1 && r.secondsElapsed == RoundSeconds && r.timerRunning && r.nextTick == 0 &&
      r.fightingZones == [[], []] && r.deckCards == serveHand(4) && r.roundTimes == [] &&
      !r.showWinModal && !r.showLoseModal &&
      r.enemyCards == s.enemyCards && r.enemyFightingZones == s.enemyFightingZones &&
      r.waitingForResp == s.waitingForResp && r.zonesGeneration == s.zonesGeneration + 1 &&
      r.coinsEarned == s.coinsEarned && r.pendingDeckSettles == s.pendingDeckSettles + 1 &&
      r.pendingFill == s.pendingFill && r.pendingExchange == s.pendingExchange &&
      r.pendingRemovals == s.pendingRemovals && r.pendingEnemySettles == s.pendingEnemySettles
  {
  }

  /** Every drop keeps the player's cards: the deck and the zones together
      hold the same multiset of cards. */
  lemma DropConservesCards(s: GameState, from: Container, to: Container,
                           previousIndex: int, currentIndex: int, targetNumber: int)
    requires ValidContainer(s, from) && ValidContainer(s, to)
    ensures PlayerCards(DropCard(s, from, to, previousIndex, currentIndex, targetNumber)) == PlayerCards(s)
  {
    var r := DropCard(s, from, to, previousIndex, currentIndex, targetNumber);
    if from == to {
      var moved := MoveItemInArray(ListOf(s, to), previousIndex, currentIndex);
      WithListCards(s, to, moved);
      MultisetCancel(PlayerCards(r), PlayerCards(s), multiset(moved));
    } else if targetNumber <= 0 || |ListOf(s, to)| == 0 {
      var moved := TransferArrayItem(ListOf(s, from), ListOf(s, to), previousIndex, currentIndex);
      var s1 := WithList(s, from, moved.0);
      WithListCards(s, from, moved.0);
      WithListCards(s1, to, moved.1);
      assert ListOf(s1, to) == ListOf(s, to);
      TransferCancel(PlayerCards(s), PlayerCards(s1), PlayerCards(r),
                     multiset(ListOf(s, from)), multiset(ListOf(s, to)), multiset(moved.0), multiset(moved.1));
    }
  }

  /** A cross-list drop with a positive `targetNumber` onto an occupied list
      does nothing, and onto an empty one from a non-empty list puts exactly
      one card there. No drop changes the enemy side or the round. */
  lemma DropOntoZone(s: GameState, from: Container, to: Container,
                     previousIndex: int, currentIndex: int, targetNumber: int)
    requires ValidContainer(s, from) && ValidContainer(s, to)
    ensures from != to && targetNumber > 0 && ListOf(s, to) != [] ==>
      DropCard(s, from, to, previousIndex, currentIndex, targetNumber) == s
    ensures from != to && targetNumber > 0 && ListOf(s, to) == [] && ListOf(s, from) != [] ==>
      |ListOf(DropCard(s, from, to, previousIndex, currentIndex, targetNumber), to)| == 1
    ensures DropCard(s, from, to, previousIndex, currentIndex, targetNumber).(
      deckCards := s.deckCards, fightingZones := s.fightingZones) == s
  {
  }

  /** All the cards the player holds, in the deck and in the zones. */
  function PlayerCards(s: GameState): multiset<Card> {
    multiset(s.deckCards) + ZoneCards(s.fightingZones)
  }

  lemma TransferCancel(before: multiset<Card>, middle: multiset<Card>, after: multiset<Card>,
                       from: multiset<Card>, to: multiset<Card>, from': multiset<Card>, to': multiset<Card>)
    requires middle + from == before + from'
    requires after + to == middle + to'
    requires from' + to' == from + to
    ensures after == before
  {
    forall x ensures after[x] == before[x] {
      assert (middle + from)[x] == (before + from')[x];
      assert (after + to)[x] == (middle + to')[x];
      assert (from' + to')[x] == (from + to)[x];
    }
  }

  lemma MultisetCancel(a: multiset<Card>, b: multiset<Card>, m: multiset<Card>)
    requires a + m == b + m
    ensures a == b
  {
    forall x ensures a[x] == b[x] {
      assert (a + m)[x] == (b + m)[x];
    }
  }

  /** Replacing one list changes the player's cards by exactly that list. */
  lemma WithListCards(s: GameState, c: Container, cards: seq<Card>)
    requires ValidContainer(s, c)
    ensures var r := WithList(s, c, cards);
      PlayerCards(r) + multiset(ListOf(s, c)) == PlayerCards(s) + multiset(cards) &&
      ValidContainer(r, c) && ListOf(r, c) == cards && |r.fightingZones| == |s.fightingZones| &&
      (forall d :: ValidContainer(s, d) && d != c ==> ListOf(r, d) == ListOf(s, d)) &&
      r.(deckCards := s.deckCards, fightingZones := s.fightingZones) == s
  {
    var r := WithList(s, c, cards);
    if c.FightingZone? {
      ZoneCardsUpdate(s.fightingZones, c.index, cards);
      calc {
        multiset(r.deckCards) + ZoneCards(r.fightingZones) + multiset(ListOf(s, c));
        multiset(s.deckCards) + (ZoneCards(s.fightingZones[c.index := cards]) + multiset(s.fightingZones[c.index]));
        multiset(s.deckCards) + (ZoneCards(s.fightingZones) + multiset(cards));
      }
    }
  }

  // ---------------------------------------------------------------------
  // Invariants over every event

  /** The properties every event but `reset` keeps: both sides keep two
      zones and every scheduled callback points at one of them; the outcome
      flags stay raised once raised; and no zone comes to hold two cards. */
  predicate Keeps(s: GameState, r: GameState) {
    WellFormed(r) &&
    (s.showWinModal ==> r.showWinModal) && (s.showLoseModal ==> r.showLoseModal) &&
    (AtMostOneCard(s.fightingZones) && AtMostOneCard(s.enemyFightingZones) ==>
       AtMostOneCard(r.fightingZones) && AtMostOneCard(r.enemyFightingZones))
  }

  lemma ContinueKeeps(s: GameState)
    requires WellFormed(s)
    ensures Keeps(s, Continue(s))
    ensures Continue(s).roundNum == s.roundNum
  {
  }

  lemma TickKeeps(s: GameState)
    requires WellFormed(s) && s.timerRunning
    ensures Keeps(s, Tick(s))
    ensures Tick(s).roundTimes == s.roundTimes && Tick(s).roundNum == s.roundNum
  {
  }

  lemma SettleDeckKeeps(s: GameState)
    requires WellFormed(s) && s.pendingDeckSettles > 0
    ensures Keeps(s, SettleDeck(s))
    ensures SettleDeck(s).roundTimes == s.roundTimes && SettleDeck(s).roundNum == s.roundNum
  {
  }

  /** Which lists a drop changes: only the two it names; a reorder keeps
      the list's size, a transfer does not grow the source, and a transfer
      with a positive `targetNumber` leaves at most one card in the target. */
  lemma DropLists(s: GameState, from: Container, to: Container,
                  previousIndex: int, currentIndex: int, targetNumber: int)
    requires ValidContainer(s, from) && ValidContainer(s, to)
    ensures var r := DropCard(s, from, to, previousIndex, currentIndex, targetNumber);
      |r.fightingZones| == |s.fightingZones| &&
      (forall d :: ValidContainer(s, d) && d != from && d != to ==> ListOf(r, d) == ListOf(s, d)) &&
      (from == to ==> |ListOf(r, to)| == |ListOf(s, to)|) &&
      (from != to ==> |ListOf(r, from)| <= |ListOf(s, from)|) &&
      (from != to && targetNumber > 0 ==> |ListOf(r, to)| <= 1 || r == s)
  {
    var r := DropCard(s, from, to, previousIndex, currentIndex, targetNumber);
    if from == to {
      var moved := MoveItemInArray(ListOf(s, to), previousIndex, currentIndex);
      WithListCards(s, to, moved);
      assert r == WithList(s, to, moved);
    } else if targetNumber <= 0 || |ListOf(s, to)| == 0 {
      TransferLists(s, from, to, previousIndex, currentIndex);
    }
  }

  lemma TransferLists(s: GameState, from: Container, to: Container, previousIndex: int, currentIndex: int)
    requires ValidContainer(s, from) && ValidContainer(s, to) && from != to
    ensures var r := Transfer(s, from, to, previousIndex, currentIndex);
      |r.fightingZones| == |s.fightingZones| &&
      (forall d :: ValidContainer(s, d) && d != from && d != to ==> ListOf(r, d) == ListOf(s, d)) &&
      |ListOf(r, from)| <= |ListOf(s, from)| &&
      |ListOf(r, to)| <= |ListOf(s, to)| + 1
  {
    var moved := TransferArrayItem(ListOf(s, from), ListOf(s, to), previousIndex, currentIndex);
    var s1 := WithList(s, from, moved.0);
    WithListCards(s, from, moved.0);
    WithListCards(s1, to, moved.1);
    assert ListOf(s1, to) == ListOf(s, to);
  }

  lemma DropKeeps(s: GameState, from: Container, to: Container,
                  previousIndex: int, currentIndex: int, targetNumber: int)
    requires WellFormed(s) && ValidContainer(s, from) && ValidContainer(s, to)
    requires to.FightingZone? ==> targetNumber > 0
    ensures Keeps(s, DropCard(s, from, to, previousIndex, currentIndex, targetNumber))
    ensures DropCard(s, from, to, previousIndex, currentIndex, targetNumber).roundTimes == s.roundTimes
    ensures DropCard(s, from, to, previousIndex, currentIndex, targetNumber).roundNum == s.roundNum
  {
    DropLists(s, from, to, previousIndex, currentIndex, targetNumber);
    DropOntoZone(s, from, to, previousIndex, currentIndex, targetNumber);
    CapacityAfterDrop(s, DropCard(s, from, to, previousIndex, currentIndex, targetNumber), from, to, targetNumber);
  }

  /** Any drop, whatever its `targetNumber`, keeps the state well-formed. */
  lemma DropWellFormed(s: GameState, from: Container, to: Container,
                       previousIndex: int, currentIndex: int, targetNumber: int)
    requires WellFormed(s) && ValidContainer(s, from) && ValidContainer(s, to)
    ensures WellFormed(DropCard(s, from, to, previousIndex, currentIndex, targetNumber))
  {
    DropLists(s, from, to, previousIndex, currentIndex, targetNumber);
    DropOntoZone(s, from, to, previousIndex, currentIndex, targetNumber);
  }

  lemma CapacityAfterDrop(s: GameState, r: GameState, from: Container, to: Container, targetNumber: int)
    requires WellFormed(s) && ValidContainer(s, from) && ValidContainer(s, to)
    requires to.FightingZone? ==> targetNumber > 0
    requires r.(deckCards := s.deckCards, fightingZones := s.fightingZones) == s
    requires |r.fightingZones| == |s.fightingZones|
    requires forall d :: ValidContainer(s, d) && d != from && d != to ==> ListOf(r, d) == ListOf(s, d)
    requires from == to ==> |ListOf(r, to)| == |ListOf(s, to)|
    requires from != to ==> |ListOf(r, from)| <= |ListOf(s, from)|
    requires from != to && targetNumber > 0 ==> |ListOf(r, to)| <= 1 || r == s
    ensures Keeps(s, r)
  {
    if AtMostOneCard(s.fightingZones) && r != s {
      forall i | 0 <= i < |r.fightingZones|
        ensures |r.fightingZones[i]| <= 1
      {
        var zi := FightingZone(i);
        assert ListOf(r, zi) == r.fightingZones[i] && ListOf(s, zi) == s.fightingZones[i];
      }
    }
  }

  lemma Step1Keeps(s: GameState)
    requires WellFormed(s) && s.pendingFill > 0
    ensures Keeps(s, ResolveStep1(s))
    ensures ResolveStep1(s).roundTimes == s.roundTimes && ResolveStep1(s).roundNum == s.roundNum
  {
    var ez := s.enemyFightingZones;
    IndicesWhereFacts(ez, |ez|, Vacant);
    FillFifo(ez, s.enemyCards);
    var f := FilledIndices(ez, s.enemyCards);
    assert forall z :: z in f ==> z < NumZones;
  }

  lemma EnemySettleKeeps(s: GameState, k: nat)
    requires WellFormed(s) && k < |s.pendingEnemySettles|
    ensures Keeps(s, SettleEnemyCard(s, k))
    ensures SettleEnemyCard(s, k).roundTimes == s.roundTimes && SettleEnemyCard(s, k).roundNum == s.roundNum
  {
    var rest := s.pendingEnemySettles[..k] + s.pendingEnemySettles[k + 1..];
    assert forall z :: z in rest ==> z in s.pendingEnemySettles;
    assert s.pendingEnemySettles[k] in s.pendingEnemySettles;
    var r := SettleEnemyCard(s, k);
    assert r.pendingEnemySettles == rest;
    assert |r.enemyFightingZones| == NumZones;
  }

  lemma FinishDeathKeeps(s: GameState, k: nat)
    requires WellFormed(s) && k < |s.pendingRemovals|
    ensures Keeps(s, FinishDeath(s, k))
    ensures FinishDeath(s, k).roundTimes == s.roundTimes && FinishDeath(s, k).roundNum == s.roundNum
  {
    var r := s.pendingRemovals[k];
    assert r in s.pendingRemovals;
    var rest := s.pendingRemovals[..k] + s.pendingRemovals[k + 1..];
    assert forall x :: x in rest ==> x in s.pendingRemovals;
    ShiftKeepsAtMostOne(s.enemyFightingZones, r.zone);
    ShiftKeepsAtMostOne(s.fightingZones, r.zone);
  }

  /** Shifting one zone never lets a zone hold two cards. */
  lemma ShiftKeepsAtMostOne(zones: seq<seq<Card>>, i: nat)
    requires i < |zones|
    ensures AtMostOneCard(zones) ==> AtMostOneCard(zones[i := Shift(zones[i])])
  {
  }

  lemma TakeDamagesKeeps(s: GameState, side: Side, damages: seq<Option<int>>)
    requires WellFormed(s)
    ensures Keeps(s, TakeDamages(s, side, damages))
    ensures TakeDamages(s, side, damages).roundTimes == s.roundTimes
    ensures TakeDamages(s, side, damages).roundNum == s.roundNum
  {
    var zones := ZonesOf(s, side);
    DamageFacts(zones, damages);
    var deaths := Deaths(zones, damages, |zones|);
    assert forall r :: r in Removals(side, s.zonesGeneration, deaths) ==> r.zone < NumZones;
  }

  lemma Step2Keeps(s: GameState, serveHand: ServeHand, getScore: GetScore)
    requires WellFormed(s) && s.pendingExchange > 0
    ensures var r := ResolveStep2(s, serveHand, getScore);
      Keeps(s, r) && r.roundTimes == s.roundTimes && r.roundNum == s.roundNum + 1
  {
    var s1 := TakeDamages(s, Player, FrontDamages(s.enemyFightingZones));
    TakeDamagesKeeps(s, Player, FrontDamages(s.enemyFightingZones));
    var s2 := TakeDamages(s1, Enemy, FrontDamages(s1.fightingZones));
    TakeDamagesKeeps(s1, Enemy, FrontDamages(s1.fightingZones));
    KeepsTransitive(s, s1, s2);
    var s3 := RoundCompleted(s2, serveHand, getScore);
    RoundCompletedKeeps(s2, serveHand, getScore);
    KeepsTransitive(s, s2, s3);
    var s4 := ResetTimer(s3);
    KeepsTransitive(s, s3, s4);
    CloseRoundKeeps(s4);
    KeepsTransitive(s, s4, CloseRound(s4));
  }

  lemma RoundCompletedKeeps(s: GameState, serveHand: ServeHand, getScore: GetScore)
    requires WellFormed(s)
    ensures var r := RoundCompleted(s, serveHand, getScore);
      Keeps(s, r) && r.roundTimes == s.roundTimes && r.roundNum == s.roundNum && r.pendingExchange == s.pendingExchange
  {
  }

  lemma CloseRoundKeeps(s: GameState)
    requires WellFormed(s) && s.pendingExchange > 0
    ensures var r := CloseRound(s);
      Keeps(s, r) && r.roundTimes == s.roundTimes && r.roundNum == s.roundNum + 1
  {
  }

  lemma KeepsTransitive(a: GameState, b: GameState, c: GameState)
    requires Keeps(a, b) && Keeps(b, c)
    ensures Keeps(a, c)
  {
  }

  /** Every event but `reset` keeps the well-formedness of the state, keeps
      a raised outcome flag raised, and — assuming every drop onto a
      fighting zone carries a positive `targetNumber` — never lets a zone
      hold two cards. The round times grow by
      exactly one entry, the seconds on the clock, per accepted continue, and
      the round number by exactly one per completed step 2. */
  lemma EventInvariants(s: GameState, e: Event)
    requires WellFormed(s) && Enabled(s, e) && !e.ResetRequested?
    requires e.CardDropped? && e.to.FightingZone? ==> e.targetNumber > 0
    ensures Keeps(s, Next(s, e))
    ensures Next(s, e).roundTimes ==
      s.roundTimes + (if e.ContinueClicked? && ContinueVerdict(s) == Accepted then [s.secondsElapsed] else [])
    ensures Next(s, e).roundNum == s.roundNum + (if e.Step2Fired? then 1 else 0)
  {
    match e
    case ContinueClicked => ContinueKeeps(s);
    case CardDropped(from, to, p, c, t) => DropKeeps(s, from, to, p, c, t);
    case TimerTicked => TickKeeps(s);
    case Step1Fired => Step1Keeps(s);
    case Step2Fired(serveHand, getScore) => Step2Keeps(s, serveHand, getScore);
    case RemovalFired(k) => FinishDeathKeeps(s, k);
    case DeckSettleFired => SettleDeckKeeps(s);
    case EnemySettleFired(k) => EnemySettleKeeps(s, k);
  }

  /** `reset` keeps the state well-formed and empties the player's zones. */
  lemma ResetKeeps(s: GameState, serveHand: ServeHand)
    requires WellFormed(s)
    ensures WellFormed(Reset(s, serveHand)) && AtMostOneCard(Reset(s, serveHand).fightingZones)
  {
  }
}
