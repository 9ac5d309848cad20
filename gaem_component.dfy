/** The battle screen's component: its fields and the methods that change
    them. Each method is proved to follow the transition of module Round for
    the same event, so every property proved there holds of the component. */
module Gaem {
  import opened Wrappers
  import opened Cards
  import opened Zones
  import opened Round
  import RoundProperties

  /** What the runtime holds for the component besides its fields: the timer
      subscription (`timerRunning`, and the value `nextTick` its next emission
      carries), which player zone array is current (`zonesGeneration`, bumped
      when `reset` replaces it), and the `setTimeout` callbacks scheduled and
      not yet run. */
  datatype Runtime = Runtime(
    timerRunning: bool,
    nextTick: nat,
    zonesGeneration: nat,
    pendingFill: nat,
    pendingExchange: nat,
    pendingRemovals: seq<Removal>,
    pendingDeckSettles: nat,
    pendingEnemySettles: seq<nat>)

  class GaemComponent {
    var deckCards: seq<Card>
    var fightingZones: seq<seq<Card>>
    var roundNum: int
    var secondsElapsed: int
    var roundTimes: seq<int>
    var coinsEarned: int
    var waitingForResp: bool
    var enemyCards: seq<Card>
    var enemyFightingZones: seq<seq<Card>>
    var showWinModal: bool
    var showLoseModal: bool
    var runtime: Runtime

    /** The component's state as a value. */
    function State(): GameState
      reads this
    {
      GameState(deckCards, fightingZones, enemyCards, enemyFightingZones, roundNum,
                secondsElapsed, roundTimes, coinsEarned, waitingForResp, showWinModal,
                showLoseModal, runtime.timerRunning, runtime.nextTick, runtime.zonesGeneration,
                runtime.pendingFill, runtime.pendingExchange, runtime.pendingRemovals,
                runtime.pendingDeckSettles, runtime.pendingEnemySettles)
    }

    ghost predicate Valid()
      reads this
    {
      WellFormed(State())
    }

    /** The constructor, with the enemy roster it seeds given as `roster`. */
    constructor (roster: seq<Card>)
      ensures State() == Initial(roster) && Valid()
    {
      deckCards := [];
      fightingZones := [[], []];
      roundNum := 1;
      secondsElapsed := InitialSeconds;
      roundTimes := [];
      coinsEarned := InitialCoins;
      waitingForResp := false;
      enemyCards := roster;
      enemyFightingZones := [[], []];
      showWinModal := false;
      showLoseModal := false;
      runtime := Runtime(false, 0, 0, 0, 0, [], 0, []);
    }

    /** `reset`. The new zone array is a new generation. */
    method Reset(serveHand: ServeHand)
      requires Valid()
      modifies this
      ensures State() == Round.Reset(old(State()), serveHand)
      ensures Valid()
    {
      deckCards := [];
      AddToDeck(serveHand(DeckCapacity));
      NewRound();
      ResetTimer();
      ClearOutcome();
      RoundProperties.ResetKeeps(old(State()), serveHand);
    }

    /** The part of `reset` between the new hand and the timer: new, empty
        player zones, and round 1. */
    method NewRound()
      modifies this
      ensures State() == old(State()).(fightingZones := [[], []], zonesGeneration := old(runtime.zonesGeneration) + 1, roundNum := 1)
    {
      fightingZones := [[], []];
      runtime := runtime.(zonesGeneration := runtime.zonesGeneration + 1);
      roundNum := 1;
    }

    /** The end of `reset`: no round times, and neither outcome shown. */
    method ClearOutcome()
      modifies this
      ensures State() == old(State()).(roundTimes := [], showLoseModal := false, showWinModal := false)
    {
      roundTimes := [];
      showLoseModal := false;
      showWinModal := false;
    }

    method StopTimer()
      modifies this
      ensures State() == Round.StopTimer(old(State()))
    {
      runtime := runtime.(timerRunning := false);
    }

    /** `resetTimer`: a new subscription whose first emission carries 0. */
    method ResetTimer()
      modifies this
      ensures State() == Round.ResetTimer(old(State()))
    {
      StopTimer();
      secondsElapsed := RoundSeconds;
      runtime := runtime.(timerRunning := true, nextTick := 0);
    }

    /** One emission of the timer subscription. */
    method Tick()
      requires Valid() && runtime.timerRunning
      modifies this
      ensures State() == Round.Tick(old(State()))
      ensures Valid()
    {
      var val := runtime.nextTick;
      runtime := runtime.(nextTick := val + 1);
      secondsElapsed := RoundSeconds - (val + 1);
      if secondsElapsed <= 0 {
        secondsElapsed := 0;
        showLoseModal := true;
      }
      RoundProperties.TickKeeps(old(State()));
    }

    /** `addToDeck`: append, and schedule the settle callback. */
    method AddToDeck(newCards: seq<Card>)
      modifies this
      ensures State() == Round.AddToDeck(old(State()), newCards)
    {
      deckCards := deckCards + newCards;
      runtime := runtime.(pendingDeckSettles := runtime.pendingDeckSettles + 1);
    }

    /** The settle callback scheduled by `addToDeck`. */
    method SettleDeck()
      requires Valid() && runtime.pendingDeckSettles > 0
      modifies this
      ensures State() == Round.SettleDeck(old(State()))
      ensures Valid()
    {
      runtime := runtime.(pendingDeckSettles := runtime.pendingDeckSettles - 1);
      deckCards := Settled(deckCards);
      RoundProperties.SettleDeckKeeps(old(State()));
    }

    /** `dropCard`. */
    method DropCard(from: Container, to: Container, previousIndex: int, currentIndex: int, targetNumber: int)
      requires Valid() && ValidContainer(State(), from) && ValidContainer(State(), to)
      modifies this
      ensures State() == Round.DropCard(old(State()), from, to, previousIndex, currentIndex, targetNumber)
      ensures Valid()
    {
      MoveCard(from, to, previousIndex, currentIndex, targetNumber);
      RoundProperties.DropWellFormed(old(State()), from, to, previousIndex, currentIndex, targetNumber);
    }

    /** The moves of `dropCard`: reorder within one list, or move the card
        across, onto a fighting zone only when it is empty. */
    method MoveCard(from: Container, to: Container, previousIndex: int, currentIndex: int, targetNumber: int)
      requires ValidContainer(State(), from) && ValidContainer(State(), to)
      modifies this
      ensures State() == Round.DropCard(old(State()), from, to, previousIndex, currentIndex, targetNumber)
    {
      var s := State();
      if from == to {
        SetList(to, DragDrop.MoveItemInArray(ListOf(s, to), previousIndex, currentIndex));
      } else if targetNumber > 0 {
        if |ListOf(s, to)| == 0 {
          var moved := DragDrop.TransferArrayItem(ListOf(s, from), ListOf(s, to), previousIndex, currentIndex);
          SetList(from, moved.0);
          SetList(to, moved.1);
        }
      } else {
        var moved := DragDrop.TransferArrayItem(ListOf(s, from), ListOf(s, to), previousIndex, currentIndex);
        SetList(from, moved.0);
        SetList(to, moved.1);
      }
    }

    /** Replace the deck or one fighting zone. */
    method SetList(c: Container, cards: seq<Card>)
      requires ValidContainer(State(), c)
      modifies this
      ensures State() == WithList(old(State()), c, cards)
    {
      if c.Deck? {
        deckCards := cards;
      } else {
        fightingZones := fightingZones[c.index := cards];
      }
    }

    /** `addEnemyCards`: walk the enemy zones in order, and give each empty
        one the card shifted off the roster, if there is one. The walk works
        on local copies of the zones and the roster, stored back with the
        settle callbacks it scheduled when it ends. */
    method AddEnemyCards()
      modifies this
      ensures State() == Round.AddEnemyCards(old(State()))
    {
      var zones := enemyFightingZones;
      var roster := enemyCards;
      var filled: seq<nat> := [];
      var i := 0;
      while i < |zones|
        invariant i <= |enemyFightingZones|
        invariant (zones, roster, filled) == FillWalk(enemyFightingZones, enemyCards, i)
      {
        if |zones[i]| == 0 {
          var newCard := if roster == [] then None else Some(roster[0]);
          roster := if roster == [] then [] else roster[1..];
          if newCard.Some? {
            zones := zones[i := zones[i] + [newCard.value]];
            filled := filled + [i];
          }
        }
        i := i + 1;
      }
      FillWalkComplete(enemyFightingZones, enemyCards);
      enemyFightingZones := zones;
      enemyCards := roster;
      runtime := runtime.(pendingEnemySettles := runtime.pendingEnemySettles + filled);
    }

    /** The settle callback scheduled by `addEnemyCards` for one zone. */
    method SettleEnemyCard(k: nat)
      requires Valid() && k < |runtime.pendingEnemySettles|
      modifies this
      ensures State() == Round.SettleEnemyCard(old(State()), k)
      ensures Valid()
    {
      var z := runtime.pendingEnemySettles[k];
      assert z in runtime.pendingEnemySettles;
      runtime := runtime.(pendingEnemySettles := runtime.pendingEnemySettles[..k] + runtime.pendingEnemySettles[k + 1..]);
      var zone := enemyFightingZones[z];
      if zone != [] {
        enemyFightingZones := enemyFightingZones[z := [zone[0].(added := true)] + zone[1..]];
      }
      RoundProperties.EnemySettleKeeps(old(State()), k);
    }

    /** `checkPlayerWin`. */
    method CheckPlayerWin()
      modifies this
      ensures State() == Round.CheckPlayerWin(old(State()))
    {
      if |enemyCards| == 0 && |IndicesWhere(enemyFightingZones, |enemyFightingZones|, Occupied)| == 0 {
        showWinModal := true;
      }
    }

    /** `continue`: the validation, and the start of a round when it passes.
        The two deferred steps are `ResolveStep1` and `ResolveStep2`. */
    method Continue() returns (verdict: Verdict)
      requires Valid()
      modifies this
      ensures verdict == ContinueVerdict(old(State()))
      ensures State() == Round.Continue(old(State()))
      ensures Valid()
    {
      if waitingForResp {
        return Ignored;
      }
      RoundProperties.ContinueKeeps(State());
      var rejection: Option<Message> := None;
      if HasEmptyFightingZones(fightingZones) && |deckCards| > 0 {
        rejection := Some(EmptyZonesWithCardsInDeck);
      }
      if NumCardsInFightingZones(fightingZones) == 0 {
        rejection := Some(NoCardsInFightingZone);
      }
      if rejection == None {
        waitingForResp := true;
        StopTimer();
        roundTimes := roundTimes + [secondsElapsed];
        runtime := runtime.(pendingFill := runtime.pendingFill + 1);
        verdict := Accepted;
      } else {
        verdict := Rejected(rejection.value);
      }
    }

    /** The first deferred step of an accepted `continue`. */
    method ResolveStep1()
      requires Valid() && runtime.pendingFill > 0
      modifies this
      ensures State() == Round.ResolveStep1(old(State()))
      ensures Valid()
    {
      OpenStep1();
      AddEnemyCards();
      RoundProperties.Step1Keeps(old(State()));
    }

    /** The start of the first step: no longer waiting for a response, and
        the second step scheduled in place of the first. */
    method OpenStep1()
      requires runtime.pendingFill > 0
      modifies this
      ensures State() == old(State()).(pendingFill := old(runtime.pendingFill) - 1,
        pendingExchange := old(runtime.pendingExchange) + 1, waitingForResp := false)
    {
      runtime := runtime.(pendingFill := runtime.pendingFill - 1, pendingExchange := runtime.pendingExchange + 1);
      waitingForResp := false;
    }

    /** The second deferred step of an accepted `continue`. */
    method ResolveStep2(serveHand: ServeHand, getScore: GetScore)
      requires Valid() && runtime.pendingExchange > 0
      modifies this
      ensures State() == Round.ResolveStep2(old(State()), serveHand, getScore)
      ensures Valid()
    {
      var enemyDamages := FrontDamages(enemyFightingZones);
      TakeDamages(Player, enemyDamages);
      var playerDamages := FrontDamages(fightingZones);
      TakeDamages(Enemy, playerDamages);
      RoundCompleted(serveHand, getScore);
      ResetTimer();
      CloseRound();
      RoundProperties.Step2Keeps(old(State()), serveHand, getScore);
    }

    /** The end of the second step. */
    method CloseRound()
      requires runtime.pendingExchange > 0
      modifies this
      ensures State() == Round.CloseRound(old(State()))
    {
      roundNum := roundNum + 1;
      if NoCardsLeft(deckCards, fightingZones) {
        showLoseModal := true;
      }
      runtime := runtime.(pendingExchange := runtime.pendingExchange - 1);
    }

    /** The fighting zones of one side. */
    function SideZones(side: Side): seq<seq<Card>>
      reads this
    {
      if side == Player then fightingZones else enemyFightingZones
    }

    /** `takeDamages` on the zones of `side`. */
    method TakeDamages(side: Side, damages: seq<Option<int>>)
      modifies this
      ensures State() == Round.TakeDamages(old(State()), side, damages)
    {
      var zones, removals := HitZones(side, runtime.zonesGeneration, SideZones(side), damages);
      StoreZones(side, zones, removals);
    }

    /** The walk of `takeDamages` over `zones`: each occupied zone shifts one
        value off the damage list, and a defined value damages its front
        card, which `cardDied` handles when it dies. The walk works on a
        local copy of the zones, which are the array of the given
        `generation`; it returns them with the removals that `cardDied`
        scheduled. */
    static method HitZones(side: Side, generation: nat, zones0: seq<seq<Card>>, damages: seq<Option<int>>)
      returns (zones: seq<seq<Card>>, removals: seq<Removal>)
      ensures zones == DamagedZones(zones0, damages)
      ensures removals == Removals(side, generation, Deaths(zones0, damages, |zones0|))
    {
      zones := zones0;
      var remaining := damages;
      removals := [];
      ghost var dead: seq<nat> := [];
      var index := 0;
      while index < |zones|
        invariant index <= |zones0|
        invariant (zones, remaining, dead) == DamageWalk(zones0, damages, index)
        invariant removals == Removals(side, generation, dead)
      {
        var cards := zones[index];
        if |cards| > 0 {
          var damage := if remaining == [] then None else remaining[0];
          remaining := if remaining == [] then [] else remaining[1..];
          if damage.Some? {
            var hit := TakeDamage(cards[0], damage.value);
            zones := zones[index := [hit.0] + cards[1..]];
            if !hit.1 {
              var died := CardDied(side, generation, zones, index);
              assert Removals(side, generation, dead + [index]) == removals + [died.1];
              zones := died.0;
              removals := removals + [died.1];
              dead := dead + [index];
            }
          }
        }
        index := index + 1;
      }
      DamageWalkComplete(zones0, damages);
    }

    /** Store back the zones of `side` and the removals scheduled. */
    method StoreZones(side: Side, zones: seq<seq<Card>>, removals: seq<Removal>)
      modifies this
      ensures State() == WithZones(old(State()), side, zones).(pendingRemovals := old(runtime.pendingRemovals) + removals)
    {
      if side == Player {
        fightingZones := zones;
      } else {
        enemyFightingZones := zones;
      }
      runtime := runtime.(pendingRemovals := runtime.pendingRemovals + removals);
    }

    /** `cardDied(zones, zoneIndex)`, with `zones` the array of the given
        `generation`: the zones with the dead front card flagged not added,
        and the removal it schedules on that array. */
    static function CardDied(side: Side, generation: nat, zones: seq<seq<Card>>, zoneIndex: nat): (r: (seq<seq<Card>>, Removal))
      requires zoneIndex < |zones|
      ensures r.0 == zones[zoneIndex := MarkedDead(zones[zoneIndex])]
      ensures r.1 == Removal(side, zoneIndex, generation)
    {
      var removedCard := if zones[zoneIndex] == [] then None else Some(zones[zoneIndex][0]);
      var marked := if removedCard.Some? then zones[zoneIndex := [removedCard.value.(added := false)] + zones[zoneIndex][1..]] else zones;
      (marked, Removal(side, zoneIndex, generation))
    }

    /** `roundCompleted`: score, check for a win, and ask for a refill. */
    method RoundCompleted(serveHand: ServeHand, getScore: GetScore)
      modifies this
      ensures State() == Round.RoundCompleted(old(State()), serveHand, getScore)
    {
      coinsEarned := getScore(ScoredCards(deckCards, fightingZones), roundTimes);
      CheckPlayerWin();
      AddToDeck(serveHand(AvailableSpaceInDeck(deckCards) - NumCardsInFightingZones(fightingZones)));
    }

    /** The deferred removal scheduled by `cardDied`. */
    method FinishDeath(k: nat)
      requires Valid() && k < |runtime.pendingRemovals|
      modifies this
      ensures State() == Round.FinishDeath(old(State()), k)
      ensures Valid()
    {
      var r := runtime.pendingRemovals[k];
      assert r in runtime.pendingRemovals;
      runtime := runtime.(pendingRemovals := runtime.pendingRemovals[..k] + runtime.pendingRemovals[k + 1..]);
      if r.side == Enemy {
        enemyFightingZones := enemyFightingZones[r.zone := Shift(enemyFightingZones[r.zone])];
      } else if r.generation == runtime.zonesGeneration {
        fightingZones := fightingZones[r.zone := Shift(fightingZones[r.zone])];
      }
      RoundProperties.FinishDeathKeeps(old(State()), k);
    }
  }
}
