/** The round engine as transitions on a value. There is one function per
    event the component reacts to: the player's continue and drops, a tick of
    the round timer, a reset, and each deferred callback (the two resolution
    steps, the removal of a dead card, the settling of new cards). The
    deferred callbacks are recorded in the state when they are scheduled and
    consumed when they fire, so every interleaving the event loop allows is
    a sequence of these transitions. */
module Round {
  import opened Wrappers
  import opened Cards
  import opened Zones
  import opened DragDrop

  /** Seconds on the clock at the start of each round. */
  const RoundSeconds: int := 30
  /** `secondsElapsed` before the first reset. */
  const InitialSeconds: int := 90
  /** `coinsEarned` before the first round is scored. */
  const InitialCoins: int := 100

  /** The card supplier's `serveHand(n)`. */
  type ServeHand = int -> seq<Card>
  /** The scorer's `getScore(cards, roundTimes)`; `None` stands for the
      `undefined` front of an empty zone. */
  type GetScore = (seq<Option<Card>>, seq<int>) -> int

  datatype Side = Player | Enemy

  /** A scheduled `zones[zone].shift()` after a death. `generation` identifies
      the player zone array it was scheduled on: `reset` replaces that array,
      so a removal scheduled before a reset shifts an array nobody sees. */
  datatype Removal = Removal(side: Side, zone: nat, generation: nat)

  /** The two validation messages of `continue`. */
  datatype Message = EmptyZonesWithCardsInDeck | NoCardsInFightingZone

  /** What `continue` does: return at once because a round is resolving,
      refuse with a message, or start the next round. */
  datatype Verdict = Ignored | Rejected(message: Message) | Accepted

  /** A list the player drags cards between. */
  datatype Container = Deck | FightingZone(index: nat)

  /** The component's fields, plus the callbacks the event loop holds:
      `timerRunning` and `nextTick` are the timer subscription and the value
      its next emission carries; the `pending` fields count or list the
      `setTimeout` callbacks scheduled and not yet run. */
  datatype GameState = GameState(
    deckCards: seq<Card>,
    fightingZones: seq<seq<Card>>,
    enemyCards: seq<Card>,
    enemyFightingZones: seq<seq<Card>>,
    roundNum: int,
    secondsElapsed: int,
    roundTimes: seq<int>,
    coinsEarned: int,
    waitingForResp: bool,
    showWinModal: bool,
    showLoseModal: bool,
    timerRunning: bool,
    nextTick: nat,
    zonesGeneration: nat,
    pendingFill: nat,
    pendingExchange: nat,
    pendingRemovals: seq<Removal>,
    pendingDeckSettles: nat,
    pendingEnemySettles: seq<nat>)

  /** Both sides have their two zones, and every scheduled callback names
      one of them. */
  predicate WellFormed(s: GameState) {
    |s.fightingZones| == NumZones && |s.enemyFightingZones| == NumZones &&
    (forall r :: r in s.pendingRemovals ==> r.zone < NumZones) &&
    (forall z :: z in s.pendingEnemySettles ==> z < NumZones)
  }

  /** The state the component's constructor builds, with `roster` as the
      enemy roster. */
  function Initial(roster: seq<Card>): GameState {
    GameState([], [[], []], roster, [[], []], 1, InitialSeconds, [], InitialCoins,
              false, false, false, false, 0, 0, 0, 0, [], 0, [])
  }

  function ZonesOf(s: GameState, side: Side): seq<seq<Card>> {
    if side == Player then s.fightingZones else s.enemyFightingZones
  }

  function WithZones(s: GameState, side: Side, zones: seq<seq<Card>>): GameState {
    if side == Player then s.(fightingZones := zones) else s.(enemyFightingZones := zones)
  }

  // ---------------------------------------------------------------------
  // Timer

  function StopTimer(s: GameState): GameState {
    s.(timerRunning := false)
  }

  /** `resetTimer`: a fresh subscription whose first emission carries 0, and
      the clock back at thirty seconds. */
  function ResetTimer(s: GameState): GameState {
    s.(timerRunning := true, nextTick := 0, secondsElapsed := RoundSeconds)
  }

  /** One emission of the timer, carrying `nextTick`: the clock shows
      `30 - (val + 1)`, and at or below zero it shows 0 and the game is lost. */
  function Tick(s: GameState): GameState
    requires s.timerRunning
  {
    var seconds := RoundSeconds - (s.nextTick + 1);
    var s1 := s.(nextTick := s.nextTick + 1, secondsElapsed := seconds);
    if seconds <= 0 then s1.(secondsElapsed := 0, showLoseModal := true) else s1
  }

  // ---------------------------------------------------------------------
  // Deck

  /** `addToDeck`: append, and schedule the settle callback. */
  function AddToDeck(s: GameState, cards: seq<Card>): GameState {
    s.(deckCards := s.deckCards + cards, pendingDeckSettles := s.pendingDeckSettles + 1)
  }

  function Settled(cards: seq<Card>): seq<Card> {
    seq(|cards|, i requires 0 <= i < |cards| => cards[i].(added := true))
  }

  /** The settle callback of `addToDeck`: every card in the deck AT THAT
      MOMENT is marked added. */
  function SettleDeck(s: GameState): GameState
    requires s.pendingDeckSettles > 0
  {
    s.(deckCards := Settled(s.deckCards), pendingDeckSettles := s.pendingDeckSettles - 1)
  }

  /** `reset`: a fresh hand of four, empty player zones (a new array), round
      1, a restarted timer, no round times and no outcome. The enemy side,
      `waitingForResp`, `coinsEarned` and the callbacks already scheduled are
      left as they are. */
  function Reset(s: GameState, serveHand: ServeHand): GameState {
    var s1 := AddToDeck(s.(deckCards := []), serveHand(DeckCapacity));
    var s2 := s1.(fightingZones := [[], []], zonesGeneration := s.zonesGeneration + 1, roundNum := 1);
    ResetTimer(s2).(roundTimes := [], showLoseModal := false, showWinModal := false)
  }

  // ---------------------------------------------------------------------
  // Dragging cards

  predicate ValidContainer(s: GameState, c: Container) {
    c.FightingZone? ==> c.index < |s.fightingZones|
  }

  function ListOf(s: GameState, c: Container): seq<Card>
    requires ValidContainer(s, c)
  {
    if c.Deck? then s.deckCards else s.fightingZones[c.index]
  }

  function WithList(s: GameState, c: Container, cards: seq<Card>): GameState
    requires ValidContainer(s, c)
  {
    if c.Deck? then s.(deckCards := cards) else s.(fightingZones := s.fightingZones[c.index := cards])
  }

  function Transfer(s: GameState, from: Container, to: Container, previousIndex: int, currentIndex: int): GameState
    requires ValidContainer(s, from) && ValidContainer(s, to) && from != to
  {
    var moved := TransferArrayItem(ListOf(s, from), ListOf(s, to), previousIndex, currentIndex);
    WithList(WithList(s, from, moved.0), to, moved.1)
  }

  /** `dropCard`: reorder within one list; otherwise move the card across,
      except that a drop with a positive `targetNumber` (a fighting zone)
      happens only when the target list is empty. */
  function DropCard(s: GameState, from: Container, to: Container,
                    previousIndex: int, currentIndex: int, targetNumber: int): GameState
    requires ValidContainer(s, from) && ValidContainer(s, to)
  {
    if from == to then WithList(s, to, MoveItemInArray(ListOf(s, to), previousIndex, currentIndex))
    else if targetNumber > 0 then
      if |ListOf(s, to)| == 0 then Transfer(s, from, to, previousIndex, currentIndex) else s
    else Transfer(s, from, to, previousIndex, currentIndex)
  }

  // ---------------------------------------------------------------------
  // continue

  /** The validation of `continue`. Both checks run; when both fail, the
      second message (no cards in a fighting zone) is the one kept. */
  function ContinueVerdict(s: GameState): Verdict {
    if s.waitingForResp then Ignored
    else
      var emptyWithCardsLeft := HasEmptyFightingZones(s.fightingZones) && |s.deckCards| > 0;
      var noCards := NumCardsInFightingZones(s.fightingZones) == 0;
      if noCards then Rejected(NoCardsInFightingZone)
      else if emptyWithCardsLeft then Rejected(EmptyZonesWithCardsInDeck)
      else Accepted
  }

  /** `continue`: when accepted, block further continues, stop the timer,
      record the seconds on the clock and schedule the first resolution
      step; otherwise nothing changes. */
  function Continue(s: GameState): GameState {
    if ContinueVerdict(s) == Accepted then
      StopTimer(s.(waitingForResp := true)).(
        roundTimes := s.roundTimes + [s.secondsElapsed],
        pendingFill := s.pendingFill + 1)
    else s
  }

  // ---------------------------------------------------------------------
  // Resolution step 1

  /** `addEnemyCards`; each filled zone's settle callback is scheduled. */
  function AddEnemyCards(s: GameState): GameState {
    s.(enemyFightingZones := FilledZones(s.enemyFightingZones, s.enemyCards),
       enemyCards := RosterAfterFill(s.enemyFightingZones, s.enemyCards),
       pendingEnemySettles := s.pendingEnemySettles + FilledIndices(s.enemyFightingZones, s.enemyCards))
  }

  /** The first deferred step of `continue`: `waitingForResp` is cleared
      BEFORE any damage, the enemy zones are refilled and the second step is
      scheduled. */
  function ResolveStep1(s: GameState): GameState
    requires s.pendingFill > 0
  {
    AddEnemyCards(s.(pendingFill := s.pendingFill - 1, pendingExchange := s.pendingExchange + 1,
                     waitingForResp := false))
  }

  /** The settle callback of `addEnemyCards` for the card put in `zone`. */
  function SettleEnemyCard(s: GameState, k: nat): GameState
    requires k < |s.pendingEnemySettles| && WellFormed(s)
  {
    var z := s.pendingEnemySettles[k];
    assert z in s.pendingEnemySettles;
    var zone := s.enemyFightingZones[z];
    var settled := if zone == [] then zone else [zone[0].(added := true)] + zone[1..];
    s.(enemyFightingZones := s.enemyFightingZones[z := settled],
       pendingEnemySettles := s.pendingEnemySettles[..k] + s.pendingEnemySettles[k + 1..])
  }

  // ---------------------------------------------------------------------
  // Resolution step 2

  function Removals(side: Side, generation: nat, zones: seq<nat>): seq<Removal> {
    seq(|zones|, k requires 0 <= k < |zones| => Removal(side, zones[k], generation))
  }

  /** `takeDamages` on one side's zones. */
  function TakeDamages(s: GameState, side: Side, damages: seq<Option<int>>): GameState {
    var zones := ZonesOf(s, side);
    WithZones(s, side, DamagedZones(zones, damages)).(
      pendingRemovals := s.pendingRemovals + Removals(side, s.zonesGeneration, Deaths(zones, damages, |zones|)))
  }

  /** `checkPlayerWin`: sets the win flag, never clears it. */
  function CheckPlayerWin(s: GameState): GameState {
    if EnemyCleared(s.enemyCards, s.enemyFightingZones) then s.(showWinModal := true) else s
  }

  /** The cards handed to the scorer: the deck, then each zone's front. */
  function ScoredCards(deck: seq<Card>, zones: seq<seq<Card>>): seq<Option<Card>> {
    seq(|deck|, i requires 0 <= i < |deck| => Some(deck[i])) +
    seq(|zones|, i requires 0 <= i < |zones| => if zones[i] == [] then None else Some(zones[i][0]))
  }

  /** `roundCompleted`: score, check for a win, and request the refill. */
  function RoundCompleted(s: GameState, serveHand: ServeHand, getScore: GetScore): GameState {
    var s1 := s.(coinsEarned := getScore(ScoredCards(s.deckCards, s.fightingZones), s.roundTimes));
    var s2 := CheckPlayerWin(s1);
    AddToDeck(s2, serveHand(RefillRequest(s2.deckCards, s2.fightingZones)))
  }

  /** The second deferred step of `continue`: the enemy's front damages are
      read, the player's zones are hit, THEN the player's front damages are
      read (dead cards are still in place) and the enemy's zones are hit;
      the round is completed, the timer restarted, the round number
      increased, and the game is lost if the player has no cards left. */
  function ResolveStep2(s: GameState, serveHand: ServeHand, getScore: GetScore): GameState
    requires s.pendingExchange > 0
  {
    var s1 := TakeDamages(s, Player, FrontDamages(s.enemyFightingZones));
    var s2 := TakeDamages(s1, Enemy, FrontDamages(s1.fightingZones));
    CloseRound(ResetTimer(RoundCompleted(s2, serveHand, getScore)))
  }

  /** The end of the second step: the round number goes up, the game is lost
      if the player has no cards left, and the step is no longer pending. */
  function CloseRound(s: GameState): GameState
    requires s.pendingExchange > 0
  {
    var s1 := s.(roundNum := s.roundNum + 1);
    var s2 := if NoCardsLeft(s1.deckCards, s1.fightingZones) then s1.(showLoseModal := true) else s1;
    s2.(pendingExchange := s2.pendingExchange - 1)
  }

  // ---------------------------------------------------------------------
  // Removal of a dead card

  function Shift(zone: seq<Card>): seq<Card> {
    if zone == [] then zone else zone[1..]
  }

  /** The deferred `zones[zone].shift()` of `cardDied`: whatever card is at
      the front of that zone when it fires goes. A player removal scheduled
      before the last reset acts on the replaced array. */
  function FinishDeath(s: GameState, k: nat): GameState
    requires k < |s.pendingRemovals| && WellFormed(s)
  {
    var r := s.pendingRemovals[k];
    var s1 := s.(pendingRemovals := s.pendingRemovals[..k] + s.pendingRemovals[k + 1..]);
    if r.side == Enemy then
      s1.(enemyFightingZones := s.enemyFightingZones[r.zone := Shift(s.enemyFightingZones[r.zone])])
    else if r.generation == s.zonesGeneration then
      s1.(fightingZones := s.fightingZones[r.zone := Shift(s.fightingZones[r.zone])])
    else s1
  }

  // ---------------------------------------------------------------------
  // All events

  datatype Event =
    | ContinueClicked
    | CardDropped(from: Container, to: Container, previousIndex: int, currentIndex: int, targetNumber: int)
    | TimerTicked
    | ResetRequested(serveHand: ServeHand)
    | Step1Fired
    | Step2Fired(serveHand2: ServeHand, getScore: GetScore)
    | RemovalFired(removal: nat)
    | DeckSettleFired
    | EnemySettleFired(settle: nat)

  /** Whether the event can happen: a callback runs only if it is scheduled,
      the timer emits only while subscribed, a drop names existing lists. */
  predicate Enabled(s: GameState, e: Event) {
    match e
    case ContinueClicked => true
    case CardDropped(from, to, _, _, _) => ValidContainer(s, from) && ValidContainer(s, to)
    case TimerTicked => s.timerRunning
    case ResetRequested(_) => true
    case Step1Fired => s.pendingFill > 0
    case Step2Fired(_, _) => s.pendingExchange > 0
    case RemovalFired(k) => k < |s.pendingRemovals|
    case DeckSettleFired => s.pendingDeckSettles > 0
    case EnemySettleFired(k) => k < |s.pendingEnemySettles|
  }

  function Next(s: GameState, e: Event): GameState
    requires WellFormed(s) && Enabled(s, e)
  {
    match e
    case ContinueClicked => Continue(s)
    case CardDropped(from, to, p, c, t) => DropCard(s, from, to, p, c, t)
    case TimerTicked => Tick(s)
    case ResetRequested(serveHand) => Reset(s, serveHand)
    case Step1Fired => ResolveStep1(s)
    case Step2Fired(serveHand, getScore) => ResolveStep2(s, serveHand, getScore)
    case RemovalFired(k) => FinishDeath(s, k)
    case DeckSettleFired => SettleDeck(s)
    case EnemySettleFired(k) => SettleEnemyCard(s, k)
  }
}
