# Round engine of the card battle screen

This project models the round engine of the card battle in
`GaemComponent`:
- the player's deck and two fighting zones;
- the enemy roster and two enemy zones;
- the round number, the countdown and the recorded round times;
- the `waitingForResp` re-entrancy flag;
- the win and lose flags.

It also models the operations that change them:
- `reset`;
- the timer and each of its ticks;
- `addToDeck`;
- `dropCard`;
- `continue` and its two deferred resolution steps, with `addEnemyCards`,
  `takeDamages`, `cardDied`, `roundCompleted` and `checkPlayerWin`;
- the deferred removal of a dead card;
- the deferred callbacks that settle new cards.

The model has four layers:
- `Zones` holds the component's pure queries: `numCardsInFightingZones`,
  `hasEmptyFightingZones`, `availableSpaceInDeck`, `noCardsLeft` and the
  win condition. It also holds the value-level meaning of the two loops that
  fill and damage zones. Each loop is described twice: as the step-by-step
  walk the code performs, and in closed form. A lemma proves that the two
  agree.
- `Round` describes the whole engine as transitions on a value `GameState`,
  one function per event. The `setTimeout` callbacks and the timer
  subscription are recorded in the state when they are scheduled and consumed
  when they fire. So every interleaving of the event loop is a sequence of
  `Round.Next` steps.
- `RoundProperties` proves what the engine guarantees about those
  transitions.
- `Gaem.GaemComponent` is the component as a class. It has the source's
  fields, and its methods update them in place. Each method is proved to leave
  the fields exactly as the `Round` transition of the same event says, so
  everything proved in `RoundProperties` holds of the class. The event
  methods also keep the class invariant `Valid()`, which the constructor
  establishes.

`serveHand` (the card supplier) and `getScore` (the scorer) are function
parameters. The enemy roster that the constructor seeds is a constructor
parameter.

The model follows the code as written, including these behaviours:
- The refill request after a round is not clamped. It is passed to the
  supplier even when it is zero or negative.
- The deck's capacity of four is not enforced. The supplier may serve more
  than it was asked for, and a card killed in a round can be dragged back to
  a full deck before its removal. So no bound on the deck's size is claimed.
- Damage is not aligned by zone position. `takeDamages` shifts one value
  off the damage list per occupied zone, so when zone 0 is empty, zone 1
  receives the value meant for zone 0.
- A card killed in a round stays in its zone, flagged not added, until its
  deferred removal. It still deals its damage in that round's exchange, and
  its zone still counts as occupied for the win check.
- `reset` cancels neither the scheduled callbacks nor a resolution in
  flight, and it leaves `waitingForResp` as it is. A removal scheduled before
  a reset shifts the replaced player zone array, which is no longer shown.
- `waitingForResp` is cleared at the start of the first deferred step, so
  a second `continue` can be accepted before the first round's damage is
  dealt.
- The timer is restarted after every round, whatever the outcome. Every tick
  at or past zero sets the lose flag again.
- The scorer receives every deck card, settled or not.

## Model

| member | source | states |
|---|---|---|
| `Cards.IsAlive` | webapp/src/app/components/gaem/gaem.component.ts:189 | The `isAlive()` of the card interface: health is positive. `TakeDamage` reports exactly this of the damaged card. |
| `Cards.TakeDamage` | webapp/src/app/components/gaem/gaem.component.ts:284 | The card interface the engine relies on: a card is reported alive exactly when its new health is positive. Only health changes, never below 0, and damage at least the card's health kills it. |
| `DragDrop.MoveItemInArray` | webapp/src/app/components/gaem/gaem.component.ts:143-148 | Reordering within one list keeps its size and its multiset of cards. The moved card lands at the clamped target index, and removing it from both lists gives the same list, so the other cards keep their order. |
| `DragDrop.TransferArrayItem` | webapp/src/app/components/gaem/gaem.component.ts:149-166 | A transfer keeps the multiset of the two lists together. An empty source changes nothing. Otherwise the source loses exactly its card at the clamped index, and the target gains exactly that card at the clamped index. |
| `Zones.IndicesWhereFacts` | webapp/src/app/components/gaem/gaem.component.ts:187-191 | A zone `filter` keeps exactly the satisfying zones, in increasing order. A kept zone's position in the result is the number of satisfying zones before it. |
| `Zones.IndicesWhereCount` | webapp/src/app/components/gaem/gaem.component.ts:187-191 | A zone `filter` keeps every zone iff all satisfy the test, and keeps none iff none does. |
| `Zones.ZoneCount` | webapp/src/app/components/gaem/gaem.component.ts:180-191 | `numCardsInFightingZones` is between 0 and the number of zones. It is full iff every zone is non-empty with an alive, added front card, and 0 iff no zone is. `hasEmptyFightingZones` holds iff some zone is empty, dead or unsettled. |
| `Zones.AvailableSpaceInDeck` | webapp/src/app/components/gaem/gaem.component.ts:193-195 | The free space is at most 4, equals 4 iff the deck is empty, and is not negative for a deck of at most four. |
| `Zones.NoCardsLeftMeaning` | webapp/src/app/components/gaem/gaem.component.ts:307-311 | `noCardsLeft` holds iff the deck is empty and no zone holds an alive, added card. |
| `Zones.EnemyClearedMeaning` | webapp/src/app/components/gaem/gaem.component.ts:214-218 | The win condition holds iff the roster is empty and every enemy zone is empty, whatever the health of cards still in the zones. |
| `Zones.RefillRequestMeaning` | webapp/src/app/components/gaem/gaem.component.ts:300-304 | The refill request is at most 4, and at least minus the number of zones when the deck holds at most four cards. It is negative for a full deck beside a ready zone. A supplier serving exactly its non-negative part brings deck plus ready zones up to four. |
| `Zones.FillWalkPrefix` | webapp/src/app/components/gaem/gaem.component.ts:197-212 | After `i` steps, the `addEnemyCards` walk has filled the first `i` zones as the closed form says and left the others alone. It has taken one roster card per empty zone seen while the roster lasted, and recorded those zones in order. |
| `Zones.FillWalkComplete` | webapp/src/app/components/gaem/gaem.component.ts:197-212 | The whole `addEnemyCards` walk yields exactly the filled zones, the roster left and the filled zone indices of the closed form. |
| `Zones.FillFifo` | webapp/src/app/components/gaem/gaem.component.ts:197-212 | The roster is consumed first in, first out. The k-th empty zone, in zone order, receives roster card k while the roster lasts, and stays empty after. Occupied zones are untouched, and if no zone held two cards, none does after. |
| `Zones.FillCount` | webapp/src/app/components/gaem/gaem.component.ts:197-212 | The roster shrinks by exactly the number of zones filled. The zones that change are exactly the filled ones. |
| `Zones.DamageWalkPrefix` | webapp/src/app/components/gaem/gaem.component.ts:279-291 | After `i` steps, the `takeDamages` walk has damaged the first `i` zones as the closed form says and left the others alone. It has consumed one damage value per occupied zone seen, and recorded exactly the deaths among those zones. |
| `Zones.DamageWalkComplete` | webapp/src/app/components/gaem/gaem.component.ts:279-291 | The whole `takeDamages` walk yields exactly the damaged zones and the deaths of the closed form. |
| `Zones.DamageConsumedInZoneOrder` | webapp/src/app/components/gaem/gaem.component.ts:280-283 | Damages are consumed from the front of the list, one per occupied zone in zone order. The k-th occupied zone receives value k, or `undefined` when the list is exhausted, and empty zones receive nothing. |
| `Zones.DamageAlignedWhenAllOccupied` | webapp/src/app/components/gaem/gaem.component.ts:280-283 | When every zone is occupied, zone i receives damage value i. |
| `Zones.DamageShiftsPastEmptyZone` | webapp/src/app/components/gaem/gaem.component.ts:280-283 | An empty zone receives nothing, and the occupied zone right after it receives the value the empty zone would have received: one at a position below its own index. With zone 0 empty and zone 1 occupied, zone 1 receives the first value, not the second. |
| `Zones.DamageFacts` | webapp/src/app/components/gaem/gaem.component.ts:279-291 | Damage changes no zone's size and touches only front cards. An `undefined` damage changes nothing. A dying card is flagged not added and stays in its zone. Other cards keep their flag, every front card still deals the damage it dealt before, and no zone comes to hold two cards. |
| `Zones.NumCardsInFightingZones` | webapp/src/app/components/gaem/gaem.component.ts:187-191 | Counts the zones whose front card is alive and added; its meaning is stated by `ZoneCount`. |
| `Zones.HasEmptyFightingZones` | webapp/src/app/components/gaem/gaem.component.ts:180-185 | Whether that count differs from the number of zones; its meaning is stated by `ZoneCount`. |
| `Zones.NoCardsLeft` | webapp/src/app/components/gaem/gaem.component.ts:307-311 | A full free deck and no counted zone; its meaning is stated by `NoCardsLeftMeaning`. |
| `Zones.EnemyCleared` | webapp/src/app/components/gaem/gaem.component.ts:214-218 | The test of `checkPlayerWin`; its meaning is stated by `EnemyClearedMeaning`. |
| `Zones.RefillRequest` | webapp/src/app/components/gaem/gaem.component.ts:300-304 | Free deck space minus counted zones, unclamped; its range and effect are stated by `RefillRequestMeaning`. |
| `Zones.FilledZones` | webapp/src/app/components/gaem/gaem.component.ts:197-212 | The closed form of `addEnemyCards`: each empty zone takes the roster card at its position among the empty zones; stated by `FillFifo`, `FillCount`, and tied to the loop by `FillWalkComplete`. |
| `Zones.DamagedZones` | webapp/src/app/components/gaem/gaem.component.ts:279-291 | The closed form of `takeDamages` on one side; stated by `DamageFacts` and `DamageConsumedInZoneOrder`, and tied to the loop by `DamageWalkComplete`. |
| `Zones.FrontDamages` | webapp/src/app/components/gaem/gaem.component.ts:258-264 | `zone[0]?.meta.damage` for each zone, `undefined` for an empty one; `DamageFacts` proves damage leaves it unchanged. |
| `Round.ContinueVerdict` | webapp/src/app/components/gaem/gaem.component.ts:224-241 | The guard and the two validation checks of `continue`; stated by `ContinueVerdictMeaning`. |
| `Round.Continue` | webapp/src/app/components/gaem/gaem.component.ts:224-249 | `continue` as a transition; stated by `ContinueEffect`. |
| `Round.Tick` | webapp/src/app/components/gaem/gaem.component.ts:117-125 | One timer emission; stated by `TickEffect`. |
| `Round.StopTimer` | webapp/src/app/components/gaem/gaem.component.ts:106-110 | Ends the subscription only; the class row `Gaem.GaemComponent.StopTimer` follows it. |
| `Round.ResetTimer` | webapp/src/app/components/gaem/gaem.component.ts:112-117 | A new subscription whose next emission carries 0, with thirty seconds shown; `Step2AdvancesRound` and `ResetEffect` state it for the steps that call it. |
| `Round.AddToDeck` | webapp/src/app/components/gaem/gaem.component.ts:128-136 | Appends the cards and schedules one settle; `ResetEffect` and `LossAfterRefill` state what the deck becomes. |
| `Round.ScoredCards` | webapp/src/app/components/gaem/gaem.component.ts:294-296 | The scorer's argument: every deck card, settled or not, then each zone's front card, or `undefined` for an empty zone. |
| `Round.Enabled` | webapp/src/app/components/gaem/gaem.component.ts:92-323 | When each event can happen: a callback only while scheduled, a timer emission only while subscribed, a drop only between existing lists; user clicks and `reset` at any time. `EventInvariants` quantifies over it. |
| `Round.Next` | webapp/src/app/components/gaem/gaem.component.ts:92-323 | The component's event loop: each enabled event applies its transition, so every interleaving of clicks, drops, timer emissions and `setTimeout` callbacks is a sequence of `Next` steps; `EventInvariants` states what every step keeps. |
| `Round.Reset` | webapp/src/app/components/gaem/gaem.component.ts:92-104 | `reset`; stated by `ResetEffect` and `ResetKeeps`. |
| `Round.DropCard` | webapp/src/app/components/gaem/gaem.component.ts:142-170 | `dropCard`; stated by `DropConservesCards`, `DropOntoZone`, `DropLists` and `DropWellFormed`. |
| `Round.SettleDeck` | webapp/src/app/components/gaem/gaem.component.ts:131-135 | The deck settle callback; stated by `SettleDeckKeeps`. |
| `Round.AddEnemyCards` | webapp/src/app/components/gaem/gaem.component.ts:197-212 | `addEnemyCards` on the closed form `FilledZones`, with one settle per filled zone; stated by `FillFifo` and `FillCount`. |
| `Round.SettleEnemyCard` | webapp/src/app/components/gaem/gaem.component.ts:206-208 | The enemy settle callback; stated by `EnemySettleKeeps`. |
| `Round.ResolveStep1` | webapp/src/app/components/gaem/gaem.component.ts:251-255 | The first deferred step; stated by `SecondContinueAcceptedBetweenSteps` and `Step1Keeps`. |
| `Round.TakeDamages` | webapp/src/app/components/gaem/gaem.component.ts:279-291 | `takeDamages` on one side, with one removal per death; stated by `DamageFacts` and `TakeDamagesKeeps`. |
| `Round.CheckPlayerWin` | webapp/src/app/components/gaem/gaem.component.ts:214-222 | `checkPlayerWin`; stated by `EnemyClearedMeaning` and `WinDecidedBeforeExchange`. |
| `Round.RoundCompleted` | webapp/src/app/components/gaem/gaem.component.ts:293-305 | `roundCompleted`; stated by `LossAfterRefill` and `RoundCompletedKeeps`. |
| `Round.ResolveStep2` | webapp/src/app/components/gaem/gaem.component.ts:257-273 | The second deferred step; stated by `ExchangeUsesPreExchangeDamage`, `WinDecidedBeforeExchange`, `LossAfterRefill`, `Step2AdvancesRound` and `Step2Keeps`. |
| `Round.FinishDeath` | webapp/src/app/components/gaem/gaem.component.ts:320-322 | The deferred removal of a dead card; stated by `FinishDeathKeeps`. |
| `RoundProperties.ContinueVerdictMeaning` | webapp/src/app/components/gaem/gaem.component.ts:224-241 | `continue` is ignored iff a round is resolving. It is refused with "No cards in fighting zone!" iff no zone is ready, even when the other check also fails. It is refused with the empty-zones message iff some zones are ready, some are not and the deck has cards. Otherwise it is accepted. |
| `RoundProperties.ContinueEffect` | webapp/src/app/components/gaem/gaem.component.ts:224-249 | A `continue` that is not accepted changes nothing. An accepted one sets `waitingForResp`, stops the timer, appends exactly the current `secondsElapsed` to `roundTimes`, schedules step 1, and changes nothing else. |
| `RoundProperties.SecondContinueAcceptedBetweenSteps` | webapp/src/app/components/gaem/gaem.component.ts:251-255 | After an accepted `continue` and its first step, before any damage, a second `continue` is accepted again. |
| `RoundProperties.AcceptedRoundAdvances` | webapp/src/app/components/gaem/gaem.component.ts:246-269 | An accepted `continue` followed by both steps adds exactly one round time, the seconds shown when it was accepted. It raises the round number by exactly one and leaves no step pending that was not pending before. |
| `RoundProperties.TickEffect` | webapp/src/app/components/gaem/gaem.component.ts:117-125 | A tick carrying `val` shows `30 - (val + 1)` seconds, clamped below at 0. The lose flag is set iff it was set or the clock reached 0, and nothing else changes. |
| `RoundProperties.ExchangeUsesPreExchangeDamage` | webapp/src/app/components/gaem/gaem.component.ts:257-265 | After step 2, each side's zones are its original zones damaged by the other side's front damages from BEFORE the exchange. |
| `RoundProperties.DamageKeepsEnemyCleared` | webapp/src/app/components/gaem/gaem.component.ts:279-291 | Damage never changes which zones are empty, so it never changes the win condition. |
| `RoundProperties.WinDecidedBeforeExchange` | webapp/src/app/components/gaem/gaem.component.ts:257-266 | Step 2 sets the win flag iff it was set or the enemy was already cleared before the exchange. The kills of that round cannot win it. |
| `RoundProperties.LossAfterRefill` | webapp/src/app/components/gaem/gaem.component.ts:266-273 | Step 2 appends to the deck exactly what the supplier serves for the unclamped request. It sets the lose flag iff it was set or no cards are left after the refill, which needs an empty deck before and an empty serving. |
| `RoundProperties.Step2AdvancesRound` | webapp/src/app/components/gaem/gaem.component.ts:257-273 | Step 2 raises the round number by one and restarts the timer at thirty seconds with a fresh tick count. It leaves the round times and `waitingForResp` as they are and consumes itself. |
| `RoundProperties.ResetEffect` | webapp/src/app/components/gaem/gaem.component.ts:92-104 | `reset` gives round 1, a restarted thirty-second clock, two empty player zones (a new array) and the supplier's hand for 4. Round times are empty and both flags clear. The enemy side, `waitingForResp` and the coins are unchanged, and every callback already scheduled is kept, so a resolution in flight still runs. The new hand's settle callback is added. |
| `RoundProperties.ResetKeeps` | webapp/src/app/components/gaem/gaem.component.ts:92-104 | `reset` keeps the state well-formed, and no player zone holds two cards after it. |
| `RoundProperties.DropConservesCards` | webapp/src/app/components/gaem/gaem.component.ts:142-170 | Every drop keeps the multiset of cards held in the deck and the player zones together. |
| `RoundProperties.DropOntoZone` | webapp/src/app/components/gaem/gaem.component.ts:149-159 | A cross-list drop with a positive `targetNumber` onto an occupied list does nothing. Onto an empty list from a non-empty one, it leaves exactly one card there. No drop touches anything but the deck and the player zones. |
| `RoundProperties.DropLists` | webapp/src/app/components/gaem/gaem.component.ts:142-170 | A drop changes only the two lists it names. A reorder keeps the list's size, a transfer never grows the source, and a cross-list drop with a positive `targetNumber` leaves at most one card in the target or changes nothing. |
| `RoundProperties.DropWellFormed` | webapp/src/app/components/gaem/gaem.component.ts:142-170 | Every drop, whatever its `targetNumber`, keeps the state well-formed. |
| `RoundProperties.DropKeeps` | webapp/src/app/components/gaem/gaem.component.ts:142-170 | When every drop onto a zone carries a positive `targetNumber`, a drop keeps the state well-formed and never lets a zone hold two cards. |
| `RoundProperties.Step1Keeps` | webapp/src/app/components/gaem/gaem.component.ts:251-255 | Step 1 keeps the state well-formed, schedules settles only for existing zones, keeps at most one card per zone, and changes neither round times nor round number. |
| `RoundProperties.TakeDamagesKeeps` | webapp/src/app/components/gaem/gaem.component.ts:279-291 | `takeDamages` keeps the state well-formed, schedules removals only for existing zones, and keeps at most one card per zone. |
| `RoundProperties.RoundCompletedKeeps` | webapp/src/app/components/gaem/gaem.component.ts:293-305 | `roundCompleted` keeps the state well-formed, never clears a raised flag, never lets a zone hold two cards, and leaves the round times, the round number and the pending step 2 alone. |
| `RoundProperties.Step2Keeps` | webapp/src/app/components/gaem/gaem.component.ts:257-273 | Step 2 keeps the state well-formed, never clears a raised flag, and keeps at most one card per zone. It raises the round number by exactly one. |
| `RoundProperties.FinishDeathKeeps` | webapp/src/app/components/gaem/gaem.component.ts:320-322 | The deferred removal keeps the state well-formed and keeps at most one card per zone. |
| `RoundProperties.EnemySettleKeeps` | webapp/src/app/components/gaem/gaem.component.ts:206-208 | Settling an enemy card keeps the state well-formed. |
| `RoundProperties.EventInvariants` | webapp/src/app/components/gaem/gaem.component.ts:224-323 | Every event but `reset` keeps the state well-formed and keeps a raised outcome flag raised. It never lets a zone hold two cards, assuming every drop onto a fighting zone passes a positive `targetNumber` (see Left out). Round times grow by exactly one entry, the seconds shown, per accepted `continue`, and the round number by exactly one per completed step 2. |
| `Gaem.GaemComponent.constructor` | webapp/src/app/components/gaem/gaem.component.ts:46-90 | The initial fields: empty deck, two empty zones on each side, round 1, 90 seconds, 100 coins, the given roster, nothing waiting or shown, no timer and nothing scheduled. The state is well-formed. |
| `Gaem.GaemComponent.Reset` | webapp/src/app/components/gaem/gaem.component.ts:92-104 | The fields after `reset` are exactly `Round.Reset` of the fields before; see `ResetEffect`. Given the class invariant `Valid()` (well-formed state), it keeps it. |
| `Gaem.GaemComponent.StopTimer` | webapp/src/app/components/gaem/gaem.component.ts:106-110 | Only the subscription ends. |
| `Gaem.GaemComponent.ResetTimer` | webapp/src/app/components/gaem/gaem.component.ts:112-117 | A new subscription whose next emission carries 0, with thirty seconds on the clock; nothing else changes. |
| `Gaem.GaemComponent.Tick` | webapp/src/app/components/gaem/gaem.component.ts:117-125 | One emission changes the fields exactly as `Round.Tick` says; see `TickEffect`. Given the class invariant `Valid()` (well-formed state), it keeps it. |
| `Gaem.GaemComponent.AddToDeck` | webapp/src/app/components/gaem/gaem.component.ts:128-136 | The cards are appended to the deck and one settle callback is scheduled. |
| `Gaem.GaemComponent.SettleDeck` | webapp/src/app/components/gaem/gaem.component.ts:131-135 | Every card in the deck at the moment the callback fires is marked added. Given the class invariant `Valid()` (well-formed state), it keeps it. |
| `Gaem.GaemComponent.DropCard` | webapp/src/app/components/gaem/gaem.component.ts:142-170 | A drop changes the fields exactly as `Round.DropCard` says; see `DropConservesCards` and `DropOntoZone`. Given the class invariant `Valid()` (well-formed state), it keeps it. |
| `Gaem.GaemComponent.AddEnemyCards` | webapp/src/app/components/gaem/gaem.component.ts:197-212 | The loop leaves the enemy zones and roster exactly as the closed form in `Round.AddEnemyCards` says, and schedules one settle per filled zone; see `FillFifo` and `FillCount`. |
| `Gaem.GaemComponent.SettleEnemyCard` | webapp/src/app/components/gaem/gaem.component.ts:206-208 | The settle callback marks the front card of its zone added and consumes itself. Given the class invariant `Valid()` (well-formed state), it keeps it. |
| `Gaem.GaemComponent.CheckPlayerWin` | webapp/src/app/components/gaem/gaem.component.ts:214-222 | The win flag is set when the enemy is cleared and is otherwise left as it is; see `EnemyClearedMeaning`. |
| `Gaem.GaemComponent.Continue` | webapp/src/app/components/gaem/gaem.component.ts:224-249 | The verdict returned is `Round.ContinueVerdict` of the state, and the fields change as `Round.Continue` says; see `ContinueVerdictMeaning` and `ContinueEffect`. Given the class invariant `Valid()` (well-formed state), it keeps it. |
| `Gaem.GaemComponent.ResolveStep1` | webapp/src/app/components/gaem/gaem.component.ts:251-255 | The first deferred step changes the fields exactly as `Round.ResolveStep1` says; see `SecondContinueAcceptedBetweenSteps`. Given the class invariant `Valid()` (well-formed state), it keeps it. |
| `Gaem.GaemComponent.ResolveStep2` | webapp/src/app/components/gaem/gaem.component.ts:257-273 | The second deferred step changes the fields exactly as `Round.ResolveStep2` says; see `ExchangeUsesPreExchangeDamage`, `WinDecidedBeforeExchange`, `LossAfterRefill`. Given the class invariant `Valid()` (well-formed state), it keeps it. |
| `Gaem.GaemComponent.TakeDamages` | webapp/src/app/components/gaem/gaem.component.ts:279-291 | One side's zones and the scheduled removals change exactly as `Round.TakeDamages` says; see `DamageFacts`. |
| `Gaem.GaemComponent.HitZones` | webapp/src/app/components/gaem/gaem.component.ts:280-290 | The `forEach` loop returns exactly the damaged zones of the closed form, and exactly one removal per death, in zone order, on the array it walked. |
| `Gaem.GaemComponent.CardDied` | webapp/src/app/components/gaem/gaem.component.ts:313-322 | The dead zone's front card is flagged not added and every other zone is unchanged. One removal of that zone's front is scheduled on the array passed in. |
| `Gaem.GaemComponent.RoundCompleted` | webapp/src/app/components/gaem/gaem.component.ts:293-305 | The fields change exactly as `Round.RoundCompleted` says: score, win check, then the unclamped refill request; see `RoundCompletedKeeps`. |
| `Gaem.GaemComponent.FinishDeath` | webapp/src/app/components/gaem/gaem.component.ts:320-322 | The deferred `shift` removes the front card of its zone on the current enemy array, or on the player array when that array is still current. Otherwise it changes nothing visible. Given the class invariant `Valid()` (well-formed state), it keeps it. |

## Left out

- Angular wiring is not modelled: the decorator, the animation triggers and states, change detection, and `ngOnInit`, whose call to `reset` is a `ResetRequested` event like any other.
- `playAgain` and router navigation are not modelled.
- `console.log` output is not modelled.
- The rxjs `timer` and `Subscription`, and the real delays of the `setTimeout` callbacks (500, 700, 1000 and 2000 ms), are not modelled. Each scheduled callback and each timer emission is an explicit event that may fire whenever it is enabled. So the model allows every interleaving, including ones the real delays make unlikely.
- The registration of `reset` with the game service's `onReset` is not modelled; `reset` is a plain method.
- The card supplier and the scorer are not modelled. They are arbitrary functions passed in, and the score is any integer.
- The demo roster that the constructor builds is not modelled, because it depends on card arithmetic that is not visible. The roster is a constructor parameter.
- The card class is not part of this model. A card is a value with health, damage and the `added` flag. `takeDamage` is assumed to lower health by the damage, not below 0, and to report the card alive iff its health stays positive.
- Cards are values, not shared objects. A settle callback of `addEnemyCards` marks the front card of the zone it was scheduled for, not the card object itself. This differs only if that card has left its zone before the callback fires.
- The drag-and-drop library functions are modelled by their documented splice semantics, not by their code. `canBeDroppedToFight` and `canBeDroppedToDeck` are not modelled; the first is subsumed by the `targetNumber` rule of `dropCard`.
- Enemy zones are assumed not to be drop lists, so a drop names only the deck or a player zone.
- The invariant that no zone holds two cards assumes that every drop onto a fighting zone passes a positive `targetNumber`. A drop onto a zone without it can stack cards, as the code allows.
- The loops in `addEnemyCards` and `takeDamages` work on local copies of the zone lists and the roster, and store them back when the loop ends. The source mutates the arrays as it goes. Nothing reads them in between, so the results are the same.
- Zone arrays have no identity in the model. The player zone array's identity is a generation number that `reset` increments; the enemy array is never replaced.
- The timer is one subscription whose emissions carry 0, 1, 2, and so on. Overlapping subscriptions from a missed `stopTimer` cannot arise, because `resetTimer` always stops the previous one first.
