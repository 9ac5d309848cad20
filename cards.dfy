/** A card as the round engine sees it. The card model itself is not part of
    this project; only the interface the engine uses is modelled, and its
    arithmetic is an assumption (health drops by the damage, not below 0). */
module Cards {

  /** `damage` is the card's `meta.damage`; `added` is the settle flag that
      becomes true once the card has been placed and shown. */
  datatype Card = Card(health: int, damage: int, added: bool)

  /** `isAlive()`. */
  predicate IsAlive(c: Card) {
    c.health > 0
  }

  /** `takeDamage(d)`: the damaged card and whether it is still alive.
      Only the health changes. */
  function TakeDamage(c: Card, d: int): (r: (Card, bool))
    ensures r.1 <==> IsAlive(r.0)
    ensures r.0.damage == c.damage && r.0.added == c.added
    ensures 0 <= r.0.health && (0 <= d && 0 <= c.health ==> r.0.health <= c.health)
    ensures d >= c.health ==> !r.1
  {
    var h := if c.health - d < 0 then 0 else c.health - d;
    (c.(health := h), h > 0)
  }
}
