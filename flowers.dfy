/** The flower shop and garden routes of routes/flowers.ts over an abstract
    `flowers` table and the users' coin balances. Each procedure is a
    specification function on a `FlowerTables` value; the class
    `FlowerStore` holds the tables as fields and its methods are proved
    against those functions. A transaction that throws is rolled back, so an
    error outcome always carries the tables unchanged. */
module Flowers {
  import opened Common

  /** Flower ids are handed out in order by the database. */
  type FlowerId = nat

  /** A pot position as the client sends it: two numbers. */
  type Position = (real, real)

  datatype Flower = Flower(owner: UserId, name: string, image: Option<string>, kind: string, position: Position)

  /** The rows the routes touch: the flowers, the nullable `coin` column of
      `auth.user`, and the next id the table will hand out. */
  datatype FlowerTables = FlowerTables(flowers: map<FlowerId, Flower>, coins: map<UserId, Option<int>>, nextId: FlowerId)

  /** A row returned by `RETURNING *`. */
  datatype FlowerRow = FlowerRow(id: FlowerId, flower: Flower)

  datatype Outcome<T> = Outcome(result: Result<T>, tables: FlowerTables)

  /** Ids below `nextId` are the only ones in use. */
  predicate IdsBelowNext(t: FlowerTables) {
    forall id :: id in t.flowers ==> id < t.nextId
  }

  /** `PRICE_MAP`'s own entries. */
  const PriceMap: map<string, int> :=
    map["flower1" := 10, "flower2" := 15, "flower3" := 20, "imageSign" := 25, "tallImage" := 40]

  const PlaceholderImage: string := "https://placehold.co/256x256"

  const Cols: int := 8
  const Rows: int := 8

  /** The kinds of item that carry an image. */
  predicate IsImageKind(kind: string) {
    kind == "imageSign" || kind == "tallImage"
  }

  /** The image a new item starts with. */
  function DefaultImage(flowerId: string): (img: Option<string>)
    ensures img.Some? <==> IsImageKind(flowerId)
    ensures img.Some? ==> img.value == PlaceholderImage
  {
    if IsImageKind(flowerId) then Some(PlaceholderImage) else None
  }

  /** The balance of `u` when the row exists and the coin is not null. */
  predicate HasCoins(coins: map<UserId, Option<int>>, u: UserId) {
    u in coins && coins[u].Some?
  }

  /** `purchaseFlower` with the own-key price lookup: BAD_REQUEST for an id
      outside the price table, then, inside the transaction, UNAUTHORIZED
      for a missing user or a null balance and FORBIDDEN when the balance is
      below the price; otherwise the price is deducted and one flower whose
      name and type are the id is inserted at the given position. */
  function PurchaseStep(t: FlowerTables, u: UserId, flowerId: string, position: Position): (o: Outcome<FlowerRow>)
    ensures o.result.Err? ==> o.tables == t
    ensures o.result.Ok? ==> flowerId in PriceMap && o.result.value.id == t.nextId
                             && o.tables.flowers == t.flowers[t.nextId := o.result.value.flower]
                             && o.tables.nextId == t.nextId + 1
  {
    if flowerId !in PriceMap then Outcome(Err(BadRequest), t)
    else PurchaseAtPrice(t, u, flowerId, position, PriceMap[flowerId])
  }

  /** The transaction of `purchaseFlower` once a numeric price is known. */
  function PurchaseAtPrice(t: FlowerTables, u: UserId, flowerId: string, position: Position, price: int)
    : (o: Outcome<FlowerRow>)
    ensures o.result.Err? ==> o.tables == t
    ensures o.result.Ok? <==> HasCoins(t.coins, u) && t.coins[u].value >= price
    ensures o.result.Ok? ==> o.tables.coins == t.coins[u := Some(t.coins[u].value - price)]
                             && (price >= 0 ==> o.tables.coins[u].value >= 0)
                             && o.result.value.flower.owner == u && o.result.value.flower.position == position
  {
    if !HasCoins(t.coins, u) then Outcome(Err(Unauthorized), t)
    else if t.coins[u].value < price then Outcome(Err(Forbidden), t)
    else
      var f := Flower(u, flowerId, DefaultImage(flowerId), flowerId, position);
      Outcome(Ok(FlowerRow(t.nextId, f)),
              FlowerTables(t.flowers[t.nextId := f], t.coins[u := Some(t.coins[u].value - price)], t.nextId + 1))
  }

  /** The names `Object.prototype` gives every object literal. Looking one of
      them up in `PRICE_MAP` finds a function (or, for `__proto__`, an
      object), not `undefined`. */
  const ObjectPrototypeKeys: set<string> := {
    "constructor", "__proto__", "hasOwnProperty", "isPrototypeOf", "propertyIsEnumerable",
    "toLocaleString", "toString", "valueOf",
    "__defineGetter__", "__defineSetter__", "__lookupGetter__", "__lookupSetter__"}

  datatype PriceLookup = Price(amount: int) | Inherited | Missing

  /** `PRICE_MAP[flowerId]` as JavaScript evaluates it. */
  function LookupAsWritten(flowerId: string): (r: PriceLookup)
    ensures r.Missing? <==> flowerId !in PriceMap && flowerId !in ObjectPrototypeKeys
    ensures r.Price? <==> flowerId in PriceMap
    ensures r.Price? ==> r.amount == PriceMap[flowerId]
  {
    if flowerId in PriceMap then Price(PriceMap[flowerId])
    else if flowerId in ObjectPrototypeKeys then Inherited
    else Missing
  }

  /** `purchaseFlower` as written. An inherited name passes the `== null`
      check; `coins < price` is then false, as every comparison with NaN is,
      and the `UPDATE` fails on the non-numeric parameter, so the
      transaction is rolled back and the client sees an internal error. */
  function PurchaseAsWrittenStep(t: FlowerTables, u: UserId, flowerId: string, position: Position)
    : (o: Outcome<FlowerRow>)
    ensures o.result.Err? ==> o.tables == t
    ensures o.result == Err(BadRequest) ==> flowerId !in ObjectPrototypeKeys
    ensures flowerId in ObjectPrototypeKeys && flowerId !in PriceMap ==> o.result.Err?
  {
    match LookupAsWritten(flowerId)
    case Missing => Outcome(Err(BadRequest), t)
    case Price(p) => PurchaseAtPrice(t, u, flowerId, position, p)
    case Inherited =>
      if !HasCoins(t.coins, u) then Outcome(Err(Unauthorized), t)
      else Outcome(Err(InternalServerError), t)
  }

  predicate IsConstructorName(s: string) {
    s == "constructor"
  }

  lemma ConstructorIsInherited(s: string)
    requires IsConstructorName(s)
    ensures s !in PriceMap && s in ObjectPrototypeKeys
  {
    assert |s| == 11;
  }

  /** An inherited name such as "constructor" is not an unknown id to the
      code as written: a caller with coins gets an internal error instead of
      BAD_REQUEST, which the own-key lookup gives. */
  lemma InheritedKeyEscapesBadRequest(t: FlowerTables, u: UserId, s: string, position: Position)
    requires IsConstructorName(s) && HasCoins(t.coins, u)
    ensures PurchaseAsWrittenStep(t, u, s, position).result == Err(InternalServerError)
    ensures PurchaseStep(t, u, s, position).result == Err(BadRequest)
  {
    ConstructorIsInherited(s);
  }

  /** Away from the inherited names the two lookups agree. */
  lemma PurchaseAgreesOnOwnNames(t: FlowerTables, u: UserId, flowerId: string, position: Position)
    requires flowerId !in ObjectPrototypeKeys
    ensures PurchaseAsWrittenStep(t, u, flowerId, position) == PurchaseStep(t, u, flowerId, position)
  {
  }

  /** An id outside the price table is rejected before the transaction,
      whoever asks. */
  lemma PurchaseRejectsUnknownId(t: FlowerTables, u: UserId, flowerId: string, position: Position)
    requires flowerId !in PriceMap
    ensures PurchaseStep(t, u, flowerId, position) == Outcome(Err(BadRequest), t)
  {
  }

  /** The order of `purchaseFlower`'s checks, its three errors exactly, and
      that every error leaves coins and flowers as they were. */
  lemma PurchaseErrors(t: FlowerTables, u: UserId, flowerId: string, position: Position)
    ensures var o := PurchaseStep(t, u, flowerId, position);
      (o.result.Err? ==> o.tables == t)
      && (o.result == Err(BadRequest) <==> flowerId !in PriceMap)
      && (o.result == Err(Unauthorized) <==> flowerId in PriceMap && !HasCoins(t.coins, u))
      && (o.result == Err(Forbidden) <==>
            flowerId in PriceMap && HasCoins(t.coins, u) && t.coins[u].value < PriceMap[flowerId])
      && (o.result.Ok? <==>
            flowerId in PriceMap && HasCoins(t.coins, u) && t.coins[u].value >= PriceMap[flowerId])
  {
  }

  /** A purchase takes exactly the price from the buyer, who keeps a
      non-negative balance, inserts exactly one new flower named and typed
      after the id, with the placeholder image for an image item, and
      changes nothing else. */
  lemma PurchasePays(t: FlowerTables, u: UserId, flowerId: string, position: Position)
    requires IdsBelowNext(t)
    requires flowerId in PriceMap && HasCoins(t.coins, u) && t.coins[u].value >= PriceMap[flowerId]
    ensures var o := PurchaseStep(t, u, flowerId, position);
      var price := PriceMap[flowerId];
      o.result.Ok?
      && o.tables.coins[u] == Some(t.coins[u].value - price)
      && o.tables.coins[u].value >= 0
      && (forall v :: v in t.coins && v != u ==> v in o.tables.coins && o.tables.coins[v] == t.coins[v])
      && o.tables.coins.Keys == t.coins.Keys
      && o.result.value.id !in t.flowers
      && o.tables.flowers == t.flowers[o.result.value.id := o.result.value.flower]
      && |o.tables.flowers| == |t.flowers| + 1
      && o.result.value.flower == Flower(u, flowerId, DefaultImage(flowerId), flowerId, position)
      && IdsBelowNext(o.tables)
  {
    assert PriceMap[flowerId] > 0;
  }

  /** The image of the inserted item is the placeholder for the image kinds
      and null otherwise. */
  lemma PurchaseImage(t: FlowerTables, u: UserId, flowerId: string, position: Position)
    ensures var o := PurchaseStep(t, u, flowerId, position);
      o.result.Ok? ==>
        (o.result.value.flower.image == Some(PlaceholderImage) <==> IsImageKind(flowerId))
        && (o.result.value.flower.image.None? <==> !IsImageKind(flowerId))
  {
  }

  /** A pot is taken when another flower of the same user stands there. */
  predicate Occupied(t: FlowerTables, u: UserId, id: FlowerId, position: Position) {
    exists other :: other in t.flowers && other != id && t.flowers[other].owner == u
                    && t.flowers[other].position == position
  }

  predicate InBounds(x: int, y: int) {
    0 <= x < Cols && 0 <= y < Rows
  }

  /** `moveFlower`: the coordinates are floored and must lie on the grid
      (BAD_REQUEST); then the flower must exist (NOT_FOUND), be the caller's
      (UNAUTHORIZED) and the pot must be free of the caller's other flowers
      (BAD_REQUEST); then only its position changes. */
  function MoveStep(t: FlowerTables, u: UserId, id: FlowerId, xRaw: real, yRaw: real): (o: Outcome<FlowerRow>)
    ensures o.result.Err? ==> o.tables == t
    ensures o.tables.coins == t.coins && o.tables.nextId == t.nextId && o.tables.flowers.Keys == t.flowers.Keys
  {
    var x := xRaw.Floor;
    var y := yRaw.Floor;
    if !InBounds(x, y) then Outcome(Err(BadRequest), t)
    else if id !in t.flowers then Outcome(Err(NotFound), t)
    else if t.flowers[id].owner != u then Outcome(Err(Unauthorized), t)
    else if Occupied(t, u, id, (x as real, y as real)) then Outcome(Err(BadRequest), t)
    else
      var f := t.flowers[id].(position := (x as real, y as real));
      Outcome(Ok(FlowerRow(id, f)), t.(flowers := t.flowers[id := f]))
  }

  /** Off-grid targets are refused whatever the rest of the request, and
      an accepted target is the floored pair, on the grid. */
  lemma MoveBounds(t: FlowerTables, u: UserId, id: FlowerId, xRaw: real, yRaw: real)
    ensures var o := MoveStep(t, u, id, xRaw, yRaw);
      (!InBounds(xRaw.Floor, yRaw.Floor) ==> o == Outcome(Err(BadRequest), t))
      && (o.result.Ok? ==>
            o.result.value.flower.position == (xRaw.Floor as real, yRaw.Floor as real)
            && 0.0 <= o.result.value.flower.position.0 < 8.0
            && 0.0 <= o.result.value.flower.position.1 < 8.0)
  {
  }

  /** The other outcomes of `moveFlower`, in order, each leaving the tables
      as they were. */
  lemma MoveErrors(t: FlowerTables, u: UserId, id: FlowerId, xRaw: real, yRaw: real)
    requires InBounds(xRaw.Floor, yRaw.Floor)
    ensures var o := MoveStep(t, u, id, xRaw, yRaw);
      var target := (xRaw.Floor as real, yRaw.Floor as real);
      (o.result.Err? ==> o.tables == t)
      && (id !in t.flowers ==> o.result == Err(NotFound))
      && (id in t.flowers && t.flowers[id].owner != u ==> o.result == Err(Unauthorized))
      && (id in t.flowers && t.flowers[id].owner == u && Occupied(t, u, id, target) ==> o.result == Err(BadRequest))
      && (o.result.Ok? <==> id in t.flowers && t.flowers[id].owner == u && !Occupied(t, u, id, target))
  {
  }

  /** A move changes that flower's position and nothing else. */
  lemma MoveChangesOnlyPosition(t: FlowerTables, u: UserId, id: FlowerId, xRaw: real, yRaw: real)
    ensures var o := MoveStep(t, u, id, xRaw, yRaw);
      o.result.Ok? ==>
        id in t.flowers
        && o.tables.flowers.Keys == t.flowers.Keys
        && o.tables.flowers[id] == t.flowers[id].(position := o.result.value.flower.position)
        && (forall k :: k in t.flowers && k != id ==> o.tables.flowers[k] == t.flowers[k])
        && o.tables.coins == t.coins && o.tables.nextId == t.nextId
  {
  }

  /** No two flowers of one user share a pot. */
  predicate DistinctPots(t: FlowerTables) {
    forall a, b :: a in t.flowers && b in t.flowers && a != b && t.flowers[a].owner == t.flowers[b].owner
      ==> t.flowers[a].position != t.flowers[b].position
  }

  /** Moving keeps every user's pots distinct. */
  lemma MoveKeepsPotsDistinct(t: FlowerTables, u: UserId, id: FlowerId, xRaw: real, yRaw: real)
    requires DistinctPots(t)
    ensures DistinctPots(MoveStep(t, u, id, xRaw, yRaw).tables)
  {
    var o := MoveStep(t, u, id, xRaw, yRaw);
    if o.result.Ok? {
      var t1 := o.tables;
      var target := (xRaw.Floor as real, yRaw.Floor as real);
      forall a, b | a in t1.flowers && b in t1.flowers && a != b && t1.flowers[a].owner == t1.flowers[b].owner
        ensures t1.flowers[a].position != t1.flowers[b].position
      {
        if a == id {
          assert !(b in t.flowers && b != id && t.flowers[b].owner == u && t.flowers[b].position == target);
        } else if b == id {
          assert !(a in t.flowers && a != id && t.flowers[a].owner == u && t.flowers[a].position == target);
        }
      }
    }
  }

  /** A purchase does not look at the position, so it can put a second
      flower into a pot the buyer already uses. */
  lemma PurchaseCanStackPots(t: FlowerTables, u: UserId, flowerId: string, id: FlowerId)
    requires IdsBelowNext(t) && id in t.flowers && t.flowers[id].owner == u
    requires flowerId in PriceMap && HasCoins(t.coins, u) && t.coins[u].value >= PriceMap[flowerId]
    ensures !DistinctPots(PurchaseStep(t, u, flowerId, t.flowers[id].position).tables)
  {
    var o := PurchaseStep(t, u, flowerId, t.flowers[id].position);
    assert o.tables.flowers[id] == t.flowers[id];
    assert o.tables.flowers[t.nextId].position == t.flowers[id].position;
  }

  /** `setSignImage`: NOT_FOUND for a missing flower, UNAUTHORIZED for
      another user's, BAD_REQUEST unless it is an image item; otherwise only
      its image changes. */
  function SetSignImageStep(t: FlowerTables, u: UserId, id: FlowerId, imageUrl: string): (o: Outcome<FlowerRow>)
    ensures o.result.Err? ==> o.tables == t
    ensures o.tables.coins == t.coins && o.tables.nextId == t.nextId && o.tables.flowers.Keys == t.flowers.Keys
  {
    if id !in t.flowers then Outcome(Err(NotFound), t)
    else if t.flowers[id].owner != u then Outcome(Err(Unauthorized), t)
    else if !IsImageKind(t.flowers[id].kind) then Outcome(Err(BadRequest), t)
    else
      var f := t.flowers[id].(image := Some(imageUrl));
      Outcome(Ok(FlowerRow(id, f)), t.(flowers := t.flowers[id := f]))
  }

  lemma SetSignImageChecks(t: FlowerTables, u: UserId, id: FlowerId, imageUrl: string)
    ensures var o := SetSignImageStep(t, u, id, imageUrl);
      (o.result.Err? ==> o.tables == t)
      && (id !in t.flowers ==> o.result == Err(NotFound))
      && (id in t.flowers && t.flowers[id].owner != u ==> o.result == Err(Unauthorized))
      && (id in t.flowers && t.flowers[id].owner == u && !IsImageKind(t.flowers[id].kind) ==> o.result == Err(BadRequest))
      && (o.result.Ok? <==> id in t.flowers && t.flowers[id].owner == u && IsImageKind(t.flowers[id].kind))
      && (o.result.Ok? ==>
            o.tables.flowers == t.flowers[id := t.flowers[id].(image := Some(imageUrl))]
            && o.tables.coins == t.coins && o.tables.nextId == t.nextId)
  {
  }

  /** `deleteFlower`: UNAUTHORIZED unless the flower exists and is the
      caller's; otherwise it is removed. */
  function DeleteStep(t: FlowerTables, u: UserId, id: FlowerId): (o: Outcome<bool>)
    ensures o.result.Err? ==> o.tables == t
    ensures o.tables.coins == t.coins && o.tables.nextId == t.nextId && o.tables.flowers.Keys <= t.flowers.Keys
  {
    if id !in t.flowers || t.flowers[id].owner != u then Outcome(Err(Unauthorized), t)
    else Outcome(Ok(true), t.(flowers := t.flowers - {id}))
  }

  /** Deleting removes exactly the one flower. */
  lemma DeleteRemovesExactly(t: FlowerTables, u: UserId, id: FlowerId)
    ensures var o := DeleteStep(t, u, id);
      (o.result.Err? <==> id !in t.flowers || t.flowers[id].owner != u)
      && (o.result.Err? ==> o.result.code == Unauthorized && o.tables == t)
      && (o.result.Ok? ==>
            o.tables.flowers.Keys == t.flowers.Keys - {id}
            && |o.tables.flowers| == |t.flowers| - 1
            && (forall k :: k in o.tables.flowers ==> o.tables.flowers[k] == t.flowers[k])
            && o.tables.coins == t.coins)
  {
  }

  /** Every procedure keeps ids below the next one. */
  lemma StepsKeepIdsBelowNext(t: FlowerTables, u: UserId, id: FlowerId, flowerId: string, position: Position,
                              xRaw: real, yRaw: real, imageUrl: string)
    requires IdsBelowNext(t)
    ensures IdsBelowNext(PurchaseStep(t, u, flowerId, position).tables)
    ensures IdsBelowNext(MoveStep(t, u, id, xRaw, yRaw).tables)
    ensures IdsBelowNext(SetSignImageStep(t, u, id, imageUrl).tables)
    ensures IdsBelowNext(DeleteStep(t, u, id).tables)
  {
  }

  /** Changing an image or deleting a flower keeps the pots distinct. */
  lemma SignAndDeleteKeepPotsDistinct(t: FlowerTables, u: UserId, id: FlowerId, imageUrl: string)
    requires DistinctPots(t)
    ensures DistinctPots(SetSignImageStep(t, u, id, imageUrl).tables)
    ensures DistinctPots(DeleteStep(t, u, id).tables)
  {
  }

  /** The routes' tables as fields. */
  class FlowerStore {
    var flowers: map<FlowerId, Flower>
    var coins: map<UserId, Option<int>>
    var nextId: FlowerId

    function State(): FlowerTables
      reads this
    {
      FlowerTables(flowers, coins, nextId)
    }

    predicate Valid()
      reads this
    {
      IdsBelowNext(State())
    }

    constructor(coins: map<UserId, Option<int>>)
      ensures State() == FlowerTables(map[], coins, 0) && Valid()
    {
      this.flowers := map[];
      this.coins := coins;
      this.nextId := 0;
    }

    /** `purchaseFlower`. */
    method PurchaseFlower(u: UserId, flowerId: string, position: Position) returns (r: Result<FlowerRow>)
      requires Valid()
      modifies this
      ensures Valid()
      ensures Outcome(r, State()) == PurchaseStep(old(State()), u, flowerId, position)
    {
      if flowerId !in PriceMap {
        return Err(BadRequest);
      }
      var price := PriceMap[flowerId];
      if u !in coins || coins[u].None? {
        return Err(Unauthorized);
      }
      var current := coins[u].value;
      if current < price {
        return Err(Forbidden);
      }
      coins := coins[u := Some(current - price)];
      var f := Flower(u, flowerId, DefaultImage(flowerId), flowerId, position);
      flowers := flowers[nextId := f];
      r := Ok(FlowerRow(nextId, f));
      nextId := nextId + 1;
    }

    /** `moveFlower`. */
    method MoveFlower(u: UserId, id: FlowerId, xRaw: real, yRaw: real) returns (r: Result<FlowerRow>)
      requires Valid()
      modifies this
      ensures Valid()
      ensures Outcome(r, State()) == MoveStep(old(State()), u, id, xRaw, yRaw)
    {
      var x := xRaw.Floor;
      var y := yRaw.Floor;
      if x < 0 || x >= Cols || y < 0 || y >= Rows {
        return Err(BadRequest);
      }
      if id !in flowers {
        return Err(NotFound);
      }
      if flowers[id].owner != u {
        return Err(Unauthorized);
      }
      var target := (x as real, y as real);
      if Occupied(State(), u, id, target) {
        return Err(BadRequest);
      }
      var f := flowers[id].(position := target);
      flowers := flowers[id := f];
      r := Ok(FlowerRow(id, f));
    }

    /** `setSignImage`. */
    method SetSignImage(u: UserId, id: FlowerId, imageUrl: string) returns (r: Result<FlowerRow>)
      requires Valid()
      modifies this
      ensures Valid()
      ensures Outcome(r, State()) == SetSignImageStep(old(State()), u, id, imageUrl)
    {
      if id !in flowers {
        return Err(NotFound);
      }
      if flowers[id].owner != u {
        return Err(Unauthorized);
      }
      if !IsImageKind(flowers[id].kind) {
        return Err(BadRequest);
      }
      var f := flowers[id].(image := Some(imageUrl));
      flowers := flowers[id := f];
      r := Ok(FlowerRow(id, f));
    }

    /** `deleteFlower`. */
    method DeleteFlower(u: UserId, id: FlowerId) returns (r: Result<bool>)
      requires Valid()
      modifies this
      ensures Valid()
      ensures Outcome(r, State()) == DeleteStep(old(State()), u, id)
    {
      if id !in flowers || flowers[id].owner != u {
        return Err(Unauthorized);
      }
      flowers := flowers - {id};
      r := Ok(true);
    }
  }
}
