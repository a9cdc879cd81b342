/**
 * Movement events as they arrive from the message stream, and the movement
 * record that the reconciliation engine stores for each accepted event.
 */
module Movements {
  import opened Wrappers

  /** The two event types the engine and the correlator recognise. */
  const Arrival: string := "arrival"
  const Departure: string := "departure"

  /** Event time, in whole seconds. */
  type Timestamp = int

  /** The ISO-8601 text of a message's timestamp: it parses to an instant or it does not. */
  datatype TimestampText = Parsed(seconds: Timestamp) | Unparseable

  /** The `data` payload of a decoded message; every key may be absent. */
  datatype Payload = Payload(
    movementId: Option<string>,
    warehouseId: Option<string>,
    productId: Option<string>,
    quantity: Option<int>,
    event: Option<string>,
    timestamp: Option<TimestampText>)

  /** A decoded stream message: the `data` payload and the optional top-level `source`. */
  datatype RawMessage = RawMessage(data: Option<Payload>, source: Option<string>)

  /**
   * One stored movement record. The event type is kept verbatim, whatever
   * text the message carried.
   */
  datatype MovementRecord = MovementRecord(
    movementId: string,
    warehouseId: string,
    productId: string,
    eventType: string,
    quantity: int,
    timestamp: Timestamp,
    sourceWarehouse: Option<string>)

  /** Every error the core raises. */
  datatype Failure =
    | MissingField(field: string)
    | InvalidTimestamp
    | InsufficientStock(warehouseId: string, productId: string)
    | StockNotFound(warehouseId: string, productId: string)
    | MovementNotFound(movementId: string)
    | NoValidEvents(movementId: string)

  /** The payload keys in the order the engine reads them. */
  const PayloadKeys: seq<string> :=
    ["movement_id", "warehouse_id", "product_id", "quantity", "event", "timestamp"]

  /** Whether the payload carries the key `key`. */
  predicate Has(p: Payload, key: string) {
    if key == "movement_id" then p.movementId.Some?
    else if key == "warehouse_id" then p.warehouseId.Some?
    else if key == "product_id" then p.productId.Some?
    else if key == "quantity" then p.quantity.Some?
    else if key == "event" then p.event.Some?
    else if key == "timestamp" then p.timestamp.Some?
    else false
  }

  /** `key` is the first of the payload keys, in reading order, that `p` lacks. */
  ghost predicate FirstMissing(p: Payload, key: string) {
    exists k :: 0 <= k < |PayloadKeys| && PayloadKeys[k] == key && !Has(p, key) &&
      forall j :: 0 <= j < k ==> Has(p, PayloadKeys[j])
  }

  /** When key number `i` is the first one absent, it is the only key FirstMissing can name. */
  lemma FirstMissingAt(p: Payload, i: nat)
    requires i < |PayloadKeys| && !Has(p, PayloadKeys[i])
    requires forall j :: 0 <= j < i ==> Has(p, PayloadKeys[j])
    ensures forall key :: FirstMissing(p, key) <==> key == PayloadKeys[i]
  {
  }

  /**
   * Reads the fields of a message into the movement record it describes.
   * The first absent key fails the read with MissingField naming that key;
   * a timestamp that does not parse fails with InvalidTimestamp.
   */
  function Decode(msg: RawMessage): (r: Result<MovementRecord, Failure>)
    ensures msg.data.None? ==> r == Err(MissingField("data"))
    ensures msg.data.Some? ==> forall key :: FirstMissing(msg.data.value, key) ==> r == Err(MissingField(key))
    ensures r.Ok? <==> msg.data.Some? && (forall k :: 0 <= k < |PayloadKeys| ==> Has(msg.data.value, PayloadKeys[k]))
                       && msg.data.value.timestamp.Some? && msg.data.value.timestamp.value.Parsed?
    ensures (msg.data.Some? && (forall k :: 0 <= k < |PayloadKeys| ==> Has(msg.data.value, PayloadKeys[k])) &&
             msg.data.value.timestamp == Some(Unparseable)) ==> r == Err(InvalidTimestamp)
    ensures r.Ok? ==> r.value.sourceWarehouse == msg.source
    ensures r.Ok? ==> Encode(r.value) == msg
  {
    if msg.data.None? then Err(MissingField("data"))
    else
      var p := msg.data.value;
      if p.movementId.None? then FirstMissingAt(p, 0); Err(MissingField("movement_id"))
      else if p.warehouseId.None? then FirstMissingAt(p, 1); Err(MissingField("warehouse_id"))
      else if p.productId.None? then FirstMissingAt(p, 2); Err(MissingField("product_id"))
      else if p.quantity.None? then FirstMissingAt(p, 3); Err(MissingField("quantity"))
      else if p.event.None? then FirstMissingAt(p, 4); Err(MissingField("event"))
      else if p.timestamp.None? then FirstMissingAt(p, 5); Err(MissingField("timestamp"))
      else if p.timestamp.value.Unparseable? then Err(InvalidTimestamp)
      else Ok(MovementRecord(p.movementId.value, p.warehouseId.value, p.productId.value,
                             p.event.value, p.quantity.value, p.timestamp.value.seconds, msg.source))
  }

  /** The stream message that carries exactly the fields of `m`. */
  function Encode(m: MovementRecord): (msg: RawMessage)
    ensures msg.data.Some? && msg.source == m.sourceWarehouse
  {
    RawMessage(
      Some(Payload(Some(m.movementId), Some(m.warehouseId), Some(m.productId),
                   Some(m.quantity), Some(m.eventType), Some(Parsed(m.timestamp)))),
      m.sourceWarehouse)
  }

  /** Every record survives being sent as a message and read back. */
  lemma DecodeEncode(m: MovementRecord)
    ensures Decode(Encode(m)) == Ok(m)
  {
  }
}
