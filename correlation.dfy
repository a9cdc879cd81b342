/**
 * The movement correlator: reduces the timestamp-ordered records of one
 * movement id to a single paired-transfer view.
 */
module Correlation {
  import opened Wrappers
  import opened Movements

  /** The paired-transfer view of one movement id. */
  datatype MovementResponse = MovementResponse(
    movementId: string,
    departureWarehouse: Option<string>,
    arrivalWarehouse: Option<string>,
    productId: string,
    quantity: int,
    departureTime: Option<Timestamp>,
    arrivalTime: Option<Timestamp>,
    transitDuration: Option<int>,
    quantityDifference: Option<int>)

  /** Some record of `records` has event type `t`. */
  ghost predicate HasType(records: seq<MovementRecord>, t: string) {
    exists i :: 0 <= i < |records| && records[i].eventType == t
  }

  /** `records[i]` is the earliest record of event type `t`. */
  ghost predicate IsFirst(records: seq<MovementRecord>, i: int, t: string) {
    0 <= i < |records| && records[i].eventType == t &&
    forall j :: 0 <= j < i ==> records[j].eventType != t
  }

  /** The records are in ascending order of timestamp. */
  ghost predicate Sorted(records: seq<MovementRecord>) {
    forall i, j :: 0 <= i < j < |records| ==> records[i].timestamp <= records[j].timestamp
  }

  /** The records are in ascending order of timestamp, no two at the same instant. */
  ghost predicate StrictlySorted(records: seq<MovementRecord>) {
    forall i, j :: 0 <= i < j < |records| ==> records[i].timestamp < records[j].timestamp
  }

  /** The position of the earliest record of event type `t`, if there is one. */
  function FirstOfType(records: seq<MovementRecord>, t: string): (r: Option<nat>)
    ensures r.Some? ==> IsFirst(records, r.value, t)
    ensures r.None? <==> !HasType(records, t)
  {
    if records == [] then None
    else if records[0].eventType == t then Some(0)
    else match FirstOfType(records[1..], t)
      case None => None
      case Some(i) => Some(i + 1)
  }

  /**
   * The paired-transfer view of `movementId` from its records, earliest first.
   * No records: MovementNotFound. No record typed departure and none typed
   * arrival: NoValidEvents. Otherwise product and quantity come from the
   * earliest record, each side from the earliest record of its type, and
   * duration and quantity difference are present exactly when both sides are.
   */
  function Correlate(movementId: string, records: seq<MovementRecord>): (r: Result<MovementResponse, Failure>)
    ensures records == [] ==> r == Err(MovementNotFound(movementId))
    ensures records != [] && !HasType(records, Departure) && !HasType(records, Arrival) ==>
              r == Err(NoValidEvents(movementId))
    ensures r.Ok? <==> HasType(records, Departure) || HasType(records, Arrival)
    ensures r.Ok? ==> r.value.movementId == movementId &&
                      r.value.productId == records[0].productId && r.value.quantity == records[0].quantity
    ensures r.Ok? ==> (r.value.departureWarehouse.Some? <==> HasType(records, Departure)) &&
                      (r.value.departureTime.Some? <==> HasType(records, Departure))
    ensures r.Ok? ==> (r.value.arrivalWarehouse.Some? <==> HasType(records, Arrival)) &&
                      (r.value.arrivalTime.Some? <==> HasType(records, Arrival))
    ensures r.Ok? ==> (r.value.transitDuration.Some? <==> HasType(records, Departure) && HasType(records, Arrival)) &&
                      (r.value.quantityDifference.Some? <==> HasType(records, Departure) && HasType(records, Arrival))
    ensures r.Ok? ==> forall i :: IsFirst(records, i, Departure) ==>
              r.value.departureWarehouse == Some(records[i].warehouseId) &&
              r.value.departureTime == Some(records[i].timestamp)
    ensures r.Ok? ==> forall k :: IsFirst(records, k, Arrival) ==>
              r.value.arrivalWarehouse == Some(records[k].warehouseId) &&
              r.value.arrivalTime == Some(records[k].timestamp)
    ensures r.Ok? ==> forall i, k :: IsFirst(records, i, Departure) && IsFirst(records, k, Arrival) ==>
              r.value.transitDuration == Some(records[k].timestamp - records[i].timestamp) &&
              r.value.quantityDifference == Some(records[k].quantity - records[i].quantity)
  {
    if records == [] then Err(MovementNotFound(movementId))
    else
      var departure := Pick(records, FirstOfType(records, Departure));
      var arrival := Pick(records, FirstOfType(records, Arrival));
      if departure.None? && arrival.None? then Err(NoValidEvents(movementId))
      else Ok(View(movementId, records[0], departure, arrival))
  }

  /** The record at an optional position. */
  function Pick(records: seq<MovementRecord>, i: Option<nat>): Option<MovementRecord>
    requires i.Some? ==> i.value < |records|
  {
    if i.Some? then Some(records[i.value]) else None
  }

  /** The view built from the earliest record and the selected departure and arrival. */
  function View(movementId: string, earliest: MovementRecord,
                d: Option<MovementRecord>, a: Option<MovementRecord>): MovementResponse
  {
    MovementResponse(
      movementId,
      if d.Some? then Some(d.value.warehouseId) else None,
      if a.Some? then Some(a.value.warehouseId) else None,
      earliest.productId,
      earliest.quantity,
      if d.Some? then Some(d.value.timestamp) else None,
      if a.Some? then Some(a.value.timestamp) else None,
      if d.Some? && a.Some? then Some(a.value.timestamp - d.value.timestamp) else None,
      if d.Some? && a.Some? then Some(a.value.quantity - d.value.quantity) else None)
  }

  /**
   * A record appended after the others changes nothing when its event type
   * is already represented, or is neither departure nor arrival.
   */
  lemma FirstOfTypeAppend(records: seq<MovementRecord>, x: MovementRecord, t: string)
    requires x.eventType == t ==> HasType(records, t)
    ensures FirstOfType(records + [x], t) == FirstOfType(records, t)
  {
    var before, after := FirstOfType(records, t), FirstOfType(records + [x], t);
    if before.Some? {
      assert IsFirst(records + [x], before.value, t);
      assert after.Some?;
      assert IsFirst(records + [x], after.value, t);
    } else {
      assert !HasType(records + [x], t) by {
        forall i | 0 <= i < |records + [x]| ensures (records + [x])[i].eventType != t {
          if i < |records| {
            assert (records + [x])[i] == records[i];
          }
        }
      }
    }
  }

  /**
   * A late duplicate of a side already present, or a record of an unknown
   * type, does not change the view: the earliest record of each type wins.
   */
  lemma CorrelateIgnoresLateRecord(movementId: string, records: seq<MovementRecord>, x: MovementRecord)
    requires records != []
    requires x.eventType == Departure ==> HasType(records, Departure)
    requires x.eventType == Arrival ==> HasType(records, Arrival)
    ensures Correlate(movementId, records + [x]) == Correlate(movementId, records)
  {
    var ext := records + [x];
    FirstOfTypeAppend(records, x, Departure);
    FirstOfTypeAppend(records, x, Arrival);
    assert Pick(ext, FirstOfType(ext, Departure)) == Pick(records, FirstOfType(records, Departure));
    assert Pick(ext, FirstOfType(ext, Arrival)) == Pick(records, FirstOfType(records, Arrival));
    assert ext[0] == records[0];
  }

  /** In a list with strictly increasing timestamps, the head is the earliest record and the only one that early. */
  lemma EarliestIsHead(records: seq<MovementRecord>, j: int)
    requires StrictlySorted(records)
    requires 0 <= j < |records|
    ensures records[0].timestamp <= records[j].timestamp
    ensures records[j].timestamp <= records[0].timestamp ==> j == 0
  {
  }

  /** Dropping the head keeps the timestamps strictly increasing. */
  lemma TailStrictlySorted(records: seq<MovementRecord>)
    requires StrictlySorted(records) && records != []
    ensures StrictlySorted(records[1..])
  {
  }

  /** Two timestamp-ordered lists with distinct timestamps and the same records are the same list. */
  lemma {:induction false} StrictlySortedPermutationsEqual(xs: seq<MovementRecord>, ys: seq<MovementRecord>)
    requires StrictlySorted(xs) && StrictlySorted(ys)
    requires multiset(xs) == multiset(ys)
    ensures xs == ys
    decreases |xs|
  {
    if xs == [] {
      assert |ys| == |multiset(ys)| == 0;
    } else {
      assert |ys| == |multiset(ys)| == |multiset(xs)| == |xs|;
      assert xs[0] in multiset(ys);
      var j :| 0 <= j < |ys| && ys[j] == xs[0];
      assert ys[0] in multiset(xs);
      var i :| 0 <= i < |xs| && xs[i] == ys[0];
      EarliestIsHead(xs, i);
      EarliestIsHead(ys, j);
      assert j == 0;
      var x := xs[0];
      assert xs == [x] + xs[1..] && ys == [x] + ys[1..];
      assert multiset(xs[1..]) == multiset(xs) - multiset{x};
      assert multiset(ys[1..]) == multiset(ys) - multiset{x};
      TailStrictlySorted(xs);
      TailStrictlySorted(ys);
      StrictlySortedPermutationsEqual(xs[1..], ys[1..]);
    }
  }

  /**
   * The view does not depend on the order in which the events were
   * delivered: any two time-ordered listings of the same records, with
   * distinct timestamps, correlate alike.
   */
  lemma CorrelateOrderIndependent(movementId: string, xs: seq<MovementRecord>, ys: seq<MovementRecord>)
    requires StrictlySorted(xs) && StrictlySorted(ys)
    requires multiset(xs) == multiset(ys)
    ensures Correlate(movementId, xs) == Correlate(movementId, ys)
  {
    StrictlySortedPermutationsEqual(xs, ys);
  }

  /**
   * A departure of some quantity followed by an arrival of the same quantity
   * pairs up with a quantity difference of 0 and a non-negative transit time.
   */
  lemma PairedTransferBalances(movementId: string, d: MovementRecord, a: MovementRecord)
    requires d.eventType == Departure && a.eventType == Arrival
    requires Sorted([d, a])
    requires d.quantity == a.quantity
    ensures Correlate(movementId, [d, a]) ==
      Ok(MovementResponse(movementId, Some(d.warehouseId), Some(a.warehouseId), d.productId, d.quantity,
                          Some(d.timestamp), Some(a.timestamp), Some(a.timestamp - d.timestamp), Some(0)))
    ensures a.timestamp - d.timestamp >= 0
  {
    assert IsFirst([d, a], 0, Departure);
    assert IsFirst([d, a], 1, Arrival);
  }

  /**
   * On time-ordered records whose first departure precedes their first
   * arrival, the transit duration is never negative.
   */
  lemma TransitNonNegative(movementId: string, records: seq<MovementRecord>, i: int, k: int)
    requires Sorted(records)
    requires IsFirst(records, i, Departure) && IsFirst(records, k, Arrival) && i < k
    ensures Correlate(movementId, records).Ok?
    ensures Correlate(movementId, records).value.transitDuration.value >= 0
  {
  }

  /**
   * A record whose event type is neither "departure" nor "arrival" (the
   * engine stores it verbatim, after applying it as a departure) is invisible
   * to the correlator.
   */
  lemma UnknownTypeIsNoValidEvent(movementId: string, m: MovementRecord)
    requires m.eventType != Departure && m.eventType != Arrival
    ensures Correlate(movementId, [m]) == Err(NoValidEvents(movementId))
  {
  }
}
