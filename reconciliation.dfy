/**
 * The reconciliation engine: applies one stream message to the stock ledger
 * and the movement log, all or nothing.
 */
module Reconciliation {
  import opened Wrappers
  import opened Movements

  /** The mutation time stamped on a ledger row (a clock reading supplied by the caller). */
  type Instant = int

  /** A stock ledger row is identified by warehouse and product. */
  datatype Key = Key(warehouseId: string, productId: string)

  /** The committed state of one ledger row. */
  datatype StockRow = StockRow(quantity: int, lastUpdated: Instant)

  /** What a stock query returns. */
  datatype StockInfo = StockInfo(warehouseId: string, productId: string, quantity: int, lastUpdated: Instant)

  /** The committed state of the store: the stock ledger and the movement log. */
  datatype Ledger = Ledger(rows: map<Key, StockRow>, log: seq<MovementRecord>)

  /** The ledger row a movement record touches. */
  function KeyOf(m: MovementRecord): Key {
    Key(m.warehouseId, m.productId)
  }

  /** The stock held under `key`; a row that does not exist yet counts as 0. */
  function Available(rows: map<Key, StockRow>, key: Key): int
  {
    if key in rows then rows[key].quantity else 0
  }

  /** No row of the ledger holds a negative quantity. */
  ghost predicate NonNegative(rows: map<Key, StockRow>) {
    forall key :: key in rows ==> rows[key].quantity >= 0
  }

  /**
   * The new committed state after one message, or the error it raises.
   * An arrival adds its quantity; any other event type is a departure, which
   * fails when the row holds less than it asks for and otherwise subtracts.
   * Success touches exactly one row and appends exactly the message's record.
   */
  function Reconcile(st: Ledger, msg: RawMessage, now: Instant): (r: Result<Ledger, Failure>)
    ensures Decode(msg).Err? ==> r == Err(Decode(msg).error)
    ensures Decode(msg).Ok? ==>
      var m := Decode(msg).value;
      (r.Err? <==> m.eventType != Arrival && Available(st.rows, KeyOf(m)) < m.quantity) &&
      (r.Err? ==> r.error == InsufficientStock(m.warehouseId, m.productId))
    ensures r.Ok? ==>
      var m := Decode(msg).value;
      && r.value.log == st.log + [m]
      && r.value.rows.Keys == st.rows.Keys + {KeyOf(m)}
      && r.value.rows[KeyOf(m)].lastUpdated == now
      && (m.eventType == Arrival ==>
            r.value.rows[KeyOf(m)].quantity == Available(st.rows, KeyOf(m)) + m.quantity)
      && (m.eventType != Arrival ==>
            m.quantity <= Available(st.rows, KeyOf(m)) &&
            r.value.rows[KeyOf(m)].quantity == Available(st.rows, KeyOf(m)) - m.quantity)
      && (forall key :: key in st.rows && key != KeyOf(m) ==> r.value.rows[key] == st.rows[key])
  {
    match Decode(msg)
    case Err(e) => Err(e)
    case Ok(m) =>
      var key := KeyOf(m);
      var before := Available(st.rows, key);
      if m.eventType == Arrival then
        Ok(Ledger(st.rows[key := StockRow(before + m.quantity, now)], st.log + [m]))
      else if before < m.quantity then
        Err(InsufficientStock(m.warehouseId, m.productId))
      else
        Ok(Ledger(st.rows[key := StockRow(before - m.quantity, now)], st.log + [m]))
  }

  /** The message carries no arrival of a negative quantity (the engine does not check this). */
  ghost predicate NoNegativeArrival(msg: RawMessage) {
    Decode(msg).Ok? && Decode(msg).value.eventType == Arrival ==> Decode(msg).value.quantity >= 0
  }

  /** One message applied with the clock reading taken when it was processed. */
  datatype Delivery = Delivery(msg: RawMessage, now: Instant)

  /** The committed state after one delivery: its result, or the state unchanged when it raises. */
  function Step(st: Ledger, d: Delivery): Ledger {
    match Reconcile(st, d.msg, d.now)
    case Ok(s) => s
    case Err(_) => st
  }

  /**
   * The committed state after a stream of deliveries, each applied in turn;
   * a delivery that raises is dropped and the next one is applied to the
   * state as it was. Ledger rows are created lazily and never deleted.
   */
  function Replay(st: Ledger, ds: seq<Delivery>): (r: Ledger)
    ensures st.rows.Keys <= r.rows.Keys
    decreases |ds|
  {
    if ds == [] then st
    else
      var next := Step(st, ds[0]);
      Replay(next, ds[1..])
  }

  /** A successful message keeps every row non-negative, provided it is no negative arrival. */
  lemma ReconcileKeepsNonNegative(st: Ledger, msg: RawMessage, now: Instant)
    requires NonNegative(st.rows) && NoNegativeArrival(msg)
    ensures Reconcile(st, msg, now).Ok? ==> NonNegative(Reconcile(st, msg, now).value.rows)
  {
  }

  /** Over any stream without negative arrivals, no row of the ledger ever goes negative. */
  lemma {:induction false} ReplayKeepsNonNegative(st: Ledger, ds: seq<Delivery>)
    requires NonNegative(st.rows)
    requires forall i :: 0 <= i < |ds| ==> NoNegativeArrival(ds[i].msg)
    ensures NonNegative(Replay(st, ds).rows)
    decreases |ds|
  {
    if ds != [] {
      ReconcileKeepsNonNegative(st, ds[0].msg, ds[0].now);
      var next := Step(st, ds[0]);
      assert forall i :: 0 <= i < |ds[1..]| ==> NoNegativeArrival(ds[1..][i].msg) by {
        forall i | 0 <= i < |ds[1..]| ensures NoNegativeArrival(ds[1..][i].msg) {
          assert ds[1..][i] == ds[i + 1];
        }
      }
      ReplayKeepsNonNegative(next, ds[1..]);
    }
  }

  /**
   * The movement log is append-only: after any stream it extends the log it
   * started from, by at most one record per delivery.
   */
  lemma {:induction false} ReplayExtendsLog(st: Ledger, ds: seq<Delivery>)
    ensures st.log <= Replay(st, ds).log
    ensures |Replay(st, ds).log| <= |st.log| + |ds|
    decreases |ds|
  {
    if ds != [] {
      var next := Step(st, ds[0]);
      ReplayExtendsLog(next, ds[1..]);
    }
  }

  /** A stream of two deliveries is the one step after the other. */
  lemma ReplayPair(st: Ledger, a: Delivery, b: Delivery)
    ensures Replay(st, [a, b]) == Step(Step(st, a), b)
  {
    assert [a, b][1..] == [b];
    assert [b][1..] == [];
    assert Replay(Step(st, a), [b]) == Replay(Step(Step(st, a), b), []);
  }

  /** Rows with the same keys and quantities, last-updated times aside. */
  ghost predicate SameStock(r1: map<Key, StockRow>, r2: map<Key, StockRow>) {
    r1.Keys == r2.Keys && forall k :: k in r1 ==> r1[k].quantity == r2[k].quantity
  }

  /** The quantity a row settles at after record `m`, or None when a departure finds it short. */
  function Settle(q: int, m: MovementRecord): Option<int> {
    if m.eventType == Arrival then Some(q + m.quantity)
    else if q < m.quantity then None
    else Some(q - m.quantity)
  }

  /** Commits a settled quantity for `m`'s row together with its record; nothing when refused. */
  function Commit(st: Ledger, m: MovementRecord, s: Option<int>, now: Instant): Ledger {
    if s.None? then st
    else Ledger(st.rows[KeyOf(m) := StockRow(s.value, now)], st.log + [m])
  }

  /** One delivery of a decoded message settles its own row and commits. */
  lemma StepSettles(st: Ledger, d: Delivery)
    requires Decode(d.msg).Ok?
    ensures var m := Decode(d.msg).value;
            Step(st, d) == Commit(st, m, Settle(Available(st.rows, KeyOf(m)), m), d.now)
  {
  }

  /** Committing to two different rows, in either order, gives the same stock. */
  lemma CommitsCommuteRows(st: Ledger, ma: MovementRecord, mb: MovementRecord,
                           sa: Option<int>, sb: Option<int>, t1: Instant, t2: Instant)
    requires KeyOf(ma) != KeyOf(mb)
    ensures var ab := Commit(Commit(st, ma, sa, t1), mb, sb, t2).rows;
            var ba := Commit(Commit(st, mb, sb, t1), ma, sa, t2).rows;
            SameStock(ab, ba) && (t1 == t2 ==> ab == ba)
  {
    var ka, kb := KeyOf(ma), KeyOf(mb);
    if sa.Some? && sb.Some? {
      var ab := st.rows[ka := StockRow(sa.value, t1)][kb := StockRow(sb.value, t2)];
      var ba := st.rows[kb := StockRow(sb.value, t1)][ka := StockRow(sa.value, t2)];
      assert ab.Keys == ba.Keys;
    }
  }

  /** Committing to two different rows, in either order, logs the same records. */
  lemma CommitsCommuteLog(st: Ledger, ma: MovementRecord, mb: MovementRecord,
                          sa: Option<int>, sb: Option<int>, t1: Instant, t2: Instant)
    requires KeyOf(ma) != KeyOf(mb)
    ensures multiset(Commit(Commit(st, ma, sa, t1), mb, sb, t2).log) ==
            multiset(Commit(Commit(st, mb, sb, t1), ma, sa, t2).log)
  {
    if sa.Some? && sb.Some? {
      assert multiset(st.log + [ma] + [mb]) == multiset(st.log) + multiset{ma} + multiset{mb};
      assert multiset(st.log + [mb] + [ma]) == multiset(st.log) + multiset{mb} + multiset{ma};
    }
  }

  /** The two-step form of ReplayDifferentRowsCommute when both messages decode. */
  lemma StepsCommuteDecoded(st: Ledger, a: RawMessage, b: RawMessage, t1: Instant, t2: Instant)
    requires Decode(a).Ok? && Decode(b).Ok?
    requires KeyOf(Decode(a).value) != KeyOf(Decode(b).value)
    ensures var ab := Step(Step(st, Delivery(a, t1)), Delivery(b, t2));
            var ba := Step(Step(st, Delivery(b, t1)), Delivery(a, t2));
            && SameStock(ab.rows, ba.rows)
            && multiset(ab.log) == multiset(ba.log)
            && (t1 == t2 ==> ab.rows == ba.rows)
  {
    var ma, mb := Decode(a).value, Decode(b).value;
    var sa, sb := Settle(Available(st.rows, KeyOf(ma)), ma), Settle(Available(st.rows, KeyOf(mb)), mb);
    var a1, b2, b1, a2 := Delivery(a, t1), Delivery(b, t2), Delivery(b, t1), Delivery(a, t2);
    StepSettles(st, a1);
    StepSettles(st, b1);
    var sta, stb := Commit(st, ma, sa, t1), Commit(st, mb, sb, t1);
    assert Available(sta.rows, KeyOf(mb)) == Available(st.rows, KeyOf(mb));
    assert Available(stb.rows, KeyOf(ma)) == Available(st.rows, KeyOf(ma));
    StepSettles(sta, b2);
    StepSettles(stb, a2);
    CommitsCommuteRows(st, ma, mb, sa, sb, t1, t2);
    CommitsCommuteLog(st, ma, mb, sa, sb, t1, t2);
  }

  /** The two-step form of ReplayDifferentRowsCommute when a message does not decode. */
  lemma StepsCommuteMalformed(st: Ledger, a: RawMessage, b: RawMessage, t1: Instant, t2: Instant)
    requires Decode(a).Err? || Decode(b).Err?
    ensures var ab := Step(Step(st, Delivery(a, t1)), Delivery(b, t2));
            var ba := Step(Step(st, Delivery(b, t1)), Delivery(a, t2));
            && SameStock(ab.rows, ba.rows)
            && ab.log == ba.log
            && (t1 == t2 ==> ab.rows == ba.rows)
  {
    var a1, b2, b1, a2 := Delivery(a, t1), Delivery(b, t2), Delivery(b, t1), Delivery(a, t2);
    if Decode(a).Err? {
      assert Step(st, a1) == st && Step(Step(st, b1), a2) == Step(st, b1);
    } else {
      assert Step(st, b1) == st && Step(Step(st, a1), b2) == Step(st, a1);
    }
  }

  /**
   * Two messages that touch different ledger rows commute. The clock
   * readings follow the processing order, so in either order the first
   * message processed is stamped `t1` and the second `t2`: the rows end up
   * with the same keys and quantities, the log holds the same records, and
   * when both readings coincide the rows are identical.
   */
  lemma ReplayDifferentRowsCommute(st: Ledger, a: RawMessage, b: RawMessage, t1: Instant, t2: Instant)
    requires Decode(a).Ok? && Decode(b).Ok? ==> KeyOf(Decode(a).value) != KeyOf(Decode(b).value)
    ensures var ab := Replay(st, [Delivery(a, t1), Delivery(b, t2)]);
            var ba := Replay(st, [Delivery(b, t1), Delivery(a, t2)]);
            && ab.rows.Keys == ba.rows.Keys
            && (forall k :: k in ab.rows ==> ab.rows[k].quantity == ba.rows[k].quantity)
            && multiset(ab.log) == multiset(ba.log)
            && (t1 == t2 ==> ab.rows == ba.rows)
  {
    ReplayPair(st, Delivery(a, t1), Delivery(b, t2));
    ReplayPair(st, Delivery(b, t1), Delivery(a, t2));
    if Decode(a).Ok? && Decode(b).Ok? {
      StepsCommuteDecoded(st, a, b, t1, t2);
    } else {
      StepsCommuteMalformed(st, a, b, t1, t2);
    }
  }

  /**
   * On one row the ledger is not reordered: from an empty ledger, a
   * departure of 5 before the arrival of 5 is refused and only the arrival
   * is logged, while the other order logs both.
   */
  lemma ReplaySameRowOrderMatters(arrive: Delivery, depart: Delivery)
    requires arrive.msg == RawMessage(Some(Payload(Some("m1"), Some("w1"), Some("p1"), Some(5),
                                                   Some(Arrival), Some(Parsed(60)))), None)
    requires depart.msg == RawMessage(Some(Payload(Some("m1"), Some("w1"), Some("p1"), Some(5),
                                                   Some(Departure), Some(Parsed(0)))), None)
    ensures |Replay(Ledger(map[], []), [depart, arrive]).log| == 1
    ensures |Replay(Ledger(map[], []), [arrive, depart]).log| == 2
  {
    ReplayPair(Ledger(map[], []), depart, arrive);
    ReplayPair(Ledger(map[], []), arrive, depart);
  }

  /**
   * Nothing stops an arrival of a negative quantity: on an empty ledger it
   * leaves a row at -5.
   */
  lemma NegativeArrivalGoesNegative(msg: RawMessage)
    requires msg == RawMessage(Some(Payload(Some("m1"), Some("w1"), Some("p1"), Some(-5),
                                            Some(Arrival), Some(Parsed(0)))), None)
    ensures Reconcile(Ledger(map[], []), msg, 0).Ok?
    ensures Reconcile(Ledger(map[], []), msg, 0).value.rows[Key("w1", "p1")].quantity == -5
  {
  }

  /**
   * Arrival of 10 into an empty row, then a departure of 15 from it: the
   * departure is refused and the row stays at 10.
   */
  lemma OverdrawnDepartureRefused(arrive: RawMessage, depart: RawMessage, t0: Instant, t1: Instant)
    requires arrive == RawMessage(Some(Payload(Some("m1"), Some("w1"), Some("p1"), Some(10),
                                               Some(Arrival), Some(Parsed(0)))), None)
    requires depart == RawMessage(Some(Payload(Some("m1"), Some("w1"), Some("p1"), Some(15),
                                               Some(Departure), Some(Parsed(60)))), None)
    ensures Reconcile(Ledger(map[], []), arrive, t0).Ok?
    ensures Reconcile(Ledger(map[], []), arrive, t0).value.rows[Key("w1", "p1")].quantity == 10
    ensures Reconcile(Reconcile(Ledger(map[], []), arrive, t0).value, depart, t1)
            == Err(InsufficientStock("w1", "p1"))
  {
  }

  /** The store as the engine and the stock query see it. */
  class Store {
    var rows: map<Key, StockRow>
    var log: seq<MovementRecord>

    /** An empty store: no ledger rows, no movement records. */
    constructor ()
      ensures rows == map[] && log == []
    {
      rows := map[];
      log := [];
    }

    /** The committed state as a value. */
    function State(): Ledger
      reads this
    {
      Ledger(rows, log)
    }

    /**
     * Applies one stream message. On success the row update and the record
     * append are committed together; on any error nothing changes.
     */
    method Apply(msg: RawMessage, now: Instant) returns (out: Result<(), Failure>)
      modifies this
      ensures out.Ok? <==> Reconcile(old(State()), msg, now).Ok?
      ensures out.Ok? ==> State() == Reconcile(old(State()), msg, now).value
      ensures out.Err? ==> out.error == Reconcile(old(State()), msg, now).error
      ensures out.Err? ==> rows == old(rows) && log == old(log)
    {
      var decoded := Decode(msg);
      if decoded.Err? {
        return Err(decoded.error);
      }
      var movement := decoded.value;
      var key := KeyOf(movement);
      // fetch the row, or start a new one at 0
      var quantity := if key in rows then rows[key].quantity else 0;
      if movement.eventType == Arrival {
        quantity := quantity + movement.quantity;
      } else {
        if quantity < movement.quantity {
          return Err(InsufficientStock(movement.warehouseId, movement.productId));
        }
        quantity := quantity - movement.quantity;
      }
      // commit: the row and the record become visible together
      rows := rows[key := StockRow(quantity, now)];
      log := log + [movement];
      return Ok(());
    }

    /** The current stock of a product in a warehouse; fails when no row exists for the pair. */
    method GetWarehouseStock(warehouseId: string, productId: string) returns (r: Result<StockInfo, Failure>)
      ensures r.Err? <==> Key(warehouseId, productId) !in rows
      ensures r.Err? ==> r.error == StockNotFound(warehouseId, productId)
      ensures r.Ok? ==> r.value.warehouseId == warehouseId && r.value.productId == productId
      ensures r.Ok? ==> r.value.quantity == rows[Key(warehouseId, productId)].quantity
      ensures r.Ok? ==> r.value.lastUpdated == rows[Key(warehouseId, productId)].lastUpdated
    {
      var key := Key(warehouseId, productId);
      if key !in rows {
        return Err(StockNotFound(warehouseId, productId));
      }
      var row := rows[key];
      return Ok(StockInfo(warehouseId, productId, row.quantity, row.lastUpdated));
    }
  }
}
