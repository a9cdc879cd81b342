# Warehouse stock ledger and movement correlator

This project is a Dafny model of the core of a warehouse service. The service reads movement events (arrivals and departures of a product at a warehouse) from a message stream. It keeps two things in a database: a stock ledger with one quantity per (warehouse, product) pair, and an append-only log of movement records. On request it rebuilds a paired transfer view for a movement id: the departure side, the arrival side, the transit time and the quantity difference. All of this lives in `app/services/services.py`.

The model has four modules:

- `Wrappers` (wrappers.dfy): `Option` and `Result`.
- `Movements` (movements.dfy): covers the following.
  - The decoded stream message (`RawMessage`, `Payload`). Any key in it may be absent.
  - The stored movement record.
  - The errors the core raises (`Failure`).
  - `Decode`: it reads the payload keys in the source's order and fails on the first one that is absent. Its partner is `Encode`, with a round-trip lemma.
- `Reconciliation` (reconciliation.dfy): the write path and the stock query.
  - `Reconcile` is a function on the committed state (`Ledger`: rows plus log). It states the effect of one message.
  - `Store` is a class with a `rows` map field and a `log` sequence field.
  - `Store.Apply` works step by step as `process_kafka_message` does: decode, fetch or start the row at 0, add or subtract, then commit the row and the record together. It is proved to equal `Reconcile` and to change nothing on any error.
  - `Store.GetWarehouseStock` is the read-only lookup.
  - `Replay` folds `Reconcile` over a stream and drops messages that raise, as the consumer loop does. It is used to state the non-negativity and append-only invariants over whole streams.
- `Correlation` (correlation.dfy): the correlator.
  - `FirstOfType` is the first-match selection.
  - `Correlate` is `get_movement_info` over the records of one movement id, earliest first.
  - Lemmas cover late duplicates, listing-order independence and the balanced transfer. Together with `ReplayDifferentRowsCommute` (two messages on different rows, processed in either order with the clock readings following the processing order, leave rows with the same keys and quantities and the same multiset of records), this gives delivery-order independence for a departure and an arrival at different warehouses. On one row the order matters (`ReplaySameRowOrderMatters`): the ledger is a forward-only running total.

Timestamps are whole seconds (`int`), so transit duration is integer subtraction. The clock reading that `process_kafka_message` stores in `last_updated` is the `now` parameter.

The model follows what the code does, including behaviour a reader of the service's intent might not expect:

- Event types are not validated. Every type other than `"arrival"` is applied as a departure. The record keeps the type verbatim, so the correlator may later see neither side (`UnknownTypeIsNoValidEvent`).
- Quantities are not validated. An arrival of a negative quantity is accepted and can drive a row below zero (`NegativeArrivalGoesNegative`). Non-negativity is therefore proved only for streams without negative arrivals. A departure can never drive a row below zero.
- The insufficient-stock error names only the warehouse and the product, not the requested and available amounts.
- A missing stock row raises `InsufficientStockError` in the code. Here it is `StockNotFound`.
- The record query orders by timestamp alone. The code does not add an insertion-order tie-break (see "Left out").

## Model

| member | source | states |
|---|---|---|
| Movements.Decode | app/services/services.py:18-35 | A message without `data` fails with MissingField("data"). Otherwise the first absent payload key, in the order the engine reads them, is the one named in MissingField. When every key is present but the timestamp does not parse, it fails with InvalidTimestamp. The read succeeds iff every key is present and the timestamp parses. The record then carries exactly the payload's values and the top-level `source`. |
| Movements.DecodeEncode | app/services/services.py:18-35 | Every movement record, sent as a message and read back, is recovered unchanged. |
| Reconciliation.Reconcile | app/services/services.py:16-65 | A malformed message fails with its decode error. Otherwise the call fails iff the event is not an arrival and the row (0 when absent) holds less than the quantity, and the error names that warehouse and product. On success the log gains exactly the event's record. The touched row is created if absent and stamped with the mutation time. It rises by the quantity for an arrival and falls by it otherwise. No other row changes. |
| Reconciliation.Replay | app/kafka_consumer.py:39-47 | The committed state after a stream of messages, each applied in turn; a message that raises is logged and dropped without a commit and the next one is applied to the unchanged state. No ledger row that existed before the stream is ever deleted. |
| Reconciliation.ReconcileKeepsNonNegative | app/services/services.py:54-59 | From a non-negative ledger, a message that is not a negative arrival leaves every row non-negative. |
| Reconciliation.ReplayKeepsNonNegative | app/services/services.py:54-59 | Over any stream without negative arrivals, the ledger never holds a negative row, whatever is rejected along the way. |
| Reconciliation.ReplayExtendsLog | app/services/services.py:36-62 | The movement log only grows. Over any stream it extends its starting content by at most one record per message. |
| Reconciliation.ReplayPair | app/kafka_consumer.py:39-47 | A stream of two messages commits the second one's effect on the state the first one left (or on the unchanged state when the first one raised). |
| Reconciliation.ReplayDifferentRowsCommute | app/services/services.py:39-62 | Two messages that touch different (warehouse, product) rows, processed in either order with the first one processed stamped at the first clock reading and the second at the second, leave the same set of rows with the same quantities and a log holding the same records; when both clock readings are equal the rows are identical, last-updated times included. |
| Reconciliation.ReplaySameRowOrderMatters | app/services/services.py:54-59 | On one row, from an empty ledger, a departure of 5 delivered before the arrival of 5 is refused and only one record is logged; in the other order both are logged. |
| Reconciliation.NegativeArrivalGoesNegative | app/services/services.py:22-55 | Nothing checks the quantity: an arrival of -5 on an empty ledger is accepted and leaves the row at -5. |
| Reconciliation.OverdrawnDepartureRefused | app/services/services.py:45-59 | An arrival of 10 at a new row gives 10. A following departure of 15 is refused with InsufficientStock for that warehouse and product. |
| Reconciliation.Store.Apply | app/services/services.py:8-65 | Succeeds iff Reconcile does. On success the new rows and log are Reconcile's result. On any error it reports Reconcile's error, and the rows and the log are exactly as before. |
| Reconciliation.Store.GetWarehouseStock | app/services/services.py:117-144 | Fails iff no row exists for the pair, with StockNotFound naming it. Otherwise it returns the pair with the row's stored quantity and last-updated time, and changes nothing. |
| Correlation.FirstOfType | app/services/services.py:85-86 | Returns the position of a record of the given type that no earlier record shares. None iff no record has that type. |
| Correlation.Correlate | app/services/services.py:68-114 | No records: MovementNotFound. Records with no departure and no arrival: NoValidEvents. Otherwise the id is the requested one, and product and quantity come from the earliest record. The departure fields are present iff a departure exists and come from the earliest departure; likewise for the arrival. Duration and quantity difference are present iff both sides exist, and equal arrival minus departure in time and in quantity. |
| Correlation.FirstOfTypeAppend | app/services/services.py:85-86 | Appending a record does not move the first-of-type selection when the type is already represented or is a different type. |
| Correlation.CorrelateIgnoresLateRecord | app/services/services.py:85-105 | A later record whose type is already represented, or is neither departure nor arrival, leaves the view unchanged: the earliest record of each type wins. |
| Correlation.StrictlySortedPermutationsEqual | app/services/services.py:77-79 | Two timestamp-ordered listings of the same records with distinct timestamps are the same listing. |
| Correlation.CorrelateOrderIndependent | app/services/services.py:77-112 | The view depends only on which records exist, not on the order they were delivered in, when their timestamps are distinct. |
| Correlation.PairedTransferBalances | app/services/services.py:91-112 | A departure followed by a later arrival of the same quantity gives both warehouses and times, a transit duration of arrival minus departure (non-negative), and a quantity difference of 0. |
| Correlation.TransitNonNegative | app/services/services.py:108-111 | On time-ordered records whose first departure comes before their first arrival, the transit duration is not negative. |
| Correlation.UnknownTypeIsNoValidEvent | app/services/services.py:85-89 | A lone record whose stored type is neither "departure" nor "arrival" fails correlation with NoValidEvents. |

## Left out

- The Kafka poll loop, JSON decoding, offset commits and consumer shutdown (app/kafka_consumer.py) are transport I/O. `Replay` only mirrors the loop's "log the error and go on" behaviour.
- HTTP routing and the mapping of errors to 404 (app/api/), application bootstrap and settings are plumbing with no stock logic.
- Timestamp parsing: the model does not parse ISO-8601 text or strip a trailing `Z`. A timestamp either parses to whole seconds or is `Unparseable`, which raises `InvalidTimestamp`.
- The clock: `datetime.utcnow()` for `last_updated` is the `now` parameter.
- Fractional seconds: `total_seconds()` returns a float, while the model's transit duration is an integer difference of whole seconds.
- Wrong-typed fields: every present field has the right type here. In the source a null or text quantity and a non-text timestamp raise in Python; a non-text event type (a number, null) is only compared with `"arrival"` at line 54, so it is applied as a departure and handed to the record as it is, and a non-text identifier is never computed with. What the database then does with such values is not modelled.
- Fractional quantities: a JSON quantity such as `2.5` is a number, so lines 55-59 add and compare it without raising, and the `Integer` column then decides what is stored. Quantities here are integers, so this case is not modelled.
- Database column limits: the 32-bit `Integer` quantity column, the `String(10)` event type, the `String(10)` `source_warehouse` (app/models/models.py:28; a 36-character warehouse UUID sent as `source` fails the whole message on insert) and the `String(36)` identifiers make an overlong or overflowing value fail at commit. These limits are not modelled, so arrivals have no upper bound.
- The record query: the SQL filter by movement id and the `ORDER BY timestamp`, including how ties are ordered, are database behaviour. `Correlate` takes the records already ordered, and order independence is proved for distinct timestamps only.
- Identifier validation: ids are opaque strings here. The response schemas type `movement_id` and `product_id` as UUIDs, so a stored product id that is not a UUID (the engine stores whatever the message carried) makes `get_movement_info` raise a validation error where `Correlate` returns `Ok`. That validation is not modelled.
- Server-generated columns (`id`, `created_at`) are not modelled.
- Transactions and concurrency: a session's pending changes, rollback on close and concurrent consumers are not modelled. The commit is modelled as one atomic step.
- Duplicate delivery: a redelivered message is applied again and logged again, as in the source. No de-duplication is modelled because the source has none.
