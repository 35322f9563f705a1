/** What the two drains share: a claim query with an order and a limit, and the loop over the claimed rows. */
module Batches {
  import opened Common

  ghost predicate TotalOrder<Row(!new)>(atOrBefore: (Row, Row) -> bool) {
    && (forall a, b :: atOrBefore(a, b) || atOrBefore(b, a))
    && (forall a, b, c :: atOrBefore(a, b) && atOrBefore(b, c) ==> atOrBefore(a, c))
  }

  /** The first `limit` rows that are ready, for some order of the ties. */
  predicate FirstReady<Row>(rows: seq<Row>, ready: Row -> bool, atOrBefore: (Row, Row) -> bool, limit: nat,
                            batch: seq<nat>) {
    && Distinct(batch) && |batch| <= limit
    && (forall i :: 0 <= i < |batch| ==> batch[i] < |rows| && ready(rows[batch[i]]))
    && (forall i, j :: 0 <= i < j < |batch| ==> atOrBefore(rows[batch[i]], rows[batch[j]]))
    && (forall k: nat :: k < |rows| && ready(rows[k]) && k !in batch ==>
          |batch| == limit && forall i :: 0 <= i < |batch| ==> atOrBefore(rows[batch[i]], rows[k]))
  }

  lemma {:induction false} FirstRow<Row(!new)>(rows: seq<Row>, atOrBefore: (Row, Row) -> bool, among: set<nat>)
    returns (first: nat)
    requires TotalOrder(atOrBefore) && among != {} && forall k :: k in among ==> k < |rows|
    ensures first in among && forall k :: k in among ==> atOrBefore(rows[first], rows[k])
    decreases |among|
  {
    var k :| k in among;
    if among == {k} {
      first := k;
    } else {
      assert among == {k} + (among - {k}) && among - {k} != {};
      var other := FirstRow(rows, atOrBefore, among - {k});
      first := if atOrBefore(rows[k], rows[other]) then k else other;
    }
  }

  /** The query always has an answer. */
  lemma {:induction false} BatchExists<Row(!new)>(rows: seq<Row>, ready: Row -> bool, atOrBefore: (Row, Row) -> bool,
                                                  limit: nat)
    returns (batch: seq<nat>)
    requires TotalOrder(atOrBefore)
    ensures FirstReady(rows, ready, atOrBefore, limit, batch)
  {
    if limit == 0 {
      batch := [];
    } else {
      batch := BatchExists(rows, ready, atOrBefore, limit - 1);
      var left := set k: nat | k < |rows| && ready(rows[k]) && k !in batch;
      if left != {} {
        var first := FirstRow(rows, atOrBefore, left);
        var longer := batch + [first];
        forall k: nat | k < |rows| && ready(rows[k]) && k !in longer
          ensures |longer| == limit && forall i :: 0 <= i < |longer| ==> atOrBefore(rows[longer[i]], rows[k])
        {
          assert k !in batch && k != longer[|batch|] by {
            assert forall i :: 0 <= i < |batch| ==> longer[i] == batch[i];
          }
          assert k in left;
        }
        batch := longer;
      } else {
        assert forall k: nat :: k < |rows| && ready(rows[k]) && k !in batch ==> k in left;
      }
    }
  }

  predicate InRange<Row>(rows: seq<Row>, batch: seq<nat>) {
    forall i :: 0 <= i < |batch| ==> batch[i] < |rows|
  }

  /** The table after the rows of the batch are settled, one after the other. */
  function Drained<Row, Outcome>(rows: seq<Row>, batch: seq<nat>, outcomes: seq<Outcome>, settle: (Row, Outcome) -> Row)
    : (rows': seq<Row>)
    requires |batch| == |outcomes| && InRange(rows, batch)
    ensures |rows'| == |rows|
  {
    if batch == [] then rows
    else
      var last := |batch| - 1;
      var before := Drained(rows, batch[..last], outcomes[..last], settle);
      before[batch[last] := settle(before[batch[last]], outcomes[last])]
  }

  /** Each claimed row is settled once, from the state in which it was claimed; the others are untouched. */
  lemma {:induction false} DrainedRows<Row, Outcome>(rows: seq<Row>, batch: seq<nat>, outcomes: seq<Outcome>,
                                                     settle: (Row, Outcome) -> Row)
    requires |batch| == |outcomes| && Distinct(batch) && InRange(rows, batch)
    ensures var rows' := Drained(rows, batch, outcomes, settle);
            && (forall i :: 0 <= i < |batch| ==> rows'[batch[i]] == settle(rows[batch[i]], outcomes[i]))
            && (forall k :: 0 <= k < |rows| && k !in batch ==> rows'[k] == rows[k])
  {
    if batch != [] {
      var last := |batch| - 1;
      DrainedRows(rows, batch[..last], outcomes[..last], settle);
      assert batch == batch[..last] + [batch[last]];
      assert batch[last] !in batch[..last];
    }
  }

  lemma NothingDrained<Row, Outcome>(rows: seq<Row>, batch: seq<nat>, outcomes: seq<Outcome>,
                                     settle: (Row, Outcome) -> Row)
    requires |batch| == |outcomes|
    ensures Drained(rows, batch[..0], outcomes[..0], settle) == rows
  {
  }

  lemma DrainOneMore<Row, Outcome>(rows: seq<Row>, batch: seq<nat>, outcomes: seq<Outcome>,
                                   settle: (Row, Outcome) -> Row, i: nat)
    requires i < |batch| == |outcomes| && InRange(rows, batch)
    ensures var before := Drained(rows, batch[..i], outcomes[..i], settle);
            Drained(rows, batch[..i + 1], outcomes[..i + 1], settle)
            == before[batch[i] := settle(before[batch[i]], outcomes[i])]
  {
    assert batch[..i + 1][..i] == batch[..i] && outcomes[..i + 1][..i] == outcomes[..i];
  }

  /** Marking a row claimed first leaves no trace in what it is settled to. */
  lemma UpdatedTwice<Row>(rows: seq<Row>, id: nat, first: Row, second: Row)
    requires id < |rows|
    ensures rows[id := first][id := second] == rows[id := second]
  {
  }
}
