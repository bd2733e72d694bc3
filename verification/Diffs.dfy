/** The append-only log of interpreted effects (pkg/db/diffs.go). */
module Diffs {
  import opened ByteStrings
  import opened Outcomes
  import opened Points

  const DIFF_SPAWNED := 1
  const DIFF_ACTIVATED := 2
  const DIFF_CHANGED_OWNER := 3
  const DIFF_CHANGED_SPAWN_PROXY := 4
  const DIFF_CHANGED_TRANSFER_PROXY := 5
  const DIFF_CHANGED_MANAGEMENT_PROXY := 6
  const DIFF_CHANGED_VOTING_PROXY := 7
  const DIFF_ESCAPE_REQUESTED := 8
  const DIFF_ESCAPE_CANCELED := 9
  const DIFF_ESCAPE_ACCEPTED := 10
  const DIFF_ESCAPE_REJECTED := 11
  const DIFF_LOST_SPONSOR := 12
  const DIFF_BREACHED := 13
  const DIFF_RESET_KEYS := 14
  const DIFF_NEW_DOMINION := 15

  datatype Diff = Diff(eventId: nat, intraLogIndex: nat, number: Ship, operation: nat, data: Bytes)

  /** Operations are numbered from 1 in the order of their declaration. */
  lemma OperationNumbers()
    ensures [DIFF_SPAWNED, DIFF_ACTIVATED, DIFF_CHANGED_OWNER, DIFF_CHANGED_SPAWN_PROXY, DIFF_CHANGED_TRANSFER_PROXY,
             DIFF_CHANGED_MANAGEMENT_PROXY, DIFF_CHANGED_VOTING_PROXY, DIFF_ESCAPE_REQUESTED, DIFF_ESCAPE_CANCELED,
             DIFF_ESCAPE_ACCEPTED, DIFF_ESCAPE_REJECTED, DIFF_LOST_SPONSOR, DIFF_BREACHED, DIFF_RESET_KEYS,
             DIFF_NEW_DOMINION] == seq(15, i => i + 1)
  {
  }

  /** Appending a diff panics when it names no existing point: the column is a foreign key. */
  function SaveDiffs(t: Table, log: seq<Diff>, diffs: seq<Diff>): (r: Result<seq<Diff>>)
    ensures r.Ok? <==> forall i :: 0 <= i < |diffs| ==> diffs[i].number in t
    ensures r.Ok? ==> r.value == log + diffs
    decreases |diffs|
  {
    if diffs == [] then Ok(log)
    else if diffs[0].number !in t then Panic
    else
      var r := SaveDiffs(t, log + [diffs[0]], diffs[1..]);
      assert log + diffs == log + [diffs[0]] + diffs[1..];
      assert forall i :: 1 <= i < |diffs| ==> diffs[i] == diffs[1..][i - 1];
      r
  }

  /** The payload of a diff that names another point. */
  function AzimuthNumberToData(n: Ship): Bytes {
    ToBE32(n)
  }

  /** Reads a payload of at most four bytes; a longer one panics. */
  method DataAsUint32(d: Diff) returns (r: Result<uint32>)
    ensures r.Ok? <==> |d.data| <= 4
    ensures r.Ok? ==> r.value == Numeric(d.data)
    ensures forall n: Ship :: d.data == AzimuthNumberToData(n) ==> r == Ok(n)
  {
    if |d.data| > 4 {
      return Panic;
    }
    var value: int := 0;
    for i := 0 to |d.data|
      invariant value == Numeric(d.data[..i])
      invariant i == 0 ==> value == 0
      invariant i == 1 ==> value < 0x100
      invariant i == 2 ==> value < 0x1_0000
      invariant i == 3 ==> value < 0x100_0000
      invariant 0 <= value < TWO_32
    {
      assert d.data[..i + 1][..i] == d.data[..i];
      value := value * 0x100 % TWO_32;
      value := (value + d.data[i]) % TWO_32;
    }
    assert d.data[..|d.data|] == d.data;
    forall n: Ship | d.data == AzimuthNumberToData(n) ensures value == n {
      FromToBE32(n);
      FromBE32IsNumeric(d.data);
    }
    return Ok(value);
  }
}
