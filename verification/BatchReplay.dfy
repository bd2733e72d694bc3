/** Parsing and replay together: one long batch against two short ones. */
module BatchReplay {
  import opened ByteStrings
  import opened Outcomes
  import opened BatchParser
  import opened BatchTheorems
  import opened Signing
  import opened Runs

  function ApplyBatch(recover: Recovery, w: World, id: nat, data: Bytes): Result<World> {
    ApplyEvent(recover, w, Naive(id, true, data))
  }

  lemma ShiftedPayloads(txs: seq<NaiveTx>, shift: nat)
    ensures |Shifted(txs, shift)| == |txs|
    ensures forall i :: 0 <= i < |txs| ==> SamePayload(txs[i], Shifted(txs, shift)[i])
  {
  }

  /** The transactions of a batch do not depend on the event that carries it, apart from their positions. */
  lemma ApplyAnywhere(recover: Recovery, v: World, id: nat, w: World, id': nat, data: Bytes)
    requires v.points == w.points
    ensures ApplyBatch(recover, v, id, data).Ok? <==> ApplyBatch(recover, w, id', data).Ok?
    ensures ApplyBatch(recover, v, id, data).Ok? ==>
              ApplyBatch(recover, v, id, data).value.points == ApplyBatch(recover, w, id', data).value.points
  {
    RecordsPayload(data, id, 0, id', 0);
    hide Records, ApplyTxs;
    PayloadsDecide(recover, v, Parsed(data, id), w, Parsed(data, id'));
  }

  /**
   * One batch `y + x`, where `x` is consumed exactly, leaves the table that batch `x` followed by batch `y` leaves, or
   * panics where they do; but if `y` is rejected, `x` is lost with it.
   */
  lemma JoinedBatches(recover: Recovery, w: World, y: Bytes, x: Bytes, id: nat, idX: nat, idY: nat)
    requires ConsumedExactly(x, id, 0)
    ensures Records(y, id, 0).None? ==> ApplyBatch(recover, w, id, y + x) == Ok(w)
    ensures Records(y, id, 0).Some? ==>
              var whole, first := ApplyBatch(recover, w, id, y + x), ApplyBatch(recover, w, idX, x);
              if first.Panic? then whole.Panic?
              else
                var second := ApplyBatch(recover, first.value, idY, y);
                whole.Ok? == second.Ok? && (whole.Ok? ==> whole.value.points == second.value.points)
  {
    ParsedComposition(y, x, id);
    ApplyAnywhere(recover, w, id, w, idX, x);
    if Records(y, id, 0).Some? {
      hide Records;
      var xs, ys := Parsed(x, id), Parsed(y, id);
      TxsConcat(recover, w, xs, Shifted(ys, |xs|));
      var first, first' := ApplyBatch(recover, w, id, x), ApplyBatch(recover, w, idX, x);
      hide ApplyTxs;
      if first.Ok? {
        ShiftedPayloads(ys, |xs|);
        PayloadsDecide(recover, first.value, ys, first.value, Shifted(ys, |xs|));
        ApplyAnywhere(recover, first.value, id, first'.value, idY, y);
      }
    }
  }
}
