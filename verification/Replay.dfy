/** The replica itself: its tables, and the loops that play pending events into them. */
module Replay {
  import ByteStrings
  import opened Outcomes
  import opened Points
  import opened Diffs
  import opened BatchParser
  import opened BatchTheorems
  import opened Signing
  import A = AzimuthEvents
  import N = NaiveEffects
  import opened Runs
  import opened EventOrder

  type EventTable = map<Key, Event>

  /** Events that have not been played. */
  ghost function PendingOf(events: EventTable, processed: set<Key>): set<Key> {
    events.Keys - processed
  }

  /** Pending layer 1 events from before the start of the Naive contract. */
  ghost function EarlyOf(events: EventTable, processed: set<Key>, naiveStart: nat): set<Key> {
    set k | k in events && k !in processed && events[k].Azimuth? && k.block < naiveStart
  }

  ghost predicate Stored(events: EventTable, rows: seq<Key>) {
    forall i :: 0 <= i < |rows| ==> rows[i] in events
  }

  ghost function Lookup(events: EventTable, rows: seq<Key>): (r: seq<Event>)
    requires Stored(events, rows)
    ensures |r| == |rows|
  {
    seq(|rows|, i requires 0 <= i < |rows| => events[rows[i]])
  }

  /** The outcome of playing `rows` one by one. */
  ghost function Played(recover: Recovery, w: World, events: EventTable, rows: seq<Key>): Result<World>
    requires Stored(events, rows)
  {
    Fold(recover, w, Lookup(events, rows))
  }

  lemma PlayedConcat(recover: Recovery, w: World, events: EventTable, a: seq<Key>, b: seq<Key>)
    requires Stored(events, a) && Stored(events, b)
    ensures Stored(events, a + b)
    ensures Played(recover, w, events, a + b)
         == match Played(recover, w, events, a) { case Panic => Panic case Ok(w') => Played(recover, w', events, b) }
  {
    assert Lookup(events, a + b) == Lookup(events, a) + Lookup(events, b);
    FoldConcat(recover, w, Lookup(events, a), Lookup(events, b));
  }

  lemma PlayedOne(recover: Recovery, w: World, events: EventTable, k: Key)
    requires k in events
    ensures Stored(events, [k]) && Played(recover, w, events, [k]) == ApplyEvent(recover, w, events[k])
    ensures Stored(events, []) && Played(recover, w, events, []) == Ok(w)
  {
    hide ApplyEvent;
    var one := Lookup(events, [k]);
    assert one[0] == events[k] && one[1..] == [];
    if ApplyEvent(recover, w, events[k]).Ok? {
      assert Fold(recover, ApplyEvent(recover, w, events[k]).value, one[1..])
          == Ok(ApplyEvent(recover, w, events[k]).value);
    }
    assert Lookup(events, []) == [];
  }

  /** Cutting ordered rows at `m` and `n` cuts their members into disjoint parts. */
  lemma Parts(rows: seq<Key>, m: nat, n: nat)
    requires Ordered(rows) && m <= n <= |rows|
    ensures Members(rows[..n]) == Members(rows[..m]) + Members(rows[m..n])
    ensures Members(rows[n..]) == Members(rows[m..]) - Members(rows[m..n])
  {
    hide Members;
    assert rows[..n] == rows[..m] + rows[m..n];
    MembersConcat(rows[..m], rows[m..n]);
    assert rows[m..] == rows[m..n] + rows[n..];
    MembersConcat(rows[m..n], rows[n..]);
    OrderedConcat(rows[m..n], rows[n..]);
    DisjointParts(rows[m..n], rows[n..]);
  }

  /** Playing the rows from `m` to `n` after those up to `m`. */
  lemma Advance(recover: Recovery, start: World, w: World, events: EventTable, rows: seq<Key>, m: nat, n: nat)
    requires Stored(events, rows) && Ordered(rows) && m <= n <= |rows|
    requires Stored(events, rows[..m]) && Played(recover, start, events, rows[..m]) == Ok(w)
    ensures Stored(events, rows[..n]) && Stored(events, rows[m..n])
    ensures Played(recover, start, events, rows[..n]) == Played(recover, w, events, rows[m..n])
    ensures Played(recover, start, events, rows[..n]).Panic? ==> Played(recover, start, events, rows).Panic?
    ensures rows[..|rows|] == rows
    ensures Members(rows[..n]) == Members(rows[..m]) + Members(rows[m..n])
    ensures Members(rows[n..]) == Members(rows[m..]) - Members(rows[m..n])
  {
    hide Played, Members, Ordered;
    Parts(rows, m, n);
    PlayedConcat(recover, start, events, rows[..m], rows[m..n]);
    assert rows[..n] == rows[..m] + rows[m..n];
    PlayedConcat(recover, start, events, rows[..n], rows[n..]);
    assert rows == rows[..n] + rows[n..];
  }

  lemma AtStart(recover: Recovery, w: World, events: EventTable, rows: seq<Key>)
    requires Members(rows) <= events.Keys
    ensures Stored(events, rows) && Stored(events, rows[..0])
    ensures Played(recover, w, events, rows[..0]) == Ok(w)
    ensures Members(rows[..0]) == {} && rows[0..] == rows
  {
    assert Lookup(events, rows[..0]) == [];
    assert forall i :: 0 <= i < |rows| ==> rows[i] in Members(rows);
  }

  /** A tail of ordered rows is what selecting its members gives back. */
  lemma SelectedTail(rows: seq<Key>, m: nat, limit: nat)
    requires Ordered(rows) && m <= |rows|
    ensures InOrder(Members(rows[m..])) == rows[m..]
    ensures |Members(rows[m..])| == |rows| - m
    ensures var k := if limit < |rows| - m then limit else |rows| - m;
            rows[m..][..k] == rows[m..m + k]
  {
    InOrderIs(rows[m..]);
    SizeOfOrdered(rows[m..]);
  }

  // ---------------------------------------------------------------- executing effects

  method ExecuteAll(t: Table, queries: seq<Query>) returns (r: Result<Table>)
    ensures r == ExecAll(t, queries)
  {
    var table := t;
    assert queries[0..] == queries;
    for i := 0 to |queries|
      invariant ExecAll(t, queries) == ExecAll(table, queries[i..])
    {
      hide Exec;
      assert queries[i..][1..] == queries[i + 1..];
      match Exec(table, queries[i]) {
        case Panic => return Panic;
        case Ok(t') => table := t';
      }
    }
    return Ok(table);
  }

  method SaveAll(t: Table, log: seq<Diff>, diffs: seq<Diff>) returns (r: Result<seq<Diff>>)
    ensures r == SaveDiffs(t, log, diffs)
  {
    var saved := log;
    assert diffs[0..] == diffs;
    for i := 0 to |diffs|
      invariant SaveDiffs(t, log, diffs) == SaveDiffs(t, saved, diffs[i..])
    {
      assert diffs[i..][1..] == diffs[i + 1..];
      if diffs[i].number !in t {
        return Panic;
      }
      saved := saved + [diffs[i]];
    }
    return Ok(saved);
  }

  /** One transaction of a batch: checked against its source's row, then executed, then logged. */
  method PlayTx(recover: Recovery, w: World, tx: NaiveTx) returns (r: Result<World>)
    requires |tx.signature| == 65
    ensures r == ApplyTx(recover, w, tx)
  {
    hide N.Aborts, N.Intended, N.IntendedDiffs, Verdict;
    var p := GetPoint(w.points, tx.ship);
    if p.Panic? {
      return Panic;
    }
    var verified := VerifySignature(recover, tx, p.value);
    if verified.Panic? {
      return Panic;
    }
    if !verified.value {
      return Ok(w);
    }
    var effect := N.Effects(tx, w.points);
    if effect.Panic? {
      return Panic;
    }
    var written := ExecuteAll(w.points, effect.value.queries);
    TxDiffsNameRows(tx, w.points);
    var saved := SaveAll(written.value, w.diffs, effect.value.diffs);
    return Ok(World(written.value, saved.value));
  }

  lemma SignaturesFit(data: ByteStrings.Bytes, id: nat)
    ensures forall i :: 0 <= i < |Parsed(data, id)| ==> |Parsed(data, id)[i].signature| == 65
  {
    hide Records;
    if Records(data, id, 0).Some? {
      ParsedFromParser(data, id, 0);
    }
  }

  class Replica {
    var points: Table
    var diffs: seq<Diff>
    var events: EventTable
    var processed: set<Key>
    const recover: Recovery
    const naiveStart: nat

    ghost predicate Valid()
      reads this
    {
      processed <= events.Keys
    }

    ghost function State(): World
      reads this
    {
      World(points, diffs)
    }

    ghost function Pending(): set<Key>
      reads this
    {
      PendingOf(events, processed)
    }

    ghost function Early(): set<Key>
      reads this
    {
      EarlyOf(events, processed, naiveStart)
    }

    constructor (recover: Recovery, naiveStart: nat)
      ensures Valid() && State() == GENESIS && events == map[] && processed == {}
      ensures this.recover == recover && this.naiveStart == naiveStart
    {
      points, diffs, events, processed := map[], [], map[], {};
      this.recover, this.naiveStart := recover, naiveStart;
    }

    /** Position in the chain is unique: saving a second event for one panics. */
    method SaveEvent(k: Key, e: Event) returns (ok: bool)
      requires Valid()
      modifies this`events
      ensures Valid()
      ensures ok <==> k !in old(events)
      ensures events == if ok then old(events)[k := e] else old(events)
    {
      if k in events {
        return false;
      }
      events := events[k := e];
      return true;
    }

    /** Plays layer 1 events in one transaction, which a panic rolls back. */
    method ApplyEventEffects(rows: seq<Key>) returns (ok: bool)
      requires Valid() && Stored(events, rows)
      requires forall i :: 0 <= i < |rows| ==> events[rows[i]].Azimuth?
      modifies this`points, this`diffs, this`processed
      ensures Valid()
      ensures ok <==> Played(recover, old(State()), events, rows).Ok?
      ensures ok ==> State() == Played(recover, old(State()), events, rows).value
      ensures ok ==> processed == old(processed) + Members(rows)
      ensures !ok ==> State() == old(State()) && processed == old(processed)
    {
      ghost var start := State();
      var t, log, done := points, diffs, processed;
      assert Lookup(events, rows[..0]) == [];
      for i := 0 to |rows|
        invariant unchanged(this)
        invariant Stored(events, rows[..i])
        invariant Played(recover, start, events, rows[..i]) == Ok(World(t, log))
        invariant done == processed + Members(rows[..i])
      {
        hide Played, A.Effects, ExecAll;
        var e := events[rows[i]];
        PlayedConcat(recover, start, events, rows[..i], [rows[i]]);
        PlayedOne(recover, World(t, log), events, rows[i]);
        assert rows[..i + 1] == rows[..i] + [rows[i]];
        if |rows| > i {
          PlayedConcat(recover, start, events, rows[..i + 1], rows[i + 1..]);
          assert rows == rows[..i + 1] + rows[i + 1..];
        }
        var effect := A.Effects(e.event, e.id, t);
        if effect.Panic? {
          return false;
        }
        var written := ExecuteAll(t, effect.value.queries);
        if written.Panic? {
          return false;
        }
        var saved := SaveAll(written.value, log, effect.value.diffs);
        if saved.Panic? {
          return false;
        }
        t, log := written.value, saved.value;
        MembersConcat(rows[..i], [rows[i]]);
        done := done + {rows[i]};
        assert Members([rows[i]]) == {rows[i]};
      }
      assert rows[..|rows|] == rows;
      points, diffs, processed := t, log, done;
      assert forall k :: k in Members(rows) ==> k in events;
      return true;
    }

    /** Plays one event of the Naive contract in one transaction, which a panic rolls back. */
    method ApplyBatchEvent(k: Key) returns (ok: bool)
      requires Valid() && k in events && events[k].Naive?
      modifies this`points, this`diffs, this`processed
      ensures Valid()
      ensures ok <==> ApplyEvent(recover, old(State()), events[k]).Ok?
      ensures ok ==> State() == ApplyEvent(recover, old(State()), events[k]).value
      ensures ok ==> processed == old(processed) + {k}
      ensures !ok ==> State() == old(State()) && processed == old(processed)
    {
      var e := events[k];
      if !e.isBatch {
        return false;
      }
      var txs := ParseNaiveBatch(e.data, e.id);
      SignaturesFit(e.data, e.id);
      ghost var start := State();
      var t, log := points, diffs;
      assert txs[0..] == txs;
      hide Parsed;
      for i := 0 to |txs|
        invariant unchanged(this)
        invariant ApplyTxs(recover, start, txs) == ApplyTxs(recover, World(t, log), txs[i..])
      {
        hide ApplyTx;
        assert txs[i..][1..] == txs[i + 1..];
        var r := PlayTx(recover, World(t, log), txs[i]);
        if r.Panic? {
          return false;
        }
        t, log := r.value.points, r.value.diffs;
      }
      assert txs[|txs|..] == [];
      points, diffs, processed := t, log, processed + {k};
      return true;
    }

    /** Since state `start`, in which `played` was done, the first `m` of `rows` have been played, each once. */
    ghost predicate PlayedUpTo(start: World, played: set<Key>, rows: seq<Key>, m: nat)
      reads this
    {
      && Valid() && m <= |rows| && Ordered(rows) && Stored(events, rows) && Stored(events, rows[..m])
      && Played(recover, start, events, rows[..m]) == Ok(State())
      && processed == played + Members(rows[..m])
    }

    /** Playing on from row `m` panics within the next `limit` rows. */
    ghost predicate PanicsWithin(rows: seq<Key>, m: nat, limit: nat)
      reads this
    {
      && m < |rows|
      && Stored(events, rows[m..ChunkEnd(rows, m, limit)])
      && Played(recover, State(), events, rows[m..ChunkEnd(rows, m, limit)]).Panic?
    }

    /** The event in row `m` is the one that panics. */
    ghost predicate PanicsAt(rows: seq<Key>, m: nat)
      reads this
    {
      m < |rows| && rows[m] in events && ApplyEvent(recover, State(), events[rows[m]]).Panic?
    }

    /** One round of the early loop: selects up to `limit` early events and plays them. */
    method PlayChunk(limit: nat, ghost start: World, ghost played: set<Key>, ghost rows: seq<Key>, ghost m: nat)
      returns (ok: bool, done: bool, ghost n: nat)
      requires PlayedUpTo(start, played, rows, m) && Early() == Members(rows[m..]) && limit >= 1
      modifies this`points, this`diffs, this`processed
      ensures PlayedUpTo(start, played, rows, n)
      ensures !ok ==> n == m && PanicsWithin(rows, m, limit) && Played(recover, start, events, rows).Panic?
      ensures ok ==> Early() == Members(rows[n..])
      ensures ok ==> if done then n == m == |rows| else m < n == ChunkEnd(rows, m, limit)
    {
      hide Members, InOrder, Played, Ordered;
      var early := set k | k in events && k !in processed && events[k].Azimuth? && k.block < naiveStart;
      assert early == Early();
      var chunk := Select(early, limit);
      SelectedTail(rows, m, limit);
      n := m + |chunk|;
      assert chunk == rows[m..n];
      Advance(recover, start, State(), events, rows, m, n);
      if chunk == [] {
        return true, true, n;
      }
      assert n == ChunkEnd(rows, m, limit);
      EarlyRows(events, processed, naiveStart, rows[m..], chunk);
      ok := ApplyEventEffects(chunk);
      done := false;
      if !ok {
        n := m;
      }
    }

    /**
     * Plays the early events in chunks. Whatever the chunk size, they are played in chain order, each once; a panic
     * leaves the whole chunks before the one in which it happens.
     */
    method PlayAzimuthLogs(limit: nat) returns (ok: bool, ghost m: nat)
      requires Valid() && limit >= 1
      modifies this`points, this`diffs, this`processed
      ensures PlayedUpTo(old(State()), old(processed), InOrder(old(Early())), m)
      ensures ok <==> Played(recover, old(State()), events, InOrder(old(Early()))).Ok?
      ensures Valid()
      ensures ok ==> Played(recover, old(State()), events, InOrder(old(Early()))) == Ok(State())
      ensures ok ==> processed == old(processed) + old(Early()) && Early() == {}
      ensures !ok ==> WholeChunks(m, limit) && PanicsWithin(InOrder(old(Early())), m, limit)
    {
      ghost var rows, start, played := InOrder(Early()), State(), processed;
      m := 0;
      AtStart(recover, start, events, rows);
      hide InOrder, Played, Ordered, Members, ChunkEnd, WholeChunks, PanicsWithin;
      FirstChunk(limit);
      var done := false;
      while !done
        invariant PlayedUpTo(start, played, rows, m)
        invariant Early() == Members(rows[m..])
        invariant done ==> m == |rows|
        invariant WholeChunks(m, limit) || m == |rows|
        decreases |rows| - m, !done
      {
        NextChunk(rows, m, limit);
        ok, done, m := PlayChunk(limit, start, played, rows, m);
        if !ok {
          return;
        }
      }
      ok := true;
      NoMembers(rows[m..]);
      WholeIsSelf(rows);
    }

    /** One event of the main loop, of either contract. */
    method PlayNext(k: Key, ghost start: World, ghost played: set<Key>, ghost rows: seq<Key>, ghost m: nat)
      returns (ok: bool)
      requires PlayedUpTo(start, played, rows, m) && m < |rows| && rows[m] == k
      requires Pending() == Members(rows[m..])
      modifies this`points, this`diffs, this`processed
      ensures ok ==> PlayedUpTo(start, played, rows, m + 1) && Pending() == Members(rows[m + 1..])
      ensures !ok ==> PlayedUpTo(start, played, rows, m) && Played(recover, start, events, rows).Panic?
      ensures !ok ==> PanicsAt(rows, m)
    {
      hide Members, InOrder, Played, Ordered, ApplyEvent;
      Advance(recover, start, State(), events, rows, m, m + 1);
      assert rows[m..m + 1] == [k];
      PlayedOne(recover, State(), events, k);
      OneMember(k);
      if events[k].Naive? {
        ok := ApplyBatchEvent(k);
      } else {
        ok := ApplyEventEffects([k]);
      }
    }

    /** The selected events, one after the other. */
    method PlaySelected(selected: seq<Key>, ghost start: World, ghost played: set<Key>, ghost rows: seq<Key>,
                        ghost m: nat)
      returns (ok: bool, ghost n: nat)
      requires PlayedUpTo(start, played, rows, m) && Pending() == Members(rows[m..]) && selected == rows[m..]
      modifies this`points, this`diffs, this`processed
      ensures PlayedUpTo(start, played, rows, n)
      ensures ok ==> n == |rows| && Pending() == Members(rows[n..])
      ensures !ok ==> PanicsAt(rows, n) && Played(recover, start, events, rows).Panic?
    {
      n := m;
      hide Members, Played, Ordered;
      for i := 0 to |selected|
        invariant PlayedUpTo(start, played, rows, n)
        invariant n == m + i && Pending() == Members(rows[n..])
      {
        ok := PlayNext(selected[i], start, played, rows, n);
        if !ok {
          return;
        }
        n := n + 1;
      }
      ok := true;
    }

    /** One round of the main loop: selects whatever is pending and plays it event by event. */
    method PlayRound(ghost start: World, ghost played: set<Key>, ghost rows: seq<Key>, ghost m: nat)
      returns (ok: bool, done: bool, ghost n: nat)
      requires PlayedUpTo(start, played, rows, m) && Pending() == Members(rows[m..])
      modifies this`points, this`diffs, this`processed
      ensures PlayedUpTo(start, played, rows, n)
      ensures !ok ==> PanicsAt(rows, n) && Played(recover, start, events, rows).Panic?
      ensures ok ==> n == |rows| && Pending() == {} && (done <==> m == |rows|)
    {
      hide Members, Played, Ordered, InOrder;
      var unprocessed := events.Keys - processed;
      var selected := Select(unprocessed, |unprocessed|);
      SelectedTail(rows, m, |unprocessed|);
      NoMembers(rows[|rows|..]);
      done := selected == [];
      if done {
        return true, done, m;
      }
      ok, n := PlaySelected(selected, start, played, rows, m);
    }

    /** Plays everything pending, in chain order, each once; a panic leaves the events before the one that panics. */
    method PlayNaiveLogs() returns (ok: bool, ghost m: nat)
      requires Valid()
      modifies this`points, this`diffs, this`processed
      ensures PlayedUpTo(old(State()), old(processed), InOrder(old(Pending())), m)
      ensures ok <==> Played(recover, old(State()), events, InOrder(old(Pending()))).Ok?
      ensures Valid()
      ensures ok ==> Played(recover, old(State()), events, InOrder(old(Pending()))) == Ok(State())
      ensures ok ==> processed == old(processed) + old(Pending()) && Pending() == {}
      ensures !ok ==> PanicsAt(InOrder(old(Pending())), m)
    {
      ghost var rows, start, played := InOrder(Pending()), State(), processed;
      m := 0;
      AtStart(recover, start, events, rows);
      hide InOrder, Played, Ordered, Members;
      var done := false;
      while !done
        invariant PlayedUpTo(start, played, rows, m)
        invariant Pending() == Members(rows[m..])
        invariant done ==> m == |rows| && Pending() == {}
        decreases |rows| - m, !done
      {
        ok, done, m := PlayRound(start, played, rows, m);
        if !ok {
          return;
        }
        NoMembers(rows[m..]);
      }
      ok := true;
      WholeIsSelf(rows);
    }

    /**
     * Plays the early layer 1 events, then everything left: together, the early events in order and then the others
     * in order. It succeeds exactly when playing them in that order never panics, and then nothing is pending; with
     * nothing pending to begin with it changes nothing.
     */
    method PlayLogs(limit: nat) returns (ok: bool)
      requires Valid() && limit >= 1
      modifies this`points, this`diffs, this`processed
      ensures Valid() && events == old(events)
      ensures Stored(events, PlayOrder(old(Early()), old(Pending())))
      ensures ok <==> Played(recover, old(State()), events, PlayOrder(old(Early()), old(Pending()))).Ok?
      ensures ok ==> Played(recover, old(State()), events, PlayOrder(old(Early()), old(Pending()))) == Ok(State())
      ensures ok && NaiveAfterEarly(events, old(Early()), old(Pending())) ==>
                Played(recover, old(State()), events, InOrder(old(Pending()))) == Ok(State())
      ensures ok ==> processed == events.Keys && Pending() == {}
      ensures old(Pending()) == {} ==> ok && State() == old(State()) && processed == old(processed)
    {
      Sequence(recover, State(), events, processed, naiveStart);
      hide Played, NaiveAfterEarly, InOrder, PlayOrder, PanicsAt, PanicsWithin, PlayedUpTo, EarlyOf, PendingOf, Stored;
      ghost var m;
      ok, m := PlayAzimuthLogs(limit);
      if ok {
        ok, m := PlayNaiveLogs();
      }
    }

    /** Saves `n` of the events fetched from the chain; the next one, if any, has a position that is taken. */
    method CatchUp(logs: seq<(Key, Event)>) returns (ok: bool, n: nat)
      requires Valid()
      modifies this`events
      ensures Valid() && n <= |logs|
      ensures events == old(events) + Logged(logs[..n])
      ensures if ok then n == |logs| else n < |logs| && logs[n].0 in events
      ensures ok <==> AllNew(old(events), logs)
    {
      n := 0;
      while n < |logs|
        invariant n <= |logs| && Valid()
        invariant AllNew(old(events), logs[..n]) && events == old(events) + Logged(logs[..n])
      {
        LoggedNext(old(events), logs, n);
        AllNewNext(old(events), logs, n);
        ok := SaveEvent(logs[n].0, logs[n].1);
        if !ok {
          return;
        }
        n := n + 1;
      }
      assert logs[..|logs|] == logs;
      ok := true;
    }

    /**
     * Plays what is there, catches up, and plays again. If all new events come later in the chain, and no early event
     * is among them once a later one was played, this is what playing everything at once does.
     */
    method PlayCatchUpPlay(limit: nat, logs: seq<(Key, Event)>) returns (ok: bool)
      requires Valid() && limit >= 1
      requires AllNew(events, logs) && ComeLater(Pending(), Logged(logs).Keys)
      requires Early() == Pending() || EarlyOf(Logged(logs), {}, naiveStart) == {}
      modifies this
      ensures Valid()
      ensures var all, done := old(events) + Logged(logs), old(processed);
              var order := PlayOrder(EarlyOf(all, done, naiveStart), PendingOf(all, done));
              && Stored(all, order)
              && (ok <==> Played(recover, old(State()), all, order).Ok?)
              && (ok ==> Played(recover, old(State()), all, order) == Ok(State()))
              && (ok ==> events == all && Pending() == {})
    {
      ghost var start, had, done, later := State(), events, processed, Logged(logs);
      LaterApart(had, logs);
      StagedPlay(recover, start, had, done, naiveStart, later);
      hide Played, PlayOrder, AllNew, Logged, EarlyOf, PendingOf, ComeLater, NaiveAfterEarly, Stored, InOrder, Valid;
      ok := PlayLogs(limit);
      if ok {
        var saved, n := CatchUp(logs);
        assert saved && logs[..n] == logs;
        assert events == had + later && processed == had.Keys;
        ok := PlayLogs(limit);
      }
    }
  }

  /** The early events in order, then the other pending ones in order. */
  ghost function PlayOrder(early: set<Key>, pending: set<Key>): seq<Key> {
    InOrder(early) + InOrder(pending - early)
  }

  /** No pending event of the Naive contract precedes an early layer 1 event. */
  ghost predicate NaiveAfterEarly(events: EventTable, early: set<Key>, pending: set<Key>) {
    forall n, e :: n in pending && n in events && events[n].Naive? && e in early ==> Before(e, n)
  }

  /** Playing the early events first is chain order exactly when no Naive event should have come in between. */
  lemma OneOrderOfEvents(events: EventTable, processed: set<Key>, naiveStart: nat, early: set<Key>, pending: set<Key>)
    requires pending == events.Keys - processed
    requires early == set k | k in events && k !in processed && events[k].Azimuth? && k.block < naiveStart
    ensures PlayOrder(early, pending) == InOrder(pending) <==> NaiveAfterEarly(events, early, pending)
  {
    var late := pending - early;
    var s, t := InOrder(early), InOrder(late);
    hide InOrder;
    assert early + late == pending;
    OneOrderIff(early, late);
    forall i | 0 <= i < |s| ensures s[i] in early {
      assert s[i] in Members(s);
    }
    forall j | 0 <= j < |t| ensures t[j] in late {
      assert t[j] in Members(t);
    }
    if AllBefore(s, t) {
      forall n, e | n in pending && events[n].Naive? && e in early ensures Before(e, n) {
        assert e in Members(s) && n in Members(t);
        var i :| 0 <= i < |s| && s[i] == e;
        var j :| 0 <= j < |t| && t[j] == n;
      }
    }
  }

  /** With the Naive contract's first event at its start block, as deployed, replay follows the chain. */
  lemma DeployedOrder(events: EventTable, processed: set<Key>, naiveStart: nat, early: set<Key>, pending: set<Key>)
    requires pending == events.Keys - processed
    requires early == set k | k in events && k !in processed && events[k].Azimuth? && k.block < naiveStart
    requires forall k :: k in pending && events[k].Naive? ==> k.block >= naiveStart
    ensures PlayOrder(early, pending) == InOrder(pending)
  {
    OneOrderOfEvents(events, processed, naiveStart, early, pending);
  }

  // ---------------------------------------------------------------- playing in stages

  /** Every key of `b` comes after every key of `a`. */
  ghost predicate ComeLater(a: set<Key>, b: set<Key>) {
    forall x, y :: x in a && y in b ==> Before(x, y)
  }

  lemma JoinedInOrder(a: set<Key>, b: set<Key>)
    requires ComeLater(a, b)
    ensures InOrder(a) + InOrder(b) == InOrder(a + b)
  {
    var s, t := InOrder(a), InOrder(b);
    hide InOrder;
    forall i, j | 0 <= i < |s| && 0 <= j < |t| ensures Before(s[i], t[j]) {
      assert s[i] in Members(s) && t[j] in Members(t);
    }
    OneOrderIff(a, b);
  }

  /** Neighbours without a common key can only be swapped when one of them is empty. */
  lemma SwapNeighbours(p: seq<Key>, a: seq<Key>, b: seq<Key>, q: seq<Key>)
    requires Members(a) !! Members(b)
    ensures (p + a) + (b + q) == (p + b) + (a + q) <==> a == [] || b == []
  {
    if a == [] {
      assert p + a == p && a + q == q && (p + b) + q == p + (b + q);
    } else if b == [] {
      assert p + b == p && b + q == q && (p + a) + q == p + (a + q);
    } else {
      assert ((p + a) + (b + q))[|p|] == a[0] && ((p + b) + (a + q))[|p|] == b[0];
      assert a[0] in Members(a) && b[0] in Members(b);
    }
  }

  lemma LateParts(earlyA: set<Key>, a: set<Key>, earlyB: set<Key>, b: set<Key>)
    requires earlyA <= a && earlyB <= b && ComeLater(a, b)
    ensures ComeLater(earlyA, earlyB) && ComeLater(a - earlyA, b - earlyB)
    ensures a - earlyA == {} <==> a == earlyA
    ensures a - earlyA !! earlyB && (a + b) - (earlyA + earlyB) == (a - earlyA) + (b - earlyB)
  {
    assert forall x :: x in a && x in b ==> Before(x, x);
    if a - earlyA == {} {
      assert forall x :: x in a ==> x in a - earlyA || x in earlyA;
    }
  }

  lemma UnionOrder(earlyA: set<Key>, a: set<Key>, earlyB: set<Key>, b: set<Key>)
    requires earlyA <= a && earlyB <= b && ComeLater(a, b)
    ensures PlayOrder(earlyA + earlyB, a + b)
         == (InOrder(earlyA) + InOrder(earlyB)) + (InOrder(a - earlyA) + InOrder(b - earlyB))
  {
    LateParts(earlyA, a, earlyB, b);
    JoinedInOrder(earlyA, earlyB);
    JoinedInOrder(a - earlyA, b - earlyB);
    hide InOrder, ComeLater, Ordered, Members;
  }

  /**
   * Playing a prefix of the chain and later its continuation takes the events in the same order as playing all at once
   * exactly when the prefix has nothing but early events or the continuation has none.
   */
  lemma PrefixThenContinuation(earlyA: set<Key>, a: set<Key>, earlyB: set<Key>, b: set<Key>)
    requires earlyA <= a && earlyB <= b && ComeLater(a, b)
    ensures PlayOrder(earlyA, a) + PlayOrder(earlyB, b) == PlayOrder(earlyA + earlyB, a + b)
       <==> a == earlyA || earlyB == {}
  {
    hide InOrder, ComeLater, Ordered, Members;
    LateParts(earlyA, a, earlyB, b);
    UnionOrder(earlyA, a, earlyB, b);
    var p, s, t, q := InOrder(earlyA), InOrder(a - earlyA), InOrder(earlyB), InOrder(b - earlyB);
    SwapNeighbours(p, s, t, q);
    NoMembers(s);
    NoMembers(t);
    assert PlayOrder(earlyA, a) == p + s && PlayOrder(earlyB, b) == t + q;
  }

  lemma MoreStored(events: EventTable, later: EventTable, rows: seq<Key>)
    requires Stored(events, rows) && events.Keys !! later.Keys
    ensures Stored(events + later, rows) && Lookup(events + later, rows) == Lookup(events, rows)
  {
  }

  /** What playing, saving the continuation `later` and playing again gives, against playing all at once. */
  lemma StagedPlay(recover: Recovery, w: World, events: EventTable, processed: set<Key>, naiveStart: nat,
                   later: EventTable)
    requires processed <= events.Keys && events.Keys !! later.Keys
    requires ComeLater(PendingOf(events, processed), later.Keys)
    requires EarlyOf(events, processed, naiveStart) == PendingOf(events, processed)
          || EarlyOf(later, {}, naiveStart) == {}
    ensures var all := events + later;
            var first := PlayOrder(EarlyOf(events, processed, naiveStart), PendingOf(events, processed));
            var second := PlayOrder(EarlyOf(all, events.Keys, naiveStart), PendingOf(all, events.Keys));
            var whole := PlayOrder(EarlyOf(all, processed, naiveStart), PendingOf(all, processed));
            && Stored(events, first) && Stored(all, second) && Stored(all, whole)
            && Played(recover, w, all, whole)
               == match Played(recover, w, events, first) {
                    case Panic => Panic
                    case Ok(w') => Played(recover, w', all, second) }
  {
    var all := events + later;
    var a, b := PendingOf(events, processed), later.Keys;
    var earlyA, earlyB := EarlyOf(events, processed, naiveStart), EarlyOf(later, {}, naiveStart);
    assert PendingOf(all, events.Keys) == b && EarlyOf(all, events.Keys, naiveStart) == earlyB;
    assert PendingOf(all, processed) == a + b && EarlyOf(all, processed, naiveStart) == earlyA + earlyB;
    PrefixThenContinuation(earlyA, a, earlyB, b);
    InTwoParts(recover, w, events, earlyA, a);
    InTwoParts(recover, w, all, earlyB, b);
    hide PlayOrder;
    MoreStored(events, later, PlayOrder(earlyA, a));
    PlayedConcat(recover, w, all, PlayOrder(earlyA, a), PlayOrder(earlyB, b));
  }

  /** None of the fetched events is there already, nor fetched twice. */
  ghost predicate AllNew(events: EventTable, logs: seq<(Key, Event)>) {
    && (forall i :: 0 <= i < |logs| ==> logs[i].0 !in events)
    && (forall i, j :: 0 <= i < j < |logs| ==> logs[i].0 != logs[j].0)
  }

  ghost function Logged(logs: seq<(Key, Event)>): EventTable {
    if logs == [] then map[]
    else Logged(logs[..|logs| - 1])[logs[|logs| - 1].0 := logs[|logs| - 1].1]
  }

  lemma {:induction false} LoggedKeys(logs: seq<(Key, Event)>)
    ensures forall k :: k in Logged(logs) <==> exists i :: 0 <= i < |logs| && logs[i].0 == k
  {
    if logs != [] {
      var front := logs[..|logs| - 1];
      LoggedKeys(front);
      forall k ensures k in Logged(logs) <==> exists i :: 0 <= i < |logs| && logs[i].0 == k {
        if i :| 0 <= i < |logs| && logs[i].0 == k {
          assert i < |front| ==> front[i].0 == k;
        }
        if i :| 0 <= i < |front| && front[i].0 == k {
          assert logs[i].0 == k;
        }
      }
    }
  }

  lemma LaterApart(events: EventTable, logs: seq<(Key, Event)>)
    requires AllNew(events, logs)
    ensures events.Keys !! Logged(logs).Keys
  {
    LoggedKeys(logs);
  }

  lemma LoggedNext(events: EventTable, logs: seq<(Key, Event)>, i: nat)
    requires i < |logs|
    ensures events + Logged(logs[..i + 1]) == (events + Logged(logs[..i]))[logs[i].0 := logs[i].1]
  {
    assert logs[..i + 1][..i] == logs[..i];
  }

  /** The next event can be saved exactly when it is new too. */
  lemma AllNewNext(events: EventTable, logs: seq<(Key, Event)>, i: nat)
    requires i < |logs| && AllNew(events, logs[..i])
    ensures AllNew(events, logs[..i + 1]) <==> logs[i].0 !in events + Logged(logs[..i])
    ensures AllNew(events, logs) ==> AllNew(events, logs[..i + 1])
  {
    var s, r := logs[..i + 1], logs[..i];
    LoggedKeys(r);
    hide Logged;
    if logs[i].0 in Logged(r) {
      var k :| 0 <= k < |r| && r[k].0 == logs[i].0;
      assert s[k].0 == s[i].0;
    }
    forall k | 0 <= k < i && s[k].0 == s[i].0 ensures logs[i].0 in Logged(r) {
      assert r[k].0 == logs[i].0;
    }
    assert forall k :: 0 <= k < i ==> s[k] == r[k];
  }

  /** Playing the early events and then the rest is playing both in turn; nothing pending, nothing played. */
  lemma InTwoParts(recover: Recovery, w: World, events: EventTable, early: set<Key>, pending: set<Key>)
    requires early <= pending <= events.Keys
    ensures Stored(events, InOrder(early)) && Stored(events, InOrder(pending - early))
    ensures Stored(events, InOrder(pending)) && Stored(events, PlayOrder(early, pending))
    ensures Played(recover, w, events, PlayOrder(early, pending))
         == match Played(recover, w, events, InOrder(early)) {
              case Panic => Panic
              case Ok(w') => Played(recover, w', events, InOrder(pending - early)) }
    ensures pending == {} ==> Played(recover, w, events, PlayOrder(early, pending)) == Ok(w)
    ensures pending == {} ==> InOrder(pending) == []
  {
    var first, second := InOrder(early), InOrder(pending - early);
    AtStart(recover, w, events, first);
    AtStart(recover, w, events, second);
    AtStart(recover, w, events, InOrder(pending));
    NoMembers(first);
    NoMembers(second);
    NoMembers(InOrder(pending));
    hide Played, InOrder, Members, Ordered;
    PlayedConcat(recover, w, events, first, second);
  }

  lemma WholeIsSelf(rows: seq<Key>)
    ensures rows[..|rows|] == rows
  {
  }

  /** The early events and then the rest: what they are, what playing them gives, and what has been played then. */
  lemma Sequence(recover: Recovery, w: World, events: EventTable, processed: set<Key>, naiveStart: nat)
    requires processed <= events.Keys
    ensures var pending, early := PendingOf(events, processed), EarlyOf(events, processed, naiveStart);
            && Stored(events, InOrder(early)) && Stored(events, InOrder(pending))
            && PendingOf(events, processed + early) == pending - early
            && processed + early + (pending - early) == events.Keys
            && (pending == {} ==> processed == events.Keys)
            && Stored(events, InOrder(pending - early)) && Stored(events, PlayOrder(early, pending))
            && var whole := Played(recover, w, events, PlayOrder(early, pending));
               && whole == (match Played(recover, w, events, InOrder(early)) {
                              case Panic => Panic
                              case Ok(w') => Played(recover, w', events, InOrder(pending - early)) })
               && (NaiveAfterEarly(events, early, pending) ==> whole == Played(recover, w, events, InOrder(pending)))
               && (pending == {} ==> whole == Ok(w))
  {
    var pending, early := PendingOf(events, processed), EarlyOf(events, processed, naiveStart);
    InTwoParts(recover, w, events, early, pending);
    OneOrderOfEvents(events, processed, naiveStart, early, pending);
    hide Played, InOrder, PlayOrder, NaiveAfterEarly, Stored;
  }

  /** Where a chunk of at most `limit` rows from row `m` on ends. */
  ghost function ChunkEnd(rows: seq<Key>, m: nat, limit: nat): (n: nat)
    requires m <= |rows|
    ensures m <= n <= |rows|
  {
    if limit < |rows| - m then m + limit else |rows|
  }

  /** `m` rows are some number of chunks of `limit` rows. */
  ghost predicate WholeChunks(m: nat, limit: nat)
    requires limit >= 1
  {
    m == 0 || (m >= limit && WholeChunks(m - limit, limit))
  }

  lemma FirstChunk(limit: nat)
    requires limit >= 1
    ensures WholeChunks(0, limit)
  {
  }

  lemma NextChunk(rows: seq<Key>, m: nat, limit: nat)
    requires limit >= 1 && m <= |rows|
    ensures WholeChunks(m, limit) ==>
              WholeChunks(ChunkEnd(rows, m, limit), limit) || ChunkEnd(rows, m, limit) == |rows|
    ensures m == |rows| ==> ChunkEnd(rows, m, limit) == |rows|
  {
  }

  lemma OneMember(k: Key)
    ensures Members([k]) == {k}
  {
  }

  /** A chunk selected from the early rows holds stored layer 1 events. */
  lemma EarlyRows(events: EventTable, processed: set<Key>, naiveStart: nat, rest: seq<Key>, chunk: seq<Key>)
    requires Members(rest) == set k | k in events && k !in processed && events[k].Azimuth? && k.block < naiveStart
    requires |chunk| <= |rest| && chunk == rest[..|chunk|]
    ensures Stored(events, chunk) && forall i :: 0 <= i < |chunk| ==> events[chunk[i]].Azimuth?
  {
    forall i | 0 <= i < |chunk| ensures chunk[i] in events && events[chunk[i]].Azimuth? {
      assert rest[i] in Members(rest);
    }
  }
}
