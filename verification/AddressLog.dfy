/** The five addresses of a point against the diff log. */
module AddressLog {
  import opened ByteStrings
  import opened Outcomes
  import opened Points
  import opened Diffs
  import opened BatchParser
  import opened Signing
  import opened AzimuthEvents
  import opened Runs
  import opened Moments
  import L1 = EventLaws
  import L2 = TxLaws

  datatype Role = Owner | Spawner | Manager | Voter | Transferrer

  function Held(p: Point, c: Role): Address {
    match c
    case Owner => p.addresses.owner
    case Spawner => p.addresses.spawn
    case Manager => p.addresses.management
    case Voter => p.addresses.voting
    case Transferrer => p.addresses.transfer
  }

  /** The operation under which a change of this address is logged. */
  function Operation(c: Role): nat {
    match c
    case Owner => DIFF_CHANGED_OWNER
    case Spawner => DIFF_CHANGED_SPAWN_PROXY
    case Manager => DIFF_CHANGED_MANAGEMENT_PROXY
    case Voter => DIFF_CHANGED_VOTING_PROXY
    case Transferrer => DIFF_CHANGED_TRANSFER_PROXY
  }

  // ---------------------------------------------------------------- the latest diff of a kind

  /** The payload of the last diff of an operation on `n`, or `otherwise` if there is none. */
  function Latest(log: seq<Diff>, n: Ship, operation: nat, otherwise: Bytes): Bytes
    decreases |log|
  {
    if log == [] then otherwise
    else
      var d := log[|log| - 1];
      if d.number == n && d.operation == operation then d.data
      else Latest(log[..|log| - 1], n, operation, otherwise)
  }

  lemma {:induction false} LatestConcat(a: seq<Diff>, b: seq<Diff>, n: Ship, operation: nat, otherwise: Bytes)
    ensures Latest(a + b, n, operation, otherwise) == Latest(b, n, operation, Latest(a, n, operation, otherwise))
    decreases |b|
  {
    if b == [] {
      assert a + b == a;
    } else {
      assert (a + b)[..|a + b| - 1] == a + b[..|b| - 1];
      LatestConcat(a, b[..|b| - 1], n, operation, otherwise);
    }
  }

  lemma LatestOne(d: Diff, n: Ship, operation: nat, otherwise: Bytes)
    ensures Latest([d], n, operation, otherwise)
         == if d.number == n && d.operation == operation then d.data else otherwise
  {
    assert [d][..0] == [];
  }

  lemma {:induction false} LatestNone(log: seq<Diff>, n: Ship, operation: nat, otherwise: Bytes)
    requires forall i :: 0 <= i < |log| ==> log[i].operation != operation
    ensures Latest(log, n, operation, otherwise) == otherwise
    decreases |log|
  {
    if log != [] {
      LatestNone(log[..|log| - 1], n, operation, otherwise);
    }
  }

  // ---------------------------------------------------------------- one step

  /** What is logged between two worlds. */
  function News(w: World, w': World): seq<Diff> {
    if |w.diffs| <= |w'.diffs| then w'.diffs[|w.diffs|..] else []
  }

  lemma NewsIs(w: World, w': World, news: seq<Diff>)
    requires w'.diffs == w.diffs + news
    ensures News(w, w') == news
  {
  }

  /** Clears an address without logging it: a transfer the transfer role's, one with reset every role's. */
  predicate Clears(recover: Recovery, w: World, s: Step, n: Ship, c: Role) {
    && s.L2? && Accepted(recover, w, s.tx) && s.tx.opcode == 0 && s.tx.ship == n
    && n in w.points && w.points[n].dominion == 2 && (s.tx.proxy == 0 || s.tx.proxy == 4)
    && (c.Transferrer? || (s.tx.flag && !c.Owner?))
  }

  /** How the address and the log go together in one step. */
  ghost predicate Follows(recover: Recovery, w: World, s: Step, w': World, n: Ship, c: Role)
    requires n in w.points
  {
    && w.diffs <= w'.diffs && n in w'.points
    && Held(w'.points[n], c)
       == if Clears(recover, w, s, n, c) then ZERO_ADDRESS
          else Latest(News(w, w'), n, Operation(c), Held(w.points[n], c))
  }

  lemma SameFollows(recover: Recovery, w: World, s: Step, w': World, n: Ship, c: Role)
    requires n in w.points && n in w'.points && w'.diffs == w.diffs
    requires Held(w'.points[n], c) == Held(w.points[n], c) && !Clears(recover, w, s, n, c)
    ensures Follows(recover, w, s, w', n, c)
  {
    NewsIs(w, w', []);
  }

  lemma OneFollows(recover: Recovery, w: World, s: Step, w': World, n: Ship, c: Role, d: Diff)
    requires n in w.points && n in w'.points && w'.diffs == w.diffs + [d] && !Clears(recover, w, s, n, c)
    requires Held(w'.points[n], c)
          == if d.number == n && d.operation == Operation(c) then d.data else Held(w.points[n], c)
    ensures Follows(recover, w, s, w', n, c)
  {
    NewsIs(w, w', [d]);
    LatestOne(d, n, Operation(c), Held(w.points[n], c));
  }

  /** A transfer that takes effect. */
  predicate Transfers(w: World, tx: NaiveTx) {
    && tx.ship in w.points && w.points[tx.ship].dominion == 2 && (tx.proxy == 0 || tx.proxy == 4)
  }

  /** None of the diffs is about an address. */
  ghost predicate NoAddresses(log: seq<Diff>) {
    forall i :: 0 <= i < |log| ==> log[i].operation == DIFF_BREACHED || log[i].operation == DIFF_RESET_KEYS
  }

  lemma NoAddressesLatest(log: seq<Diff>, n: Ship, c: Role, otherwise: Bytes)
    requires NoAddresses(log)
    ensures Latest(log, n, Operation(c), otherwise) == otherwise
  {
    LatestNone(log, n, Operation(c), otherwise);
  }

  lemma TransferNews(recover: Recovery, w: World, tx: NaiveTx, w': World) returns (rest: seq<Diff>)
    requires Accepted(recover, w, tx) && ApplyTx(recover, w, tx) == Ok(w') && tx.opcode == 0
    ensures NoAddresses(rest)
    ensures w'.diffs
         == if !Transfers(w, tx) then w.diffs
            else w.diffs
                 + ([Diff(tx.eventId, tx.intraLogIndex, tx.ship, DIFF_CHANGED_OWNER, tx.targetAddress)] + rest)
  {
    L2.TransferLaw(recover, w, tx, w');
    hide ApplyTx, Accepted, L2.SomeByte, L2.OnlyRow;
    if !Transfers(w, tx) {
      rest := [];
    } else {
      rest := w'.diffs[|w.diffs| + 1..];
    }
  }

  lemma TransferHeld(recover: Recovery, w: World, tx: NaiveTx, w': World, n: Ship, c: Role)
    requires Accepted(recover, w, tx) && ApplyTx(recover, w, tx) == Ok(w') && tx.opcode == 0 && n in w.points
    ensures n in w'.points
    ensures Clears(recover, w, L2(tx), n, c) ==> Held(w'.points[n], c) == ZERO_ADDRESS && Transfers(w, tx) && !c.Owner?
    ensures var a := if Transfers(w, tx) && n == tx.ship && c.Owner? then tx.targetAddress else Held(w.points[n], c);
            !Clears(recover, w, L2(tx), n, c) ==> Held(w'.points[n], c) == a
  {
    L2.TransferLaw(recover, w, tx, w');
    hide ApplyTx, Accepted, L2.SomeByte;
  }

  lemma TransferFollows(recover: Recovery, w: World, tx: NaiveTx, w': World, n: Ship, c: Role)
    requires Accepted(recover, w, tx) && ApplyTx(recover, w, tx) == Ok(w') && tx.opcode == 0 && n in w.points
    ensures Follows(recover, w, L2(tx), w', n, c)
  {
    TransferHeld(recover, w, tx, w', n, c);
    var rest := TransferNews(recover, w, tx, w');
    hide ApplyTx, Accepted, Clears, Held, NoAddresses, Transfers;
    if !Transfers(w, tx) {
      NewsIs(w, w', []);
      NoAddressesLatest([], n, c, Held(w.points[n], c)) by {
        NoneIsNoAddresses();
      }
    } else {
      var owned := Diff(tx.eventId, tx.intraLogIndex, tx.ship, DIFF_CHANGED_OWNER, tx.targetAddress);
      NewsIs(w, w', [owned] + rest);
      var first := Latest([owned], n, Operation(c), Held(w.points[n], c));
      LatestConcat([owned], rest, n, Operation(c), Held(w.points[n], c));
      LatestOne(owned, n, Operation(c), Held(w.points[n], c));
      NoAddressesLatest(rest, n, c, first);
      hide Latest, News;
    }
  }

  lemma NoneIsNoAddresses()
    ensures NoAddresses([])
  {
  }

  lemma KeysNews(recover: Recovery, w: World, tx: NaiveTx, w': World) returns (news: seq<Diff>)
    requires Accepted(recover, w, tx) && ApplyTx(recover, w, tx) == Ok(w') && tx.opcode == 2
    ensures w'.diffs == w.diffs + news && NoAddresses(news)
  {
    L2.KeysLaw(recover, w, tx, w');
    hide ApplyTx, Accepted, ToBE32, L2.OnlyRow;
    news := w'.diffs[|w.diffs|..];
  }

  lemma KeysHeld(recover: Recovery, w: World, tx: NaiveTx, w': World, n: Ship, c: Role)
    requires Accepted(recover, w, tx) && ApplyTx(recover, w, tx) == Ok(w') && tx.opcode == 2 && n in w.points
    ensures n in w'.points && Held(w'.points[n], c) == Held(w.points[n], c)
  {
    L2.KeysLaw(recover, w, tx, w');
    hide ApplyTx, Accepted, ToBE32;
  }

  lemma KeysFollow(recover: Recovery, w: World, tx: NaiveTx, w': World, n: Ship, c: Role)
    requires Accepted(recover, w, tx) && ApplyTx(recover, w, tx) == Ok(w') && tx.opcode == 2 && n in w.points
    ensures Follows(recover, w, L2(tx), w', n, c)
  {
    KeysHeld(recover, w, tx, w', n, c);
    var news := KeysNews(recover, w, tx, w');
    hide ApplyTx, Accepted, Held, NoAddresses, Latest, News;
    NewsIs(w, w', news);
    NoAddressesLatest(news, n, c, Held(w.points[n], c));
  }

  /** Nothing is logged, or one diff, which names the address if it has changed. */
  ghost predicate OneAtMost(w: World, w': World, n: Ship, c: Role)
    requires n in w.points
  {
    && n in w'.points
    && ((w'.diffs == w.diffs && Held(w'.points[n], c) == Held(w.points[n], c))
        || (|w'.diffs| == |w.diffs| + 1 && w'.diffs[..|w.diffs|] == w.diffs
            && var d := w'.diffs[|w.diffs|];
               var a := if d.number == n && d.operation == Operation(c) then d.data else Held(w.points[n], c);
               Held(w'.points[n], c) == a))
  }

  lemma OneAtMostFollows(recover: Recovery, w: World, s: Step, w': World, n: Ship, c: Role)
    requires n in w.points && OneAtMost(w, w', n, c) && !Clears(recover, w, s, n, c)
    ensures Follows(recover, w, s, w', n, c)
  {
    hide Held;
    if w'.diffs == w.diffs {
      SameFollows(recover, w, s, w', n, c);
    } else {
      OneFollows(recover, w, s, w', n, c, w'.diffs[|w.diffs|]);
    }
  }

  lemma ChildTxFollows(recover: Recovery, w: World, tx: NaiveTx, w': World, n: Ship, c: Role)
    requires Accepted(recover, w, tx) && ApplyTx(recover, w, tx) == Ok(w') && n in w.points
    requires tx.opcode == 1 || 5 <= tx.opcode <= 7
    ensures OneAtMost(w, w', n, c)
  {
    hide ApplyTx, Accepted, ToBE32, L2.BornTo;
    match tx.opcode {
      case 1 => L2.SpawnLaw(recover, w, tx, w');
      case 5 => L2.AdoptLaw(recover, w, tx, w');
      case 6 => L2.RejectLaw(recover, w, tx, w');
      case 7 => L2.DetachLaw(recover, w, tx, w');
    }
  }

  lemma OwnTxFollows(recover: Recovery, w: World, tx: NaiveTx, w': World, n: Ship, c: Role)
    requires Accepted(recover, w, tx) && ApplyTx(recover, w, tx) == Ok(w') && n in w.points
    requires 3 <= tx.opcode <= 4 || 8 <= tx.opcode <= 10
    ensures OneAtMost(w, w', n, c)
  {
    hide ApplyTx, Accepted, ToBE32;
    match tx.opcode {
      case 3 => L2.EscapeLaw(recover, w, tx, w');
      case 4 => L2.CancelEscapeLaw(recover, w, tx, w');
      case _ => L2.ProxyLaw(recover, w, tx, w');
    }
  }

  lemma AcceptedFollows(recover: Recovery, w: World, tx: NaiveTx, w': World, n: Ship, c: Role)
    requires Accepted(recover, w, tx) && ApplyTx(recover, w, tx) == Ok(w') && n in w.points
    ensures Follows(recover, w, L2(tx), w', n, c)
  {
    L2.PanicLaw(recover, w, tx);
    hide ApplyTx, Accepted, Follows, OneAtMost;
    if tx.opcode == 0 {
      TransferFollows(recover, w, tx, w', n, c);
    } else if tx.opcode == 2 {
      KeysFollow(recover, w, tx, w', n, c);
    } else {
      if tx.opcode == 1 || 5 <= tx.opcode <= 7 {
        ChildTxFollows(recover, w, tx, w', n, c);
      } else {
        OwnTxFollows(recover, w, tx, w', n, c);
      }
      OneAtMostFollows(recover, w, L2(tx), w', n, c);
    }
  }

  lemma EventFollows(recover: Recovery, w: World, e: AzimuthEvent, id: nat, w': World, n: Ship, c: Role)
    requires ApplyAzimuth(w, e, id) == Ok(w') && n in w.points
    ensures Follows(recover, w, L1(id, e), w', n, c)
  {
    EventOneAtMost(w, e, id, w', n, c);
    hide ApplyAzimuth, OneAtMost;
    OneAtMostFollows(recover, w, L1(id, e), w', n, c);
  }

  lemma EventOneAtMost(w: World, e: AzimuthEvent, id: nat, w': World, n: Ship, c: Role)
    requires ApplyAzimuth(w, e, id) == Ok(w') && n in w.points
    ensures OneAtMost(w, w', n, c)
  {
    hide ApplyAzimuth, ToBE32, FromBE32, L1.IsDeposit;
    match e {
      case Spawned(parent, m) => L1.SpawnedLaw(w, id, parent, m);
      case Activated(m) => L1.ActivatedLaw(w, id, m);
      case OwnerChanged(m, a) => L1.OwnerChangedLaw(w, id, m, a);
      case ChangedSpawnProxy(m, a) => L1.ChangedSpawnProxyLaw(w, id, m, a);
      case EscapeAccepted(m, sponsor) => L1.EscapeAcceptedLaw(w, id, m, sponsor);
      case LostSponsor(m, sponsor) => L1.LostSponsorLaw(w, id, m, sponsor);
      case BrokeContinuity(m, data) => L1.BrokeContinuityLaw(w, id, m, data);
      case ChangedKeys(m, data) => L1.ChangedKeysLaw(w, id, m, data);
      case ChangedDns => L1.OtherEventsLaw(w, id);
      case Unrecognized => L1.OtherEventsLaw(w, id);
      case _ => L1.OwnEventLaw(w, e, id);
    }
  }

  lemma StepFollows(recover: Recovery, w: World, s: Step, w': World, n: Ship, c: Role)
    requires Do(recover, w, s) == Ok(w') && n in w.points
    ensures Follows(recover, w, s, w', n, c)
  {
    hide ApplyAzimuth, ApplyTx, Accepted, Follows;
    match s
    case L1(id, e) => EventFollows(recover, w, e, id, w', n, c);
    case L2(tx) =>
      if !Accepted(recover, w, tx) {
        L2.RejectedLaw(recover, w, tx);
        SameFollows(recover, w, s, w', n, c);
      } else {
        AcceptedFollows(recover, w, tx, w', n, c);
      }
  }

  // ---------------------------------------------------------------- whole runs

  /** No step of the run clears this address of `n`. */
  ghost predicate NeverCleared(recover: Recovery, w: World, steps: seq<Step>, n: Ship, c: Role)
    decreases |steps|
  {
    steps != [] ==>
      && !Clears(recover, w, steps[0], n, c)
      && (Do(recover, w, steps[0]).Ok? ==> NeverCleared(recover, Do(recover, w, steps[0]).value, steps[1..], n, c))
  }

  /**
   * Over any run of both layers that does not clear it, an address is the payload of the last new diff of its
   * operation, and unchanged if there is none.
   */
  lemma {:induction false} AddressIsLogged(recover: Recovery, w: World, steps: seq<Step>, n: Ship, c: Role)
    requires Run(recover, w, steps).Ok? && n in w.points && NeverCleared(recover, w, steps, n, c)
    ensures var w' := Run(recover, w, steps).value;
            && n in w'.points && w.diffs <= w'.diffs
            && Held(w'.points[n], c) == Latest(News(w, w'), n, Operation(c), Held(w.points[n], c))
    decreases |steps|
  {
    hide Do, Clears, Latest, Held;
    if steps == [] {
      NewsIs(w, w, []);
      LatestNone([], n, Operation(c), Held(w.points[n], c));
    } else {
      var w' := Do(recover, w, steps[0]).value;
      StepFollows(recover, w, steps[0], w', n, c);
      AddressIsLogged(recover, w', steps[1..], n, c);
      var end := Run(recover, w, steps).value;
      assert News(w, end) == News(w, w') + News(w', end);
      LatestConcat(News(w, w'), News(w', end), n, Operation(c), Held(w.points[n], c));
    }
  }

  /** The owner is never cleared, so the log always tells it. */
  lemma OwnerIsLogged(recover: Recovery, w: World, steps: seq<Step>, n: Ship)
    requires Run(recover, w, steps).Ok? && n in w.points
    ensures var w' := Run(recover, w, steps).value;
            && n in w'.points && w.diffs <= w'.diffs
            && w'.points[n].addresses.owner
               == Latest(News(w, w'), n, DIFF_CHANGED_OWNER, w.points[n].addresses.owner)
  {
    OwnerNeverCleared(recover, w, steps, n);
    AddressIsLogged(recover, w, steps, n, Owner);
    hide Run, Latest, News, NeverCleared;
  }

  lemma {:induction false} OwnerNeverCleared(recover: Recovery, w: World, steps: seq<Step>, n: Ship)
    ensures NeverCleared(recover, w, steps, n, Owner)
    decreases |steps|
  {
    hide Do, Accepted;
    if steps != [] && Do(recover, w, steps[0]).Ok? {
      OwnerNeverCleared(recover, Do(recover, w, steps[0]).value, steps[1..], n);
    }
  }

  /**
   * And if the run does clear it, then from the last time on the address is the payload of the last diff of its
   * operation logged since, and zero if there is none.
   */
  lemma {:induction false} ClearedAddress(recover: Recovery, w: World, steps: seq<Step>, n: Ship, c: Role)
    returns (i: nat, u: World, u': World)
    requires Run(recover, w, steps).Ok? && n in w.points && !NeverCleared(recover, w, steps, n, c)
    ensures Moment(recover, w, steps, i, u, u') && Clears(recover, u, steps[i], n, c)
    ensures NeverCleared(recover, u', steps[i + 1..], n, c)
    ensures var w' := Run(recover, w, steps).value;
            && n in w'.points && u'.diffs <= w'.diffs
            && Held(w'.points[n], c) == Latest(News(u', w'), n, Operation(c), ZERO_ADDRESS)
    decreases |steps|
  {
    var w' := Do(recover, w, steps[0]).value;
    NotNever(recover, w, steps, w', n, c);
    hide Do, Clears, Latest, Held, Moment, Run, NeverCleared, News;
    RunNext(recover, w, steps, w');
    StepFollows(recover, w, steps[0], w', n, c);
    if NeverCleared(recover, w', steps[1..], n, c) {
      FirstMoment(recover, w, steps, w');
      i, u, u' := 0, w, w';
      AddressIsLogged(recover, w', steps[1..], n, c);
    } else {
      i, u, u' := ClearedAddress(recover, w', steps[1..], n, c);
      LaterMoment(recover, w, steps, w', i, u, u');
      assert steps[1..][i] == steps[i + 1] && steps[1..][i + 1..] == steps[i + 2..];
      i := i + 1;
    }
  }

  lemma NotNever(recover: Recovery, w: World, steps: seq<Step>, w': World, n: Ship, c: Role)
    requires steps != [] && Do(recover, w, steps[0]) == Ok(w')
    ensures NeverCleared(recover, w, steps, n, c)
       <==> !Clears(recover, w, steps[0], n, c) && NeverCleared(recover, w', steps[1..], n, c)
  {
    hide Do, Clears;
  }
}
