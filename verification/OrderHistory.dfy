/** The status history replays to the orders, and is a chain exactly where retries commit on the status they read. */
module OrderHistory {
  import opened Wrappers
  import opened OrderTypes
  import opened StockLedger
  import opened OrderProtocol
  import opened OrderRuns
  import opened OrderCallbacks
  import opened OrderAtomic

  /** The status that replaying an order's STATUS_CHANGED entries ends in. */
  function Replay(history: seq<HistoryEntry>, o: Id): Option<OrderStatus>
  {
    if |history| == 0 then None
    else
      var last := history[|history| - 1];
      if last.StatusChanged? && last.order == o then Some(last.to) else Replay(history[..|history| - 1], o)
  }

  /** Every entry starts from the status the entries before it ended in. */
  ghost predicate Chained(history: seq<HistoryEntry>)
  {
    forall i :: 0 <= i < |history| && history[i].StatusChanged? ==>
      history[i].from == Replay(history[..i], history[i].order)
  }

  function CurrentStatus(s: State, o: Id): Option<OrderStatus>
  {
    if o in s.orders then Some(s.orders[o].status) else None
  }

  /** Replaying an order's entries ends in its status. */
  ghost predicate Replays(s: State)
  {
    forall o :: Replay(s.history, o) == CurrentStatus(s, o)
  }

  /** A step that leaves both alone, or keeps them in step, and extends a chain properly. */
  ghost predicate Extends(s: State, s': State)
  {
    Replays(s') && (Chained(s.history) ==> Chained(s'.history))
  }

  lemma Unmoved(s: State, s': State)
    requires Replays(s) && s'.history == s.history && forall o :: CurrentStatus(s', o) == CurrentStatus(s, o)
    ensures Extends(s, s')
  {
  }

  lemma ChainedLonger(history: seq<HistoryEntry>, e: HistoryEntry)
    ensures Chained(history + [e]) <==> Chained(history) && (e.StatusChanged? ==> e.from == Replay(history, e.order))
  {
    var longer := history + [e];
    assert longer[..|history|] == history;
    forall i | 0 <= i < |history| ensures longer[..i] == history[..i] && longer[i] == history[i] {
    }
    if Chained(longer) {
      forall i | 0 <= i < |history| && history[i].StatusChanged?
        ensures history[i].from == Replay(history[..i], history[i].order)
      {
        assert longer[i].from == Replay(longer[..i], longer[i].order);
      }
    }
  }

  lemma MovedTo(s: State, s': State, o: Id, from: Option<OrderStatus>, to: OrderStatus)
    requires Replays(s) && s'.history == s.history + [StatusChanged(o, from, to)]
    requires CurrentStatus(s', o) == Some(to) && forall x :: x != o ==> CurrentStatus(s', x) == CurrentStatus(s, x)
    ensures Replays(s')
    ensures Chained(s'.history) <==> Chained(s.history) && from == CurrentStatus(s, o)
  {
    assert s'.history[..|s.history|] == s.history;
    ChainedLonger(s.history, StatusChanged(o, from, to));
  }

  lemma Noted(s: State, s': State, o: Id)
    requires Replays(s) && s'.history == s.history + [ReceiptConfirmed(o)]
    requires forall x :: CurrentStatus(s', x) == CurrentStatus(s, x)
    ensures Extends(s, s')
  {
    assert s'.history[..|s.history|] == s.history;
    ChainedLonger(s.history, ReceiptConfirmed(o));
  }

  lemma CloseHistory(s: State, id: Id, status: AttemptStatus, paid: PaymentStatus)
    requires Replays(s) && id in s.attempts && PaymentKnown(s, s.attempts[id].order) && ReleaseHold(s, id).Some?
    ensures Extends(s, CloseAttempt(ReleaseHold(s, id).value, id, status, paid))
  {
    hide Replays, ReleaseHold, Chained;
    var o := s.attempts[id].order;
    MovedTo(s, CloseAttempt(ReleaseHold(s, id).value, id, status, paid), o, Some(s.orders[o].status), PaymentFailed);
  }

  lemma CancelHistory(s: State, o: Id, allowed: set<OrderStatus>)
    requires Replays(s) && PaymentKnown(s, o)
    ensures Extends(s, Cancel(s, o, allowed).next)
  {
    hide Replays, ReleaseHold, Restore, Chained;
    var s' := Cancel(s, o, allowed).next;
    if s' != s {
      MovedTo(s, s', o, Some(s.orders[o].status), Cancelled);
    }
  }

  lemma SuccessHistory(s: State, id: Id, cb: Callback)
    requires Replays(s)
    ensures Extends(s, ApplySuccess(s, id, cb))
  {
    hide Replays, Chained;
    if SuccessVerdict(s, id, cb) == Applied {
      var o := s.attempts[id].order;
      MovedTo(s, ApplySuccess(s, id, cb), o, Some(s.orders[o].status), Pending);
    }
  }

  /** The status a retry's entry starts from is the one it read. */
  lemma RetryHistory(s: State, o: Id, seen: OrderStatus, id: Id, key: Id, now: int, later: int)
    requires Replays(s)
    ensures var s' := RetryCommit(s, o, seen, id, key, now, later).next;
            && Replays(s')
            && (s' != s ==>
                  o in s.orders &&
                  (Chained(s'.history) <==> Chained(s.history) && seen == s.orders[o].status))
  {
    hide Replays, Chained, Deduct, ByVariant, HasPending, AttemptKeyTaken, FreshId;
    var s' := RetryCommit(s, o, seen, id, key, now, later).next;
    if s' != s {
      MovedTo(s, s', o, Some(seen), PendingPayment);
    }
  }

  lemma MoveHistory(s: State, permitted: bool, branch: Id, o: Id, target: OrderStatus)
    requires Replays(s)
    ensures Extends(s, Transition(s, permitted, branch, o, target).next)
  {
    hide Replays, Chained;
    var s' := Transition(s, permitted, branch, o, target).next;
    if s' != s {
      MovedTo(s, s', o, Some(s.orders[o].status), target);
    }
  }

  lemma PlacedHistory(s: State, r: Request)
    requires Replays(s) && (r.PlaceCodOrder? || r.PlaceVnpayOrder?)
    ensures Extends(s, Apply(s, r).next)
  {
    hide Replays, Chained, Deduct, ByVariant, CheckoutError, Subtotal, OwnAttemptExists, OwnOrderExists, OrderKeyTaken,
      AttemptKeyTaken, DistinctVariants;
    var s' := Apply(s, r).next;
    if s' != s {
      MovedTo(s, s', r.orderId, None, if r.PlaceCodOrder? then Pending else PendingPayment);
    }
  }

  lemma ConfirmHistory(s: State, user: Id, o: Id)
    requires Replays(s)
    ensures Extends(s, ConfirmReceived(s, user, o).next)
  {
    hide Replays, Chained;
    var s' := ConfirmReceived(s, user, o).next;
    if s' != s {
      Noted(s, s', o);
    }
  }

  lemma AdjustHistory(s: State, available: bool, row: Key, d: Adjustment, receipt: Id)
    requires Replays(s)
    ensures Extends(s, Adjust(s, available, row, d, receipt).next)
  {
    hide Replays, Chained;
    Unmoved(s, Adjust(s, available, row, d, receipt).next);
  }

  lemma IpnHistory(s: State, id: Id, cb: Callback)
    requires Replays(s)
    ensures Extends(s, HandleIpn(s, id, cb).next)
  {
    hide Replays, Chained, ReleaseHold, CloseAttempt, ApplySuccess, SuccessVerdict, IpnRead;
    SuccessHistory(s, id, cb);
    if id in s.attempts && PaymentKnown(s, s.attempts[id].order) && ReleaseHold(s, id).Some? {
      CloseHistory(s, id, TxCancelled, PayCancelled);
      CloseHistory(s, id, TxFailed, PayFailed);
    }
  }

  /** Every request keeps the replay; every request but a retry on a stale read extends the chain. */
  lemma RequestHistory(s: State, r: Request)
    requires Replays(s)
    ensures Replays(Apply(s, r).next)
    ensures Prompt(r) && Chained(s.history) ==> Chained(Apply(s, r).next.history)
  {
    hide Replays, Chained, HandleIpn, ReleaseHold, CloseAttempt, Cancel, ApplySuccess, SuccessVerdict, RetryCommit,
      PlaceCod, PlaceVnpay, Transition, ConfirmReceived, Adjust, ReturnRead;
    match r
    case PlaceCodOrder(b, o) => PlacedHistory(s, r);
    case PlaceVnpayOrder(b, o, id, now, later) => PlacedHistory(s, r);
    case Ipn(id, cb) => IpnHistory(s, id, cb);
    case Return(id, cb) => SuccessHistory(s, id, cb);
    case GetStatus(user, o, now) =>
      if PaymentKnown(s, o) && HasExpired(s, o, now) && ReleaseHold(s, FindExpired(s, o, now)).Some? {
        CloseHistory(s, FindExpired(s, o, now), TxExpired, PayExpired);
      }
    case RetryPayment(user, o, id, key, now, later) =>
      if o in s.orders {
        RetryHistory(s, o, s.orders[o].status, id, key, now, later);
      }
    case CommitStaleRetry(o, seen, id, key, now, later) => RetryHistory(s, o, seen, id, key, now, later);
    case CancelByCustomer(user, o) =>
      if PaymentKnown(s, o) {
        CancelHistory(s, o, CUSTOMER_CANCELLABLE);
      }
    case CancelByAdmin(permitted, branch, o) =>
      if PaymentKnown(s, o) {
        CancelHistory(s, o, ADMIN_CANCELLABLE);
      }
    case MoveOn(permitted, branch, o, target) => MoveHistory(s, permitted, branch, o, target);
    case ConfirmReceipt(user, o) => ConfirmHistory(s, user, o);
    case AdjustStock(available, k, d, receipt) => AdjustHistory(s, available, k, d, receipt);
  }

  /**
   Replaying the history of any order reproduces its status, in every run; where retries act on what they
   read, every entry also starts where the last one ended.
   */
  lemma {:induction false} HistoryReplays(start: map<Key, int>, rs: seq<Request>)
    ensures forall o :: Replay(Run(Initial(start), rs).history, o) == CurrentStatus(Run(Initial(start), rs), o)
    ensures PromptRun(rs) ==> Chained(Run(Initial(start), rs).history)
  {
    hide Apply, Chained;
    if |rs| > 0 {
      HistoryReplays(start, rs[..|rs| - 1]);
      assert Replays(Run(Initial(start), rs[..|rs| - 1]));
      RequestHistory(Run(Initial(start), rs[..|rs| - 1]), rs[|rs| - 1]);
    } else {
      EmptyChain();
    }
  }

  lemma EmptyChain()
    ensures Chained([])
  {
  }

  // ---- Exactly which runs break the chain ----

  /** A retry that goes through on a read whose status is no longer the order's. */
  ghost predicate Skips(s: State, r: Request)
  {
    r.CommitStaleRetry? && Apply(s, r).next != s && r.order in s.orders && r.seen != s.orders[r.order].status
  }

  lemma ChainedPrefix(history: seq<HistoryEntry>, longer: seq<HistoryEntry>)
    requires history <= longer && Chained(longer)
    ensures Chained(history)
  {
    forall i | 0 <= i < |history| && history[i].StatusChanged?
      ensures history[i].from == Replay(history[..i], history[i].order)
    {
      assert history[..i] == longer[..i] && history[i] == longer[i];
    }
  }

  lemma ChainStep(s: State, r: Request)
    requires Replays(s)
    ensures Chained(Apply(s, r).next.history) <==> Chained(s.history) && !Skips(s, r)
  {
    hide Replays, Chained, RetryCommit;
    if r.CommitStaleRetry? {
      RetryHistory(s, r.order, r.seen, r.attemptId, r.key, r.now, r.expireAfter);
    } else {
      hide Apply;
      RequestHistory(s, r);
      RequestPersists(s, r);
      if Chained(Apply(s, r).next.history) {
        ChainedPrefix(s.history, Apply(s, r).next.history);
      }
    }
  }

  ghost predicate NoneSkips(s: State, rs: seq<Request>)
  {
    forall i :: 0 <= i < |rs| ==> !Skips(Run(s, rs[..i]), rs[i])
  }

  lemma NoneSkipsStep(s: State, rs: seq<Request>)
    requires |rs| > 0
    ensures var front, last := rs[..|rs| - 1], rs[|rs| - 1];
            NoneSkips(s, rs) <==> NoneSkips(s, front) && !Skips(Run(s, front), last)
  {
    hide Run, Skips;
    var front := rs[..|rs| - 1];
    assert forall i :: 0 <= i < |front| ==> rs[..i] == front[..i] && rs[i] == front[i];
  }

  /** At the end of any run every entry starts where the last one ended exactly when no such retry was in it. */
  lemma {:induction false} RunChainsExactly(start: map<Key, int>, rs: seq<Request>)
    ensures Chained(Run(Initial(start), rs).history) <==> NoneSkips(Initial(start), rs)
  {
    hide Apply, Chained, Skips;
    if |rs| == 0 {
      EmptyChain();
    } else {
      hide NoneSkips;
      var front := rs[..|rs| - 1];
      RunChainsExactly(start, front);
      HistoryReplays(start, front);
      ChainStep(Run(Initial(start), front), rs[|rs| - 1]);
      NoneSkipsStep(Initial(start), rs);
    }
  }

  /** Confirming receipt adds one entry and moves no status. */
  lemma ReceiptMovesNoStatus(s: State, user: Id, o: Id)
    ensures var s' := ConfirmReceived(s, user, o).next;
            && (forall x :: CurrentStatus(s', x) == CurrentStatus(s, x) &&
                  Replay(s'.history, x) == Replay(s.history, x))
            && s'.books == s.books && s'.payments == s.payments && s'.attempts == s.attempts
            && |s'.history| - |s.history| == if s' == s then 0 else 1
  {
    var s' := ConfirmReceived(s, user, o).next;
    if s' != s {
      assert s'.history[..|s.history|] == s.history;
    }
  }

  /**
   In every reachable state a retry that goes through breaks a chain exactly when the status it read is no
   longer the order's.
   */
  lemma StaleRetryChain(start: map<Key, int>, s: State, o: Id, seen: OrderStatus, id: Id, key: Id, now: int, later: int)
    requires Reachable(start, s) && RetryCommit(s, o, seen, id, key, now, later).next != s
    ensures o in s.orders
    ensures Chained(RetryCommit(s, o, seen, id, key, now, later).next.history)
            <==> Chained(s.history) && seen == s.orders[o].status
  {
    hide Run, RetryCommit, Chained;
    var rs :| s == Run(Initial(start), rs);
    HistoryReplays(start, rs);
    RetryHistory(s, o, seen, id, key, now, later);
  }
}
