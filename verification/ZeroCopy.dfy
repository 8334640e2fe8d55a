/**
 Zero-copy sends: two completions, one release.
 */
module ZeroCopy {
  import opened Completion

  /** `PendingZc` and `PendingSendmsgZc`: the ticket, its storage, and the send result once recorded. */
  datatype Pending<S> = Pending(ring: nat, id: nat, storage: S, sent: Option<int>)
  {
    /** `record_sent`; a notice for another request leaves the ticket as it was. */
    function RecordSent(notice: PartialReceipt): Pending<S> {
      if notice.BelongsTo(ring, id) then this.(sent := Some(notice.result)) else this
    }
  }

  datatype Completed<S> = Completed(storage: S, sent: Option<int>, notified: int)
  {
    /** `result`: the send CQE's if one was recorded, the terminal one's otherwise. */
    function Result(): Outcome {
      match sent
      case Some(n) => OutcomeOf(n)
      case None => OutcomeOf(notified)
    }

    /** What the documentation of `result` promises about failures. */
    predicate EitherFailed() { notified < 0 || (sent.Some? && sent.value < 0) }
  }

  /** The ticket while events are offered to it, and what it turns into. */
  datatype State<S> = Holding(ticket: Pending<S>) | Released(done: Completed<S>)

  /** Offer one event: a partial to `record_sent`, a terminal one to `redeem`. */
  function Offer<S>(st: State<S>, e: Event): State<S> {
    match (st, e)
    case (Released(_), _) => st
    case (Holding(t), Partial(p)) => Holding(t.RecordSent(p))
    case (Holding(t), Complete(rc)) =>
      if rc.BelongsTo(t.ring, t.id) then Released(Completed(t.storage, t.sent, rc.result)) else st
  }

  function OfferAll<S>(st: State<S>, es: seq<Event>): State<S> {
    if es == [] then st else Offer(OfferAll(st, es[..|es| - 1]), es[|es| - 1])
  }

  /** Event `i` belongs to this ticket. */
  predicate Mine<S>(t: Pending<S>, e: Event) { e.BelongsTo(t.ring, t.id) }

  predicate Terminal<S>(t: Pending<S>, e: Event) { Mine(t, e) && e.Complete? }

  predicate Notice<S>(t: Pending<S>, e: Event) { Mine(t, e) && e.Partial? }

  /** The result of the last of this ticket's partial events, or what it started with. */
  function LastNotice<S>(t: Pending<S>, es: seq<Event>): Option<int> {
    if es == [] then t.sent
    else if Notice(t, es[|es| - 1]) then Some(es[|es| - 1].Result())
    else LastNotice(t, es[..|es| - 1])
  }

  /**
   Until this ticket's own terminal event is offered, no stream of events, of this
   or any request on any ring, takes anything out of the ticket.
   */
  lemma {:induction false} HoldsUntilTerminal<S>(t: Pending<S>, es: seq<Event>)
    requires forall i :: 0 <= i < |es| ==> !Terminal(t, es[i])
    ensures OfferAll(Holding(t), es) == Holding(t.(sent := LastNotice(t, es)))
  {
    if es != [] {
      HoldsUntilTerminal(t, es[..|es| - 1]);
    }
  }

  lemma {:induction false} ReleasedStays<S>(d: Completed<S>, es: seq<Event>)
    ensures OfferAll(Released(d), es) == Released(d)
  {
    if es != [] {
      ReleasedStays(d, es[..|es| - 1]);
    }
  }

  lemma {:induction false} OfferConcat<S>(st: State<S>, a: seq<Event>, b: seq<Event>)
    ensures OfferAll(st, a + b) == OfferAll(OfferAll(st, a), b)
  {
    if b == [] {
      assert a + b == a;
    } else {
      OfferConcat(st, a, b[..|b| - 1]);
      assert (a + b)[..|a + b| - 1] == a + b[..|b| - 1];
    }
  }

  /**
   The first terminal event releases everything that was pushed, with the last send
   result recorded before it; nothing offered later changes that.
   */
  lemma ReleasedByFirstTerminal<S>(t: Pending<S>, es: seq<Event>, j: nat)
    requires j < |es| && Terminal(t, es[j])
    requires forall i :: 0 <= i < j ==> !Terminal(t, es[i])
    ensures OfferAll(Holding(t), es) == Released(Completed(t.storage, LastNotice(t, es[..j]), es[j].Result()))
  {
    var d := Completed(t.storage, LastNotice(t, es[..j]), es[j].Result());
    HoldsUntilTerminal(t, es[..j]);
    assert es[..j + 1][..j] == es[..j];
    assert OfferAll(Holding(t), es[..j + 1]) == Released(d);
    OfferConcat(Holding(t), es[..j + 1], es[j + 1..]);
    ReleasedStays(d, es[j + 1..]);
    assert es == es[..j + 1] + es[j + 1..];
  }

  // ----- the kernel's two schedules -----

  /** A send result with a notification to follow, or one terminal CQE. */
  datatype Schedule = TwoPhase(sent: int, notified: int) | OnePhase(sent: int)
  {
    function Cqes(id: nat): seq<Cqe> {
      match this
      case TwoPhase(n, m) =>
        [Cqe(id, n, Flags(None, true, false, false, false)), Cqe(id, m, Flags(None, false, false, true, false))]
      case OnePhase(n) => [Cqe(id, n, Flags(None, false, false, false, false))]
    }
  }

  /** Every event of this ticket in the stream is one of the schedule's. */
  predicate Scheduled<S>(t: Pending<S>, es: seq<Event>, k: Schedule) {
    forall i :: 0 <= i < |es| && Mine(t, es[i]) ==>
      exists c :: c in k.Cqes(t.id) && es[i] == EventOf(t.ring, c)
  }

  lemma ScheduleShape<S>(t: Pending<S>, es: seq<Event>, k: Schedule, i: nat)
    requires Scheduled(t, es, k) && i < |es| && Mine(t, es[i])
    ensures es[i].Partial? ==> k.TwoPhase? && es[i].Result() == k.sent
    ensures es[i].Complete? ==> es[i].Result() == (if k.TwoPhase? then k.notified else k.sent)
  {
    FlagsDecode(None, true, false, false, false);
    FlagsDecode(None, false, false, true, false);
    FlagsDecode(None, false, false, false, false);
    var c :| c in k.Cqes(t.id) && es[i] == EventOf(t.ring, c);
  }

  lemma {:induction false} LastNoticeIs<S>(t: Pending<S>, es: seq<Event>, k: Schedule)
    requires Scheduled(t, es, k) && t.sent.None?
    ensures LastNotice(t, es)
         == if exists i :: 0 <= i < |es| && Notice(t, es[i]) then Some(k.sent) else None
  {
    if es != [] {
      var n := |es| - 1;
      if Notice(t, es[n]) {
        ScheduleShape(t, es, k, n);
      } else {
        LastNoticeIs(t, es[..n], k);
        assert forall i :: 0 <= i < n ==> es[..n][i] == es[i];
      }
    }
  }

  /**
   What the finished send reports, for any stream in which this ticket's events are
   the kernel's, in any order, mixed with any others: the send outcome exactly if
   the send result was recorded before redeeming, or there was only one CQE, or the
   two CQEs happen to say the same.
   */
  lemma ResultIsSendOutcome<S>(t: Pending<S>, es: seq<Event>, k: Schedule, j: nat)
    requires Scheduled(t, es, k) && t.sent.None?
    requires j < |es| && Terminal(t, es[j]) && forall i :: 0 <= i < j ==> !Terminal(t, es[i])
    ensures var st := OfferAll(Holding(t), es);
            && st.Released? && st.done.storage == t.storage
            && (st.done.Result() == OutcomeOf(k.sent) <==>
                  || (exists i :: 0 <= i < j && Notice(t, es[i]))
                  || k.OnePhase?
                  || k.notified == k.sent)
  {
    ReleasedByFirstTerminal(t, es, j);
    LastNoticeIs(t, es[..j], k);
    assert forall i :: 0 <= i < j ==> es[..j][i] == es[i];
    ScheduleShape(t, es, k, j);
  }

  /** Reaping with `reap`, which discards partial events, reports the notification instead. */
  lemma SkippedNoticeLosesCount<S>(t: Pending<S>, n: int, m: int)
    requires t.sent.None? && n != m
    ensures var terminal := EventOf(t.ring, TwoPhase(n, m).Cqes(t.id)[1]);
            OfferAll(Holding(t), [terminal]) == Released(Completed(t.storage, None, m))
            && Completed(t.storage, None, m).Result() != OutcomeOf(n)
  {
    FlagsDecode(None, false, false, true, false);
    var terminal := EventOf(t.ring, TwoPhase(n, m).Cqes(t.id)[1]);
    ReleasedByFirstTerminal(t, [terminal], 0);
  }

  /**
   `result` is documented to fail when either CQE did. It does so exactly unless a
   good send result was recorded and the notification failed.
   */
  lemma FailsWhenEitherDidIff<S>(d: Completed<S>)
    ensures (d.Result().Failed? <==> d.EitherFailed())
       <==> !(d.sent.Some? && d.sent.value >= 0 && d.notified < 0)
  {
  }

  /** The input on which the documented rule fails: five bytes sent, notification refused. */
  lemma NotificationErrorHidden<S>(storage: S)
    ensures var d := Completed(storage, Some(5), -1);
            d.EitherFailed() && d.Result() == Ok(5)
  {
  }
}
