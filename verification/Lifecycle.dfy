/** The life of a review and of a worker's execution over any interleaving: what each step writes, and which step
    wrote last. */
module Lifecycle {
  import opened Wrappers
  import opened Credits

  // ----- what a step writes

  /** The status a step writes to a review: Processing from a start, Done from a finish, Failed from a failure. */
  function Mark(w: World, e: Event, id: ReviewId): Option<Status> {
    if id !in w.reviews then None
    else
      match e
      case StartJob(started, execution) =>
        if started == id && id in w.enqueued && execution !in w.running then Some(Processing) else None
      case FinishJob(execution) => if execution in w.running && w.running[execution] == id then Some(Done) else None
      case FailJob(execution) => if execution in w.running && w.running[execution] == id then Some(Failed) else None
      case _ => None
  }

  /** A present review keeps its owner and its wallet, and its status changes by a mark alone; it leaves only by its
      deletion, which keeps it as it was; it appears only by the commit of its upload, queued. */
  lemma {:induction false} StepReviews(w: World, e: Event, id: ReviewId)
    requires WellFormed(w)
    ensures var after := Step(w, e);
      && (id in w.reviews && !(e.DeleteReview? && e.id == id) ==>
            && id in after.reviews
            && after.reviews[id] == w.reviews[id].(status := if Mark(w, e, id).Some? then Mark(w, e, id).value else w.reviews[id].status))
      && (id in w.reviews && e.DeleteReview? && e.id == id ==>
            id !in after.reviews && id in after.deleted && after.deleted[id] == w.reviews[id])
      && (id !in w.reviews ==>
            (id in after.reviews <==> e == CommitUpload(id) && id in w.uploads)
            && (id in after.reviews ==> after.reviews[id] == Row(w.uploads[id].user, Some(w.uploads[id].source), Queued)))
  {
  }

  /** An execution runs from its start to its end, always for the review it was started for. It starts when a job
      that was queued finds its review there. */
  lemma {:induction false} StepRunning(w: World, e: Event, x: ExecutionId)
    requires WellFormed(w)
    ensures var after := Step(w, e);
      && (x in w.running ==>
            (x in after.running <==> e != FinishJob(x) && e != FailJob(x) && e != LoseJob(x))
            && (x in after.running ==> after.running[x] == w.running[x]))
      && (x !in w.running ==>
            (x in after.running <==> e.StartJob? && e.execution == x && e.id in w.enqueued && e.id in w.reviews)
            && (x in after.running ==> after.running[x] == e.id))
  {
  }

  /** A job is queued by its upload alone, and stays so. */
  lemma {:induction false} StepQueue(w: World, e: Event, id: ReviewId)
    ensures id in Step(w, e).enqueued <==> id in w.enqueued || (e == EnqueueJob(id) && id in w.uploads)
  {
  }

  /** The administrator's flag is what its last change made it. */
  lemma {:induction false} StepAdmin(w: World, e: Event, user: UserId)
    requires WellFormed(w) && user in w.accounts
    ensures user in Step(w, e).accounts
    ensures Step(w, e).accounts[user].isAdmin ==
            if e.SetAdmin? && e.user == user then e.flag else w.accounts[user].isAdmin
  {
  }

  // ----- who wrote last

  /** The last mark of the run on the review since it was there. */
  function LastMark(w: World, events: seq<Event>, id: ReviewId): Option<Status> {
    if events == [] then None
    else
      var front, last := events[..|events| - 1], events[|events| - 1];
      var mark := Mark(Run(w, front), last, id);
      if mark.Some? then mark else LastMark(w, front, id)
  }

  lemma {:induction false} AbsentIsUnmarked(w: World, events: seq<Event>, id: ReviewId)
    requires WellFormed(w) && id !in w.reviews && id !in w.deleted
    ensures id !in Run(w, events).reviews && id !in Run(w, events).deleted ==> LastMark(w, events, id).None?
  {
    if events != [] {
      var front, last := events[..|events| - 1], events[|events| - 1];
      AbsentIsUnmarked(w, front, id);
      RunKeepsWellFormed(w, front);
      StepReviews(Run(w, front), last, id);
      StepDeleted(Run(w, front), last, id);
    }
  }

  lemma {:induction false} StepDeleted(w: World, e: Event, id: ReviewId)
    ensures id in w.deleted ==> id in Step(w, e).deleted
    ensures id in w.deleted && e != DeleteReview(id) ==> Step(w, e).deleted[id] == w.deleted[id]
    ensures id !in w.deleted && id in Step(w, e).deleted ==> e == DeleteReview(id) && id in w.reviews
  {
  }

  /** A review that was not there before a run has the status of the run's last mark on it, and is queued if there was
      none. */
  lemma {:induction false} StatusIsLastMark(w: World, events: seq<Event>, id: ReviewId)
    requires WellFormed(w) && id !in w.reviews && id !in w.deleted
    ensures var after := Run(w, events);
      id in after.reviews ==>
        after.reviews[id].status == if LastMark(w, events, id).Some? then LastMark(w, events, id).value else Queued
  {
    if events != [] {
      var front, last := events[..|events| - 1], events[|events| - 1];
      var before := Run(w, front);
      StatusIsLastMark(w, front, id);
      RunKeepsWellFormed(w, front);
      StepReviews(before, last, id);
      if id !in before.reviews {
        AbsentIsUnmarked(w, front, id);
      }
    }
  }

  /** Event `n` of the run finished the review. */
  ghost predicate FinishedAt(w: World, events: seq<Event>, id: ReviewId, n: nat)
    requires n < |events|
  {
    var before := Run(w, events[..n]);
    events[n].FinishJob? && events[n].execution in before.running && before.running[events[n].execution] == id
      && id in before.reviews
  }

  /** Event `n` of the run started the review or made it fail. */
  ghost predicate UndoneAt(w: World, events: seq<Event>, id: ReviewId, n: nat)
    requires n < |events|
  {
    var before := Run(w, events[..n]);
    && id in before.reviews
    && (|| (events[n].StartJob? && events[n].id == id && id in before.enqueued && events[n].execution !in before.running)
        || (events[n].FailJob? && events[n].execution in before.running && before.running[events[n].execution] == id))
  }

  ghost predicate FinishedLast(w: World, events: seq<Event>, id: ReviewId) {
    exists n :: 0 <= n < |events| && FinishedAt(w, events, id, n) && forall m :: n < m < |events| ==> !UndoneAt(w, events, id, m)
  }

  lemma {:induction false} PrefixRuns(front: seq<Event>, last: Event, n: nat)
    requires n <= |front|
    ensures (front + [last])[..n] == front[..n]
  {
  }

  /** What happened at an earlier event does not depend on the later ones. */
  lemma {:induction false} EarlierSame(w: World, front: seq<Event>, last: Event, id: ReviewId, n: nat)
    requires n < |front|
    ensures FinishedAt(w, front + [last], id, n) == FinishedAt(w, front, id, n)
    ensures UndoneAt(w, front + [last], id, n) == UndoneAt(w, front, id, n)
  {
    PrefixRuns(front, last, n);
  }

  lemma {:induction false} FinishedMore(w: World, front: seq<Event>, last: Event, id: ReviewId)
    requires FinishedLast(w, front, id) && !UndoneAt(w, front + [last], id, |front|)
    ensures FinishedLast(w, front + [last], id)
  {
    var events := front + [last];
    var n :| 0 <= n < |front| && FinishedAt(w, front, id, n) && forall m :: n < m < |front| ==> !UndoneAt(w, front, id, m);
    EarlierSame(w, front, last, id, n);
    forall m | n < m < |events|
      ensures !UndoneAt(w, events, id, m)
    {
      if m < |front| {
        EarlierSame(w, front, last, id, m);
      }
    }
  }

  lemma {:induction false} FinishedLess(w: World, front: seq<Event>, last: Event, id: ReviewId)
    requires FinishedLast(w, front + [last], id) && !FinishedAt(w, front + [last], id, |front|)
    ensures FinishedLast(w, front, id) && !UndoneAt(w, front + [last], id, |front|)
  {
    var events := front + [last];
    var n :| 0 <= n < |events| && FinishedAt(w, events, id, n) && forall m :: n < m < |events| ==> !UndoneAt(w, events, id, m);
    EarlierSame(w, front, last, id, n);
    forall m | n < m < |front|
      ensures !UndoneAt(w, front, id, m)
    {
      EarlierSame(w, front, last, id, m);
    }
  }

  lemma {:induction false} FinishedNow(w: World, events: seq<Event>, id: ReviewId, n: nat)
    requires n + 1 == |events| && FinishedAt(w, events, id, n)
    ensures FinishedLast(w, events, id)
  {
  }

  lemma {:induction false} FinishedSnoc(w: World, front: seq<Event>, last: Event, id: ReviewId)
    ensures var events := front + [last];
      FinishedLast(w, events, id) <==>
        FinishedAt(w, events, id, |front|) || (FinishedLast(w, front, id) && !UndoneAt(w, events, id, |front|))
  {
    var events := front + [last];
    if FinishedAt(w, events, id, |front|) {
      FinishedNow(w, events, id, |front|);
    } else if FinishedLast(w, events, id) {
      FinishedLess(w, front, last, id);
    } else if FinishedLast(w, front, id) && !UndoneAt(w, events, id, |front|) {
      FinishedMore(w, front, last, id);
    }
  }

  lemma {:induction false} DoneMarkIsFinish(w: World, events: seq<Event>, id: ReviewId)
    ensures LastMark(w, events, id) == Some(Done) <==> FinishedLast(w, events, id)
  {
    if events != [] {
      var front, last := events[..|events| - 1], events[|events| - 1];
      assert events == front + [last];
      PrefixRuns(front, last, |front|);
      DoneMarkIsFinish(w, front, id);
      FinishedSnoc(w, front, last, id);
    }
  }

  /** Over every interleaving a review is done exactly when the last of the starts, finishes and failures about it was
      a finish. */
  lemma {:induction false} DoneIffFinishedLast(w: World, events: seq<Event>, id: ReviewId)
    requires WellFormed(w) && id !in w.reviews && id !in w.deleted
    ensures id in Run(w, events).reviews ==>
      (Run(w, events).reviews[id].status.Done? <==> FinishedLast(w, events, id))
  {
    StatusIsLastMark(w, events, id);
    DoneMarkIsFinish(w, events, id);
  }

  /** Until its job is queued nothing works on a review, and its row stays as it is. */
  lemma {:induction false} UnqueuedIsUntouched(w: World, events: seq<Event>, id: ReviewId)
    requires WellFormed(w) && id !in w.enqueued && EnqueueJob(id) !in events
    requires forall x :: x in w.running ==> w.running[x] != id
    ensures var after := Run(w, events);
      && id !in after.enqueued
      && (forall x :: x in after.running ==> after.running[x] != id)
      && (id in w.reviews && DeleteReview(id) !in events ==> id in after.reviews && after.reviews[id] == w.reviews[id])
  {
    if events != [] {
      var front, last := events[..|events| - 1], events[|events| - 1];
      var before := Run(w, front);
      assert events == front + [last];
      UnqueuedIsUntouched(w, front, id);
      RunKeepsWellFormed(w, front);
      StepQueue(before, last, id);
      StepReviews(before, last, id);
      forall x | x in Run(w, events).running
        ensures Run(w, events).running[x] != id
      {
        StepRunning(before, last, x);
      }
    }
  }

  // ----- a finished review stays finished

  /** Once done, a review without a live execution whose job is not delivered again is done until it is deleted, and
      kept as done then. */
  lemma {:induction false} DoneStays(w: World, events: seq<Event>, id: ReviewId)
    requires WellFormed(w) && id in w.reviews && w.reviews[id].status.Done?
    requires forall x :: x in w.running ==> w.running[x] != id
    requires forall e :: e in events ==> !(e.StartJob? && e.id == id)
    ensures var after := Run(w, events);
      && (forall x :: x in after.running ==> after.running[x] != id)
      && (if DeleteReview(id) in events then id !in after.reviews && id in after.deleted && after.deleted[id] == w.reviews[id]
          else id in after.reviews && after.reviews[id] == w.reviews[id])
  {
    if events != [] {
      var front, last := events[..|events| - 1], events[|events| - 1];
      var before := Run(w, front);
      assert events == front + [last];
      DoneStays(w, front, id);
      RunKeepsWellFormed(w, front);
      StepReviews(before, last, id);
      StepDeleted(before, last, id);
      forall x | x in Run(w, events).running
        ensures Run(w, events).running[x] != id
      {
        StepRunning(before, last, x);
      }
    }
  }

  /** Under one delivery at a time that is every done review. */
  lemma {:induction false} DoneHasNoExecution(w: World, id: ReviewId)
    requires OneLiveExecution(w) && id in w.reviews && w.reviews[id].status.Done?
    ensures forall x :: x in w.running ==> w.running[x] != id
  {
  }

  /** How often the review's job was delivered. */
  function Deliveries(events: seq<Event>, id: ReviewId): nat {
    if events == [] then 0
    else
      var last := events[|events| - 1];
      Deliveries(events[..|events| - 1], id) + if last.StartJob? && last.id == id then 1 else 0
  }

  /** Nothing works on a review its job was not delivered for, or that the one delivery has finished. */
  ghost predicate AtMostOneWorker(w: World, id: ReviewId, deliveries: nat) {
    && (forall x, y :: x in w.running && y in w.running && w.running[x] == id && w.running[y] == id ==> x == y)
    && (deliveries == 0 ==> forall x :: x in w.running ==> w.running[x] != id)
    && (deliveries == 0 && id in w.reviews ==> w.reviews[id].status.Queued?)
    && (id in w.reviews && w.reviews[id].status.Done? ==> forall x :: x in w.running ==> w.running[x] != id)
  }

  lemma {:induction false} StepKeepsOneWorker(w: World, e: Event, id: ReviewId, deliveries: nat)
    requires WellFormed(w) && AtMostOneWorker(w, id, deliveries)
    requires e.StartJob? && e.id == id ==> deliveries == 0
    ensures AtMostOneWorker(Step(w, e), id, if e.StartJob? && e.id == id then 1 else deliveries)
  {
  }

  lemma {:induction false} OneDelivery(w: World, events: seq<Event>, id: ReviewId)
    requires WellFormed(w) && id !in w.reviews && Deliveries(events, id) <= 1
    requires forall x :: x in w.running ==> w.running[x] != id
    ensures AtMostOneWorker(Run(w, events), id, Deliveries(events, id))
  {
    if events != [] {
      var front, last := events[..|events| - 1], events[|events| - 1];
      OneDelivery(w, front, id);
      RunKeepsWellFormed(w, front);
      StepKeepsOneWorker(Run(w, front), last, id, Deliveries(front, id));
    }
  }

  lemma {:induction false} RunJoins(w: World, first: seq<Event>, later: seq<Event>)
    ensures Run(w, first + later) == Run(Run(w, first), later)
    decreases |later|
  {
    if later == [] {
      assert first + later == first;
    } else {
      var front := later[..|later| - 1];
      assert (first + later)[..|first + later| - 1] == first + front;
      RunJoins(w, first, front);
    }
  }

  lemma {:induction false} DeliveriesJoin(first: seq<Event>, later: seq<Event>, id: ReviewId)
    ensures Deliveries(first + later, id) == Deliveries(first, id) + Deliveries(later, id)
    decreases |later|
  {
    if later == [] {
      assert first + later == first;
    } else {
      var front := later[..|later| - 1];
      assert (first + later)[..|first + later| - 1] == first + front;
      DeliveriesJoin(first, front, id);
    }
  }

  lemma {:induction false} NoDelivery(events: seq<Event>, id: ReviewId)
    requires Deliveries(events, id) == 0
    ensures forall e :: e in events ==> !(e.StartJob? && e.id == id)
  {
    if events != [] {
      var front, last := events[..|events| - 1], events[|events| - 1];
      assert events == front + [last];
      NoDelivery(front, id);
    }
  }

  /** Delivered at most once, a review that is done at some moment of a run is done from then on until it is deleted, and is
      kept as done then, whatever else happens. */
  lemma {:induction false} OneDeliveryDoneStays(w: World, first: seq<Event>, later: seq<Event>, id: ReviewId)
    requires WellFormed(w) && id !in w.reviews && Deliveries(first + later, id) <= 1
    requires forall x :: x in w.running ==> w.running[x] != id
    requires id in Run(w, first).reviews && Run(w, first).reviews[id].status.Done?
    ensures var was, after := Run(w, first).reviews[id], Run(w, first + later);
      if DeleteReview(id) in later then id !in after.reviews && id in after.deleted && after.deleted[id] == was
      else id in after.reviews && after.reviews[id] == was
  {
    DeliveriesJoin(first, later, id);
    OneDelivery(w, first, id);
    NoDelivery(later, id);
    RunKeepsWellFormed(w, first);
    DoneStays(Run(w, first), later, id);
    RunJoins(w, first, later);
  }

  /** A second delivery of its job puts a done review back to processing. */
  lemma {:induction false} RedeliveryReopens(w: World, id: ReviewId, execution: ExecutionId)
    requires id in w.reviews && w.reviews[id].status.Done? && id in w.enqueued && execution !in w.running
    ensures id in Step(w, StartJob(id, execution)).reviews
    ensures Step(w, StartJob(id, execution)).reviews[id].status.Processing?
  {
  }
}
