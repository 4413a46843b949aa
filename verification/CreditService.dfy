/** The services that take the protocol's steps, on the stored tables. */
module CreditService {
  import opened Wrappers
  import opened Credits

  const WALLETS := [Free, Balance]

  /** Where an upload stops: on an exception before or after its job was queued, or not at all. */
  datatype UploadFate = RaisesBeforeEnqueue | RaisesAfterEnqueue | Commits

  datatype UploadOutcome = LimitExceeded | Raised | Created(source: Source)

  /** How a worker's run of a job ends. */
  datatype JobFate = PipelineSucceeds | PipelineFails | WorkerDies

  function UploadEvents(user: UserId, id: ReviewId, fate: UploadFate): seq<Event> {
    match fate
    case RaisesBeforeEnqueue => [ReserveCredit(user, id), AbortUpload(id)]
    case RaisesAfterEnqueue => [ReserveCredit(user, id), EnqueueJob(id), AbortUpload(id)]
    case Commits => [ReserveCredit(user, id), EnqueueJob(id), CommitUpload(id)]
  }

  function JobEvents(id: ReviewId, execution: ExecutionId, fate: JobFate): seq<Event> {
    match fate
    case PipelineSucceeds => [StartJob(id, execution), FinishJob(execution)]
    case PipelineFails => [StartJob(id, execution), FailJob(execution)]
    case WorkerDies => [StartJob(id, execution), LoseJob(execution)]
  }

  lemma {:induction false} RunTwo(w: World, a: Event, b: Event)
    ensures Run(w, [a, b]) == Step(Step(w, a), b)
  {
    assert [a, b][..1] == [a] && [a][..0] == [];
    assert Run(w, [a]) == Step(Run(w, []), a);
  }

  lemma {:induction false} RunThree(w: World, a: Event, b: Event, c: Event)
    ensures Run(w, [a, b, c]) == Step(Step(Step(w, a), b), c)
  {
    RunTwo(w, a, b);
    assert [a, b, c][..2] == [a, b];
  }

  lemma {:induction false} ReserveRefund(account: Account)
    requires Reserve(account).Some?
    ensures Refund(Reserve(account).value.0, Some(Reserve(account).value.1)) == account
  {
  }

  /** An upload's steps: after those of one that commits its credit is taken and its review queued, after those of one
      that raised wallets and reviews are as they were; none is still in flight. */
  lemma {:induction false} UploadWrites(w: World, user: UserId, id: ReviewId, fate: UploadFate)
    requires WellFormed(w) && user in w.accounts && !KnownId(w, id) && Reserve(w.accounts[user]).Some?
    ensures var taken := Reserve(w.accounts[user]).value;
      Run(w, UploadEvents(user, id, fate)) ==
        match fate
        case RaisesBeforeEnqueue => w
        case RaisesAfterEnqueue => w.(enqueued := w.enqueued + {id})
        case Commits => w.(accounts := w.accounts[user := taken.0], enqueued := w.enqueued + {id},
                           reviews := w.reviews[id := Row(user, Some(taken.1), Queued)])
  {
    var (account, source) := Reserve(w.accounts[user]).value;
    ReserveRefund(w.accounts[user]);
    assert w.uploads[id := Upload(user, source)] - {id} == w.uploads;
    assert w.accounts[user := account][user := w.accounts[user]] == w.accounts;
    match fate
    case RaisesBeforeEnqueue => RunTwo(w, ReserveCredit(user, id), AbortUpload(id));
    case RaisesAfterEnqueue => RunThree(w, ReserveCredit(user, id), EnqueueJob(id), AbortUpload(id));
    case Commits => RunThree(w, ReserveCredit(user, id), EnqueueJob(id), CommitUpload(id));
  }

  /** What the end of a started execution writes. */
  lemma {:induction false} EndWrites(started: World, id: ReviewId, execution: ExecutionId, fate: JobFate)
    requires execution in started.running && started.running[execution] == id && id in started.reviews
    requires started.reviews[id].user in started.accounts && started.reviews[id].status.Processing?
    ensures var row := started.reviews[id];
      Step(started, JobEvents(id, execution, fate)[1]) == started.(
        reviews := started.reviews[id := row.(status :=
          match fate case PipelineSucceeds => Done case PipelineFails => Failed case WorkerDies => Processing)],
        accounts := if fate.PipelineFails? then started.accounts[row.user := Refund(started.accounts[row.user], row.source)]
                    else started.accounts,
        running := started.running - {execution})
  {
    if fate.WorkerDies? {
      assert started.reviews[id := started.reviews[id]] == started.reviews;
    }
  }

  /** A delivery's steps come to the same: the review ends done or failed, or is left processing, and only a failure
      refunds it. */
  lemma {:induction false} JobWrites(w: World, id: ReviewId, execution: ExecutionId, fate: JobFate)
    requires WellFormed(w) && id in w.enqueued && execution !in w.running && id in w.reviews
    ensures var row := w.reviews[id];
      Run(w, JobEvents(id, execution, fate)) == w.(
        reviews := w.reviews[id := row.(status :=
          match fate case PipelineSucceeds => Done case PipelineFails => Failed case WorkerDies => Processing)],
        accounts := if fate.PipelineFails? then w.accounts[row.user := Refund(w.accounts[row.user], row.source)]
                    else w.accounts)
  {
    var started := w.(reviews := w.reviews[id := w.reviews[id].(status := Processing)], running := w.running[execution := id]);
    var end := JobEvents(id, execution, fate)[1];
    assert JobEvents(id, execution, fate) == [StartJob(id, execution), end];
    RunTwo(w, StartJob(id, execution), end);
    EndWrites(started, id, execution, fate);
    assert w.running[execution := id] - {execution} == w.running;
  }

  class Database {
    var accounts: map<UserId, Account>
    var uploads: map<ReviewId, Upload>
    var reviews: map<ReviewId, Row>
    var deleted: map<ReviewId, Row>
    var enqueued: set<ReviewId>
    var running: map<ExecutionId, ReviewId>

    function Contents(): World
      reads this
    {
      World(accounts, uploads, reviews, deleted, enqueued, running)
    }

    constructor (accounts: map<UserId, Account>)
      ensures Contents() == World(accounts, map[], map[], map[], {}, map[])
    {
      this.accounts := accounts;
      uploads, reviews, deleted, enqueued, running := map[], map[], map[], {}, map[];
    }

    /** The wallets are tried in order, each by one conditional decrement. */
    method CheckAndReserve(userId: UserId) returns (source: Option<Source>)
      requires userId in accounts
      modifies this`accounts
      ensures var r := Reserve(old(accounts)[userId]);
        if r.None? then source.None? && accounts == old(accounts)
        else source == Some(r.value.1) && accounts == old(accounts)[userId := r.value.0]
    {
      var user := accounts[userId];
      if user.isAdmin {
        assert accounts == accounts[userId := user];
        return Some(Admin);
      }
      for i := 0 to |WALLETS|
        invariant accounts == old(accounts)
        invariant forall j :: 0 <= j < i ==> user.Wallet(WALLETS[j]) <= 0
      {
        var column := user.Wallet(WALLETS[i]);
        if column > 0 {
          accounts := accounts[userId := user.WithWallet(WALLETS[i], column - 1)];
          return Some(WALLETS[i]);
        }
      }
      assert user.Wallet(WALLETS[0]) <= 0 && user.Wallet(WALLETS[1]) <= 0;
      source := None;
    }

    method RefundCredit(userId: UserId, source: Option<Source>)
      requires userId in accounts
      modifies this`accounts
      ensures accounts == old(accounts)[userId := Refund(old(accounts)[userId], source)]
    {
      var user := accounts[userId];
      if source == Some(Free) {
        user := user.(free := user.free + 1);
      } else if source == Some(Balance) {
        user := user.(balance := user.balance + 1);
      }
      accounts := accounts[userId := user];
    }

    /** Reserve in a transaction of its own; then create, queue and commit, or roll back and refund. */
    method CreateReview(userId: UserId, id: ReviewId, fate: UploadFate) returns (outcome: UploadOutcome)
      requires WellFormed(Contents()) && userId in accounts && !KnownId(Contents(), id)
      modifies this
      ensures outcome.LimitExceeded? <==> Reserve(old(accounts)[userId]).None?
      ensures outcome.LimitExceeded? ==> Contents() == old(Contents())
      ensures !outcome.LimitExceeded? ==>
        var taken := Reserve(old(accounts)[userId]).value;
        && Contents() == (
             match fate
             case RaisesBeforeEnqueue => old(Contents())
             case RaisesAfterEnqueue => old(Contents()).(enqueued := old(enqueued) + {id})
             case Commits => old(Contents()).(accounts := old(accounts)[userId := taken.0], enqueued := old(enqueued) + {id},
                                              reviews := old(reviews)[id := Row(userId, Some(taken.1), Queued)]))
        && outcome == if fate.Commits? then Created(taken.1) else Raised
    {
      ghost var before := Contents();
      var source := CheckAndReserve(userId);
      if source.None? {
        return LimitExceeded;
      }
      ReserveRefund(before.accounts[userId]);
      uploads := uploads[id := Upload(userId, source.value)];
      assert uploads - {id} == before.uploads;
      if fate.RaisesBeforeEnqueue? {
        uploads := uploads - {id};
        RefundCredit(userId, source);
        assert accounts == before.accounts;
        return Raised;
      }
      enqueued := enqueued + {id};
      if fate.RaisesAfterEnqueue? {
        uploads := uploads - {id};
        RefundCredit(userId, source);
        assert accounts == before.accounts;
        return Raised;
      }
      reviews := reviews[id := Row(userId, source, Queued)];
      uploads := uploads - {id};
      outcome := Created(source.value);
    }

    method MarkFailed(id: ReviewId)
      requires id in reviews && reviews[id].user in accounts
      modifies this`accounts, this`reviews
      ensures reviews == old(reviews)[id := old(reviews)[id].(status := Failed)]
      ensures var row := old(reviews)[id];
        accounts == old(accounts)[row.user := Refund(old(accounts)[row.user], row.source)]
    {
      var row := reviews[id];
      reviews := reviews[id := row.(status := Failed)];
      RefundCredit(row.user, row.source);
    }

    /** What the pipeline's end writes. */
    method EndJob(id: ReviewId, fate: JobFate)
      requires id in reviews && reviews[id].user in accounts
      modifies this`accounts, this`reviews
      ensures reviews == old(reviews)[id := old(reviews)[id].(status :=
                match fate
                case PipelineSucceeds => Done
                case PipelineFails => Failed
                case WorkerDies => old(reviews)[id].status)]
      ensures var row := old(reviews)[id];
        accounts == if fate.PipelineFails? then old(accounts)[row.user := Refund(old(accounts)[row.user], row.source)]
                    else old(accounts)
    {
      match fate {
        case PipelineSucceeds => reviews := reviews[id := reviews[id].(status := Done)];
        case PipelineFails => MarkFailed(id);
        case WorkerDies => assert reviews == reviews[id := reviews[id]];
      }
    }

    /** One delivery of a job, run to its end with nothing in between: a review that is there ends done or failed, or
        is left processing when the worker dies, and only a failure moves its wallet. */
    method ProcessReview(id: ReviewId, execution: ExecutionId, fate: JobFate)
      requires WellFormed(Contents()) && id in enqueued && execution !in running
      modifies this
      ensures id !in old(reviews) ==> Contents() == old(Contents())
      ensures id in old(reviews) ==>
        var row := old(reviews)[id];
        Contents() == old(Contents()).(
          reviews := old(reviews)[id := row.(status :=
            match fate case PipelineSucceeds => Done case PipelineFails => Failed case WorkerDies => Processing)],
          accounts := if fate.PipelineFails? then old(accounts)[row.user := Refund(old(accounts)[row.user], row.source)]
                      else old(accounts))
    {
      if id !in reviews {
        return;
      }
      reviews := reviews[id := reviews[id].(status := Processing)];
      running := running[execution := id];
      EndJob(id, fate);
      running := running - {execution};
      assert running == old(running);
    }

    method RemoveReview(id: ReviewId)
      modifies this`reviews, this`deleted
      ensures Contents() == Step(old(Contents()), DeleteReview(id))
    {
      if id in reviews {
        deleted := deleted[id := reviews[id]];
        reviews := reviews - {id};
      }
    }
  }
}
