/** Reserving and refunding reviews on two wallets, and the upload and worker steps that move them. */
module Credits {
  import opened Wrappers

  datatype Source = Free | Balance | Admin

  datatype Account = Account(free: int, balance: int, isAdmin: bool) {
    /** What a source's wallet holds; administrators draw on none. */
    function Wallet(source: Source): int {
      match source
      case Free => free
      case Balance => balance
      case Admin => 0
    }

    function WithWallet(source: Source, count: int): Account {
      match source
      case Free => this.(free := count)
      case Balance => this.(balance := count)
      case Admin => this
    }
  }

  /** Take one review: None means the limit is exceeded. */
  function Reserve(account: Account): (r: Option<(Account, Source)>)
    ensures r.None? <==> !account.isAdmin && account.free <= 0 && account.balance <= 0
    ensures r.Some? ==>
      && (r.value.1.Admin? <==> account.isAdmin)
      && (r.value.1.Balance? ==> account.free <= 0)
      && r.value.0.isAdmin == account.isAdmin
      && forall s :: r.value.0.Wallet(s) == account.Wallet(s) - (if s == r.value.1 && !s.Admin? then 1 else 0)
    ensures r.Some? && !account.isAdmin ==> account.Wallet(r.value.1) > 0
  {
    if account.isAdmin then Some((account, Admin))
    else if account.free > 0 then Some((account.(free := account.free - 1), Free))
    else if account.balance > 0 then Some((account.(balance := account.balance - 1), Balance))
    else None
  }

  /** Give one review back to the wallet it came from; an unrecorded or administrator's review moves nothing. */
  function Refund(account: Account, source: Option<Source>): (after: Account)
    ensures after.isAdmin == account.isAdmin
    ensures forall s :: after.Wallet(s) == account.Wallet(s) + (if source == Some(s) && !s.Admin? then 1 else 0)
  {
    if source == Some(Free) then account.(free := account.free + 1)
    else if source == Some(Balance) then account.(balance := account.balance + 1)
    else account
  }

  /** A refund undoes a reservation whatever happened to the admin flag in between. */
  lemma {:induction false} RefundUndoesReserve(account: Account, flag: bool)
    ensures var r := Reserve(account);
      r.Some? ==>
        forall s :: Refund(r.value.0.(isAdmin := flag), Some(r.value.1)).Wallet(s) == account.Wallet(s)
  {
    var r := Reserve(account);
    if r.Some? {
      var flipped := r.value.0.(isAdmin := flag);
      assert forall s :: flipped.Wallet(s) == r.value.0.Wallet(s);
    }
  }

  // ----- the world the steps act on

  type UserId = nat
  type ReviewId = nat
  type ExecutionId = nat

  datatype Status = Queued | Processing | Done | Failed

  datatype Row = Row(user: UserId, source: Option<Source>, status: Status)

  /** A request between its committed reservation and its commit or refund. */
  datatype Upload = Upload(user: UserId, source: Source)

  datatype World = World(
    accounts: map<UserId, Account>,
    uploads: map<ReviewId, Upload>,
    reviews: map<ReviewId, Row>,
    deleted: map<ReviewId, Row>,
    enqueued: set<ReviewId>,
    running: map<ExecutionId, ReviewId>
  )

  /** Every step another party can observe. A request or a worker that dies simply takes no further step. */
  datatype Event =
    | ReserveCredit(user: UserId, id: ReviewId)
    | EnqueueJob(id: ReviewId)
    | CommitUpload(id: ReviewId)
    | AbortUpload(id: ReviewId)
    | StartJob(id: ReviewId, execution: ExecutionId)
    | FinishJob(execution: ExecutionId)
    | FailJob(execution: ExecutionId)
    | LoseJob(execution: ExecutionId)
    | DeleteReview(id: ReviewId)
    | SetAdmin(user: UserId, flag: bool)

  predicate KnownId(w: World, id: ReviewId) {
    id in w.uploads || id in w.reviews || id in w.deleted
  }

  predicate Enabled(w: World, e: Event) {
    match e
    case ReserveCredit(user, id) => user in w.accounts && Reserve(w.accounts[user]).Some? && !KnownId(w, id)
    case EnqueueJob(id) => id in w.uploads
    case CommitUpload(id) => id in w.uploads
    case AbortUpload(id) => id in w.uploads && w.uploads[id].user in w.accounts
    // A job may arrive before its row commits, for a row that never commits, or a second time.
    case StartJob(id, execution) => id in w.enqueued && execution !in w.running && id in w.reviews
    case FinishJob(execution) => execution in w.running
    case FailJob(execution) =>
      execution in w.running &&
      (w.running[execution] in w.reviews ==> w.reviews[w.running[execution]].user in w.accounts)
    case LoseJob(execution) => execution in w.running
    case DeleteReview(id) => id in w.reviews
    case SetAdmin(user, flag) => user in w.accounts
  }

  /** A step that is not enabled leaves the world alone. */
  function Step(w: World, e: Event): World {
    if !Enabled(w, e) then w
    else
      match e
      case ReserveCredit(user, id) =>
        var (account, source) := Reserve(w.accounts[user]).value;
        w.(accounts := w.accounts[user := account], uploads := w.uploads[id := Upload(user, source)])
      case EnqueueJob(id) => w.(enqueued := w.enqueued + {id})
      case CommitUpload(id) =>
        var upload := w.uploads[id];
        w.(uploads := w.uploads - {id}, reviews := w.reviews[id := Row(upload.user, Some(upload.source), Queued)])
      case AbortUpload(id) =>
        var upload := w.uploads[id];
        w.(uploads := w.uploads - {id},
           accounts := w.accounts[upload.user := Refund(w.accounts[upload.user], Some(upload.source))])
      case StartJob(id, execution) =>
        w.(reviews := w.reviews[id := w.reviews[id].(status := Processing)], running := w.running[execution := id])
      case FinishJob(execution) =>
        var id := w.running[execution];
        var reviews := if id in w.reviews then w.reviews[id := w.reviews[id].(status := Done)] else w.reviews;
        w.(reviews := reviews, running := w.running - {execution})
      case FailJob(execution) =>
        var id := w.running[execution];
        if id !in w.reviews then w.(running := w.running - {execution})
        else
          var row := w.reviews[id];
          w.(reviews := w.reviews[id := row.(status := Failed)], running := w.running - {execution},
             accounts := w.accounts[row.user := Refund(w.accounts[row.user], row.source)])
      case LoseJob(execution) => w.(running := w.running - {execution})
      case DeleteReview(id) =>
        w.(reviews := w.reviews - {id}, deleted := w.deleted[id := w.reviews[id]])
      case SetAdmin(user, flag) => w.(accounts := w.accounts[user := w.accounts[user].(isAdmin := flag)])
  }

  function Run(w: World, events: seq<Event>): World {
    if events == [] then w else Step(Run(w, events[..|events| - 1]), events[|events| - 1])
  }

  // ----- what is conserved

  predicate Charged(row: Row, user: UserId, source: Source) {
    row.user == user && row.source == Some(source) && !row.status.Failed?
  }

  function ChargedRows(rows: map<ReviewId, Row>, user: UserId, source: Source): set<ReviewId> {
    set id | id in rows && Charged(rows[id], user, source)
  }

  function HeldUploads(uploads: map<ReviewId, Upload>, user: UserId, source: Source): set<ReviewId> {
    set id | id in uploads && uploads[id] == Upload(user, source)
  }

  /** A wallet's credits wherever they are: unspent, held by an upload in flight, or spent on a review that did
      not fail, deleted or not. */
  function Total(w: World, user: UserId, source: Source): int
    requires user in w.accounts
  {
    w.accounts[user].Wallet(source)
      + |HeldUploads(w.uploads, user, source)|
      + |ChargedRows(w.reviews, user, source)|
      + |ChargedRows(w.deleted, user, source)|
  }

  /** The one thing that makes a credit out of nothing: a worker writing to a row that has already failed, and so
      was already refunded. */
  predicate WritesToFailed(w: World, e: Event, user: UserId, source: Source) {
    Enabled(w, e) &&
    match e
    case StartJob(id, _) => FailedRow(w, id, user, source)
    case FinishJob(execution) => FailedRow(w, w.running[execution], user, source)
    case FailJob(execution) => FailedRow(w, w.running[execution], user, source)
    case _ => false
  }

  predicate FailedRow(w: World, id: ReviewId, user: UserId, source: Source) {
    id in w.reviews && w.reviews[id].user == user && w.reviews[id].source == Some(source) && w.reviews[id].status.Failed?
  }

  function Minted(w: World, events: seq<Event>, user: UserId, source: Source): nat {
    if events == [] then 0
    else
      var front, last := events[..|events| - 1], events[|events| - 1];
      Minted(w, front, user, source) + (if WritesToFailed(Run(w, front), last, user, source) then 1 else 0)
  }

  // ----- counting

  lemma {:induction false} SetRow(rows: map<ReviewId, Row>, id: ReviewId, row: Row, user: UserId, source: Source)
    ensures |ChargedRows(rows[id := row], user, source)| ==
            |ChargedRows(rows, user, source)|
              - (if id in rows && Charged(rows[id], user, source) then 1 else 0)
              + (if Charged(row, user, source) then 1 else 0)
  {
    var before, after := ChargedRows(rows, user, source), ChargedRows(rows[id := row], user, source);
    forall other
      ensures other in before - {id} <==> other in after - {id}
    {
      assert other != id ==> (other in rows[id := row] <==> other in rows);
    }
    assert before - {id} == after - {id};
    SizeWithout(before, id);
    SizeWithout(after, id);
  }

  lemma {:induction false} DropRow(rows: map<ReviewId, Row>, id: ReviewId, user: UserId, source: Source)
    requires id in rows
    ensures |ChargedRows(rows - {id}, user, source)| ==
            |ChargedRows(rows, user, source)| - (if Charged(rows[id], user, source) then 1 else 0)
  {
    assert ChargedRows(rows - {id}, user, source) == ChargedRows(rows, user, source) - {id};
    SizeWithout(ChargedRows(rows, user, source), id);
  }

  lemma {:induction false} SetUpload(uploads: map<ReviewId, Upload>, id: ReviewId, upload: Upload, user: UserId, source: Source)
    requires id !in uploads
    ensures |HeldUploads(uploads[id := upload], user, source)| ==
            |HeldUploads(uploads, user, source)| + (if upload == Upload(user, source) then 1 else 0)
  {
    var after := HeldUploads(uploads[id := upload], user, source);
    assert after - {id} == HeldUploads(uploads, user, source);
    SizeWithout(after, id);
  }

  lemma {:induction false} DropUpload(uploads: map<ReviewId, Upload>, id: ReviewId, user: UserId, source: Source)
    requires id in uploads
    ensures |HeldUploads(uploads - {id}, user, source)| ==
            |HeldUploads(uploads, user, source)| - (if uploads[id] == Upload(user, source) then 1 else 0)
  {
    assert HeldUploads(uploads - {id}, user, source) == HeldUploads(uploads, user, source) - {id};
    SizeWithout(HeldUploads(uploads, user, source), id);
  }

  lemma {:induction false} SizeWithout(s: set<ReviewId>, id: ReviewId)
    ensures |s - {id}| == |s| - (if id in s then 1 else 0)
  {
    if id in s {
      assert s == (s - {id}) + {id};
    } else {
      assert s - {id} == s;
    }
  }

  // ----- the invariant and the balance of one step

  /** Ids are used once and every charge names a known user. */
  ghost predicate WellFormed(w: World) {
    && (forall id :: id in w.uploads ==> id !in w.reviews && id !in w.deleted && w.uploads[id].user in w.accounts)
    && (forall id :: id in w.reviews ==> id !in w.deleted && w.reviews[id].user in w.accounts)
  }

  lemma {:induction false} StepKeepsWellFormed(w: World, e: Event)
    requires WellFormed(w)
    ensures WellFormed(Step(w, e)) && Step(w, e).accounts.Keys == w.accounts.Keys
  {
  }

  /** What one step does to a wallet's total. */
  ghost predicate Balanced(w: World, e: Event, user: UserId, source: Source)
    requires user in w.accounts
  {
    && user in Step(w, e).accounts
    && Total(Step(w, e), user, source) ==
         Total(w, user, source) + (if WritesToFailed(w, e, user, source) then 1 else 0)
  }

  lemma {:induction false} UploadBalance(w: World, e: Event, user: UserId, source: Source)
    requires WellFormed(w) && user in w.accounts && !source.Admin? && Enabled(w, e)
    requires e.ReserveCredit? || e.CommitUpload? || e.AbortUpload?
    ensures Balanced(w, e, user, source)
  {
    if e.ReserveCredit? {
      SetUpload(w.uploads, e.id, Step(w, e).uploads[e.id], user, source);
    } else {
      DropUpload(w.uploads, e.id, user, source);
      if e.CommitUpload? {
        SetRow(w.reviews, e.id, Step(w, e).reviews[e.id], user, source);
      }
    }
  }

  lemma {:induction false} StartBalance(w: World, e: Event, user: UserId, source: Source)
    requires WellFormed(w) && user in w.accounts && !source.Admin? && Enabled(w, e) && e.StartJob?
    ensures Balanced(w, e, user, source)
  {
    SetRow(w.reviews, e.id, Step(w, e).reviews[e.id], user, source);
  }

  lemma {:induction false} EndBalance(w: World, e: Event, user: UserId, source: Source)
    requires WellFormed(w) && user in w.accounts && !source.Admin? && Enabled(w, e) && (e.FinishJob? || e.FailJob?)
    ensures Balanced(w, e, user, source)
  {
    var id := w.running[e.execution];
    if id in w.reviews {
      SetRow(w.reviews, id, Step(w, e).reviews[id], user, source);
    }
  }

  lemma {:induction false} DeleteBalance(w: World, e: Event, user: UserId, source: Source)
    requires WellFormed(w) && user in w.accounts && !source.Admin? && Enabled(w, e) && e.DeleteReview?
    ensures Balanced(w, e, user, source)
  {
    DropRow(w.reviews, e.id, user, source);
    SetRow(w.deleted, e.id, w.reviews[e.id], user, source);
  }

  /** One step changes a wallet's total only by minting, for every kind of step. */
  lemma {:induction false} StepBalance(w: World, e: Event, user: UserId, source: Source)
    requires WellFormed(w) && user in w.accounts && !source.Admin?
    ensures user in Step(w, e).accounts
    ensures Total(Step(w, e), user, source) ==
            Total(w, user, source) + (if WritesToFailed(w, e, user, source) then 1 else 0)
  {
    if Enabled(w, e) {
      if e.ReserveCredit? || e.CommitUpload? || e.AbortUpload? {
        UploadBalance(w, e, user, source);
      } else if e.StartJob? {
        StartBalance(w, e, user, source);
      } else if e.FinishJob? || e.FailJob? {
        EndBalance(w, e, user, source);
      } else if e.DeleteReview? {
        DeleteBalance(w, e, user, source);
      }
    }
  }

  // ----- whole runs

  lemma {:induction false} RunKeepsWellFormed(w: World, events: seq<Event>)
    requires WellFormed(w)
    ensures WellFormed(Run(w, events)) && Run(w, events).accounts.Keys == w.accounts.Keys
  {
    if events != [] {
      RunKeepsWellFormed(w, events[..|events| - 1]);
      StepKeepsWellFormed(Run(w, events[..|events| - 1]), events[|events| - 1]);
    }
  }

  /** Over every interleaving, with no assumption on how jobs are delivered, a wallet's total is its starting
      total plus the worker writes to rows already failed: it is conserved exactly when there are none. */
  lemma {:induction false} RunBalance(w: World, events: seq<Event>, user: UserId, source: Source)
    requires WellFormed(w) && user in w.accounts && !source.Admin?
    ensures user in Run(w, events).accounts
    ensures Total(Run(w, events), user, source) == Total(w, user, source) + Minted(w, events, user, source)
  {
    RunKeepsWellFormed(w, events);
    if events != [] {
      var front := events[..|events| - 1];
      RunBalance(w, front, user, source);
      RunKeepsWellFormed(w, front);
      StepBalance(Run(w, front), events[|events| - 1], user, source);
    }
  }

  // ----- the delivery discipline under which nothing is minted

  /** A job starts only for a review that has not failed and has no live execution. */
  predicate StartsCleanly(w: World, e: Event) {
    e.StartJob? && Enabled(w, e) ==>
      !w.reviews[e.id].status.Failed? && e.id !in w.running.Values
  }

  predicate DeliveredCleanly(w: World, events: seq<Event>) {
    events == [] ||
    (DeliveredCleanly(w, events[..|events| - 1]) &&
     StartsCleanly(Run(w, events[..|events| - 1]), events[|events| - 1]))
  }

  /** A review with a live execution is processing, and has only one. */
  ghost predicate OneLiveExecution(w: World) {
    LiveIsProcessing(w) && LiveOnce(w) && LiveIsCommitted(w)
  }

  ghost predicate LiveIsProcessing(w: World) {
    forall x :: x in w.running && w.running[x] in w.reviews ==> w.reviews[w.running[x]].status.Processing?
  }

  ghost predicate LiveOnce(w: World) {
    forall x, y :: x in w.running && y in w.running && w.running[x] == w.running[y] ==> x == y
  }

  ghost predicate LiveIsCommitted(w: World) {
    forall x :: x in w.running ==> w.running[x] !in w.uploads && (w.running[x] in w.reviews || w.running[x] in w.deleted)
  }

  lemma {:induction false} StartedIsNew(w: World, e: Event)
    requires StartsCleanly(w, e) && Enabled(w, e) && e.StartJob?
    ensures forall x :: x in w.running ==> w.running[x] != e.id
  {
    forall x | x in w.running
      ensures w.running[x] != e.id
    {
      assert w.running[x] in w.running.Values;
    }
  }

  lemma {:induction false} StepKeepsProcessing(w: World, e: Event)
    requires WellFormed(w) && OneLiveExecution(w) && StartsCleanly(w, e)
    ensures LiveIsProcessing(Step(w, e))
  {
    if Enabled(w, e) && e.StartJob? {
      StartedIsNew(w, e);
    }
  }

  lemma {:induction false} StepKeepsOnce(w: World, e: Event)
    requires LiveOnce(w) && StartsCleanly(w, e)
    ensures LiveOnce(Step(w, e))
  {
    if Enabled(w, e) && e.StartJob? {
      StartedIsNew(w, e);
    }
  }

  lemma {:induction false} StepKeepsCommitted(w: World, e: Event)
    requires WellFormed(w) && LiveIsCommitted(w)
    ensures LiveIsCommitted(Step(w, e))
  {
  }

  lemma {:induction false} CleanStepKeepsOneExecution(w: World, e: Event)
    requires WellFormed(w) && OneLiveExecution(w) && StartsCleanly(w, e)
    ensures OneLiveExecution(Step(w, e))
  {
    StepKeepsProcessing(w, e);
    StepKeepsOnce(w, e);
    StepKeepsCommitted(w, e);
  }

  /** When every job is delivered cleanly no credit is ever minted: each wallet is conserved over every
      interleaving of uploads, failures, crashes, deletions and admin-flag changes. */
  lemma {:induction false} CleanDeliveryConserves(w: World, events: seq<Event>, user: UserId, source: Source)
    requires WellFormed(w) && OneLiveExecution(w) && DeliveredCleanly(w, events)
    requires user in w.accounts && !source.Admin?
    ensures user in Run(w, events).accounts && OneLiveExecution(Run(w, events))
    ensures Minted(w, events, user, source) == 0
    ensures Total(Run(w, events), user, source) == Total(w, user, source)
  {
    if events != [] {
      var front := events[..|events| - 1];
      CleanDeliveryConserves(w, front, user, source);
      RunKeepsWellFormed(w, front);
      CleanStepKeepsOneExecution(Run(w, front), events[|events| - 1]);
    }
    RunBalance(w, events, user, source);
  }

  /** A second start of a failed review is enough to break it: the refund stands and the review is charged again. */
  lemma {:induction false} RestartOfFailedMints(w: World, id: ReviewId, execution: ExecutionId)
    requires WellFormed(w) && Enabled(w, StartJob(id, execution)) && w.reviews[id].status.Failed?
    requires w.reviews[id].source.Some? && !w.reviews[id].source.value.Admin?
    ensures var (user, source) := (w.reviews[id].user, w.reviews[id].source.value);
      var after := Run(w, [StartJob(id, execution), FailJob(execution)]);
      user in after.accounts && after.accounts[user].Wallet(source) == w.accounts[user].Wallet(source) + 1
  {
    var events := [StartJob(id, execution), FailJob(execution)];
    assert events[..1][..0] == [];
    assert events[..1] == [events[0]];
    assert Run(w, events[..1]) == Step(w, events[0]);
  }

  lemma {:induction false} RunSnoc(w: World, events: seq<Event>, e: Event)
    ensures Run(w, events + [e]) == Step(Run(w, events), e)
  {
    assert (events + [e])[..|events|] == events;
  }

  /** A world with one user, who holds one free review, and nothing else. */
  const ONE_FREE := World(map[0 := Account(1, 0, false)], map[], map[], map[], {}, map[])

  /** One upload by that user whose job is run. */
  function UploadAndStart(): seq<Event> {
    [ReserveCredit(0, 0)] + [EnqueueJob(0)] + [CommitUpload(0)] + [StartJob(0, 0)]
  }

  lemma {:induction false} UploadStarted(w: World)
    requires w == ONE_FREE
    ensures Run(w, UploadAndStart()) ==
            World(map[0 := Account(0, 0, false)], map[], map[0 := Row(0, Some(Free), Processing)], map[], {0}, map[0 := 0])
  {
    var e1, e2, e3, e4 := ReserveCredit(0, 0), EnqueueJob(0), CommitUpload(0), StartJob(0, 0);
    assert Run(w, []) == w && [] + [e1] == [e1];
    RunSnoc(w, [], e1);
    RunSnoc(w, [e1], e2);
    RunSnoc(w, [e1] + [e2], e3);
    RunSnoc(w, [e1] + [e2] + [e3], e4);
    var one := Step(w, e1);
    assert one == World(map[0 := Account(0, 0, false)], map[0 := Upload(0, Free)], map[], map[], {}, map[]);
    var three := Step(Step(one, e2), e3);
    assert three.uploads == map[];
    assert three == World(map[0 := Account(0, 0, false)], map[], map[0 := Row(0, Some(Free), Queued)], map[], {0}, map[]);
  }

  /** From that world: the job fails, is delivered once more and fails again. One credit went in, two are there. */
  lemma {:induction false} SecondDeliveryGivesACredit(w: World)
    requires w == ONE_FREE
    ensures WellFormed(w) && OneLiveExecution(w)
    ensures var after := Run(w, UploadAndStart() + [FailJob(0)] + [StartJob(0, 1)] + [FailJob(1)]);
      0 in after.accounts && after.accounts[0].free == 2 > w.accounts[0].free
  {
    var events := UploadAndStart();
    UploadStarted(w);
    RunSnoc(w, events, FailJob(0));
    RunSnoc(w, events + [FailJob(0)], StartJob(0, 1));
    RunSnoc(w, events + [FailJob(0)] + [StartJob(0, 1)], FailJob(1));
    var failed := Run(w, events + [FailJob(0)]);
    assert failed.accounts[0] == Account(1, 0, false) && failed.reviews[0] == Row(0, Some(Free), Failed);
    assert 1 !in failed.running;
  }

  // ----- wallets

  ghost predicate NonNegative(w: World) {
    forall user :: user in w.accounts ==> w.accounts[user].free >= 0 && w.accounts[user].balance >= 0
  }

  lemma {:induction false} StepKeepsNonNegative(w: World, e: Event)
    requires NonNegative(w)
    ensures NonNegative(Step(w, e))
  {
    if Enabled(w, e) && e.ReserveCredit? {
      var (account, source) := Reserve(w.accounts[e.user]).value;
      assert account.Wallet(Free) >= 0 && account.Wallet(Balance) >= 0;
    }
  }

  lemma {:induction false} WalletsStayNonNegative(w: World, events: seq<Event>)
    requires NonNegative(w)
    ensures NonNegative(Run(w, events))
  {
    if events != [] {
      WalletsStayNonNegative(w, events[..|events| - 1]);
      StepKeepsNonNegative(Run(w, events[..|events| - 1]), events[|events| - 1]);
    }
  }

  /** The failing execution's review is still there and was charged to this wallet. */
  predicate FailsReviewOf(w: World, e: Event, user: UserId, source: Source) {
    && e.FailJob? && e.execution in w.running && w.running[e.execution] in w.reviews
    && var row := w.reviews[w.running[e.execution]];
       row.user == user && row.source == Some(source)
  }

  /** What each step does to a wallet: a reservation by that user on that source takes one, the abort of an upload
      or the failure of a present review recorded on that source gives one back, nothing else moves it. */
  lemma {:induction false} WalletMoves(w: World, e: Event, user: UserId, source: Source)
    requires WellFormed(w) && user in w.accounts
    ensures user in Step(w, e).accounts
    ensures source.Admin? ==> Step(w, e).accounts[user].Wallet(source) == w.accounts[user].Wallet(source)
    ensures !source.Admin? ==>
      Step(w, e).accounts[user].Wallet(source) - w.accounts[user].Wallet(source) ==
        if e.ReserveCredit? && Enabled(w, e) && e.user == user && Reserve(w.accounts[user]).value.1 == source then -1
        else if e.AbortUpload? && e.id in w.uploads && w.uploads[e.id] == Upload(user, source) then 1
        else if FailsReviewOf(w, e, user, source) then 1
        else 0
  {
  }

  /** A user never gets more from a wallet than it held: under clean delivery, from a start with no reviews, the
      charged reviews plus the uploads in flight are bounded by the starting wallet. */
  lemma {:induction false} NoMoreReviewsThanCredits(w: World, events: seq<Event>, user: UserId, source: Source)
    requires w.uploads == map[] && w.reviews == map[] && w.deleted == map[] && w.running == map[]
    requires NonNegative(w) && user in w.accounts && !source.Admin? && DeliveredCleanly(w, events)
    ensures var after := Run(w, events);
      |ChargedRows(after.reviews, user, source)| + |ChargedRows(after.deleted, user, source)|
        + |HeldUploads(after.uploads, user, source)| <= w.accounts[user].Wallet(source)
  {
    CleanDeliveryConserves(w, events, user, source);
    WalletsStayNonNegative(w, events);
    assert ChargedRows(w.reviews, user, source) == {} && ChargedRows(w.deleted, user, source) == {};
    assert HeldUploads(w.uploads, user, source) == {};
  }
}
