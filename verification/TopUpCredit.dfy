/**
  Crediting of top-up orders by the Epay notification and failing of orders by
  the Stripe asynchronous-failure event. Both run their database accesses
  between `LockOrder` and `UnlockOrder`; each access is a separate step, so
  other threads run between any two of them, and any write may fail.
*/
module TopUpCredit {
  import opened Common
  import opened OrderLock

  datatype Status = Pending | Success | Failed | Expired

  datatype Provider = Epay | Stripe | OtherProvider

  type UserId = int

  datatype Order = Order(user: UserId, amount: int, provider: Provider, payment: string, status: Status)

  datatype Request = EpayPaid(payment: string) | StripeAsyncFailed

  datatype JobPC = Fetch | Check | Write | Credit | Done

  /** One request: its progress inside the locked section and its local copy of the row. */
  datatype Job = Job(request: Request, at: JobPC, row: Order)

  /** The observable writes, in the order they happened. */
  datatype Event =
    | StatusSet(trade: TradeNo, status: Status)
    | Credited(trade: TradeNo, user: UserId, quota: int)
    | CreditFailed(trade: TradeNo)

  datatype State = State(
    lock: LockState,
    rows: map<TradeNo, Order>,
    quota: map<UserId, int>,
    jobs: map<ThreadId, Job>,
    log: seq<Event>)

  /** Integer part of amount times quota per unit: decimal truncation is toward zero. */
  function QuotaToAdd(amount: int, quotaPerUnit: real): int {
    var product := amount as real * quotaPerUnit;
    if product >= 0.0 then product.Floor else -((-product).Floor)
  }

  /** The worth is what amount times quota per unit comes to, with the fraction dropped. */
  lemma WorthIsTruncated(amount: int, quotaPerUnit: real)
    ensures var worth, q := amount as real * quotaPerUnit, QuotaToAdd(amount, quotaPerUnit);
            if worth >= 0.0 then q as real <= worth < q as real + 1.0 else q as real - 1.0 < worth <= q as real
  {
  }

  datatype Move =
    | Insert(trade: TradeNo, order: Order)
    | Receive(t: ThreadId, trade: TradeNo, request: Request)
    | LockMove(t: ThreadId)
    | Body(t: ThreadId, writeOk: bool)
    | Return(t: ThreadId)

  predicate InBody(s: State, t: ThreadId) {
    t in s.lock.threads && t in s.jobs && s.lock.threads[t].pc.Critical?
  }

  predicate Possible(s: State, m: Move) {
    match m
    case Insert(trade, order) => trade !in s.rows && order.status.Pending?
    case Receive(t, trade, request) => t !in s.lock.threads
    case LockMove(t) => CanRun(s.lock, t)
    case Body(t, _) => InBody(s, t) && !s.jobs[t].at.Done?
    case Return(t) => InBody(s, t) && s.jobs[t].at.Done?
  }

  function At(s: State, t: ThreadId, at: JobPC): State
    requires t in s.jobs
  {
    s.(jobs := s.jobs[t := s.jobs[t].(at := at)])
  }

  /** The gateway whose orders a request may touch. */
  function Gateway(r: Request): Provider {
    if r.EpayPaid? then Epay else Stripe
  }

  /** The row a request wants to save: the payment method follows the notification. */
  function Edited(row: Order, r: Request): Order {
    match r
    case EpayPaid(payment) => row.(payment := payment, status := Success)
    case StripeAsyncFailed => row.(status := Failed)
  }

  /** One database access, or one group of local checks, of the locked section. */
  function BodyStep(s: State, t: ThreadId, writeOk: bool, quotaPerUnit: real): (s': State)
    requires InBody(s, t)
    ensures InBody(s', t) && s'.lock == s.lock
  {
    var job, trade := s.jobs[t], s.lock.threads[t].trade;
    match job.at
    case Fetch =>
      if trade !in s.rows then At(s, t, Done)
      else s.(jobs := s.jobs[t := job.(at := Check, row := s.rows[trade])])
    case Check =>
      if job.row.provider != Gateway(job.request) || !job.row.status.Pending? then At(s, t, Done)
      else s.(jobs := s.jobs[t := job.(at := Write, row := Edited(job.row, job.request))])
    case Write =>
      if !writeOk then At(s, t, Done)
      else At(s, t, if job.request.EpayPaid? then Credit else Done)
           .(rows := s.rows[trade := job.row], log := s.log + [StatusSet(trade, job.row.status)])
    case Credit =>
      var q := QuotaToAdd(job.row.amount, quotaPerUnit);
      if !writeOk || q < 0 then At(s, t, Done).(log := s.log + [CreditFailed(trade)])
      else At(s, t, Done).(quota := AddQuota(s.quota, job.row.user, q),
                           log := s.log + [Credited(trade, job.row.user, q)])
    case Done => s
  }

  /** An update of a user that does not exist touches no row and reports no error. */
  function AddQuota(quota: map<UserId, int>, user: UserId, q: int): map<UserId, int> {
    if user in quota then quota[user := quota[user] + q] else quota
  }

  function Next(s: State, m: Move, quotaPerUnit: real): State
    requires Possible(s, m)
  {
    match m
    case Insert(trade, order) => s.(rows := s.rows[trade := order])
    case Receive(t, trade, request) =>
      s.(lock := Step(s.lock, CallLock(t, trade)),
         jobs := s.jobs[t := Job(request, Fetch, Order(0, 0, OtherProvider, "", Pending))])
    case LockMove(t) => s.(lock := Step(s.lock, Run(t)))
    case Body(t, writeOk) => BodyStep(s, t, writeOk, quotaPerUnit)
    case Return(t) => s.(lock := Step(s.lock, CallUnlock(t)))
  }

  // ---- counting events ----

  datatype Kind = SetKind | CreditKind | FailKind

  predicate IsKind(e: Event, kind: Kind, k: TradeNo) {
    e.trade == k && match kind case SetKind => e.StatusSet? case CreditKind => e.Credited? case FailKind => e.CreditFailed?
  }

  function Count(log: seq<Event>, kind: Kind, k: TradeNo): nat {
    if log == [] then 0
    else Count(log[..|log| - 1], kind, k) + if IsKind(log[|log| - 1], kind, k) then 1 else 0
  }

  /** Everything credited to one user so far. */
  function TotalCredited(log: seq<Event>, user: UserId): int {
    if log == [] then 0
    else TotalCredited(log[..|log| - 1], user)
         + if log[|log| - 1].Credited? && log[|log| - 1].user == user then log[|log| - 1].quota else 0
  }

  lemma LogGrows(log: seq<Event>, e: Event, kind: Kind, k: TradeNo, user: UserId)
    ensures Count(log + [e], kind, k) == Count(log, kind, k) + if IsKind(e, kind, k) then 1 else 0
    ensures TotalCredited(log + [e], user) ==
            TotalCredited(log, user) + if e.Credited? && e.user == user then e.quota else 0
  {
    assert (log + [e])[..|log|] == log;
  }

  /** A credit, or a failed attempt at one, is written only after its order's status became success. */
  ghost predicate CreditFollowsSuccess(log: seq<Event>) {
    forall i :: 0 <= i < |log| && (log[i].Credited? || log[i].CreditFailed?) ==> StatusSet(log[i].trade, Success) in log[..i]
  }

  // ---- what every move keeps ----

  /** A request's local copy is the row it will write, because nobody else writes its order. */
  ghost predicate JobOk(s: State, t: ThreadId)
    requires t in s.lock.threads
  {
    t in s.jobs &&
    var th, job := s.lock.threads[t], s.jobs[t];
    var k := th.trade;
    match th.pc
    case Critical =>
      (match job.at
       case Check => k in s.rows && job.row == s.rows[k]
       case Write =>
         k in s.rows && s.rows[k].status.Pending? && s.rows[k].provider == Gateway(job.request)
         && job.row == Edited(s.rows[k], job.request)
       case Credit =>
         && k in s.rows && job.row == s.rows[k] && job.request.EpayPaid?
         && StatusSet(k, Success) in s.log
         && Count(s.log, CreditKind, k) == 0 && Count(s.log, FailKind, k) == 0
       case _ => true)
    case LockWant => job.at.Fetch?
    case LockLookup => job.at.Fetch?
    case LockStore => job.at.Fetch?
    case LockCount => job.at.Fetch?
    case LockLeave => job.at.Fetch?
    case LockAcquire => job.at.Fetch?
    case _ => job.at.Done?
  }

  ghost predicate Crediting(s: State, t: ThreadId, k: TradeNo) {
    InBody(s, t) && s.lock.threads[t].trade == k && s.jobs[t].at.Credit?
  }

  ghost predicate TradeOk(s: State, k: TradeNo) {
    && (Count(s.log, SetKind, k) == 0 || (Count(s.log, SetKind, k) == 1 && k in s.rows && !s.rows[k].status.Pending?))
    && Count(s.log, CreditKind, k) + Count(s.log, FailKind, k) <= 1
    && (StatusSet(k, Success) in s.log ==> k in s.rows && s.rows[k].status.Success?)
    && (StatusSet(k, Success) in s.log && Count(s.log, CreditKind, k) + Count(s.log, FailKind, k) == 0 ==>
          exists t :: Crediting(s, t, k))
    && (StatusSet(k, Success) !in s.log ==> Count(s.log, CreditKind, k) == 0 && Count(s.log, FailKind, k) == 0)
  }

  ghost predicate QuotaOk(s: State, quota0: map<UserId, int>) {
    && s.quota.Keys == quota0.Keys
    && forall u :: u in quota0 ==> s.quota[u] == quota0[u] + TotalCredited(s.log, u)
  }

  ghost predicate CreditInv(s: State, quota0: map<UserId, int>) {
    && Inv(s.lock)
    && (forall t :: t in s.lock.threads ==> JobOk(s, t))
    && (forall k :: TradeOk(s, k))
    && CreditFollowsSuccess(s.log)
    && QuotaOk(s, quota0)
  }

  /** The order lock admits one request per order into the locked section. */
  lemma Alone(s: State, t: ThreadId, u: ThreadId)
    requires Inv(s.lock) && t in s.lock.threads && u in s.lock.threads
    requires s.lock.threads[t].pc.Critical? && s.lock.threads[u].pc.Critical?
    requires s.lock.threads[t].trade == s.lock.threads[u].trade
    ensures t == u
  {
    InvIsSafe(s.lock);
  }

  /** A step that only moves one thread's lock program counter, outside the locked section. */
  lemma KeepLockPart(s: State, s': State, t: ThreadId, quota0: map<UserId, int>)
    requires CreditInv(s, quota0) && Inv(s'.lock)
    requires s'.rows == s.rows && s'.log == s.log && s'.quota == s.quota
    requires s'.jobs - {t} == s.jobs - {t} && s'.lock.threads - {t} == s.lock.threads - {t}
    requires t in s'.lock.threads ==> JobOk(s', t)
    requires forall k :: !Crediting(s, t, k)
    ensures CreditInv(s', quota0)
  {
    forall u | u in s'.lock.threads ensures JobOk(s', u) {
      if u != t {
        assert u in s'.lock.threads - {t};
        assert JobOk(s, u);
        assert u in s.jobs - {t};
      }
    }
    forall k ensures TradeOk(s', k) {
      assert TradeOk(s, k);
      if t0 :| Crediting(s, t0, k) {
        assert t0 in s.lock.threads - {t} && t0 in s.jobs - {t};
        assert Crediting(s', t0, k);
      }
    }
  }

  lemma KeepReceive(s: State, t: ThreadId, trade: TradeNo, request: Request, quotaPerUnit: real, quota0: map<UserId, int>)
    requires CreditInv(s, quota0) && Possible(s, Receive(t, trade, request))
    ensures CreditInv(Next(s, Receive(t, trade, request), quotaPerUnit), quota0)
  {
    StepKeepsInv(s.lock, CallLock(t, trade));
    KeepLockPart(s, Next(s, Receive(t, trade, request), quotaPerUnit), t, quota0);
  }

  lemma LockMoveShape(s: State, t: ThreadId, a: Action)
    requires Enabled(s.lock, a) && a.t == t && t in s.lock.threads && JobOk(s, t)
    requires a.CallUnlock? ==> s.jobs[t].at.Done?
    ensures Step(s.lock, a).threads - {t} == s.lock.threads - {t}
    ensures t in Step(s.lock, a).threads ==> JobOk(s.(lock := Step(s.lock, a)), t)
    ensures forall k :: !Crediting(s, t, k)
  {
    LockMoveThreads(s.lock, a);
    LockMoveJob(s, t, a);
    hide Step, JobOk;
  }

  lemma LockMoveThreads(s: LockState, a: Action)
    requires Enabled(s, a)
    ensures Step(s, a).threads - {a.t} == s.threads - {a.t}
  {
  }

  lemma LockMoveJob(s: State, t: ThreadId, a: Action)
    requires Enabled(s.lock, a) && a.t == t && t in s.lock.threads && JobOk(s, t)
    requires a.CallUnlock? ==> s.jobs[t].at.Done?
    ensures t in Step(s.lock, a).threads ==> JobOk(s.(lock := Step(s.lock, a)), t)
  {
    hide Count;
  }

  lemma KeepLockStep(s: State, t: ThreadId, a: Action, quota0: map<UserId, int>)
    requires CreditInv(s, quota0) && Enabled(s.lock, a) && a.t == t && t in s.lock.threads
    requires a.CallUnlock? ==> t in s.jobs && s.jobs[t].at.Done?
    ensures CreditInv(s.(lock := Step(s.lock, a)), quota0)
  {
    StepKeepsInv(s.lock, a);
    assert JobOk(s, t);
    LockMoveShape(s, t, a);
    KeepLockPart(s, s.(lock := Step(s.lock, a)), t, quota0);
  }

  lemma KeepInsert(s: State, trade: TradeNo, order: Order, quotaPerUnit: real, quota0: map<UserId, int>)
    requires CreditInv(s, quota0) && Possible(s, Insert(trade, order))
    ensures CreditInv(Next(s, Insert(trade, order), quotaPerUnit), quota0)
  {
    var s' := Next(s, Insert(trade, order), quotaPerUnit);
    forall u | u in s'.lock.threads ensures JobOk(s', u) { assert JobOk(s, u); }
    forall k ensures TradeOk(s', k) {
      assert TradeOk(s, k);
      if t :| Crediting(s, t, k) { assert Crediting(s', t, k); }
    }
  }

  lemma LocalJob(s: State, t: ThreadId, writeOk: bool, quotaPerUnit: real)
    requires InBody(s, t) && JobOk(s, t)
    requires s.jobs[t].at.Fetch? || s.jobs[t].at.Check? || (s.jobs[t].at.Write? && !writeOk)
    ensures var s' := BodyStep(s, t, writeOk, quotaPerUnit);
            && JobOk(s', t) && s'.lock == s.lock && s'.jobs - {t} == s.jobs - {t}
            && s'.rows == s.rows && s'.log == s.log && s'.quota == s.quota
  {
  }

  /** Fetching, checking, and giving up write nothing. */
  lemma KeepLocal(s: State, t: ThreadId, writeOk: bool, quotaPerUnit: real, quota0: map<UserId, int>)
    requires CreditInv(s, quota0) && InBody(s, t)
    requires s.jobs[t].at.Fetch? || s.jobs[t].at.Check? || (s.jobs[t].at.Write? && !writeOk)
    ensures CreditInv(BodyStep(s, t, writeOk, quotaPerUnit), quota0)
  {
    assert JobOk(s, t);
    LocalJob(s, t, writeOk, quotaPerUnit);
    KeepLockPart(s, BodyStep(s, t, writeOk, quotaPerUnit), t, quota0);
  }

  /** A logged write of `t` leaves the other requests' copies good: none of them is on the same order. */
  lemma LoggedJob(s: State, s': State, t: ThreadId, e: Event, u: ThreadId)
    requires u in s.lock.threads && InBody(s, t) && JobOk(s, t) && JobOk(s, u)
    requires u != t && s.lock.threads[u].pc.Critical? ==> s.lock.threads[u].trade != s.lock.threads[t].trade
    requires e.trade == s.lock.threads[t].trade
    requires s'.lock == s.lock && s'.log == s.log + [e] && t in s'.jobs && s'.jobs == s.jobs[t := s'.jobs[t]]
    requires s.lock.threads[t].trade in s'.rows
    requires s'.rows == s.rows[s.lock.threads[t].trade := s'.rows[s.lock.threads[t].trade]]
    requires JobOk(s', t)
    ensures JobOk(s', u)
  {
    var k := s.lock.threads[u].trade;
    LogGrows(s.log, e, CreditKind, k, 0);
    LogGrows(s.log, e, FailKind, k, 0);
  }

  /** The bookkeeping of an order no write touched. */
  lemma LoggedOther(s: State, s': State, t: ThreadId, e: Event, k: TradeNo)
    requires InBody(s, t) && TradeOk(s, k) && e.trade == s.lock.threads[t].trade != k
    requires s'.lock == s.lock && s'.log == s.log + [e] && t in s'.jobs && s'.jobs == s.jobs[t := s'.jobs[t]]
    requires k in s.rows ==> k in s'.rows && s'.rows[k] == s.rows[k]
    ensures TradeOk(s', k)
  {
    forall kind { LogGrows(s.log, e, kind, k, 0); }
    if t0 :| Crediting(s, t0, k) { assert Crediting(s', t0, k); }
  }

  lemma WriteSelf(s: State, t: ThreadId, quotaPerUnit: real)
    requires InBody(s, t) && s.jobs[t].at.Write? && JobOk(s, t) && TradeOk(s, s.lock.threads[t].trade)
    ensures JobOk(BodyStep(s, t, true, quotaPerUnit), t)
    ensures TradeOk(BodyStep(s, t, true, quotaPerUnit), s.lock.threads[t].trade)
  {
    var s', k := BodyStep(s, t, true, quotaPerUnit), s.lock.threads[t].trade;
    forall kind { LogGrows(s.log, StatusSet(k, s.jobs[t].row.status), kind, k, 0); }
    if s'.jobs[t].at.Credit? { assert Crediting(s', t, k); }
  }

  lemma CreditSelf(s: State, t: ThreadId, writeOk: bool, quotaPerUnit: real)
    requires InBody(s, t) && s.jobs[t].at.Credit? && JobOk(s, t) && TradeOk(s, s.lock.threads[t].trade)
    ensures JobOk(BodyStep(s, t, writeOk, quotaPerUnit), t)
    ensures TradeOk(BodyStep(s, t, writeOk, quotaPerUnit), s.lock.threads[t].trade)
  {
    var s', k := BodyStep(s, t, writeOk, quotaPerUnit), s.lock.threads[t].trade;
    forall kind { LogGrows(s.log, s'.log[|s.log|], kind, k, 0); }
  }

  lemma QuotaGrows(quota: map<UserId, int>, log: seq<Event>, quota': map<UserId, int>, e: Event, quota0: map<UserId, int>)
    requires quota.Keys == quota0.Keys && forall u :: u in quota0 ==> quota[u] == quota0[u] + TotalCredited(log, u)
    requires quota' == if e.Credited? then AddQuota(quota, e.user, e.quota) else quota
    ensures quota'.Keys == quota0.Keys && forall u :: u in quota0 ==> quota'[u] == quota0[u] + TotalCredited(log + [e], u)
  {
    hide TotalCredited;
    forall u | u in quota0 ensures u in quota' && quota'[u] == quota0[u] + TotalCredited(log + [e], u) {
      LogGrows(log, e, SetKind, "", u);
    }
  }

  lemma FollowsGrows(log: seq<Event>, e: Event)
    requires CreditFollowsSuccess(log) && (e.StatusSet? || StatusSet(e.trade, Success) in log)
    ensures CreditFollowsSuccess(log + [e])
  {
    var log' := log + [e];
    forall i | 0 <= i < |log'| && (log'[i].Credited? || log'[i].CreditFailed?) ensures StatusSet(log'[i].trade, Success) in log'[..i] {
      assert log'[..i] == log[..i];
      assert log[..|log|] == log;
    }
  }

  lemma CreditQuota(s: State, t: ThreadId, writeOk: bool, quotaPerUnit: real, quota0: map<UserId, int>)
    requires InBody(s, t) && (s.jobs[t].at.Credit? || (s.jobs[t].at.Write? && writeOk)) && JobOk(s, t)
    requires QuotaOk(s, quota0) && CreditFollowsSuccess(s.log)
    ensures QuotaOk(BodyStep(s, t, writeOk, quotaPerUnit), quota0)
    ensures CreditFollowsSuccess(BodyStep(s, t, writeOk, quotaPerUnit).log)
  {
    hide TotalCredited, Count, QuotaToAdd, AddQuota, CreditFollowsSuccess;
    var s' := BodyStep(s, t, writeOk, quotaPerUnit);
    var e := s'.log[|s.log|];
    assert s'.log == s.log + [e];
    QuotaGrows(s.quota, s.log, s'.quota, e, quota0);
    FollowsGrows(s.log, e);
  }

  /** What a logged step of `t` leaves alone. */
  ghost predicate LoggedStep(s: State, s': State, t: ThreadId, e: Event) {
    && t in s.lock.threads && t in s.jobs && t in s'.jobs
    && s'.lock == s.lock && s'.log == s.log + [e] && s'.jobs == s.jobs[t := s'.jobs[t]]
    && e.trade == s.lock.threads[t].trade && e.trade in s'.rows
    && s'.rows == s.rows[e.trade := s'.rows[e.trade]]
  }

  lemma KeepLoggedFrom(s: State, s': State, t: ThreadId, e: Event, quota0: map<UserId, int>)
    requires CreditInv(s, quota0) && InBody(s, t) && LoggedStep(s, s', t, e)
    requires JobOk(s', t) && TradeOk(s', e.trade) && QuotaOk(s', quota0) && CreditFollowsSuccess(s'.log)
    ensures CreditInv(s', quota0)
  {
    forall u | u in s.lock.threads ensures JobOk(s', u) {
      assert JobOk(s, u) && JobOk(s, t);
      if u != t && s.lock.threads[u].pc.Critical? && s.lock.threads[u].trade == e.trade { Alone(s, t, u); }
      LoggedJob(s, s', t, e, u);
    }
    forall k ensures TradeOk(s', k) {
      assert TradeOk(s, k);
      if k != e.trade { LoggedOther(s, s', t, e, k); }
    }
  }

  lemma LoggedShape(s: State, t: ThreadId, writeOk: bool, quotaPerUnit: real)
    requires InBody(s, t) && JobOk(s, t) && (s.jobs[t].at.Credit? || (s.jobs[t].at.Write? && writeOk))
    ensures var s' := BodyStep(s, t, writeOk, quotaPerUnit);
            |s'.log| == |s.log| + 1 && LoggedStep(s, s', t, s'.log[|s.log|])
  {
  }

  /** Writing the new status, and crediting the user. */
  lemma KeepLogged(s: State, t: ThreadId, writeOk: bool, quotaPerUnit: real, quota0: map<UserId, int>)
    requires CreditInv(s, quota0) && InBody(s, t) && (s.jobs[t].at.Credit? || (s.jobs[t].at.Write? && writeOk))
    ensures CreditInv(BodyStep(s, t, writeOk, quotaPerUnit), quota0)
  {
    assert JobOk(s, t) && TradeOk(s, s.lock.threads[t].trade);
    LoggedShape(s, t, writeOk, quotaPerUnit);
    if s.jobs[t].at.Write? { WriteSelf(s, t, quotaPerUnit); } else { CreditSelf(s, t, writeOk, quotaPerUnit); }
    CreditQuota(s, t, writeOk, quotaPerUnit, quota0);
    var s' := BodyStep(s, t, writeOk, quotaPerUnit);
    KeepLoggedFrom(s, s', t, s'.log[|s.log|], quota0);
  }

  lemma MoveKeepsInv(s: State, m: Move, quotaPerUnit: real, quota0: map<UserId, int>)
    requires CreditInv(s, quota0) && Possible(s, m)
    ensures CreditInv(Next(s, m, quotaPerUnit), quota0)
  {
    match m
    case Insert(trade, order) => KeepInsert(s, trade, order, quotaPerUnit, quota0);
    case Receive(t, trade, request) => KeepReceive(s, t, trade, request, quotaPerUnit, quota0);
    case LockMove(t) => KeepLockStep(s, t, Run(t), quota0);
    case Return(t) => KeepLockStep(s, t, CallUnlock(t), quota0);
    case Body(t, writeOk) =>
      if s.jobs[t].at.Credit? || (s.jobs[t].at.Write? && writeOk) {
        KeepLogged(s, t, writeOk, quotaPerUnit, quota0);
      } else {
        KeepLocal(s, t, writeOk, quotaPerUnit, quota0);
      }
  }

  // ---- whole histories ----

  /** Any orders and quotas to begin with, nobody inside, nothing logged; then any possible moves. */
  ghost predicate IsHistory(s: seq<State>, m: seq<Move>, quotaPerUnit: real) {
    && |s| == |m| + 1
    && s[0].lock == START && s[0].jobs == map[] && s[0].log == []
    && forall i :: 0 <= i < |m| ==> Possible(s[i], m[i]) && s[i + 1] == Next(s[i], m[i], quotaPerUnit)
  }

  lemma {:induction false} HistoryKeepsInv(s: seq<State>, m: seq<Move>, quotaPerUnit: real, i: nat)
    requires IsHistory(s, m, quotaPerUnit) && i < |s|
    ensures CreditInv(s[i], s[0].quota)
    decreases i
  {
    if i > 0 {
      HistoryKeepsInv(s, m, quotaPerUnit, i - 1);
      MoveKeepsInv(s[i - 1], m[i - 1], quotaPerUnit, s[0].quota);
    }
  }

  /**
    Over every interleaving, with any writes failing: an order's status is set
    at most once, it is credited at most once and only after it became success,
    and every user's quota is the initial one plus the orders credited to that user.
  */
  lemma CreditedAtMostOnce(s: seq<State>, m: seq<Move>, quotaPerUnit: real, i: nat)
    requires IsHistory(s, m, quotaPerUnit) && i < |s|
    ensures forall k :: Count(s[i].log, SetKind, k) <= 1 && Count(s[i].log, CreditKind, k) <= 1
    ensures CreditFollowsSuccess(s[i].log)
    ensures s[i].quota.Keys == s[0].quota.Keys
    ensures forall u :: u in s[0].quota ==> s[i].quota[u] == s[0].quota[u] + TotalCredited(s[i].log, u)
  {
    HistoryKeepsInv(s, m, quotaPerUnit, i);
    forall k ensures Count(s[i].log, SetKind, k) <= 1 && Count(s[i].log, CreditKind, k) <= 1 {
      assert TradeOk(s[i], k);
    }
  }

  lemma MoveKeepsSettledRow(s: State, mv: Move, quotaPerUnit: real, quota0: map<UserId, int>, k: TradeNo)
    requires CreditInv(s, quota0) && Possible(s, mv) && k in s.rows && !s.rows[k].status.Pending?
    ensures var s' := Next(s, mv, quotaPerUnit); k in s'.rows && s'.rows[k] == s.rows[k]
  {
    if mv.Body? { assert JobOk(s, mv.t); }
  }

  /** Once an order has left pending its row never changes again, whoever is notified of what. */
  lemma {:induction false} SettledRowIsFinal(s: seq<State>, m: seq<Move>, quotaPerUnit: real, i: nat, j: nat, k: TradeNo)
    requires IsHistory(s, m, quotaPerUnit) && i <= j < |s| && k in s[i].rows && !s[i].rows[k].status.Pending?
    ensures k in s[j].rows && s[j].rows[k] == s[i].rows[k]
    decreases j
  {
    if i < j {
      SettledRowIsFinal(s, m, quotaPerUnit, i, j - 1, k);
      HistoryKeepsInv(s, m, quotaPerUnit, j - 1);
      MoveKeepsSettledRow(s[j - 1], m[j - 1], quotaPerUnit, s[0].quota, k);
    }
  }

  lemma MoveOnlyAppends(s: State, mv: Move, quotaPerUnit: real)
    requires Possible(s, mv)
    ensures s.log <= Next(s, mv, quotaPerUnit).log && |Next(s, mv, quotaPerUnit).log| <= |s.log| + 1
  {
  }

  lemma {:induction false} CountNeverDrops(s: seq<State>, m: seq<Move>, quotaPerUnit: real, i: nat, j: nat, kind: Kind, k: TradeNo)
    requires IsHistory(s, m, quotaPerUnit) && i <= j < |s|
    ensures Count(s[i].log, kind, k) <= Count(s[j].log, kind, k)
    decreases j
  {
    hide Next, Possible, Count;
    if i < j {
      CountNeverDrops(s, m, quotaPerUnit, i, j - 1, kind, k);
      MoveOnlyAppends(s[j - 1], m[j - 1], quotaPerUnit);
      CountOneMore(s[j - 1].log, s[j].log, kind, k);
    }
  }

  lemma CountOneMore(log: seq<Event>, log': seq<Event>, kind: Kind, k: TradeNo)
    requires log <= log' && |log'| <= |log| + 1
    ensures Count(log, kind, k) <= Count(log', kind, k)
  {
    if |log'| == |log| {
      assert log' == log;
    } else {
      assert log' == log + [log'[|log|]];
      LogGrows(log, log'[|log|], kind, k, 0);
    }
  }

  // ---- what a request does to its order ----

  /** An order the request is about: pending, and of the gateway that sent the request. */
  predicate IsFor(row: Order, r: Request) {
    row.status == Pending && row.provider == match r case EpayPaid(_) => Epay case StripeAsyncFailed => Stripe
  }

  /** Such an order afterwards: paid by the notified method, or failed. */
  function Afterwards(row: Order, r: Request): Order {
    match r
    case EpayPaid(payment) => Order(row.user, row.amount, row.provider, payment, Success)
    case StripeAsyncFailed => Order(row.user, row.amount, row.provider, row.payment, Failed)
  }

  /** The locked section in one go, with the fates of its status write and its quota write. */
  function Section(s: State, t: ThreadId, writeOk: bool, creditOk: bool, quotaPerUnit: real): State
    requires InBody(s, t)
  {
    var fetched := BodyStep(s, t, true, quotaPerUnit);
    var checked := BodyStep(fetched, t, true, quotaPerUnit);
    var written := BodyStep(checked, t, writeOk, quotaPerUnit);
    BodyStep(written, t, creditOk, quotaPerUnit)
  }

  /**
    A request left alone settles exactly an order it is for, if the write goes
    through: a missing order, one of another gateway or a settled one stays, and
    so does every other order. A paid order is credited to its user with what it
    is worth, unless that is negative or the quota write fails.
  */
  lemma RequestSettlesItsOrder(s: State, t: ThreadId, writeOk: bool, creditOk: bool, quotaPerUnit: real)
    requires InBody(s, t) && s.jobs[t].at.Fetch?
    ensures var k, r := s.lock.threads[t].trade, s.jobs[t].request;
            var s' := Section(s, t, writeOk, creditOk, quotaPerUnit);
            && InBody(s', t) && s'.jobs[t].at.Done?
            && if k in s.rows && IsFor(s.rows[k], r) && writeOk then
                 && s'.rows == s.rows[k := Afterwards(s.rows[k], r)]
                 && Recorded(s, s', k, Afterwards(s.rows[k], r), r, creditOk, quotaPerUnit)
               else s'.rows == s.rows && s'.quota == s.quota && s'.log == s.log
  {
    var checked := BodyStep(BodyStep(s, t, true, quotaPerUnit), t, true, quotaPerUnit);
    FetchAndCheck(s, t, quotaPerUnit);
    WriteAndCredit(checked, t, writeOk, creditOk, quotaPerUnit);
    hide BodyStep, IsFor;
  }

  /** The quota and the log after order `k` has become `row`. */
  ghost predicate Recorded(s: State, s': State, k: TradeNo, row: Order, r: Request, creditOk: bool, quotaPerUnit: real) {
    var worth := QuotaToAdd(row.amount, quotaPerUnit);
    if r.StripeAsyncFailed? then s'.quota == s.quota && s'.log == s.log + [StatusSet(k, Failed)]
    else if creditOk && worth >= 0 then
      && s'.log == s.log + [StatusSet(k, Success)] + [Credited(k, row.user, worth)]
      && s'.quota == if row.user in s.quota then s.quota[row.user := s.quota[row.user] + worth] else s.quota
    else s'.quota == s.quota && s'.log == s.log + [StatusSet(k, Success)] + [CreditFailed(k)]
  }

  lemma FetchAndCheck(s: State, t: ThreadId, quotaPerUnit: real)
    requires InBody(s, t) && s.jobs[t].at.Fetch?
    ensures var k, r := s.lock.threads[t].trade, s.jobs[t].request;
            var s' := BodyStep(BodyStep(s, t, true, quotaPerUnit), t, true, quotaPerUnit);
            && s'.rows == s.rows && s'.quota == s.quota && s'.log == s.log && s'.jobs[t].request == r
            && if k in s.rows && IsFor(s.rows[k], r) then s'.jobs[t].at.Write? && s'.jobs[t].row == Afterwards(s.rows[k], r)
               else s'.jobs[t].at.Done?
  {
    hide QuotaToAdd, AddQuota;
  }

  lemma WriteAndCredit(s: State, t: ThreadId, writeOk: bool, creditOk: bool, quotaPerUnit: real)
    requires InBody(s, t) && (s.jobs[t].at.Write? || s.jobs[t].at.Done?)
    requires s.jobs[t].at.Write? ==> s.jobs[t].row.status == if s.jobs[t].request.EpayPaid? then Success else Failed
    ensures var k, job := s.lock.threads[t].trade, s.jobs[t];
            var s' := BodyStep(BodyStep(s, t, writeOk, quotaPerUnit), t, creditOk, quotaPerUnit);
            && s'.jobs[t].at.Done?
            && if job.at.Write? && writeOk then
                 s'.rows == s.rows[k := job.row] && Recorded(s, s', k, job.row, job.request, creditOk, quotaPerUnit)
               else s'.rows == s.rows && s'.quota == s.quota && s'.log == s.log
  {
    hide QuotaToAdd;
  }

  /** How far a request has come with the order `row` it found. */
  ghost predicate Progress(s: State, t: ThreadId, row: Order, r: Request) {
    InBody(s, t) &&
    var k, job := s.lock.threads[t].trade, s.jobs[t];
    && k in s.rows && job.request == r
    && match job.at
       case Fetch => s.rows[k] == row
       case Check => s.rows[k] == row && job.row == row
       case Write => IsFor(row, r) && s.rows[k] == row && job.row == Afterwards(row, r)
       case Credit => IsFor(row, r) && r.EpayPaid? && s.rows[k] == Afterwards(row, r)
       case Done => s.rows[k] == if IsFor(row, r) then Afterwards(row, r) else row
  }

  lemma OwnStepProgresses(s: State, t: ThreadId, row: Order, r: Request, quotaPerUnit: real)
    requires Progress(s, t, row, r) && !s.jobs[t].at.Done?
    ensures Progress(BodyStep(s, t, true, quotaPerUnit), t, row, r)
  {
    hide QuotaToAdd, AddQuota;
  }

  /** What a move of somebody else leaves of a request and its order. */
  ghost predicate LeftAlone(s: State, s': State, t: ThreadId)
    requires InBody(s, t)
  {
    var k := s.lock.threads[t].trade;
    && t in s'.lock.threads && s'.lock.threads[t] == s.lock.threads[t] && t in s'.jobs && s'.jobs[t] == s.jobs[t]
    && (k in s.rows ==> k in s'.rows && s'.rows[k] == s.rows[k])
  }

  lemma OtherBodyLeavesAlone(s: State, u: ThreadId, writeOk: bool, quotaPerUnit: real, t: ThreadId)
    requires InBody(s, t) && InBody(s, u) && u != t && s.lock.threads[u].trade != s.lock.threads[t].trade
    ensures LeftAlone(s, BodyStep(s, u, writeOk, quotaPerUnit), t)
  {
    hide QuotaToAdd, AddQuota;
  }

  lemma OtherLockLeavesAlone(s: State, s': State, a: Action, t: ThreadId)
    requires InBody(s, t) && Enabled(s.lock, a) && a.t != t && s'.lock == Step(s.lock, a)
    requires s'.rows == s.rows && s'.jobs - {a.t} == s.jobs - {a.t}
    ensures LeftAlone(s, s', t)
  {
    LockMoveThreads(s.lock, a);
    hide Step, Enabled;
    assert t in s.lock.threads - {a.t} && (s.lock.threads - {a.t})[t] == s.lock.threads[t];
    assert t in s.jobs - {a.t} && (s.jobs - {a.t})[t] == s.jobs[t];
    assert t in s'.lock.threads - {a.t} && (s'.lock.threads - {a.t})[t] == s'.lock.threads[t];
    assert t in s'.jobs - {a.t} && (s'.jobs - {a.t})[t] == s'.jobs[t];
  }

  /** While a request is in its locked section nobody else touches it or its order. */
  lemma OthersLeaveItAlone(s: State, mv: Move, quotaPerUnit: real, quota0: map<UserId, int>, t: ThreadId)
    requires CreditInv(s, quota0) && Possible(s, mv) && InBody(s, t) && InBody(Next(s, mv, quotaPerUnit), t)
    requires mv.Body? ==> mv.t != t
    ensures LeftAlone(s, Next(s, mv, quotaPerUnit), t)
  {
    hide JobOk, TradeOk, QuotaOk, CreditFollowsSuccess, Inv, RunStep, BodyStep, LeftAlone;
    var s' := Next(s, mv, quotaPerUnit);
    match mv {
      case Body(u, writeOk) =>
        if s.lock.threads[u].trade == s.lock.threads[t].trade { Alone(s, t, u); }
        OtherBodyLeavesAlone(s, u, writeOk, quotaPerUnit, t);
      case LockMove(u) => OtherLockLeavesAlone(s, s', Run(u), t);
      case Receive(u, trade, _) => OtherLockLeavesAlone(s, s', CallLock(u, trade), t);
      case Return(u) =>
        OtherLockLeavesAlone(s, s', CallUnlock(u), t);
      case Insert(_, _) => InsertLeavesAlone(s, mv, quotaPerUnit, t);
    }
  }

  lemma InsertLeavesAlone(s: State, mv: Move, quotaPerUnit: real, t: ThreadId)
    requires Possible(s, mv) && InBody(s, t) && mv.Insert?
    ensures LeftAlone(s, Next(s, mv, quotaPerUnit), t)
  {
  }

  lemma MoveProgresses(s: State, mv: Move, quotaPerUnit: real, quota0: map<UserId, int>, t: ThreadId, row: Order, r: Request)
    requires CreditInv(s, quota0) && Possible(s, mv) && Progress(s, t, row, r) && InBody(Next(s, mv, quotaPerUnit), t)
    requires mv.Body? && mv.t == t ==> mv.writeOk
    ensures Progress(Next(s, mv, quotaPerUnit), t, row, r)
  {
    assert InBody(s, t);
    hide CreditInv, BodyStep, Progress, InBody, LeftAlone, Step;
    if mv.Body? && mv.t == t {
      OwnStepProgresses(s, t, row, r, quotaPerUnit);
    } else {
      OthersLeaveItAlone(s, mv, quotaPerUnit, quota0, t);
      ProgressIsKept(s, Next(s, mv, quotaPerUnit), t, row, r);
    }
  }

  lemma ProgressIsKept(s: State, s': State, t: ThreadId, row: Order, r: Request)
    requires Progress(s, t, row, r) && LeftAlone(s, s', t)
    ensures Progress(s', t, row, r)
  {
  }

  lemma {:induction false} RequestProgresses(s: seq<State>, m: seq<Move>, quotaPerUnit: real, i: nat, j: nat, t: ThreadId, row: Order, r: Request)
    requires IsHistory(s, m, quotaPerUnit) && i <= j < |s| && Progress(s[i], t, row, r)
    requires forall n :: i <= n <= j ==> InBody(s[n], t)
    requires forall n :: i <= n < j && m[n].Body? && m[n].t == t ==> m[n].writeOk
    ensures Progress(s[j], t, row, r)
    decreases j
  {
    hide Next, Possible, CreditInv, Progress, InBody;
    if i < j {
      assert s[j] == Next(s[j - 1], m[j - 1], quotaPerUnit) && InBody(s[j], t);
      RequestProgresses(s, m, quotaPerUnit, i, j - 1, t, row, r);
      HistoryKeepsInv(s, m, quotaPerUnit, j - 1);
      MoveProgresses(s[j - 1], m[j - 1], quotaPerUnit, s[0].quota, t, row, r);
    }
  }

  /**
    The same among any other requests: if the writes of a request go through,
    then by the time it is done the order it found is as it should be.
  */
  lemma RequestDoesItsWork(s: seq<State>, m: seq<Move>, quotaPerUnit: real, i: nat, j: nat, t: ThreadId, k: TradeNo)
    requires IsHistory(s, m, quotaPerUnit) && i <= j < |s|
    requires forall n :: i <= n <= j ==> InBody(s[n], t)
    requires forall n :: i <= n < j && m[n].Body? && m[n].t == t ==> m[n].writeOk
    requires InBody(s[i], t) && InBody(s[j], t)
    requires s[i].jobs[t].at.Fetch? && s[j].jobs[t].at.Done? && k == s[i].lock.threads[t].trade && k in s[i].rows
    ensures var row, r := s[i].rows[k], s[i].jobs[t].request;
            k in s[j].rows && s[j].rows[k] == if IsFor(row, r) then Afterwards(row, r) else row
  {
    var row, r := s[i].rows[k], s[i].jobs[t].request;
    hide IsHistory;
    RequestProgresses(s, m, quotaPerUnit, i, j, t, row, r);
    RequestKeepsItsTrade(s, m, quotaPerUnit, i, j, t);
  }

  lemma {:induction false} RequestKeepsItsTrade(s: seq<State>, m: seq<Move>, quotaPerUnit: real, i: nat, j: nat, t: ThreadId)
    requires IsHistory(s, m, quotaPerUnit) && i <= j < |s|
    requires forall n :: i <= n <= j ==> InBody(s[n], t)
    requires InBody(s[i], t) && InBody(s[j], t)
    ensures s[j].lock.threads[t].trade == s[i].lock.threads[t].trade
    decreases j
  {
    hide Next, Possible, CreditInv;
    if i < j {
      assert s[j] == Next(s[j - 1], m[j - 1], quotaPerUnit) && InBody(s[j - 1], t);
      RequestKeepsItsTrade(s, m, quotaPerUnit, i, j - 1, t);
      HistoryKeepsInv(s, m, quotaPerUnit, j - 1);
      KeepsTrade(s[j - 1], m[j - 1], quotaPerUnit, s[0].quota, t);
    }
  }

  lemma KeepsTrade(s: State, mv: Move, quotaPerUnit: real, quota0: map<UserId, int>, t: ThreadId)
    requires CreditInv(s, quota0) && Possible(s, mv) && InBody(s, t) && InBody(Next(s, mv, quotaPerUnit), t)
    ensures Next(s, mv, quotaPerUnit).lock.threads[t].trade == s.lock.threads[t].trade
  {
    if mv.Body? && mv.t == t {
      hide CreditInv, BodyStep;
    } else {
      OthersLeaveItAlone(s, mv, quotaPerUnit, quota0, t);
      hide CreditInv, Next, Possible;
    }
  }

  // ---- when a successful order reaches its user ----

  /** The one step that may move a quota on account of order `k`. */
  ghost predicate CreditStep(s: State, mv: Move, k: TradeNo) {
    mv.Body? && Crediting(s, mv.t, k)
  }

  ghost predicate RoseBy(quota: map<UserId, int>, quota': map<UserId, int>, user: UserId, q: int) {
    user in quota && quota' == quota[user := quota[user] + q]
  }

  lemma OtherMovesKeepQuota(s: State, mv: Move, quotaPerUnit: real)
    requires Possible(s, mv) && forall k :: !CreditStep(s, mv, k)
    ensures Next(s, mv, quotaPerUnit).quota == s.quota
  {
    if mv.Body? { assert !CreditStep(s, mv, s.lock.threads[mv.t].trade); }
  }

  /** What a credit step does to the quotas, from the order's row and the fate of the write. */
  lemma CreditStepQuota(s: State, t: ThreadId, writeOk: bool, quotaPerUnit: real, k: TradeNo)
    requires Crediting(s, t, k) && JobOk(s, t)
    ensures k in s.rows
    ensures var row, quota' := s.rows[k], BodyStep(s, t, writeOk, quotaPerUnit).quota;
            var q := QuotaToAdd(row.amount, quotaPerUnit);
            && (quota' == s.quota || RoseBy(s.quota, quota', row.user, q))
            && (RoseBy(s.quota, quota', row.user, q) <==> row.user in s.quota && (q == 0 || (writeOk && q > 0)))
  {
    hide Count, QuotaToAdd;
    var user := s.jobs[t].row.user;
    if user in s.quota { assert s.quota == s.quota[user := s.quota[user]]; }
  }

  /** Credits and failed credits of one order logged so far. */
  ghost function Settled(log: seq<Event>, k: TradeNo): nat {
    Count(log, CreditKind, k) + Count(log, FailKind, k)
  }

  lemma SettledGrows(log: seq<Event>, e: Event, k: TradeNo)
    ensures Settled(log + [e], k) == Settled(log, k) + if e.trade == k && !e.StatusSet? then 1 else 0
  {
    LogGrows(log, e, CreditKind, k, 0);
    LogGrows(log, e, FailKind, k, 0);
  }

  lemma BodyLogs(s: State, t: ThreadId, writeOk: bool, quotaPerUnit: real, k: TradeNo)
    requires InBody(s, t) && JobOk(s, t)
    ensures var log' := BodyStep(s, t, writeOk, quotaPerUnit).log;
            if Crediting(s, t, k) then Settled(s.log, k) == 0 && Settled(log', k) == 1 else Settled(log', k) == Settled(s.log, k)
  {
    hide QuotaToAdd, Count, AddQuota;
    var log' := BodyStep(s, t, writeOk, quotaPerUnit).log;
    if |log'| > |s.log| {
      assert log' == s.log + [log'[|s.log|]];
      SettledGrows(s.log, log'[|s.log|], k);
    }
  }

  lemma CreditStepLogs(s: State, mv: Move, quotaPerUnit: real, k: TradeNo)
    requires Possible(s, mv) && (mv.Body? ==> JobOk(s, mv.t))
    ensures var log' := Next(s, mv, quotaPerUnit).log;
            if CreditStep(s, mv, k) then Settled(s.log, k) == 0 && Settled(log', k) == 1 else Settled(log', k) == Settled(s.log, k)
  {
    hide JobOk, BodyStep, Settled;
    if mv.Body? { BodyLogs(s, mv.t, mv.writeOk, quotaPerUnit, k); }
  }

  lemma JobIsOk(s: State, quota0: map<UserId, int>, mv: Move)
    requires CreditInv(s, quota0) && Possible(s, mv)
    ensures mv.Body? ==> JobOk(s, mv.t)
  {
    hide JobOk, TradeOk, QuotaOk;
  }

  lemma {:induction false} FindCreditStep(s: seq<State>, m: seq<Move>, quotaPerUnit: real, i: nat, k: TradeNo) returns (j: nat)
    requires IsHistory(s, m, quotaPerUnit) && i < |s| && Settled(s[i].log, k) > 0
    ensures j < i && CreditStep(s[j], m[j], k)
    decreases i
  {
    hide Next, Possible, CreditInv, CreditStep;
    j := i - 1;
    HistoryKeepsInv(s, m, quotaPerUnit, j);
    JobIsOk(s[j], s[0].quota, m[j]);
    CreditStepLogs(s[j], m[j], quotaPerUnit, k);
    if !CreditStep(s[j], m[j], k) { j := FindCreditStep(s, m, quotaPerUnit, i - 1, k); }
  }

  lemma OneCreditStep(s: seq<State>, m: seq<Move>, quotaPerUnit: real, i: nat, j: nat, k: TradeNo)
    requires IsHistory(s, m, quotaPerUnit) && i < |m| && j < |m| && CreditStep(s[i], m[i], k) && CreditStep(s[j], m[j], k)
    ensures i == j
  {
    hide Next, Possible, CreditInv, CreditStep, Count;
    if i != j {
      var a, b := if i < j then i else j, if i < j then j else i;
      HistoryKeepsInv(s, m, quotaPerUnit, a);
      HistoryKeepsInv(s, m, quotaPerUnit, b);
      JobIsOk(s[a], s[0].quota, m[a]);
      JobIsOk(s[b], s[0].quota, m[b]);
      CreditStepLogs(s[a], m[a], quotaPerUnit, k);
      CreditStepLogs(s[b], m[b], quotaPerUnit, k);
      CountNeverDrops(s, m, quotaPerUnit, a + 1, b, CreditKind, k);
      CountNeverDrops(s, m, quotaPerUnit, a + 1, b, FailKind, k);
    }
  }

  lemma CreditMove(s: State, mv: Move, quotaPerUnit: real, quota0: map<UserId, int>, k: TradeNo)
    requires CreditInv(s, quota0) && Possible(s, mv) && CreditStep(s, mv, k)
    ensures k in s.rows && s.rows[k].status.Success? && s.quota.Keys == quota0.Keys
    ensures var row, quota' := s.rows[k], Next(s, mv, quotaPerUnit).quota;
            var q := QuotaToAdd(row.amount, quotaPerUnit);
            && (quota' == s.quota || RoseBy(s.quota, quota', row.user, q))
            && (RoseBy(s.quota, quota', row.user, q) <==> row.user in s.quota && (q == 0 || (mv.writeOk && q > 0)))
  {
    assert JobOk(s, mv.t) && TradeOk(s, k);
    hide BodyStep, RoseBy, CreditInv, Count;
    CreditStepQuota(s, mv.t, mv.writeOk, quotaPerUnit, k);
  }

  lemma SettledHasCredit(s: State, quota0: map<UserId, int>, k: TradeNo)
    requires CreditInv(s, quota0) && StatusSet(k, Success) in s.log
    requires forall t :: InBody(s, t) ==> s.lock.threads[t].trade != k
    ensures Settled(s.log, k) == 1
  {
    hide JobOk, QuotaOk, CreditFollowsSuccess, Inv;
    assert TradeOk(s, k);
  }

  /**
    "A successful order reached its user" is not what the code keeps: the
    status is saved before the quota. For an order that became successful and
    that no request is working on, exactly one step could have moved a quota
    for it, and it raised the user's quota by the order's worth if and only if
    the write went through, the worth is not negative and the user exists.
  */
  lemma SuccessReachesItsUserExactly(s: seq<State>, m: seq<Move>, quotaPerUnit: real, i: nat, k: TradeNo) returns (j: nat)
    requires IsHistory(s, m, quotaPerUnit) && i < |s|
    requires StatusSet(k, Success) in s[i].log
    requires forall t :: InBody(s[i], t) ==> s[i].lock.threads[t].trade != k
    ensures j < i && CreditStep(s[j], m[j], k) && (forall n :: 0 <= n < |m| && CreditStep(s[n], m[n], k) ==> n == j)
    ensures k in s[i].rows
    ensures var row := s[i].rows[k];
            var q := QuotaToAdd(row.amount, quotaPerUnit);
            && (s[j + 1].quota == s[j].quota || RoseBy(s[j].quota, s[j + 1].quota, row.user, q))
            && (RoseBy(s[j].quota, s[j + 1].quota, row.user, q) <==> row.user in s[0].quota && (q == 0 || (m[j].writeOk && q > 0)))
  {
    hide Next, CreditStep, Possible, CreditInv, Settled, RoseBy;
    HistoryKeepsInv(s, m, quotaPerUnit, i);
    SettledHasCredit(s[i], s[0].quota, k);
    j := FindCreditStep(s, m, quotaPerUnit, i, k);
    forall n | 0 <= n < |m| && CreditStep(s[n], m[n], k) ensures n == j { OneCreditStep(s, m, quotaPerUnit, n, j, k); }
    HistoryKeepsInv(s, m, quotaPerUnit, j);
    CreditMove(s[j], m[j], quotaPerUnit, s[0].quota, k);
    SettledRowIsFinal(s, m, quotaPerUnit, j, i, k);
  }

  /** A credit lost to a failed quota write is never made up by a later notification. */
  lemma LostCreditStaysLost(s: seq<State>, m: seq<Move>, quotaPerUnit: real, i: nat, j: nat, k: TradeNo)
    requires IsHistory(s, m, quotaPerUnit) && i <= j < |s| && Count(s[i].log, FailKind, k) == 1
    ensures Count(s[j].log, CreditKind, k) == 0
  {
    CountNeverDrops(s, m, quotaPerUnit, i, j, FailKind, k);
    HistoryKeepsInv(s, m, quotaPerUnit, j);
    assert TradeOk(s[j], k);
  }

  /** A logged write agrees with the order's row: who was credited, how much, and by which gateway. */
  ghost predicate EventOk(rows: map<TradeNo, Order>, e: Event, quotaPerUnit: real) {
    e.trade in rows &&
    var row := rows[e.trade];
    match e
    case StatusSet(_, status) =>
      row.status == status && ((status.Success? && row.provider.Epay?) || (status.Failed? && row.provider.Stripe?))
    case Credited(_, user, quota) =>
      row.status.Success? && user == row.user && quota == QuotaToAdd(row.amount, quotaPerUnit) && quota >= 0
    case CreditFailed(_) => row.status.Success?
  }

  lemma MoveLogsTheRow(s: State, mv: Move, quotaPerUnit: real, quota0: map<UserId, int>)
    requires CreditInv(s, quota0) && Possible(s, mv)
    ensures var s' := Next(s, mv, quotaPerUnit);
            |s'.log| == |s.log| + 1 ==> EventOk(s'.rows, s'.log[|s.log|], quotaPerUnit)
  {
    if mv.Body? {
      assert JobOk(s, mv.t);
      if s.jobs[mv.t].at.Credit? { assert TradeOk(s, s.lock.threads[mv.t].trade); }
    }
  }

  /** Whatever has been logged so far is true of the rows as they are now. */
  lemma {:induction false} LogAgreesWithRows(s: seq<State>, m: seq<Move>, quotaPerUnit: real, i: nat, n: nat)
    requires IsHistory(s, m, quotaPerUnit) && i < |s| && n < |s[i].log|
    ensures EventOk(s[i].rows, s[i].log[n], quotaPerUnit)
    decreases i
  {
    hide Next, Possible;
    if i > 0 {
      HistoryKeepsInv(s, m, quotaPerUnit, i - 1);
      MoveOnlyAppends(s[i - 1], m[i - 1], quotaPerUnit);
      if n < |s[i - 1].log| {
        LogAgreesWithRows(s, m, quotaPerUnit, i - 1, n);
        MoveKeepsSettledRow(s[i - 1], m[i - 1], quotaPerUnit, s[0].quota, s[i].log[n].trade);
      } else {
        MoveLogsTheRow(s[i - 1], m[i - 1], quotaPerUnit, s[0].quota);
      }
    }
  }

  // ---- an interleaving that loses a credit ----

  function LockAt(pc: PC, creator: Option<ThreadId>, table: map<TradeNo, MutexId>, mutexes: seq<Mutex>): LockState {
    LockState(creator, table, mutexes, map[1 := Thread(pc, "T", 0, 0)])
  }

  /** One thread alone taking the lock on "T". */
  function LonePath(n: nat): LockState
    requires n < 8
  {
    match n
    case 0 => START
    case 1 => LockAt(LockWant, None, map[], [])
    case 2 => LockAt(LockLookup, Some(1), map[], [])
    case 3 => LockAt(LockStore, Some(1), map[], [])
    case 4 => LockAt(LockCount, Some(1), map["T" := 0], [Mutex(None, 0)])
    case 5 => LockAt(LockLeave, Some(1), map["T" := 0], [Mutex(None, 1)])
    case 6 => LockAt(LockAcquire, None, map["T" := 0], [Mutex(None, 1)])
    case _ => LockAt(Critical, None, map["T" := 0], [Mutex(Some(1), 1)])
  }

  lemma LonePathSteps(n: nat)
    requires 0 < n < 7
    ensures CanRun(LonePath(n), 1) && RunStep(LonePath(n), 1) == LonePath(n + 1)
  {
    var th := LonePath(n + 1).threads[1];
    assert LonePath(n).threads[1 := th] == map[1 := th];
  }

  const UNPAID := Order(7, 10, Epay, "", Pending)
  const PAID := Order(7, 10, Epay, "alipay", Success)
  const NO_ROW := Order(0, 0, OtherProvider, "", Pending)

  /** The order of user 7, paid once; the quotas never move. `writeOk` is the fate of the quota write. */
  function LostState(n: nat, quota: map<UserId, int>, writeOk: bool): State
    requires n < 12
  {
    var j := (at: JobPC, row: Order) => map[1 as nat := Job(EpayPaid("alipay"), at, row)];
    if n == 0 then State(START, map["T" := UNPAID], quota, map[], [])
    else if n < 8 then State(LonePath(n), map["T" := UNPAID], quota, j(Fetch, NO_ROW), [])
    else if n == 8 then State(LonePath(7), map["T" := UNPAID], quota, j(Check, UNPAID), [])
    else if n == 9 then State(LonePath(7), map["T" := UNPAID], quota, j(Write, PAID), [])
    else if n == 10 then State(LonePath(7), map["T" := PAID], quota, j(Credit, PAID), [StatusSet("T", Success)])
    else State(LonePath(7), map["T" := PAID], quota, j(Done, PAID),
               [StatusSet("T", Success), if writeOk then Credited("T", 7, 5000000) else CreditFailed("T")])
  }

  function LostMove(n: nat, writeOk: bool): Move {
    if n == 0 then Receive(1, "T", EpayPaid("alipay"))
    else if n < 7 then LockMove(1)
    else Body(1, n != 10 || writeOk)
  }

  lemma LostSteps(n: nat, quota: map<UserId, int>, writeOk: bool)
    requires n < 7
    ensures Possible(LostState(n, quota, writeOk), LostMove(n, writeOk))
    ensures Next(LostState(n, quota, writeOk), LostMove(n, writeOk), 500000.0) == LostState(n + 1, quota, writeOk)
  {
    if 0 < n {
      LonePathSteps(n);
      hide CanRun, RunStep, LonePath;
    } else {
      assert START.threads[1 := Thread(LockWant, "T", 0, 0)] == LonePath(1).threads;
    }
  }

  lemma LostBodySteps(n: nat, quota: map<UserId, int>, writeOk: bool)
    requires 7 <= n < 10
    ensures Possible(LostState(n, quota, writeOk), LostMove(n, writeOk))
    ensures Next(LostState(n, quota, writeOk), LostMove(n, writeOk), 500000.0) == LostState(n + 1, quota, writeOk)
  {
    hide QuotaToAdd, AddQuota;
    var s, s' := LostState(n, quota, writeOk), LostState(n + 1, quota, writeOk);
    assert s.jobs[1 := s'.jobs[1]] == s'.jobs;
    assert s.rows["T" := PAID] == map["T" := PAID];
  }

  lemma LostCreditStep(quota: map<UserId, int>, writeOk: bool)
    requires writeOk ==> 7 !in quota
    ensures Possible(LostState(10, quota, writeOk), LostMove(10, writeOk))
    ensures Next(LostState(10, quota, writeOk), LostMove(10, writeOk), 500000.0) == LostState(11, quota, writeOk)
  {
    var s, s' := LostState(10, quota, writeOk), LostState(11, quota, writeOk);
    assert QuotaToAdd(10, 500000.0) == 5000000;
    hide QuotaToAdd;
    assert s.jobs[1 := s'.jobs[1]] == s'.jobs;
    assert s'.log == s.log + [s'.log[1]];
  }

  /**
    Histories that end with the order "T" saved as success, its one request
    finished, and every quota as it was: one in which the quota write fails,
    and one in which it goes through but the user is not there.
  */
  lemma LostCreditExample(quota: map<UserId, int>, writeOk: bool) returns (s: seq<State>, m: seq<Move>)
    requires writeOk ==> 7 !in quota
    ensures IsHistory(s, m, 500000.0) && s[0].quota == quota && |m| == 11 && m[10] == Body(1, writeOk)
    ensures var end := s[|m|];
            && "T" in end.rows && end.rows["T"].status.Success? && QuotaToAdd(end.rows["T"].amount, 500000.0) == 5000000
            && (forall t :: InBody(end, t) ==> end.jobs[t].at.Done?)
            && end.quota == quota
  {
    s := seq(12, n requires 0 <= n < 12 => LostState(n, quota, writeOk));
    m := seq(11, n requires 0 <= n < 11 => LostMove(n, writeOk));
    forall i | 0 <= i < 11 ensures Possible(s[i], m[i]) && s[i + 1] == Next(s[i], m[i], 500000.0) {
      if i < 7 { LostSteps(i, quota, writeOk); } else if i < 10 { LostBodySteps(i, quota, writeOk); } else { LostCreditStep(quota, writeOk); }
    }
  }
}
