/**
  The retry loops of `Relay` and `RelayTask`: `for {}` loops that pick a
  channel, skip it if this request already tried it, send, and go round again.
  Nothing counts the rounds; what ends them is the set of tried channels and a
  counter of consecutive duplicates. What the loops leave behind decides
  whether the pre-consumed quota is refunded or the task is settled.

  Channel selection, the request body and the upstream answers are inputs, one
  per round.
*/
module RelayRetry {
  import opened Common

  /** Channel selection of one round. A channel-level error means "try the next channel". */
  datatype Pick<E> = Picked(id: int) | PickFailed(err: E, channelLevel: bool)

  /** What sending on the picked channel would bring. */
  datatype Attempt<E> =
    | BodyUnreadable(err: E)
    | Answered(quota: int)
    | Refused(err: E, again: bool)

  datatype Round<E> = Round(pick: Pick<E>, attempt: Attempt<E>)

  datatype Exit = Running | GaveUp | Succeeded

  /**
    The loop's variables. `used` is use_channel, `sent` the channels a request
    actually went to. `retry` counts what the loop itself adds; selecting a channel
    may also reset the counter, which nothing but a locked task reads.
  */
  datatype Loop<E> = Loop(
    tried: set<int>,
    dupes: nat,
    retry: nat,
    used: seq<int>,
    sent: seq<int>,
    err: Option<E>,
    result: Option<int>,
    exit: Exit)

  function Fresh<E>(): Loop<E> {
    Loop({}, 0, 0, [], [], None, None, Running)
  }

  const MAX_CONSECUTIVE_DUPES: nat := 3

  /** Use the channel: record it, read the body, send. */
  function Try<E>(s: Loop<E>, id: int, a: Attempt<E>): Loop<E> {
    var s := s.(used := s.used + [id]);
    match a
    case BodyUnreadable(err) => s.(err := Some(err), exit := GaveUp)
    case Answered(quota) => s.(sent := s.sent + [id], err := None, result := Some(quota), exit := Succeeded)
    case Refused(err, again) =>
      var s := s.(sent := s.sent + [id], err := Some(err), result := None);
      if again then s.(retry := s.retry + 1) else s.(exit := GaveUp)
  }

  /** One round of the loop on a freely chosen channel. */
  function Step<E>(s: Loop<E>, r: Round<E>): Loop<E> {
    match r.pick
    case PickFailed(err, channelLevel) =>
      if channelLevel then s.(retry := s.retry + 1) else s.(err := Some(err), exit := GaveUp)
    case Picked(id) =>
      if id in s.tried then
        var s := s.(dupes := s.dupes + 1);
        if s.dupes >= MAX_CONSECUTIVE_DUPES then s.(exit := GaveUp) else s.(retry := s.retry + 1)
      else Try(s.(tried := s.tried + {id}, dupes := 0), id, r.attempt)
  }

  /** The loop after the given rounds; rounds after it has left are not consumed. */
  function After<E>(rounds: seq<Round<E>>): Loop<E> {
    if rounds == [] then Fresh()
    else
      var s := After(rounds[..|rounds| - 1]);
      if s.exit.Running? then Step(s, rounds[|rounds| - 1]) else s
  }

  // ---- the Relay loop as written ----

  datatype ApiError = ApiError(channelError: bool, skipRetry: bool, statusCode: int, alwaysSkipCode: bool)

  /** What shouldRetry reads besides the error. */
  datatype RetryContext = RetryContext(affinityFailed: bool, specificChannel: bool, alwaysSkipStatus: set<int>)

  function ShouldRetry(ctx: RetryContext, err: Option<ApiError>, retryTimes: int): bool {
    if err.None? then false
    else if ctx.affinityFailed then false
    else if err.value.channelError then true
    else if err.value.skipRetry then false
    else if ctx.specificChannel then false
    else if 200 <= err.value.statusCode < 300 then false
    else if err.value.statusCode < 100 || err.value.statusCode > 599 then true
    else if err.value.alwaysSkipCode then false
    else if err.value.statusCode in ctx.alwaysSkipStatus then false
    else true
  }

  /** One round's inputs: selection, the body error if any, the handler's error if any. */
  datatype RelayInput = RelayInput(pick: Pick<ApiError>, bodyErr: Option<ApiError>, reply: Option<ApiError>, ctx: RetryContext)

  function RelayRound(x: RelayInput, retryTimes: int): Round<ApiError> {
    Round(x.pick,
          if x.bodyErr.Some? then BodyUnreadable(x.bodyErr.value)
          else if x.reply.None? then Answered(0)
          else Refused(x.reply.value, ShouldRetry(x.ctx, x.reply, retryTimes)))
  }

  function RelayRounds(inputs: seq<RelayInput>, retryTimes: int): seq<Round<ApiError>> {
    seq(|inputs|, i requires 0 <= i < |inputs| => RelayRound(inputs[i], retryTimes))
  }

  method RelayLoop(inputs: seq<RelayInput>, retryTimes: int)
    returns (newApiError: Option<ApiError>, useChannel: seq<int>, sent: seq<int>, rounds: nat, exit: Exit)
    ensures var end := After(RelayRounds(inputs, retryTimes));
            newApiError == end.err && useChannel == end.used && sent == end.sent && exit == end.exit
    ensures rounds <= |inputs| && After(RelayRounds(inputs, retryTimes)[..rounds]) == After(RelayRounds(inputs, retryTimes))
    ensures exit.Running? ==> rounds == |inputs|
    ensures forall k :: 0 <= k < rounds ==> After(RelayRounds(inputs, retryTimes)[..k]).exit.Running?
  {
    var triedChannels: set<int>, consecutiveDupes: nat := {}, 0;
    newApiError, useChannel, sent, rounds, exit := None, [], [], 0, Running;
    ghost var all := RelayRounds(inputs, retryTimes);
    ghost var s: Loop<ApiError> := Fresh();
    assert all[..0] == [];
    while rounds < |inputs| && exit.Running?
      invariant rounds <= |inputs| && s == After(all[..rounds])
      invariant s.tried == triedChannels && s.dupes == consecutiveDupes && s.used == useChannel
      invariant s.sent == sent && s.err == newApiError && s.exit == exit
      invariant forall k :: 0 <= k < rounds ==> After(all[..k]).exit.Running?
    {
      var x := inputs[rounds];
      assert all[..rounds + 1][..rounds] == all[..rounds];
      s := Step(s, all[rounds]);
      rounds := rounds + 1;
      if x.pick.PickFailed? {
        if !x.pick.channelLevel {
          newApiError, exit := Some(x.pick.err), GaveUp;
        }
        continue;
      }
      var id := x.pick.id;
      if id in triedChannels {
        consecutiveDupes := consecutiveDupes + 1;
        if consecutiveDupes >= 3 {
          exit := GaveUp;
        }
        continue;
      }
      triedChannels := triedChannels + {id};
      consecutiveDupes := 0;
      useChannel := useChannel + [id];
      if x.bodyErr.Some? {
        newApiError, exit := x.bodyErr, GaveUp;
        continue;
      }
      sent := sent + [id];
      newApiError := x.reply;
      if newApiError.None? {
        exit := Succeeded;
        continue;
      }
      if !ShouldRetry(x.ctx, newApiError, retryTimes) {
        exit := GaveUp;
      }
    }
    AfterStops(all, rounds);
  }

  lemma {:induction false} AfterStops<E>(rounds: seq<Round<E>>, k: nat)
    requires k <= |rounds| && (k == |rounds| || !After(rounds[..k]).exit.Running?)
    ensures After(rounds) == After(rounds[..k])
    decreases |rounds|
  {
    if k == |rounds| {
      assert rounds[..k] == rounds;
    } else {
      assert rounds[..|rounds| - 1][..k] == rounds[..k];
      AfterStops(rounds[..|rounds| - 1], k);
    }
  }

  // ---- what every run of the loop keeps ----

  ghost predicate Distinct(ids: seq<int>) {
    forall i, j :: 0 <= i < j < |ids| ==> ids[i] != ids[j]
  }

  ghost predicate LoopInv<E>(s: Loop<E>) {
    && Distinct(s.used) && s.tried == (set id | id in s.used) && s.sent <= s.used
    && (s.exit.Running? ==> s.sent == s.used && s.dupes < MAX_CONSECUTIVE_DUPES && (s.sent != [] ==> s.err.Some?))
    && (s.exit.Running? ==> s.result.None? && (s.tried == {} ==> s.dupes == 0))
    && (s.exit.GaveUp? ==> s.err.Some? && s.result.None?)
    && (s.exit.Succeeded? ==> s.err.None? && s.result.Some? && s.sent == s.used != [])
  }

  lemma StepKeepsLoopInv<E>(s: Loop<E>, r: Round<E>)
    requires LoopInv(s) && s.exit.Running?
    ensures LoopInv(Step(s, r))
  {
    var s' := Step(s, r);
    if r.pick.Picked? && r.pick.id !in s.tried {
      assert s'.used == s.used + [r.pick.id];
      assert (set id | id in s'.used) == (set id | id in s.used) + {r.pick.id};
    }
  }

  lemma {:induction false} AfterKeepsLoopInv<E>(rounds: seq<Round<E>>)
    ensures LoopInv(After(rounds))
    decreases |rounds|
  {
    if rounds != [] {
      var rest := rounds[..|rounds| - 1];
      AfterKeepsLoopInv(rest);
      if After(rest).exit.Running? { StepKeepsLoopInv(After(rest), rounds[|rounds| - 1]); }
    }
  }

  // ---- how long it can run ----

  function ChannelErrors<E>(rounds: seq<Round<E>>): nat {
    if rounds == [] then 0
    else ChannelErrors(rounds[..|rounds| - 1]) +
         if rounds[|rounds| - 1].pick.PickFailed? && rounds[|rounds| - 1].pick.channelLevel then 1 else 0
  }

  ghost predicate PicksFrom<E>(rounds: seq<Round<E>>, channels: set<int>) {
    forall i :: 0 <= i < |rounds| && rounds[i].pick.Picked? ==> rounds[i].pick.id in channels
  }

  /** Untried channels first, then the duplicates still allowed in a row. */
  function Left<E>(s: Loop<E>, n: nat): int {
    if s.tried == {} then 3 * n + 1 else 3 * (n - |s.tried|) + 3 - s.dupes
  }

  lemma StepUsesUpLeft<E>(s: Loop<E>, r: Round<E>, channels: set<int>)
    requires LoopInv(s) && s.exit.Running? && s.tried <= channels
    requires r.pick.Picked? ==> r.pick.id in channels
    requires Step(s, r).exit.Running?
    ensures Step(s, r).tried <= channels
    ensures Left(Step(s, r), |channels|) + (if r.pick.PickFailed? then 0 else 1) <= Left(s, |channels|)
  {
    if r.pick.Picked? && r.pick.id !in s.tried {
      assert Step(s, r).tried == s.tried + {r.pick.id};
    }
  }

  lemma {:induction false} RoundsWhileRunning<E>(rounds: seq<Round<E>>, channels: set<int>)
    requires PicksFrom(rounds, channels) && After(rounds).exit.Running?
    ensures After(rounds).tried <= channels
    ensures |rounds| + Left(After(rounds), |channels|) <= 3 * |channels| + 1 + ChannelErrors(rounds)
    decreases |rounds|
  {
    if rounds != [] {
      var rest, r := rounds[..|rounds| - 1], rounds[|rounds| - 1];
      RoundsWhileRunning(rest, channels);
      AfterKeepsLoopInv(rest);
      StepUsesUpLeft(After(rest), r, channels);
    }
  }

  /**
    With N selectable channels and E channel-level selection errors, the loop
    goes round at most 3N + 1 + E times: after 3N + E rounds that all went on,
    the next one leaves.
  */
  lemma RoundsAreBounded<E>(rounds: seq<Round<E>>, channels: set<int>)
    requires PicksFrom(rounds, channels) && After(rounds).exit.Running?
    ensures |rounds| <= 3 * |channels| + ChannelErrors(rounds)
  {
    RoundsWhileRunning(rounds, channels);
    AfterKeepsLoopInv(rounds);
    assert channels == After(rounds).tried + (channels - After(rounds).tried);
  }

  /**
    No channel is sent the request twice, use_channel is the duplicate-free
    list of the channels tried, and all of them but possibly the last, whose
    body could not be read, were sent it.
  */
  lemma NeverSentTwice<E>(rounds: seq<Round<E>>)
    ensures var s := After(rounds);
            && Distinct(s.sent) && Distinct(s.used) && s.sent <= s.used && |s.used| <= |s.sent| + 1
            && (forall id :: id in s.used <==> id in s.tried)
  {
    AfterKeepsLoopInv(rounds);
    AfterSendsAlmostAll(rounds);
  }

  lemma {:induction false} AfterSendsAlmostAll<E>(rounds: seq<Round<E>>)
    ensures |After(rounds).used| <= |After(rounds).sent| + 1
    decreases |rounds|
  {
    if rounds != [] {
      AfterSendsAlmostAll(rounds[..|rounds| - 1]);
      AfterKeepsLoopInv(rounds[..|rounds| - 1]);
    }
  }

  // ---- the retry count bounds nothing ----

  function Retryable<E>(id: int, err: E): Round<E> {
    Round(Picked(id), Refused(err, true))
  }

  function AllRefused<E>(ids: seq<int>, err: E): seq<Round<E>> {
    seq(|ids|, i requires 0 <= i < |ids| => Retryable(ids[i], err))
  }

  lemma {:induction false} RefusedOneByOne<E>(ids: seq<int>, err: E)
    requires Distinct(ids)
    ensures var s := After(AllRefused(ids, err)); s.exit.Running? && s.sent == ids && s.tried == (set id | id in ids)
    decreases |ids|
  {
    if ids != [] {
      var rest, id := ids[..|ids| - 1], ids[|ids| - 1];
      assert AllRefused(ids, err) == AllRefused(rest, err) + [Retryable(id, err)];
      assert ids == rest + [id] && id !in rest;
      assert (set x | x in ids) == (set x | x in rest) + {id};
      hide After, AllRefused, Retryable;
      RefusedOneByOne(rest, err);
      OneMoreRefused(AllRefused(rest, err), id, err);
    }
  }

  lemma OneMoreRefused<E>(rounds: seq<Round<E>>, id: int, err: E)
    requires After(rounds).exit.Running? && id !in After(rounds).tried
    ensures var s := After(rounds + [Retryable(id, err)]);
            s.exit.Running? && s.sent == After(rounds).sent + [id] && s.tried == After(rounds).tried + {id}
  {
    AfterOneMore(rounds, Retryable(id, err));
  }

  /** The inputs of rounds in which every handler answers with the same error. */
  function Refusing(rounds: seq<Round<ApiError>>, err: ApiError, ctx: RetryContext): seq<RelayInput> {
    seq(|rounds|, i requires 0 <= i < |rounds| => RelayInput(rounds[i].pick, None, Some(err), ctx))
  }

  ghost predicate AllRetryable<E(!new)>(rounds: seq<Round<E>>, err: E) {
    forall i :: 0 <= i < |rounds| ==> rounds[i].pick.Picked? && rounds[i].attempt == Refused(err, true)
  }

  lemma RefusingRounds(rounds: seq<Round<ApiError>>, err: ApiError, ctx: RetryContext, retryTimes: int)
    requires AllRetryable(rounds, err) && ShouldRetry(ctx, Some(err), retryTimes)
    ensures RelayRounds(Refusing(rounds, err, ctx), retryTimes) == rounds
  {
  }

  /**
    However many channels there are and however many retries are configured, if
    each channel answers with an error worth a retry, all of them are sent the
    request, in the order of selection.
  */
  lemma EveryChannelIsTried(ids: seq<int>, err: ApiError, ctx: RetryContext, retryTimes: int)
    requires Distinct(ids) && ShouldRetry(ctx, Some(err), retryTimes)
    ensures var s := After(RelayRounds(Refusing(AllRefused(ids, err), err, ctx), retryTimes));
            s.exit.Running? && s.sent == ids && s.tried == (set id | id in ids)
  {
    RefusingRounds(AllRefused(ids, err), err, ctx, retryTimes);
    hide After, RelayRounds, AllRefused, Refusing;
    RefusedOneByOne(ids, err);
  }

  /** For the same selections the configured number of retries has no effect on the relay loop, nor on the task loop without a locked channel. */
  lemma LoopIgnoresRetryTimes(inputs: seq<RelayInput>, tasks: seq<TaskInput>, n: int, m: int)
    ensures After(RelayRounds(inputs, n)) == After(RelayRounds(inputs, m))
    ensures TaskAfter(TaskRounds(tasks, n), None, n) == TaskAfter(TaskRounds(tasks, m), None, m)
  {
    assert RelayRounds(inputs, n) == RelayRounds(inputs, m);
    assert TaskRounds(tasks, n) == TaskRounds(tasks, m);
    UnlockedTaskIsRelay(TaskRounds(tasks, n), n);
    UnlockedTaskIsRelay(TaskRounds(tasks, m), m);
  }

  /** Channel-level selection errors alone never end the loop, and it then has nothing to report. */
  lemma {:induction false} ChannelErrorsNeverStop<E>(n: nat, err: E)
    ensures var s := After(seq(n, _ => Round(PickFailed(err, true), Refused(err, true))));
            s.exit.Running? && s.sent == [] && s.err.None?
    decreases n
  {
    if n > 0 {
      ChannelErrorsNeverStop(n - 1, err);
      var r := Round(PickFailed(err, true), Refused(err, true));
      assert seq(n, _ => r)[..n - 1] == seq(n - 1, _ => r);
      assert seq(n, _ => Round(PickFailed(err, true), Refused(err, true))) == seq(n, _ => r);
      assert seq(n - 1, _ => Round(PickFailed(err, true), Refused(err, true))) == seq(n - 1, _ => r);
    }
  }

  // ---- the bound is reached ----

  /** The channels 0 to n - 1. */
  function Ids(n: nat): set<int> {
    if n == 0 then {} else Ids(n - 1) + {n - 1}
  }

  lemma {:induction false} IdsAre(n: nat)
    ensures |Ids(n)| == n && forall i :: i in Ids(n) <==> 0 <= i < n
  {
    if n > 0 { IdsAre(n - 1); }
  }

  /** Channel n answers with a retryable error; before it come two duplicates of its predecessor. */
  function Worst<E>(n: nat, err: E): seq<Round<E>> {
    if n == 0 then [] else if n == 1 then [Retryable(0, err)]
    else Worst(n - 1, err) + [Retryable(n - 2, err)] + [Retryable(n - 2, err)] + [Retryable(n - 1, err)]
  }

  lemma AfterOneMore<E>(rounds: seq<Round<E>>, r: Round<E>)
    requires After(rounds).exit.Running?
    ensures After(rounds + [r]) == Step(After(rounds), r)
  {
    assert (rounds + [r])[..|rounds|] == rounds;
  }

  lemma {:induction false} WorstRuns<E>(n: nat, err: E)
    requires n > 0
    ensures var s := After(Worst(n, err)); s.exit.Running? && s.dupes == 0 && s.tried == Ids(n)
    decreases n
  {
    hide After, Step, Try, Ids, Worst, Retryable;
    if n == 1 {
      WorstOne(err);
    } else {
      WorstRuns(n - 1, err);
      WorstStep(n, err);
      DuplicatesThenNew(Worst(n - 1, err), n - 2, n - 1, err);
    }
  }

  lemma WorstStep<E>(n: nat, err: E)
    requires n > 1
    ensures Worst(n, err) == Worst(n - 1, err) + [Retryable(n - 2, err)] + [Retryable(n - 2, err)] + [Retryable(n - 1, err)]
    ensures Ids(n) == Ids(n - 1) + {n - 1} && n - 2 in Ids(n - 1) && n - 1 !in Ids(n - 1)
  {
    IdsAre(n - 1);
  }

  lemma {:induction false} WorstLength<E>(n: nat, err: E)
    requires n > 0
    ensures |Worst(n, err)| == 3 * n - 2
    decreases n
  {
    hide Retryable;
    if n > 1 { WorstLength(n - 1, err); }
  }

  lemma DuplicatesThenNew<E>(w: seq<Round<E>>, id: int, next: int, err: E)
    requires After(w).exit.Running? && After(w).dupes == 0 && id in After(w).tried && next !in After(w).tried
    ensures var s := After(w + [Retryable(id, err)] + [Retryable(id, err)] + [Retryable(next, err)]);
            s.exit.Running? && s.dupes == 0 && s.tried == After(w).tried + {next}
  {
    hide After;
    var d := Retryable(id, err);
    DuplicateTwice(w, d);
    AfterOneMore(w + [d] + [d], Retryable(next, err));
  }

  lemma WorstOne<E>(err: E)
    ensures var s := After(Worst(1, err)); s.exit.Running? && s.dupes == 0 && s.tried == Ids(1)
  {
    var round := Retryable(0, err);
    assert Ids(1) == Ids(0) + {0};
    assert Worst(1, err) == [] + [round];
    AfterOneMore([], round);
  }

  lemma DuplicateTwice<E>(w: seq<Round<E>>, d: Round<E>)
    requires After(w).exit.Running? && After(w).dupes == 0 && d.pick.Picked? && d.pick.id in After(w).tried
    ensures var s := After(w + [d] + [d]); s.exit.Running? && s.tried == After(w).tried && s.dupes == 2
  {
    AfterOneMore(w, d);
    AfterOneMore(w + [d], d);
  }

  lemma WorstReachesTheBound<E>(n: nat, err: E)
    requires n > 0
    ensures var d := Retryable(n - 1, err);
            var rounds := Worst(n, err) + [d] + [d];
            && |rounds| == 3 * n && After(rounds).exit.Running? && ChannelErrors(rounds) == 0
            && PicksFrom(rounds, Ids(n)) && |Ids(n)| == n
            && After(rounds + [d]).exit.GaveUp?
  {
    var d := Retryable(n - 1, err);
    WorstRuns(n, err);
    WorstLength(n, err);
    IdsAre(n);
    DuplicateTwice(Worst(n, err), d);
    AfterOneMore(Worst(n, err) + [d] + [d], d);
    WorstPicks(n, err);
    ErrorsOneMore(Worst(n, err), d, Ids(n), Ids(n));
    ErrorsOneMore(Worst(n, err) + [d], d, Ids(n), Ids(n));
  }

  lemma {:induction false} WorstIsRetryable<E(!new)>(n: nat, err: E)
    ensures AllRetryable(Worst(n, err), err)
    decreases n
  {
    if n > 1 { WorstIsRetryable(n - 1, err); }
  }

  /** For every N and every setting there are inputs of 3N rounds on N channels after which the loop still goes on, and gives up after one more. */
  lemma BoundIsReached(n: nat, err: ApiError, ctx: RetryContext, retryTimes: int)
    requires n > 0 && ShouldRetry(ctx, Some(err), retryTimes)
    ensures var d := Retryable(n - 1, err);
            var rounds := Worst(n, err) + [d] + [d];
            var inputs, more := Refusing(rounds, err, ctx), Refusing(rounds + [d], err, ctx);
            && |inputs| == 3 * n && |Ids(n)| == n && PicksFrom(RelayRounds(inputs, retryTimes), Ids(n))
            && ChannelErrors(RelayRounds(inputs, retryTimes)) == 0
            && After(RelayRounds(inputs, retryTimes)).exit.Running?
            && After(RelayRounds(more, retryTimes)).exit.GaveUp?
  {
    var d := Retryable(n - 1, err);
    var rounds := Worst(n, err) + [d] + [d];
    WorstIsRetryable(n, err);
    assert AllRetryable(rounds, err) && AllRetryable(rounds + [d], err);
    hide After, RelayRounds, Worst, Ids, ShouldRetry, PicksFrom, ChannelErrors;
    RefusingRounds(rounds, err, ctx, retryTimes);
    RefusingRounds(rounds + [d], err, ctx, retryTimes);
    WorstReachesTheBound(n, err);
  }

  lemma ErrorsOneMore<E>(rounds: seq<Round<E>>, r: Round<E>, from: set<int>, to: set<int>)
    requires r.pick.Picked? && PicksFrom(rounds, from) && from <= to && r.pick.id in to
    ensures ChannelErrors(rounds + [r]) == ChannelErrors(rounds) && PicksFrom(rounds + [r], to)
  {
    assert (rounds + [r])[..|rounds|] == rounds;
  }

  lemma {:induction false} WorstPicks<E>(n: nat, err: E)
    ensures ChannelErrors(Worst(n, err)) == 0 && PicksFrom(Worst(n, err), Ids(n))
    decreases n
  {
    if n == 1 {
      ErrorsOneMore([], Retryable(0, err), {}, Ids(1));
      assert [] + [Retryable(0, err)] == [Retryable(0, err)];
    } else if n > 1 {
      IdsAre(n);
      hide ChannelErrors, PicksFrom, Worst, Ids;
      WorstPicks(n - 1, err);
      WorstStep(n, err);
      var w, d := Worst(n - 1, err), Retryable(n - 2, err);
      ErrorsOneMore(w, d, Ids(n - 1), Ids(n));
      ErrorsOneMore(w + [d], d, Ids(n), Ids(n));
      ErrorsOneMore(w + [d] + [d], Retryable(n - 1, err), Ids(n), Ids(n));
    }
  }

  // ---- when a refused request goes to the next channel ----

  lemma OneMoreInput(inputs: seq<RelayInput>, x: RelayInput, retryTimes: int)
    requires After(RelayRounds(inputs, retryTimes)).exit.Running?
    ensures After(RelayRounds(inputs + [x], retryTimes)) == Step(After(RelayRounds(inputs, retryTimes)), RelayRound(x, retryTimes))
  {
    assert RelayRounds(inputs + [x], retryTimes) == RelayRounds(inputs, retryTimes) + [RelayRound(x, retryTimes)];
    hide RelayRounds, RelayRound, After, Step;
    AfterOneMore(RelayRounds(inputs, retryTimes), RelayRound(x, retryTimes));
  }

  /**
    After any rounds, a request that a new channel refuses goes on to the next
    one exactly if there was no affinity failure and either the error is the
    channel's own, or retries are not ruled out, no channel was asked for, and
    the status is no status at all, or not a success and not on a skip list.
  */
  lemma RefusedRoundGoesOn(inputs: seq<RelayInput>, x: RelayInput, retryTimes: int)
    requires After(RelayRounds(inputs, retryTimes)).exit.Running?
    requires x.pick.Picked? && x.pick.id !in After(RelayRounds(inputs, retryTimes)).tried && x.bodyErr.None? && x.reply.Some?
    ensures var s, e := After(RelayRounds(inputs + [x], retryTimes)), x.reply.value;
            && s.err == Some(e) && s.sent == After(RelayRounds(inputs, retryTimes)).sent + [x.pick.id] && !s.exit.Succeeded?
            && (s.exit.Running? <==>
                  && !x.ctx.affinityFailed
                  && (e.channelError
                      || (!e.skipRetry && !x.ctx.specificChannel
                          && (e.statusCode < 100 || e.statusCode > 599
                              || (!(200 <= e.statusCode <= 299) && !e.alwaysSkipCode && e.statusCode !in x.ctx.alwaysSkipStatus)))))
  {
    OneMoreInput(inputs, x, retryTimes);
    hide RelayRounds, After;
  }

  /** A request for a specific channel is sent once, unless the error is the channel's own. */
  lemma {:induction false} SpecificChannelIsSentOnce(inputs: seq<RelayInput>, retryTimes: int)
    requires forall i :: 0 <= i < |inputs| ==>
               inputs[i].ctx.specificChannel && (inputs[i].reply.Some? ==> !inputs[i].reply.value.channelError)
    ensures var s := After(RelayRounds(inputs, retryTimes)); |s.sent| <= 1 && (s.sent != [] ==> !s.exit.Running?)
    decreases |inputs|
  {
    if inputs != [] {
      var rest, x := inputs[..|inputs| - 1], inputs[|inputs| - 1];
      assert inputs == rest + [x];
      SpecificChannelIsSentOnce(rest, retryTimes);
      if After(RelayRounds(rest, retryTimes)).exit.Running? {
        OneMoreInput(rest, x, retryTimes);
        hide RelayRounds, After;
      } else {
        assert RelayRounds(inputs, retryTimes)[..|rest|] == RelayRounds(rest, retryTimes);
        hide RelayRounds, Step;
      }
    }
  }

  // ---- refund ----

  /** The deferred function of Relay: how often quota is given back. */
  function Refunds<E>(s: Loop<E>, billing: bool): nat {
    if s.err.Some? && billing then 1 else 0
  }

  /**
    Whichever way the loop is left, including the duplicate-channel break that
    assigns no error itself, either the last attempt succeeded, nothing is
    reported and nothing refunded, or an error is reported and the quota
    refunded once.
  */
  lemma ErrorIffRefund<E>(rounds: seq<Round<E>>, billing: bool)
    requires !After(rounds).exit.Running?
    ensures var s := After(rounds);
            && (s.exit.Succeeded? <==> s.err.None?)
            && (s.exit.Succeeded? ==> Refunds(s, billing) == 0 && s.sent != [])
            && (s.exit.GaveUp? ==> Refunds(s, billing) == if billing then 1 else 0)
  {
    AfterKeepsLoopInv(rounds);
  }

  // ---- the task loop ----

  datatype TaskError = TaskError(statusCode: int, localError: bool)

  function ShouldRetryTask(ctx: RetryContext, err: Option<TaskError>, retryTimes: int): bool {
    if err.None? then false
    else if ctx.affinityFailed then false
    else if ctx.specificChannel then false
    else if err.value.statusCode == 429 then true
    else if err.value.statusCode == 307 then true
    else if err.value.statusCode / 100 == 5 then err.value.statusCode !in ctx.alwaysSkipStatus
    else if err.value.localError then false
    else if err.value.statusCode / 100 == 2 then false
    else true
  }

  /** A round of the task loop; `setupErr` is the error of preparing a locked channel again. */
  datatype TaskRound<E> = TaskRound(round: Round<E>, setupErr: Option<E>)

  function LockMaxRetries(retryTimes: int): nat {
    if retryTimes < 1 then 1 else retryTimes
  }

  /** One round on the channel the task is bound to. */
  function LockedStep<E>(s: Loop<E>, r: TaskRound<E>, id: int, retryTimes: int): Loop<E> {
    if s.retry > LockMaxRetries(retryTimes) then s.(exit := GaveUp)
    else if s.retry > 0 && r.setupErr.Some? then s.(err := r.setupErr, exit := GaveUp)
    else Try(s, id, r.round.attempt)
  }

  function TaskStep<E>(s: Loop<E>, r: TaskRound<E>, locked: Option<int>, retryTimes: int): Loop<E> {
    if locked.Some? then LockedStep(s, r, locked.value, retryTimes) else Step(s, r.round)
  }

  function TaskAfter<E>(rounds: seq<TaskRound<E>>, locked: Option<int>, retryTimes: int): Loop<E> {
    if rounds == [] then Fresh()
    else
      var s := TaskAfter(rounds[..|rounds| - 1], locked, retryTimes);
      if s.exit.Running? then TaskStep(s, rounds[|rounds| - 1], locked, retryTimes) else s
  }

  /** One round's inputs to the task loop. */
  datatype TaskInput = TaskInput(pick: Pick<TaskError>, setupErr: Option<TaskError>, bodyErr: Option<TaskError>,
                                 submitErr: Option<TaskError>, quota: int, ctx: RetryContext)

  function TaskInputRound(x: TaskInput, retryTimes: int): TaskRound<TaskError> {
    TaskRound(Round(x.pick,
                    if x.bodyErr.Some? then BodyUnreadable(x.bodyErr.value)
                    else if x.submitErr.None? then Answered(x.quota)
                    else Refused(x.submitErr.value, ShouldRetryTask(x.ctx, x.submitErr, retryTimes))),
              x.setupErr)
  }

  function TaskRounds(inputs: seq<TaskInput>, retryTimes: int): seq<TaskRound<TaskError>> {
    seq(|inputs|, i requires 0 <= i < |inputs| => TaskInputRound(inputs[i], retryTimes))
  }

  method RelayTaskLoop(inputs: seq<TaskInput>, locked: Option<int>, retryTimes: int)
    returns (taskErr: Option<TaskError>, result: Option<int>, useChannel: seq<int>, sent: seq<int>, exit: Exit)
    ensures var end := TaskAfter(TaskRounds(inputs, retryTimes), locked, retryTimes);
            taskErr == end.err && result == end.result && useChannel == end.used && sent == end.sent && exit == end.exit
  {
    var triedChannels: set<int>, consecutiveDupes: nat, retry: nat := {}, 0, 0;
    taskErr, result, useChannel, sent, exit := None, None, [], [], Running;
    var n := 0;
    ghost var all := TaskRounds(inputs, retryTimes);
    ghost var s: Loop<TaskError> := Fresh();
    assert all[..0] == [];
    while n < |inputs| && exit.Running?
      invariant n <= |inputs| && s == TaskAfter(all[..n], locked, retryTimes)
      invariant s.tried == triedChannels && s.dupes == consecutiveDupes && s.retry == retry && s.used == useChannel
      invariant s.sent == sent && s.err == taskErr && s.result == result && s.exit == exit
    {
      var x := inputs[n];
      assert all[..n + 1][..n] == all[..n];
      s := TaskStep(s, all[n], locked, retryTimes);
      n := n + 1;
      var id;
      if locked.Some? {
        id := locked.value;
        var lockMaxRetries := retryTimes;
        if lockMaxRetries < 1 {
          lockMaxRetries := 1;
        }
        if retry > lockMaxRetries {
          exit := GaveUp;
          continue;
        }
        if retry > 0 && x.setupErr.Some? {
          taskErr, exit := x.setupErr, GaveUp;
          continue;
        }
      } else {
        if x.pick.PickFailed? {
          if x.pick.channelLevel {
            retry := retry + 1;
          } else {
            taskErr, exit := Some(x.pick.err), GaveUp;
          }
          continue;
        }
        id := x.pick.id;
        if id in triedChannels {
          consecutiveDupes := consecutiveDupes + 1;
          if consecutiveDupes >= 3 {
            exit := GaveUp;
          } else {
            retry := retry + 1;
          }
          continue;
        }
        triedChannels := triedChannels + {id};
        consecutiveDupes := 0;
      }
      useChannel := useChannel + [id];
      if x.bodyErr.Some? {
        taskErr, exit := x.bodyErr, GaveUp;
        continue;
      }
      sent := sent + [id];
      taskErr, result := x.submitErr, if x.submitErr.None? then Some(x.quota) else None;
      if taskErr.None? {
        exit := Succeeded;
        continue;
      }
      if !ShouldRetryTask(x.ctx, taskErr, retryTimes) {
        exit := GaveUp;
        continue;
      }
      retry := retry + 1;
    }
    TaskAfterStops(all, locked, retryTimes, n);
  }

  lemma {:induction false} TaskAfterStops<E>(rounds: seq<TaskRound<E>>, locked: Option<int>, retryTimes: int, k: nat)
    requires k <= |rounds| && (k == |rounds| || !TaskAfter(rounds[..k], locked, retryTimes).exit.Running?)
    ensures TaskAfter(rounds, locked, retryTimes) == TaskAfter(rounds[..k], locked, retryTimes)
    decreases |rounds|
  {
    if k == |rounds| {
      assert rounds[..k] == rounds;
    } else {
      assert rounds[..|rounds| - 1][..k] == rounds[..k];
      TaskAfterStops(rounds[..|rounds| - 1], locked, retryTimes, k);
    }
  }

  /** Without a locked channel the task loop goes round exactly as the Relay loop does. */
  lemma {:induction false} UnlockedTaskIsRelay<E>(rounds: seq<TaskRound<E>>, retryTimes: int)
    ensures TaskAfter(rounds, None, retryTimes) == After(seq(|rounds|, i requires 0 <= i < |rounds| => rounds[i].round))
    decreases |rounds|
  {
    var plain := seq(|rounds|, i requires 0 <= i < |rounds| => rounds[i].round);
    if rounds != [] {
      var rest := rounds[..|rounds| - 1];
      UnlockedTaskIsRelay(rest, retryTimes);
      assert plain[..|rounds| - 1] == seq(|rest|, i requires 0 <= i < |rest| => rest[i].round);
    }
  }

  ghost predicate LockedInv<E>(s: Loop<E>, id: int, retryTimes: int) {
    && (forall i :: 0 <= i < |s.sent| ==> s.sent[i] == id)
    && |s.sent| <= LockMaxRetries(retryTimes) + 1
    && (s.exit.Running? ==> |s.sent| == s.retry && s.result.None? && (s.retry > 0 ==> s.err.Some?))
    && (s.exit.GaveUp? ==> s.err.Some? && s.result.None?)
    && (s.exit.Succeeded? ==> s.err.None? && s.result.Some?)
  }

  lemma {:induction false} LockedRuns<E>(rounds: seq<TaskRound<E>>, id: int, retryTimes: int)
    ensures LockedInv(TaskAfter(rounds, Some(id), retryTimes), id, retryTimes)
    ensures TaskAfter(rounds, Some(id), retryTimes).exit.Running? ==>
              |rounds| == TaskAfter(rounds, Some(id), retryTimes).retry <= LockMaxRetries(retryTimes) + 1
    decreases |rounds|
  {
    if rounds != [] { LockedRuns(rounds[..|rounds| - 1], id, retryTimes); }
  }

  /**
    A task bound to a channel is submitted at most max(1, RetryTimes) + 1
    times, always to that channel, and the loop ends whatever the inputs.
  */
  lemma LockedChannelIsBounded<E>(rounds: seq<TaskRound<E>>, id: int, retryTimes: int)
    ensures var s, most := TaskAfter(rounds, Some(id), retryTimes), if retryTimes < 1 then 2 else retryTimes + 1;
            && |s.sent| <= most
            && (forall i :: 0 <= i < |s.sent| ==> s.sent[i] == id)
            && (|rounds| > most ==> !s.exit.Running?)
  {
    LockedRuns(rounds, id, retryTimes);
  }

  /** Submits that are all worth a retry; only the first round may fail to prepare the channel, which nobody looks at. */
  function LockedRefusals<E>(n: nat, pick: Pick<E>, err: E, setup: Option<E>): seq<TaskRound<E>> {
    seq(n, i => TaskRound(Round(pick, Refused(err, true)), if i == 0 then setup else None))
  }

  lemma TaskOneMore<E>(rounds: seq<TaskRound<E>>, r: TaskRound<E>, locked: Option<int>, retryTimes: int)
    requires TaskAfter(rounds, locked, retryTimes).exit.Running?
    ensures TaskAfter(rounds + [r], locked, retryTimes) == TaskStep(TaskAfter(rounds, locked, retryTimes), r, locked, retryTimes)
  {
    assert (rounds + [r])[..|rounds|] == rounds;
  }

  lemma RefusalsStep<E>(n: nat, pick: Pick<E>, err: E, setup: Option<E>)
    ensures LockedRefusals(n + 1, pick, err, setup)
         == LockedRefusals(n, pick, err, setup) + [TaskRound(Round(pick, Refused(err, true)), if n == 0 then setup else None)]
  {
  }

  lemma NoRefusals<E>(pick: Pick<E>, err: E, setup: Option<E>, locked: Option<int>, retryTimes: int)
    ensures TaskAfter(LockedRefusals(0, pick, err, setup), locked, retryTimes) == Fresh()
  {
  }

  lemma {:induction false} RefusalsRun<E>(n: nat, pick: Pick<E>, err: E, setup: Option<E>, id: int, retryTimes: int)
    requires n <= if retryTimes < 1 then 2 else retryTimes + 1
    ensures var s := TaskAfter(LockedRefusals(n, pick, err, setup), Some(id), retryTimes);
            s.exit.Running? && |s.sent| == n == s.retry && (n > 0 ==> s.err == Some(err))
    decreases n
  {
    hide TaskAfter, LockedRefusals;
    if n == 0 {
      NoRefusals(pick, err, setup, Some(id), retryTimes);
    } else {
      RefusalsRun(n - 1, pick, err, setup, id, retryTimes);
      RefusalsStep(n - 1, pick, err, setup);
      var r := TaskRound(Round(pick, Refused(err, true)), if n == 1 then setup else None);
      TaskOneMore(LockedRefusals(n - 1, pick, err, setup), r, Some(id), retryTimes);
    }
  }

  /** The bound is reached, and the round after it gives up with the last error. */
  lemma LockedBoundIsReached<E>(pick: Pick<E>, err: E, setup: Option<E>, id: int, retryTimes: int)
    ensures var most := if retryTimes < 1 then 2 else retryTimes + 1;
            var s := TaskAfter(LockedRefusals(most, pick, err, setup), Some(id), retryTimes);
            var s' := TaskAfter(LockedRefusals(most + 1, pick, err, setup), Some(id), retryTimes);
            && s.exit.Running? && |s.sent| == most && s'.exit.GaveUp? && s'.sent == s.sent && s'.err == Some(err)
  {
    hide TaskAfter, LockedRefusals;
    var most := if retryTimes < 1 then 2 else retryTimes + 1;
    RefusalsRun(most, pick, err, setup, id, retryTimes);
    RefusalsStep(most, pick, err, setup);
    TaskOneMore(LockedRefusals(most, pick, err, setup), TaskRound(Round(pick, Refused(err, true)), None), Some(id), retryTimes);
  }

  /** Is the request submitted in this round? */
  predicate Submits(s: Loop<TaskError>, x: TaskInput, locked: Option<int>, retryTimes: int) {
    && x.bodyErr.None?
    && if locked.Some? then s.retry <= (if retryTimes < 1 then 1 else retryTimes) && (s.retry == 0 || x.setupErr.None?)
       else x.pick.Picked? && x.pick.id !in s.tried
  }

  /**
    After any rounds, a refused task submit is tried again exactly if there was
    no affinity failure, no channel was asked for, and the status is 429, 307
    or a server error that is not on the skip list, or is neither of these nor
    a success and the error is not a local one.
  */
  lemma RefusedTaskGoesOn(inputs: seq<TaskInput>, x: TaskInput, locked: Option<int>, retryTimes: int)
    requires TaskAfter(TaskRounds(inputs, retryTimes), locked, retryTimes).exit.Running?
    requires Submits(TaskAfter(TaskRounds(inputs, retryTimes), locked, retryTimes), x, locked, retryTimes) && x.submitErr.Some?
    ensures var s, e := TaskAfter(TaskRounds(inputs + [x], retryTimes), locked, retryTimes), x.submitErr.value;
            && s.err == Some(e) && !s.exit.Succeeded?
            && (s.exit.Running? <==>
                  && !x.ctx.affinityFailed && !x.ctx.specificChannel
                  && (e.statusCode == 429 || e.statusCode == 307
                      || (500 <= e.statusCode <= 599 && e.statusCode !in x.ctx.alwaysSkipStatus)
                      || (!(500 <= e.statusCode <= 599) && !(200 <= e.statusCode <= 299) && !e.localError)))
  {
    assert TaskRounds(inputs + [x], retryTimes) == TaskRounds(inputs, retryTimes) + [TaskInputRound(x, retryTimes)];
    hide TaskRounds, TaskAfter;
    TaskOneMore(TaskRounds(inputs, retryTimes), TaskInputRound(x, retryTimes), locked, retryTimes);
  }

  // ---- which error is reported ----

  /** The error a round comes up with, if the loop gets to it. */
  function Raised<E>(s: Loop<E>, r: TaskRound<E>, locked: Option<int>, retryTimes: int): Option<E> {
    if locked.Some? && s.retry > (if retryTimes < 1 then 1 else retryTimes) then None
    else if locked.Some? && s.retry > 0 && r.setupErr.Some? then r.setupErr
    else if locked.None? && r.round.pick.PickFailed? then if r.round.pick.channelLevel then None else Some(r.round.pick.err)
    else if locked.None? && r.round.pick.id in s.tried then None
    else match r.round.attempt
      case BodyUnreadable(err) => Some(err)
      case Answered(_) => None
      case Refused(err, _) => Some(err)
  }

  lemma ErrorOfStep<E>(s: Loop<E>, r: TaskRound<E>, locked: Option<int>, retryTimes: int)
    requires s.exit.Running? && TaskStep(s, r, locked, retryTimes).err.Some?
    ensures var e := Raised(s, r, locked, retryTimes); TaskStep(s, r, locked, retryTimes).err == if e.Some? then e else s.err
  {
  }

  /** The error left behind is the one the last round to come up with any came up with. */
  lemma {:induction false} ReportedErrorIsTheLast<E(!new)>(rounds: seq<TaskRound<E>>, locked: Option<int>, retryTimes: int) returns (k: nat)
    requires TaskAfter(rounds, locked, retryTimes).err.Some?
    ensures k < |rounds| && TaskAfter(rounds[..k], locked, retryTimes).exit.Running?
    ensures Raised(TaskAfter(rounds[..k], locked, retryTimes), rounds[k], locked, retryTimes) == TaskAfter(rounds, locked, retryTimes).err
    ensures forall j :: k < j < |rounds| && TaskAfter(rounds[..j], locked, retryTimes).exit.Running? ==>
              Raised(TaskAfter(rounds[..j], locked, retryTimes), rounds[j], locked, retryTimes).None?
    decreases |rounds|
  {
    var n := |rounds| - 1;
    var rest, s := rounds[..n], TaskAfter(rounds[..n], locked, retryTimes);
    if s.exit.Running? { ErrorOfStep(s, rounds[n], locked, retryTimes); }
    hide TaskStep, Raised;
    if s.exit.Running? && Raised(s, rounds[n], locked, retryTimes).Some? {
      k := n;
    } else {
      assert TaskAfter(rounds, locked, retryTimes).err == s.err;
      hide *;
      k := ReportedErrorIsTheLast(rest, locked, retryTimes);
      assert rest[..k] == rounds[..k];
      forall j | k < j < |rounds| && TaskAfter(rounds[..j], locked, retryTimes).exit.Running?
        ensures Raised(TaskAfter(rounds[..j], locked, retryTimes), rounds[j], locked, retryTimes).None?
      {
        if j < n { assert rest[..j] == rounds[..j] && rest[j] == rounds[j]; }
      }
    }
  }

  /** Settling reads the submit result, which only a successful submit leaves behind. */
  function Settled<E>(s: Loop<E>): Option<int>
    requires s.err.None? ==> s.result.Some?
  {
    if s.err.None? then Some(s.result.value) else None
  }

  /**
    However the task loop is left, exactly one of two things happens: the task
    is settled with the quota of the successful submit and not refunded, or an
    error is reported, the quota refunded once and nothing settled.
  */
  lemma SettleOrRefund<E>(rounds: seq<TaskRound<E>>, locked: Option<int>, retryTimes: int)
    requires !TaskAfter(rounds, locked, retryTimes).exit.Running?
    ensures var s := TaskAfter(rounds, locked, retryTimes);
            && (s.err.None? ==> s.result.Some?)
            && (s.exit.Succeeded? ==> Settled(s) == s.result && Refunds(s, true) == 0)
            && (s.exit.GaveUp? ==> Settled(s) == None && Refunds(s, true) == 1)
  {
    if locked.Some? {
      LockedRuns(rounds, locked.value, retryTimes);
    } else {
      UnlockedTaskIsRelay(rounds, retryTimes);
      AfterKeepsLoopInv(seq(|rounds|, i requires 0 <= i < |rounds| => rounds[i].round));
    }
  }

  /** The quota settled is the one the last submit answered. */
  lemma SettledWithLastAnswer<E>(rounds: seq<TaskRound<E>>, locked: Option<int>, retryTimes: int)
    requires TaskAfter(rounds, locked, retryTimes).exit.Succeeded?
    ensures exists k :: 0 <= k < |rounds| && rounds[k].round.attempt.Answered?
              && TaskAfter(rounds, locked, retryTimes).result == Some(rounds[k].round.attempt.quota)
              && TaskAfter(rounds[..k], locked, retryTimes).exit.Running?
    decreases |rounds|
  {
    var n := |rounds| - 1;
    var rest := rounds[..n];
    if TaskAfter(rest, locked, retryTimes).exit.Running? {
      assert rounds[n].round.attempt.Answered?;
    } else {
      SettledWithLastAnswer(rest, locked, retryTimes);
      var k :| 0 <= k < |rest| && rest[k].round.attempt.Answered?
               && TaskAfter(rest, locked, retryTimes).result == Some(rest[k].round.attempt.quota)
               && TaskAfter(rest[..k], locked, retryTimes).exit.Running?;
      assert rest[..k] == rounds[..k];
    }
  }
}
