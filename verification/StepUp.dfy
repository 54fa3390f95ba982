/**
  Step-up verification: two marks in a session, one that a passkey check was
  finished and one that the user is verified. The session lives in a signed
  cookie: every operation works on the cookie the client presents, which may be
  any one it was ever given, and its effect is the cookie given back, if it can
  be made.
*/
module StepUp {
  import opened Common

  const READY_TIMEOUT := 60
  const VERIFIED_TIMEOUT := 300
  const TWO_FACTOR := "2fa"
  const PASSKEY := "passkey"

  /** A stored time; `Garbage` is a value of another type. */
  datatype Mark = NoMark | At(time: int) | Garbage

  datatype Marks = Marks(ready: Mark, verified: Mark, way: Option<string>)

  datatype User = User(enabled: bool, has2FA: bool, hasPasskey: bool)

  /** A call of the verification endpoint; `codeOk` is the answer of the code check. */
  datatype Request = Request(way: string, code: string, codeOk: bool)

  // ---- the operations on values ----

  function Save(before: Marks, after: Marks, saved: bool): Marks {
    if saved then after else before
  }

  function Finished(m: Marks, now: int): Marks {
    Marks(At(now), NoMark, None)
  }

  function Recorded(m: Marks, way: string, now: int): Marks {
    Marks(NoMark, At(now), Some(way))
  }

  function Unverified(m: Marks): Marks {
    m.(verified := NoMark, way := None)
  }

  datatype Taken = Fresh | NotReady | Broken

  function Consume(m: Marks, now: int, saved: bool): (Marks, Taken) {
    match m.ready
    case NoMark => (m, NotReady)
    case Garbage => (Save(m, m.(ready := NoMark), saved), Broken)
    case At(t) => if !saved then (m, Broken) else (m.(ready := NoMark), if now - t >= READY_TIMEOUT then NotReady else Fresh)
  }

  predicate MayTry(user: User) {
    user.enabled && (user.has2FA || user.hasPasskey)
  }

  predicate CodeAccepted(user: User, r: Request) {
    r.way == TWO_FACTOR && user.has2FA && r.code != "" && r.codeOk
  }

  /** One call, with the times at which it looks at the ready mark and records the result, and the fate of its two saves. */
  function Verify(m: Marks, user: User, r: Request, looks: int, records: int, saved1: bool, saved2: bool): (Marks, bool) {
    if !MayTry(user) then (m, false)
    else if CodeAccepted(user, r) then (Save(m, Recorded(m, r.way, records), saved2), saved2)
    else if r.way == PASSKEY && user.hasPasskey then
      var (after, taken) := Consume(m, looks, saved1);
      if taken != Fresh then (after, false) else (Save(after, Recorded(after, r.way, records), saved2), saved2)
    else (m, false)
  }

  function Require(m: Marks, way: string, now: int, saved: bool): (Marks, bool) {
    if !m.verified.At? || now - m.verified.time >= VERIFIED_TIMEOUT then (Save(m, Unverified(m), saved), false)
    else (m, m.way == Some(way))
  }

  // ---- the operations on the session ----

  class Session {
    var ready: Mark
    var verified: Mark
    var way: Option<string>

    ghost function Now(): Marks
      reads this
    {
      Marks(ready, verified, way)
    }

    constructor ()
      ensures Now() == Marks(NoMark, NoMark, None)
    {
      ready, verified, way := NoMark, NoMark, None;
    }

    /** The end of PasskeyVerifyFinish. */
    method MarkPasskeyReady(now: int, saved: bool) returns (ok: bool)
      modifies this
      ensures Now() == Save(old(Now()), Finished(old(Now()), now), saved) && ok == saved
    {
      if saved {
        ready := At(now);
        verified := NoMark;
        way := None;
      }
      ok := saved;
    }

    method ConsumePasskeyReady(now: int, saved: bool) returns (taken: Taken)
      modifies this
      ensures (Now(), taken) == Consume(old(Now()), now, saved)
    {
      if ready == NoMark { return NotReady; }
      var was := ready;
      if was.Garbage? {
        if saved { ready := NoMark; }
        return Broken;
      }
      if !saved { return Broken; }
      ready := NoMark;
      taken := if now - was.time >= READY_TIMEOUT then NotReady else Fresh;
    }

    method SetSecureVerification(name: string, now: int, saved: bool) returns (ok: bool)
      modifies this
      ensures Now() == Save(old(Now()), Recorded(old(Now()), name, now), saved) && ok == saved
    {
      if saved {
        ready := NoMark;
        verified := At(now);
        way := Some(name);
      }
      ok := saved;
    }

    method UniversalVerify(user: User, r: Request, looks: int, records: int, saved1: bool, saved2: bool) returns (ok: bool)
      modifies this
      ensures (Now(), ok) == Verify(old(Now()), user, r, looks, records, saved1, saved2)
    {
      if !user.enabled || (!user.has2FA && !user.hasPasskey) { return false; }
      if r.way == TWO_FACTOR {
        if !user.has2FA || r.code == "" || !r.codeOk { return false; }
      } else if r.way == PASSKEY {
        if !user.hasPasskey { return false; }
        var taken := ConsumePasskeyReady(looks, saved1);
        if taken != Fresh { return false; }
      } else {
        return false;
      }
      ok := SetSecureVerification(r.way, records, saved2);
    }

    method RequireSecureVerificationMethod(name: string, now: int, saved: bool) returns (ok: bool)
      modifies this
      ensures (Now(), ok) == Require(old(Now()), name, now, saved)
    {
      if !verified.At? || now - verified.time >= VERIFIED_TIMEOUT {
        if saved {
          verified := NoMark;
          way := None;
        }
        return false;
      }
      ok := way == Some(name);
    }
  }

  // ---- runs ----

  /** A call; `from` is the number of the cookie presented with it. */
  datatype Event =
    | Finish(from: nat, now: int, saved: bool)
    | Try(from: nat, user: User, r: Request, looks: int, records: int, saved1: bool, saved2: bool)
    | Ask(from: nat, way: string, now: int, saved: bool)
    | Clear(from: nat, now: int, everything: bool, saved: bool)

  /** A finished check taken by a verification, and the cookie that carried it. */
  datatype Use = Use(finish: nat, cookie: nat, at: int)

  /** A recorded verification, with the use it rests on if it went by passkey. */
  datatype Verification = Verification(way: string, at: int, use: Option<nat>)

  /** An issued cookie, with the finished check its ready mark and the verification its verified mark stand for. */
  datatype Cookie = Cookie(marks: Marks, finish: nat, verification: nat)

  datatype World = World(clock: int, cookies: seq<Cookie>, finishes: seq<int>, uses: seq<Use>, verifications: seq<Verification>)

  const NO_MARKS := Marks(NoMark, NoMark, None)

  const START := World(0, [], [], [], [])

  function Began(e: Event): int {
    match e
    case Finish(_, now, _) => now case Try(_, _, _, looks, _, _, _) => looks
    case Ask(_, _, now, _) => now case Clear(_, now, _, _) => now
  }

  function Ended(e: Event): int {
    if e.Try? then e.records else Began(e)
  }

  predicate InOrder(clock: int, e: Event) {
    clock <= Began(e) <= Ended(e)
  }

  /** The session of a call: an empty one if there is no such cookie. */
  function Shown(w: World, e: Event): Cookie {
    if e.from < |w.cookies| then w.cookies[e.from] else Cookie(NO_MARKS, 0, 0)
  }

  function Issue(w: World, c: Cookie, saved: bool): World {
    if saved then w.(cookies := w.cookies + [c]) else w
  }

  /** Does the call take the finished check its cookie stands for? */
  predicate Takes(w: World, e: Event) {
    && e.Try? && MayTry(e.user) && !CodeAccepted(e.user, e.r) && e.r.way == PASSKEY && e.user.hasPasskey
    && Consume(Shown(w, e).marks, e.looks, e.saved1).1 == Fresh
  }

  /** The cookie that comes back from looking at the ready mark, before anything is recorded. */
  function Looked(w: World, e: Event): World
    requires e.Try?
  {
    var c := Shown(w, e);
    if !MayTry(e.user) || CodeAccepted(e.user, e.r) || e.r.way != PASSKEY || !e.user.hasPasskey || c.marks.ready == NoMark then w
    else Issue(w, c.(marks := c.marks.(ready := NoMark)), e.saved1)
  }

  function Next(w: World, e: Event): World {
    var c := Shown(w, e);
    match e
    case Finish(_, now, saved) =>
      Issue(w, Cookie(Finished(c.marks, now), |w.finishes|, c.verification), saved).(clock := now, finishes := w.finishes + [now])
    case Try(from, user, r, looks, records, saved1, saved2) =>
      var taken, after := Takes(w, e), Looked(w, e).(clock := records);
      var after := if taken then after.(uses := w.uses + [Use(c.finish, from, looks)]) else after;
      if !Verify(c.marks, user, r, looks, records, saved1, saved2).1 then after
      else Issue(after, Cookie(Recorded(c.marks, r.way, records), c.finish, |w.verifications|), saved2)
           .(verifications := w.verifications + [Verification(r.way, records, if taken then Some(|w.uses|) else None)])
    case Ask(_, way, now, saved) =>
      var stale := !c.marks.verified.At? || now - c.marks.verified.time >= VERIFIED_TIMEOUT;
      Issue(w, c.(marks := Unverified(c.marks)), stale && saved).(clock := now)
    case Clear(_, now, everything, saved) =>
      Issue(w, c.(marks := if everything then NO_MARKS else Unverified(c.marks)), saved).(clock := now)
  }

  ghost predicate IsRun(events: seq<Event>) {
    && (events != [] ==> InOrder(0, events[0]))
    && forall i :: 0 < i < |events| ==> InOrder(Ended(events[i - 1]), events[i])
  }

  function After(events: seq<Event>): World {
    if events == [] then START else Next(After(events[..|events| - 1]), events[|events| - 1])
  }

  /** The newest cookie of a call is the session its operation leaves behind. */
  lemma NewestIsTheSession(w: World, e: Event)
    ensures var c, w' := Shown(w, e), Next(w, e);
            var marks := match e
                         case Finish(_, now, saved) => Save(c.marks, Finished(c.marks, now), saved)
                         case Try(_, user, r, looks, records, saved1, saved2) => Verify(c.marks, user, r, looks, records, saved1, saved2).0
                         case Ask(_, way, now, saved) => Require(c.marks, way, now, saved).0
                         case Clear(_, _, everything, saved) => Save(c.marks, if everything then NO_MARKS else Unverified(c.marks), saved);
            if w'.cookies == w.cookies then marks == c.marks else w'.cookies[|w'.cookies| - 1].marks == marks
  {
  }

  // ---- what every run keeps ----

  ghost predicate UseOk(w: World, u: Use) {
    && u.finish < |w.finishes| && 0 <= u.at - w.finishes[u.finish] < READY_TIMEOUT
    && u.cookie < |w.cookies| && w.cookies[u.cookie].marks.ready == At(w.finishes[u.finish]) && w.cookies[u.cookie].finish == u.finish
  }

  ghost predicate VerificationOk(w: World, v: Verification) {
    && (v.way == PASSKEY <==> v.use.Some?)
    && (v.use.Some? ==> v.use.value < |w.uses| && w.uses[v.use.value].at <= v.at)
  }

  ghost predicate CookieOk(w: World, c: Cookie) {
    && (c.marks.ready == NoMark || c.marks.verified == NoMark)
    && !c.marks.ready.Garbage? && !c.marks.verified.Garbage?
    && (c.marks.verified == NoMark ==> c.marks.way == None)
    && (c.marks.ready.At? ==> c.finish < |w.finishes| && w.finishes[c.finish] == c.marks.ready.time <= w.clock)
    && (c.marks.verified.At? ==>
          && c.verification < |w.verifications| && c.marks.verified.time <= w.clock
          && var v := w.verifications[c.verification]; c.marks.way == Some(v.way) && c.marks.verified.time == v.at)
  }

  ghost predicate Inv(w: World) {
    && (forall k :: 0 <= k < |w.uses| ==> UseOk(w, w.uses[k]))
    && (forall k :: 0 <= k < |w.verifications| ==> VerificationOk(w, w.verifications[k]))
    && (forall k :: 0 <= k < |w.cookies| ==> CookieOk(w, w.cookies[k]))
    && (forall i, j :: 0 <= i < j < |w.verifications| && w.verifications[i].use.Some? ==> w.verifications[i].use != w.verifications[j].use)
  }

  /** Nothing issued, finished, used or recorded is ever taken back. */
  ghost predicate Extends(w: World, w': World) {
    w.clock <= w'.clock && w.cookies <= w'.cookies && w.finishes <= w'.finishes && w.uses <= w'.uses && w.verifications <= w'.verifications
  }

  lemma NextExtends(w: World, e: Event)
    requires InOrder(w.clock, e)
    ensures Extends(w, Next(w, e))
  {
    hide Verify, Takes, Consume;
  }

  lemma ShownIsOk(w: World, e: Event)
    requires Inv(w)
    ensures CookieOk(w, Shown(w, e))
  {
  }

  lemma OldStaysOk(w: World, w': World, c: Cookie, u: Use, v: Verification)
    requires Extends(w, w')
    ensures CookieOk(w, c) ==> CookieOk(w', c)
    ensures UseOk(w, u) ==> UseOk(w', u)
    ensures VerificationOk(w, v) ==> VerificationOk(w', v)
  {
  }

  lemma NewCookiesOk(w: World, e: Event, k: nat)
    requires CookieOk(w, Shown(w, e)) && InOrder(w.clock, e) && |w.cookies| <= k < |Next(w, e).cookies|
    ensures CookieOk(Next(w, e), Next(w, e).cookies[k])
  {
  }

  lemma NewUseOk(w: World, e: Event)
    requires CookieOk(w, Shown(w, e)) && InOrder(w.clock, e) && Takes(w, e)
    ensures Next(w, e).uses == w.uses + [Use(Shown(w, e).finish, e.from, e.looks)]
    ensures UseOk(Next(w, e), Use(Shown(w, e).finish, e.from, e.looks))
  {
    NextExtends(w, e);
  }

  lemma NewVerificationOk(w: World, e: Event)
    requires InOrder(w.clock, e)
    ensures var w' := Next(w, e);
            && |w'.verifications| <= |w.verifications| + 1
            && (|w'.verifications| > |w.verifications| ==>
                  && VerificationOk(w', w'.verifications[|w.verifications|])
                  && (w'.verifications[|w.verifications|].use.Some? ==> w'.verifications[|w.verifications|].use == Some(|w.uses|)))
            && (!Takes(w, e) ==> w'.uses == w.uses)
  {
  }

  /** Every call, whatever cookie it presents and whatever is saved, keeps all of it. */
  lemma NextKeepsInv(w: World, e: Event)
    requires Inv(w) && InOrder(w.clock, e)
    ensures Inv(Next(w, e)) && Extends(w, Next(w, e))
  {
    NextExtends(w, e);
    ShownIsOk(w, e);
    NewVerificationOk(w, e);
    if Takes(w, e) { NewUseOk(w, e); }
    var w' := Next(w, e);
    forall k | |w.cookies| <= k < |w'.cookies| ensures CookieOk(w', w'.cookies[k]) { NewCookiesOk(w, e, k); }
    hide Next, Takes, UseOk, VerificationOk, CookieOk;
    var c, u, v := Shown(w, e), Use(0, 0, 0), Verification("", 0, None);
    forall k | 0 <= k < |w'.cookies| ensures CookieOk(w', w'.cookies[k]) {
      if k < |w.cookies| { OldStaysOk(w, w', w.cookies[k], u, v); }
    }
    forall k | 0 <= k < |w'.uses| ensures UseOk(w', w'.uses[k]) {
      if k < |w.uses| { OldStaysOk(w, w', c, w.uses[k], v); }
    }
    forall k | 0 <= k < |w'.verifications| ensures VerificationOk(w', w'.verifications[k]) {
      if k < |w.verifications| { OldStaysOk(w, w', c, u, w.verifications[k]); }
    }
    OldUsesAreOld(w);
  }

  lemma OldUsesAreOld(w: World)
    requires Inv(w)
    ensures forall k :: 0 <= k < |w.verifications| ==> w.verifications[k].use != Some(|w.uses|)
  {
    forall k | 0 <= k < |w.verifications| ensures w.verifications[k].use != Some(|w.uses|) {
      assert VerificationOk(w, w.verifications[k]);
    }
  }

  lemma RunPrefix(events: seq<Event>)
    requires IsRun(events) && events != []
    ensures var n := |events| - 1;
            IsRun(events[..n]) && InOrder(if n == 0 then 0 else Ended(events[..n][n - 1]), events[n])
  {
    hide InOrder, Ended;
  }

  lemma {:induction false} RunKeepsInv(events: seq<Event>)
    requires IsRun(events)
    ensures Inv(After(events))
    ensures After(events).clock == if events == [] then 0 else Ended(events[|events| - 1])
  {
    hide Inv;
    if events == [] {
      StartIsFine();
    } else {
      var n := |events| - 1;
      RunKeepsInv(events[..n]);
      assert n > 0 ==> events[..n][n - 1] == events[n - 1];
      NextKeepsInv(After(events[..n]), events[n]);
    }
  }

  lemma StartIsFine()
    ensures Inv(START)
  {
  }

  /** No cookie ever issued has both marks. */
  lemma NeverReadyAndVerified(events: seq<Event>, k: nat)
    requires IsRun(events) && k < |After(events).cookies|
    ensures var m := After(events).cookies[k].marks; m.ready == NoMark || m.verified == NoMark
  {
    RunKeepsInv(events);
    hide After;
    assert CookieOk(After(events), After(events).cookies[k]);
  }

  /** A verification that rests on a finished passkey check, used less than 60 seconds after it, if it went by passkey. */
  ghost predicate WellFounded(w: World, v: Verification) {
    v.way == PASSKEY ==>
      && v.use.Some? && v.use.value < |w.uses|
      && var u := w.uses[v.use.value];
      u.finish < |w.finishes| && w.finishes[u.finish] <= u.at <= v.at && u.at - w.finishes[u.finish] < 60
  }

  /**
    A demand for a method made with any cookie ever issued is met at time `t`
    exactly if the cookie carries a recorded verification by that method less
    than 300 seconds old, and every verification a cookie carries is well
    founded.
  */
  lemma DemandMetExactly(events: seq<Event>, k: nat, way: string, t: int, saved: bool)
    requires IsRun(events) && k < |After(events).cookies| && After(events).clock <= t
    ensures var w := After(events);
            var c := w.cookies[k];
            && (c.marks.verified.At? ==> c.verification < |w.verifications| && WellFounded(w, w.verifications[c.verification]))
            && (Require(c.marks, way, t, saved).1 <==>
                  c.marks.verified.At? && var v := w.verifications[c.verification]; v.way == way && 0 <= t - v.at < 300)
  {
    RunKeepsInv(events);
    hide After;
    var w := After(events);
    var c := w.cookies[k];
    assert CookieOk(w, c);
    if c.marks.verified.At? {
      var v := w.verifications[c.verification];
      assert VerificationOk(w, v);
      if v.use.Some? { assert UseOk(w, w.uses[v.use.value]); }
    }
  }

  /** No use carries two verifications. */
  lemma UseCarriesOneVerification(events: seq<Event>, i: nat, j: nat)
    requires IsRun(events) && i < j < |After(events).verifications| && After(events).verifications[i].use.Some?
    ensures After(events).verifications[i].use != After(events).verifications[j].use
  {
    RunKeepsInv(events);
    hide After;
  }

  // ---- what every verification is earned by ----

  /**
    A call that should verify: by an enabled user, saved, and either with a code
    that is not empty and passes its check, or with a ready mark less than 60
    seconds old that could be taken.
  */
  predicate Passes(w: World, e: Event) {
    && e.Try? && e.user.enabled && e.saved2
    && (|| (e.r.way == "2fa" && e.user.has2FA && e.r.code != "" && e.r.codeOk)
        || (e.r.way == "passkey" && e.user.hasPasskey && e.saved1
            && Shown(w, e).marks.ready.At? && e.looks - Shown(w, e).marks.ready.time < 60))
  }

  /** Exactly such calls are answered yes and recorded. */
  lemma VerifiesExactly(w: World, e: Event)
    requires e.Try?
    ensures Verify(Shown(w, e).marks, e.user, e.r, e.looks, e.records, e.saved1, e.saved2).1 <==> Passes(w, e)
    ensures var vs := Next(w, e).verifications;
            if Passes(w, e) then |vs| == |w.verifications| + 1 && vs == w.verifications + [vs[|w.verifications|]]
                                 && vs[|w.verifications|].way == e.r.way && vs[|w.verifications|].at == e.records
            else vs == w.verifications
  {
  }

  /** Every verification of every run was earned by such a call. */
  lemma {:induction false} EveryVerificationIsEarned(events: seq<Event>, n: nat) returns (i: nat)
    requires n < |After(events).verifications|
    ensures i < |events| && Passes(After(events[..i]), events[i])
    ensures var v := After(events).verifications[n]; v.way == events[i].r.way && v.at == events[i].records
    decreases |events|
  {
    var k := |events| - 1;
    var w, e := After(events[..k]), events[k];
    assert After(events) == Next(w, e);
    if e.Try? { VerifiesExactly(w, e); } else { OnlyTriesVerify(w, e); }
    hide Passes, Next, After;
    if n < |w.verifications| {
      i := EveryVerificationIsEarned(events[..k], n);
      assert events[..k][..i] == events[..i] && events[..k][i] == events[i];
    } else {
      i := k;
    }
  }

  lemma OnlyTriesVerify(w: World, e: Event)
    requires !e.Try?
    ensures Next(w, e).verifications == w.verifications
  {
  }

  /** A demand refused for its age gives back a cookie without the verification, and with the ready mark it had. */
  lemma StaleVerificationIsRemoved(w: World, e: Event)
    requires e.Ask? && e.saved && Shown(w, e).marks.verified.At? && e.now - Shown(w, e).marks.verified.time >= 300
    ensures var c := Next(w, e).cookies[|w.cookies|..];
            |c| == 1 && c[0].marks == Marks(Shown(w, e).marks.ready, NoMark, None)
  {
  }

  // ---- how often a finished check counts ----

  /** A call by passkey whose cookie carries the ready mark of check `f`, in time and with its first save going through. */
  predicate Presents(w: World, e: Event, f: nat) {
    && e.Try? && e.user.enabled && e.user.hasPasskey && e.r.way == PASSKEY && e.saved1
    && Shown(w, e).marks.ready.At? && Shown(w, e).finish == f && e.looks - Shown(w, e).marks.ready.time < 60
  }

  ghost function Presented(events: seq<Event>, f: nat): nat {
    if events == [] then 0
    else Presented(events[..|events| - 1], f) + if Presents(After(events[..|events| - 1]), events[|events| - 1], f) then 1 else 0
  }

  ghost function Counted(uses: seq<Use>, f: nat): nat {
    if uses == [] then 0 else Counted(uses[..|uses| - 1], f) + if uses[|uses| - 1].finish == f then 1 else 0
  }

  lemma TakesIsPresents(w: World, e: Event, f: nat)
    ensures Takes(w, e) && Shown(w, e).finish == f <==> Presents(w, e, f)
    ensures Next(w, e).uses == if Takes(w, e) then w.uses + [Use(Shown(w, e).finish, e.from, e.looks)] else w.uses
  {
  }

  /** A finished check is used once for every call that presents its ready mark in time: no more and no less often. */
  lemma {:induction false} UsedAsOftenAsPresented(events: seq<Event>, f: nat)
    ensures Counted(After(events).uses, f) == Presented(events, f)
  {
    if events != [] {
      var n := |events| - 1;
      UsedAsOftenAsPresented(events[..n], f);
      var w := After(events[..n]);
      TakesIsPresents(w, events[n], f);
      var u := Use(Shown(w, events[n]).finish, events[n].from, Began(events[n]));
      assert (w.uses + [u])[..|w.uses|] == w.uses;
      hide Takes, Presents, Shown;
    }
  }

  lemma {:induction false} CountedTwice(uses: seq<Use>, f: nat)
    ensures Counted(uses, f) >= 1 <==> exists k :: 0 <= k < |uses| && uses[k].finish == f
    ensures Counted(uses, f) >= 2 <==> exists j, k :: 0 <= j < k < |uses| && uses[j].finish == uses[k].finish == f
  {
    if uses != [] {
      var rest, n := uses[..|uses| - 1], |uses| - 1;
      CountedTwice(rest, f);
      assert forall k :: 0 <= k < n ==> rest[k] == uses[k];
      if Counted(rest, f) >= 2 {
        var j, k :| 0 <= j < k < |rest| && rest[j].finish == rest[k].finish == f;
        assert uses[j].finish == uses[k].finish == f;
      } else if Counted(rest, f) >= 1 {
        var j :| 0 <= j < |rest| && rest[j].finish == f;
        assert uses[j].finish == f;
      }
    }
  }

  /** So a finished check is used twice if and only if its ready mark is presented in time twice. */
  lemma UsedTwiceExactly(events: seq<Event>, f: nat)
    ensures var uses := After(events).uses;
            (exists j, k :: 0 <= j < k < |uses| && uses[j].finish == uses[k].finish == f) <==> Presented(events, f) >= 2
  {
    UsedAsOftenAsPresented(events, f);
    hide After, Counted, Presented;
    CountedTwice(After(events).uses, f);
  }

  /** What was issued stays valid: nothing a later call does takes a cookie, or what it carries, back. */
  lemma {:induction false} NothingIsRevoked(events: seq<Event>, more: seq<Event>)
    requires IsRun(events + more)
    ensures Extends(After(events), After(events + more))
    decreases |more|
  {
    if more == [] {
      assert events + more == events;
    } else {
      var all, n := events + more, |events + more| - 1;
      assert all[..n] == events + more[..|more| - 1];
      assert After(all) == Next(After(all[..n]), all[n]);
      hide After, Next, Inv;
      RunPrefix(all);
      NothingIsRevoked(events, more[..|more| - 1]);
      RunKeepsInv(all[..n]);
      NextExtends(After(all[..n]), all[n]);
    }
  }

  /** Keeping a cookie makes it count again: presenting it in time succeeds whatever has happened since. */
  lemma KeptCookieCountsAgain(w: World, k: nat, user: User, code: string, looks: int, records: int)
    requires k < |w.cookies| && user.enabled && user.hasPasskey
    requires w.cookies[k].marks.ready.At? && looks - w.cookies[k].marks.ready.time < READY_TIMEOUT
    ensures var w' := Next(w, Try(k, user, Request(PASSKEY, code, false), looks, records, true, true));
            && w'.uses == w.uses + [Use(w.cookies[k].finish, k, looks)]
            && |w'.verifications| == |w.verifications| + 1
            && |w'.cookies| == |w.cookies| + 2 && w'.cookies[|w.cookies| + 1].marks == Marks(NoMark, At(records), Some(PASSKEY))
            && w'.cookies[k] == w.cookies[k]
  {
  }

  /** One finish, one cookie, and any number of verifications resting on it. */
  function Repeats(t: int, n: nat): seq<Event> {
    if n == 0 then [Finish(0, t, true)]
    else Repeats(t, n - 1) + [Try(0, User(true, false, true), Request(PASSKEY, "", false), t, t, true, true)]
  }

  lemma {:induction false} RepeatsIsRun(t: int, n: nat)
    requires t >= 0
    ensures IsRun(Repeats(t, n)) && |Repeats(t, n)| == n + 1 && Ended(Repeats(t, n)[n]) == t
    decreases n
  {
    if n > 0 { RepeatsIsRun(t, n - 1); }
  }

  lemma {:induction false} OneFinishCountsAnyNumberOfTimes(t: int, n: nat)
    requires t >= 0
    ensures IsRun(Repeats(t, n))
    ensures var w := After(Repeats(t, n));
            && |w.finishes| == 1 && |w.verifications| == |w.uses| == n
            && |w.cookies| > 0 && w.cookies[0] == Cookie(Marks(At(t), NoMark, None), 0, 0)
            && forall k :: 0 <= k < n ==> w.uses[k].finish == 0
    decreases n
  {
    RepeatsIsRun(t, n);
    hide IsRun;
    if n == 0 {
      assert Repeats(t, 0)[..0] == [];
    } else {
      OneFinishCountsAnyNumberOfTimes(t, n - 1);
      var rest := Repeats(t, n - 1);
      assert Repeats(t, n)[..|Repeats(t, n)| - 1] == rest;
      KeptCookieCountsAgain(After(rest), 0, User(true, false, true), "", t, t);
    }
  }

  // ---- a client that keeps only its newest cookie ----

  predicate Newest(w: World, e: Event) {
    e.from + 1 == |w.cookies| || w.cookies == []
  }

  ghost predicate PresentsNewest(events: seq<Event>) {
    forall i :: 0 <= i < |events| ==> Newest(After(events[..i]), events[i])
  }

  /** The check the newest cookie stands for has not been used, and no check was used twice. */
  ghost predicate UnusedInv(w: World) {
    && (w.cookies != [] && w.cookies[|w.cookies| - 1].marks.ready.At? ==> Unused(w.uses, w.cookies[|w.cookies| - 1].finish))
    && NoneTwice(w.uses)
  }

  ghost predicate Unused(uses: seq<Use>, f: nat) {
    forall k :: 0 <= k < |uses| ==> uses[k].finish != f
  }

  ghost predicate NoneTwice(uses: seq<Use>) {
    forall i, j :: 0 <= i < j < |uses| ==> uses[i].finish != uses[j].finish
  }

  /** A ready mark on the newest cookie is of a check just finished, or is carried on from the cookie before and nothing was taken. */
  lemma NewestReady(w: World, e: Event)
    requires Newest(w, e)
    ensures var w' := Next(w, e);
            w'.cookies != [] && w'.cookies[|w'.cookies| - 1].marks.ready.At? ==>
              var c := w'.cookies[|w'.cookies| - 1];
              && w'.uses == w.uses
              && (c.finish == |w.finishes|
                  || (w.cookies != [] && w.cookies[|w.cookies| - 1].marks.ready.At? && c.finish == w.cookies[|w.cookies| - 1].finish))
  {
  }

  lemma TakesNewest(w: World, e: Event)
    requires Newest(w, e) && Takes(w, e)
    ensures w.cookies != [] && w.cookies[|w.cookies| - 1].marks.ready.At? && Shown(w, e).finish == w.cookies[|w.cookies| - 1].finish
  {
  }

  lemma OldUsesOldFinishes(w: World, k: nat)
    requires Inv(w) && k < |w.uses|
    ensures w.uses[k].finish < |w.finishes|
  {
    hide VerificationOk, CookieOk;
    assert UseOk(w, w.uses[k]);
  }

  lemma NoneTwiceGrows(uses: seq<Use>, u: Use)
    requires NoneTwice(uses) && Unused(uses, u.finish)
    ensures NoneTwice(uses + [u])
  {
  }

  lemma NextKeepsUnused(w: World, e: Event)
    requires Inv(w) && UnusedInv(w) && Newest(w, e)
    ensures UnusedInv(Next(w, e))
  {
    NewestReady(w, e);
    TakesIsPresents(w, e, Shown(w, e).finish);
    if Takes(w, e) { TakesNewest(w, e); }
    forall k | 0 <= k < |w.uses| ensures w.uses[k].finish != |w.finishes| { OldUsesOldFinishes(w, k); }
    assert Unused(w.uses, |w.finishes|);
    hide Inv, Next, Takes, Presents, Shown, Unused, NoneTwice;
    if Takes(w, e) { NoneTwiceGrows(w.uses, Use(Shown(w, e).finish, e.from, e.looks)); }
  }

  lemma NewestPrefix(events: seq<Event>)
    requires PresentsNewest(events) && events != []
    ensures PresentsNewest(events[..|events| - 1])
  {
    hide After;
    var rest := events[..|events| - 1];
    forall i | 0 <= i < |rest| ensures Newest(After(rest[..i]), rest[i]) {
      assert rest[..i] == events[..i] && rest[i] == events[i];
    }
  }

  /** Then no finished check counts twice. */
  lemma {:induction false} NoFinishCountsTwiceWithNewestCookie(events: seq<Event>)
    requires IsRun(events) && PresentsNewest(events)
    ensures UnusedInv(After(events)) && NoneTwice(After(events).uses)
  {
    if events != [] {
      var n := |events| - 1;
      assert After(events) == Next(After(events[..n]), events[n]);
      hide After, Inv, UnusedInv, Next;
      RunPrefix(events);
      NewestPrefix(events);
      NoFinishCountsTwiceWithNewestCookie(events[..n]);
      RunKeepsInv(events[..n]);
      NextKeepsUnused(After(events[..n]), events[n]);
    }
    assert UnusedInv(After(events));
    UnusedIsNoneTwice(After(events));
  }

  lemma UnusedIsNoneTwice(w: World)
    requires UnusedInv(w)
    ensures NoneTwice(w.uses)
  {
  }
}
