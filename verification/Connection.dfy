/** One upstream connection: authenticated on demand, requests retried and
    replayed only where that is safe, repeated failures forcing a new
    handshake. */
module Connection {
  import opened Market

  datatype Request = Request(get: bool, parses: bool, path: string, query: string, body: string)

  /** What goes over the wire. */
  datatype Sent = AuthStart | AuthAnswer | Alive | Call(request: Request)

  /** What comes back. A failed request may have ended because its caller went
      away. usable says whether a handshake reply carries a challenge that can
      be answered. */
  datatype Reply = Lost(callerGone: bool) | Answered(status: int, body: string, usable: bool)

  /** The n-th request ever sent on the connection gets the n-th reply. */
  type Upstream = nat -> Reply

  datatype Link = Link(authenticated: bool, failures: int, wire: seq<Sent>)

  datatype Result =
    | Body(body: string)
    | HandshakeFailed
    | TransportFailed
    | Refused(status: int)
    | Empty(status: int)

  const SAFE_READS: set<string> := {
    "/api/order/get", "/api/order/get_total", "/api/order/get_page", "/api/order/get_batch",
    "/api/order/backup/list", "/api/order/backup/get",
    "/api/history/get", "/api/history/get_total", "/api/history/get_page", "/api/history/get_batch",
    "/api/deal/get", "/api/deal/get_total", "/api/deal/get_page", "/api/deal/get_batch",
    "/api/deal/backup/list", "/api/deal/backup/get",
    "/api/position/get", "/api/position/get_total", "/api/position/get_page", "/api/position/get_batch",
    "/api/position/backup/list", "/api/position/backup/get", "/api/position/check",
    "/api/trade/calc_rate_buy", "/api/trade/calc_rate_sell", "/api/trade/check_margin", "/api/trade/calc_profit",
    "/api/dealer/get_request_result",
    "/api/tick/last", "/api/tick/last_group", "/api/tick/stat", "/api/tick/history",
    "/api/chart/get", "/api/book/get", "/api/book/subscribe",
    "/api/user/get", "/api/user/account/get",
    "/api/symbol/list", "/api/symbol/get", "/api/symbol/get_group", "/api/group/get" }

  const MAX_READS: nat := 3

  predicate RetrySafe(r: Request) {
    r.get && r.parses && r.path in SAFE_READS
  }

  /** A refusal here is about the operation, not the session. */
  predicate SessionNeutral(r: Request) {
    r.parses && r.path == "/api/book/subscribe"
  }

  predicate Success(status: int) {
    200 <= status < 300
  }

  predicate AuthRejected(status: int) {
    status == 401 || status == 403
  }

  function Send(l: Link, s: Sent): Link {
    l.(wire := l.wire + [s])
  }

  function Heard(up: Upstream, l: Link): Reply {
    up(|l.wire|)
  }

  predicate StartOk(r: Reply) {
    r.Answered? && r.status == 200 && r.usable
  }

  function Authenticate(up: Upstream, l: Link): (Link, bool) {
    var l1 := Send(l, AuthStart);
    if !StartOk(Heard(up, l)) then (l1, false)
    else
      var l2 := Send(l1, AuthAnswer);
      match Heard(up, l1)
      case Lost(_) => (l2, false)
      case Answered(status, _, _) =>
        if status != 200 then (l2.(authenticated := false), false)
        else (l2.(authenticated := true, failures := 0), true)
  }

  /** Up to a number of attempts; only transport errors are retried, and only
      while the caller waits. */
  function Attempts(up: Upstream, l: Link, r: Request, left: nat): (Link, Reply)
    requires left > 0
    decreases left
  {
    var reply := Heard(up, l);
    var l1 := Send(l, Call(r));
    if reply.Answered? || reply.callerGone || left == 1 then (l1, reply)
    else Attempts(up, l1, r, left - 1)
  }

  function Execute(up: Upstream, l: Link, r: Request): (Link, Reply) {
    Attempts(up, l, r, if RetrySafe(r) then MAX_READS else 1)
  }

  function NoteFailure(l: Link, threshold: int): Link {
    if l.failures + 1 >= threshold then l.(authenticated := false, failures := 0)
    else l.(failures := l.failures + 1)
  }

  function NoteHTTPFailure(l: Link, threshold: int, r: Request, status: int): Link {
    if AuthRejected(status) then
      if SessionNeutral(r) then l.(failures := 0) else l.(authenticated := false, failures := 0)
    else if status >= 500 then NoteFailure(l, threshold)
    else l.(failures := 0)
  }

  /** What an answered attempt comes to once no replay is in question. */
  function Conclude(l: Link, threshold: int, r: Request, reply: Reply): (Link, Result) {
    match reply
    case Lost(_) => (NoteFailure(l, threshold), TransportFailed)
    case Answered(status, body, _) =>
      if !Success(status) then (NoteHTTPFailure(l, threshold, r, status), Refused(status))
      else if body == "" then (NoteFailure(l, threshold), Empty(status))
      else (l.(failures := 0), Body(body))
  }

  predicate Replays(r: Request, reply: Reply) {
    reply.Answered? && AuthRejected(reply.status) && !SessionNeutral(r) && RetrySafe(r)
  }

  function Do(up: Upstream, l: Link, threshold: int, r: Request): (Link, Result) {
    var (l0, ready) := if l.authenticated then (l, true) else Authenticate(up, l);
    if !ready then (l0, HandshakeFailed)
    else
      var (l1, reply) := Execute(up, l0, r);
      if !Replays(r, reply) then Conclude(l1, threshold, r, reply)
      else
        var (l2, again) := Authenticate(up, l1);
        if !again then (l2.(authenticated := false, failures := 0), Refused(reply.status))
        else
          var (l3, replay) := Execute(up, l2, r);
          Conclude(l3, threshold, r, replay)
  }

  // ---------- pacing re-authentication ----------

  const MIN_BACKOFF := 5000
  const MAX_BACKOFF := 120000

  /** d doubled n times, doubling no further once at the cap. */
  function Doubled(d: int, n: nat): int
    decreases n
  {
    if d >= MAX_BACKOFF then MAX_BACKOFF else if n == 0 then d else Doubled(d * 2, n - 1)
  }

  /** Milliseconds to wait after so many consecutive failures, before jitter. */
  function Backoff(failures: nat): int {
    Doubled(MIN_BACKOFF, if failures > 1 then failures - 1 else 0)
  }

  datatype Pacer = Pacer(failures: nat, next: Option<real>)

  function Later(now: real, wait: int, jitter: real): real {
    now + wait as real * jitter
  }

  predicate Due(p: Pacer, now: real) {
    p.next.Some? ==> now >= p.next.value
  }

  function Paced(p: Pacer, now: real, jitter: real, ok: bool): Pacer {
    if ok then Pacer(0, None)
    else Pacer(p.failures + 1, Some(Later(now, Backoff(p.failures + 1), jitter)))
  }

  function PingStep(up: Upstream, l: Link, p: Pacer, now: real, jitter: real): (Link, Pacer) {
    var reply := Heard(up, l);
    if l.authenticated && reply.Answered? && reply.status == 200 then (Send(l, Alive), p)
    else
      var l1 := if l.authenticated then Send(l, Alive).(authenticated := false) else l;
      if !Due(p, now) then (l1, p)
      else
        var (l2, ok) := Authenticate(up, l1);
        (l2, Paced(p, now, jitter, ok))
  }

  // ---------- the connection itself ----------

  class Conn {
    const upstream: Upstream
    const threshold: int
    var authenticated: bool
    var failures: int
    var sent: nat
    var reauthFailures: nat
    var nextAuthAttempt: Option<real>
    ghost var wire: seq<Sent>

    constructor (upstream: Upstream, threshold: int)
      ensures this.upstream == upstream && this.threshold == threshold && View() == Link(false, 0, []) && Valid() && Pacing() == Pacer(0, None)
    {
      this.upstream, this.threshold := upstream, threshold;
      authenticated, failures, sent, wire := false, 0, 0, [];
      reauthFailures, nextAuthAttempt := 0, None;
    }

    ghost function View(): Link
      reads this
    {
      Link(authenticated, failures, wire)
    }

    ghost predicate Valid()
      reads this
    {
      sent == |wire|
    }

    ghost function Pacing(): Pacer
      reads this
    {
      Pacer(reauthFailures, nextAuthAttempt)
    }

    method RawDo(s: Sent) returns (reply: Reply)
      requires Valid()
      modifies this`sent, this`wire
      ensures Valid() && View() == Send(old(View()), s) && reply == Heard(upstream, old(View()))
    {
      reply := upstream(sent);
      sent, wire := sent + 1, wire + [s];
    }

    method AuthenticateLocked() returns (ok: bool)
      requires Valid()
      modifies this`authenticated, this`failures, this`sent, this`wire
      ensures Valid() && (View(), ok) == Authenticate(upstream, old(View()))
    {
      var start := RawDo(AuthStart);
      if start.Lost? || start.status != 200 || !start.usable { return false; }
      var answer := RawDo(AuthAnswer);
      if answer.Lost? { return false; }
      if answer.status != 200 {
        authenticated := false;
        return false;
      }
      authenticated, failures := true, 0;
      ok := true;
    }

    method ExecuteWithRetry(r: Request) returns (reply: Reply)
      requires Valid()
      modifies this`sent, this`wire
      ensures Valid() && (View(), reply) == Execute(upstream, old(View()), r)
    {
      var maxAttempts := 1;
      if RetrySafe(r) { maxAttempts := MAX_READS; }
      var attempt := 1;
      while true
        invariant Valid() && 1 <= attempt <= maxAttempts && authenticated == old(authenticated) && failures == old(failures)
        invariant Attempts(upstream, View(), r, maxAttempts - attempt + 1) == Execute(upstream, old(View()), r)
        decreases maxAttempts - attempt
      {
        reply := RawDo(Call(r));
        if reply.Answered? || reply.callerGone || attempt == maxAttempts { return; }
        attempt := attempt + 1;
      }
    }

    method Fail()
      modifies this`authenticated, this`failures
      ensures View() == NoteFailure(old(View()), threshold)
    {
      failures := failures + 1;
      if failures >= threshold { authenticated, failures := false, 0; }
    }

    method FailHTTP(r: Request, status: int)
      modifies this`authenticated, this`failures
      ensures View() == NoteHTTPFailure(old(View()), threshold, r, status)
    {
      if status == 401 || status == 403 {
        if SessionNeutral(r) {
          failures := 0;
          return;
        }
        authenticated, failures := false, 0;
      } else if status >= 500 {
        Fail();
      } else {
        failures := 0;
      }
    }

    method Finish(r: Request, reply: Reply) returns (result: Result)
      modifies this`authenticated, this`failures
      ensures (View(), result) == Conclude(old(View()), threshold, r, reply)
    {
      match reply
      case Lost(_) =>
        Fail();
        result := TransportFailed;
      case Answered(status, body, _) =>
        if status < 200 || status >= 300 {
          FailHTTP(r, status);
          result := Refused(status);
        } else if |body| == 0 {
          Fail();
          result := Empty(status);
        } else {
          failures := 0;
          result := Body(body);
        }
    }

    method Perform(r: Request) returns (result: Result)
      requires Valid()
      modifies this`authenticated, this`failures, this`sent, this`wire
      ensures Valid() && (View(), result) == Do(upstream, old(View()), threshold, r)
    {
      if !authenticated {
        var ready := AuthenticateLocked();
        if !ready { return HandshakeFailed; }
      }
      var reply := ExecuteWithRetry(r);
      if reply.Answered? && AuthRejected(reply.status) && !SessionNeutral(r) && RetrySafe(r) {
        var again := AuthenticateLocked();
        if !again {
          authenticated, failures := false, 0;
          return Refused(reply.status);
        }
        reply := ExecuteWithRetry(r);
      }
      result := Finish(r, reply);
    }

    /** The keep-alive tick: a dead session is re-authenticated, but not before
        the time that the last failed attempt set. */
    method Ping(now: real, jitter: real)
      requires Valid()
      modifies this
      ensures Valid() && (View(), Pacing()) == PingStep(upstream, old(View()), old(Pacing()), now, jitter)
    {
      if authenticated {
        var reply := RawDo(Alive);
        if reply.Answered? && reply.status == 200 { return; }
        authenticated := false;
      }
      if nextAuthAttempt.Some? && now < nextAuthAttempt.value { return; }
      var ok := AuthenticateLocked();
      if ok {
        reauthFailures, nextAuthAttempt := 0, None;
      } else {
        reauthFailures := reauthFailures + 1;
        var wait := ReauthDelay(reauthFailures);
        nextAuthAttempt := Some(Later(now, wait, jitter));
      }
    }
  }

  /** The delay loop: doubled per consecutive failure, capped. */
  method ReauthDelay(failures: nat) returns (d: int)
    ensures d == Backoff(failures)
  {
    d := MIN_BACKOFF;
    var i := 1;
    while i < failures && d < MAX_BACKOFF
      invariant i >= 1 && d > 0
      invariant Doubled(d, if failures > i then failures - i else 0) == Doubled(MIN_BACKOFF, if failures > 1 then failures - 1 else 0)
    {
      d := d * 2;
      i := i + 1;
    }
    if d > MAX_BACKOFF { d := MAX_BACKOFF; }
  }

  // ---------- what goes over the wire ----------

  function Count(wire: seq<Sent>, s: Sent): nat {
    if |wire| == 0 then 0 else Count(wire[..|wire| - 1], s) + if wire[|wire| - 1] == s then 1 else 0
  }

  lemma CountSend(l: Link, x: Sent, s: Sent)
    ensures Count(Send(l, x).wire, s) == Count(l.wire, s) + if x == s then 1 else 0
  {
  }

  lemma AuthenticateCounts(up: Upstream, l: Link, s: Sent)
    ensures var l' := Authenticate(up, l).0;
            && Count(l'.wire, s) <= Count(l.wire, s) + (if s.Call? then 0 else 1)
            && Count(l'.wire, s) >= Count(l.wire, s)
  {
    CountSend(l, AuthStart, s);
    CountSend(Send(l, AuthStart), AuthAnswer, s);
  }

  lemma {:induction false} AttemptsCounts(up: Upstream, l: Link, r: Request, left: nat, s: Sent)
    requires left > 0
    decreases left
    ensures var l' := Attempts(up, l, r, left).0;
            && Count(l.wire, s) + (if s == Call(r) then 1 else 0) <= Count(l'.wire, s)
            && Count(l'.wire, s) <= Count(l.wire, s) + (if s == Call(r) then left else 0)
  {
    CountSend(l, Call(r), s);
    var reply := Heard(up, l);
    if !(reply.Answered? || reply.callerGone || left == 1) { AttemptsCounts(up, Send(l, Call(r)), r, left - 1, s); }
  }

  lemma ConcludeWire(l: Link, threshold: int, r: Request, reply: Reply)
    ensures Conclude(l, threshold, r, reply).0.wire == l.wire
  {
  }

  /** One call sends a request outside the allowlist at most once and an
      allowlisted read at most six times, sends nothing else but at most two
      handshakes, and at most one when the request may not be replayed. */
  lemma SendsBounded(up: Upstream, l: Link, threshold: int, r: Request, s: Sent)
    ensures var sent := Count(Do(up, l, threshold, r).0.wire, s) - Count(l.wire, s);
            && sent >= 0
            && (s == Call(r) ==> sent <= if RetrySafe(r) then 6 else 1)
            && (s.Call? && s != Call(r) ==> sent == 0)
            && (!s.Call? ==> sent <= (if l.authenticated then 0 else 1) + (if RetrySafe(r) && !SessionNeutral(r) then 1 else 0))
  {
    hide Count, Authenticate, Attempts, Conclude, RetrySafe, SessionNeutral;
    AuthenticateCounts(up, l, s);
    var l0 := if l.authenticated then l else Authenticate(up, l).0;
    var left := if RetrySafe(r) then MAX_READS else 1;
    AttemptsCounts(up, l0, r, left, s);
    var (l1, reply) := Execute(up, l0, r);
    ConcludeWire(l1, threshold, r, reply);
    AuthenticateCounts(up, l1, s);
    var l2 := Authenticate(up, l1).0;
    AttemptsCounts(up, l2, r, left, s);
    var (l3, replay) := Execute(up, l2, r);
    ConcludeWire(l3, threshold, r, replay);
  }

  // ---------- session health ----------

  /** What a call leaves of the session, told by its result alone. A body comes
      from the last reply on the wire. Refusals below 500 never cost the session,
      unless they reject it; transport errors, empty answers and refusals from
      500 up cost it only on reaching the threshold, counted from the last
      handshake. */
  lemma Outcome(up: Upstream, l: Link, threshold: int, r: Request)
    ensures var (l', result) := Do(up, l, threshold, r);
            var before := if Count(l'.wire, AuthStart) == Count(l.wire, AuthStart) then l.failures else 0;
            match result
            case Body(b) =>
              && l'.authenticated && l'.failures == 0 && b != ""
              && |l'.wire| > 0 && l'.wire[|l'.wire| - 1] == Call(r)
              && var reply := up(|l'.wire| - 1);
                 reply.Answered? && Success(reply.status) && reply.body == b
            case HandshakeFailed => !l.authenticated && !l'.authenticated && l'.failures == l.failures
            case Refused(status) =>
              && !Success(status)
              && (if AuthRejected(status) && !SessionNeutral(r) then !l'.authenticated && l'.failures == 0
                  else if status < 500 then l'.authenticated && l'.failures == 0
                  else Counted(l', before, threshold))
            case _ => Counted(l', before, threshold)
  {
    hide Count, Execute, Authenticate, SessionNeutral;
    AuthenticateEffect(up, l);
    var l0 := if l.authenticated then l else Authenticate(up, l).0;
    var (l1, reply) := Execute(up, l0, r);
    ExecuteEffect(up, l0, r);
    AuthenticateEffect(up, l1);
    ExecuteEffect(up, Authenticate(up, l1).0, r);
  }

  predicate Counted(l: Link, before: int, threshold: int) {
    if before + 1 >= threshold then !l.authenticated && l.failures == 0
    else l.authenticated && l.failures == before + 1
  }

  lemma AuthenticateEffect(up: Upstream, l: Link)
    ensures var (l', ok) := Authenticate(up, l);
            && Count(l'.wire, AuthStart) == Count(l.wire, AuthStart) + 1
            && (ok ==> l'.authenticated && l'.failures == 0)
            && (!ok ==> l'.failures == l.failures && (l'.authenticated ==> l.authenticated))
  {
  }

  lemma {:induction false} AttemptsEffect(up: Upstream, l: Link, r: Request, left: nat)
    requires left > 0
    ensures var (l', reply) := Attempts(up, l, r, left);
            && l'.authenticated == l.authenticated && l'.failures == l.failures
            && Count(l'.wire, AuthStart) == Count(l.wire, AuthStart)
            && |l'.wire| > 0 && l'.wire[|l'.wire| - 1] == Call(r) && up(|l'.wire| - 1) == reply
    decreases left
  {
    CountSend(l, Call(r), AuthStart);
    var reply := Heard(up, l);
    if !(reply.Answered? || reply.callerGone || left == 1) { AttemptsEffect(up, Send(l, Call(r)), r, left - 1); }
  }

  lemma ExecuteEffect(up: Upstream, l: Link, r: Request)
    ensures var (l', reply) := Execute(up, l, r);
            && l'.authenticated == l.authenticated && l'.failures == l.failures
            && Count(l'.wire, AuthStart) == Count(l.wire, AuthStart)
            && |l'.wire| > 0 && l'.wire[|l'.wire| - 1] == Call(r) && up(|l'.wire| - 1) == reply
  {
    hide Count, Attempts, RetrySafe;
    AttemptsEffect(up, l, r, if RetrySafe(r) then MAX_READS else 1);
  }

  // ---------- what the upstream's replies make of a call ----------

  /** Nothing but the request went out, until a reply came that was not lost, the
      caller was gone, or so many attempts were used up; the last reply counts. */
  ghost predicate TriedUpTo(up: Upstream, wire: seq<Sent>, r: Request, limit: nat, wire': seq<Sent>, reply: Reply) {
    && wire <= wire' && |wire| < |wire'| <= |wire| + limit
    && (forall k | |wire| <= k < |wire'| :: wire'[k] == Call(r))
    && (forall k: nat | |wire| <= k < |wire'| - 1 :: up(k) == Lost(false))
    && reply == up(|wire'| - 1) && (|wire'| == |wire| + limit || reply != Lost(false))
  }

  /** Three attempts for what may be sent again, one for anything else. */
  ghost predicate Tried(up: Upstream, wire: seq<Sent>, r: Request, wire': seq<Sent>, reply: Reply) {
    TriedUpTo(up, wire, r, if RetrySafe(r) then 3 else 1, wire', reply)
  }

  /** A handshake was sent, and accepted or not. */
  ghost predicate Shook(up: Upstream, wire: seq<Sent>, wire': seq<Sent>, accepted: bool) {
    var n := |wire|;
    if !StartOk(up(n)) then !accepted && wire' == wire + [AuthStart]
    else
      && wire' == wire + [AuthStart, AuthAnswer]
      && (accepted <==> up(n + 1).Answered? && up(n + 1).status == 200)
  }

  function ResultOf(reply: Reply): Result {
    match reply
    case Lost(_) => TransportFailed
    case Answered(status, body, _) =>
      if !Success(status) then Refused(status) else if body == "" then Empty(status) else Body(body)
  }

  /** The reply refuses the session of a request that may be sent again. */
  predicate Renewable(r: Request, reply: Reply) {
    RetrySafe(r) && !SessionNeutral(r) && reply.Answered? && AuthRejected(reply.status)
  }

  /** From an open session: the request is tried; if its session is refused and
      it may be sent again, a new handshake is sent and, if that is accepted, the
      request is tried once more, and then the last reply alone decides. */
  ghost predicate CallRuns(up: Upstream, wire: seq<Sent>, r: Request, wire': seq<Sent>, result: Result) {
    exists w1, reply :: Tried(up, wire, r, w1, reply)
                        && if Renewable(r, reply) then RenewalRuns(up, w1, r, reply.status, wire', result)
                           else wire' == w1 && result == ResultOf(reply)
  }

  ghost predicate RenewalRuns(up: Upstream, wire: seq<Sent>, r: Request, status: int, wire': seq<Sent>, result: Result) {
    exists w2, accepted :: Shook(up, wire, w2, accepted)
                           && if accepted then exists last :: Tried(up, w2, r, wire', last) && result == ResultOf(last)
                              else wire' == w2 && result == Refused(status)
  }

  lemma {:induction false} AttemptsRun(up: Upstream, l: Link, r: Request, left: nat)
    requires left > 0
    ensures TriedUpTo(up, l.wire, r, left, Attempts(up, l, r, left).0.wire, Attempts(up, l, r, left).1)
    decreases left
  {
    var reply := Heard(up, l);
    if !(reply.Answered? || reply.callerGone || left == 1) {
      AttemptsRun(up, Send(l, Call(r)), r, left - 1);
    }
  }

  lemma ExecuteRuns(up: Upstream, l: Link, r: Request)
    ensures Tried(up, l.wire, r, Execute(up, l, r).0.wire, Execute(up, l, r).1)
  {
    hide RetrySafe, TriedUpTo;
    AttemptsRun(up, l, r, if RetrySafe(r) then MAX_READS else 1);
  }

  lemma AuthenticateRuns(up: Upstream, l: Link)
    ensures Shook(up, l.wire, Authenticate(up, l).0.wire, Authenticate(up, l).1)
  {
    assert l.wire + [AuthStart] + [AuthAnswer] == l.wire + [AuthStart, AuthAnswer];
  }

  lemma ConcludeIs(l: Link, threshold: int, r: Request, reply: Reply)
    ensures Conclude(l, threshold, r, reply).1 == ResultOf(reply) && Conclude(l, threshold, r, reply).0.wire == l.wire
  {
  }

  /** A call from an open session runs as the upstream's replies have it; without
      a session it starts with a handshake, and fails if that is refused. */
  lemma DoRuns(up: Upstream, l: Link, threshold: int, r: Request)
    ensures var (l', result) := Do(up, l, threshold, r);
            if l.authenticated then CallRuns(up, l.wire, r, l'.wire, result)
            else
              exists w, accepted :: Shook(up, l.wire, w, accepted)
                                    && if accepted then CallRuns(up, w, r, l'.wire, result)
                                       else l'.wire == w && result == HandshakeFailed
  {
    hide Execute, Authenticate, Conclude, Tried, Shook, RetrySafe, SessionNeutral, CallRuns, ResultOf;
    if l.authenticated {
      OpenDoRuns(up, l, threshold, r);
    } else {
      AuthenticateRuns(up, l);
      var (l0, ready) := Authenticate(up, l);
      if ready {
        AuthenticateOpens(up, l);
        OpenDoRuns(up, l0, threshold, r);
        assert Do(up, l, threshold, r) == Do(up, l0, threshold, r);
      }
    }
  }

  lemma AuthenticateOpens(up: Upstream, l: Link)
    ensures Authenticate(up, l).1 ==> Authenticate(up, l).0.authenticated
  {
  }

  lemma OpenDoRuns(up: Upstream, l: Link, threshold: int, r: Request)
    requires l.authenticated
    ensures CallRuns(up, l.wire, r, Do(up, l, threshold, r).0.wire, Do(up, l, threshold, r).1)
  {
    hide Execute, Authenticate, Conclude, Tried, Shook, RetrySafe, SessionNeutral, ResultOf;
    var (l1, reply) := Execute(up, l, r);
    ExecuteRuns(up, l, r);
    ConcludeIs(l1, threshold, r, reply);
    if Renewable(r, reply) {
      AuthenticateRuns(up, l1);
      var (l2, again) := Authenticate(up, l1);
      ExecuteRuns(up, l2, r);
      ConcludeIs(Execute(up, l2, r).0, threshold, r, Execute(up, l2, r).1);
      assert RenewalRuns(up, l1.wire, r, reply.status, Do(up, l, threshold, r).0.wire, Do(up, l, threshold, r).1);
    }
  }

  /** So a request that may be sent again is refused for its session only when the
      handshake in between was refused, or when it was refused again as the last
      thing heard after a fresh one. */
  lemma RefusedTwice(up: Upstream, l: Link, threshold: int, r: Request)
    requires l.authenticated && RetrySafe(r) && !SessionNeutral(r)
    requires Do(up, l, threshold, r).1.Refused? && AuthRejected(Do(up, l, threshold, r).1.status)
    ensures var wire := Do(up, l, threshold, r).0.wire;
            exists w1, w2, accepted ::
              && Shook(up, w1, w2, accepted) && |w1| > |l.wire|
              && up(|w1| - 1).Answered? && AuthRejected(up(|w1| - 1).status)
              && if accepted then |wire| > |w2| && up(|wire| - 1).Answered? && AuthRejected(up(|wire| - 1).status)
                 else wire == w2
  {
    DoRuns(up, l, threshold, r);
    var (l', result) := Do(up, l, threshold, r);
    hide Do, Shook, RetrySafe, SessionNeutral, Tried;
    var w1, reply :| Tried(up, l.wire, r, w1, reply)
                     && if Renewable(r, reply) then RenewalRuns(up, w1, r, reply.status, l'.wire, result)
                        else l'.wire == w1 && result == ResultOf(reply);
    LastHeard(up, l.wire, r, w1, reply);
    var w2, accepted :| Shook(up, w1, w2, accepted)
                        && if accepted then exists last :: Tried(up, w2, r, l'.wire, last) && result == ResultOf(last)
                           else l'.wire == w2 && result == Refused(reply.status);
    if accepted {
      var last :| Tried(up, w2, r, l'.wire, last) && result == ResultOf(last);
      LastHeard(up, w2, r, l'.wire, last);
    }
  }

  lemma LastHeard(up: Upstream, wire: seq<Sent>, r: Request, wire': seq<Sent>, reply: Reply)
    requires Tried(up, wire, r, wire', reply)
    ensures |wire'| > |wire| && up(|wire'| - 1) == reply && wire'[|wire'| - 1] == Call(r)
  {
    hide RetrySafe;
  }

  /** A tick leaves a live session alone. Otherwise the session is lost, and if
      the pacing allows it a handshake is sent: accepted, it opens the session and
      ends the pacing; refused, it counts as one more failure. */
  lemma PingDecided(up: Upstream, l: Link, p: Pacer, now: real, jitter: real)
    ensures var (l', p') := PingStep(up, l, p, now, jitter);
            var probed := if l.authenticated then l.wire + [Alive] else l.wire;
            if l.authenticated && up(|l.wire|).Answered? && up(|l.wire|).status == 200 then l' == l.(wire := probed) && p' == p
            else if !Due(p, now) then !l'.authenticated && l'.wire == probed && p' == p
            else
              exists accepted :: Shook(up, probed, l'.wire, accepted) && l'.authenticated == accepted
                                 && p' == if accepted then Pacer(0, None)
                                          else Pacer(p.failures + 1, Some(Later(now, Backoff(p.failures + 1), jitter)))
  {
    hide Authenticate, Shook, StartOk;
    var l1 := if l.authenticated then Send(l, Alive).(authenticated := false) else l;
    AuthenticateRuns(up, l1);
    AuthenticateSession(up, l1);
    var accepted := Authenticate(up, l1).1;
    assert l1.wire == if l.authenticated then l.wire + [Alive] else l.wire;
    assert Shook(up, l1.wire, Authenticate(up, l1).0.wire, accepted);
  }

  lemma AuthenticateSession(up: Upstream, l: Link)
    requires !l.authenticated
    ensures Authenticate(up, l).0.authenticated == Authenticate(up, l).1
  {
  }

  // ---------- runs ----------

  datatype Event = Perform(request: Request) | Keep(now: real, jitter: real)

  function Step(up: Upstream, threshold: int, s: (Link, Pacer), e: Event): (Link, Pacer) {
    match e
    case Perform(r) => (Do(up, s.0, threshold, r).0, s.1)
    case Keep(now, jitter) => PingStep(up, s.0, s.1, now, jitter)
  }

  function Run(up: Upstream, threshold: int, s: (Link, Pacer), events: seq<Event>): (Link, Pacer)
    decreases |events|
  {
    if |events| == 0 then s else Run(up, threshold, Step(up, threshold, s, events[0]), events[1..])
  }

  function Calls(events: seq<Event>, r: Request): nat
    decreases |events|
  {
    if |events| == 0 then 0 else (if events[0] == Perform(r) then 1 else 0) + Calls(events[1..], r)
  }

  predicate Healthy(l: Link, threshold: int) {
    0 <= l.failures < threshold
  }

  lemma StepSafe(up: Upstream, threshold: int, s: (Link, Pacer), e: Event, r: Request)
    requires threshold > 0 && Healthy(s.0, threshold)
    ensures var s' := Step(up, threshold, s, e);
            && Healthy(s'.0, threshold)
            && Count(s'.0.wire, Call(r)) <= Count(s.0.wire, Call(r)) + if e == Perform(r) then (if RetrySafe(r) then 6 else 1) else 0
  {
    hide Count, RetrySafe, Do;
    match e
    case Perform(q) =>
      SendsBounded(up, s.0, threshold, q, Call(r));
      DoHealthy(up, s.0, threshold, q);
    case Keep(now, jitter) =>
      CountSend(s.0, Alive, Call(r));
      AuthenticateCounts(up, s.0, Call(r));
      AuthenticateCounts(up, Send(s.0, Alive).(authenticated := false), Call(r));
      AuthenticateEffect(up, s.0);
      AuthenticateEffect(up, Send(s.0, Alive).(authenticated := false));
  }

  lemma DoHealthy(up: Upstream, l: Link, threshold: int, r: Request)
    requires threshold > 0 && Healthy(l, threshold)
    ensures Healthy(Do(up, l, threshold, r).0, threshold)
  {
    Outcome(up, l, threshold, r);
  }

  /** Over any run of calls and keep-alive ticks, whatever the upstream answers,
      the failure counter stays below the threshold, and a request outside the
      allowlist goes over the wire at most as often as it was asked for. */
  lemma {:induction false} RunSafe(up: Upstream, threshold: int, s: (Link, Pacer), events: seq<Event>, r: Request)
    requires threshold > 0 && Healthy(s.0, threshold)
    ensures var s' := Run(up, threshold, s, events);
            && Healthy(s'.0, threshold)
            && Count(s'.0.wire, Call(r)) <= Count(s.0.wire, Call(r)) + Calls(events, r) * (if RetrySafe(r) then 6 else 1)
    decreases |events|
  {
    hide Step, Count, Healthy, RetrySafe;
    if |events| > 0 {
      StepSafe(up, threshold, s, events[0], r);
      RunSafe(up, threshold, Step(up, threshold, s, events[0]), events[1..], r);
    }
  }

  // ---------- an outage ----------

  lemma {:induction false} DoubledBounds(d: int, n: nat)
    requires d > 0
    ensures Doubled(d, n) <= MAX_BACKOFF && Doubled(d, n) >= if d >= MAX_BACKOFF then MAX_BACKOFF else d
    ensures d < MAX_BACKOFF ==> Doubled(d, n + 1) == if 2 * Doubled(d, n) >= MAX_BACKOFF then MAX_BACKOFF else 2 * Doubled(d, n)
    decreases n
  {
    if d < MAX_BACKOFF && n > 0 { DoubledBounds(d * 2, n - 1); }
  }

  /** The delay starts at five seconds and doubles with each further failure, up to
      two minutes. */
  lemma BackoffDoubles(failures: nat)
    requires failures > 0
    ensures Backoff(1) == 5000
    ensures Backoff(failures + 1) == if 2 * Backoff(failures) >= 120000 then 120000 else 2 * Backoff(failures)
  {
    DoubledBounds(MIN_BACKOFF, failures - 1);
  }

  /** The times at which keep-alive ticks of an outage try to authenticate. */
  function Attempted(p: Pacer, ticks: seq<(real, real)>): seq<real>
    decreases |ticks|
  {
    if |ticks| == 0 then []
    else if !Due(p, ticks[0].0) then Attempted(p, ticks[1..])
    else [ticks[0].0] + Attempted(Paced(p, ticks[0].0, ticks[0].1, false), ticks[1..])
  }

  predicate Jittered(ticks: seq<(real, real)>) {
    forall i | 0 <= i < |ticks| :: 0.8 <= ticks[i].1 <= 1.2
  }

  /** During an outage the attempts of the ticks come at least 80 % of the
      doubling, capped delay after one another, however often they tick. */
  lemma {:induction false} AttemptsSpaced(p: Pacer, ticks: seq<(real, real)>, i: nat)
    requires Jittered(ticks)
    requires i < |Attempted(p, ticks)|
    ensures i == 0 && p.next.Some? ==> Attempted(p, ticks)[0] >= p.next.value
    ensures i > 0 ==> Attempted(p, ticks)[i] >= Attempted(p, ticks)[i - 1] + 0.8 * Backoff(p.failures + i) as real
    decreases |ticks|
  {
    if !Due(p, ticks[0].0) {
      AttemptsSpaced(p, ticks[1..], i);
    } else if i > 0 {
      var after := Paced(p, ticks[0].0, ticks[0].1, false);
      AttemptsSpaced(after, ticks[1..], i - 1);
      DoubledBounds(MIN_BACKOFF, p.failures);
      Widen(Backoff(p.failures + 1) as real, ticks[0].1);
    }
  }

  /** And a tick that comes 120 % of that delay after a failed attempt, or later,
      does try: nothing postpones it further. */
  lemma AttemptDue(p: Pacer, now: real, jitter: real, later: real)
    requires 0.8 <= jitter <= 1.2 && later >= now + 1.2 * Backoff(p.failures + 1) as real
    ensures Due(Paced(p, now, jitter, false), later)
  {
    DoubledBounds(MIN_BACKOFF, p.failures);
    Narrow(Backoff(p.failures + 1) as real, jitter);
  }

  lemma Narrow(d: real, jitter: real)
    requires d >= 0.0 && jitter <= 1.2
    ensures d * jitter <= 1.2 * d
  {
  }

  lemma Widen(d: real, jitter: real)
    requires d >= 0.0 && jitter >= 0.8
    ensures d * jitter >= 0.8 * d
  {
  }

  function Ticks(events: seq<Event>): seq<(real, real)>
    decreases |events|
  {
    if |events| == 0 then []
    else (match events[0] case Keep(now, jitter) => [(now, jitter)] case Perform(_) => []) + Ticks(events[1..])
  }

  /** When the ticks of a run send a handshake. */
  function TickHandshakes(up: Upstream, threshold: int, s: (Link, Pacer), events: seq<Event>): seq<real>
    decreases |events|
  {
    if |events| == 0 then []
    else
      var s' := Step(up, threshold, s, events[0]);
      var sent := Count(s'.0.wire, AuthStart) > Count(s.0.wire, AuthStart);
      (if events[0].Keep? && sent then [events[0].now] else []) + TickHandshakes(up, threshold, s', events[1..])
  }

  /** The session is lost and from here on no handshake is accepted. */
  ghost predicate Outage(up: Upstream, l: Link) {
    !l.authenticated && forall n: nat | n >= |l.wire| :: !StartOk(up(n))
  }

  lemma OutageStep(up: Upstream, threshold: int, s: (Link, Pacer), e: Event)
    requires Outage(up, s.0)
    ensures var s' := Step(up, threshold, s, e);
            && Outage(up, s'.0)
            && (match e
                case Perform(_) => s'.1 == s.1
                case Keep(now, jitter) =>
                  && s'.1 == (if Due(s.1, now) then Paced(s.1, now, jitter, false) else s.1)
                  && Count(s'.0.wire, AuthStart) == Count(s.0.wire, AuthStart) + if Due(s.1, now) then 1 else 0)
  {
    hide Paced, Execute;
    CountSend(s.0, AuthStart, AuthStart);
    assert !StartOk(Heard(up, s.0));
  }

  /** Whatever calls are made meanwhile, the ticks of an outage try to
      authenticate at exactly those times. */
  lemma {:induction false} OutageAttempts(up: Upstream, threshold: int, s: (Link, Pacer), events: seq<Event>)
    requires Outage(up, s.0)
    ensures TickHandshakes(up, threshold, s, events) == Attempted(s.1, Ticks(events))
    decreases |events|
  {
    hide Outage, Step, Count, Due, Paced;
    if |events| > 0 {
      OutageStep(up, threshold, s, events[0]);
      OutageAttempts(up, threshold, Step(up, threshold, s, events[0]), events[1..]);
      if events[0].Keep? {
        var t := (events[0].now, events[0].jitter);
        assert Ticks(events) == [t] + Ticks(events[1..]) && ([t] + Ticks(events[1..]))[1..] == Ticks(events[1..]);
      } else {
        assert Ticks(events) == Ticks(events[1..]);
      }
    }
  }

  /** So the handshakes that the ticks of a run send during an outage keep that
      distance. */
  lemma OutageSpaced(up: Upstream, threshold: int, s: (Link, Pacer), events: seq<Event>, i: nat)
    requires Outage(up, s.0) && Jittered(Ticks(events)) && 0 < i < |TickHandshakes(up, threshold, s, events)|
    ensures var times := TickHandshakes(up, threshold, s, events);
            times[i] >= times[i - 1] + 0.8 * Backoff(s.1.failures + i) as real
  {
    OutageAttempts(up, threshold, s, events);
    AttemptsSpaced(s.1, Ticks(events), i);
  }
}
