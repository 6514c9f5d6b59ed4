/** Device authorization polling (`grok.rs`, `oauth.rs`; section 3.5 of RFC 8628). Times are nanoseconds. */
module Polling {
  import opened Prelude

  const SECOND: nat := 1_000_000_000
  const LOGIN_TIMEOUT: nat := 900

  /** The interval is in whole seconds. */
  datatype Grant = Grant(interval: nat, deadline: nat)

  /** `device`: the grant of a device response, with a default interval of five seconds and at least one. */
  function Device(started: nat, interval: Option<nat>, expiresIn: nat): Option<Grant> {
    var given := if interval.Some? then interval.value else 5;
    var seconds := if given > 1 then given else 1;
    if expiresIn == 0 || seconds > 300 then None
    else Some(Grant(seconds, started + Min(expiresIn, LOGIN_TIMEOUT) * SECOND))
  }

  function NextInterval(interval: nat): Option<nat> { if interval + 5 <= 900 then Some(interval + 5) else None }

  datatype Reply = AuthorizationPending | SlowDown | Other(outcome: Ending)

  datatype Ending = Granted | Denied | Expired | Failed | StillPolling

  /**
   One turn: the time that passes before the clock is read, how late the sleep
   wakes and the reply comes, and the reply.
   */
  datatype Turn = Turn(pause: nat, late: nat, reply: Reply)

  /** A poll: when the wait for it began, when it was due to end, and the interval in force. */
  datatype Sent = Sent(from: nat, wake: nat, interval: nat)

  datatype Record = Record(polls: seq<Sent>, ending: Ending)

  /** How one turn leaves the loop. */
  datatype Step = Stops(polls: seq<Sent>, ending: Ending) | Goes(sent: Sent, grant: Grant, now: nat)

  function OneTurn(g: Grant, now: nat, turn: Turn): Step {
    var from := now + turn.pause;
    var wake := from + g.interval * SECOND;
    var sent := Sent(from, wake, g.interval);
    if wake >= g.deadline then Stops([], Expired)
    else
      match turn.reply
      case Other(outcome) => Stops([sent], outcome)
      case AuthorizationPending => Goes(sent, g, wake + turn.late)
      case SlowDown =>
        var next := NextInterval(g.interval);
        if next.None? then Stops([sent], Expired) else Goes(sent, g.(interval := next.value), wake + turn.late)
  }

  /** The loop of `poll` from time `now`, for as long as the turns go on. */
  function Run(g: Grant, now: nat, turns: seq<Turn>): Record
    decreases |turns|
  {
    if turns == [] then Record([], StillPolling)
    else
      match OneTurn(g, now, turns[0])
      case Stops(polls, ending) => Record(polls, ending)
      case Goes(sent, next, later) =>
        var rest := Run(next, later, turns[1..]);
        Record([sent] + rest.polls, rest.ending)
  }

  /** The run on which the loop has already sent `polls`. */
  function After(polls: seq<Sent>, rest: Record): Record { Record(polls + rest.polls, rest.ending) }

  lemma RunStep(polls: seq<Sent>, g: Grant, now: nat, turns: seq<Turn>, i: nat)
    requires i < |turns|
    ensures After(polls, Run(g, now, turns[i..])) ==
            match OneTurn(g, now, turns[i])
            case Stops(more, ending) => Record(polls + more, ending)
            case Goes(sent, next, later) => After(polls + [sent], Run(next, later, turns[i + 1..]))
  {
    assert turns[i..][0] == turns[i] && turns[i..][1..] == turns[i + 1..];
    match OneTurn(g, now, turns[i])
    case Stops(_, _) =>
    case Goes(sent, next, later) =>
      var rest := Run(next, later, turns[i + 1..]).polls;
      assert polls + ([sent] + rest) == (polls + [sent]) + rest;
  }

  lemma NoTurns(g: Grant, now: nat, turns: seq<Turn>)
    ensures turns[0..] == turns && Run(g, now, turns[|turns|..]) == Record([], StillPolling)
  {
  }

  /** The loop itself. */
  method Poll(grant: Grant, started: nat, turns: seq<Turn>) returns (polls: seq<Sent>, ending: Ending)
    ensures Record(polls, ending) == Run(grant, started, turns)
  {
    hide Run;
    var device := grant;
    var now: nat, i: nat := started, 0;
    polls := [];
    NoTurns(grant, started, turns);
    while i < |turns|
      invariant i <= |turns|
      invariant Run(grant, started, turns) == After(polls, Run(device, now, turns[i..]))
    {
      var turn := turns[i];
      RunStep(polls, device, now, turns, i);
      var from := now + turn.pause;
      var wake := from + device.interval * SECOND;
      if wake >= device.deadline {
        return polls, Expired;
      }
      polls := polls + [Sent(from, wake, device.interval)];
      match turn.reply {
        case Other(outcome) =>
          return polls, outcome;
        case AuthorizationPending =>
        case SlowDown =>
          var next := NextInterval(device.interval);
          if next.None? {
            return polls, Expired;
          }
          device := device.(interval := next.value);
      }
      now := wake + turn.late;
      i := i + 1;
    }
    NoTurns(device, now, turns);
    ending := StillPolling;
  }

  // ---- Pace ----

  /** The replies to the first `n` turns that asked to slow down. */
  function Slowed(turns: seq<Turn>, n: nat): nat
    requires n <= |turns|
  {
    if n == 0 then 0 else Slowed(turns[1..], n - 1) + if turns[0].reply.SlowDown? then 1 else 0
  }

  /** Each poll waits for its interval after the one before it, and is due before the deadline. */
  ghost predicate Paced(polls: seq<Sent>, g: Grant, now: nat) {
    && (forall k :: 0 <= k < |polls| ==> polls[k].from + polls[k].interval * SECOND == polls[k].wake < g.deadline)
    && (polls != [] ==> polls[0].from >= now)
    && (forall j, k :: 0 <= j < k < |polls| ==> polls[k].from >= polls[j].wake)
  }

  /**
   Every poll is preceded by a wait of the current interval that is due to end
   before the deadline, and every `slow_down` so far has raised that interval
   by five seconds.
   */
  lemma {:induction false} PollsArePaced(g: Grant, now: nat, turns: seq<Turn>)
    ensures var polls := Run(g, now, turns).polls;
            && |polls| <= |turns| && Paced(polls, g, now)
            && forall k :: 0 <= k < |polls| ==> polls[k].interval == g.interval + 5 * Slowed(turns, k)
    decreases |turns|
  {
    hide Paced;
    var polls := Run(g, now, turns).polls;
    if turns == [] || OneTurn(g, now, turns[0]).Stops? {
      FewArePaced(polls, g, now);
    } else {
      var step := OneTurn(g, now, turns[0]);
      var rest := Run(step.grant, step.now, turns[1..]).polls;
      PollsArePaced(step.grant, step.now, turns[1..]);
      PacedMore(step.sent, rest, g, step.grant, now, step.now);
      assert polls == [step.sent] + rest;
      assert forall k :: 1 <= k < |polls| ==> polls[k].interval == rest[k - 1].interval;
    }
  }

  lemma FewArePaced(polls: seq<Sent>, g: Grant, now: nat)
    requires |polls| <= 1
    requires polls != [] ==>
               now <= polls[0].from && polls[0].from + polls[0].interval * SECOND == polls[0].wake < g.deadline
    ensures Paced(polls, g, now)
  {
  }

  lemma PacedMore(first: Sent, rest: seq<Sent>, g: Grant, next: Grant, now: nat, later: nat)
    requires first.from >= now && first.from + first.interval * SECOND == first.wake < g.deadline == next.deadline
    requires first.wake <= later && Paced(rest, next, later)
    ensures Paced([first] + rest, g, now)
  {
    var polls := [first] + rest;
    assert forall k :: 1 <= k < |polls| ==> polls[k] == rest[k - 1];
    forall k | 0 < k < |polls| ensures polls[k].from >= first.wake {
      assert k > 1 ==> rest[k - 1].from >= rest[0].wake;
    }
  }

  /** The last reply asked to slow down beyond the cap. */
  predicate Capped(polls: seq<Sent>, turns: seq<Turn>) {
    0 < |polls| <= |turns| && turns[|polls| - 1].reply.SlowDown? && polls[|polls| - 1].interval + 5 > 900
  }

  /** The last reply that was read was an answer. */
  predicate Answered(polls: seq<Sent>, turns: seq<Turn>) { 0 < |polls| <= |turns| && turns[|polls| - 1].reply.Other? }

  /** When the wait after these polls is due to end. */
  function NextWake(g: Grant, now: nat, polls: seq<Sent>, turns: seq<Turn>): nat
    requires |polls| < |turns|
  {
    var n := |polls|;
    var from := (if n == 0 then now else polls[n - 1].wake + turns[n - 1].late) + turns[n].pause;
    from + (g.interval + 5 * Slowed(turns, n)) * SECOND
  }

  /**
   How polling ends: with the first reply that is an answer, and with that answer;
   otherwise as expired, when a reply asks to slow down beyond the cap or when
   the next wait would not end before the deadline; and not before.
   */
  lemma {:induction false} PollingEnds(g: Grant, now: nat, turns: seq<Turn>)
    ensures var r := Run(g, now, turns);
            var n := |r.polls|;
            && n <= |turns|
            && (forall k :: 0 <= k < n - 1 ==> !turns[k].reply.Other?)
            && (Answered(r.polls, turns) ==> r.ending == turns[n - 1].reply.outcome)
            && (Capped(r.polls, turns) ==> r.ending == Expired)
            && (!Answered(r.polls, turns) && !Capped(r.polls, turns) ==>
                  if n == |turns| then r.ending == StillPolling
                  else r.ending == Expired && NextWake(g, now, r.polls, turns) >= g.deadline)
    decreases |turns|
  {
    if turns != [] && OneTurn(g, now, turns[0]).Goes? {
      var step := OneTurn(g, now, turns[0]);
      var rest := Run(step.grant, step.now, turns[1..]).polls;
      PollingEnds(step.grant, step.now, turns[1..]);
      assert forall k :: 1 <= k < |turns| ==> turns[k] == turns[1..][k - 1];
      assert Run(g, now, turns).polls == [step.sent] + rest;
    }
  }

  /**
   A device response is taken with an interval of five seconds unless it names
   one, of at least one and at most 300.
   */
  lemma DevicesAreBounded(started: nat, interval: Option<nat>, expiresIn: nat)
    ensures var grant := Device(started, interval, expiresIn);
            && (grant.Some? <==> expiresIn > 0 && (interval.Some? ==> interval.value <= 300))
            && (grant.Some? ==>
                  && 1 <= grant.value.interval <= 300
                  && (interval.None? ==> grant.value.interval == 5)
                  && (interval.Some? && interval.value >= 1 ==> grant.value.interval == interval.value)
                  && started < grant.value.deadline <= started + LOGIN_TIMEOUT * SECOND
                  && grant.value.deadline <= started + expiresIn * SECOND
                  && (expiresIn <= LOGIN_TIMEOUT ==> grant.value.deadline == started + expiresIn * SECOND)
                  && (expiresIn >= LOGIN_TIMEOUT ==> grant.value.deadline == started + LOGIN_TIMEOUT * SECOND))
  {
  }

  function Total(polls: seq<Sent>): nat {
    if polls == [] then 0 else Total(polls[..|polls| - 1]) + polls[|polls| - 1].interval
  }

  lemma {:induction false} WaitsAddUp(polls: seq<Sent>, g: Grant, now: nat)
    requires polls != [] && Paced(polls, g, now)
    ensures now + Total(polls) * SECOND <= polls[|polls| - 1].wake
  {
    if |polls| > 1 {
      WaitsAddUp(polls[..|polls| - 1], g, now);
    }
  }

  lemma {:induction false} TotalAtLeast(polls: seq<Sent>, least: nat)
    requires forall k :: 0 <= k < |polls| ==> polls[k].interval >= least
    ensures Total(polls) >= |polls| * least
  {
    if polls != [] {
      TotalAtLeast(polls[..|polls| - 1], least);
    }
  }

  /** All waits of a run fit into the login timeout. */
  lemma WaitsFit(started: nat, interval: Option<nat>, expiresIn: nat, turns: seq<Turn>)
    requires Device(started, interval, expiresIn).Some?
    ensures var polls := Run(Device(started, interval, expiresIn).value, started, turns).polls;
            Total(polls) < LOGIN_TIMEOUT
  {
    var g := Device(started, interval, expiresIn).value;
    var polls := Run(g, started, turns).polls;
    PollsArePaced(g, started, turns);
    if polls != [] {
      WaitsAddUp(polls, g, started);
    }
  }

  /** However the authority answers, one device grant leads to at most 899 polls. */
  lemma AtMost899Polls(started: nat, interval: Option<nat>, expiresIn: nat, turns: seq<Turn>)
    requires Device(started, interval, expiresIn).Some?
    ensures |Run(Device(started, interval, expiresIn).value, started, turns).polls| <= 899
  {
    var g := Device(started, interval, expiresIn).value;
    WaitsFit(started, interval, expiresIn, turns);
    PollsArePaced(g, started, turns);
    TotalAtLeast(Run(g, started, turns).polls, 1);
  }

  lemma {:induction false} AllSlowed(turns: seq<Turn>, n: nat)
    requires n <= |turns| && forall k :: 0 <= k < |turns| ==> turns[k].reply.SlowDown?
    ensures Slowed(turns, n) == n
  {
    if n > 0 {
      AllSlowed(turns[1..], n - 1);
    }
  }

  lemma {:induction false} RisingTotal(polls: seq<Sent>, first: nat)
    requires forall k :: 0 <= k < |polls| ==> polls[k].interval == first + 5 * k
    ensures 2 * Total(polls) == |polls| * (2 * first + 5 * (|polls| - 1))
  {
    if polls != [] {
      RisingTotal(polls[..|polls| - 1], first);
    }
  }

  lemma {:induction false} TotalGrows(polls: seq<Sent>, n: nat)
    requires n <= |polls|
    ensures Total(polls[..n]) <= Total(polls)
  {
    if n < |polls| {
      assert polls[..|polls| - 1][..n] == polls[..n];
      TotalGrows(polls[..|polls| - 1], n);
    } else {
      assert polls[..n] == polls;
    }
  }

  /** When every reply asks to slow down, there are at most 19 polls. */
  lemma AtMost19SlowPolls(started: nat, interval: Option<nat>, expiresIn: nat, turns: seq<Turn>)
    requires Device(started, interval, expiresIn).Some?
    requires forall k :: 0 <= k < |turns| ==> turns[k].reply.SlowDown?
    ensures |Run(Device(started, interval, expiresIn).value, started, turns).polls| <= 19
  {
    var g := Device(started, interval, expiresIn).value;
    var polls := Run(g, started, turns).polls;
    WaitsFit(started, interval, expiresIn, turns);
    PollsArePaced(g, started, turns);
    forall k | 0 <= k < |polls| ensures polls[k].interval == g.interval + 5 * k {
      AllSlowed(turns, k);
    }
    if |polls| > 19 {
      TotalGrows(polls, 20);
      RisingTotal(polls[..20], g.interval);
      assert false;
    }
  }

  // ---- Both bounds are reached ----

  function Repeat(turn: Turn, n: nat): (turns: seq<Turn>)
    ensures |turns| == n && forall k :: 0 <= k < n ==> turns[k] == turn
  {
    seq(n, _ => turn)
  }

  lemma {:induction false} SteadyPolls(deadline: nat, now: nat, n: nat)
    requires now + n * SECOND < deadline
    ensures |Run(Grant(1, deadline), now, Repeat(Turn(0, 0, AuthorizationPending), n)).polls| == n
    decreases n
  {
    if n > 0 {
      var turn := Turn(0, 0, AuthorizationPending);
      SteadyPolls(deadline, now + SECOND, n - 1);
      assert Repeat(turn, n)[1..] == Repeat(turn, n - 1);
    }
  }

  /** The waits of `n` polls whose interval starts at `interval` and rises every time. */
  function Rising(interval: nat, n: nat): nat
    decreases n
  {
    if n == 0 then 0 else interval + Rising(interval + 5, n - 1)
  }

  lemma {:induction false} RisingSum(interval: nat, n: nat)
    ensures 2 * Rising(interval, n) == n * (2 * interval + 5 * (n - 1))
    decreases n
  {
    if n > 0 {
      RisingSum(interval + 5, n - 1);
    }
  }

  lemma {:induction false} SlowPolls(interval: nat, deadline: nat, now: nat, n: nat)
    requires now + Rising(interval, n) * SECOND < deadline && interval + 5 * n <= 900
    ensures |Run(Grant(interval, deadline), now, Repeat(Turn(0, 0, SlowDown), n)).polls| == n
    decreases n
  {
    if n > 0 {
      var turn := Turn(0, 0, SlowDown);
      SlowPolls(interval + 5, deadline, now + interval * SECOND, n - 1);
      assert Repeat(turn, n)[1..] == Repeat(turn, n - 1);
    }
  }

  lemma BoundsAreReached(started: nat)
    ensures Device(started, Some(1), 900).Some?
    ensures var g := Device(started, Some(1), 900).value;
            && (exists turns: seq<Turn> :: |Run(g, started, turns).polls| == 899)
            && (exists turns: seq<Turn> ::
                  (forall k :: 0 <= k < |turns| ==> turns[k].reply.SlowDown?) && |Run(g, started, turns).polls| == 19)
  {
    var g := Device(started, Some(1), 900).value;
    SteadyPolls(g.deadline, started, 899);
    RisingSum(1, 19);
    SlowPolls(1, g.deadline, started, 19);
    assert forall k :: 0 <= k < 19 ==> Repeat(Turn(0, 0, SlowDown), 19)[k].reply.SlowDown?;
  }

  /**
   A grant that the device response allows never meets the cap of 900 seconds on
   the interval: its deadline comes first.
   */
  lemma CapIsNeverMet(started: nat, interval: Option<nat>, expiresIn: nat, turns: seq<Turn>)
    requires Device(started, interval, expiresIn).Some?
    ensures forall k :: 0 <= k < |Run(Device(started, interval, expiresIn).value, started, turns).polls| ==>
              NextInterval(Run(Device(started, interval, expiresIn).value, started, turns).polls[k].interval).Some?
  {
    var g := Device(started, interval, expiresIn).value;
    var polls := Run(g, started, turns).polls;
    WaitsFit(started, interval, expiresIn, turns);
    PollsArePaced(g, started, turns);
    forall k | 0 <= k < |polls| ensures NextInterval(polls[k].interval).Some? {
      if k > 0 {
        LastTwo(polls, k);
        SlowedOne(turns, k);
      }
    }
  }

  lemma LastTwo(polls: seq<Sent>, k: nat)
    requires 0 < k < |polls|
    ensures polls[k - 1].interval + polls[k].interval <= Total(polls)
  {
    TotalGrows(polls, k + 1);
    assert polls[..k + 1][..k] == polls[..k] && polls[..k][..k - 1] == polls[..k - 1];
  }

  lemma {:induction false} SlowedOne(turns: seq<Turn>, k: nat)
    requires 0 < k <= |turns|
    ensures Slowed(turns, k) <= Slowed(turns, k - 1) + 1
  {
    if k > 1 {
      SlowedOne(turns[1..], k - 1);
    }
  }
}
