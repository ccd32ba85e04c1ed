/** The failure detector of the cache: how a peer is probed, found silent and marked offline. */
module PeerProbe {
  /** `ping` is positive while the peer is online and counts down the probes of an offline peer otherwise. */
  datatype Probe = Probe(ping: int, lastpingsent: nat, lastpingrecv: nat, lastpingnb: int)

  datatype Event =
    /** The periodic check. */
    | Check(now: nat)
    /** An answer to a ping; `known` says that the address of the peer was found good. */
    | Answer(now: nat, known: bool)
    /** An answer to a keepalive. */
    | KeepaliveAck(now: nat)
    /** The peer speaks from another port, or an operator resets it. */
    | Drop
    /** The configuration changed the peer. */
    | Reset

  /** The state after the check, and whether a probe is sent. */
  function Checked(p: Probe, now: nat): (Probe, bool) {
    var sent := p.(lastpingsent := now, lastpingrecv := 0);
    var idle := if p.ping == 0 then 9000 else if p.ping == -1 then 19000 else if p.ping == -2 then 29000 else 59000;
    if p.ping <= 0 then
      if p.lastpingsent == 0 || p.lastpingsent + idle < now then
        (sent.(ping := if p.ping <= -3 then p.ping else p.ping - 1), true)
      else (p, false)
    else if p.lastpingrecv == 0 && p.lastpingsent + 9000 < now then
      if p.lastpingnb == 1 || p.lastpingnb == 2 then (p.(lastpingsent := now, lastpingnb := p.lastpingnb + 1), true)
      else if p.lastpingnb == 3 then (sent.(ping := 0), true)
      else (p, false)
    else if p.lastpingsent + 60000 < now then (sent.(lastpingnb := 1), true)
    else (p, false)
  }

  function Measured(p: Probe, now: nat): int {
    1 + if p.ping > 0 then (p.ping + now - p.lastpingsent) / 2 else now - p.lastpingsent
  }

  function Step(p: Probe, ev: Event): Probe {
    match ev
    case Check(now) => Checked(p, now).0
    case Answer(now, known) =>
      var q := p.(lastpingrecv := now);
      if p.ping <= 0 && !known then q
      else q.(ping := if Measured(p, now) < 1 then 1 else Measured(p, now))
    case KeepaliveAck(now) => p.(lastpingrecv := now, ping := Measured(p, now))
    case Drop => p.(ping := 0)
    case Reset => p.(ping := 0, lastpingsent := 0)
  }

  function Idle(): Probe {
    Probe(0, 0, 0, 0)
  }

  function Time(ev: Event, before: nat): nat {
    match ev
    case Check(now) => now
    case Answer(now, _) => now
    case KeepaliveAck(now) => now
    case Drop => before
    case Reset => before
  }

  /** The clock starts positive and does not run backwards. */
  predicate Ticking(run: seq<Event>, now: nat)
    decreases |run|
  {
    run == [] || (now <= Time(run[0], now) && Ticking(run[1..], Time(run[0], now)))
  }

  function Run(p: Probe, run: seq<Event>): Probe
    decreases |run|
  {
    if run == [] then p else Run(Step(p, run[0]), run[1..])
  }

  // ---- Silence

  /** The times of the probes that were sent after the last answer; `u` are those before the run. */
  function Unanswered(p: Probe, run: seq<Event>, u: seq<nat>): seq<nat>
    decreases |run|
  {
    if run == [] then u else Unanswered(Step(p, run[0]), run[1..], Waiting(p, run[0], u))
  }

  function Waiting(p: Probe, ev: Event, u: seq<nat>): seq<nat> {
    match ev
    case Check(now) => if Checked(p, now).1 then u + [now] else u
    case Answer(_, _) => []
    case KeepaliveAck(_) => []
    case Drop => u
    case Reset => u
  }

  predicate Spaced(u: seq<nat>) {
    forall i :: 0 <= i < |u| - 1 ==> u[i] + 9000 < u[i + 1]
  }

  /** While a peer is online and has not answered the last probe, one, two or three probes are open, more than nine
      seconds apart, and their number is the one that the peer carries. */
  predicate Sound(p: Probe, u: seq<nat>, now: nat) {
    && p.lastpingsent <= now && 0 < now
    && (p.ping > 0 && p.lastpingrecv != 0 ==> u == [])
    && (p.ping > 0 && p.lastpingrecv == 0 ==>
         1 <= p.lastpingnb <= 3 && |u| == p.lastpingnb && u[|u| - 1] == p.lastpingsent && Spaced(u))
  }

  lemma StepSound(p: Probe, u: seq<nat>, ev: Event, now: nat)
    requires Sound(p, u, now) && now <= Time(ev, now)
    ensures Sound(Step(p, ev), Waiting(p, ev, u), Time(ev, now))
  {
  }

  function Last(run: seq<Event>, now: nat): nat
    decreases |run|
  {
    if run == [] then now else Last(run[1..], Time(run[0], now))
  }

  lemma {:induction false} RunSound(p: Probe, u: seq<nat>, run: seq<Event>, now: nat)
    requires Sound(p, u, now) && Ticking(run, now)
    ensures Sound(Run(p, run), Unanswered(p, run, u), Last(run, now))
    decreases |run|
  {
    hide Step, Waiting, Sound;
    if run != [] {
      StepSound(p, u, run[0], now);
      RunSound(Step(p, run[0]), Waiting(p, run[0], u), run[1..], Time(run[0], now));
    }
  }

  /** In every reachable state an online peer that owes an answer has one, two or three open probes. */
  lemma OpenProbes(run: seq<Event>, now: nat)
    requires 0 < now && Ticking(run, now)
    ensures var p := Run(Idle(), run); p.ping > 0 && p.lastpingrecv == 0 ==> 1 <= p.lastpingnb <= 3
  {
    hide Step;
    RunSound(Idle(), [], run, now);
  }

  /** A check takes an online peer offline only when three probes since its last answer stayed open, and more than 27
      seconds after the first of them. */
  lemma OfflineIsSilence(run: seq<Event>, now: nat, t: nat)
    requires 0 < now && Ticking(run, now) && Last(run, now) <= t
    requires Run(Idle(), run).ping > 0 && Checked(Run(Idle(), run), t).0.ping <= 0
    ensures var u := Unanswered(Idle(), run, []); |u| == 3 && u[0] + 27000 < t && Spaced(u)
  {
    hide Step, Waiting;
    RunSound(Idle(), [], run, now);
    var u := Unanswered(Idle(), run, []);
    assert |u| == 3 && Spaced(u);
    assert u[0] + 9000 < u[0 + 1] && u[1] + 9000 < u[1 + 1];
  }

  // ---- An offline peer

  /** How long an offline peer is left alone after `n` probes in a row. */
  function Pause(n: nat): nat {
    if n < 3 then 9000 + 10000 * n else 59000
  }

  predicate Paused(last: nat, u: seq<nat>, n: nat)
    decreases |u|
  {
    u == [] || ((last == 0 || last + Pause(n) < u[0]) && Paused(u[0], u[1..], n + 1))
  }

  /** The checks that probe the peer. */
  function Probes(p: Probe, checks: seq<nat>): (u: seq<nat>)
    decreases |checks|
  {
    if checks == [] then []
    else (if Checked(p, checks[0]).1 then [checks[0]] else []) + Probes(Checked(p, checks[0]).0, checks[1..])
  }

  function PingAfter(n: nat): int {
    if n < 3 then 0 - n else -3
  }

  /** A peer that went offline is probed at growing intervals: ten seconds more each time up to the third probe, and
      about a minute from then on; and it stays offline as long as it does not answer. */
  lemma {:induction false} Backoff(p: Probe, checks: seq<nat>, n: nat)
    requires p.ping == PingAfter(n)
    ensures Paused(p.lastpingsent, Probes(p, checks), n)
    ensures AfterChecks(p, checks).ping == PingAfter(n + |Probes(p, checks)|)
    decreases |checks|
  {
    if checks != [] {
      var (q, sent) := Checked(p, checks[0]);
      if sent {
        Backoff(q, checks[1..], n + 1);
        assert Probes(p, checks)[1..] == Probes(q, checks[1..]);
      } else {
        Backoff(q, checks[1..], n);
        assert Probes(p, checks) == Probes(q, checks[1..]);
      }
    }
  }

  /** A check leaves an offline peer alone exactly during the pause. */
  lemma LeftAloneIff(p: Probe, now: nat, n: nat)
    requires p.ping == PingAfter(n)
    ensures !Checked(p, now).1 <==> p.lastpingsent != 0 && now <= p.lastpingsent + Pause(n)
  {
  }

  /** An answer brings a peer online exactly when it was online or its address was found good, and one that is online
      then has a delay that lies between the old one and the time the answer took. */
  lemma AnsweredIff(p: Probe, now: nat, known: bool)
    requires p.lastpingsent <= now
    ensures var q := Step(p, Answer(now, known)); var took := now - p.lastpingsent;
      && q.lastpingrecv == now
      && (q.ping > 0 <==> p.ping > 0 || known)
      && (p.ping > 0 && p.ping <= took ==> p.ping < q.ping <= took + 1)
      && (p.ping > 0 && p.ping > took ==> took < q.ping <= p.ping)
      && (p.ping <= 0 && known ==> q.ping == took + 1)
  {
  }

  // ---- Nothing silent stays online

  /** The check finds an online peer due for another probe. */
  predicate Due(p: Probe, now: nat) {
    p.ping > 0 && ((p.lastpingrecv == 0 && p.lastpingsent + 9000 < now) || p.lastpingsent + 60000 < now)
  }

  /** How many of the checks find the peer due. */
  function Dues(p: Probe, checks: seq<nat>): nat
    decreases |checks|
  {
    if checks == [] then 0 else (if Due(p, checks[0]) then 1 else 0) + Dues(Checked(p, checks[0]).0, checks[1..])
  }

  function AfterChecks(p: Probe, checks: seq<nat>): Probe
    decreases |checks|
  {
    if checks == [] then p else AfterChecks(Checked(p, checks[0]).0, checks[1..])
  }

  /** How many more probes a silent peer is allowed. */
  function Patience(p: Probe): int {
    if p.ping <= 0 then 0 else if p.lastpingrecv != 0 then 4 else 4 - p.lastpingnb
  }

  /** Every check that finds a silent peer due uses up one of its chances, and no other check does anything to it. */
  lemma {:induction false} PatienceRunsOut(p: Probe, checks: seq<nat>)
    requires p.ping > 0 && p.lastpingrecv == 0 ==> 1 <= p.lastpingnb <= 3
    ensures var q := AfterChecks(p, checks);
      && (p.ping <= 0 ==> q.ping <= 0 && Dues(p, checks) == 0)
      && (p.ping > 0 ==> Patience(q) == Patience(p) - Dues(p, checks) && (q.ping > 0 <==> Dues(p, checks) < Patience(p)))
    decreases |checks|
  {
    if checks != [] {
      PatienceRunsOut(Checked(p, checks[0]).0, checks[1..]);
    }
  }

  /** An online peer that stays silent is offline after exactly as many due checks as it had chances, at most four. */
  lemma SilentGoesOffline(run: seq<Event>, now: nat, checks: seq<nat>)
    requires 0 < now && Ticking(run, now) && Run(Idle(), run).ping > 0
    ensures var p := Run(Idle(), run);
      1 <= Patience(p) <= 4 && (AfterChecks(p, checks).ping <= 0 <==> Dues(p, checks) == Patience(p))
  {
    hide Step;
    OpenProbes(run, now);
    PatienceRunsOut(Run(Idle(), run), checks);
  }

  // ---- A peer, updated in place

  class Peer {
    var ping: int
    var lastpingsent: nat
    var lastpingrecv: nat
    var lastpingnb: int

    constructor ()
      ensures View() == Idle()
    {
      ping, lastpingsent, lastpingrecv, lastpingnb := 0, 0, 0, 0;
    }

    function View(): Probe
      reads this
    {
      Probe(ping, lastpingsent, lastpingrecv, lastpingnb)
    }

    /** One peer in `cache_check_peers`; tells whether a probe is sent to it. */
    method CheckPeer(ticks: nat) returns (probed: bool)
      modifies this
      ensures (View(), probed) == Checked(old(View()), ticks)
    {
      probed := false;
      if ping == 0 {
        if lastpingsent == 0 || lastpingsent + 9000 < ticks {
          probed, lastpingsent, lastpingrecv, ping := true, ticks, 0, -1;
        }
      } else if ping == -1 {
        if lastpingsent == 0 || lastpingsent + 19000 < ticks {
          probed, lastpingsent, lastpingrecv, ping := true, ticks, 0, -2;
        }
      } else if ping == -2 {
        if lastpingsent == 0 || lastpingsent + 29000 < ticks {
          probed, lastpingsent, lastpingrecv, ping := true, ticks, 0, -3;
        }
      } else if ping <= -3 {
        if lastpingsent == 0 || lastpingsent + 59000 < ticks {
          probed, lastpingsent, lastpingrecv := true, ticks, 0;
        }
      } else {
        if lastpingrecv == 0 && lastpingsent + 9000 < ticks {
          if lastpingnb == 1 {
            probed, lastpingsent, lastpingnb := true, ticks, 2;
          } else if lastpingnb == 2 {
            probed, lastpingsent, lastpingnb := true, ticks, 3;
          } else if lastpingnb == 3 {
            probed, lastpingsent, lastpingrecv, ping := true, ticks, 0, 0;
          }
        } else if lastpingsent + 60000 < ticks {
          probed, lastpingsent, lastpingrecv, lastpingnb := true, ticks, 0, 1;
        }
      }
    }

    /** `TYPE_PINGRPL`. */
    method PingReply(ticks: nat, known: bool)
      modifies this
      ensures View() == Step(old(View()), Answer(ticks, known))
    {
      lastpingrecv := ticks;
      if ping > 0 {
        ping := (ping + lastpingrecv - lastpingsent) / 2;
      } else {
        if !known {
          return;
        }
        ping := lastpingrecv - lastpingsent;
      }
      ping := ping + 1;
      if ping < 1 {
        ping := 1;
      }
    }

    /** `TYPE_KEEPALIVE_ACK`. */
    method KeepaliveReply(ticks: nat)
      requires lastpingsent <= ticks
      modifies this
      ensures View() == Step(old(View()), KeepaliveAck(ticks))
    {
      lastpingrecv := ticks;
      if ping > 0 {
        ping := (ping + lastpingrecv - lastpingsent) / 2;
      } else {
        ping := lastpingrecv - lastpingsent;
      }
      ping := ping + 1;
    }

    /** A hello from another port. */
    method Moved()
      modifies this
      ensures View() == Step(old(View()), Drop)
    {
      ping := 0;
    }

    /** The peer was changed in the configuration. */
    method Reconfigured()
      modifies this
      ensures View() == Step(old(View()), Event.Reset)
    {
      ping, lastpingsent := 0, 0;
    }
  }
}
