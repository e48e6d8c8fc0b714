// What poll reports and what the loop makes of it: the events of one pass over
// the poll list, and of any number of rounds of the loop (src/loop.cpp:9-35).

module Polling {
  import opened Loops
  import opened Systems
  import opened Invariants
  import opened Executions
  import opened Sweeps
  import R = Rewrite

  /** What poll reports of a handle, and how TLS and the sockets then answer. */
  datatype Report = Report(input: bool, output: bool, failed: bool, reading: Outcome, writing: Outcome) {
    /** Requests are as the server makes them, and packets of forwarders are such that reading them is defined. */
    predicate Fine() {
      && Admissible(Readable(0, reading)) && Admissible(Writable(0, writing))
      && R.Safe(reading.data) && R.Safe(writing.data)
    }
  }

  /** One poll: whether it worked, what it reports, whether the servers are let go meanwhile, and the time after. */
  datatype Poll = Poll(ok: bool, ready: map<int, Report>, retire: bool, time: int) {
    ghost predicate Fine() {
      forall h :: h in ready ==> ready[h].Fine()
    }
  }

  ghost predicate AllFine(polls: seq<Poll>) {
    forall k :: 0 <= k < |polls| ==> polls[k].Fine()
  }

  /** Reading, writing and failing are looked at in this order. */
  function Reported(h: int, r: Report): (events: seq<Event>)
    ensures r.Fine() ==> AllAdmissible(events)
  {
    (if r.input then [Readable(h, r.reading)] else [])
    + (if r.output then [Writable(h, r.writing)] else [])
    + (if r.failed then [Failed(h)] else [])
  }

  /** One pass over the poll list. */
  ghost function ReportedAll(fds: seq<PollFd>, p: Poll): (events: seq<Event>)
    ensures p.Fine() ==> AllAdmissible(events)
  {
    ReportedUpTo(fds, p, |fds|)
  }

  ghost function ReportedUpTo(fds: seq<PollFd>, p: Poll, n: nat): (events: seq<Event>)
    requires n <= |fds|
    ensures p.Fine() ==> AllAdmissible(events)
  {
    hide Reported, Report.Fine, Admissible;
    if n == 0 then []
    else
      var fd := fds[n - 1].fd;
      ReportedUpTo(fds, p, n - 1) + if fd in p.ready then Reported(fd, p.ready[fd]) else []
  }

  /** All that happens from a poll to the next look at the handlers. */
  ghost function Handled(fds: seq<PollFd>, p: Poll): (events: seq<Event>)
    ensures p.Fine() ==> AllAdmissible(events)
  {
    hide ReportedAll;
    ReportedAll(fds, p) + if p.retire then [Retire] else []
  }

  /** Reading comes before writing, and failing after both. */
  function Turn(e: Event): nat {
    match e
    case Readable(h, o) => 0
    case Writable(h, o) => 1
    case _ => 2
  }

  /** Exactly what was reported of a handle, each once and in this order. */
  lemma ReportedExactly(h: int, r: Report)
    ensures forall e :: e in Reported(h, r) <==>
              || (r.input && e == Readable(h, r.reading))
              || (r.output && e == Writable(h, r.writing))
              || (r.failed && e == Failed(h))
    ensures forall i, j :: 0 <= i < j < |Reported(h, r)| ==> Turn(Reported(h, r)[i]) < Turn(Reported(h, r)[j])
  {
  }

  /** Exactly what was reported of the handles in the poll list, and that the servers were let go, if they were. */
  lemma HandledExactly(fds: seq<PollFd>, p: Poll, e: Event)
    ensures e in Handled(fds, p) <==>
              || (p.retire && e == Retire)
              || exists i :: 0 <= i < |fds| && fds[i].fd in p.ready && e in Reported(fds[i].fd, p.ready[fds[i].fd])
  {
    hide Reported;
    ReportedUpToExactly(fds, p, |fds|, e);
  }

  lemma {:induction false} ReportedUpToExactly(fds: seq<PollFd>, p: Poll, n: nat, e: Event)
    requires n <= |fds|
    ensures e in ReportedUpTo(fds, p, n) <==>
              exists i :: 0 <= i < n && fds[i].fd in p.ready && e in Reported(fds[i].fd, p.ready[fds[i].fd])
  {
    hide Reported;
    if n > 0 {
      ReportedUpToExactly(fds, p, n - 1, e);
      var fd := fds[n - 1].fd;
      if fd in p.ready && e in Reported(fd, p.ready[fd]) {
        assert fds[n - 1].fd in p.ready && e in Reported(fds[n - 1].fd, p.ready[fds[n - 1].fd]);
      }
    }
  }

  /** Run, for these polls: `lists` are the poll lists they were made with. */
  ghost function Rounds(env: Environment, s: System, time: int, polls: seq<Poll>, lists: seq<seq<PollFd>>)
    : (events: seq<Event>)
    requires Inv(s) && AllFine(polls) && |lists| == |polls|
    ensures AllAdmissible(events)
    decreases |polls|, 1
  {
    hide Timeouts, Admissible, Inv, Evolves, Step, Poll.Fine;
    if polls == [] then Timeouts(s, time)
    else
      var handled := HalfRound(env, s, time, polls, lists);
      handled + Timeouts(Run(env, s, handled), polls[|polls| - 1].time)
  }

  /** The same, but for the sweep of the last round. */
  ghost function HalfRound(env: Environment, s: System, time: int, polls: seq<Poll>, lists: seq<seq<PollFd>>)
    : (events: seq<Event>)
    requires Inv(s) && AllFine(polls) && |lists| == |polls| > 0
    ensures AllAdmissible(events)
    decreases |polls|, 0
  {
    hide Timeouts, Handled, Admissible, Inv;
    var n := |polls| - 1;
    Rounds(env, s, time, polls[..n], lists[..n]) + Handled(lists[n], polls[n])
  }

  /** The state in which the poll list for the next poll is filled: the sweep comes after that. */
  ghost function Filling(env: Environment, s: System, time: int, polls: seq<Poll>, lists: seq<seq<PollFd>>): System
    requires Inv(s) && AllFine(polls) && |lists| == |polls|
  {
    Run(env, s, if polls == [] then Timeouts(s, time) else HalfRound(env, s, time, polls, lists))
  }

  /** Each list polls for exactly what the loop had handlers for when it was filled, and for something. */
  ghost predicate Listed(env: Environment, s: System, time: int, polls: seq<Poll>, lists: seq<seq<PollFd>>)
    requires Inv(s) && AllFine(polls) && |lists| == |polls|
  {
    forall k :: 0 <= k < |polls| ==>
      && polls[k].ok && lists[k] != []
      && Polls(Filling(env, s, time, polls[..k], lists[..k]).loop, lists[k])
  }

  /** The time that the sweep of the last round read. */
  function LastRead(time: int, polls: seq<Poll>): int {
    if polls == [] then time else polls[|polls| - 1].time
  }

  /** Where the loop stands after these polls: the state, and the list for the next poll. */
  ghost predicate Ran(env: Environment, s: System, time: int, polls: seq<Poll>, lists: seq<seq<PollFd>>,
                      fds: seq<PollFd>, t: System)
    requires Inv(s)
  {
    && AllFine(polls) && |lists| == |polls|
    && t == Run(env, s, Rounds(env, s, time, polls, lists))
    && Listed(env, s, time, polls, lists)
    && Polls(Filling(env, s, time, polls, lists).loop, fds)
    && InTime(t, LastRead(time, polls))
  }

  lemma RoundsNone(env: Environment, s: System, time: int)
    requires Inv(s)
    ensures Rounds(env, s, time, [], []) == Timeouts(s, time)
    ensures Filling(env, s, time, [], []) == Run(env, s, Timeouts(s, time)) && Listed(env, s, time, [], [])
  {
    hide Inv, Evolves, Timeouts, Run, Step;
  }

  lemma RanNone(env: Environment, s: System, time: int, fds: seq<PollFd>)
    requires Inv(s)
    requires var t := Run(env, s, Timeouts(s, time)); Polls(t.loop, fds) && InTime(t, time)
    ensures Ran(env, s, time, [], [], fds, Run(env, s, Timeouts(s, time)))
  {
    hide Inv, Evolves, Timeouts, Run, InTime, Polls, Step, Rounds, Filling, Listed;
    RoundsNone(env, s, time);
  }

  /** One more round. */
  lemma RanNext(env: Environment, s: System, time: int, polls: seq<Poll>, lists: seq<seq<PollFd>>, before: seq<PollFd>,
                t: System, p: Poll, fds: seq<PollFd>, u: System)
    requires Inv(s) && Ran(env, s, time, polls, lists, before, t) && before != [] && p.ok && p.Fine()
    requires var filling := Run(env, t, Handled(before, p));
             && Polls(filling.loop, fds) && u == Run(env, filling, Timeouts(filling, p.time)) && InTime(u, p.time)
    ensures Ran(env, s, time, polls + [p], lists + [before], fds, u)
  {
    hide Inv, Evolves, Timeouts, Run, InTime, Polls, Handled, Poll.Fine, Step, Rounds, HalfRound;
    RoundParts(env, s, time, polls, lists, p, before);
    forall k | 0 <= k < |polls + [p]|
      ensures (polls + [p])[k].ok && (lists + [before])[k] != []
      ensures Polls(Filling(env, s, time, (polls + [p])[..k], (lists + [before])[..k]).loop, (lists + [before])[k])
    {
      OneMore(polls, p, k);
      OneMore(lists, before, k);
    }
  }

  lemma OneMore<T>(xs: seq<T>, x: T, k: nat)
    requires k <= |xs|
    ensures (xs + [x])[..k] == xs[..k]
    ensures if k < |xs| then (xs + [x])[k] == xs[k] else (xs + [x])[k] == x && xs[..k] == xs
  {
  }

  lemma RoundParts(env: Environment, s: System, time: int, polls: seq<Poll>, lists: seq<seq<PollFd>>,
                   p: Poll, fds: seq<PollFd>)
    requires Inv(s) && AllFine(polls) && p.Fine() && |lists| == |polls|
    ensures AllFine(polls + [p])
    ensures var t := Run(env, s, Rounds(env, s, time, polls, lists));
            var filling := Run(env, t, Handled(fds, p));
            && Filling(env, s, time, polls + [p], lists + [fds]) == filling
            && Run(env, s, Rounds(env, s, time, polls + [p], lists + [fds]))
               == Run(env, filling, Timeouts(filling, p.time))
  {
    hide Inv, Evolves, Timeouts, Run, Handled, Poll.Fine, Step;
    var ps, ls, n := polls + [p], lists + [fds], |polls|;
    assert ps[..n] == polls && ls[..n] == lists && ps[n] == p && ls[n] == fds;
    RunInParts(env, s, Rounds(env, s, time, polls, lists), Handled(fds, p));
    var half := HalfRound(env, s, time, ps, ls);
    RunInParts(env, s, half, Timeouts(Run(env, s, half), p.time));
  }
}
