/** When every request is answered, and what a waiter that times out does to the others. */
module GoroutineProgress {
  import opened Sums
  import opened PullRequests
  import opened Manifests
  import opened CacheState
  import opened Goroutines

  // ---------------------------------------------------------------- a measure that every step lowers

  function Rank(p: Phase): nat {
    match p
    case Asked => 8
    case Missed => 7
    case Pulling => 6
    case Fetched(_, _) => 5
    case Finishing(_, _) => 4
    case Signalling(_, _, _) => 3
    case Waiting(_) => 2
    case Woken(_) => 1
    case GaveUp(_) => 0
    case Done(_) => 0
  }

  /** The blobs that are still to arrive. */
  function Missing(p: Phase): nat {
    if p.Fetched? then |(set d | d in p.m.Blobs()) - p.landed| else 0
  }

  ghost function Ranks(s: System): map<Tid, nat> {
    map t | t in s.threads :: Rank(s.threads[t].phase)
  }

  ghost function Arrivals(s: System): map<Tid, nat> {
    map t | t in s.threads :: Missing(s.threads[t].phase)
  }

  ghost function Selections(s: System): map<Tid, nat> {
    map p | p in s.pruners :: s.pruners[p].passes
  }

  ghost function Sweeps(s: System): map<Tid, nat> {
    map p | p in s.pruners :: |s.pruners[p].todo|
  }

  /** How far all goroutines are from their ends, and how many blobs and prunes are still to come. */
  ghost function Height(s: System): nat {
    Sum(Ranks(s)) + Sum(Selections(s))
  }

  ghost function Width(s: System): nat {
    Sum(Arrivals(s)) + Sum(Sweeps(s))
  }

  ghost predicate Lower(s': System, s: System) {
    Height(s') < Height(s) || (Height(s') == Height(s) && Width(s') < Width(s))
  }

  lemma SumDrops(m: map<Tid, nat>, m': map<Tid, nat>, t: Tid)
    requires t in m && t in m' && m' == m[t := m'[t]]
    ensures Sum(m') + m[t] == Sum(m) + m'[t]
  {
    SumUpdate(m, t, m'[t]);
  }

  lemma FewerMissing(m: Manifest, landed: set<string>, d: string)
    requires d in m.Blobs() && d !in landed
    ensures Missing(Fetched(m, landed + {d})) < Missing(Fetched(m, landed))
  {
    hide Manifest.Blobs;
    var before, after := (set b | b in m.Blobs()) - landed, (set b | b in m.Blobs()) - (landed + {d});
    assert before == after + {d} && d !in after;
  }

  /** The goroutine that a step brings closer to its end. */
  ghost function Mover(s: System, step: Step): Tid
    requires Enabled(s, step) && !IsPruning(step)
  {
    if step.Send? then s.owner[s.pulls[s.threads[step.t].Url()][s.threads[step.t].phase.sent]] else step.t
  }

  lemma FollowsRank(p: Phase, q: Phase)
    requires Follows(p, q)
    ensures Rank(q) <= Rank(p)
    ensures Rank(q) == Rank(p) ==> (p.Fetched? && q.Fetched?) || (p.Signalling? && q.Signalling?)
  {
  }

  lemma RanksMove(s: System, step: Step)
    requires Enabled(s, step) && !IsPruning(step)
    ensures var s', t := Apply(s, step), Mover(s, step);
            && s'.pruners == s.pruners && t in s.threads && t in s'.threads
            && Ranks(s') == Ranks(s)[t := Rank(s'.threads[t].phase)]
            && (step.Land? ==> Rank(s'.threads[t].phase) == Rank(s.threads[t].phase))
            && (!step.Land? ==> Rank(s'.threads[t].phase) < Rank(s.threads[t].phase))
  {
    hide PullRequest.Url, Enabled, Apply, Follows;
    if step.Send? {
      SendMoves(s, step.t);
    } else {
      StepMoves(s, step);
      FollowsRank(s.threads[step.t].phase, Apply(s, step).threads[step.t].phase);
      SignalsOnlyBySend(s, step);
    }
  }

  lemma SignalsOnlyBySend(s: System, step: Step)
    requires Enabled(s, step) && !IsPruning(step) && !step.Send?
    ensures step.t in s.threads && step.t in Apply(s, step).threads
    ensures s.threads[step.t].phase.Signalling? ==> Apply(s, step).threads[step.t].phase.Done?
  {
    hide PullRequest.Url, Get, Publication, PublishedCredits, WriteManifest, Landing, Requests, Cached, AllLanded;
  }

  lemma LandDescends(s: System, t: Tid, d: string, size: nat)
    requires Enabled(s, Land(t, d, size))
    ensures var s' := Apply(s, Land(t, d, size)); s'.pruners == s.pruners && Sum(Arrivals(s')) < Sum(Arrivals(s))
  {
    hide PullRequest.Url, Landing, Cached, Missing, Manifest.Blobs;
    var s', p := Apply(s, Land(t, d, size)), s.threads[t].phase;
    FewerMissing(p.m, p.landed, d);
    assert Arrivals(s') == Arrivals(s)[t := Missing(s'.threads[t].phase)];
    SumDrops(Arrivals(s), Arrivals(s'), t);
  }

  lemma SelectDescends(s: System, p: Tid, todo: seq<Manifest>)
    requires Enabled(s, Select(p, todo))
    ensures Lower(Apply(s, Select(p, todo)), s)
  {
    hide PullRequest.Url, Missing, Rank, Selectable;
    var s' := Apply(s, Select(p, todo));
    assert Ranks(s') == Ranks(s);
    assert Selections(s') == Selections(s)[p := s.pruners[p].passes - 1];
    SumDrops(Selections(s), Selections(s'), p);
  }

  lemma PruneDescends(s: System, p: Tid)
    requires Enabled(s, PruneNext(p))
    ensures Lower(Apply(s, PruneNext(p)), s)
  {
    hide PullRequest.Url, Prune, Cached, Missing, Rank;
    var s' := Apply(s, PruneNext(p));
    assert Ranks(s') == Ranks(s) && Arrivals(s') == Arrivals(s) && Selections(s') == Selections(s);
    assert Sweeps(s') == Sweeps(s)[p := |s'.pruners[p].todo|];
    SumDrops(Sweeps(s), Sweeps(s'), p);
  }

  /** Every step, a timeout included, lowers the measure. */
  lemma StepDescends(s: System, step: Step)
    requires Enabled(s, step)
    ensures Lower(Apply(s, step), s)
  {
    hide Enabled, Apply, Mover, Rank, Missing;
    if step.Select? {
      SelectDescends(s, step.p, step.todo);
    } else if step.PruneNext? {
      PruneDescends(s, step.p);
    } else {
      var s', t := Apply(s, step), Mover(s, step);
      RanksMove(s, step);
      SumDrops(Ranks(s), Ranks(s'), t);
      assert Selections(s') == Selections(s) && Sweeps(s') == Sweeps(s);
      if step.Land? { LandDescends(s, step.t, step.d, step.size); }
    }
  }

  // ---------------------------------------------------------------- no deadlock

  /** Every goroutine has returned an answer, and every pruner is through. */
  ghost predicate AllDone(s: System) {
    && (forall t | t in s.threads :: s.threads[t].phase.Done?)
    && (forall p | p in s.pruners :: s.pruners[p].todo == [] && s.pruners[p].passes == 0)
  }

  ghost predicate SomeoneGaveUp(s: System) {
    exists t :: t in s.threads && s.threads[t].phase.GaveUp?
  }

  /** Nothing can happen, but for timeouts. */
  ghost predicate Stuck(s: System) {
    forall step | Enabled(s, step) :: step.GiveUp?
  }

  /** The goroutine that made the next channel of a signaller. */
  ghost predicate NextIs(s: System, t: Tid, w: Tid) {
    && t in s.threads && s.threads[t].phase.Signalling? && s.threads[t].Url() in s.pulls
    && var chans, sent := s.pulls[s.threads[t].Url()], s.threads[t].phase.sent;
    && sent < |chans| && chans[sent] in s.owner && s.owner[chans[sent]] == w && w in s.threads
  }

  /** A signal can be sent exactly when the goroutine that made the channel has not given up. */
  lemma ReceivesIff(s: System, t: Tid, w: Tid)
    requires Table(s) && NextIs(s, t, w)
    ensures Receives(s, t) <==> !s.threads[w].phase.GaveUp?
  {
    hide PullRequest.Url, PullersOk, ChannelsOk, IsChannel;
    assert Unsent(s, t, s.threads[t].phase.sent);
    assert Open(s, ChanAt(s, t, s.threads[t].phase.sent));
  }

  lemma SomeoneNext(s: System, t: Tid)
    requires Table(s) && s.holder == Some(t)
    ensures Enabled(s, Unlock(t)) || exists w: Tid :: NextIs(s, t, w)
  {
    hide PullRequest.Url;
    var chans, sent := s.pulls[UrlIn(s, t)], s.threads[t].phase.sent;
    if sent < |chans| {
      assert Unsent(s, t, sent);
      assert Open(s, ChanAt(s, t, sent));
      assert NextIs(s, t, s.owner[chans[sent]]);
    }
  }

  /** Only a waiter that has given up can keep the holder of the pull lock from going on. */
  lemma HolderMoves(s: System, t: Tid)
    requires Table(s) && s.holder == Some(t) && !SomeoneGaveUp(s)
    ensures !Stuck(s)
  {
    hide PullRequest.Url, Table, Requests, Selectable;
    SomeoneNext(s, t);
    if w: Tid :| NextIs(s, t, w) {
      ReceivesIff(s, t, w);
      assert Enabled(s, Send(t));
    }
  }

  lemma PullerMoves(s: System, t: Tid)
    requires s.holder.None? && t in s.threads && RoleIn(s, t) == Puller(false, 0)
    ensures !Stuck(s)
  {
    hide PullRequest.Url, Requests, Selectable, Manifest.Blobs;
    match s.threads[t].phase {
      case Pulling => assert Enabled(s, FailPull(t));
      case Fetched(m, landed) =>
        if d :| m.image && d in m.Blobs() && d !in landed {
          assert Enabled(s, Land(t, d, 0));
        } else {
          assert Enabled(s, Publish(t));
        }
      case Finishing(_, _) => assert Enabled(s, Lock(t));
    }
  }

  /** As long as no waiter has given up, somebody can move until everybody is done. */
  lemma NoDeadlock(s: System)
    requires Table(s) && Stuck(s) && !SomeoneGaveUp(s)
    ensures AllDone(s)
  {
    hide PullRequest.Url, Table, Stuck;
    if t :| s.holder == Some(t) {
      HolderMoves(s, t);
    }
    forall t | t in s.threads ensures s.threads[t].phase.Done? {
      ThreadMoves(s, t);
    }
    forall p | p in s.pruners ensures s.pruners[p].todo == [] && s.pruners[p].passes == 0 {
      PrunerMoves(s, p);
    }
  }

  lemma PrunerMoves(s: System, p: Tid)
    requires Stuck(s) && p in s.pruners
    ensures s.pruners[p].todo == [] && s.pruners[p].passes == 0
  {
    hide PullRequest.Url, Requests;
    assert !Enabled(s, Select(p, []));
    assert !Enabled(s, PruneNext(p));
  }

  lemma ThreadMoves(s: System, t: Tid)
    requires Table(s) && Stuck(s) && s.holder.None? && t in s.threads && !s.threads[t].phase.GaveUp?
    ensures s.threads[t].phase.Done?
  {
    hide PullRequest.Url, Requests, Selectable, Table;
    assert !Enabled(s, Check(t, "")) && !Enabled(s, Enqueue(t)) && !Enabled(s, Read(t, ""));
    if RoleIn(s, t).Puller? {
      LockedHolds(s, t);
      PullerMoves(s, t);
    } else if RoleIn(s, t).Waiter? {
      var u := PullerOf(s, t);
      LockedHolds(s, u);
      PullerMoves(s, u);
    }
  }

  lemma LockedHolds(s: System, t: Tid)
    requires Table(s) && s.holder.None? && RoleIn(s, t).Puller?
    ensures RoleIn(s, t) == Puller(false, 0)
  {
  }

  /** Whoever waits, or has given up waiting, has a puller that has not signalled it yet. */
  lemma PullerOf(s: System, w: Tid) returns (t: Tid)
    requires Table(s) && RoleIn(s, w).Waiter?
    ensures t in s.threads && RoleIn(s, t).Puller? && UrlIn(s, t) == UrlIn(s, w)
  {
    hide PullRequest.Url;
    var u: Tid, i :| Unsent(s, u, i) && IsChannel(s, u, i, w);
    t := u;
  }

  // ---------------------------------------------------------------- every run

  /** A run in which a step is taken whenever there is one, whichever it may be. While there are only
      timeouts left, they may happen or not. */
  ghost predicate Maximal(run: nat -> System) {
    forall i: nat :: Next(run(i), run(i + 1))
  }

  ghost predicate Next(s: System, s': System) {
    (Stuck(s) && s' == s) || exists step :: Takes(s, step, s')
  }

  ghost predicate Takes(s: System, step: Step, s': System) {
    Enabled(s, step) && s' == Apply(s, step)
  }

  lemma NextTable(s: System, s': System)
    requires Table(s) && Next(s, s')
    ensures Table(s')
  {
    hide Table, Enabled, Apply, Stuck;
    if step :| Takes(s, step, s') { TableKept(s, step); }
  }

  lemma {:induction false} RunTable(run: nat -> System, i: nat)
    requires Maximal(run) && Table(run(0))
    ensures Table(run(i))
  {
    hide Table, Next;
    if i > 0 {
      RunTable(run, i - 1);
      assert Next(run(i - 1), run(i - 1 + 1));
      NextTable(run(i - 1), run(i));
    }
  }

  /** Since the measure cannot fall for ever, every run gets stuck sooner or later. */
  lemma {:induction false} GetsStuck(run: nat -> System, i: nat) returns (n: nat)
    requires Maximal(run)
    ensures Stuck(run(n))
    decreases Height(run(i)), Width(run(i))
  {
    hide Enabled, Apply, Stuck, Height, Width;
    if Stuck(run(i)) {
      n := i;
    } else {
      assert Next(run(i), run(i + 1));
      var step :| Takes(run(i), step, run(i + 1));
      StepDescends(run(i), step);
      n := GetsStuck(run, i + 1);
    }
  }

  /** Every goroutine has returned, with an answer or a timeout, and every pruner is through. */
  ghost predicate AllReturned(s: System) {
    && (forall t | t in s.threads :: s.threads[t].phase.Done? || s.threads[t].phase.GaveUp?)
    && (forall p | p in s.pruners :: s.pruners[p].todo == [] && s.pruners[p].passes == 0)
  }

  /** Once a registered waiter has timed out, its puller never returns. */
  lemma TimeoutBlocks(s: System)
    requires Table(s) && AllReturned(s)
    ensures !SomeoneGaveUp(s)
  {
    hide Table, PullRequest.Url;
    if w :| w in s.threads && s.threads[w].phase.GaveUp? {
      var t := PullerOf(s, w);
      assert false;
    }
  }

  lemma ReturnedStays(s: System, s': System)
    requires AllReturned(s) && Next(s, s')
    ensures s' == s
  {
    hide PullRequest.Url, Requests, Selectable, Apply;
  }

  lemma {:induction false} ReturnedForGood(run: nat -> System, n: nat, i: nat)
    requires Maximal(run) && AllReturned(run(n)) && n <= i
    ensures run(i) == run(n)
    decreases i - n
  {
    hide AllReturned, Next;
    if n < i {
      ReturnedForGood(run, n, i - 1);
      assert Next(run(i - 1), run(i - 1 + 1));
      ReturnedStays(run(i - 1), run(i));
    }
  }

  lemma {:induction false} GaveUpForGood(run: nat -> System, i: nat, n: nat)
    requires Maximal(run) && SomeoneGaveUp(run(i)) && i <= n
    ensures SomeoneGaveUp(run(n))
    decreases n
  {
    hide Next;
    if i < n {
      GaveUpForGood(run, i, n - 1);
      assert Next(run(n - 1), run(n - 1 + 1));
      GaveUpStays(run(n - 1), run(n));
    }
  }

  lemma GaveUpStays(s: System, s': System)
    requires SomeoneGaveUp(s) && Next(s, s')
    ensures SomeoneGaveUp(s')
  {
    hide PullRequest.Url, Requests, Selectable, Enabled, Apply;
    var w :| w in s.threads && s.threads[w].phase.GaveUp?;
    if step :| Takes(s, step, s') {
      GaveUpKept(s, step, w);
    }
  }

  lemma GaveUpKept(s: System, step: Step, w: Tid)
    requires Enabled(s, step) && w in s.threads && s.threads[w].phase.GaveUp?
    ensures w in Apply(s, step).threads && Apply(s, step).threads[w] == s.threads[w]
  {
    hide PullRequest.Url, Enabled, Apply;
    if IsPruning(step) {
      PruningMoves(s, step);
    } else if step.Send? {
      SendMoves(s, step.t);
    } else {
      StepMoves(s, step);
    }
  }

  /** Whatever the scheduling, a run comes to the point where every request has returned exactly when
      no registered waiter ever times out. */
  lemma EveryRequestReturnsIff(run: nat -> System)
    requires Start(run(0)) && Maximal(run)
    ensures (exists n: nat :: AllReturned(run(n))) <==> (forall i: nat :: !SomeoneGaveUp(run(i)))
    ensures (forall i: nat :: !SomeoneGaveUp(run(i))) ==> exists n: nat :: AllDone(run(n))
  {
    hide Start, Table, AllReturned, AllDone, SomeoneGaveUp, Maximal, Stuck;
    StartTable(run(0));
    if n: nat :| AllReturned(run(n)) {
      forall i: nat ensures !SomeoneGaveUp(run(i)) {
        RunTable(run, n);
        TimeoutBlocks(run(n));
        if i <= n {
          if SomeoneGaveUp(run(i)) { GaveUpForGood(run, i, n); }
        } else {
          ReturnedForGood(run, n, i);
        }
      }
    }
    if forall i: nat :: !SomeoneGaveUp(run(i)) {
      var n := GetsStuck(run, 0);
      RunTable(run, n);
      NoDeadlock(run(n));
      DoneReturned(run(n));
    }
  }

  lemma DoneReturned(s: System)
    requires AllDone(s)
    ensures AllReturned(s)
  {
  }

  // ---------------------------------------------------------------- the jam

  /** The holder of the pull lock is about to signal a goroutine that has given up. */
  ghost predicate Jammed(s: System, t: Tid, w: Tid) {
    s.holder == Some(t) && NextIs(s, t, w) && s.threads[w].phase.GaveUp?
  }

  /** Goroutines at the door of the pull table: about to enqueue, or about to signal. */
  predicate AtTheDoor(p: Phase) {
    p.Missed? || p.Finishing?
  }

  lemma JamStays(s: System, t: Tid, w: Tid, step: Step, u: Tid)
    requires Table(s) && Jammed(s, t, w) && Enabled(s, step)
    ensures Jammed(Apply(s, step), t, w)
    ensures var s' := Apply(s, step);
            u in s.threads && AtTheDoor(s.threads[u].phase) ==> u in s'.threads && s'.threads[u] == s.threads[u]
  {
    hide PullRequest.Url, Get, Publication, Prune, PublishedCredits, WriteManifest, Landing, Requests, Cached,
         Selectable, AllLanded, Table;
    ReceivesIff(s, t, w);
    OneSignaller(s, t);
  }

  lemma OneSignaller(s: System, t: Tid)
    requires Table(s) && s.holder == Some(t)
    ensures forall u | u in s.threads && s.threads[u].phase.Signalling? :: u == t
  {
    hide PullRequest.Url;
    assert forall u | u in s.threads && s.threads[u].phase.Signalling? :: RoleIn(s, u).Puller? && RoleIn(s, u).locked;
  }

  /** Once the lock holder is about to signal a goroutine that has given up, the lock is held for
      ever, and every goroutine that needs it, for whatever url, stays where it is. */
  lemma {:induction false} JamIsForever(s: System, t: Tid, w: Tid, steps: seq<Step>, s': System, u: Tid)
    requires Table(s) && Jammed(s, t, w) && Runs(s, steps, s')
    ensures Jammed(s', t, w)
    ensures u in s.threads && AtTheDoor(s.threads[u].phase) ==> u in s'.threads && s'.threads[u] == s.threads[u]
    decreases |steps|
  {
    hide Table, Enabled, Apply, Jammed;
    if steps != [] {
      TableKept(s, steps[0]);
      JamStays(s, t, w, steps[0], u);
      JamIsForever(Apply(s, steps[0]), t, w, steps[1..], s', u);
    }
  }
}
