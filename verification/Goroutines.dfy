/** The server as a transition system: any number of request goroutines and pruners, each section
    under a lock, each manifest file and each blob file one atomic step. */
module Goroutines {
  import opened PullRequests
  import opened Manifests
  import opened CacheState

  type Tid = nat
  type Chan = nat

  datatype Request = Request(pr: PullRequest, force: bool)

  datatype Outcome = Served(m: Manifest) | Failed

  /** Where a request goroutine stands. A `promise` is the position in the log at which the puller
      stored the manifest, if it did. */
  datatype Phase =
    | Asked
    | Missed
    | Pulling
    | Fetched(m: Manifest, landed: set<string>)
    | Finishing(out: Outcome, promise: Option<nat>)
    | Signalling(out: Outcome, promise: Option<nat>, sent: nat)
    | Waiting(ch: Chan)
    | GaveUp(ch: Chan)
    | Woken(promise: Option<nat>)
    | Done(out: Outcome)

  datatype Thread = Thread(req: Request, phase: Phase) {
    function Url(): string {
      req.pr.Url()
    }
  }

  /** A pruner makes one pass after the other: it selects once, and then prunes what it selected. A run
      is given some number of passes, however large. */
  datatype Pruner = Pruner(todo: seq<Manifest>, passes: nat)

  /** What happened to the cached urls, in order. */
  datatype Event = Stored(url: string, digest: string) | Lost(urls: set<string>)

  /** `pulls` and its lock `holder` are the pull table. `owner` records who made a channel, `credits`
      and `log` record what happened to the cache; the server itself never looks at these three. */
  datatype System = System(cache: Cache, credits: multiset<Manifest>,
                           threads: map<Tid, Thread>, pruners: map<Tid, Pruner>,
                           pulls: map<string, seq<Chan>>, holder: Option<Tid>, nextChan: Chan,
                           owner: map<Chan, Tid>, log: seq<Event>)

  datatype Step =
    | Check(t: Tid, now: string)
    | Enqueue(t: Tid)
    | Fetch(t: Tid, m: Manifest)
    | Land(t: Tid, d: string, size: nat)
    | FailPull(t: Tid)
    | Publish(t: Tid)
    | Lock(t: Tid)
    | Send(t: Tid)
    | Unlock(t: Tid)
    | GiveUp(t: Tid)
    | Read(t: Tid, now: string)
    | Select(p: Tid, todo: seq<Manifest>)
    | PruneNext(p: Tid)

  function Cached(c: Cache): set<string> {
    c.manifests.Keys + c.latest.Keys
  }

  function Answer(found: Option<Manifest>): Outcome {
    match found
    case Some(m) => Served(m)
    case None => Failed
  }

  // ---------------------------------------------------------------- when a step can be taken

  predicate At(s: System, t: Tid, phase: Phase -> bool) {
    t in s.threads && phase(s.threads[t].phase)
  }

  /** The goroutine that is waiting for the next signal of the signalling goroutine `t`. */
  predicate Receives(s: System, t: Tid) {
    && At(s, t, (p: Phase) => p.Signalling?)
    && s.threads[t].Url() in s.pulls
    && var chans, sent := s.pulls[s.threads[t].Url()], s.threads[t].phase.sent;
    && sent < |chans| && chans[sent] in s.owner
    && var w := s.owner[chans[sent]];
       w in s.threads && s.threads[w].phase == Waiting(chans[sent])
  }

  ghost predicate Enabled(s: System, step: Step) {
    match step
    case Check(t, _) => At(s, t, (p: Phase) => p.Asked?)
    case Enqueue(t) => At(s, t, (p: Phase) => p.Missed?) && s.holder.None?
    case Fetch(t, m) => At(s, t, (p: Phase) => p.Pulling?) && Requests(s.threads[t].req.pr, m)
    case Land(t, d, _) =>
      && At(s, t, (p: Phase) => p.Fetched?)
      && var p := s.threads[t].phase; p.m.image && d in p.m.Blobs() && d !in p.landed
    case FailPull(t) =>
      || At(s, t, (p: Phase) => p.Pulling?)
      || (At(s, t, (p: Phase) => p.Fetched?) && s.threads[t].phase.m.image)
    case Publish(t) => At(s, t, (p: Phase) => p.Fetched? && AllLanded(p.m, p.landed))
    case Lock(t) => At(s, t, (p: Phase) => p.Finishing?) && s.holder.None?
    case Send(t) => Receives(s, t)
    case Unlock(t) =>
      && At(s, t, (p: Phase) => p.Signalling?)
      && (s.threads[t].Url() in s.pulls ==> s.threads[t].phase.sent == |s.pulls[s.threads[t].Url()]|)
    case GiveUp(t) => At(s, t, (p: Phase) => p.Waiting?)
    case Read(t, _) => At(s, t, (p: Phase) => p.Woken?)
    case Select(p, todo) =>
      p in s.pruners && s.pruners[p].todo == [] && s.pruners[p].passes > 0 && Selectable(s.cache, todo)
    case PruneNext(p) => p in s.pruners && s.pruners[p].todo != []
  }

  predicate AllLanded(m: Manifest, landed: set<string>) {
    m.image ==> forall d | d in m.Blobs() :: d in landed
  }

  /** Any duplicate-free choice of primary entries; GetManifestsCompare makes one. */
  predicate Selectable(c: Cache, todo: seq<Manifest>) {
    && (forall i, j | 0 <= i < j < |todo| :: todo[i].url != todo[j].url)
    && (forall m | m in todo ::
          || (Primary(c.manifests, m.url) && c.manifests[m.url] == m)
          || (Primary(c.latest, m.url) && c.latest[m.url] == m))
  }

  // ---------------------------------------------------------------- what a step does

  function Move(s: System, t: Tid, phase: Phase): System
    requires t in s.threads
  {
    s.(threads := s.threads[t := s.threads[t].(phase := phase)])
  }

  /** The cache becomes `after`; what is no longer cached is recorded. */
  function Become(s: System, after: Cache): System {
    s.(cache := after, log := s.log + [Lost(Cached(s.cache) - Cached(after))])
  }

  function Landing(c: Cache, d: string, size: nat): Cache {
    if d in c.store.files then c else c.(store := c.store.(files := c.store.files[d := size]))
  }

  function Publication(c: Cache, req: Request, m: Manifest): (Cache, bool) {
    if req.force then Replace(c, req.pr, m) else Add(c, req.pr, m)
  }

  /** enqueuePull: the first to ask for a url opens its entry, the others add a channel to it. */
  function Register(pulls: map<string, seq<Chan>>, url: string, ch: Chan): map<string, seq<Chan>> {
    if url in pulls then pulls[url := pulls[url] + [ch]] else pulls[url := []]
  }

  ghost function PublishedCredits(c: Cache, credits: multiset<Manifest>, req: Request,
                                  m: Manifest): multiset<Manifest> {
    if req.force then ReplacedCredits(c, credits, m) else credits + Credit(m)
  }

  ghost function Apply(s: System, step: Step): System
    requires Enabled(s, step)
  {
    match step
    case Check(t, now) =>
      var req := s.threads[t].req;
      if req.force then Move(s, t, Missed)
      else
        var (after, found) := Get(s.cache, req.pr, now);
        Move(Become(s, after), t, if found.Some? then Done(Served(found.value)) else Missed)
    case Enqueue(t) =>
      var url := s.threads[t].Url();
      if url in s.pulls then
        var s' := Move(s, t, Waiting(s.nextChan));
        s'.(pulls := Register(s.pulls, url, s.nextChan), nextChan := s.nextChan + 1, owner := s.owner[s.nextChan := t])
      else Move(s, t, Pulling).(pulls := Register(s.pulls, url, s.nextChan))
    case Fetch(t, m) => Move(Become(s, WriteManifest(s.cache, m)), t, Fetched(m, {}))
    case Land(t, d, size) =>
      var p := s.threads[t].phase;
      Move(Become(s, Landing(s.cache, d, size)), t, Fetched(p.m, p.landed + {d}))
    case FailPull(t) => Move(s, t, Finishing(Failed, None))
    case Publish(t) =>
      var req, m := s.threads[t].req, s.threads[t].phase.m;
      var (after, ok) := Publication(s.cache, req, m);
      var s' := Become(s, after).(credits := PublishedCredits(s.cache, s.credits, req, m));
      var s'' := s'.(log := s'.log + [Stored(m.url, m.digest)]);
      Move(s'', t, if ok then Finishing(Served(m), Some(|s'.log|)) else Finishing(Failed, None))
    case Lock(t) =>
      var p := s.threads[t].phase;
      Move(s, t, Signalling(p.out, p.promise, 0)).(holder := Some(t))
    case Send(t) =>
      var p := s.threads[t].phase;
      var w := s.owner[s.pulls[s.threads[t].Url()][p.sent]];
      Move(Move(s, w, Woken(p.promise)), t, Signalling(p.out, p.promise, p.sent + 1))
    case Unlock(t) =>
      Move(s, t, Done(s.threads[t].phase.out)).(pulls := s.pulls - {s.threads[t].Url()}, holder := None)
    case GiveUp(t) => Move(s, t, GaveUp(s.threads[t].phase.ch))
    case Read(t, now) =>
      var (after, found) := Get(s.cache, s.threads[t].req.pr, now);
      Move(Become(s, after), t, Done(Answer(found)))
    case Select(p, todo) => s.(pruners := s.pruners[p := Pruner(todo, s.pruners[p].passes - 1)])
    case PruneNext(p) =>
      var m, rest := s.pruners[p].todo[0], s.pruners[p].(todo := s.pruners[p].todo[1..]);
      Become(s, Prune(s.cache, m)).(credits := s.credits - Credit(m), pruners := s.pruners[p := rest])
  }

  // ---------------------------------------------------------------- runs

  /** `s'` is reached from `s` by the steps in order. */
  ghost predicate Runs(s: System, steps: seq<Step>, s': System)
    decreases |steps|
  {
    if steps == [] then s == s'
    else Enabled(s, steps[0]) && Runs(Apply(s, steps[0]), steps[1..], s')
  }

  /** A server that has just loaded its cache: nobody has asked for anything yet. A pull is forced
      only for the tag `latest`. */
  ghost predicate Start(s: System) {
    && (forall t | t in s.threads ::
          s.threads[t].phase == Asked && s.threads[t].req.pr.WellFormed()
          && (s.threads[t].req.force ==> s.threads[t].req.pr.IsLatest()))
    && (forall p | p in s.pruners :: s.pruners[p].todo == [])
    && s.pulls == map[] && s.holder == None && s.owner == map[] && s.log == []
  }

  // ---------------------------------------------------------------- what a step does to a goroutine

  /** The phases that can follow one another. */
  predicate Follows(p: Phase, q: Phase) {
    match p
    case Asked => q.Missed? || q.Done?
    case Missed => q == Pulling || q.Waiting?
    case Pulling => (q.Fetched? && q.landed == {}) || q == Finishing(Failed, None)
    case Fetched(m, landed) => (q.Fetched? && q.m == m && landed < q.landed) || q.Finishing?
    case Finishing(out, promise) => q == Signalling(out, promise, 0)
    case Signalling(out, promise, sent) => q == Signalling(out, promise, sent + 1) || q == Done(out)
    case Waiting(ch) => q == GaveUp(ch) || q.Woken?
    case Woken(_) => q.Done?
    case GaveUp(_) => false
    case Done(_) => false
  }

  /** Goroutine `t` goes on to the next phase; no other goroutine moves. */
  ghost predicate Moves(s: System, t: Tid, s': System) {
    && t in s.threads && t in s'.threads && s'.threads == s.threads[t := s'.threads[t]]
    && s'.threads[t].req == s.threads[t].req && Follows(s.threads[t].phase, s'.threads[t].phase)
    && s'.pruners == s.pruners && s.log <= s'.log
  }

  ghost predicate SameTable(s: System, s': System) {
    s'.pulls == s.pulls && s'.holder == s.holder && s'.owner == s.owner && s'.nextChan == s.nextChan
  }

  /** The steps that work on the cache leave the pull table alone. */
  predicate TouchesTable(step: Step) {
    step.Enqueue? || step.Lock? || step.Send? || step.Unlock? || step.GiveUp?
  }

  predicate IsPruning(step: Step) {
    step.Select? || step.PruneNext?
  }

  lemma ReaderMoves(s: System, step: Step)
    requires Enabled(s, step) && (step.Check? || step.Read? || step.Publish?)
    ensures Moves(s, step.t, Apply(s, step)) && SameTable(s, Apply(s, step))
    ensures !Apply(s, step).threads[step.t].phase.Fetched?
  {
    hide PullRequest.Url, Get, Publication, PublishedCredits, Cached, AllLanded;
  }

  lemma PullerAdvances(s: System, step: Step)
    requires Enabled(s, step) && (step.Fetch? || step.Land? || step.FailPull?)
    ensures Moves(s, step.t, Apply(s, step)) && SameTable(s, Apply(s, step))
    ensures var q := Apply(s, step).threads[step.t].phase;
            && (step.Fetch? ==> s.threads[step.t].phase.Pulling? && q == Fetched(step.m, {}))
            && (step.Land? ==> s.threads[step.t].phase.Fetched? && q.Fetched?)
            && (step.FailPull? ==> q.Finishing?)
  {
    hide PullRequest.Url, WriteManifest, Landing, Requests, Cached;
  }

  lemma TableMoves(s: System, step: Step)
    requires Enabled(s, step) && TouchesTable(step) && !step.Send?
    ensures Moves(s, step.t, Apply(s, step)) && Apply(s, step).cache == s.cache && Apply(s, step).credits == s.credits
    ensures !Apply(s, step).threads[step.t].phase.Fetched?
  {
    hide PullRequest.Url;
  }

  /** Every step but a signal moves one goroutine by one phase. */
  lemma StepMoves(s: System, step: Step)
    requires Enabled(s, step) && !IsPruning(step) && !step.Send?
    ensures Moves(s, step.t, Apply(s, step))
    ensures !TouchesTable(step) ==> SameTable(s, Apply(s, step))
    ensures Apply(s, step).threads[step.t].phase.Fetched? ==> step.Fetch? || step.Land?
    ensures step.Fetch? ==>
              s.threads[step.t].phase.Pulling? && Apply(s, step).threads[step.t].phase == Fetched(step.m, {})
    ensures step.Land? ==> s.threads[step.t].phase.Fetched? && Apply(s, step).threads[step.t].phase.Fetched?
  {
    hide Enabled, Apply, Moves, SameTable;
    if TouchesTable(step) {
      TableMoves(s, step);
    } else if step.Fetch? || step.Land? || step.FailPull? {
      PullerAdvances(s, step);
    } else {
      ReaderMoves(s, step);
    }
  }

  /** A signal moves two. */
  lemma SendMoves(s: System, t: Tid)
    requires Enabled(s, Send(t))
    ensures var s', w := Apply(s, Send(t)), s.owner[s.pulls[s.threads[t].Url()][s.threads[t].phase.sent]];
            && w != t && w in s.threads && t in s.threads && s'.threads.Keys == s.threads.Keys
            && s.threads[w].phase.Waiting? && s'.threads[w] == s.threads[w].(phase := Woken(s.threads[t].phase.promise))
            && s.threads[t].phase.Signalling?
            && s'.threads[t] == s.threads[t].(phase := s.threads[t].phase.(sent := s.threads[t].phase.sent + 1))
            && (forall u | u in s.threads && u != t && u != w :: s'.threads[u] == s.threads[u])
            && SameTable(s, s') && s'.cache == s.cache && s'.credits == s.credits && s'.pruners == s.pruners
            && s'.log == s.log
  {
    hide PullRequest.Url;
  }

  /** A pruner moves no goroutine. */
  lemma PruningMoves(s: System, step: Step)
    requires Enabled(s, step) && IsPruning(step)
    ensures var s' := Apply(s, step); s'.threads == s.threads && SameTable(s, s') && s.log <= s'.log
  {
    hide PullRequest.Url, Prune, Selectable, Cached;
  }

  // ---------------------------------------------------------------- the pull table

  /** What the pull table has to do with a goroutine. */
  datatype Role = Outside | Puller(locked: bool, sent: nat) | Waiter(ch: Chan, gone: bool)

  function RoleOf(p: Phase): Role {
    match p
    case Pulling => Puller(false, 0)
    case Fetched(_, _) => Puller(false, 0)
    case Finishing(_, _) => Puller(false, 0)
    case Signalling(_, _, sent) => Puller(true, sent)
    case Waiting(ch) => Waiter(ch, false)
    case GaveUp(ch) => Waiter(ch, true)
    case _ => Outside
  }

  function RoleIn(s: System, t: Tid): Role {
    if t in s.threads then RoleOf(s.threads[t].phase) else Outside
  }

  function UrlIn(s: System, t: Tid): string {
    if t in s.threads then s.threads[t].Url() else ""
  }

  /** Whoever pulls a url is in the table, once; only the goroutine that signals holds the lock. */
  ghost predicate PullersOk(s: System) {
    && (forall t: Tid :: RoleIn(s, t).Puller? ==> UrlIn(s, t) in s.pulls && RoleIn(s, t).sent <= |s.pulls[UrlIn(s, t)]|)
    && (forall url | url in s.pulls :: exists t: Tid :: RoleIn(s, t).Puller? && UrlIn(s, t) == url)
    && (forall t: Tid, u: Tid :: RoleIn(s, t).Puller? && RoleIn(s, u).Puller? && UrlIn(s, t) == UrlIn(s, u) ==> t == u)
    && (forall t: Tid :: s.holder == Some(t) <==> RoleIn(s, t).Puller? && RoleIn(s, t).locked)
  }

  /** Every channel was made by one goroutine that enqueued for the same url; the channels of one
      url are in the order in which they were made. */
  ghost predicate ChannelsOk(s: System) {
    && (forall url, i | url in s.pulls && 0 <= i < |s.pulls[url]| ::
          s.pulls[url][i] in s.owner && UrlIn(s, s.owner[s.pulls[url][i]]) == url)
    && (forall url, i, j | url in s.pulls && 0 <= i < j < |s.pulls[url]| :: s.pulls[url][i] < s.pulls[url][j])
    && (forall ch | ch in s.owner :: ch < s.nextChan && s.owner[ch] in s.threads)
  }

  ghost predicate Unsent(s: System, t: Tid, i: int) {
    RoleIn(s, t).Puller? && UrlIn(s, t) in s.pulls && RoleIn(s, t).sent <= i < |s.pulls[UrlIn(s, t)]|
  }

  ghost function ChanAt(s: System, t: Tid, i: int): Chan
    requires Unsent(s, t, i)
  {
    s.pulls[UrlIn(s, t)][i]
  }

  /** The goroutine that made the channel still waits on it or has given up waiting on it. */
  ghost predicate Open(s: System, ch: Chan) {
    ch in s.owner && RoleIn(s, s.owner[ch]).Waiter? && RoleIn(s, s.owner[ch]).ch == ch
  }

  /** A channel that is not signalled yet is open, and a goroutine that waits or has given up waiting
      does so on such a channel. */
  ghost predicate WaitersOk(s: System) {
    && (forall t: Tid, i | Unsent(s, t, i) :: Open(s, ChanAt(s, t, i)))
    && (forall w: Tid :: RoleIn(s, w).Waiter? ==>
          exists t: Tid, i :: Unsent(s, t, i) && IsChannel(s, t, i, w))
  }

  ghost predicate IsChannel(s: System, t: Tid, i: int, w: Tid)
    requires Unsent(s, t, i)
  {
    var ch := ChanAt(s, t, i);
    RoleIn(s, w).Waiter? && ch == RoleIn(s, w).ch && ch in s.owner && s.owner[ch] == w
  }

  ghost predicate Table(s: System) {
    PullersOk(s) && ChannelsOk(s) && WaitersOk(s)
  }

  // ---------------------------------------------------------------- every step keeps the table

  /** Whoever waits, on which channel, and what is still to be signalled stay the same. */
  lemma SameWaiters(s: System, s': System)
    requires WaitersOk(s) && s'.owner == s.owner
    requires forall t: Tid, i :: Unsent(s', t, i) <==> Unsent(s, t, i)
    requires forall t: Tid, i | Unsent(s', t, i) && Unsent(s, t, i) :: ChanAt(s', t, i) == ChanAt(s, t, i)
    requires forall w: Tid :: RoleIn(s', w).Waiter? <==> RoleIn(s, w).Waiter?
    requires forall w: Tid | RoleIn(s', w).Waiter? && RoleIn(s, w).Waiter? :: RoleIn(s', w).ch == RoleIn(s, w).ch
    ensures WaitersOk(s')
  {
    hide PullRequest.Url, RoleIn, UrlIn, Unsent, ChanAt;
    forall t: Tid, i | Unsent(s', t, i) ensures Open(s', ChanAt(s', t, i)) {
      assert Open(s, ChanAt(s, t, i));
    }
    forall w: Tid | RoleIn(s', w).Waiter? ensures exists t: Tid, i :: Unsent(s', t, i) && IsChannel(s', t, i, w) {
      var t: Tid, i :| Unsent(s, t, i) && IsChannel(s, t, i, w);
      assert IsChannel(s', t, i, w);
    }
  }

  /** A step that changes no role and leaves the table alone keeps it. */
  lemma SameRoles(s: System, s': System)
    requires Table(s) && s'.pulls == s.pulls && s'.holder == s.holder && s'.owner == s.owner
    requires s'.nextChan == s.nextChan
    requires s'.threads.Keys == s.threads.Keys
    requires forall t: Tid :: RoleIn(s', t) == RoleIn(s, t) && UrlIn(s', t) == UrlIn(s, t)
    ensures Table(s')
  {
    hide PullRequest.Url, RoleIn, UrlIn;
    forall t: Tid, i ensures Unsent(s', t, i) <==> Unsent(s, t, i) { }
    SameWaiters(s, s');
  }

  lemma EnqueueKeeps(s: System, t: Tid)
    requires Table(s) && Enabled(s, Enqueue(t))
    ensures Table(Apply(s, Enqueue(t)))
  {
    hide PullRequest.Url;
    var s', url := Apply(s, Enqueue(t)), s.threads[t].Url();
    assert forall u: Tid :: UrlIn(s', u) == UrlIn(s, u);
    assert forall u: Tid | u != t :: RoleIn(s', u) == RoleIn(s, u);
    if url in s.pulls {
      EnlistKeepsPullers(s, t, s');
      EnlistKeepsChannels(s, t, s');
      EnlistKeepsWaiters(s, t, s');
    } else {
      EnqueuePullerKeeps(s, t, s');
    }
  }

  lemma EnqueuePullerKeeps(s: System, t: Tid, s': System)
    requires Table(s) && s.holder.None? && t in s.threads && RoleIn(s, t) == Outside && UrlIn(s, t) !in s.pulls
    requires s'.threads.Keys == s.threads.Keys && s'.owner == s.owner && s'.nextChan == s.nextChan
    requires s'.holder == s.holder
    requires forall u: Tid :: UrlIn(s', u) == UrlIn(s, u)
    requires forall u: Tid | u != t :: RoleIn(s', u) == RoleIn(s, u)
    requires RoleIn(s', t) == Puller(false, 0) && s'.pulls == s.pulls[UrlIn(s, t) := []]
    ensures Table(s')
  {
    hide PullRequest.Url, RoleIn, UrlIn;
    forall u: Tid, i ensures Unsent(s', u, i) <==> Unsent(s, u, i) { }
    forall url | url in s'.pulls ensures exists u: Tid :: RoleIn(s', u).Puller? && UrlIn(s', u) == url {
      if url in s.pulls {
        var u: Tid :| RoleIn(s, u).Puller? && UrlIn(s, u) == url;
        assert RoleIn(s', u).Puller? && UrlIn(s', u) == url;
      } else {
        assert RoleIn(s', t).Puller? && UrlIn(s', t) == url;
      }
    }
    SameWaiters(s, s');
  }

  /** Only goroutine `t` changes its role, and no url or goroutine is new. */
  ghost predicate Only(s: System, t: Tid, s': System) {
    && s'.threads.Keys == s.threads.Keys
    && (forall u: Tid :: UrlIn(s', u) == UrlIn(s, u))
    && (forall u: Tid | u != t :: RoleIn(s', u) == RoleIn(s, u))
  }

  ghost predicate Enlists(s: System, t: Tid, s': System) {
    && s.holder.None? && s'.holder == s.holder && t in s.threads && RoleIn(s, t) == Outside && UrlIn(s, t) in s.pulls
    && Only(s, t, s') && RoleIn(s', t) == Waiter(s.nextChan, false)
    && s'.pulls == s.pulls[UrlIn(s, t) := s.pulls[UrlIn(s, t)] + [s.nextChan]]
    && s'.nextChan == s.nextChan + 1 && s'.owner == s.owner[s.nextChan := t]
  }

  lemma EnlistKeepsPullers(s: System, t: Tid, s': System)
    requires Table(s) && Enlists(s, t, s')
    ensures PullersOk(s')
  {
    hide PullRequest.Url, RoleIn, UrlIn, WaitersOk, ChannelsOk;
    forall url | url in s'.pulls ensures exists u: Tid :: RoleIn(s', u).Puller? && UrlIn(s', u) == url {
      var u: Tid :| RoleIn(s, u).Puller? && UrlIn(s, u) == url;
      assert RoleIn(s', u).Puller? && UrlIn(s', u) == url;
    }
  }

  lemma EnlistKeepsChannels(s: System, t: Tid, s': System)
    requires Table(s) && Enlists(s, t, s')
    ensures ChannelsOk(s')
  {
    hide PullRequest.Url, RoleIn, UrlIn, WaitersOk, PullersOk;
    var url, n := UrlIn(s, t), |s.pulls[UrlIn(s, t)]|;
    forall u, i | u in s'.pulls && 0 <= i < |s'.pulls[u]|
      ensures s'.pulls[u][i] in s'.owner && UrlIn(s', s'.owner[s'.pulls[u][i]]) == u
      ensures u != url || i < n ==> i < |s.pulls[u]| && s'.pulls[u][i] == s.pulls[u][i] < s.nextChan
      ensures u == url && i == n ==> s'.pulls[u][i] == s.nextChan
    {
      if u != url || i < n {
        assert s'.pulls[u][i] == s.pulls[u][i];
      }
    }
  }

  lemma EnlistKeepsUnsent(s: System, t: Tid, s': System, u: Tid, i: int)
    requires Table(s) && Enlists(s, t, s')
    ensures Unsent(s, u, i) ==> Unsent(s', u, i) && ChanAt(s', u, i) == ChanAt(s, u, i)
    ensures Unsent(s', u, i) ==> Unsent(s, u, i) || (UrlIn(s, u) == UrlIn(s, t) && ChanAt(s', u, i) == s.nextChan)
  {
    hide PullRequest.Url, RoleIn, UrlIn, WaitersOk, PullersOk;
  }

  lemma EnlistKeepsWaiters(s: System, t: Tid, s': System)
    requires Table(s) && Enlists(s, t, s')
    ensures WaitersOk(s')
  {
    hide PullRequest.Url, RoleIn, UrlIn, Unsent, PullersOk, ChannelsOk, ChanAt;
    forall u: Tid, i | Unsent(s', u, i) ensures Open(s', ChanAt(s', u, i)) {
      EnlistKeepsUnsent(s, t, s', u, i);
      if Unsent(s, u, i) { OpenStays(s, t, s', u, i); }
    }
    forall w: Tid | RoleIn(s', w).Waiter?
      ensures exists u: Tid, i :: Unsent(s', u, i) && IsChannel(s', u, i, w)
    {
      if w == t {
        EnlistedLast(s, t, s');
      } else {
        var u: Tid, i :| Unsent(s, u, i) && IsChannel(s, u, i, w);
        EnlistKeepsUnsent(s, t, s', u, i);
        OwnersStay(s, t, s');
        assert IsChannel(s', u, i, w);
      }
    }
  }

  lemma OwnersStay(s: System, t: Tid, s': System)
    requires Table(s) && Enlists(s, t, s')
    ensures forall ch | ch in s.owner :: ch in s'.owner && s'.owner[ch] == s.owner[ch]
  {
    hide PullRequest.Url, RoleIn, UrlIn, WaitersOk, PullersOk;
  }

  lemma OpenStays(s: System, t: Tid, s': System, u: Tid, i: int)
    requires Table(s) && Enlists(s, t, s') && Unsent(s, u, i)
    ensures Open(s', ChanAt(s, u, i))
  {
    hide PullRequest.Url, RoleIn, UrlIn, PullersOk, ChannelsOk;
    OwnersStay(s, t, s');
    assert Open(s, ChanAt(s, u, i));
  }

  lemma EnlistedLast(s: System, t: Tid, s': System)
    requires Table(s) && Enlists(s, t, s')
    ensures exists u: Tid, i :: Unsent(s', u, i) && IsChannel(s', u, i, t)
  {
    hide PullRequest.Url, RoleIn, UrlIn, WaitersOk;
    var url := UrlIn(s, t);
    var u: Tid :| RoleIn(s, u).Puller? && UrlIn(s, u) == url;
    assert Unsent(s', u, |s.pulls[url]|) && IsChannel(s', u, |s.pulls[url]|, t);
  }

  lemma LockKeeps(s: System, t: Tid, s': System)
    requires Table(s) && s.holder.None? && RoleIn(s, t) == Puller(false, 0)
    requires s'.threads.Keys == s.threads.Keys && s'.owner == s.owner && s'.nextChan == s.nextChan
    requires s'.pulls == s.pulls
    requires forall u: Tid :: UrlIn(s', u) == UrlIn(s, u)
    requires forall u: Tid | u != t :: RoleIn(s', u) == RoleIn(s, u)
    requires RoleIn(s', t) == Puller(true, 0) && s'.holder == Some(t)
    ensures Table(s')
  {
    hide PullRequest.Url, RoleIn, UrlIn;
    forall u: Tid, i ensures Unsent(s', u, i) <==> Unsent(s, u, i) { }
    forall url | url in s'.pulls ensures exists u: Tid :: RoleIn(s', u).Puller? && UrlIn(s', u) == url {
      var u: Tid :| RoleIn(s, u).Puller? && UrlIn(s, u) == url;
      assert RoleIn(s', u).Puller? && UrlIn(s', u) == url;
    }
    SameWaiters(s, s');
  }

  /** Two registered channels are the same only if they stand at the same place for the same url. */
  lemma ChannelsApart(s: System, url: string, i: nat, other: string, j: nat)
    requires Table(s) && url in s.pulls && i < |s.pulls[url]| && other in s.pulls && j < |s.pulls[other]|
    ensures s.pulls[url][i] == s.pulls[other][j] ==> url == other && i == j
  {
    hide PullRequest.Url, RoleIn, UrlIn, WaitersOk, PullersOk;
    if url == other && i != j {
      assert s.pulls[url][if i < j then i else j] < s.pulls[url][if i < j then j else i];
    }
  }

  lemma UnsentApart(s: System, t: Tid, i: int, u: Tid, j: int)
    requires Table(s) && Unsent(s, t, i) && Unsent(s, u, j)
    ensures ChanAt(s, t, i) == ChanAt(s, u, j) ==> t == u && i == j
  {
    hide PullRequest.Url, RoleIn, UrlIn, WaitersOk, ChannelsOk;
    ChannelsApart(s, UrlIn(s, t), i, UrlIn(s, u), j);
  }

  /** Goroutine `t` signals `w` on the next of its channels. */
  ghost predicate Signals(s: System, t: Tid, w: Tid, s': System) {
    && RoleIn(s, t).Puller? && RoleIn(s, t).locked && Unsent(s, t, RoleIn(s, t).sent)
    && var ch := ChanAt(s, t, RoleIn(s, t).sent);
    && ch in s.owner && s.owner[ch] == w && RoleIn(s, w) == Waiter(ch, false)
    && s'.threads.Keys == s.threads.Keys
    && (forall u: Tid :: UrlIn(s', u) == UrlIn(s, u))
    && (forall u: Tid | u != t && u != w :: RoleIn(s', u) == RoleIn(s, u))
    && RoleIn(s', w) == Outside && RoleIn(s', t) == Puller(true, RoleIn(s, t).sent + 1)
    && s'.owner == s.owner && s'.nextChan == s.nextChan && s'.pulls == s.pulls && s'.holder == s.holder
  }

  lemma SendKeepsPullers(s: System, t: Tid, w: Tid, s': System)
    requires Table(s) && Signals(s, t, w, s')
    ensures PullersOk(s') && ChannelsOk(s')
  {
    hide PullRequest.Url, RoleIn, UrlIn, WaitersOk;
    forall url | url in s'.pulls ensures exists u: Tid :: RoleIn(s', u).Puller? && UrlIn(s', u) == url {
      var u: Tid :| RoleIn(s, u).Puller? && UrlIn(s, u) == url;
      assert RoleIn(s', u).Puller? && UrlIn(s', u) == url;
    }
  }

  lemma SendUnsent(s: System, t: Tid, w: Tid, s': System, u: Tid, i: int)
    requires Signals(s, t, w, s')
    ensures Unsent(s', u, i) <==> Unsent(s, u, i) && (u != t || i != RoleIn(s, t).sent)
    ensures Unsent(s', u, i) ==> ChanAt(s', u, i) == ChanAt(s, u, i)
  {
    hide PullRequest.Url, RoleIn, UrlIn;
  }

  lemma SendKeepsWaiters(s: System, t: Tid, w: Tid, s': System)
    requires Table(s) && Signals(s, t, w, s')
    ensures WaitersOk(s')
  {
    hide PullRequest.Url, RoleIn, UrlIn, Unsent, PullersOk, ChannelsOk, ChanAt;
    var n := RoleIn(s, t).sent;
    forall u: Tid, i | Unsent(s', u, i) ensures Open(s', ChanAt(s', u, i)) {
      SendUnsent(s, t, w, s', u, i);
      UnsentApart(s, t, n, u, i);
      assert Open(s, ChanAt(s, u, i));
    }
    forall v: Tid | RoleIn(s', v).Waiter?
      ensures exists u: Tid, i :: Unsent(s', u, i) && IsChannel(s', u, i, v)
    {
      var u: Tid, i :| Unsent(s, u, i) && IsChannel(s, u, i, v);
      SendUnsent(s, t, w, s', u, i);
      assert IsChannel(s', u, i, v);
    }
  }

  /** Goroutine `t` has signalled everyone and leaves the table. */
  ghost predicate Leaves(s: System, t: Tid, s': System) {
    && RoleIn(s, t).Puller? && RoleIn(s, t).locked && UrlIn(s, t) in s.pulls
    && RoleIn(s, t).sent == |s.pulls[UrlIn(s, t)]|
    && Only(s, t, s') && RoleIn(s', t) == Outside && s'.holder == None
    && s'.owner == s.owner && s'.nextChan == s.nextChan && s'.pulls == s.pulls - {UrlIn(s, t)}
  }

  lemma UnlockKeepsPullers(s: System, t: Tid, s': System)
    requires Table(s) && Leaves(s, t, s')
    ensures PullersOk(s') && ChannelsOk(s')
  {
    hide PullRequest.Url, RoleIn, UrlIn, WaitersOk;
    forall url | url in s'.pulls ensures exists u: Tid :: RoleIn(s', u).Puller? && UrlIn(s', u) == url {
      var u: Tid :| RoleIn(s, u).Puller? && UrlIn(s, u) == url;
      assert RoleIn(s', u).Puller? && UrlIn(s', u) == url;
    }
  }

  lemma UnlockUnsent(s: System, t: Tid, s': System, u: Tid, i: int)
    requires Table(s) && Leaves(s, t, s')
    ensures Unsent(s', u, i) <==> Unsent(s, u, i)
    ensures Unsent(s', u, i) ==> ChanAt(s', u, i) == ChanAt(s, u, i) && u != t
  {
    hide PullRequest.Url, RoleIn, UrlIn, ChannelsOk, WaitersOk;
  }

  lemma UnlockKeepsWaiters(s: System, t: Tid, s': System)
    requires Table(s) && Leaves(s, t, s')
    ensures WaitersOk(s')
  {
    hide PullRequest.Url, RoleIn, UrlIn, Unsent, PullersOk, ChannelsOk, ChanAt;
    forall u: Tid, i { UnlockUnsent(s, t, s', u, i); }
    SameWaiters(s, s');
  }

  ghost predicate Abandons(s: System, w: Tid, s': System) {
    && Only(s, w, s') && RoleIn(s, w).Waiter? && RoleIn(s', w) == RoleIn(s, w).(gone := true)
    && s'.owner == s.owner && s'.nextChan == s.nextChan && s'.pulls == s.pulls && s'.holder == s.holder
  }

  lemma GiveUpKeepsPullers(s: System, w: Tid, s': System)
    requires Table(s) && Abandons(s, w, s')
    ensures PullersOk(s') && ChannelsOk(s')
  {
    hide PullRequest.Url, RoleIn, UrlIn, WaitersOk;
    forall url | url in s'.pulls ensures exists u: Tid :: RoleIn(s', u).Puller? && UrlIn(s', u) == url {
      var u: Tid :| RoleIn(s, u).Puller? && UrlIn(s, u) == url;
      assert RoleIn(s', u).Puller? && UrlIn(s', u) == url;
    }
  }

  lemma GiveUpUnsent(s: System, w: Tid, s': System, u: Tid, i: int)
    requires Abandons(s, w, s')
    ensures Unsent(s', u, i) <==> Unsent(s, u, i)
    ensures Unsent(s', u, i) ==> ChanAt(s', u, i) == ChanAt(s, u, i)
  {
    hide PullRequest.Url, RoleIn, UrlIn;
  }

  lemma GiveUpKeepsWaiters(s: System, w: Tid, s': System)
    requires Table(s) && Abandons(s, w, s')
    ensures WaitersOk(s')
  {
    hide PullRequest.Url, RoleIn, UrlIn, Unsent, PullersOk, ChannelsOk, ChanAt;
    forall u: Tid, i { GiveUpUnsent(s, w, s', u, i); }
    SameWaiters(s, s');
  }

  lemma LockIs(s: System, t: Tid)
    requires Table(s) && Enabled(s, Lock(t))
    ensures Table(Apply(s, Lock(t)))
  {
    hide PullRequest.Url, Table;
    LockKeeps(s, t, Apply(s, Lock(t)));
  }

  lemma SendIs(s: System, t: Tid)
    requires Table(s) && Enabled(s, Send(t))
    ensures Table(Apply(s, Send(t)))
  {
    hide PullRequest.Url, PullersOk, ChannelsOk, WaitersOk;
    var w := s.owner[s.pulls[s.threads[t].Url()][s.threads[t].phase.sent]];
    SendKeepsPullers(s, t, w, Apply(s, Send(t)));
    SendKeepsWaiters(s, t, w, Apply(s, Send(t)));
  }

  lemma UnlockIs(s: System, t: Tid)
    requires Table(s) && Enabled(s, Unlock(t))
    ensures Table(Apply(s, Unlock(t)))
  {
    hide PullRequest.Url, PullersOk, ChannelsOk, WaitersOk;
    PullerListed(s, t);
    UnlockKeepsPullers(s, t, Apply(s, Unlock(t)));
    UnlockKeepsWaiters(s, t, Apply(s, Unlock(t)));
  }

  lemma PullerListed(s: System, t: Tid)
    requires Table(s)
    ensures RoleIn(s, t).Puller? ==> UrlIn(s, t) in s.pulls
  {
  }

  lemma GiveUpIs(s: System, w: Tid)
    requires Table(s) && Enabled(s, GiveUp(w))
    ensures Table(Apply(s, GiveUp(w)))
  {
    hide PullRequest.Url, PullersOk, ChannelsOk, WaitersOk;
    GiveUpKeepsPullers(s, w, Apply(s, GiveUp(w)));
    GiveUpKeepsWaiters(s, w, Apply(s, GiveUp(w)));
  }

  lemma MovesRoles(s: System, t: Tid, s': System)
    requires Moves(s, t, s')
    ensures forall u: Tid :: UrlIn(s', u) == UrlIn(s, u)
    ensures forall u: Tid | u != t :: RoleIn(s', u) == RoleIn(s, u)
    ensures RoleIn(s', t) == RoleOf(s'.threads[t].phase)
  {
    hide PullRequest.Url, RoleOf, Follows;
  }

  lemma CacheStepKeepsRole(s: System, step: Step)
    requires Enabled(s, step) && !IsPruning(step) && !TouchesTable(step)
    ensures step.t in s.threads
    ensures var p := s.threads[step.t].phase; p.Asked? || p.Pulling? || p.Fetched? || p.Woken?
  {
    hide PullRequest.Url, Requests, AllLanded, Manifest.Blobs;
  }

  lemma OthersKeepRoles(s: System, step: Step)
    requires Enabled(s, step) && !TouchesTable(step)
    ensures var s' := Apply(s, step);
            && SameTable(s, s') && s'.threads.Keys == s.threads.Keys
            && forall t: Tid :: RoleIn(s', t) == RoleIn(s, t) && UrlIn(s', t) == UrlIn(s, t)
  {
    hide PullRequest.Url, Enabled, Apply;
    if IsPruning(step) {
      PruningMoves(s, step);
    } else {
      StepMoves(s, step);
      MovesRoles(s, step.t, Apply(s, step));
      CacheStepKeepsRole(s, step);
    }
  }

  /** In every run: a url is in the table exactly while one goroutine pulls it, and every channel
      that is not yet signalled belongs to a goroutine that enqueued for that url. */
  lemma TableKept(s: System, step: Step)
    requires Table(s) && Enabled(s, step)
    ensures Table(Apply(s, step))
  {
    hide PullRequest.Url, Table, Enabled, Apply;
    match step {
      case Enqueue(t) => EnqueueKeeps(s, t);
      case Lock(t) => LockIs(s, t);
      case Send(t) => SendIs(s, t);
      case Unlock(t) => UnlockIs(s, t);
      case GiveUp(w) => GiveUpIs(s, w);
      case _ =>
        OthersKeepRoles(s, step);
        SameRoles(s, Apply(s, step));
    }
  }

  lemma StartTable(s: System)
    requires Start(s)
    ensures Table(s)
  {
    hide PullRequest.Url, PullRequest.WellFormed, PullRequest.IsLatest;
    assert forall t: Tid :: RoleIn(s, t) == Outside;
  }

  lemma {:induction false} TableAlways(s: System, steps: seq<Step>, s': System)
    requires Table(s) && Runs(s, steps, s')
    ensures Table(s')
    decreases |steps|
  {
    hide Table, Enabled, Apply;
    if steps != [] {
      TableKept(s, steps[0]);
      TableAlways(Apply(s, steps[0]), steps[1..], s');
    }
  }

  /** In every reachable state a url is in the pull table exactly when some goroutine pulls it, that
      goroutine is the only one, and the channels registered for it are distinct, from each other and
      from those of every other url, and were each made by one goroutine that asked for that url. */
  lemma OnePullPerUrl(start: System, steps: seq<Step>, s: System, url: string)
    requires Start(start) && Runs(start, steps, s)
    ensures url in s.pulls <==> exists t: Tid :: RoleIn(s, t).Puller? && UrlIn(s, t) == url
    ensures forall t: Tid, u: Tid | RoleIn(s, t).Puller? && RoleIn(s, u).Puller? && UrlIn(s, t) == UrlIn(s, u) :: t == u
    ensures url in s.pulls ==>
              && (forall i | 0 <= i < |s.pulls[url]| ::
                    s.pulls[url][i] in s.owner && UrlIn(s, s.owner[s.pulls[url][i]]) == url)
              && (forall other, i, j | other in s.pulls && 0 <= i < |s.pulls[url]| && 0 <= j < |s.pulls[other]| ::
                    s.pulls[url][i] == s.pulls[other][j] ==> url == other && i == j)
  {
    hide PullRequest.Url, RoleIn, UrlIn, Enabled, Apply;
    StartTable(start);
    TableAlways(start, steps, s);
    if url in s.pulls {
      forall other, i: nat, j: nat | other in s.pulls && i < |s.pulls[url]| && j < |s.pulls[other]|
        ensures s.pulls[url][i] == s.pulls[other][j] ==> url == other && i == j
      {
        ChannelsApart(s, url, i, other, j);
      }
    }
  }
}
