/** The harvest job: the listings of a page, the pages of a run, the accounts of a rotation - and how many cold messages
    it puts on record while it counts its sends. */
module HarvestRun {
  import opened Records
  import opened Gate
  import opened Writes
  import opened Sending
  import opened Harvesting
  import opened Store
  import opened HarvestCursor
  import opened HarvestVisits
  import opened Accounts
  import opened AccountBook
  import opened HarvestTrace
  import opened RotationTrace
  import Daemon

  /** What the run cannot decide itself, step by step: what a search page of a market shows, what a visit yields, the
      state of a session, whether an alert is sent, and the time it takes. `market` reads the market of an account, if
      it is a known one. */
  datatype World = World(
    page: (nat, string, int) -> Screen,
    visit: (nat, Db) -> Offer,
    session: nat -> Session,
    alerts: nat -> bool,
    market: Option<string> -> Option<string>,
    elapsed: nat -> nat)

  ghost predicate Honest(w: World) {
    forall t: nat, d: Db :: Consistent(d) ==> OfferFits(d, w.visit(t, d))
  }

  /** One visit: what it yielded, what became of it, and the stores before and after. */
  datatype Visited = Visited(before: Db, offer: Offer, outcome: Outcome, after: Db)

  /** Sends the run counts. */
  function CountSent(trace: seq<Visited>): nat {
    if trace == [] then 0 else CountSent(trace[..|trace| - 1]) + if trace[|trace| - 1].outcome.WasSent? then 1 else 0
  }

  predicate HasBlock(trace: seq<Visited>) {
    exists i :: 0 <= i < |trace| && trace[i].outcome.WasBlocked?
  }

  /** The loop over the listings is stopped after these visits. */
  predicate Stops(trace: seq<Visited>, sendMax: int) {
    HasBlock(trace) || CountSent(trace) >= sendMax
  }

  /** The visits of one page: nothing stopped them before the last one. */
  ghost predicate IsBatch(batch: seq<Visited>, sendMax: int) {
    && CountSent(batch) <= sendMax
    && (HasBlock(batch) <==> batch != [] && batch[|batch| - 1].outcome.WasBlocked?)
    && forall n :: 0 <= n < |batch| ==> !Stops(batch[..n], sendMax)
  }

  lemma BatchGrows(batch: seq<Visited>, v: Visited, sendMax: int)
    requires IsBatch(batch, sendMax) && !Stops(batch, sendMax)
    ensures IsBatch(batch + [v], sendMax)
    ensures HasBlock(batch + [v]) <==> v.outcome.WasBlocked?
    ensures CountSent(batch + [v]) == CountSent(batch) + if v.outcome.WasSent? then 1 else 0
  {
    var more := batch + [v];
    assert more[..|batch|] == batch && batch[..|batch|] == batch;
    forall n | 0 <= n < |more|
      ensures !Stops(more[..n], sendMax)
    {
      assert more[..n] == batch[..n];
    }
    assert more[|batch|] == v;
    assert forall i :: 0 <= i < |batch| ==> more[i] == batch[i];
  }

  ghost predicate VisitedWell(rules: Rules, immediate: bool, v: Visited) {
    && Consistent(v.before) && OfferFits(v.before, v.offer)
    && v.outcome == Visit(rules, v.before, v.offer, immediate).outcome
    && Run(v.before, Visit(rules, v.before, v.offer, immediate).log) == Some(v.after)
  }

  /** The visits lead from the store `start` to the store `end`. */
  ghost predicate Happened(rules: Rules, immediate: bool, start: Db, trace: seq<Visited>, end: Db) {
    && start == (if trace == [] then end else trace[0].before)
    && end == (if trace == [] then start else trace[|trace| - 1].after)
    && (forall i :: 0 <= i < |trace| - 1 ==> trace[i].after == trace[i + 1].before)
    && (forall i :: 0 <= i < |trace| ==> VisitedWell(rules, immediate, trace[i]))
  }

  lemma HappenedOneMore(rules: Rules, immediate: bool, start: Db, trace: seq<Visited>, v: Visited)
    requires Happened(rules, immediate, start, trace, v.before) && VisitedWell(rules, immediate, v)
    ensures Happened(rules, immediate, start, trace + [v], v.after)
  {
  }

  lemma HappenedButLast(rules: Rules, immediate: bool, start: Db, trace: seq<Visited>, end: Db)
    requires Happened(rules, immediate, start, trace, end) && trace != []
    ensures Happened(rules, immediate, start, trace[..|trace| - 1], trace[|trace| - 1].before)
    ensures VisitedWell(rules, immediate, trace[|trace| - 1]) && trace[|trace| - 1].after == end
  {
    var n := |trace| - 1;
    if n > 0 {
      assert trace[n - 1].after == trace[n].before;
    }
  }

  /** At some moment the world shows this screen for the page. */
  ghost predicate Shown(w: World, market: string, p: int, screen: Screen) {
    exists t: nat :: w.page(t, market, p) == screen
  }

  // ---------- recorded and counted ----------

  ghost predicate IsRefused(rules: Rules, immediate: bool, v: Visited) {
    OfferFits(v.before, v.offer) && Refused(rules, v.before, v.offer, immediate)
  }

  /** Deliveries whose reported thread another lead holds at that moment. */
  ghost function CountRefused(rules: Rules, immediate: bool, trace: seq<Visited>): nat {
    if trace == [] then 0
    else
      var front, last := trace[..|trace| - 1], trace[|trace| - 1];
      CountRefused(rules, immediate, front) + if IsRefused(rules, immediate, last) then 1 else 0
  }

  /** Over a whole harvest the cold messages on record are the sends counted and the deliveries refused. */
  lemma {:induction false} RecordedIsCountedOrRefused(rules: Rules, immediate: bool, start: Db, trace: seq<Visited>,
                                                      end: Db)
    requires Happened(rules, immediate, start, trace, end)
    ensures CountCold(end.messages) == CountCold(start.messages) + CountSent(trace)
      + CountRefused(rules, immediate, trace)
  {
    if trace != [] {
      var n := |trace| - 1;
      var v := trace[n];
      HappenedButLast(rules, immediate, start, trace, end);
      RecordedIsCountedOrRefused(rules, immediate, start, trace[..n], v.before);
      RunCountsCold(v.before, Visit(rules, v.before, v.offer, immediate).log);
      VisitColds(rules, v.before, v.offer, immediate);
    }
  }

  lemma {:induction false} CountSentConcat(a: seq<Visited>, b: seq<Visited>)
    ensures CountSent(a + b) == CountSent(a) + CountSent(b)
    decreases |b|
  {
    if b == [] {
      assert a + b == a;
    } else {
      CountSentConcat(a, b[..|b| - 1]);
      assert (a + b)[..|a + b| - 1] == a + b[..|b| - 1];
    }
  }

  // ---------- the job ----------

  /** One harvest job with its report, in the hands of one account at a time. */
  class Harvest {
    const db: Database
    const book: Book
    const state: SystemState
    const rules: Rules
    const world: World
    const immediate: bool
    const autoLogin: bool
    const c: Config
    ghost const start: Db
    ghost const origin: Daemon.State

    var account: AccountId
    var now: Time
    var tick: nat
    var sent: nat
    var sendFailed: nat
    ghost var trace: seq<Visited>

    /** A job before its first account was picked, or in the hands of an account. */
    constructor (db: Database, book: Book, holder: Option<AccountId>, state: SystemState, rules: Rules, world: World,
                 immediate: bool, autoLogin: bool, now: Time, c: Config)
      requires db.Valid() && Honest(world) && c.sendMax >= 1 && (holder.Some? ==> holder.value in book.accounts)
      ensures MayGoOn() && this.db == db && this.book == book && this.state == state && this.world == world
      ensures this.c == c
      ensures this.immediate == immediate && this.rules == rules && this.autoLogin == autoLogin
      ensures start == db.Snapshot() && trace == [] && sent == 0 && this.now == now
      ensures var job := if holder.Some? then Daemon.Harvest(holder.value, 0, 0) else Daemon.Between(true, 0);
        origin == At(book.Contents(), now, job) && Tracked(job)
      ensures holder.Some? ==> account == holder.value
    {
      this.db, this.book, this.state, this.rules, this.world := db, book, state, rules, world;
      this.immediate, this.autoLogin, this.c := immediate, autoLogin, c;
      start := db.Snapshot();
      origin := At(book.Contents(), now, if holder.Some? then Daemon.Harvest(holder.value, 0, 0)
          else Daemon.Between(true, 0));
      account := if holder.Some? then holder.value else 0;
      this.now, tick, sent, sendFailed := now, 0, 0, 0;
      trace := [];
      new;
      Daemon.ReachesItself(Machine(), origin);
    }

    /** The visits so far led to the present tables. */
    ghost predicate Ready()
      reads this`trace, db
    {
      db.Valid() && Honest(world) && c.sendMax >= 1 && Happened(rules, immediate, start, trace, db.Snapshot())
    }

    /** The daemon that runs this job. */
    ghost function Machine(): Daemon.Setup { Daemon.Setup(autoLogin, if c.sendMax >= 0 then c.sendMax else 0) }

    /** The account table and the clock are where a run of the daemon takes them, this job in hand. */
    ghost predicate Tracked(job: Daemon.Job)
      reads this`now, book
    {
      Daemon.Reaches(Machine(), origin, At(book.Contents(), now, job))
    }

    lemma Holder(job: Daemon.Job)
      requires Tracked(job)
      ensures book.accounts.Keys == origin.fleet.accounts.Keys && (Daemon.Holds(job) ==> job.k in book.accounts)
    {
      Daemon.ReachedAccounts(Machine(), origin, At(book.Contents(), now, job));
    }

    lemma BoundsHold(job: Daemon.Job)
      requires Tracked(job) && c.sendMax >= 1
      ensures Daemon.Tame(Machine(), origin) ==> Daemon.Tame(Machine(), At(book.Contents(), now, job))
    {
      if Daemon.Tame(Machine(), origin) {
        Daemon.ReachedIsTame(Machine(), origin, At(book.Contents(), now, job));
      }
    }

    /** The clock moves with every answer of the world. */
    method Wait(ghost job: Daemon.Job)
      requires Tracked(job)
      modifies this`tick, this`now
      ensures Tracked(job) && tick == old(tick) + 1
    {
      ghost var was := now;
      now := now + world.elapsed(tick);
      tick := tick + 1;
      LaterIsReached(Machine(), origin, book.Contents(), was, now, job);
    }

    /** `harvestListingLead`, its error caught. */
    method VisitNext(ghost hand: Daemon.Job) returns (outcome: Outcome, ghost v: Visited, ghost next: Daemon.Job)
      requires Ready() && Tracked(hand) && hand.Harvest? && hand.k == account && hand.batch < c.sendMax
      modifies this`tick, this`now, this`trace, db, book
      ensures Ready() && trace == old(trace) + [v] && v.outcome == outcome
      ensures Tracked(next) && next == JobAfter(outcome, account, hand.batch, hand.total)
    {
      ghost var before, fleet := db.Snapshot(), book.Contents();
      Holder(hand);
      var offer := world.visit(tick, db.Snapshot());
      outcome := VisitListing(db, book, account, now, rules, offer, immediate);
      v := Visited(before, offer, outcome, db.Snapshot());
      HappenedOneMore(rules, immediate, start, trace, v);
      trace := trace + [v];
      next := JobAfter(outcome, account, hand.batch, hand.total);
      ChargedIsTracked(before, offer, fleet, hand.batch, hand.total);
      Wait(next);
    }

    lemma ChargedIsTracked(before: Db, offer: Offer, fleet: Fleet, batch: nat, total: nat)
      requires batch < c.sendMax && OfferFits(before, offer) && account in fleet.accounts
      requires Daemon.Reaches(Machine(), origin, At(fleet, now, Daemon.Harvest(account, batch, total)))
      requires book.Contents() == ChargedBy(rules, before, offer, immediate, fleet, account, now)
      ensures Tracked(JobAfter(Visit(rules, before, offer, immediate).outcome, account, batch, total))
    {
      var now, outcome := now, Visit(rules, before, offer, immediate).outcome;
      if WritesTo(rules, before, offer, immediate) {
        ChargeIsReached(Machine(), fleet, now, account, batch, total, outcome);
        Daemon.ReachesFarther(Machine(), origin, At(fleet, now, Daemon.Harvest(account, batch, total)),
          At(Charged(fleet, account, outcome, now), now, JobAfter(outcome, account, batch, total)));
      } else {
        NothingWithoutASend(rules, before, offer, immediate);
      }
    }

    /** One more listing of a batch that nothing has stopped. */
    method VisitInBatch(ghost batch: seq<Visited>, ghost hand: Daemon.Job, ghost front: seq<Visited>)
      returns (outcome: Outcome, ghost longer: seq<Visited>, ghost next: Daemon.Job)
      requires Ready() && trace == front + batch && IsBatch(batch, c.sendMax) && !Stops(batch, c.sendMax)
      requires Tracked(hand) && hand.Harvest? && hand.k == account && hand.batch < c.sendMax
      modifies this`tick, this`now, this`trace, db, book
      ensures Ready() && trace == front + longer && |longer| == |batch| + 1 && IsBatch(longer, c.sendMax)
      ensures (HasBlock(longer) <==> outcome.WasBlocked?)
      ensures CountSent(longer) == CountSent(batch) + if outcome.WasSent? then 1 else 0
      ensures Tracked(next) && next == JobAfter(outcome, account, hand.batch, hand.total)
    {
      ghost var v;
      outcome, v, next := VisitNext(hand);
      BatchGrows(batch, v, c.sendMax);
      JoinAgain(front, batch, v);
      longer := batch + [v];
    }

    /** The counters of the batch after an outcome. */
    static method Tally(outcome: Outcome, batchSent: nat, failed: nat)
      returns (batchSent': nat, failed': nat, blocked: bool)
      ensures batchSent' == batchSent + (if outcome.WasSent? then 1 else 0) && (blocked <==> outcome.WasBlocked?)
      ensures failed' == failed + if outcome.WasFailed? then 1 else 0
    {
      batchSent', failed', blocked := batchSent, failed, false;
      match outcome {
        case WasSent => batchSent' := batchSent + 1;
        case WasFailed => failed' := failed + 1;
        case WasBlocked(_) => blocked := true;
        case _ =>
      }
    }

    /** One turn of the loop over the listings. */
    method VisitAndTally(ghost batch: seq<Visited>, batchSent: nat, failed: nat, ghost hand: Daemon.Job,
                         ghost front: seq<Visited>)
      returns (batchSent': nat, failed': nat, blocked: bool, ghost longer: seq<Visited>, ghost next: Daemon.Job)
      requires Ready() && trace == front + batch && IsBatch(batch, c.sendMax) && !HasBlock(batch)
      requires batchSent == CountSent(batch) < c.sendMax
      requires Tracked(hand) && hand == Daemon.Harvest(account, batchSent, sent + batchSent)
      modifies this`tick, this`now, this`trace, db, book
      ensures Ready() && trace == front + longer && |longer| == |batch| + 1 && IsBatch(longer, c.sendMax)
      ensures batchSent' == CountSent(longer) && (blocked <==> HasBlock(longer))
      ensures Tracked(next)
      ensures next == if blocked then Daemon.Idle else Daemon.Harvest(account, batchSent', sent + batchSent')
    {
      var outcome;
      outcome, longer, next := VisitInBatch(batch, hand, front);
      batchSent', failed', blocked := Tally(outcome, batchSent, failed);
    }

    /** The loop of `harvestListings`: it stops at the first block and at the cap, no earlier. With immediate sending
        switched off nothing is sent, so the cap is never reached. */
    method HarvestListings(count: nat)
      returns (batchSent: nat, failed: nat, blocked: bool, ghost batch: seq<Visited>, ghost hand: Daemon.Job)
      requires Ready() && Tracked(Daemon.Harvest(account, 0, sent))
      modifies this`tick, this`now, this`trace, db, book
      ensures Ready() && trace == old(trace) + batch
      ensures |batch| <= BatchSize(count, c.perPageCap)
      ensures (|batch| == BatchSize(count, c.perPageCap) || Stops(batch, c.sendMax))
      ensures IsBatch(batch, c.sendMax) && batchSent == CountSent(batch) && (blocked <==> HasBlock(batch))
      ensures Tracked(hand)
      ensures hand == if blocked then Daemon.Idle else Daemon.Harvest(account, batchSent, sent + batchSent)
    {
      var size := BatchSize(count, c.perPageCap);
      batchSent, failed, blocked, batch := 0, 0, false, [];
      hand := Daemon.Harvest(account, 0, sent);
      var index := 0;
      while index < size
        invariant Ready() && trace == old(trace) + batch && index == |batch| <= size
        invariant IsBatch(batch, c.sendMax) && batchSent == CountSent(batch) && (blocked <==> HasBlock(batch))
        invariant Tracked(hand)
        invariant hand == if blocked then Daemon.Idle else Daemon.Harvest(account, batchSent, sent + batchSent)
      {
        if blocked {
          break;
        }
        if batchSent >= c.sendMax {
          break;
        }
        batchSent, failed, blocked, batch, hand := VisitAndTally(batch, batchSent, failed, hand, old(trace));
        index := index + 1;
      }
    }

    /** Between two pages: the report counts the sends of all visits, and a run may go on. */
    ghost predicate MayGoOn()
      reads this`trace, this`sent, db
    {
      Ready() && sent == CountSent(trace) < c.sendMax && !LastBlocked(trace)
    }

    /** After a run: `cut` tells whether a block or the cap ended it. */
    ghost predicate RunOver(cut: bool)
      reads this`trace, this`sent, db
    {
      Ready() && sent == CountSent(trace) <= 2 * c.sendMax - 1 && (cut <==> sent >= c.sendMax || LastBlocked(trace))
    }

    /** The job in hand after a run: none if a block has ended it. */
    ghost predicate Holding(hand: Daemon.Job)
      reads this`trace, this`sent, this`account
    {
      if LastBlocked(trace) then hand == Daemon.Idle else hand.Harvest? && hand.k == account && hand.total == sent
    }

    /** The listings of one page, added to the report. */
    method HarvestPage(count: nat) returns (cut: bool, ghost hand: Daemon.Job)
      requires MayGoOn() && Tracked(Daemon.Harvest(account, 0, sent))
      modifies this`tick, this`now, this`sent, this`sendFailed, this`trace, db, book
      ensures RunOver(cut) && old(trace) <= trace
      ensures Tracked(hand) && Holding(hand) && (!cut ==> hand == Daemon.Harvest(account, 0, sent))
    {
      ghost var batch;
      var batchSent, failed, blocked;
      batchSent, failed, blocked, batch, hand := HarvestListings(count);
      JoinBatch(old(trace), batch, c.sendMax);
      sent, sendFailed := sent + batchSent, sendFailed + failed;
      cut := blocked || (sent > 0 && sent >= c.sendMax);
      if !cut {
        NextPageIsTracked(hand);
        hand := Daemon.Harvest(account, 0, sent);
      }
    }

    lemma NextPageIsTracked(hand: Daemon.Job)
      requires Tracked(hand) && hand.Harvest? && hand.k == account && hand.total == sent < c.sendMax
      ensures Tracked(Daemon.Harvest(account, 0, sent))
    {
      Holder(hand);
      OnTrack(hand, book.Contents(), Daemon.NextPage, Daemon.Harvest(account, 0, sent));
    }

    /** The next page of a run: its screen, its listings, and the end of the run if it ends there. */
    method NextPage(market: string, startPage: int, visited: seq<int>, ghost screens: seq<Screen>)
      returns (end: Option<RunEnd>, farther: seq<int>, ghost seen: seq<Screen>, ghost hand: Daemon.Job)
      requires MayGoOn() && RunsOn(world, market, startPage, c, screens, visited) && HasNext(startPage, c, |visited|)
      requires Tracked(Daemon.Harvest(account, 0, sent))
      modifies this`tick, this`now, this`sent, this`sendFailed, this`trace, db, book
      ensures old(trace) <= trace
      ensures end.None? ==>
        MayGoOn() && RunsOn(world, market, startPage, c, seen, farther) && |farther| == |visited| + 1
      ensures end.Some? ==>
        RunOver(end.value.cut) && RanWell(startPage, c, seen, end.value) && AllShown(world, market, startPage, seen)
      ensures Tracked(hand) && Holding(hand)
      ensures ((end.Some? ==> !end.value.cut) ==> hand == Daemon.Harvest(account, 0, sent))
    {
      var p := startPage + |visited|;
      var screen := world.page(tick, market, p);
      PageShown(world, market, startPage, c, screens, visited, p, screen, tick);
      seen, farther := screens + [screen], visited;
      hand := Daemon.Harvest(account, 0, sent);
      Wait(hand);
      if !screen.Loaded? {
        end := Some(RunEnd(visited, Some(screen), false));
      } else if screen.count == 0 {
        end := Some(RunEnd(visited, None, false));
      } else {
        farther := visited + [p];
        var cut;
        cut, hand := HarvestPage(screen.count);
        end := if cut then Some(RunEnd(farther, None, true)) else None;
      }
    }

    /** The page loop of `harvestSingleMarket`. */
    method WalkPages(market: string, startPage: int)
      returns (end: RunEnd, ghost screens: seq<Screen>, ghost hand: Daemon.Job)
      requires MayGoOn() && startPage >= 1 && Tracked(Daemon.Harvest(account, 0, sent))
      modifies this`tick, this`now, this`sent, this`sendFailed, this`trace, db, book
      ensures RunOver(end.cut) && old(trace) <= trace
      ensures RanWell(startPage, c, screens, end) && AllShown(world, market, startPage, screens)
      ensures Tracked(hand) && Holding(hand) && (!end.cut ==> hand == Daemon.Harvest(account, 0, sent))
    {
      hand := Daemon.Harvest(account, 0, sent);
      var visited: seq<int> := [];
      screens := [];
      var p := startPage;
      while p < startPage + c.pagesPerRun && p <= c.maxPage
        invariant MayGoOn() && old(trace) <= trace && Tracked(hand) && hand == Daemon.Harvest(account, 0, sent)
        invariant p == startPage + |visited| && RunsOn(world, market, startPage, c, screens, visited)
        decreases c.maxPage - p
      {
        var over;
        over, visited, screens, hand := NextPage(market, startPage, visited, screens);
        if over.Some? {
          return over.value, screens, hand;
        }
        p := p + 1;
      }
      end := RunEnd(visited, None, false);
    }

    /** `harvestSingleMarket`: the cursor is written unless a page made the run fail. */
    method HarvestSingleMarket(market: string) returns (end: RunEnd, ghost screens: seq<Screen>, ghost hand: Daemon.Job)
      requires MayGoOn() && Tracked(Daemon.Harvest(account, 0, sent))
      modifies this`tick, this`now, this`sent, this`sendFailed, this`trace, db, book, state
      ensures RunOver(end.cut) && old(trace) <= trace
      ensures RanWell(NextStart(c, old(PageOf(state.rows, market))), c, screens, end)
      ensures AllShown(world, market, NextStart(c, old(PageOf(state.rows, market))), screens)
      ensures Moves(old(PageOf(state.rows, market)), c, end, PageOf(state.rows, market))
      ensures end.failure.Some? ==> state.rows == old(state.rows)
      ensures forall other :: other != market ==> PageOf(state.rows, other) == old(PageOf(state.rows, other))
      ensures Tracked(hand) && Holding(hand) && (!end.cut ==> hand == Daemon.Harvest(account, 0, sent))
    {
      var startPage := state.GetHarvestSearchPage(market);
      if startPage > c.maxPage {
        startPage := 1;
      }
      end, screens, hand := WalkPages(market, startPage);
      if end.failure.Some? {
        return;
      }
      if |end.visited| == 0 {
        state.SetHarvestSearchPage(market, 1);
      } else {
        var nextPage := startPage + |end.visited|;
        var wrapped := if nextPage > c.maxPage then 1 else nextPage;
        state.SetHarvestSearchPage(market, wrapped);
      }
    }

    lemma OnTrack(job: Daemon.Job, fleet: Fleet, e: Daemon.Event, next: Daemon.Job)
      requires Daemon.Reaches(Machine(), origin, At(fleet, now, job))
      requires Daemon.StepOf(Machine(), At(fleet, now, job), e, At(book.Contents(), now, next))
      ensures Tracked(next)
    {
      Daemon.ReachesNext(Machine(), origin, At(fleet, now, job), e, At(book.Contents(), now, next));
    }

    /** The picked account takes over, unless its market is unknown or its session cannot be opened. */
    method OpenAccount(k: AccountId, ghost excluded: set<AccountId>) returns (market: Option<string>)
      requires Tracked(Daemon.Between(true, sent)) && k in book.accounts
      requires IsPick(autoLogin, book.Contents(), now, excluded, Some(k))
      modifies this`account, this`tick, this`now, book
      ensures Tracked(if market.Some? then Daemon.Harvest(k, 0, sent) else Daemon.Between(true, sent)) && account == k
    {
      account := k;
      OnTrack(Daemon.Between(true, sent), book.Contents(), Daemon.Pick(k, excluded), Daemon.Harvest(k, 0, sent));
      market := world.market(book.accounts[k].market);
      if market.None? {
        LetGo(k);
        return;
      }
      var usable := OpenSession(k);
      if !usable {
        market := None;
      }
    }

    lemma LetGo(k: AccountId)
      requires Tracked(Daemon.Harvest(k, 0, sent))
      ensures Tracked(Daemon.Between(true, sent))
    {
      Holder(Daemon.Harvest(k, 0, sent));
      OnTrack(Daemon.Harvest(k, 0, sent), book.Contents(), Daemon.Release, Daemon.Between(true, sent));
    }

    /** `openAccountBrowserSessionWithLogin`. */
    method OpenSession(k: AccountId) returns (usable: bool)
      requires Tracked(Daemon.Harvest(k, 0, sent))
      modifies this`tick, this`now, book
      ensures Tracked(if usable then Daemon.Harvest(k, 0, sent) else Daemon.Between(true, sent))
    {
      Holder(Daemon.Harvest(k, 0, sent));
      var session := world.session(tick);
      usable := !session.Lost?;
      match session
      case StillValid =>
      case LoggedIn(path) =>
        ghost var fleet := book.Contents();
        book.MarkSessionActive(k, path);
        OnTrack(Daemon.Harvest(k, 0, sent), fleet, Daemon.Login(path), Daemon.Harvest(k, 0, sent));
      case Lost =>
        Alert(k);
        LoseSession(k);
    }

    /** A manual remediation is asked for, unless that was done shortly before. */
    method Alert(k: AccountId)
      requires Tracked(Daemon.Harvest(k, 0, sent))
      modifies this`tick, this`now, book
      ensures Tracked(Daemon.Harvest(k, 0, sent))
    {
      Holder(Daemon.Harvest(k, 0, sent));
      if world.alerts(tick) {
        ghost var fleet := book.Contents();
        book.Remediate(k);
        OnTrack(Daemon.Harvest(k, 0, sent), fleet, Daemon.Remediate, Daemon.Harvest(k, 0, sent));
      }
      Wait(Daemon.Harvest(k, 0, sent));
    }

    method LoseSession(k: AccountId)
      requires Tracked(Daemon.Harvest(k, 0, sent))
      modifies book
      ensures Tracked(Daemon.Between(true, sent))
    {
      Holder(Daemon.Harvest(k, 0, sent));
      ghost var fleet := book.Contents();
      book.MarkSessionInvalid(k);
      OnTrack(Daemon.Harvest(k, 0, sent), fleet, Daemon.Quarantine, Daemon.Between(true, sent));
    }

    method BlockSearch(k: AccountId)
      requires Tracked(Daemon.Harvest(k, 0, sent))
      modifies book
      ensures Tracked(Daemon.Between(true, sent))
    {
      Holder(Daemon.Harvest(k, 0, sent));
      ghost var fleet := book.Contents();
      book.HandleAccountBlock(k, OtherBlock, now);
      OnTrack(Daemon.Harvest(k, 0, sent), fleet, Daemon.SearchBlocked(OtherBlock), Daemon.Between(true, sent));
    }

    /** What a failed run does to its account, before the next one is picked. */
    method GiveUp(k: AccountId, failure: Screen)
      requires Tracked(Daemon.Harvest(k, 0, sent)) && !failure.Loaded?
      modifies this`tick, this`now, book
      ensures Tracked(Daemon.Between(true, sent))
    {
      match failure
      case Captcha =>
        Alert(k);
        LetGo(k);
      case NetworkBlock => BlockSearch(k);
      case LoggedOut =>
        Alert(k);
        LoseSession(k);
    }

    /** The turn of a picked account; no market means that no run began. */
    method TakeTurn(k: AccountId, ghost excluded: set<AccountId>)
      returns (market: Option<string>, end: RunEnd, ghost screens: seq<Screen>, ghost hand: Daemon.Job)
      requires MayGoOn() && Tracked(Daemon.Between(true, sent)) && k in book.accounts
      requires IsPick(autoLogin, book.Contents(), now, excluded, Some(k))
      modifies this`account, this`tick, this`now, this`sent, this`sendFailed, this`trace, db, book, state
      ensures RunOver(market.Some? && end.cut) && Tracked(hand)
      ensures if market.Some? && end.failure.None? then Holding(hand)
        else MayGoOn() && hand == Daemon.Between(true, sent)
      ensures market.None? ==> state.rows == old(state.rows)
      ensures market.Some? ==> RanAndMoved(c, market.value, old(state.rows), state.rows, screens, end)
    {
      end, screens, hand := RunEnd([], None, false), [], Daemon.Between(true, sent);
      market := OpenAccount(k, excluded);
      if market.Some? {
        end, screens, hand := HarvestSingleMarket(market.value);
        if end.failure.Some? {
          GiveUp(k, end.failure.value);
          hand := Daemon.Between(true, sent);
        }
      }
    }

    /** The account loop of `runHarvest`. Each account has one turn at most; the first harvest that gets through ends
        the loop and alone writes its cursor, and else every account that could be picked has had its turn. However the
        accounts rotate, the sends counted stay below twice the cap. The messages put on record are those and the
        refused deliveries, and so they stay below twice the cap exactly if the refused deliveries leave room. What
        becomes of the accounts is a run of the daemon. */
    method HarvestWithRotation()
      returns (turns: seq<AccountId>, markets: seq<string>, ends: seq<RunEnd>, ghost hand: Daemon.Job)
      requires MayGoOn() && Tracked(Daemon.Between(true, sent))
      modifies this`account, this`tick, this`now, this`sent, this`sendFailed, this`trace, db, book, state
      ensures Ready() && sent == CountSent(trace) <= 2 * c.sendMax - 1
      ensures Tracked(hand) && if GotThrough(ends) then Holding(hand) else hand == Daemon.Between(true, sent)
      ensures Daemon.Tame(Machine(), origin) ==> Daemon.Tame(Machine(), At(book.Contents(), now, hand))
      ensures Taken(turns, origin.fleet.accounts.Keys) && |ends| <= |turns|
      ensures !GotThrough(ends) ==> forall k :: k in PickableIds(autoLogin, book.Contents(), now) ==> k in turns
      ensures Rotated(old(state.rows), markets, c, ends)
      ensures OneCursorMoved(old(state.rows), state.rows, markets, c, ends)
      ensures CountCold(db.messages) == CountCold(start.messages) + sent + CountRefused(rules, immediate, trace)
      ensures CountCold(db.messages) - CountCold(start.messages) <= 2 * c.sendMax - 1
         <==> CountRefused(rules, immediate, trace) <= 2 * c.sendMax - 1 - sent
    {
      turns, markets, ends, hand := TakeTurns();
      BoundsHold(hand);
      RecordedIsCountedOrRefused(rules, immediate, start, trace, db.Snapshot());
    }

    method TakeTurns() returns (turns: seq<AccountId>, markets: seq<string>, ends: seq<RunEnd>, ghost hand: Daemon.Job)
      requires MayGoOn() && Tracked(Daemon.Between(true, sent))
      modifies this`account, this`tick, this`now, this`sent, this`sendFailed, this`trace, db, book, state
      ensures Ready() && sent == CountSent(trace) <= 2 * c.sendMax - 1
      ensures Tracked(hand) && if GotThrough(ends) then Holding(hand) else hand == Daemon.Between(true, sent)
      ensures Taken(turns, origin.fleet.accounts.Keys) && |ends| <= |turns|
      ensures !GotThrough(ends) ==> forall k :: k in PickableIds(autoLogin, book.Contents(), now) ==> k in turns
      ensures Rotated(old(state.rows), markets, c, ends)
      ensures OneCursorMoved(old(state.rows), state.rows, markets, c, ends)
    {
      turns, markets, ends, hand := [], [], [], Daemon.Between(true, sent);
      var excluded: set<AccountId> := {};
      while true
        invariant MayGoOn() && Tracked(hand) && hand == Daemon.Between(true, sent) && state.rows == old(state.rows)
        invariant Taken(turns, origin.fleet.accounts.Keys) && |ends| <= |turns| && excluded == Ids(turns)
        invariant Rotated(old(state.rows), markets, c, ends) && !GotThrough(ends)
        decreases |origin.fleet.accounts.Keys - excluded|
      {
        Holder(hand);
        var picked := book.PickNextAccount(autoLogin, now, excluded);
        if picked.None? {
          return;
        }
        ghost var screens;
        var market, end;
        market, end, screens, hand := TakeTurn(picked.value, excluded);
        OneMoreTaken(turns, picked.value, origin.fleet.accounts.Keys);
        turns, excluded := turns + [picked.value], excluded + {picked.value};
        if market.Some? {
          RotatedOneMore(old(state.rows), state.rows, markets, c, ends, market.value, screens, end);
          markets, ends := markets + [market.value], ends + [end];
          if end.failure.None? {
            return;
          }
        }
      }
    }
  }

  function Ids(turns: seq<AccountId>): set<AccountId> { set k | k in turns }

  /** Every account has had one turn at most. */
  predicate Taken(turns: seq<AccountId>, accounts: set<AccountId>) {
    Ids(turns) <= accounts && forall i, j :: 0 <= i < j < |turns| ==> turns[i] != turns[j]
  }

  lemma OneMoreTaken(turns: seq<AccountId>, k: AccountId, accounts: set<AccountId>)
    requires Taken(turns, accounts) && k in accounts && k !in Ids(turns)
    ensures Taken(turns + [k], accounts) && Ids(turns + [k]) == Ids(turns) + {k}
    ensures |accounts - (Ids(turns) + {k})| < |accounts - Ids(turns)|
  {
    assert accounts - Ids(turns) == (accounts - (Ids(turns) + {k})) + {k};
  }

  /** A run from the stored cursor of its market, which alone moves, and only if the run got through. */
  ghost predicate RanAndMoved(c: Config, market: string, before: map<string, string>, after: map<string, string>,
                              screens: seq<Screen>, end: RunEnd) {
    && RanWell(NextStart(c, PageOf(before, market)), c, screens, end)
    && Moves(PageOf(before, market), c, end, PageOf(after, market))
    && (end.failure.Some? ==> after == before)
    && forall other :: other != market ==> PageOf(after, other) == PageOf(before, other)
  }

  /** One run after the other, each from the cursor stored for its market; all but the last failed. */
  ghost predicate Rotated(rows: map<string, string>, markets: seq<string>, c: Config, ends: seq<RunEnd>) {
    && |ends| == |markets|
    && (forall i :: 0 <= i < |ends| ==> RanFrom(c, PageOf(rows, markets[i]), ends[i]))
    && (forall i :: 0 <= i < |ends| - 1 ==> ends[i].failure.Some?)
  }

  predicate GotThrough(ends: seq<RunEnd>) { ends != [] && ends[|ends| - 1].failure.None? }

  /** The harvest that got through moved its market's cursor; no other cursor was touched. */
  ghost predicate OneCursorMoved(before: map<string, string>, after: map<string, string>, markets: seq<string>,
                                 c: Config, ends: seq<RunEnd>)
    requires |ends| == |markets|
  {
    forall market ::
      if GotThrough(ends) && market == markets[|ends| - 1] then Moves(PageOf(before, market), c, ends[|ends| - 1],
          PageOf(after, market))
      else PageOf(after, market) == PageOf(before, market)
  }

  lemma RotatedOneMore(before: map<string, string>, after: map<string, string>, markets: seq<string>, c: Config,
                       ends: seq<RunEnd>,
                       market: string, screens: seq<Screen>, end: RunEnd)
    requires Rotated(before, markets, c, ends) && !GotThrough(ends)
    requires RanAndMoved(c, market, before, after, screens, end)
    ensures Rotated(before, markets + [market], c, ends + [end]) && (GotThrough(ends + [end]) <==> end.failure.None?)
    ensures OneCursorMoved(before, after, markets + [market], c, ends + [end])
  {
    var more, places := ends + [end], markets + [market];
    assert RanFrom(c, PageOf(before, market), end);
    assert forall i :: 0 <= i < |ends| ==> more[i] == ends[i] && places[i] == markets[i];
  }

  // ---------- the same market, run after run ----------

  /** Every page of the market has listings, at any time. */
  ghost predicate AllOpen(w: World, market: string, c: Config) {
    forall t: nat, p: int :: 1 <= p <= c.maxPage ==> HasListings(w.page(t, market, p))
  }

  lemma OpenRunIsFull(w: World, market: string, c: Config, cursor: int, screens: seq<Screen>, end: RunEnd)
    requires AllOpen(w, market, c) && cursor >= 1 && !end.cut
    requires RanWell(NextStart(c, cursor), c, screens, end) && AllShown(w, market, NextStart(c, cursor), screens)
    ensures Undisturbed(c, NextStart(c, cursor), end)
  {
    var start := NextStart(c, cursor);
    forall i | 0 <= i < |screens|
      ensures HasListings(screens[i])
    {
      assert Shown(w, market, start + i, screens[i]);
      var p := start + i;
      var t: nat :| w.page(t, market, p) == screens[i];
    }
    UncutRunsAreFull(start, c, screens, end);
  }

  /** One job on one market, in the hands of an account. */
  method HarvestOnce(db: Database, book: Book, k: AccountId, state: SystemState, rules: Rules, world: World,
                     immediate: bool,
                     c: Config, market: string)
    returns (end: RunEnd)
    requires db.Valid() && c.sendMax >= 1 && Honest(world) && k in book.accounts
    modifies db, book, state
    ensures db.Valid() && book.accounts.Keys == old(book.accounts.Keys)
    ensures Link(c, old(PageOf(state.rows, market)), end, PageOf(state.rows, market))
    ensures AllOpen(world, market, c) && !end.cut ==> Undisturbed(c, NextStart(c, old(PageOf(state.rows, market))), end)
  {
    ghost var screens, hand;
    ghost var before := PageOf(state.rows, market);
    var job := new Harvest(db, book, Some(k), state, rules, world, immediate, false, 0, c);
    end, screens, hand := job.HarvestSingleMarket(market);
    job.Holder(hand);
    if AllOpen(world, market, c) && !end.cut {
      OpenRunIsFull(world, market, c, before, screens, end);
    }
  }

  /** Harvests of one market, one job after the other on the same stored cursor and the same tables: the runs form a
      chain from the cursor that was stored at first to the one that is stored at last. */
  method HarvestChain(db: Database, book: Book, k: AccountId, state: SystemState, rules: Rules, worlds: seq<World>,
                      immediate: bool,
                      c: Config, market: string)
    returns (ends: seq<RunEnd>, ghost cursors: seq<int>)
    requires db.Valid() && c.sendMax >= 1 && k in book.accounts && forall i :: 0 <= i < |worlds| ==> Honest(worlds[i])
    modifies db, book, state
    ensures db.Valid() && |ends| == |worlds| && Chain(c, cursors, ends)
    ensures cursors[0] == old(PageOf(state.rows, market)) && cursors[|ends|] == PageOf(state.rows, market)
    ensures forall i :: 0 <= i < |ends| && AllOpen(worlds[i], market, c) && !ends[i].cut ==>
      Undisturbed(c, NextStart(c, cursors[i]), ends[i])
  {
    ends, cursors := [], [PageOf(state.rows, market)];
    while |ends| < |worlds|
      invariant db.Valid() && |ends| <= |worlds| && Chain(c, cursors, ends) && k in book.accounts
      invariant cursors[0] == old(PageOf(state.rows, market)) && cursors[|ends|] == PageOf(state.rows, market)
      invariant forall i :: 0 <= i < |ends| && AllOpen(worlds[i], market, c) && !ends[i].cut ==>
        Undisturbed(c, NextStart(c, cursors[i]), ends[i])
    {
      var end := HarvestOnce(db, book, k, state, rules, worlds[|ends|], immediate, c, market);
      ChainOneMore(c, cursors, ends, end, PageOf(state.rows, market));
      ends, cursors := ends + [end], cursors + [PageOf(state.rows, market)];
    }
  }

  /** The sweep of a market over any number of jobs, whatever cursor was stored at first. Between two resets of the
      cursor the finished jobs go through exactly the pages between where the first of them started and where the cursor
      now stands, each once and in order. And when every page has listings and nothing is cut, the rounded-up number of
      jobs goes through the rest of the market and leaves the first page stored, not earlier. */
  method HarvestAgainAndAgain(db: Database, book: Book, k: AccountId, state: SystemState, rules: Rules,
                              worlds: seq<World>,
                              immediate: bool, c: Config, market: string)
    returns (ends: seq<RunEnd>, ghost cursors: seq<int>)
    requires db.Valid() && c.sendMax >= 1 && c.maxPage >= 1 && k in book.accounts
    requires forall i :: 0 <= i < |worlds| ==> Honest(worlds[i])
    modifies db, book, state
    ensures db.Valid() && |ends| == |worlds| && |cursors| == |ends| + 1
    ensures cursors[0] == old(PageOf(state.rows, market)) && cursors[|ends|] == PageOf(state.rows, market)
    ensures forall j :: 0 <= j <= |ends| ==> cursors[j] >= 1 && (cursors[j] == cursors[0] || cursors[j] <= c.maxPage)
    ensures forall i, j :: 0 <= i <= j <= |ends| && NoReset(cursors, ends, i, j) ==>
      NextStart(c, cursors[i]) <= NextStart(c, cursors[j]) &&
      Swept(ends, i, j) == PagesFrom(NextStart(c, cursors[i]), NextStart(c, cursors[j]) - NextStart(c, cursors[i]))
    ensures c.pagesPerRun >= 1 && |worlds| == RunsFor(c.maxPage + 1 - NextStart(c, cursors[0]), c.pagesPerRun)
      && (forall i :: 0 <= i < |worlds| ==> AllOpen(worlds[i], market, c) && !ends[i].cut)
      ==> Swept(ends, 0, |ends|) == PagesFrom(NextStart(c, cursors[0]), c.maxPage + 1 - NextStart(c, cursors[0]))
          && PageOf(state.rows, market) == 1 && forall k :: 0 < k < |ends| ==> cursors[k] != 1
  {
    ends, cursors := HarvestChain(db, book, k, state, rules, worlds, immediate, c, market);
    SkipsNothing(c, cursors, ends);
    if c.pagesPerRun >= 1 && |worlds| == RunsFor(c.maxPage + 1 - NextStart(c, cursors[0]), c.pagesPerRun)
      && (forall i :: 0 <= i < |worlds| ==> AllOpen(worlds[i], market, c) && !ends[i].cut) {
      RestOfSweep(c, cursors, ends, |ends|);
    }
  }

  lemma JoinAgain(front: seq<Visited>, batch: seq<Visited>, v: Visited)
    ensures front + batch + [v] == front + (batch + [v])
  {
  }

  predicate LastBlocked(trace: seq<Visited>) {
    trace != [] && trace[|trace| - 1].outcome.WasBlocked?
  }

  lemma JoinBatch(more: seq<Visited>, batch: seq<Visited>, sendMax: int)
    requires IsBatch(batch, sendMax) && !LastBlocked(more)
    ensures CountSent(more + batch) == CountSent(more) + CountSent(batch)
    ensures LastBlocked(more + batch) <==> HasBlock(batch)
  {
    CountSentConcat(more, batch);
  }

  ghost predicate AllShown(w: World, market: string, start: int, screens: seq<Screen>) {
    forall i :: 0 <= i < |screens| ==> Shown(w, market, start + i, screens[i])
  }

  /** A run that has gone through these pages and is not over yet. */
  ghost predicate RunsOn(w: World, market: string, start: int, c: Config, screens: seq<Screen>, visited: seq<int>) {
    && visited == PagesFrom(start, |visited|) && |screens| == |visited| && AllShown(w, market, start, screens)
    && (|visited| > 0 ==> start + |visited| <= c.maxPage + 1 && |visited| <= c.pagesPerRun)
    && forall i :: 0 <= i < |screens| ==> HasListings(screens[i])
  }

  /** The next page shows its screen: the run goes on through it, or ends here. */
  lemma PageShown(w: World, market: string, start: int, c: Config, screens: seq<Screen>, visited: seq<int>, p: int,
                  screen: Screen, t: nat)
    requires RunsOn(w, market, start, c, screens, visited) && HasNext(start, c, |visited|)
    requires p == start + |visited| && screen == w.page(t, market, p)
    ensures AllShown(w, market, start, screens + [screen])
    ensures HasListings(screen) ==> RunsOn(w, market, start, c, screens + [screen], visited + [p])
    ensures !HasListings(screen) ==>
      RanWell(start, c, screens + [screen], RunEnd(visited, if screen.Loaded? then None else Some(screen), false))
  {
    assert Shown(w, market, p, screen);
    assert visited + [p] == PagesFrom(start, |visited| + 1);
  }
}
