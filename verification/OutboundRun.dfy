/** The outbound job: accounts in rotation, each sending a wave, until no lead or no account is left. The clock stands
    still for the length of the run. */
module OutboundRun {
  import opened Records
  import opened Gate
  import opened Writes
  import opened Sending
  import opened Texts
  import opened Deliveries
  import opened Accounts
  import opened Progress
  import opened Store
  import opened SendMethods
  import opened AccountBook
  import opened RotationTrace
  import Daemon

  datatype WaveEnd = WaveFull | NoMoreLeads | AccountBlocked | FailureCap | SendThrew

  datatype Stop = NoLeads | NoAccount | Crashed

  /** What the run cannot decide itself, step by step: the answers of the lead queries, the state of a session and
      what a send meets. */
  datatype World = World(
    more: (nat, Db, set<LeadId>) -> bool,
    next: (nat, Db, set<LeadId>, AccountId) -> Option<LeadId>,
    session: nat -> Session,
    job: (nat, Db, LeadId) -> Job)

  function BlockOf(outcome: Outcome): Option<BlockType> {
    if outcome.WasBlocked? then Some(outcome.block) else None
  }

  /** A lead the queries may return: not excluded and in a status that has a phase. */
  predicate Open(d: Db, excluded: set<LeadId>, id: LeadId) {
    id in d.leads && id !in excluded && PhaseForStatus(d.leads[id].status).Some?
  }

  ghost predicate Honest(w: World) {
    && (forall t: nat, d: Db, ex: set<LeadId>, k: AccountId :: w.next(t, d, ex, k).Some? ==>
      Open(d, ex, w.next(t, d, ex, k).value))
    && (forall t: nat, d: Db, id: LeadId :: id in d.leads ==>
      JobFits(d, id, d.leads[id].status.LeadDiscovered?, w.job(t, d, id)))
  }

  /** The test of the wave loop after `n` sends: both limits lie above, and with NaN no comparison holds. */
  predicate GoesOn(n: nat, configured: Option<string>) {
    n < MSGS_PER_WAVE && (configured.Some? ==> ParseInt(configured.value).Some? && n < ParseInt(configured.value).value)
  }

  /** The cap on sends of one wave: at most a wave's length. A text that is no number gives NaN, of which no number of
      sends is below: like a cap of zero. */
  function WaveCap(configured: Option<string>): (cap: int)
    ensures cap <= MSGS_PER_WAVE
    ensures forall n: nat :: n < cap <==> GoesOn(n, configured)
  {
    match configured
    case None => MSGS_PER_WAVE
    case Some(text) => if ParseInt(text).None? then 0 else Least(MSGS_PER_WAVE, ParseInt(text).value)
  }

  class Rotation {
    const db: Database
    const book: Book
    const rules: Rules
    const world: World
    const autoLogin: bool
    const now: Time
    const maxSends: int
    const maxFailures: int
    ghost const start: Db

    var excludedLeads: set<LeadId>
    var excludedAccounts: set<AccountId>
    var tick: nat
    var sent: nat
    var rotations: nat
    var wavesCompleted: nat
    ghost var log: seq<Write>

    /** Messages that reached their hosts, and those of them that no counter saw. */
    ghost var posts: nat
    ghost var vain: nat

    /** `configured` is the text of `OUTBOUND_MAX_SENDS`, if it is set. */
    constructor (db: Database, book: Book, rules: Rules, world: World, autoLogin: bool, now: Time,
                 configured: Option<string>, maxFailures: int)
      requires db.Valid() && Honest(world)
      ensures Ready() && this.db == db && this.book == book && this.now == now && this.autoLogin == autoLogin
      ensures maxSends == WaveCap(configured) && start == db.Snapshot()
      ensures excludedLeads == {} && excludedAccounts == {} && sent == 0 && rotations == 0
    {
      this.db, this.book, this.rules, this.world := db, book, rules, world;
      this.autoLogin, this.now, this.maxFailures := autoLogin, now, maxFailures;
      maxSends := WaveCap(configured);
      start := db.Snapshot();
      excludedLeads, excludedAccounts, tick, sent, rotations, wavesCompleted := {}, {}, 0, 0, 0, 0;
      log := [];
      posts, vain := 0, 0;
    }

    /** The tables are where the log of legal writes took them. */
    ghost predicate Ready()
      reads this, db
    {
      db.Valid() && Honest(world) && maxSends <= MSGS_PER_WAVE && Run(start, log) == Some(db.Snapshot())
    }

    ghost function Pool(): set<AccountId>
      reads this, book
    {
      PickableIds(autoLogin, book.Contents(), now) - excludedAccounts
    }

    ghost function Phases(): nat
      reads this, db
    {
      Potential(db.leads, excludedLeads)
    }

    /** Accounts still in play plus phases still open. */
    ghost function Measure(): nat
      reads this, db, book
    {
      |Pool()| + Phases()
    }

    /** The send itself, on the store. */
    method SendStored(id: LeadId) returns (outcome: Outcome)
      requires Ready() && Open(db.Snapshot(), excludedLeads, id)
      modifies this`tick, this`log, this`posts, this`vain, db
      ensures Ready() && old(log) <= log
      ensures Potential(db.leads, excludedLeads) <= old(Phases())
      ensures Potential(db.leads, excludedLeads + {id}) < old(Phases())
      ensures outcome.WasSent? ==> Phases() < old(Phases())
      ensures posts - old(posts) == vain - old(vain) + if outcome.WasSent? then 1 else 0
      ensures 0 <= posts - old(posts) <= (if outcome.WasSkipped? then 1 else 2)
    {
      ghost var before := db.Snapshot();
      var job := world.job(tick, db.Snapshot(), id);
      tick := tick + 1;
      outcome := SendLeadWithAccount(db, rules, id, job);
      ghost var plan := SendLead(rules, before, id, job);
      StoredSend(rules, start, log, before, id, job, excludedLeads, db.Snapshot());
      log := log + plan.log;
      posts, vain := posts + SendPosts(rules, before, id, job), vain + Vain(rules, before, id, job);
    }

    /** One lead, one account, and what the loop does with the outcome. */
    method SendOne(k: AccountId, id: LeadId, ghost f: Fleet, ghost n: nat) returns (outcome: Outcome)
      requires Ready() && k in f.accounts && Open(db.Snapshot(), excludedLeads, id)
      requires book.Contents() == AfterWave(f, k, n, None, now)
      modifies this`excludedLeads, this`tick, this`sent, this`log, this`posts, this`vain, db, book
      ensures Ready() && old(log) <= log
      ensures excludedLeads == if outcome.WasSkipped? || outcome.WasFailed? then old(excludedLeads) + {id}
        else old(excludedLeads)
      ensures sent == old(sent) + if outcome.WasSent? then 1 else 0
      ensures posts - vain - sent == old(posts - vain - sent)
      ensures 0 <= posts - old(posts) <= (if outcome.WasSkipped? then 1 else 2)
      ensures book.Contents() == AfterWave(f, k, n + (if outcome.WasSent? then 1 else 0), BlockOf(outcome), now)
      ensures Phases() <= old(Phases())
      ensures outcome.WasSent? || outcome.WasSkipped? || outcome.WasFailed? ==> Phases() < old(Phases())
    {
      OutcomeAdds(f, k, n, now);
      outcome := SendStored(id);
      match outcome
      case WasSent =>
        book.IncrementWaveProgress(k);
        sent := sent + 1;
      case WasBlocked(b) =>
        book.HandleAccountBlock(k, b, now);
      case Threw =>
      case _ =>
        excludedLeads := excludedLeads + {id};
    }

    /** One turn of the inner loop: the next lead of the account, or the reason to stop. */
    method SendNext(k: AccountId, n: nat, failures: nat, ghost trace: seq<Outcome>, ghost f: Fleet)
      returns (end: Option<WaveEnd>, n': nat, failures': nat, ghost longer: seq<Outcome>,
          ghost block: Option<BlockType>)
      requires Ready() && k in book.accounts && n < maxSends && Ongoing(trace, n, failures, maxSends, maxFailures)
      requires k in f.accounts && book.Contents() == AfterWave(f, k, n, None, now)
      modifies this`excludedLeads, this`excludedAccounts, this`tick, this`sent, this`log, this`posts, this`vain, db,
        book
      ensures Ready() && old(log) <= log && Phases() <= old(Phases())
      ensures end.None? ==> Ongoing(longer, n', failures', maxSends, maxFailures) && Phases() < old(Phases())
      ensures end.Some? ==> EndsAs(longer, n', end.value, maxSends, maxFailures) && n' == n && !end.value.WaveFull?
      ensures end == Some(FailureCap) ==> Phases() < old(Phases())
      ensures n <= n' <= n + 1 && sent == old(sent) + (n' - n)
      ensures posts - vain - sent == old(posts - vain - sent)
      ensures 0 <= posts - old(posts) <= MostPosts(longer) - MostPosts(trace)
      ensures excludedAccounts == old(excludedAccounts) + if end == Some(NoMoreLeads) then {k} else {}
      ensures block.Some? <==> end == Some(AccountBlocked)
      ensures book.Contents() == AfterWave(f, k, n', block, now)
    {
      n', failures', longer, block := n, failures, trace, None;
      var next := world.next(tick, db.Snapshot(), excludedLeads, k);
      if next.None? {
        excludedAccounts := excludedAccounts + {k};
        end := Some(NoMoreLeads);
        return;
      }
      var outcome := SendOne(k, next.value, f, n);
      end, n', failures', longer := Judge(outcome, n, failures, trace);
      block := BlockOf(outcome);
    }

    /** What the loop makes of an outcome. */
    method Judge(outcome: Outcome, n: nat, failures: nat, ghost trace: seq<Outcome>)
      returns (end: Option<WaveEnd>, n': nat, failures': nat, ghost longer: seq<Outcome>)
      requires n < maxSends && Ongoing(trace, n, failures, maxSends, maxFailures)
      ensures end.None? ==> Ongoing(longer, n', failures', maxSends, maxFailures)
      ensures end.Some? ==> EndsAs(longer, n', end.value, maxSends, maxFailures)
      ensures n' == n + (if outcome.WasSent? then 1 else 0)
      ensures MostPosts(longer) == MostPosts(trace) + if outcome.WasSkipped? then 1 else 2
      ensures outcome.WasBlocked? <==> end == Some(AccountBlocked)
      ensures outcome.Threw? <==> end == Some(SendThrew)
      ensures end == Some(FailureCap) ==> outcome.WasFailed?
      ensures end.Some? ==> !outcome.WasSent? && !end.value.WaveFull? && !end.value.NoMoreLeads?
    {
      n', failures' := n, failures;
      OneMoreOutcome(trace, outcome, n, failures, maxSends, maxFailures);
      longer := trace + [outcome];
      assert longer[..|trace|] == trace;
      match outcome {
        case WasBlocked(b) => end := Some(AccountBlocked);
        case Threw => end := Some(SendThrew);
        case WasSent =>
          n', failures' := n + 1, 0;
          end := None;
        case WasSkipped => end := None;
        case WasFailed =>
          failures' := failures + 1;
          end := if failures' >= maxFailures then Some(FailureCap) else None;
      }
    }

    /** The wave of one account: it goes on until an outcome stops it, the cap is reached or no lead is left. */
    method SendWave(k: AccountId)
      returns (end: WaveEnd, n: nat, ghost trace: seq<Outcome>, ghost block: Option<BlockType>)
      requires Ready() && k in book.accounts
      modifies this`excludedLeads, this`excludedAccounts, this`tick, this`sent, this`log, this`posts, this`vain, db,
        book
      ensures Ready() && old(log) <= log && Phases() <= old(Phases())
      ensures EndsAs(trace, n, end, maxSends, maxFailures)
      ensures posts - vain - sent == old(posts - vain - sent)
      ensures 0 <= posts - old(posts) <= MostOfAWave(n, maxFailures) + Skipped(trace)
      ensures sent == old(sent) + n && (n == 0 || n <= maxSends)
      ensures excludedAccounts == old(excludedAccounts) + if end.NoMoreLeads? then {k} else {}
      ensures block.Some? <==> end.AccountBlocked?
      ensures book.Contents() == AfterWave(old(book.Contents()), k, n, block, now)
      ensures maxSends >= 1 && (end.WaveFull? || end.FailureCap?) ==> Phases() < old(Phases())
      ensures maxSends < 1 ==> end.WaveFull? && n == 0 && unchanged(db) && excludedLeads == old(excludedLeads)
    {
      n, trace, block := 0, [], None;
      ghost var f := book.Contents();
      NoWave(f, k, now);
      var failures := 0;
      while n < maxSends
        invariant Ready() && old(log) <= log && Phases() <= old(Phases())
        invariant Ongoing(trace, n, failures, maxSends, maxFailures)
        invariant posts - vain - sent == old(posts - vain - sent) && 0 <= posts - old(posts) <= MostPosts(trace)
        invariant sent == old(sent) + n && (n == 0 || (n <= maxSends && Phases() < old(Phases())))
        invariant excludedAccounts == old(excludedAccounts)
        invariant block.None? && book.Contents() == AfterWave(f, k, n, None, now)
        invariant maxSends < 1 ==> n == 0 && unchanged(db) && excludedLeads == old(excludedLeads)
        decreases Phases()
      {
        var stop;
        stop, n, failures, trace, block := SendNext(k, n, failures, trace, f);
        if stop.Some? {
          PostsOfAWave(trace, n, maxSends, maxFailures);
          return stop.value, n, trace, block;
        }
      }
      end := WaveFull;
      PostsOfAWave(trace, n, maxSends, maxFailures);
    }

    /** `prepareAccountContext` and the quarantine of an account whose session is lost. */
    method Prepare(k: AccountId) returns (usable: bool)
      requires k in book.accounts
      modifies this`excludedAccounts, this`tick, this`rotations, book
      ensures rotations == old(rotations) + 1
      ensures usable <==> !world.session(old(tick)).Lost?
      ensures excludedAccounts == if usable then old(excludedAccounts) else old(excludedAccounts) + {k}
      ensures book.Contents() == Readied(old(book.Contents()), k, world.session(old(tick)), now)
    {
      book.StartWave(k, now);
      rotations := rotations + 1;
      var session := world.session(tick);
      tick := tick + 1;
      usable := !session.Lost?;
      match session
      case StillValid =>
      case LoggedIn(path) => book.MarkSessionActive(k, path);
      case Lost =>
        excludedAccounts := excludedAccounts + {k};
        book.MarkSessionInvalid(k);
    }

    /** One turn of the outer loop, with the account that was picked. With a cap below one and an account whose session
        holds and for which there is a lead, the account stays in play and nothing is sent. */
    method Rotate(k: AccountId) returns (crashed: bool, ghost used: Option<Use>)
      requires Ready() && k in Pool()
      modifies this, db, book
      ensures Ready() && old(log) <= log && rotations <= old(rotations) + 1
      ensures Pool() <= old(Pool()) && Phases() <= old(Phases())
      ensures maxSends >= 1 && !crashed ==> k !in Pool() || Phases() < old(Phases())
      ensures Bounded(old(book.accounts), book.accounts)
      ensures (used.Some? ==> WellUsed(used.value)) && book.Contents() == AfterTurn(old(book.Contents()), k, used, now)
      ensures k in book.accounts && book.accounts == old(book.accounts)[k := book.accounts[k]]
      ensures sent >= old(sent) && book.accounts[k].sentToday == old(book.accounts)[k].sentToday + (sent - old(sent))
      ensures posts - vain - sent == old(posts - vain - sent)
      ensures maxSends < 1 ==> unchanged(db) && excludedLeads == old(excludedLeads) && !crashed
      ensures maxSends < 1 && old(Offers(k)) ==>
        k in Pool() && book.Contents() == Put(old(book.Contents()), k, WaveStarted(old(book.accounts)[k], now))
    {
      if world.next(tick, db.Snapshot(), excludedLeads, k).None? {
        excludedAccounts := excludedAccounts + {k};
        return false, None;
      }
      ghost var fleet := book.Contents();
      ghost var u;
      crashed, u := UseAccount(k);
      used := Some(u);
      TableAfterUse(autoLogin, fleet, k, u, now);
    }

    /** The session of the picked account, and with it the wave and the rest. */
    method UseAccount(k: AccountId) returns (crashed: bool, ghost u: Use)
      requires Ready() && k in book.accounts
      modifies this, db, book
      ensures Ready() && old(log) <= log && rotations == old(rotations) + 1 && Phases() <= old(Phases())
      ensures old(excludedAccounts) <= excludedAccounts
      ensures WellUsed(u) && book.Contents() == AfterUse(old(book.Contents()), k, u, now)
      ensures sent == old(sent) + (if u.session.Lost? then 0 else u.n)
      ensures posts - vain - sent == old(posts - vain - sent)
      ensures maxSends >= 1 && !crashed ==>
        Phases() < old(Phases()) || k in excludedAccounts || (!u.session.Lost? && u.block.Some?)
      ensures maxSends < 1 ==> unchanged(db) && excludedLeads == old(excludedLeads) && !crashed
      ensures maxSends < 1 && old(world.session(tick)).StillValid? ==>
        excludedAccounts == old(excludedAccounts) && u == Use(StillValid, 0, None, false)
    {
      ghost var f, session := book.Contents(), world.session(tick);
      u := Use(session, 0, None, false);
      var usable := Prepare(k);
      crashed := false;
      if usable {
        crashed, u := WaveAndRest(k, f, session);
      }
    }

    /** There is a lead for the account, and its session holds. */
    ghost predicate Offers(k: AccountId)
      reads this, db
    {
      world.next(tick, db.Snapshot(), excludedLeads, k).Some? && world.session(tick).StillValid?
    }

    /** The wave of an account whose session holds, and the rest the wave earns. */
    method WaveAndRest(k: AccountId, ghost f: Fleet, ghost session: Session) returns (crashed: bool, ghost u: Use)
      requires Ready() && k in f.accounts && !session.Lost? && book.Contents() == Readied(f, k, session, now)
      modifies this`excludedLeads, this`excludedAccounts, this`tick, this`sent, this`wavesCompleted, this`log,
        this`posts, this`vain, db, book
      ensures Ready() && old(log) <= log && old(excludedAccounts) <= excludedAccounts && Phases() <= old(Phases())
      ensures u.session == session && WellUsed(u) && book.Contents() == AfterUse(f, k, u, now)
      ensures sent == old(sent) + u.n && u.complete == (!crashed && u.n >= MSGS_PER_WAVE)
      ensures wavesCompleted == old(wavesCompleted) + (if u.complete then 1 else 0)
      ensures maxSends >= 1 && !crashed ==> Phases() < old(Phases()) || k in excludedAccounts || u.block.Some?
      ensures posts - vain - sent == old(posts - vain - sent)
      ensures maxSends < 1 ==> unchanged(db) && excludedLeads == old(excludedLeads) && !crashed
      ensures maxSends < 1 ==> excludedAccounts == old(excludedAccounts) && u == Use(session, 0, None, false)
    {
      ghost var trace, block;
      var end, n;
      end, n, trace, block := SendWave(k);
      Rest(k, end, n);
      crashed := end.SendThrew?;
      u := Use(session, n, block, !crashed && n >= MSGS_PER_WAVE);
    }

    /** A full wave earns a cooldown; an error on the way skips it. */
    method Rest(k: AccountId, end: WaveEnd, n: nat)
      requires k in book.accounts
      modifies this`wavesCompleted, book`accounts
      ensures var complete := !end.SendThrew? && n >= MSGS_PER_WAVE;
        && wavesCompleted == old(wavesCompleted) + (if complete then 1 else 0)
        && book.Contents() == AfterRest(old(book.Contents()), k, complete, now)
    {
      if n >= MSGS_PER_WAVE && !end.SendThrew? {
        book.CompleteWave(k, now);
        wavesCompleted := wavesCompleted + 1;
      }
    }

    /** As the store stands there are leads for every account, at any time, and every session holds. */
    ghost predicate Supplied()
      reads this, db
    {
      && (forall t: nat :: world.more(t, db.Snapshot(), excludedLeads))
      && (forall t: nat, k: AccountId :: world.next(t, db.Snapshot(), excludedLeads, k).Some?)
      && (forall t: nat :: world.session(t).StillValid?)
    }

    ghost function Uncounted(): int
      reads this, book
    {
      TotalSent(book.accounts, book.accounts.Keys) + vain - posts
    }

    /** The daemon that runs this job. */
    ghost function Machine(): Daemon.Setup { Daemon.Setup(autoLogin, 1) }

    lemma ReachesNothing(f: Fleet)
      ensures Daemon.Reaches(Machine(), FreeHands(f, now), FreeHands(f, now))
    {
      Daemon.ReachesItself(Machine(), FreeHands(f, now));
    }

    /** The head of the outer loop and one turn of it. */
    method Turn() returns (stop: Option<Stop>)
      requires Ready()
      modifies this, db, book
      ensures Ready() && rotations <= old(rotations) + if old(Pool()) == {} then 0 else 1
      ensures maxSends >= 1 ==> Measure() <= old(Measure()) && (stop.None? ==> Measure() < old(Measure()))
      ensures stop == Some(NoAccount) ==> Pool() == {}
      ensures stop == Some(NoLeads) ==> exists t :: !world.more(t, db.Snapshot(), excludedLeads)
      ensures Bounded(old(book.accounts), book.accounts)
      ensures Uncounted() == old(Uncounted())
      ensures maxSends < 1 && old(Supplied()) && old(Pool()) != {} ==> stop.None? && Supplied() && Pool() != {}
      ensures Daemon.Reaches(Machine(), FreeHands(old(book.Contents()), now), FreeHands(book.Contents(), now))
    {
      ReachesNothing(book.Contents());
      if !world.more(tick, db.Snapshot(), excludedLeads) {
        return Some(NoLeads);
      }
      var picked := book.PickNextAccount(autoLogin, now, excludedAccounts);
      if picked.None? {
        return Some(NoAccount);
      }
      ghost var fleet, excluded, used := book.Contents(), excludedAccounts, None;
      var crashed;
      crashed, used := RotateWith(picked.value);
      TurnIsReached(Machine(), fleet, now, excluded, picked.value, used);
      stop := if crashed then Some(Crashed) else None;
    }

    /** The turn of an account, as the outer loop sees it. */
    method RotateWith(k: AccountId) returns (crashed: bool, ghost used: Option<Use>)
      requires Ready() && k in Pool()
      modifies this, db, book
      ensures Ready() && rotations <= old(rotations) + 1
      ensures maxSends >= 1 ==> Measure() <= old(Measure()) && (!crashed ==> Measure() < old(Measure()))
      ensures Bounded(old(book.accounts), book.accounts) && Uncounted() == old(Uncounted())
      ensures maxSends < 1 ==> unchanged(db) && excludedLeads == old(excludedLeads) && !crashed
      ensures maxSends < 1 && old(Offers(k)) ==> k in Pool()
      ensures (used.Some? ==> WellUsed(used.value)) && book.Contents() == AfterTurn(old(book.Contents()), k, used, now)
    {
      ghost var was, pool := book.accounts, Pool();
      crashed, used := Rotate(k);
      OneRowTotal(was, k, book.accounts[k]);
      FewerOrNoMore(Pool(), pool, k);
    }

    /** `runOutbound`: with a cap of at least one it ends, after no more turns than there were accounts and open phases
        at the start. The counters of the accounts rise by the messages that reached their hosts, except the vain
        ones. */
    method Drive() returns (stop: Stop)
      requires Ready() && maxSends >= 1
      modifies this, db, book
      ensures Ready()
      ensures rotations <= old(rotations) + old(Measure())
      ensures stop.NoAccount? ==> Pool() == {}
      ensures stop.NoLeads? ==> exists t :: !world.more(t, db.Snapshot(), excludedLeads)
      ensures Bounded(old(book.accounts), book.accounts)
      ensures Uncounted() == old(Uncounted())
      ensures Daemon.Reaches(Machine(), FreeHands(old(book.Contents()), now), FreeHands(book.Contents(), now))
    {
      ReachesNothing(book.Contents());
      while true
        invariant Ready()
        invariant rotations + Measure() <= old(rotations) + old(Measure())
        invariant Bounded(old(book.accounts), book.accounts)
        invariant Uncounted() == old(Uncounted())
        invariant Daemon.Reaches(Machine(), FreeHands(old(book.Contents()), now), FreeHands(book.Contents(), now))
        decreases Measure()
      {
        ghost var was, fleet := book.accounts, book.Contents();
        var end := Turn();
        BoundedTrans(old(book.accounts), was, book.accounts);
        Daemon.ReachesFarther(Machine(), FreeHands(old(book.Contents()), now), FreeHands(fleet, now),
            FreeHands(book.Contents(), now));
        if end.Some? {
          return end.value;
        }
      }
    }

    /** The first turns of `runOutbound`, whatever the cap: None when it is still running after them. With leads and a
        usable account at the start it is still running after more turns than the measure exactly if the cap is below
        one, which a text that is no number amounts to. */
    method DriveFor(fuel: nat) returns (stop: Option<Stop>, turns: nat)
      requires Ready()
      modifies this, db, book
      ensures Ready() && turns <= fuel && (stop.None? ==> turns == fuel)
      ensures maxSends >= 1 ==> turns <= old(Measure()) + 1
      ensures old(Supplied()) && old(Pool()) != {} && fuel > old(Measure()) ==> (stop.None? <==> maxSends < 1)
    {
      stop, turns := None, 0;
      while turns < fuel && stop.None?
        invariant Ready() && turns <= fuel
        invariant maxSends >= 1 ==> turns + Measure() <= old(Measure()) + (if stop.Some? then 1 else 0)
        invariant maxSends < 1 && old(Supplied()) && old(Pool()) != {} ==> stop.None? && Supplied() && Pool() != {}
      {
        stop := Turn();
        turns := turns + 1;
      }
    }
  }

  /** A send at the end of a log: what it does to the open phases, and who counts its messages. */
  lemma StoredSend(rules: Rules, start: Db, log: seq<Write>, before: Db, id: LeadId, job: Job, excluded: set<LeadId>,
                   after: Db)
    requires Run(start, log) == Some(before) && Consistent(before) && Open(before, excluded, id)
    requires JobFits(before, id, before.leads[id].status.LeadDiscovered?, job)
    requires Run(before, SendLead(rules, before, id, job).log) == Some(after)
    ensures var plan := SendLead(rules, before, id, job);
      && Run(start, log + plan.log) == Some(after)
      && Potential(after.leads, excluded) <= Potential(before.leads, excluded)
      && Potential(after.leads, excluded + {id}) < Potential(before.leads, excluded)
      && (plan.outcome.WasSent? ==> Potential(after.leads, excluded) < Potential(before.leads, excluded))
    ensures var outcome := SendLead(rules, before, id, job).outcome;
      && SendPosts(rules, before, id, job) == Vain(rules, before, id, job) + (if outcome.WasSent? then 1 else 0)
      && SendPosts(rules, before, id, job) <= if outcome.WasSkipped? then 1 else 2
  {
    RunConcat(start, log, SendLead(rules, before, id, job).log);
    SendLowersPotential(rules, before, id, job, excluded, after);
    CountedOrVain(rules, before, id, job);
  }

  // ---------- when a wave ends ----------

  function Delivered(trace: seq<Outcome>): nat {
    if trace == [] then 0 else Delivered(trace[..|trace| - 1]) + if trace[|trace| - 1].WasSent? then 1 else 0
  }

  /** Failures since the last delivery; leads skipped in between do not break the row. */
  function Streak(trace: seq<Outcome>): nat {
    if trace == [] || trace[|trace| - 1].WasSent? then 0
    else Streak(trace[..|trace| - 1]) + if trace[|trace| - 1].WasFailed? then 1 else 0
  }

  function Failures(trace: seq<Outcome>): nat {
    if trace == [] then 0 else Failures(trace[..|trace| - 1]) + if trace[|trace| - 1].WasFailed? then 1 else 0
  }

  /** The streak counts the failures behind the last delivery, all of them if there was none. */
  lemma {:induction false} StreakIsSinceDelivery(before: seq<Outcome>, after: seq<Outcome>)
    requires before == [] || before[|before| - 1] == WasSent
    requires forall i :: 0 <= i < |after| ==> after[i] != WasSent
    ensures Streak(before + after) == Failures(after)
    decreases |after|
  {
    if after == [] {
      assert before + after == before;
    } else {
      StreakIsSinceDelivery(before, after[..|after| - 1]);
      assert (before + after)[..|before + after| - 1] == before + after[..|after| - 1];
    }
  }

  /** The most messages that sends with these outcomes put before hosts: a skipped lead gets at most one, any other
      two. */
  function MostPosts(trace: seq<Outcome>): nat {
    if trace == [] then 0 else MostPosts(trace[..|trace| - 1]) + if trace[|trace| - 1].WasSkipped? then 1 else 2
  }

  function Skipped(trace: seq<Outcome>): nat {
    if trace == [] then 0 else Skipped(trace[..|trace| - 1]) + if trace[|trace| - 1].WasSkipped? then 1 else 0
  }

  /** Between two deliveries there are fewer failures than the failure cap. */
  lemma {:induction false} FailuresAreFew(trace: seq<Outcome>, maxFailures: int)
    requires forall i :: 0 <= i < |trace| ==> !Halts(trace[..i], maxFailures)
    ensures var m := Greatest(1, maxFailures); var done := if trace != [] &&
      (trace[|trace| - 1].WasBlocked? || trace[|trace| - 1].Threw?) then 1 else 0;
      && Streak(trace) <= m && (!Halts(trace, maxFailures) ==> Streak(trace) <= m - 1)
      && MostPosts(trace) <= 2 * (Delivered(trace) * m + Streak(trace) + done) + Skipped(trace)
  {
    if trace != [] {
      var front := trace[..|trace| - 1];
      forall i | 0 <= i < |front|
        ensures !Halts(front[..i], maxFailures)
      {
        assert front[..i] == trace[..i];
      }
      assert !Halts(trace[..|trace| - 1], maxFailures);
      FailuresAreFew(front, maxFailures);
    }
  }

  /** Messages a wave that counts `n` can put before hosts, skipped leads aside. */
  function MostOfAWave(n: nat, maxFailures: int): nat {
    var m := Greatest(1, maxFailures);
    2 * (n * m + m + 1)
  }

  lemma PostsOfAWave(trace: seq<Outcome>, n: nat, maxSends: int, maxFailures: int)
    requires n == Delivered(trace) && NoEarlierEnd(trace, maxSends, maxFailures)
    ensures MostPosts(trace) <= MostOfAWave(n, maxFailures) + Skipped(trace)
  {
    FailuresAreFew(trace, maxFailures);
  }

  /** The last outcome stops the wave. */
  predicate Halts(trace: seq<Outcome>, maxFailures: int) {
    trace != [] && (
      || trace[|trace| - 1].WasBlocked?
      || trace[|trace| - 1].Threw?
      || (trace[|trace| - 1].WasFailed? && Streak(trace) >= maxFailures))
  }

  ghost predicate NoEarlierEnd(trace: seq<Outcome>, maxSends: int, maxFailures: int) {
    forall i :: 0 <= i < |trace| ==> !Halts(trace[..i], maxFailures) && Delivered(trace[..i]) < maxSends
  }

  /** Why a wave with these outcomes is over: its last outcome, the cap on sends, or no lead to go on with. */
  function EndOf(trace: seq<Outcome>, maxSends: int, maxFailures: int): WaveEnd {
    if Halts(trace, maxFailures) then
      if trace[|trace| - 1].WasBlocked? then AccountBlocked else if trace[|trace| - 1].Threw? then SendThrew
          else FailureCap
    else if Delivered(trace) >= maxSends then WaveFull
    else NoMoreLeads
  }

  /** The reasons to end: a block, a throw, as many failures in a row as the cap allows, else as many deliveries as the
      cap on sends, else nobody left to write to. */
  lemma EndMeans(trace: seq<Outcome>, n: nat, end: WaveEnd, maxSends: int, maxFailures: int)
    requires EndsAs(trace, n, end, maxSends, maxFailures)
    ensures end == AccountBlocked <==> trace != [] && trace[|trace| - 1].WasBlocked?
    ensures end == SendThrew <==> trace != [] && trace[|trace| - 1] == Threw
    ensures end == FailureCap <==> trace != [] && trace[|trace| - 1] == WasFailed && Streak(trace) >= maxFailures
    ensures end == WaveFull ==> n >= maxSends
    ensures end == NoMoreLeads ==> n < maxSends
  {
  }

  ghost predicate Ongoing(trace: seq<Outcome>, n: nat, failures: nat, maxSends: int, maxFailures: int) {
    n == Delivered(trace) && failures == Streak(trace) && NoEarlierEnd(trace, maxSends, maxFailures) &&
        !Halts(trace, maxFailures)
  }

  /** The wave went on as long as it could, and ended for this reason. */
  ghost predicate EndsAs(trace: seq<Outcome>, n: nat, end: WaveEnd, maxSends: int, maxFailures: int) {
    n == Delivered(trace) && NoEarlierEnd(trace, maxSends, maxFailures) && end == EndOf(trace, maxSends, maxFailures)
  }

  lemma OneMoreOutcome(trace: seq<Outcome>, outcome: Outcome, n: nat, failures: nat, maxSends: int, maxFailures: int)
    requires Ongoing(trace, n, failures, maxSends, maxFailures) && n < maxSends
    ensures outcome.WasBlocked? ==> EndsAs(trace + [outcome], n, AccountBlocked, maxSends, maxFailures)
    ensures outcome.Threw? ==> EndsAs(trace + [outcome], n, SendThrew, maxSends, maxFailures)
    ensures outcome.WasSent? ==> Ongoing(trace + [outcome], n + 1, 0, maxSends, maxFailures)
    ensures outcome.WasSkipped? ==> Ongoing(trace + [outcome], n, failures, maxSends, maxFailures)
    ensures outcome.WasFailed? ==>
      if failures + 1 >= maxFailures then EndsAs(trace + [outcome], n, FailureCap, maxSends, maxFailures)
      else Ongoing(trace + [outcome], n, failures + 1, maxSends, maxFailures)
  {
    var longer := trace + [outcome];
    assert longer[..|trace|] == trace;
    forall i | 0 <= i < |longer|
      ensures !Halts(longer[..i], maxFailures) && Delivered(longer[..i]) < maxSends
    {
      assert longer[..i] == trace[..i] && trace[..|trace|] == trace;
    }
  }

  /** One pick overshoots the daily cap by less than a wave, and a wave by less than another. */
  predicate WithinBounds(before: Account, after: Account) {
    && after.sentToday <= Greatest(before.sentToday, DAILY_CAP - 1 + MSGS_PER_WAVE)
    && after.waveSent <= Greatest(before.waveSent, 2 * MSGS_PER_WAVE - 1)
  }

  ghost predicate Bounded(before: map<AccountId, Account>, after: map<AccountId, Account>) {
    after.Keys == before.Keys && forall j :: j in after ==> WithinBounds(before[j], after[j])
  }

  lemma OneRowBounded(before: map<AccountId, Account>, k: AccountId, n: nat, after: map<AccountId, Account>)
    requires k in before && before[k].sentToday < DAILY_CAP && n <= MSGS_PER_WAVE
    requires k in after && after == before[k := after[k]]
    requires after[k].sentToday == before[k].sentToday + n && after[k].waveSent < MSGS_PER_WAVE + n
    ensures Bounded(before, after)
  {
  }

  /** The table after the turn of an account that was picked. */
  lemma TableAfterUse(autoLogin: bool, f: Fleet, k: AccountId, u: Use, now: Time)
    requires k in PickableIds(autoLogin, f, now) && WellUsed(u)
    ensures var g := AfterUse(f, k, u, now);
      && k in g.accounts && g.accounts == f.accounts[k := g.accounts[k]] && Bounded(f.accounts, g.accounts)
      && g.accounts[k].sentToday == f.accounts[k].sentToday + (if u.session.Lost? then 0 else u.n)
      && PickableIds(autoLogin, g, now) <= PickableIds(autoLogin, f, now)
      && (!u.session.Lost? && u.block.Some? ==> k !in PickableIds(autoLogin, g, now))
    ensures u == Use(StillValid, 0, None, false) ==>
      && AfterUse(f, k, u, now) == Put(f, k, WaveStarted(f.accounts[k], now))
      && k in PickableIds(autoLogin, AfterUse(f, k, u, now), now)
  {
    var g := AfterUse(f, k, u, now);
    RowAfterUse(f, k, u, now);
    IdleUse(f, k, now);
    OneRowBounded(f.accounts, k, if u.session.Lost? then 0 else u.n, g.accounts);
    RowShrinks(autoLogin, f, g, now, k);
    if !u.session.Lost? && u.block.Some? {
      BlockedIsOut(autoLogin, f, k, u, now);
    }
  }

  lemma RowShrinks(autoLogin: bool, before: Fleet, after: Fleet, now: Time, k: AccountId)
    requires k in PickableIds(autoLogin, before, now) && k in after.accounts
    requires after.accounts == before.accounts[k := after.accounts[k]]
    ensures PickableIds(autoLogin, after, now) <= PickableIds(autoLogin, before, now)
    ensures k in PickableIds(autoLogin, after, now) <==> Pickable(autoLogin, after.accounts[k], now)
  {
    PutShrinks(autoLogin, before, now, k, after.accounts[k]);
  }

  lemma BoundedTrans(a: map<AccountId, Account>, b: map<AccountId, Account>, c: map<AccountId, Account>)
    requires Bounded(a, b) && Bounded(b, c)
    ensures Bounded(a, c)
  {
    forall j | j in c
      ensures WithinBounds(a[j], c[j])
    {
      assert WithinBounds(a[j], b[j]) && WithinBounds(b[j], c[j]);
    }
  }

  /** Messages on the day's counters of these accounts. */
  ghost function TotalSent(accounts: map<AccountId, Account>, ids: set<AccountId>): int
    requires ids <= accounts.Keys
  {
    if ids == {} then 0 else
      var k :| k in ids;
      accounts[k].sentToday + TotalSent(accounts, ids - {k})
  }

  lemma {:induction false} TotalSplit(accounts: map<AccountId, Account>, ids: set<AccountId>, k: AccountId)
    requires ids <= accounts.Keys && k in ids
    ensures TotalSent(accounts, ids) == accounts[k].sentToday + TotalSent(accounts, ids - {k})
    decreases ids
  {
    var j :| j in ids && TotalSent(accounts, ids) == accounts[j].sentToday + TotalSent(accounts, ids - {j});
    if j != k {
      TotalSplit(accounts, ids - {j}, k);
      TotalSplit(accounts, ids - {k}, j);
      assert ids - {j} - {k} == ids - {k} - {j};
    }
  }

  lemma {:induction false} TotalOfOthers(before: map<AccountId, Account>, after: map<AccountId, Account>,
                                         ids: set<AccountId>)
    requires ids <= before.Keys && ids <= after.Keys && forall j :: j in ids ==> after[j] == before[j]
    ensures TotalSent(after, ids) == TotalSent(before, ids)
    decreases ids
  {
    if ids != {} {
      var k :| k in ids;
      TotalSplit(before, ids, k);
      TotalSplit(after, ids, k);
      TotalOfOthers(before, after, ids - {k});
    }
  }

  lemma OneRowTotal(before: map<AccountId, Account>, k: AccountId, a: Account)
    requires k in before
    ensures TotalSent(before[k := a], before[k := a].Keys)
      == TotalSent(before, before.Keys) - before[k].sentToday + a.sentToday
  {
    var after := before[k := a];
    assert after.Keys == before.Keys;
    TotalSplit(before, before.Keys, k);
    TotalSplit(after, before.Keys, k);
    TotalOfOthers(before, after, before.Keys - {k});
  }

  lemma FewerOrNoMore(now: set<AccountId>, before: set<AccountId>, k: AccountId)
    requires k in before && now <= before
    ensures |now| <= |before| && (k !in now ==> |now| < |before|)
  {
    SubsetIsSmaller(now, before);
    if k !in now {
      SubsetIsSmaller(now, before - {k});
    }
  }

  lemma {:induction false} SubsetIsSmaller<T>(a: set<T>, b: set<T>)
    requires a <= b
    ensures |a| <= |b|
    decreases a
  {
    if a != {} {
      var x :| x in a;
      SubsetIsSmaller(a - {x}, b - {x});
    }
  }
}
