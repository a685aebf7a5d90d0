/** The daemon as a machine over the account table: jobs run one at a time, the clock moves between any two steps.
    A manual session remediation is a step of the harvest rotation only. */
module Daemon {
  import opened Records
  import opened Accounts

  /** The job that holds the browser. A harvest remembers its counted sends, and how many belong to the present page. */
  datatype Job =
    | Idle
    | Between(harvest: bool, total: nat)
    | Sending(k: AccountId, started: bool, since: nat)
    | Harvest(k: AccountId, batch: nat, total: nat)

  datatype State = State(fleet: Fleet, now: Time, job: Job)

  datatype Event =
    | Tick(elapsed: nat)
    | Maintain
    | InboundLogin(account: AccountId, path: string)
    | Begin(isHarvest: bool)
    | Pick(account: AccountId, excluded: set<AccountId>)
    | Open
    | Login(path: string)
    | Quarantine
    | Remediate
    | Deliver
    | NextPage
    | Complete
    | SendBlocked(block: BlockType)
    | SearchBlocked(block: BlockType)
    | Release
    | End

  datatype Setup = Setup(autoLogin: bool, sendMax: nat)

  predicate Holds(j: Job) { j.Sending? || j.Harvest? }

  ghost predicate Enabled(p: Setup, s: State, e: Event) {
    match e
    case Tick(_) => true
    case Maintain => s.job.Idle?
    case InboundLogin(k, _) => s.job.Idle? && k in s.fleet.accounts && InboundRow(p.autoLogin, s.fleet.accounts[k])
    case Begin(_) => s.job.Idle?
    case Pick(k, ex) => s.job.Between? && IsPick(p.autoLogin, s.fleet, s.now, ex, Some(k))
    case Open => (s.job.Sending? && !s.job.started) || (s.job.Harvest? && s.job.batch < p.sendMax)
    case Login(_) => (s.job.Sending? && s.job.started && s.job.since == 0) || (s.job.Harvest? && s.job.batch == 0)
    case Quarantine => (s.job.Sending? && s.job.since == 0) || (s.job.Harvest? && s.job.batch == 0)
    case Remediate => s.job.Harvest? && s.job.batch == 0
    case Deliver => (s.job.Sending? && s.job.started && s.job.since < MSGS_PER_WAVE) || (s.job.Harvest? &&
        s.job.batch < p.sendMax)
    case NextPage => s.job.Harvest? && s.job.total < p.sendMax
    case Complete => s.job.Sending? && s.job.since >= MSGS_PER_WAVE
    case SendBlocked(_) => (s.job.Sending? && s.job.started) || s.job.Harvest?
    case SearchBlocked(b) => s.job.Harvest? && s.job.batch == 0 && !b.IdentityCheck?
    case Release => s.job.Sending? || (s.job.Harvest? && s.job.batch == 0)
    case End => true
  }

  ghost predicate Known(s: State) { Holds(s.job) ==> s.job.k in s.fleet.accounts }

  /** A harvest starts the wave again before each send. */
  function Delivered(a: Account, harvest: bool, now: Time): Account {
    WaveProgressed(if harvest then WaveStarted(a, now) else a)
  }

  /** A step that changes the row of the account in hand. */
  predicate ConcernsAccount(e: Event) {
    e.Open? || e.Login? || e.Quarantine? || e.Remediate? || e.Deliver? || e.Complete? || e.SendBlocked?
    || e.SearchBlocked?
  }

  function Next(s: State, e: Event): State
    requires Known(s)
    requires ConcernsAccount(e) ==> Holds(s.job)
    requires e.NextPage? ==> s.job.Harvest?
    requires e.InboundLogin? ==> e.account in s.fleet.accounts
    requires e.Pick? ==> s.job.Between?
  {
    match e
    case Tick(elapsed) => s.(now := s.now + elapsed)
    case Maintain => s.(fleet := Maintained(s.fleet, s.now))
    case InboundLogin(k, path) => s.(fleet := Put(s.fleet, k, SessionActive(s.fleet.accounts[k], path)))
    case Begin(harvest) => s.(job := Between(harvest, 0))
    case Pick(k, _) => s.(job := if s.job.harvest then Harvest(k, 0, s.job.total) else Sending(k, false, 0))
    case Open =>
      var ready := s.(fleet := Put(s.fleet, s.job.k, WaveStarted(s.fleet.accounts[s.job.k], s.now)));
      if s.job.Sending? then ready.(job := s.job.(started := true)) else ready
    case Login(path) => s.(fleet := Put(s.fleet, s.job.k, SessionActive(s.fleet.accounts[s.job.k], path)))
    case Quarantine => State(Put(s.fleet, s.job.k, SessionInvalid(s.fleet.accounts[s.job.k])), s.now, Left(s.job))
    case Remediate => s.(fleet := Put(s.fleet, s.job.k, Remediated(s.fleet.accounts[s.job.k])))
    case Deliver => State(Put(s.fleet, s.job.k, Delivered(s.fleet.accounts[s.job.k], s.job.Harvest?, s.now)), s.now,
        OneMore(s.job))
    case NextPage => s.(job := s.job.(batch := 0))
    case Complete => State(Put(s.fleet, s.job.k, WaveCompleted(s.fleet.accounts[s.job.k], s.now)), s.now, Left(s.job))
    case SendBlocked(b) => State(BlockHandled(s.fleet, s.job.k, b, s.now), s.now, if s.job.Harvest? then Idle
        else Left(s.job))
    case SearchBlocked(b) => State(BlockHandled(s.fleet, s.job.k, b, s.now), s.now, Left(s.job))
    case Release => s.(job := Left(s.job))
    case End => s.(job := Idle)
  }

  /** The run goes on with another account. */
  function Left(j: Job): Job {
    if j.Harvest? then Between(true, j.total) else Between(false, 0)
  }

  function OneMore(j: Job): Job {
    match j
    case Sending(k, s, n) => Sending(k, s, n + 1)
    case Harvest(k, b, t) => Harvest(k, b + 1, t + 1)
    case _ => j
  }

  ghost predicate StepOf(p: Setup, s: State, e: Event, t: State) {
    Known(s) && Enabled(p, s, e) && t == Next(s, e)
  }

  /** A run: a state before every event and one after the last. */
  ghost predicate Trace(p: Setup, states: seq<State>, events: seq<Event>) {
    && |states| == |events| + 1 && Known(states[0])
    && forall i :: 0 <= i < |events| ==> StepOf(p, states[i], events[i], states[i + 1])
  }

  // ---------- stretches of a run ----------

  /** A stretch of a run leads from one state to the other. */
  ghost predicate Reaches(p: Setup, s: State, t: State) {
    exists states, events :: Trace(p, states, events) && states[0] == s && states[|events|] == t
  }

  lemma ReachesItself(p: Setup, s: State)
    requires Known(s)
    ensures Reaches(p, s, s)
  {
    assert Trace(p, [s], []);
  }

  lemma ReachesNext(p: Setup, s: State, t: State, e: Event, u: State)
    requires Reaches(p, s, t) && StepOf(p, t, e, u)
    ensures Reaches(p, s, u)
  {
    var states, events :| Trace(p, states, events) && states[0] == s && states[|events|] == t;
    assert Trace(p, states + [u], events + [e]);
  }

  lemma ReachesFarther(p: Setup, s: State, t: State, u: State)
    requires Reaches(p, s, t) && Reaches(p, t, u)
    ensures Reaches(p, s, u)
  {
    var a, v :| Trace(p, a, v) && a[0] == s && a[|v|] == t;
    var b, w :| Trace(p, b, w) && b[0] == t && b[|w|] == u;
    var c := a + b[1..];
    assert Trace(p, c, v + w) by {
      forall i | 0 <= i < |v + w|
        ensures StepOf(p, c[i], (v + w)[i], c[i + 1])
      {
        if i < |v| {
          assert StepOf(p, a[i], v[i], a[i + 1]);
        } else {
          assert StepOf(p, b[i - |v|], w[i - |v|], b[i - |v| + 1]);
        }
      }
    }
  }

  /** Every step leaves the set of accounts as it is, and the account in hand is one of them. */
  lemma {:induction false} AccountsOverTrace(p: Setup, states: seq<State>, events: seq<Event>, i: nat)
    requires Trace(p, states, events) && i <= |events|
    ensures Known(states[i]) && states[i].fleet.accounts.Keys == states[0].fleet.accounts.Keys
    decreases i
  {
    if i > 0 {
      AccountsOverTrace(p, states, events, i - 1);
      assert StepOf(p, states[i - 1], events[i - 1], states[i]);
      StepKeepsAccounts(p, states[i - 1], events[i - 1]);
    }
  }

  lemma StepKeepsAccounts(p: Setup, s: State, e: Event)
    requires Known(s) && Enabled(p, s, e)
    ensures Known(Next(s, e)) && Next(s, e).fleet.accounts.Keys == s.fleet.accounts.Keys
  {
    if e.Maintain? {
      MaintainedKeys(s.fleet, s.now);
    } else {
      JobsKeepAccounts(p, s, e);
    }
  }

  lemma JobsKeepAccounts(p: Setup, s: State, e: Event)
    requires Known(s) && Enabled(p, s, e) && !e.Maintain?
    ensures Known(Next(s, e)) && Next(s, e).fleet.accounts.Keys == s.fleet.accounts.Keys
  {
  }

  lemma ReachedAccounts(p: Setup, s: State, t: State)
    requires Reaches(p, s, t)
    ensures Known(t) && t.fleet.accounts.Keys == s.fleet.accounts.Keys
  {
    var states, events :| Trace(p, states, events) && states[0] == s && states[|events|] == t;
    AccountsOverTrace(p, states, events, |events|);
  }

  // ---------- cooldowns ----------

  /** The account waits until `until`: the date is on its row, and the row is of a kind that only a pick could open. */
  predicate CoolsUntil(s: State, k: AccountId, until: Time) {
    k in s.fleet.accounts && s.now < until ==>
      && s.fleet.accounts[k].cooldownUntil == Some(until)
      && (s.fleet.accounts[k].status.Active? || s.fleet.accounts[k].status.Cooldown?)
      && !(Holds(s.job) && s.job.k == k)
  }

  /** While it lasts the cooldown survives every step, an inbound login that marks the account active included. */
  lemma CoolingIsKept(p: Setup, s: State, e: Event, k: AccountId, until: Time)
    requires Known(s) && Enabled(p, s, e) && CoolsUntil(s, k, until)
    ensures CoolsUntil(Next(s, e), k, until)
  {
    if k in s.fleet.accounts && s.now < until {
      match e
      case Maintain => MaintenanceKeepsCooling(s.fleet, s.now, k);
      case _ =>
    }
  }

  lemma MaintenanceKeepsCooling(f: Fleet, now: Time, k: AccountId)
    requires k in f.accounts && CoolingAt(f.accounts[k], now)
    requires (f.accounts[k].status.Active? || f.accounts[k].status.Cooldown?)
    ensures k in Maintained(f, now).accounts
    ensures var a := Maintained(f, now).accounts[k];
      a.cooldownUntil == f.accounts[k].cooldownUntil && (a.status.Active? || a.status.Cooldown?)
  {
    var r := ResetDaily(f, now);
    var s := Soften(r);
    var c := Recover(s);
    assert r.accounts[k].status == f.accounts[k].status && s.accounts[k] == r.accounts[k] &&
        c.accounts[k] == s.accounts[k];
  }

  /** The steps that send an account to rest. */
  predicate Rests(s: State, e: Event, k: AccountId) {
    Holds(s.job) && s.job.k == k && (e.Complete? || ((e.SendBlocked? || e.SearchBlocked?) && !e.block.IdentityCheck?))
  }

  lemma RestBeginsCooling(p: Setup, s: State, e: Event, k: AccountId)
    requires Known(s) && Enabled(p, s, e) && Rests(s, e, k)
    ensures CoolsUntil(Next(s, e), k, s.now + COOLDOWN)
  {
  }

  lemma {:induction false} CoolingFrom(p: Setup, states: seq<State>, events: seq<Event>, i: nat, j: nat, k: AccountId,
                                       until: Time)
    requires Trace(p, states, events) && i <= j <= |events| && CoolsUntil(states[i], k, until)
    ensures CoolsUntil(states[j], k, until)
    decreases j
  {
    if j > i {
      CoolingFrom(p, states, events, i, j - 1, k, until);
      assert StepOf(p, states[j - 1], events[j - 1], states[j]);
      CoolingIsKept(p, states[j - 1], events[j - 1], k, until);
    }
  }

  lemma CoolingOverTrace(p: Setup, states: seq<State>, events: seq<Event>, i: nat, j: nat, k: AccountId)
    requires Trace(p, states, events) && i < j <= |events| && Rests(states[i], events[i], k)
    ensures CoolsUntil(states[j], k, states[i].now + COOLDOWN)
  {
    assert StepOf(p, states[i], events[i], states[i + 1]);
    RestBeginsCooling(p, states[i], events[i], k);
    CoolingFrom(p, states, events, i + 1, j, k, states[i].now + COOLDOWN);
  }

  /** Over every run: an account sent to rest is not picked before five hours have passed. */
  lemma CoolingAccountIsNotPicked(p: Setup, states: seq<State>, events: seq<Event>, i: nat, j: nat, k: AccountId)
    requires Trace(p, states, events) && i < j < |events|
    requires Rests(states[i], events[i], k) && events[j].Pick? && events[j].account == k
    ensures states[j].now >= states[i].now + COOLDOWN
  {
    CoolingOverTrace(p, states, events, i, j, k);
    assert StepOf(p, states[j], events[j], states[j + 1]);
  }

  // ---------- identity blocks ----------

  /** Blocked for identity, with the event on record, and out of every job's hands. */
  predicate Lost(s: State, k: AccountId) {
    && k in s.fleet.accounts && s.fleet.accounts[k].status.Blocked? && k in s.fleet.identityHits
    && !(Holds(s.job) && s.job.k == k)
  }

  lemma LostIsKept(p: Setup, s: State, e: Event, k: AccountId)
    requires Known(s) && Enabled(p, s, e) && Lost(s, k)
    ensures Lost(Next(s, e), k)
  {
    if e.Maintain? {
      MaintenanceKeepsLost(s.fleet, s.now, k);
    } else {
      JobsKeepLost(p, s, e, k);
    }
  }

  lemma JobsKeepLost(p: Setup, s: State, e: Event, k: AccountId)
    requires Known(s) && Enabled(p, s, e) && Lost(s, k) && !e.Maintain?
    ensures Lost(Next(s, e), k)
  {
  }

  lemma MaintenanceKeepsLost(f: Fleet, now: Time, k: AccountId)
    requires k in f.accounts && f.accounts[k].status.Blocked? && k in f.identityHits
    ensures k in Maintained(f, now).accounts && Maintained(f, now).accounts[k].status.Blocked?
    ensures k in Maintained(f, now).identityHits
  {
    var r := ResetDaily(f, now);
    var s := Soften(r);
    assert s.accounts[k] == r.accounts[k] && Recover(s).accounts[k] == s.accounts[k];
  }

  lemma {:induction false} LostOverTrace(p: Setup, states: seq<State>, events: seq<Event>, i: nat, j: nat, k: AccountId)
    requires Trace(p, states, events) && i <= j <= |events| && Lost(states[i], k)
    ensures Lost(states[j], k)
    decreases j
  {
    if i < j {
      LostOverTrace(p, states, events, i, j - 1, k);
      assert StepOf(p, states[j - 1], events[j - 1], states[j]);
      LostIsKept(p, states[j - 1], events[j - 1], k);
    }
  }

  /** Over every run: once the identity check has hit an account it stays blocked; it is neither picked nor read. */
  lemma IdentityBlockIsFinal(p: Setup, states: seq<State>, events: seq<Event>, i: nat, j: nat, k: AccountId)
    requires Trace(p, states, events) && i < j <= |events|
    requires events[i].SendBlocked? && events[i].block.IdentityCheck? && Holds(states[i].job) && states[i].job.k == k
    ensures Lost(states[j], k)
    ensures j < |events| && (events[j].Pick? || events[j].InboundLogin?) ==> events[j].account != k
  {
    assert StepOf(p, states[i], events[i], states[i + 1]);
    LostOverTrace(p, states, events, i + 1, j, k);
    if j < |events| {
      assert StepOf(p, states[j], events[j], states[j + 1]);
    }
  }

  // ---------- counters ----------

  /** Waves below two, days below the cap plus what one pick can add, harvests below twice their cap. */
  ghost predicate Tame(p: Setup, s: State) {
    && (forall k :: k in s.fleet.accounts ==> s.fleet.accounts[k].waveSent <= 2 * MSGS_PER_WAVE - 1)
    && (forall k :: k in s.fleet.accounts ==> s.fleet.accounts[k].sentToday <= DAILY_CAP - 1 + MostPerPick(p))
    && (s.job.Sending? && s.job.k in s.fleet.accounts ==>
         && s.job.since <= MSGS_PER_WAVE
         && s.fleet.accounts[s.job.k].sentToday <= DAILY_CAP - 1 + s.job.since
         && (s.job.started ==> s.fleet.accounts[s.job.k].waveSent <= MSGS_PER_WAVE - 1 + s.job.since)
         && (!s.job.started ==> s.job.since == 0))
    && (s.job.Harvest? && s.job.k in s.fleet.accounts ==>
         && s.job.batch <= p.sendMax && s.job.batch <= s.job.total && s.job.total - s.job.batch <= p.sendMax - 1
         && s.fleet.accounts[s.job.k].sentToday <= DAILY_CAP - 1 + s.job.total)
    && (s.job.Between? ==> s.job.total <= p.sendMax - 1)
  }

  function MostPerPick(p: Setup): int { Greatest(MSGS_PER_WAVE, 2 * p.sendMax - 1) }

  lemma TameIsKept(p: Setup, s: State, e: Event)
    requires Known(s) && Enabled(p, s, e) && Tame(p, s) && p.sendMax >= 1
    ensures Tame(p, Next(s, e))
  {
    if e.Maintain? {
      MaintenanceLowersCounters(s.fleet, s.now);
    }
  }

  /** The same accounts, with counters no higher. */
  ghost predicate NoHigher(after: Fleet, before: Fleet) {
    && after.accounts.Keys == before.accounts.Keys
    && forall k :: k in before.accounts ==>
         after.accounts[k].waveSent <= before.accounts[k].waveSent &&
             after.accounts[k].sentToday <= before.accounts[k].sentToday
  }

  lemma StepsLowerCounters(f: Fleet, now: Time)
    ensures NoHigher(ResetDaily(f, now), f) && NoHigher(Soften(f), f) && NoHigher(Recover(f), f)
    ensures NoHigher(Reactivate(f, now), f)
  {
  }

  lemma MaintenanceLowersCounters(f: Fleet, now: Time)
    ensures NoHigher(Maintained(f, now), f)
  {
    StepsLowerCounters(f, now);
    StepsLowerCounters(ResetDaily(f, now), now);
    StepsLowerCounters(Soften(ResetDaily(f, now)), now);
    StepsLowerCounters(Recover(Soften(ResetDaily(f, now))), now);
  }

  /** Over every run from rest: no wave reaches twice its length, no day its cap plus one pick's worth, and no harvest
      run counts twice its cap in sends. */
  lemma {:induction false} CountersStayTame(p: Setup, states: seq<State>, events: seq<Event>, i: nat)
    requires Trace(p, states, events) && i <= |events| && p.sendMax >= 1
    requires Tame(p, states[0])
    ensures Tame(p, states[i])
    ensures states[i].job.Harvest? ==> states[i].job.total <= 2 * p.sendMax - 1
    decreases i
  {
    AccountsOverTrace(p, states, events, i);
    if i > 0 {
      CountersStayTame(p, states, events, i - 1);
      assert StepOf(p, states[i - 1], events[i - 1], states[i]);
      TameIsKept(p, states[i - 1], events[i - 1]);
    }
  }

  /** The bounds hold after every stretch of a run that starts within them. */
  lemma ReachedIsTame(p: Setup, s: State, t: State)
    requires Reaches(p, s, t) && Tame(p, s) && p.sendMax >= 1
    ensures Tame(p, t)
  {
    var states, events :| Trace(p, states, events) && states[0] == s && states[|events|] == t;
    CountersStayTame(p, states, events, |events|);
  }

  /** An account that rests at the start of a stretch rests at its end, unless its time has come. */
  lemma ReachedStillCools(p: Setup, s: State, t: State, k: AccountId, until: Time)
    requires Reaches(p, s, t) && CoolsUntil(s, k, until)
    ensures CoolsUntil(t, k, until)
  {
    var states, events :| Trace(p, states, events) && states[0] == s && states[|events|] == t;
    CoolingFrom(p, states, events, 0, |events|, k, until);
  }
}
