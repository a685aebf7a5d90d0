/** Prospecting accounts: who may be picked, maintenance, and how long the orchestrator sleeps (multi-account mode). */
module Accounts {
  import opened Records

  datatype AccountStatus = Active | Cooldown | Blocked | PendingGmail | PendingCredentials | Verifying

  datatype Account = Account(
    status: AccountStatus,
    sessionState: Option<string>,
    sessionPath: Option<string>,
    password: Option<string>,
    gmail: Option<string>,
    market: Option<string>,
    sentToday: nat,
    waveSent: nat,
    cooldownUntil: Option<Time>,
    waveStarted: Option<Time>,
    createdAt: Time)

  /** The account table, the accounts with an identity block event on record, and the day of the last counter reset. */
  datatype Fleet = Fleet(accounts: map<AccountId, Account>, identityHits: set<AccountId>, lastReset: Option<int>)

  const MSGS_PER_WAVE := 10
  const WAVES_PER_DAY := 2
  const DAILY_CAP := MSGS_PER_WAVE * WAVES_PER_DAY
  const HOUR: int := 60 * 60 * 1000
  const DAY: int := 24 * HOUR
  const COOLDOWN: int := 5 * HOUR

  // ---------- picking ----------

  predicate Truthy(o: Option<string>) { o.Some? && o.value != "" }

  predicate CanEstablishSession(autoLogin: bool, a: Account) {
    Truthy(a.sessionState) || Truthy(a.sessionPath) || (autoLogin && Truthy(a.password) && Truthy(a.gmail))
  }

  /** The same test as a database filter, where an empty string is not null. */
  predicate SessionOrCredentials(autoLogin: bool, a: Account) {
    a.sessionState.Some? || a.sessionPath.Some? || (autoLogin && a.password.Some? && a.gmail.Some?)
  }

  predicate CoolingAt(a: Account, now: Time) { a.cooldownUntil.Some? && a.cooldownUntil.value > now }

  datatype Skip = IsBlocked | IsPending | IsVerifying | NoSession | NoMarket | AtDailyCap | CooldownActive | OtherStatus

  function ExplainPickSkip(autoLogin: bool, a: Account, now: Time): Option<Skip> {
    if a.status.Blocked? then Some(IsBlocked)
    else if a.status.PendingCredentials? || a.status.PendingGmail? then Some(IsPending)
    else if a.status.Verifying? then Some(IsVerifying)
    else if !CanEstablishSession(autoLogin, a) then Some(NoSession)
    else if !Truthy(a.market) then Some(NoMarket)
    else if a.sentToday >= DAILY_CAP then Some(AtDailyCap)
    else if a.status.Cooldown? && CoolingAt(a, now) then Some(CooldownActive)
    else if !a.status.Active? && !a.status.Cooldown? then Some(OtherStatus)
    else None
  }

  predicate PickRow(autoLogin: bool, a: Account, now: Time) {
    && (a.status.Active? || a.status.Cooldown?)
    && a.market.Some?
    && a.sentToday < DAILY_CAP
    && !CoolingAt(a, now)
    && SessionOrCredentials(autoLogin, a)
  }

  /** The account passes the query and the in-process filter of the pick. */
  predicate Pickable(autoLogin: bool, a: Account, now: Time) {
    PickRow(autoLogin, a, now) && ExplainPickSkip(autoLogin, a, now).None?
  }

  function PickableIds(autoLogin: bool, f: Fleet, now: Time): set<AccountId> {
    set k | k in f.accounts && Pickable(autoLogin, f.accounts[k], now)
  }

  /** The order of picking: fewest messages in the wave, then oldest. */
  predicate Before(a: Account, b: Account) {
    a.waveSent < b.waveSent || (a.waveSent == b.waveSent && a.createdAt <= b.createdAt)
  }

  /** `picked` is a first pickable account outside `excluded`, None when there is none. */
  ghost predicate IsPick(autoLogin: bool, f: Fleet, now: Time, excluded: set<AccountId>, picked: Option<AccountId>) {
    var eligible := PickableIds(autoLogin, f, now) - excluded;
    match picked
    case Some(k) => k in eligible && forall j :: j in eligible ==> Before(f.accounts[k], f.accounts[j])
    case None => eligible == {}
  }

  // ---------- account writes ----------

  function Put(f: Fleet, k: AccountId, a: Account): Fleet { f.(accounts := f.accounts[k := a]) }

  function WaveStarted(a: Account, now: Time): Account {
    a.(waveStarted := Some(now),
       waveSent := if a.waveSent >= MSGS_PER_WAVE || a.waveStarted.None? then 0 else a.waveSent,
       status := Active, cooldownUntil := None)
  }

  function WaveProgressed(a: Account): Account { a.(waveSent := a.waveSent + 1, sentToday := a.sentToday + 1) }

  function WaveCompleted(a: Account, now: Time): Account {
    a.(status := Cooldown, cooldownUntil := Some(now + COOLDOWN), waveSent := 0)
  }

  function AfterBlock(a: Account, b: BlockType, now: Time): Account {
    if b.IdentityCheck? then a.(status := Blocked, cooldownUntil := None)
    else a.(status := Cooldown, cooldownUntil := Some(now + COOLDOWN))
  }

  function BlockHandled(f: Fleet, k: AccountId, b: BlockType, now: Time): Fleet
    requires k in f.accounts
  {
    Put(f, k, AfterBlock(f.accounts[k], b, now)).(identityHits := if b.IdentityCheck? then f.identityHits + {k}
        else f.identityHits)
  }

  function SessionInvalid(a: Account): Account { a.(status := PendingCredentials) }

  /** Out of rotation until somebody logs it in. */
  function Remediated(a: Account): Account { a.(status := PendingCredentials, cooldownUntil := None) }

  function SessionActive(a: Account, path: string): Account { a.(sessionPath := Some(path), status := Active) }

  /** Accounts whose inbox is read. */
  predicate InboundRow(autoLogin: bool, a: Account) {
    (a.status.Active? || a.status.Cooldown?) && SessionOrCredentials(autoLogin, a)
  }

  /** The account with a fresh day and no cooldown. */
  function Rested(a: Account): Account { a.(sentToday := 0, cooldownUntil := None) }

  /** Rewriting the row of a pickable account opens no other account. */
  lemma PutShrinks(autoLogin: bool, f: Fleet, now: Time, k: AccountId, a: Account)
    requires k in PickableIds(autoLogin, f, now)
    ensures PickableIds(autoLogin, Put(f, k, a), now) <= PickableIds(autoLogin, f, now)
    ensures k in PickableIds(autoLogin, Put(f, k, a), now) <==> Pickable(autoLogin, a, now)
  {
  }

  /** A wave started and left without a send: the account is still first in line, and starting its wave once more
      changes nothing. */
  lemma StartedWaveIsPickedAgain(autoLogin: bool, f: Fleet, now: Time, excluded: set<AccountId>, k: AccountId)
    requires IsPick(autoLogin, f, now, excluded, Some(k))
    ensures var f' := Put(f, k, WaveStarted(f.accounts[k], now));
      IsPick(autoLogin, f', now, excluded, Some(k)) && Put(f', k, WaveStarted(f'.accounts[k], now)) == f'
  {
    PutShrinks(autoLogin, f, now, k, WaveStarted(f.accounts[k], now));
  }

  // ---------- the Colombian day ----------

  /** Colombia keeps UTC-5 all year. */
  function ColombiaDay(t: Time): int { (t - 5 * HOUR) / DAY }

  function NextColombiaMidnight(now: Time): Time { (ColombiaDay(now) + 1) * DAY + 5 * HOUR }

  /** Until the next midnight it is the same day, and at midnight the day after. */
  lemma MidnightEndsTheDay(now: Time, t: Time)
    requires now <= t
    ensures now < NextColombiaMidnight(now)
    ensures ColombiaDay(t) == ColombiaDay(now) <==> t < NextColombiaMidnight(now)
    ensures ColombiaDay(NextColombiaMidnight(now)) == ColombiaDay(now) + 1
  {
    var d := ColombiaDay(now);
    DayBounds(now);
    DayBounds(t);
    DayBounds(NextColombiaMidnight(now));
  }

  lemma DayBounds(t: Time)
    ensures ColombiaDay(t) * DAY <= t - 5 * HOUR < (ColombiaDay(t) + 1) * DAY
  {
  }

  // ---------- maintenance ----------

  function ResetDaily(f: Fleet, now: Time): Fleet {
    if f.lastReset == Some(ColombiaDay(now)) then f
    else f.(accounts := map k | k in f.accounts :: f.accounts[k].(sentToday := 0), lastReset := Some(ColombiaDay(now)))
  }

  predicate FalselyBlocked(f: Fleet, k: AccountId) {
    k in f.accounts && f.accounts[k].status.Blocked? && k !in f.identityHits
  }

  function SoftenedAccount(a: Account): Account { a.(status := PendingCredentials, cooldownUntil := None) }

  function Soften(f: Fleet): Fleet {
    f.(accounts := map k | k in f.accounts :: if FalselyBlocked(f, k) then SoftenedAccount(f.accounts[k])
        else f.accounts[k])
  }

  predicate Recoverable(a: Account) {
    a.status.PendingCredentials? && (a.sessionState.Some? || a.sessionPath.Some?) && a.market.Some?
  }

  function RecoveredAccount(a: Account): Account { a.(status := Active, cooldownUntil := None) }

  function Recover(f: Fleet): Fleet {
    f.(accounts := map k | k in f.accounts :: if Recoverable(f.accounts[k]) then RecoveredAccount(f.accounts[k])
        else f.accounts[k])
  }

  predicate Expired(a: Account, now: Time) {
    a.status.Cooldown? && a.cooldownUntil.Some? && a.cooldownUntil.value <= now
  }

  function ReactivatedAccount(a: Account): Account { a.(status := Active, cooldownUntil := None, waveSent := 0) }

  function Reactivate(f: Fleet, now: Time): Fleet {
    f.(accounts := map k | k in f.accounts :: if Expired(f.accounts[k], now) then ReactivatedAccount(f.accounts[k])
        else f.accounts[k])
  }

  /** The maintenance at the head of an orchestrator cycle. */
  function Maintained(f: Fleet, now: Time): Fleet {
    Reactivate(Recover(Soften(ResetDaily(f, now))), now)
  }

  /** Nothing is left for maintenance to do. */
  ghost predicate Settled(f: Fleet, now: Time) {
    && f.lastReset == Some(ColombiaDay(now))
    && forall k :: k in f.accounts ==> AtRest(f, k, now)
  }

  predicate AtRest(f: Fleet, k: AccountId, now: Time)
    requires k in f.accounts
  {
    !FalselyBlocked(f, k) && !Recoverable(f.accounts[k]) && !Expired(f.accounts[k], now)
  }

  /** The settled tables are the ones that maintenance leaves unchanged. */
  lemma SettledIffUnchanged(f: Fleet, now: Time)
    ensures Settled(f, now) <==> Maintained(f, now) == f
  {
    if Maintained(f, now) == f {
      forall k | k in f.accounts
        ensures AtRest(f, k, now)
      {
        UnchangedAccount(f, now, k);
      }
    }
    if Settled(f, now) {
      NothingToDo(f, now);
    }
  }

  // ---------- the wait ----------

  function NextAvailableAt(autoLogin: bool, a: Account, now: Time): Option<Time> {
    if a.status.Blocked? || a.status.PendingCredentials? || a.status.PendingGmail? || a.status.Verifying? then None
    else if !CanEstablishSession(autoLogin, a) || !Truthy(a.market) then None
    else if a.sentToday >= DAILY_CAP then Some(NextColombiaMidnight(now))
    else if a.status.Cooldown? && CoolingAt(a, now) then a.cooldownUntil
    else Some(now)
  }

  predicate WaitRow(autoLogin: bool, a: Account) {
    a.market.Some? && (a.status.Active? || a.status.Cooldown?) && SessionOrCredentials(autoLogin, a)
  }

  /** Milliseconds until this account is expected back; None when it does not count. */
  function WaitOf(autoLogin: bool, a: Account, now: Time): Option<int> {
    var at := NextAvailableAt(autoLogin, a, now);
    if !WaitRow(autoLogin, a) || at.None? then None
    else Some(if at.value - now >= 0 then at.value - now else 0)
  }

  /** `wait` is the smallest wait of the table. */
  ghost predicate IsWait(autoLogin: bool, f: Fleet, now: Time, wait: Option<int>) {
    match wait
    case None => forall k :: k in f.accounts ==> WaitOf(autoLogin, f.accounts[k], now).None?
    case Some(w) =>
      && (exists k :: k in f.accounts && WaitOf(autoLogin, f.accounts[k], now) == Some(w))
      && (forall k :: k in f.accounts && WaitOf(autoLogin, f.accounts[k], now).Some? ==>
        w <= WaitOf(autoLogin, f.accounts[k], now).value)
  }

  /** What maintenance at `t` makes of a table that was settled at `now`: new counters on a new day, expired
      cooldowns lifted, nothing else. */
  function Later(a: Account, newDay: bool, t: Time): Account {
    var b := if newDay then a.(sentToday := 0) else a;
    if Expired(b, t) then ReactivatedAccount(b) else b
  }

  /** One pass is enough: maintenance always leaves a settled table, a softened account with a session included. */
  lemma MaintenanceSettles(f: Fleet, now: Time)
    ensures Settled(Maintained(f, now), now)
  {
    var r := ResetDaily(f, now);
    var s := Soften(r);
    var c := Recover(s);
    var m := Maintained(f, now);
    assert r.accounts.Keys == f.accounts.Keys && m.lastReset == Some(ColombiaDay(now)) &&
        m.identityHits == r.identityHits;
    forall k | k in m.accounts
      ensures AtRest(m, k, now)
    {
      assert !FalselyBlocked(s, k) && (!Recoverable(s.accounts[k]) ==> c.accounts[k] == s.accounts[k]);
      assert !FalselyBlocked(c, k) && !Recoverable(c.accounts[k]);
    }
  }

  lemma NothingToDo(f: Fleet, now: Time)
    requires Settled(f, now)
    ensures Maintained(f, now) == f
  {
    assert forall k :: k in f.accounts ==> AtRest(f, k, now);
    assert Soften(f).accounts == f.accounts;
    assert Recover(f).accounts == f.accounts;
    assert Reactivate(f, now).accounts == f.accounts;
  }

  lemma UnchangedAccount(f: Fleet, now: Time, k: AccountId)
    requires Maintained(f, now) == f && k in f.accounts
    ensures f.lastReset == Some(ColombiaDay(now)) && AtRest(f, k, now)
  {
    var r := ResetDaily(f, now);
    var s := Soften(r);
    var c := Recover(s);
    assert c.lastReset == Some(ColombiaDay(now));
    assert Maintained(f, now).accounts[k] == f.accounts[k];
    assert r == f;
  }

  lemma MaintenanceOfSettled(f: Fleet, now: Time, t: Time, k: AccountId)
    requires Settled(f, now) && now <= t && k in f.accounts
    ensures k in Maintained(f, t).accounts
    ensures Maintained(f, t).accounts[k] == Later(f.accounts[k], ColombiaDay(t) != ColombiaDay(now), t)
    ensures Maintained(f, t).accounts.Keys == f.accounts.Keys
    ensures Maintained(f, t).lastReset == Some(ColombiaDay(t))
    ensures Maintained(f, t).identityHits == f.identityHits
  {
    assert AtRest(f, k, now);
    var r := ResetDaily(f, t);
    var s := Soften(r);
    var c := Recover(s);
    assert s.accounts[k] == r.accounts[k] && c.accounts[k] == s.accounts[k];
  }

  lemma MaintainedKeys(f: Fleet, t: Time)
    ensures Maintained(f, t).accounts.Keys == f.accounts.Keys && Maintained(f, t).lastReset == Some(ColombiaDay(t))
  {
  }

  /** One account, before its own wait is over. */
  lemma EarlierIsUnpickable(autoLogin: bool, a: Account, now: Time, t: Time)
    requires !Expired(a, now) && now <= t
    requires WaitOf(autoLogin, a, now).Some? ==> t < now + WaitOf(autoLogin, a, now).value
    ensures !Pickable(autoLogin, Later(a, ColombiaDay(t) != ColombiaDay(now), t), t)
  {
    MidnightEndsTheDay(now, t);
    var later := Later(a, ColombiaDay(t) != ColombiaDay(now), t);
    assert later.status.Blocked? <==> a.status.Blocked?;
    assert CanEstablishSession(autoLogin, later) == CanEstablishSession(autoLogin, a);
  }

  /** The sleep never hides an unlock: from a settled table, until the computed wait is over no account can be
      picked, maintenance included. */
  lemma SleepHidesNoUnlock(autoLogin: bool, f: Fleet, now: Time, wait: Option<int>, t: Time)
    requires Settled(f, now) && IsWait(autoLogin, f, now, wait)
    requires now <= t && (wait.Some? ==> t < now + wait.value)
    ensures PickableIds(autoLogin, Maintained(f, t), t) == {}
  {
    MaintainedKeys(f, t);
    var m := Maintained(f, t);
    forall k | k in m.accounts
      ensures !Pickable(autoLogin, m.accounts[k], t)
    {
      assert AtRest(f, k, now);
      MaintenanceOfSettled(f, now, t, k);
      EarlierIsUnpickable(autoLogin, f.accounts[k], now, t);
    }
  }

  /** An active account that an inbound login took out of its cooldown: the pick query skips it, the wait does not. */
  predicate Stranded(a: Account, now: Time) {
    a.status.Active? && CoolingAt(a, now)
  }

  ghost predicate NoneStranded(f: Fleet, now: Time) {
    forall k :: k in f.accounts ==> !Stranded(f.accounts[k], now)
  }

  /** Who can be picked once maintenance has run. */
  function PickableAfter(autoLogin: bool, f: Fleet,
                         t: Time): set<AccountId> { PickableIds(autoLogin, Maintained(f, t), t) }

  predicate Expected(autoLogin: bool, a: Account, now: Time) { WaitOf(autoLogin, a, now).Some? }

  /** Under its daily cap at `t`: still, or because a new day has begun by then. */
  predicate UnderCapAt(a: Account, now: Time, t: Time) {
    a.sentToday < DAILY_CAP || ColombiaDay(t) != ColombiaDay(now)
  }

  /** One account at a later time, from what is known of it now: it can be picked exactly if it is expected at all, is
      under its cap by then and has no cooldown running on. */
  lemma PickableLaterIff(autoLogin: bool, a: Account, now: Time, t: Time)
    requires !Expired(a, now) && now <= t
    ensures Pickable(autoLogin, Later(a, ColombiaDay(t) != ColombiaDay(now), t), t)
       <==> Expected(autoLogin, a, now) && UnderCapAt(a, now, t) && !CoolingAt(a, t)
  {
  }

  /** Some expected account is under its cap at `t` with no cooldown running. */
  ghost predicate SomeReady(autoLogin: bool, f: Fleet, now: Time, t: Time) {
    exists k :: k in f.accounts && Expected(autoLogin, f.accounts[k], now) && UnderCapAt(f.accounts[k], now, t) &&
        !CoolingAt(f.accounts[k], t)
  }

  /** Some expected account is under its cap at `t`, active, and its cooldown runs on: the wait computed at `t` is zero
      because of it, and the pick skips it. */
  ghost predicate SomeStuck(autoLogin: bool, f: Fleet, now: Time, t: Time) {
    exists k :: k in f.accounts && Expected(autoLogin, f.accounts[k], now) && UnderCapAt(f.accounts[k], now, t) &&
        Stranded(f.accounts[k], t)
  }

  lemma PickAtIff(autoLogin: bool, f: Fleet, now: Time, t: Time)
    requires Settled(f, now) && now <= t
    ensures PickableAfter(autoLogin, f, t) != {} <==> SomeReady(autoLogin, f, now, t)
  {
    MaintainedKeys(f, t);
    forall k | k in f.accounts
      ensures k in PickableAfter(autoLogin, f, t)
         <==> Expected(autoLogin, f.accounts[k], now) && UnderCapAt(f.accounts[k], now, t) &&
              !CoolingAt(f.accounts[k], t)
    {
      assert AtRest(f, k, now);
      MaintenanceOfSettled(f, now, t, k);
      PickableLaterIff(autoLogin, f.accounts[k], now, t);
    }
    if x :| x in PickableAfter(autoLogin, f, t) {
      assert x in f.accounts;
    }
  }

  /** The account a wait was computed from: ready or stuck when the wait is over, unless a new day was waited for. */
  lemma OwnerOfTheWait(autoLogin: bool, f: Fleet, now: Time, w: int, t: Time)
    requires Settled(f, now) && IsWait(autoLogin, f, now, Some(w)) && t == now + w
    requires !SomeReady(autoLogin, f, now, t) && !SomeStuck(autoLogin, f, now, t)
    ensures t == NextColombiaMidnight(now)
  {
    var k :| k in f.accounts && WaitOf(autoLogin, f.accounts[k], now) == Some(w);
    MidnightEndsTheDay(now, now);
    assert AtRest(f, k, now);
    assert Expected(autoLogin, f.accounts[k], now);
  }

  /** Whether an account is expected at all does not change while the clock moves. */
  lemma StillExpected(autoLogin: bool, f: Fleet, now: Time, t: Time, k: AccountId)
    requires Settled(f, now) && now <= t && k in f.accounts
    ensures k in Maintained(f, t).accounts
    ensures Expected(autoLogin, Maintained(f, t).accounts[k], t) <==> Expected(autoLogin, f.accounts[k], now)
    ensures Stranded(Maintained(f, t).accounts[k], t) <==> Stranded(f.accounts[k], t)
    ensures ColombiaDay(t) != ColombiaDay(now) ==> Maintained(f, t).accounts[k].sentToday == 0
    ensures Maintained(f, t).accounts[k].sentToday <= f.accounts[k].sentToday
  {
    MaintenanceOfSettled(f, now, t, k);
  }

  /** A stuck account makes the next wait zero, and with nobody ready that wait ends where it began. */
  lemma StuckWaitsInVain(autoLogin: bool, f: Fleet, now: Time, t: Time, wait: Option<int>)
    requires Settled(f, now) && now <= t && SomeStuck(autoLogin, f, now, t)
    requires IsWait(autoLogin, Maintained(f, t), t, wait)
    ensures wait == Some(0) && Maintained(Maintained(f, t), t) == Maintained(f, t)
  {
    var k :| k in f.accounts && Expected(autoLogin, f.accounts[k], now) && UnderCapAt(f.accounts[k], now, t) &&
        Stranded(f.accounts[k], t);
    StillExpected(autoLogin, f, now, t, k);
    assert WaitOf(autoLogin, Maintained(f, t).accounts[k], t) == Some(0);
    WaitIsNatural(autoLogin, Maintained(f, t), t, wait);
    MaintenanceSettles(f, t);
    NothingToDo(Maintained(f, t), t);
  }

  /** At midnight nobody is at a cap, so the wait that starts there is for a cooldown, and ends with it. */
  lemma WaitFromMidnight(autoLogin: bool, f: Fleet, now: Time, t1: Time, k: AccountId, w2: Option<int>, t2: Time)
    requires Settled(f, now) && t1 == NextColombiaMidnight(now) && !SomeStuck(autoLogin, f, now, t1)
    requires k in f.accounts && Expected(autoLogin, f.accounts[k], now)
    requires IsWait(autoLogin, Maintained(f, t1), t1, w2) && (w2.Some? ==> t2 == t1 + w2.value)
    ensures w2.Some? && PickableAfter(autoLogin, Maintained(f, t1), t2) != {}
  {
    var m := Maintained(f, t1);
    MidnightEndsTheDay(now, now);
    MaintenanceSettles(f, t1);
    StillExpected(autoLogin, f, now, t1, k);
    WaitIsNatural(autoLogin, m, t1, w2);
    var j := WaitHasOwner(autoLogin, m, t1, k, w2);
    OwnerAtMidnight(autoLogin, f, now, t1, j);
    OwnerIsReady(autoLogin, m.accounts[j], t1, t2);
    PickAtIff(autoLogin, m, t1, t2);
  }

  /** Some account realises the computed wait as soon as any account is expected at all. */
  lemma WaitHasOwner(autoLogin: bool, f: Fleet, now: Time, k: AccountId, wait: Option<int>) returns (owner: AccountId)
    requires IsWait(autoLogin, f, now, wait) && k in f.accounts && Expected(autoLogin, f.accounts[k], now)
    ensures wait.Some? && owner in f.accounts && WaitOf(autoLogin, f.accounts[owner], now) == wait
  {
    owner :| owner in f.accounts && WaitOf(autoLogin, f.accounts[owner], now) == wait;
  }

  lemma OwnerAtMidnight(autoLogin: bool, f: Fleet, now: Time, t: Time, j: AccountId)
    requires Settled(f, now) && t == NextColombiaMidnight(now) && !SomeStuck(autoLogin, f, now, t)
    requires j in Maintained(f, t).accounts && Expected(autoLogin, Maintained(f, t).accounts[j], t)
    ensures Maintained(f, t).accounts[j].sentToday == 0 && !Stranded(Maintained(f, t).accounts[j], t)
  {
    MidnightEndsTheDay(now, now);
    MaintainedKeys(f, t);
    StillExpected(autoLogin, f, now, t, j);
    assert UnderCapAt(f.accounts[j], now, t);
  }

  lemma OwnerIsReady(autoLogin: bool, a: Account, now: Time, t: Time)
    requires a.sentToday < DAILY_CAP && !Stranded(a, now)
    requires WaitOf(autoLogin, a, now).Some? && t == now + WaitOf(autoLogin, a, now).value
    ensures Expected(autoLogin, a, now) && UnderCapAt(a, now, t) && !CoolingAt(a, t)
  {
  }

  /** Two sleeps, exactly, from what is known at `now`: a pick succeeds after the first wait or after the second iff
      some expected account is by the end of the first under its cap with no cooldown running, or no expected account
      under its cap by then is active with a cooldown running on. */
  lemma TwoSleepsIff(autoLogin: bool, f: Fleet, now: Time, w1: int, t1: Time, w2: Option<int>, t2: Time)
    requires Settled(f, now) && IsWait(autoLogin, f, now, Some(w1)) && t1 == now + w1
    requires IsWait(autoLogin, Maintained(f, t1), t1, w2) && (w2.Some? ==> t2 == t1 + w2.value)
    ensures PickableAfter(autoLogin, f, t1) != {} || (w2.Some? && PickableAfter(autoLogin, Maintained(f, t1), t2) != {})
       <==> SomeReady(autoLogin, f, now, t1) || !SomeStuck(autoLogin, f, now, t1)
  {
    WaitIsNatural(autoLogin, f, now, Some(w1));
    PickAtIff(autoLogin, f, now, t1);
    if !SomeReady(autoLogin, f, now, t1) {
      if SomeStuck(autoLogin, f, now, t1) {
        StuckWaitsInVain(autoLogin, f, now, t1, w2);
      } else {
        OwnerOfTheWait(autoLogin, f, now, w1, t1);
        var k :| k in f.accounts && WaitOf(autoLogin, f.accounts[k], now) == Some(w1);
        WaitFromMidnight(autoLogin, f, now, t1, k, w2, t2);
      }
    }
  }

  /** If nobody is stranded and somebody is expected at all, two sleeps are enough. */
  lemma TwoSleepsSuffice(autoLogin: bool, f: Fleet, now: Time, w1: int, t1: Time, w2: Option<int>, t2: Time)
    requires Settled(f, now) && NoneStranded(f, now) && IsWait(autoLogin, f, now, Some(w1)) && t1 == now + w1
    requires IsWait(autoLogin, Maintained(f, t1), t1, w2) && (w2.Some? ==> t2 == t1 + w2.value)
    ensures PickableAfter(autoLogin, f, t1) != {} || (w2.Some? && PickableAfter(autoLogin, Maintained(f, t1), t2) != {})
  {
    WaitIsNatural(autoLogin, f, now, Some(w1));
    if k :| k in f.accounts && Stranded(f.accounts[k], t1) {
      assert Stranded(f.accounts[k], now);
      assert false;
    }
    TwoSleepsIff(autoLogin, f, now, w1, t1, w2, t2);
  }

  /** An account an inbound login made active an hour into its cooldown. */
  const STUCK_ACCOUNT := Account(Active, None, Some("session.json"), None, None, Some("Medellin"), 0, 0, Some(4 * HOUR),
      Some(0), 0)

  function StuckFleet(): Fleet { Fleet(map[0 := STUCK_ACCOUNT], {}, Some(ColombiaDay(0))) }

  /** With that account alone both sleeps are zero long and nobody can be picked after either. */
  lemma BothSleepsFail(autoLogin: bool)
    ensures var f := StuckFleet();
      && Settled(f, 0) && IsWait(autoLogin, f, 0, Some(0)) && IsWait(autoLogin, Maintained(f, 0), 0, Some(0))
      && PickableAfter(autoLogin, f, 0) == {} && PickableAfter(autoLogin, Maintained(f, 0), 0) == {}
  {
    var f := StuckFleet();
    assert AtRest(f, 0, 0);
    NothingToDo(f, 0);
    assert WaitOf(autoLogin, f.accounts[0], 0) == Some(0);
    assert PickableAfter(autoLogin, f, 0) == {};
  }

  /** A zero wait is honest exactly when one of the accounts reporting it is not stranded. */
  lemma ZeroWaitIsHonestIff(autoLogin: bool, f: Fleet, now: Time)
    requires IsWait(autoLogin, f, now, Some(0))
    ensures PickableIds(autoLogin, f, now) != {}
       <==> exists k ::
              k in f.accounts && WaitOf(autoLogin, f.accounts[k], now) == Some(0) && !Stranded(f.accounts[k], now)
  {
    forall k | k in f.accounts
      ensures Pickable(autoLogin, f.accounts[k], now)
         <==> WaitOf(autoLogin, f.accounts[k], now) == Some(0) && !Stranded(f.accounts[k], now)
    {
      MidnightEndsTheDay(now, now);
    }
    if k :| k in f.accounts && WaitOf(autoLogin, f.accounts[k], now) == Some(0) && !Stranded(f.accounts[k], now) {
      assert k in PickableIds(autoLogin, f, now);
    }
  }

  /** While it lasts, a stranded account under its cap keeps the wait at zero without ever being picked. */
  lemma StrandedAccountSpins(autoLogin: bool, f: Fleet, now: Time, k: AccountId, t: Time, wait: Option<int>)
    requires Settled(f, now) && k in f.accounts && Stranded(f.accounts[k], now)
    requires CanEstablishSession(autoLogin, f.accounts[k]) && Truthy(f.accounts[k].market)
    requires f.accounts[k].sentToday < DAILY_CAP
    requires now <= t < f.accounts[k].cooldownUntil.value
    requires IsWait(autoLogin, Maintained(f, t), t, wait)
    ensures wait == Some(0) && k !in PickableIds(autoLogin, Maintained(f, t), t)
  {
    MaintenanceOfSettled(f, now, t, k);
    StrandedWaitsZero(autoLogin, f.accounts[k], ColombiaDay(t) != ColombiaDay(now), t);
  }

  lemma StrandedWaitsZero(autoLogin: bool, a: Account, newDay: bool, t: Time)
    requires Stranded(a, t) && CanEstablishSession(autoLogin, a) && Truthy(a.market) && a.sentToday < DAILY_CAP
    ensures WaitOf(autoLogin, Later(a, newDay, t), t) == Some(0) && !Pickable(autoLogin, Later(a, newDay, t), t)
  {
  }

  // ---------- the orchestrator's sleep ----------

  datatype Pace = Pace(minSleep: nat, maxSleep: nat, noAccountsSleep: nat, inboundPoll: nat)

  function Least(a: int, b: int): int { if a <= b then a else b }

  function Greatest(a: int, b: int): int { if a >= b then a else b }

  function IdleSleep(wait: Option<int>, p: Pace): int {
    if wait.None? then p.noAccountsSleep
    else if wait.value <= 0 then p.minSleep
    else Least(p.maxSleep, Greatest(p.minSleep, wait.value))
  }

  /** The sleep of a cycle that found no account to send with. */
  function CycleSleep(wait: Option<int>, p: Pace): int { Least(p.inboundPoll, IdleSleep(wait, p)) }

  /** It never outlasts the inbound poll, oversleeps an unlock by at most the minimum sleep, and meets the unlock
      exactly whenever the limits allow. */
  lemma CycleSleepBounds(wait: Option<int>, p: Pace)
    requires wait.Some? ==> wait.value >= 0
    ensures 0 <= CycleSleep(wait, p) <= p.inboundPoll
    ensures wait.Some? ==> CycleSleep(wait, p) <= wait.value + p.minSleep
    ensures wait.Some? && p.minSleep <= wait.value <= p.maxSleep && wait.value <= p.inboundPoll && wait.value > 0
      ==> CycleSleep(wait, p) == wait.value
    ensures wait.Some? && CycleSleep(wait, p) > wait.value ==> CycleSleep(wait, p) <= p.minSleep
  {
  }

  /** An unlock inside a cycle's sleep is missed by at most the minimum sleep. */
  lemma OversleepIsBounded(autoLogin: bool, f: Fleet, now: Time, wait: Option<int>, p: Pace, t: Time)
    requires Settled(f, now) && IsWait(autoLogin, f, now, wait)
    requires now <= t <= now + CycleSleep(wait, p) && PickableIds(autoLogin, Maintained(f, t), t) != {}
    ensures now + CycleSleep(wait, p) - t <= p.minSleep
  {
    if wait.None? || t < now + wait.value {
      SleepHidesNoUnlock(autoLogin, f, now, wait, t);
    } else {
      WaitIsNatural(autoLogin, f, now, wait);
      CycleSleepBounds(wait, p);
    }
  }

  lemma WaitIsNatural(autoLogin: bool, f: Fleet, now: Time, wait: Option<int>)
    requires IsWait(autoLogin, f, now, wait) && wait.Some?
    ensures wait.value >= 0
  {
    var k :| k in f.accounts && WaitOf(autoLogin, f.accounts[k], now) == wait;
  }
}
