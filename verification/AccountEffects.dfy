/** The account rules in numbers and columns: who may be picked and who is picked, what the writes and the maintenance
    make of a row, how long is waited. Times are in milliseconds. */
module AccountEffects {
  import opened Records
  import opened Accounts

  // ---------- picking ----------

  /** A session is stored, or one can be made. */
  predicate HasSession(autoLogin: bool, a: Account) {
    || (a.sessionState != None && a.sessionState != Some(""))
    || (a.sessionPath != None && a.sessionPath != Some(""))
    || (autoLogin && a.password != None && a.password != Some("") && a.gmail != None && a.gmail != Some(""))
  }

  /** May send now: in rotation, in a market, with a session, under twenty messages today and not cooling. */
  predicate MaySend(autoLogin: bool, a: Account, now: Time) {
    && (a.status == Active || a.status == Cooldown)
    && a.market != None && a.market != Some("")
    && a.sentToday < 20
    && (a.cooldownUntil == None || a.cooldownUntil.value <= now)
    && HasSession(autoLogin, a)
  }

  lemma PickableMeans(autoLogin: bool, a: Account, now: Time)
    ensures Pickable(autoLogin, a, now) <==> MaySend(autoLogin, a, now)
  {
  }

  /** The pick in columns: nobody who may send and is not excluded has sent fewer messages in its wave, and among those
      with as many none is older; nobody is picked iff there is nobody. */
  lemma PickMeans(autoLogin: bool, f: Fleet, now: Time, excluded: set<AccountId>, picked: Option<AccountId>)
    ensures IsPick(autoLogin, f, now, excluded, picked) <==>
      match picked
      case None => forall j :: j in f.accounts && j !in excluded ==> !MaySend(autoLogin, f.accounts[j], now)
      case Some(k) =>
        && k in f.accounts && k !in excluded && MaySend(autoLogin, f.accounts[k], now)
        && forall j :: j in f.accounts && j !in excluded && MaySend(autoLogin, f.accounts[j], now) ==>
          && f.accounts[k].waveSent <= f.accounts[j].waveSent
          && (f.accounts[k].waveSent == f.accounts[j].waveSent ==>
            f.accounts[k].createdAt <= f.accounts[j].createdAt)
  {
    forall j
      ensures j in PickableIds(autoLogin, f, now) - excluded
         <==> j in f.accounts && j !in excluded && MaySend(autoLogin, f.accounts[j], now)
    {
      if j in f.accounts {
        PickableMeans(autoLogin, f.accounts[j], now);
      }
    }
  }

  /** Why an account is not picked: each reason is given iff it applies and none before it does. */
  lemma SkipReasonsInOrder(autoLogin: bool, a: Account, now: Time)
    ensures var why, s := ExplainPickSkip(autoLogin, a, now), a.status;
      var inRotation, market := s == Active || s == Cooldown, a.market != None && a.market != Some("");
      && (why == Some(IsBlocked) <==> s == Blocked)
      && (why == Some(IsPending) <==> s == PendingCredentials || s == PendingGmail)
      && (why == Some(IsVerifying) <==> s == Verifying)
      && (why == Some(NoSession) <==> inRotation && !HasSession(autoLogin, a))
      && (why == Some(NoMarket) <==> inRotation && HasSession(autoLogin, a) && !market)
      && (why == Some(AtDailyCap) <==> inRotation && HasSession(autoLogin, a) && market && a.sentToday >= 20)
      && (why == Some(CooldownActive)
          <==> && s == Cooldown && HasSession(autoLogin, a) && market && a.sentToday < 20
               && a.cooldownUntil != None && a.cooldownUntil.value > now)
      && why != Some(OtherStatus)
  {
  }

  // ---------- the writes ----------

  /** The columns that no write of a run touches. */
  predicate SameAccount(a: Account, b: Account) {
    && b.sessionState == a.sessionState && b.password == a.password && b.gmail == a.gmail && b.market == a.market
    && b.createdAt == a.createdAt
  }

  /** A wave starts at zero after ten messages or if it is the first, and goes on otherwise; the account is active. */
  lemma StartMeans(a: Account, now: Time)
    ensures var b := WaveStarted(a, now);
      && SameAccount(a, b) && b.sessionPath == a.sessionPath && b.sentToday == a.sentToday
      && b.status == Active && b.cooldownUntil == None && b.waveStarted == Some(now)
      && (a.waveSent >= 10 || a.waveStarted == None ==> b.waveSent == 0)
      && (a.waveSent < 10 && a.waveStarted != None ==> b.waveSent == a.waveSent)
  {
  }

  /** After so many messages sent one after the other both counters have risen by as many and nothing else has
      changed. */
  lemma {:induction false} ProgressMeans(a: Account, n: nat)
    ensures AfterSends(a, n) == a.(waveSent := a.waveSent + n, sentToday := a.sentToday + n)
  {
    if n > 0 {
      ProgressMeans(a, n - 1);
    }
  }

  ghost function AfterSends(a: Account, n: nat): Account {
    if n == 0 then a else WaveProgressed(AfterSends(a, n - 1))
  }

  /** An account that rests may not send before five hours have passed, and then may if nothing else stops it; its wave
      is empty. */
  lemma RestMeans(autoLogin: bool, a: Account, now: Time, t: Time)
    ensures var b := WaveCompleted(a, now);
      && SameAccount(a, b) && b.sessionPath == a.sessionPath && b.sentToday == a.sentToday
      && b.waveStarted == a.waveStarted && b.status == Cooldown && b.waveSent == 0
      && b.cooldownUntil == Some(now + 18_000_000)
      && (t < now + 18_000_000 ==> !MaySend(autoLogin, b, t))
      && (t >= now + 18_000_000 && MaySend(autoLogin, a.(cooldownUntil := None), t) ==> MaySend(autoLogin, b, t))
  {
  }

  /** A block: the identity check takes the account out of rotation and is put on record, any other block rests it for
      five hours with its wave as it stands; no other account is touched. */
  lemma BlockMeans(f: Fleet, k: AccountId, b: BlockType, now: Time)
    requires k in f.accounts
    ensures var g, a := BlockHandled(f, k, b, now), f.accounts[k];
      && g.accounts == f.accounts[k := g.accounts[k]] && g.lastReset == f.lastReset
      && (b == IdentityCheck ==>
        g.accounts[k] == a.(status := Blocked, cooldownUntil := None) && g.identityHits == f.identityHits + {k})
      && (b != IdentityCheck ==>
        && g.accounts[k] == a.(status := Cooldown, cooldownUntil := Some(now + 18_000_000))
        && g.identityHits == f.identityHits)
  {
  }

  /** What becomes of a session: a lost one leaves the cooldown date, a remediation clears it, a login stores the path
      and puts the account back at once. */
  lemma SessionsMean(autoLogin: bool, a: Account, path: string, now: Time)
    ensures SessionInvalid(a) == a.(status := PendingCredentials)
    ensures Remediated(a) == a.(status := PendingCredentials, cooldownUntil := None)
    ensures SessionActive(a, path) == a.(status := Active, sessionPath := Some(path))
    ensures !MaySend(autoLogin, SessionInvalid(a), now) && !MaySend(autoLogin, Remediated(a), now)
  {
  }

  // ---------- the day ----------

  /** A Colombian day ends at five in the morning UTC, at most twenty-four hours from now. */
  lemma MidnightIsAtFive(now: Time)
    ensures NextColombiaMidnight(now) % 86_400_000 == 18_000_000
    ensures now < NextColombiaMidnight(now) <= now + 86_400_000
  {
    DayBounds(now);
  }

  // ---------- maintenance ----------

  /** The four steps on one account: a new day starts its count at zero; a block without an identity event on record is
      lifted, straight to active with a stored session and a market; so is an account that waits for credentials; and a
      cooldown that is over ends with a fresh wave. */
  lemma MaintenanceMeans(f: Fleet, now: Time, k: AccountId)
    requires k in f.accounts
    ensures Maintained(f, now).accounts.Keys == f.accounts.Keys && Maintained(f, now).identityHits == f.identityHits
    ensures Maintained(f, now).lastReset == Some(ColombiaDay(now))
    ensures var a, b := f.accounts[k], Maintained(f, now).accounts[k];
      var wronged := a.status == Blocked && k !in f.identityHits;
      var pending := a.status == PendingCredentials || wronged;
      var ready := (a.sessionState != None || a.sessionPath != None) && a.market != None;
      var over := a.status == Cooldown && a.cooldownUntil != None && a.cooldownUntil.value <= now;
      && SameAccount(a, b) && b.sessionPath == a.sessionPath && b.waveStarted == a.waveStarted
      && b.sentToday == (if f.lastReset == Some(ColombiaDay(now)) then a.sentToday else 0)
      && b.waveSent == (if over then 0 else a.waveSent)
      && b.status == (if pending && ready then Active else if pending then PendingCredentials else if over then Active
          else a.status)
      && b.cooldownUntil == (if (pending && ready) || wronged || over then None
          else a.cooldownUntil)
  {
  }

  // ---------- the wait ----------

  /** How long an account is waited for: not at all if it is out of rotation or without market or session; until
      midnight at its daily cap; until its cooldown is over while it rests; else no time. */
  lemma WaitMeans(autoLogin: bool, a: Account, now: Time)
    ensures var wait := WaitOf(autoLogin, a, now);
      var expected := (a.status == Active || a.status == Cooldown) && a.market != None && a.market != Some("")
          && HasSession(autoLogin, a);
      && (wait == None <==> !expected)
      && (expected && a.sentToday >= 20 ==> wait == Some(NextColombiaMidnight(now) - now))
      && (expected && a.sentToday < 20 && a.status == Cooldown && a.cooldownUntil != None
          && a.cooldownUntil.value > now ==>
        wait == Some(a.cooldownUntil.value - now))
      && (expected && a.sentToday < 20
          && (a.status == Active || a.cooldownUntil == None || a.cooldownUntil.value <= now) ==>
        wait == Some(0))
  {
    DayBounds(now);
  }

  /** The sleep of an idle cycle, by its limits: nobody expected, somebody ready, or a wait cut to the limits; the
      inbound poll cuts all of them. */
  lemma CycleSleepMeans(wait: Option<int>, p: Pace)
    ensures var sleep := CycleSleep(wait, p);
      && sleep <= p.inboundPoll
      && (wait == None ==> sleep == p.inboundPoll || sleep == p.noAccountsSleep)
      && (wait == None ==> sleep <= p.noAccountsSleep)
      && (wait != None && wait.value <= 0 ==> sleep == p.inboundPoll || sleep == p.minSleep)
      && (wait != None && wait.value <= 0 ==> sleep <= p.minSleep)
      && (wait != None && wait.value > 0 ==>
        && sleep <= p.maxSleep && (sleep <= wait.value || sleep <= p.minSleep)
        && (sleep == p.inboundPoll || sleep == p.maxSleep || (sleep >= wait.value && sleep >= p.minSleep)))
  {
  }
}
