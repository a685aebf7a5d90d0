/** The account table and the methods that update it. Every contract ties the table to the functions of `Accounts`. */
module AccountBook {
  import opened Records
  import opened Accounts
  import opened AccountEffects

  class Book {
    var accounts: map<AccountId, Account>
    var identityHits: set<AccountId>
    var lastReset: Option<int>

    ghost function Contents(): Fleet
      reads this
    {
      Fleet(accounts, identityHits, lastReset)
    }

    constructor (initial: map<AccountId, Account>, hits: set<AccountId>, reset: Option<int>)
      ensures Contents() == Fleet(initial, hits, reset)
    {
      accounts, identityHits, lastReset := initial, hits, reset;
    }

    /** `maybeResetDailyMessageCounts`: at most once a Colombian day. */
    method MaybeResetDaily(now: Time) returns (applied: bool, count: nat)
      modifies this`accounts, this`lastReset
      ensures Contents() == ResetDaily(old(Contents()), now)
      ensures applied <==> old(lastReset) != Some(ColombiaDay(now))
      ensures count == if applied then |old(accounts)| else 0
    {
      var today := ColombiaDay(now);
      if lastReset == Some(today) {
        return false, 0;
      }
      count := |accounts|;
      accounts := map k | k in accounts :: accounts[k].(sentToday := 0);
      lastReset := Some(today);
      applied := true;
    }

    /** `softenFalseIdentityBlocks`: one blocked account after the other. */
    method SoftenFalseIdentityBlocks() returns (softened: seq<AccountId>)
      modifies this`accounts
      ensures Contents() == Soften(old(Contents()))
      ensures forall k :: k in softened <==> FalselyBlocked(old(Contents()), k)
    {
      ghost var was := Contents();
      var blocked := set k | k in accounts && accounts[k].status.Blocked?;
      var left := blocked;
      softened := [];
      while left != {}
        invariant left <= blocked && accounts.Keys == was.accounts.Keys
        invariant identityHits == was.identityHits && lastReset == was.lastReset
        invariant forall k :: k in accounts ==>
          accounts[k] == if FalselyBlocked(was, k) && k !in left then SoftenedAccount(was.accounts[k])
              else was.accounts[k]
        invariant forall k :: k in softened <==> FalselyBlocked(was, k) && k !in left
        decreases left
      {
        var k :| k in left;
        left := left - {k};
        if k !in identityHits {
          accounts := accounts[k := accounts[k].(status := PendingCredentials, cooldownUntil := None)];
          softened := softened + [k];
        }
      }
      assert accounts == Soften(was).accounts;
    }

    /** `recoverReusableSessionAccounts`: one stuck account after the other. */
    method RecoverReusableSessions() returns (recovered: seq<AccountId>)
      modifies this`accounts
      ensures Contents() == Recover(old(Contents()))
      ensures forall k :: k in recovered <==> k in old(accounts) && Recoverable(old(accounts)[k])
    {
      ghost var was := Contents();
      var stuck := set k | k in accounts && accounts[k].status.PendingCredentials?
        && (accounts[k].sessionState.Some? || accounts[k].sessionPath.Some?) && accounts[k].market.Some?;
      var left := stuck;
      recovered := [];
      while left != {}
        invariant left <= stuck && accounts.Keys == was.accounts.Keys
        invariant identityHits == was.identityHits && lastReset == was.lastReset
        invariant forall k :: k in accounts ==>
          accounts[k] == if k in stuck && k !in left then RecoveredAccount(was.accounts[k]) else was.accounts[k]
        invariant forall k :: k in recovered <==> k in stuck && k !in left
        decreases left
      {
        var k :| k in left;
        left := left - {k};
        accounts := accounts[k := accounts[k].(status := Active, cooldownUntil := None)];
        recovered := recovered + [k];
      }
      assert accounts == Recover(was).accounts;
    }

    /** `reactivateExpiredCooldowns`, one update for the whole table. */
    method ReactivateExpiredCooldowns(now: Time) returns (count: nat)
      modifies this`accounts
      ensures Contents() == Reactivate(old(Contents()), now)
      ensures count == |set k | k in old(accounts) && Expired(old(accounts)[k], now)|
    {
      var expired := set k | k in accounts && accounts[k].status.Cooldown?
        && accounts[k].cooldownUntil.Some? && accounts[k].cooldownUntil.value <= now;
      assert expired == set k | k in accounts && Expired(accounts[k], now);
      count := |expired|;
      accounts := map k | k in accounts ::
        if k in expired then accounts[k].(status := Active, cooldownUntil := None, waveSent := 0) else accounts[k];
    }

    /** The maintenance that opens an orchestrator cycle leaves a table on which it has nothing more to do. */
    method Maintain(now: Time)
      modifies this
      ensures Contents() == Maintained(old(Contents()), now) && Settled(Contents(), now)
    {
      MaintenanceSettles(Contents(), now);
      var applied, n := MaybeResetDaily(now);
      var softened := SoftenFalseIdentityBlocks();
      var recovered := RecoverReusableSessions();
      var reactivated := ReactivateExpiredCooldowns(now);
    }

    /** `pickNextAccount`: of the accounts that pass the query and the filter, one that sorts first. */
    method PickNextAccount(autoLogin: bool, now: Time, excluded: set<AccountId>) returns (picked: Option<AccountId>)
      ensures IsPick(autoLogin, Contents(), now, excluded, picked)
      ensures picked.Some? ==>
        picked.value in accounts && picked.value !in excluded && MaySend(autoLogin, accounts[picked.value], now)
      ensures picked.Some? ==>
        forall j :: j in accounts && j !in excluded && MaySend(autoLogin, accounts[j], now) ==>
          && accounts[picked.value].waveSent <= accounts[j].waveSent
          && (accounts[picked.value].waveSent == accounts[j].waveSent ==>
            accounts[picked.value].createdAt <= accounts[j].createdAt)
      ensures picked.None? ==> forall j :: j in accounts && j !in excluded ==> !MaySend(autoLogin, accounts[j], now)
    {
      var candidates := set k | k in accounts && k !in excluded && PickRow(autoLogin, accounts[k], now);
      var eligible := set k | k in candidates && ExplainPickSkip(autoLogin, accounts[k], now).None?;
      assert eligible == PickableIds(autoLogin, Contents(), now) - excluded;
      picked := None;
      var left := eligible;
      while left != {}
        invariant left <= eligible
        invariant picked.None? ==> left == eligible
        invariant picked.Some? ==> (picked.value in eligible
          && forall j :: j in eligible && j !in left ==> Before(accounts[picked.value], accounts[j]))
        decreases left
      {
        var k :| k in left;
        left := left - {k};
        if picked.None? || !Before(accounts[picked.value], accounts[k]) {
          picked := Some(k);
        }
      }
      PickMeans(autoLogin, Contents(), now, excluded, picked);
    }

    method StartWave(k: AccountId, now: Time)
      requires k in accounts
      modifies this`accounts
      ensures Contents() == Put(old(Contents()), k, WaveStarted(old(accounts)[k], now))
    {
      var a := accounts[k];
      var isNewWave := a.waveSent >= MSGS_PER_WAVE || a.waveStarted.None?;
      if isNewWave {
        a := a.(waveSent := 0);
      }
      accounts := accounts[k := a.(waveStarted := Some(now), status := Active, cooldownUntil := None)];
    }

    method IncrementWaveProgress(k: AccountId)
      requires k in accounts
      modifies this`accounts
      ensures Contents() == Put(old(Contents()), k, WaveProgressed(old(accounts)[k]))
    {
      var a := accounts[k];
      accounts := accounts[k := a.(waveSent := a.waveSent + 1, sentToday := a.sentToday + 1)];
    }

    method CompleteWave(k: AccountId, now: Time)
      requires k in accounts
      modifies this`accounts
      ensures Contents() == Put(old(Contents()), k, WaveCompleted(old(accounts)[k], now))
    {
      accounts := accounts[k := accounts[k].(status := Cooldown, cooldownUntil := Some(now + COOLDOWN), waveSent := 0)];
    }

    /** `handleAccountBlock`: the event first, then the pause. */
    method HandleAccountBlock(k: AccountId, block: BlockType, now: Time)
      requires k in accounts
      modifies this`accounts, this`identityHits
      ensures Contents() == BlockHandled(old(Contents()), k, block, now)
    {
      if block.IdentityCheck? {
        identityHits := identityHits + {k};
      }
      accounts := accounts[k := AfterBlock(accounts[k], block, now)];
    }

    /** `markAccountSessionInvalid`: only the status changes. */
    method MarkSessionInvalid(k: AccountId)
      requires k in accounts
      modifies this`accounts
      ensures Contents() == Put(old(Contents()), k, SessionInvalid(old(accounts)[k]))
    {
      accounts := accounts[k := accounts[k].(status := PendingCredentials)];
    }

    /** `requestManualSessionRemediation`, unless there was an alert shortly before. */
    method Remediate(k: AccountId)
      requires k in accounts
      modifies this`accounts
      ensures Contents() == Put(old(Contents()), k, Remediated(old(accounts)[k]))
    {
      accounts := accounts[k := accounts[k].(status := PendingCredentials, cooldownUntil := None)];
    }

    /** `markAccountSessionActive`: the cooldown stays. */
    method MarkSessionActive(k: AccountId, path: string)
      requires k in accounts
      modifies this`accounts
      ensures Contents() == Put(old(Contents()), k, SessionActive(old(accounts)[k], path))
    {
      accounts := accounts[k := accounts[k].(sessionPath := Some(path), status := Active)];
    }

    /** `computeNextAvailabilityMs`: the smallest wait, with an early exit at zero. */
    method ComputeNextAvailability(autoLogin: bool, now: Time) returns (wait: Option<int>)
      ensures IsWait(autoLogin, Contents(), now, wait)
    {
      var rows := set k | k in accounts && WaitRow(autoLogin, accounts[k]);
      var left := rows;
      wait := None;
      while left != {}
        invariant left <= rows
        invariant forall k :: k in rows && k !in left && WaitOf(autoLogin, accounts[k], now).Some? ==>
          wait.Some? && wait.value <= WaitOf(autoLogin, accounts[k], now).value
        invariant wait.Some? ==>
          wait.value > 0 && exists k :: k in accounts && WaitOf(autoLogin, accounts[k], now) == wait
        decreases left
      {
        var k :| k in left;
        left := left - {k};
        var at := NextAvailableAt(autoLogin, accounts[k], now);
        if at.None? {
          continue;
        }
        var ms := Greatest(0, at.value - now);
        assert WaitOf(autoLogin, accounts[k], now) == Some(ms);
        if ms == 0 {
          forall j | j in accounts && WaitOf(autoLogin, accounts[j], now).Some?
            ensures 0 <= WaitOf(autoLogin, accounts[j], now).value
          {
          }
          return Some(0);
        }
        wait := if wait.None? then Some(ms) else Some(Least(wait.value, ms));
      }
      forall j | j in accounts && WaitOf(autoLogin, accounts[j], now).Some?
        ensures j in rows
      {
      }
    }

    /** The accounts whose inbox is read: whoever can be picked, at any time, and whoever could be if only the daily
        cap and the cooldown were lifted. */
    method ListInboundAccounts(autoLogin: bool) returns (ids: set<AccountId>)
      ensures forall now :: PickableIds(autoLogin, Contents(), now) <= ids
      ensures forall k, now ::
        k in accounts && CanEstablishSession(autoLogin, accounts[k]) && Truthy(accounts[k].market) ==>
        (k in ids <==> Pickable(autoLogin, Rested(accounts[k]), now))
      ensures forall k :: k in ids <==> k in accounts && InboundRow(autoLogin, accounts[k])
      ensures forall k :: k in ids <==>
        && k in accounts && (accounts[k].status == Active || accounts[k].status == Cooldown)
        && (accounts[k].sessionState != None || accounts[k].sessionPath != None
            || (autoLogin && accounts[k].password != None && accounts[k].gmail != None))
    {
      ids := set k | k in accounts && (accounts[k].status.Active? || accounts[k].status.Cooldown?)
        && SessionOrCredentials(autoLogin, accounts[k]);
    }

    /** The idle end of `runOrchestratorCycle`, after maintenance and with inbound done: how long to sleep. */
    method IdleCycle(autoLogin: bool, now: Time, pace: Pace) returns (sleep: int, ghost wait: Option<int>)
      ensures IsWait(autoLogin, Contents(), now, wait)
      ensures sleep == CycleSleep(wait, pace) && 0 <= sleep <= pace.inboundPoll
    {
      var waitMs := ComputeNextAvailability(autoLogin, now);
      wait := waitMs;
      if wait.Some? {
        WaitIsNatural(autoLogin, Contents(), now, wait);
      }
      CycleSleepBounds(wait, pace);
      var idle := if waitMs.None? then pace.noAccountsSleep
                  else if waitMs.value <= 0 then pace.minSleep
                  else Least(pace.maxSleep, Greatest(pace.minSleep, waitMs.value));
      sleep := Least(pace.inboundPoll, idle);
    }
  }
}
