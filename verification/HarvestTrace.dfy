/** What a harvest does to the account that carries it, as steps of the daemon. */
module HarvestTrace {
  import opened Records
  import opened Sending
  import opened Accounts
  import Daemon

  /** The table after a send that passed the gate: the wave is started anew, then the outcome is entered. */
  function Charged(f: Fleet, k: AccountId, outcome: Outcome, now: Time): Fleet
    requires k in f.accounts
  {
    var g := Put(f, k, WaveStarted(f.accounts[k], now));
    match outcome
    case WasSent => Put(g, k, WaveProgressed(g.accounts[k]))
    case WasBlocked(b) => BlockHandled(g, k, b, now)
    case _ => g
  }

  /** The same in columns: the send opens the wave again, which goes on unless it was full or the first, a delivery that
      was seen counts in both counters, a block ends the account's turn, and nobody else is touched. */
  lemma ChargeMeans(f: Fleet, k: AccountId, outcome: Outcome, now: Time)
    requires k in f.accounts
    ensures var g, a := Charged(f, k, outcome, now), f.accounts[k];
      var before := if a.waveSent >= 10 || a.waveStarted == None then 0 else a.waveSent;
      && k in g.accounts && g.accounts == f.accounts[k := g.accounts[k]] && g.lastReset == f.lastReset
      && g.accounts[k].waveStarted == Some(now)
      && g.accounts[k].waveSent == before + (if outcome == WasSent then 1 else 0)
      && g.accounts[k].sentToday == a.sentToday + (if outcome == WasSent then 1 else 0)
      && (!outcome.WasBlocked? ==>
        g.accounts[k].status == Active && g.accounts[k].cooldownUntil == None && g.identityHits == f.identityHits)
      && (outcome == WasBlocked(IdentityCheck) ==>
        && g.accounts[k].status == AccountStatus.Blocked && g.accounts[k].cooldownUntil == None
        && g.identityHits == f.identityHits + {k})
      && (outcome.WasBlocked? && outcome.block != IdentityCheck ==>
        && g.accounts[k].status == Cooldown && g.accounts[k].cooldownUntil == Some(now + 18_000_000)
        && g.identityHits == f.identityHits)
  {
  }

  /** The job in hand after a listing. */
  function JobAfter(outcome: Outcome, k: AccountId, batch: nat, total: nat): Daemon.Job {
    var counted := if outcome.WasSent? then 1 else 0;
    if outcome.WasBlocked? then Daemon.Idle else Daemon.Harvest(k, batch + counted, total + counted)
  }

  function At(f: Fleet, now: Time, job: Daemon.Job): Daemon.State { Daemon.State(f, now, job) }

  lemma ChargeIsReached(p: Daemon.Setup, f: Fleet, now: Time, k: AccountId, batch: nat, total: nat, outcome: Outcome)
    requires k in f.accounts && batch < p.sendMax
    ensures Daemon.Reaches(p, At(f, now, Daemon.Harvest(k, batch, total)),
      At(Charged(f, k, outcome, now), now, JobAfter(outcome, k, batch, total)))
  {
    var s := At(f, now, Daemon.Harvest(k, batch, total));
    var t := At(Put(f, k, WaveStarted(f.accounts[k], now)), now, Daemon.Harvest(k, batch, total));
    var u := At(Charged(f, k, outcome, now), now, JobAfter(outcome, k, batch, total));
    Daemon.ReachesItself(p, s);
    if outcome.WasSent? {
      assert Daemon.StepOf(p, s, Daemon.Deliver, u);
      Daemon.ReachesNext(p, s, s, Daemon.Deliver, u);
    } else {
      assert Daemon.StepOf(p, s, Daemon.Open, t);
      Daemon.ReachesNext(p, s, s, Daemon.Open, t);
      if outcome.WasBlocked? {
        assert Daemon.StepOf(p, t, Daemon.SendBlocked(outcome.block), u);
        Daemon.ReachesNext(p, s, t, Daemon.SendBlocked(outcome.block), u);
      }
    }
  }

  /** The clock has moved. */
  lemma LaterIsReached(p: Daemon.Setup, s: Daemon.State, f: Fleet, now: Time, later: Time, job: Daemon.Job)
    requires Daemon.Reaches(p, s, At(f, now, job)) && now <= later
    ensures Daemon.Reaches(p, s, At(f, later, job))
  {
    Daemon.ReachedAccounts(p, s, At(f, now, job));
    Daemon.ReachesNext(p, s, At(f, now, job), Daemon.Tick(later - now), At(f, later, job));
  }
}
