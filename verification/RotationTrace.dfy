/** The turn of an account in the outbound job, as a stretch of a run of the daemon. */
module RotationTrace {
  import opened Records
  import opened Accounts
  import Daemon

  datatype Session = StillValid | LoggedIn(path: string) | Lost

  function AfterSession(a: Account, session: Session): Account {
    match session
    case StillValid => a
    case LoggedIn(path) => SessionActive(a, path)
    case Lost => SessionInvalid(a)
  }

  function Progressed(a: Account, n: nat): Account { a.(waveSent := a.waveSent + n, sentToday := a.sentToday + n) }

  /** The table after a wave of `n` counted sends, ended by a block or not. */
  function AfterWave(f: Fleet, k: AccountId, n: nat, block: Option<BlockType>, now: Time): Fleet
    requires k in f.accounts
  {
    var g := Put(f, k, Progressed(f.accounts[k], n));
    if block.Some? then BlockHandled(g, k, block.value, now) else g
  }

  /** What a turn came to: the session, the counted sends, the block, and whether the wave was completed. */
  datatype Use = Use(session: Session, n: nat, block: Option<BlockType>, complete: bool)

  function AfterRest(f: Fleet, k: AccountId, complete: bool, now: Time): Fleet
    requires k in f.accounts
  {
    if complete then Put(f, k, WaveCompleted(f.accounts[k], now)) else f
  }

  function Readied(f: Fleet, k: AccountId, session: Session, now: Time): Fleet
    requires k in f.accounts
  {
    Put(f, k, AfterSession(WaveStarted(f.accounts[k], now), session))
  }

  /** The table after the turn. */
  function AfterUse(f: Fleet, k: AccountId, u: Use, now: Time): Fleet
    requires k in f.accounts
  {
    var g := Readied(f, k, u.session, now);
    if u.session.Lost? then g else AfterRest(AfterWave(g, k, u.n, u.block, now), k, u.complete, now)
  }

  /** A turn sends no more than a wave; a block cuts it short, and only a whole wave earns the rest. */
  predicate WellUsed(u: Use) {
    u.n <= MSGS_PER_WAVE && (u.complete ==> u.n == MSGS_PER_WAVE && u.block.None?)
  }

  // ---------- the stretch of the machine ----------

  function InHand(f: Fleet, now: Time, k: AccountId, started: bool, n: nat): Daemon.State {
    Daemon.State(f, now, Daemon.Sending(k, started, n))
  }

  /** No account in hand. */
  function FreeHands(f: Fleet, now: Time): Daemon.State { Daemon.State(f, now, Daemon.Between(false, 0)) }

  lemma SessionIsReached(p: Daemon.Setup, f: Fleet, now: Time, k: AccountId, session: Session)
    requires k in f.accounts
    ensures Daemon.Reaches(p, InHand(f, now, k, false, 0),
      if session.Lost? then FreeHands(Readied(f, k, session, now), now)
          else InHand(Readied(f, k, session, now), now, k, true, 0))
  {
    var s := InHand(f, now, k, false, 0);
    var g := Put(f, k, WaveStarted(f.accounts[k], now));
    var t := InHand(g, now, k, true, 0);
    Daemon.ReachesItself(p, s);
    Daemon.ReachesNext(p, s, s, Daemon.Open, t);
    match session
    case StillValid =>
    case LoggedIn(path) =>
      Daemon.ReachesNext(p, s, t, Daemon.Login(path), InHand(Readied(f, k, session, now), now, k, true, 0));
    case Lost =>
      Daemon.ReachesNext(p, s, t, Daemon.Quarantine, FreeHands(Readied(f, k, session, now), now));
  }

  lemma {:induction false} SendsAreReached(p: Daemon.Setup, f: Fleet, now: Time, k: AccountId, n: nat)
    requires k in f.accounts && n <= MSGS_PER_WAVE
    ensures Daemon.Reaches(p, InHand(f, now, k, true, 0), InHand(AfterWave(f, k, n, None, now), now, k, true, n))
  {
    var s := InHand(f, now, k, true, 0);
    if n == 0 {
      assert AfterWave(f, k, 0, None, now) == f;
      Daemon.ReachesItself(p, s);
    } else {
      SendsAreReached(p, f, now, k, n - 1);
      var t, u := InHand(AfterWave(f, k, n - 1, None, now), now, k, true, n - 1),
          InHand(AfterWave(f, k, n, None, now), now, k, true, n);
      assert Daemon.StepOf(p, t, Daemon.Deliver, u);
      Daemon.ReachesNext(p, s, t, Daemon.Deliver, u);
    }
  }

  lemma WaveIsReached(p: Daemon.Setup, f: Fleet, now: Time, k: AccountId, u: Use)
    requires k in f.accounts && WellUsed(u)
    ensures Daemon.Reaches(p, InHand(f, now, k, true, 0),
      FreeHands(AfterRest(AfterWave(f, k, u.n, u.block, now), k, u.complete, now), now))
  {
    var s := InHand(f, now, k, true, 0);
    var t := InHand(AfterWave(f, k, u.n, None, now), now, k, true, u.n);
    SendsAreReached(p, f, now, k, u.n);
    var end := FreeHands(AfterRest(AfterWave(f, k, u.n, u.block, now), k, u.complete, now), now);
    var e := if u.block.Some? then Daemon.SendBlocked(u.block.value) else if u.complete then Daemon.Complete
        else Daemon.Release;
    assert Daemon.StepOf(p, t, e, end);
    Daemon.ReachesNext(p, s, t, e, end);
  }

  /** The turn of an account that was picked is a stretch of a run of the machine. */
  lemma UseIsReached(p: Daemon.Setup, f: Fleet, now: Time, excluded: set<AccountId>, k: AccountId, u: Use)
    requires IsPick(p.autoLogin, f, now, excluded, Some(k)) && k in f.accounts && WellUsed(u)
    ensures Daemon.Reaches(p, FreeHands(f, now), FreeHands(AfterUse(f, k, u, now), now))
  {
    var s, t := FreeHands(f, now), InHand(f, now, k, false, 0);
    Daemon.ReachesItself(p, s);
    Daemon.ReachesNext(p, s, s, Daemon.Pick(k, excluded), t);
    SessionIsReached(p, f, now, k, u.session);
    var g := Readied(f, k, u.session, now);
    if u.session.Lost? {
      Daemon.ReachesFarther(p, s, t, FreeHands(g, now));
    } else {
      WaveIsReached(p, g, now, k, u);
      Daemon.ReachesFarther(p, s, t, InHand(g, now, k, true, 0));
      Daemon.ReachesFarther(p, s, InHand(g, now, k, true, 0), FreeHands(AfterUse(f, k, u, now), now));
    }
  }

  /** An account that was picked and let go unused. */
  lemma PickIsReached(p: Daemon.Setup, f: Fleet, now: Time, excluded: set<AccountId>, k: AccountId)
    requires IsPick(p.autoLogin, f, now, excluded, Some(k)) && k in f.accounts
    ensures Daemon.Reaches(p, FreeHands(f, now), FreeHands(f, now))
  {
    var s, t := FreeHands(f, now), InHand(f, now, k, false, 0);
    Daemon.ReachesItself(p, s);
    Daemon.ReachesNext(p, s, s, Daemon.Pick(k, excluded), t);
    Daemon.ReachesNext(p, s, t, Daemon.Release, s);
  }

  lemma NoWave(f: Fleet, k: AccountId, now: Time)
    requires k in f.accounts
    ensures AfterWave(f, k, 0, None, now) == f
  {
  }

  /** One more send of a wave, counted or blocked. */
  lemma OutcomeAdds(f: Fleet, k: AccountId, n: nat, now: Time)
    requires k in f.accounts
    ensures var g := AfterWave(f, k, n, None, now);
      && Put(g, k, WaveProgressed(g.accounts[k])) == AfterWave(f, k, n + 1, None, now)
      && forall b :: BlockHandled(g, k, b, now) == AfterWave(f, k, n, Some(b), now)
  {
  }

  /** What the turn does to the row of the account. */
  lemma RowAfterUse(f: Fleet, k: AccountId, u: Use, now: Time)
    requires k in f.accounts && WellUsed(u)
    ensures var g := AfterUse(f, k, u, now); var n := if u.session.Lost? then 0 else u.n;
      && k in g.accounts && g.accounts == f.accounts[k := g.accounts[k]]
      && g.accounts[k].sentToday == f.accounts[k].sentToday + n
      && g.accounts[k].waveSent < MSGS_PER_WAVE + n
  {
  }

  /** A block ends the turn with an account that cannot be picked. */
  lemma BlockedIsOut(autoLogin: bool, f: Fleet, k: AccountId, u: Use, now: Time)
    requires k in f.accounts && WellUsed(u) && !u.session.Lost? && u.block.Some?
    ensures !Pickable(autoLogin, AfterUse(f, k, u, now).accounts[k], now)
  {
  }

  lemma IdleUse(f: Fleet, k: AccountId, now: Time)
    requires k in f.accounts
    ensures AfterUse(f, k, Use(StillValid, 0, None, false), now) == Put(f, k, WaveStarted(f.accounts[k], now))
  {
  }

  /** The table after a turn, the account being used or not. */
  function AfterTurn(f: Fleet, k: AccountId, used: Option<Use>, now: Time): Fleet
    requires k in f.accounts
  {
    if used.Some? then AfterUse(f, k, used.value, now) else f
  }

  lemma TurnIsReached(p: Daemon.Setup, f: Fleet, now: Time, excluded: set<AccountId>, k: AccountId, used: Option<Use>)
    requires IsPick(p.autoLogin, f, now, excluded, Some(k)) && k in f.accounts && (used.Some? ==> WellUsed(used.value))
    ensures Daemon.Reaches(p, FreeHands(f, now), FreeHands(AfterTurn(f, k, used, now), now))
  {
    if used.Some? {
      UseIsReached(p, f, now, excluded, k, used.value);
    } else {
      PickIsReached(p, f, now, excluded, k);
    }
  }
}
