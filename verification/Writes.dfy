/** Single writes to the store, the discipline every pipeline job keeps, and what holds over every run of them. */
module Writes {
  import opened Records
  import opened Merge
  import opened Recanonical

  datatype Phase = Phase1Cold | Phase2Ops | Phase3Bi | Phase4Breakup

  function PhaseForStatus(s: LeadStatus): Option<Phase> {
    match s
    case LeadDiscovered => Some(Phase1Cold)
    case InitialMsgSent => Some(Phase2Ops)
    case FollowUp1Sent => Some(Phase3Bi)
    case FollowUp2Sent => Some(Phase4Breakup)
    case _ => None
  }

  function NextStatus(p: Phase): LeadStatus {
    match p
    case Phase1Cold => InitialMsgSent
    case Phase2Ops => FollowUp1Sent
    case Phase3Bi => FollowUp2Sent
    case Phase4Breakup => ClosedLost
  }

  function PhaseTag(p: Phase): string {
    match p
    case Phase1Cold => "PHASE_1_COLD"
    case Phase2Ops => "PHASE_2_OPS"
    case Phase3Bi => "PHASE_3_BI"
    case Phase4Breakup => "PHASE_4_BREAKUP"
  }

  const CURIOSITY_REPLY := "CURIOSITY_REPLY"

  predicate IsAiPaused(s: LeadStatus) {
    s.HumanTakeover? || s.ClosedWon? || s.ClosedLost?
  }

  /** An outbound template message of the given phase. */
  predicate IsTemplate(m: Message, p: Phase) {
    m.direction.Outbound? && m.intent == Some(PhaseTag(p))
  }

  predicate IsCold(m: Message) { IsTemplate(m, Phase1Cold) }

  predicate IsCuriosity(m: Message) {
    m.direction.Outbound? && m.intent == Some(CURIOSITY_REPLY)
  }

  /** A message found in the thread: it was sent before. */
  predicate IsCopy(m: Message) {
    m.direction.Outbound? && m.intent == Some(THREAD_SYNC)
  }

  predicate IsAnyTemplate(m: Message) {
    IsTemplate(m, Phase1Cold) || IsTemplate(m, Phase2Ops) || IsTemplate(m, Phase3Bi) || IsTemplate(m, Phase4Breakup)
  }

  datatype Write =
    | Create(id: LeadId, row: Lead)
    | Update(id: LeadId, row: Lead)
    | Say(msg: Message)
    | Tag(index: nat, intent: string)
    | LinkAlias(aliasId: HostId, canonical: HostId, lead: Option<LeadId>)
    | Mark(id: LeadId, contact: Contact)
    | Absorb(survivor: LeadId, duplicate: LeadId)

  /** The indices and keys accept the write. */
  predicate Possible(db: Db, w: Write) {
    match w
    case Create(id, row) => id !in db.leads && HostFree(db.leads, row.host) && ThreadFree(db.leads, id, row.thread)
    case Update(id, row) => id in db.leads && row.host == db.leads[id].host && ThreadFree(db.leads, id, row.thread)
    case Say(m) => m.lead in db.leads
    case Tag(i, _) => i < |db.messages|
    case LinkAlias(_, _, _) => true
    case Mark(id, contact) => id in db.leads && id !in db.contacts && ContactHostFree(db.contacts, id, contact.host)
    case Absorb(c, d) => c in db.leads && d in db.leads && c != d && MergeCommits(db, c, d)
  }

  function Apply(db: Db, w: Write): Db
    requires Possible(db, w)
  {
    match w
    case Create(id, row) => db.(leads := db.leads[id := row])
    case Update(id, row) => db.(leads := db.leads[id := row])
    case Say(m) => db.(messages := db.messages + [m])
    case Tag(i, t) => db.(messages := db.messages[i := db.messages[i].(intent := Some(t))])
    case LinkAlias(a, c, l) => db.(aliases := db.aliases[a := Alias(c, l)])
    case Mark(id, contact) => db.(contacts := db.contacts[id := contact])
    case Absorb(c, d) => Merged(db, c, d)
  }

  /** What the pipeline's own code guarantees of a write, beyond the indices: new leads are fresh, a status never
      loses rank nor a lead its thread, an outbound message is a template, a bot reply or a copy, a template goes out
      only in the phase of the lead's status, a bot reply never to a paused lead, only inbound messages are tagged,
      and a ledger row carries its lead's own host id. */
  predicate Disciplined(db: Db, w: Write)
    requires Possible(db, w)
  {
    match w
    case Create(_, row) => IsFresh(row)
    case Update(id, row) =>
      Rank(db.leads[id].status) <= Rank(row.status) && (db.leads[id].thread.Some? ==> row.thread.Some?)
    case Say(m) =>
      && (forall p :: IsTemplate(m, p) ==> PhaseForStatus(db.leads[m.lead].status) == Some(p))
      && (IsCuriosity(m) ==> !IsAiPaused(db.leads[m.lead].status))
      && (m.direction.Outbound? ==> IsAnyTemplate(m) || IsCuriosity(m) || IsCopy(m))
    case Tag(i, _) => db.messages[i].direction.Inbound?
    case Mark(id, contact) => contact.host == db.leads[id].host
    case _ => true
  }

  predicate Legal(db: Db, w: Write) {
    Possible(db, w) && Disciplined(db, w)
  }

  function Step(db: Db, w: Write): Option<Db> {
    if Legal(db, w) then Some(Apply(db, w)) else None
  }

  /** The store after a log of writes, each legal when it is made; None when one of them is not. */
  ghost function Run(db: Db, log: seq<Write>): Option<Db> {
    if log == [] then Some(db)
    else
      var before := Run(db, log[..|log| - 1]);
      if before.None? then None else Step(before.value, log[|log| - 1])
  }

  ghost predicate LegalLog(db: Db, log: seq<Write>) { Run(db, log).Some? }

  ghost function Replay(db: Db, log: seq<Write>): Db
    requires LegalLog(db, log)
  {
    Run(db, log).value
  }

  /** The tables after a log, whatever the log: an impossible write changes nothing. */
  ghost function Exec(db: Db, log: seq<Write>): Db {
    if log == [] then db
    else
      var before := Exec(db, log[..|log| - 1]);
      if Possible(before, log[|log| - 1]) then Apply(before, log[|log| - 1]) else before
  }

  lemma {:induction false} RunIsExec(db: Db, log: seq<Write>)
    requires LegalLog(db, log)
    ensures Run(db, log) == Some(Exec(db, log))
  {
    if log != [] {
      RunIsExec(db, log[..|log| - 1]);
    }
  }

  lemma RunSnoc(db: Db, log: seq<Write>, w: Write)
    ensures Run(db, log + [w]) == if Run(db, log).None? then None else Step(Run(db, log).value, w)
  {
    assert (log + [w])[..|log|] == log;
  }

  lemma RunOne(db: Db, w: Write)
    ensures Run(db, [w]) == Step(db, w)
  {
    RunSnoc(db, [], w);
    assert [] + [w] == [w];
  }

  lemma {:induction false} RunConcat(db: Db, a: seq<Write>, b: seq<Write>)
    ensures Run(db, a + b) == if Run(db, a).None? then None else Run(Run(db, a).value, b)
    decreases |b|
  {
    if b == [] {
      assert a + b == a;
    } else {
      var front, w := b[..|b| - 1], b[|b| - 1];
      RunConcat(db, a, front);
      RunSnoc(db, a + front, w);
      assert a + b == (a + front) + [w];
    }
  }

  lemma {:induction false} ExecConcat(db: Db, a: seq<Write>, b: seq<Write>)
    ensures Exec(db, a + b) == Exec(Exec(db, a), b)
    decreases |b|
  {
    if b == [] {
      assert a + b == a;
    } else {
      ExecConcat(db, a, b[..|b| - 1]);
      assert (a + b)[..|a + b| - 1] == a + b[..|b| - 1];
    }
  }

  /** A run may stop after any write: every prefix of a legal log is legal, and so is what follows it. */
  lemma LogPrefix(db: Db, log: seq<Write>, n: nat)
    requires LegalLog(db, log) && n <= |log|
    ensures LegalLog(db, log[..n])
    ensures Run(Replay(db, log[..n]), log[n..]) == Run(db, log)
  {
    RunConcat(db, log[..n], log[n..]);
    assert log[..n] + log[n..] == log;
  }

  lemma LogEntry(db: Db, log: seq<Write>, i: nat)
    requires LegalLog(db, log) && i < |log|
    ensures LegalLog(db, log[..i]) && Legal(Replay(db, log[..i]), log[i])
    ensures Run(db, log[..i + 1]) == Some(Apply(Replay(db, log[..i]), log[i]))
  {
    LogPrefix(db, log, i + 1);
    RunSnoc(db, log[..i], log[i]);
    assert log[..i + 1] == log[..i] + [log[i]];
  }

  // ---------- what one write keeps ----------

  lemma WriteKeepsIndices(db: Db, w: Write)
    requires Consistent(db) && Legal(db, w)
    ensures Consistent(Apply(db, w))
  {
    match w
    case Absorb(c, d) =>
      MergeKeepsIndices(db, c, d);
      MergeKeepsLedger(db, c, d);
    case Create(id, row) => CreationKeepsIndices(db, id, row);
    case Update(id, row) => UpdateKeepsIndices(db, id, row);
    case _ =>
  }

  lemma MergeKeepsLedger(db: Db, c: LeadId, d: LeadId)
    requires LedgerNamesOwner(db) && c in db.leads && d in db.leads && c != d
    ensures LedgerNamesOwner(Merged(db, c, d))
  {
  }

  lemma UpdateKeepsIndices(db: Db, id: LeadId, row: Lead)
    requires Sound(db) && Possible(db, Update(id, row))
    ensures Sound(Apply(db, Update(id, row)))
  {
    var n := db.leads[id := row];
    forall j, k | j in n && k in n && n[j].host == n[k].host
      ensures j == k
    {
      assert db.leads[j].host == db.leads[k].host;
    }
  }

  /** The lead that carries on a lead's history after one write. */
  function Successor(w: Write, l: LeadId): LeadId {
    if w.Absorb? && w.duplicate == l then w.survivor else l
  }

  lemma WriteKeepsContact(db: Db, w: Write, l: LeadId)
    requires Consistent(db) && Legal(db, w) && l in db.leads
    ensures var n, s := Apply(db, w), Successor(w, l);
      && s in n.leads
      && (Contacted(db, l) ==> Contacted(n, s))
      && Rank(db.leads[l].status) <= Rank(n.leads[s].status)
  {
    match w
    case Absorb(c, d) =>
      MergeKeepsContact(db, c, d);
      MergeKeepsRank(db.leads[c], db.leads[d]);
    case Say(m) => OutboundStays(db.messages, Apply(db, w).messages, l);
    case Tag(t, _) => OutboundStays(db.messages, Apply(db, w).messages, l);
    case _ =>
  }

  lemma OutboundStays(a: seq<Message>, b: seq<Message>, l: LeadId)
    requires |a| <= |b| && forall i :: 0 <= i < |a| ==> b[i].lead == a[i].lead && b[i].direction == a[i].direction
    ensures HasOutbound(a, l) ==> HasOutbound(b, l)
  {
    if i :| 0 <= i < |a| && a[i].lead == l && a[i].direction.Outbound? {
      assert b[i].direction.Outbound?;
    }
  }

  // ---------- over every run ----------

  /** The lead that carries on `l`'s history after the log: merges hand it on. */
  ghost function Heir(log: seq<Write>, l: LeadId): LeadId {
    if log == [] then l else Successor(log[|log| - 1], Heir(log[..|log| - 1], l))
  }

  lemma {:induction false} RunKeepsIndices(db: Db, log: seq<Write>)
    requires Consistent(db) && LegalLog(db, log)
    ensures Consistent(Replay(db, log))
    decreases |log|
  {
    if log != [] {
      RunKeepsIndices(db, log[..|log| - 1]);
      WriteKeepsIndices(Replay(db, log[..|log| - 1]), log[|log| - 1]);
    }
  }

  /** Contact is permanent and rank never falls: whatever a run does, the heir of a contacted lead is contacted and
      stands at least as high in the pipeline. */
  lemma {:induction false} ContactIsPermanent(db: Db, log: seq<Write>, l: LeadId)
    requires Consistent(db) && LegalLog(db, log) && l in db.leads
    ensures var n, h := Replay(db, log), Heir(log, l);
      && h in n.leads
      && (Contacted(db, l) ==> Contacted(n, h))
      && Rank(db.leads[l].status) <= Rank(n.leads[h].status)
    decreases |log|
  {
    if log != [] {
      var front := log[..|log| - 1];
      ContactIsPermanent(db, front, l);
      RunKeepsIndices(db, front);
      WriteKeepsContact(Replay(db, front), log[|log| - 1], Heir(front, l));
    }
  }

  /** Once a lead has replied no template reaches it or its heirs any more, and what goes out is a bot reply; once it
      is paused nothing is sent to it at all: an outbound row is a copy of what its thread already holds. */
  lemma RepliedLeadsAreLeftAlone(db: Db, log: seq<Write>, l: LeadId, i: nat)
    requires Consistent(db) && LegalLog(db, log) && l in db.leads && i < |log|
    requires log[i].Say? && log[i].msg.lead == Heir(log[..i], l)
    ensures Rank(db.leads[l].status) >= Rank(RepliedInProgress) ==> forall p :: !IsTemplate(log[i].msg, p)
    ensures Rank(db.leads[l].status) >= Rank(RepliedInProgress) && log[i].msg.direction.Outbound? ==>
      IsCuriosity(log[i].msg) || IsCopy(log[i].msg)
    ensures IsAiPaused(db.leads[l].status) && log[i].msg.direction.Outbound? ==> IsCopy(log[i].msg)
  {
    LogEntry(db, log, i);
    ContactIsPermanent(db, log[..i], l);
    SaidInPhase(Replay(db, log[..i]), log[i].msg);
  }

  /** What may be said to a lead depends on its status. */
  lemma SaidInPhase(now: Db, m: Message)
    requires Legal(now, Say(m))
    ensures var status := now.leads[m.lead].status;
      && (Rank(status) >= Rank(RepliedInProgress) ==> forall p :: !IsTemplate(m, p))
      && (Rank(status) >= Rank(RepliedInProgress) && m.direction.Outbound? ==> IsCuriosity(m) || IsCopy(m))
      && (IsAiPaused(status) && m.direction.Outbound? ==> IsCopy(m))
  {
  }

  ghost predicate ColdAt(log: seq<Write>, i: nat) {
    i < |log| && log[i].Say? && IsCold(log[i].msg)
  }

  /** Every cold message of the log was recorded on a lead uncontacted in all four senses. */
  ghost predicate ColdOnlyOnUncontacted(db: Db, log: seq<Write>)
    requires LegalLog(db, log)
  {
    forall i: nat :: ColdAt(log, i) ==> ColdIsFirst(db, log, i)
  }

  ghost predicate ColdIsFirst(db: Db, log: seq<Write>, i: nat)
    requires LegalLog(db, log) && ColdAt(log, i)
  {
    LogPrefix(db, log, i);
    log[i].msg.lead in Replay(db, log[..i]).leads && !Contacted(Replay(db, log[..i]), log[i].msg.lead)
  }

  /** Never twice: no lineage of leads receives two cold messages in one run. */
  lemma NoSecondColdMessage(db: Db, log: seq<Write>, i: nat, j: nat)
    requires Consistent(db) && LegalLog(db, log) && ColdOnlyOnUncontacted(db, log)
    requires i < j && ColdAt(log, i) && ColdAt(log, j)
    ensures log[j].msg.lead != Heir(log[i + 1..j], log[i].msg.lead)
  {
    var m := log[i].msg;
    LogPrefix(db, log, j);
    assert ColdIsFirst(db, log, j);
    var early := log[..j];
    LogPrefix(db, early, i + 1);
    assert early[..i + 1] == log[..i + 1] && early[i + 1..] == log[i + 1..j];
    LogEntry(db, log, i);
    var after := Replay(db, log[..i + 1]);
    RunKeepsIndices(db, log[..i + 1]);
    assert after.messages[|after.messages| - 1] == m;
    assert Contacted(after, m.lead);
    ContactIsPermanent(after, log[i + 1..j], m.lead);
  }
}
