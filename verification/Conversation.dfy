/** Polling a thread and taking the conversation turn: what is written, when the bot may answer, how often. */
module Conversation {
  import opened Records
  import opened Gate
  import opened Merge
  import opened Writes
  import opened Sync
  import opened Sending

  datatype Intent = Rejected | Interested | Ambiguous

  /** The host's words as the classifiers read them, and what becomes of the bot's answer: whether it is seen to be
      delivered, and whether, if not, it reached the host all the same - a flag that no code reads. */
  datatype Reading = Reading(text: string, intent: Intent, tag: string, acceptsMeeting: bool, delivered: bool,
      posted: bool,
                             answer: string)

  datatype TurnOutcome =
    | SkippedPaused
    | SkippedNoThread
    | SkippedNoInbound
    | SkippedAlreadyReplied
    | SkippedAmbiguous
    | TurnClosedLost
    | TurnTakenOver
    | TurnReplied
    | TurnFailed

  datatype Turn = Turn(log: seq<Write>, outcome: TurnOutcome)

  predicate IsOutboundActive(s: LeadStatus) {
    s.InitialMsgSent? || s.FollowUp1Sent? || s.FollowUp2Sent? || s.FollowUp3Sent?
  }

  /** The messages of one lead, in order of recording. */
  function MessagesOf(ms: seq<Message>, id: LeadId): seq<Message> {
    if ms == [] then []
    else MessagesOf(ms[..|ms| - 1], id) + if ms[|ms| - 1].lead == id then [ms[|ms| - 1]] else []
  }

  /** The last `n` of them: the bounded history the turn looks at. */
  function Recent(ms: seq<Message>, id: LeadId, n: nat): seq<Message> {
    var mine := MessagesOf(ms, id);
    if |mine| <= n then mine else mine[|mine| - n..]
  }

  predicate AlreadySentCuriosity(ms: seq<Message>) {
    exists i :: 0 <= i < |ms| && IsCuriosity(ms[i])
  }

  /** The index of the latest inbound message of the lead, -1 when there is none. */
  function LatestInbound(ms: seq<Message>, id: LeadId): (i: int)
    ensures -1 <= i < |ms|
    ensures i >= 0 ==> ms[i].lead == id && ms[i].direction.Inbound?
    ensures forall j :: i < j < |ms| ==> !(ms[j].lead == id && ms[j].direction.Inbound?)
  {
    if ms == [] then -1
    else if ms[|ms| - 1].lead == id && ms[|ms| - 1].direction.Inbound? then |ms| - 1
    else LatestInbound(ms[..|ms| - 1], id)
  }

  function TagLog(ms: seq<Message>, id: LeadId, tag: string): seq<Write> {
    var i := LatestInbound(ms, id);
    if i >= 0 && ms[i].intent.None? then [Tag(i, tag)] else []
  }

  function Note(id: LeadId, text: string, intent: string): Message { Message(id, System, text, Some(intent)) }

  const CLOSE_LOST := "CLOSE_LOST"
  const TAKEOVER := "HUMAN_TAKEOVER"

  function CuriosityMessage(id: LeadId, text: string): Message { Message(id, Outbound, text, Some(CURIOSITY_REPLY)) }

  /** The decision of the turn once there is something to answer: the writes after the tag. */
  function DecisionLog(db: Db, id: LeadId, r: Reading, history: nat, now: Time): Turn
    requires id in db.leads
  {
    var l := db.leads[id];
    if r.intent.Rejected? then
      Turn([Say(Note(id, r.text, CLOSE_LOST)), Update(id, l.(status := ClosedLost, nextFollowUp := None))],
          TurnClosedLost)
    else if AlreadySentCuriosity(Recent(db.messages, id, history)) then
      if r.acceptsMeeting then
        Turn([Say(Note(id, r.text, TAKEOVER)), Update(id, l.(status := HumanTakeover, nextFollowUp := None))],
            TurnTakenOver)
      else Turn([], SkippedAlreadyReplied)
    else if !r.intent.Interested? then Turn([], SkippedAmbiguous)
    else if !r.delivered then Turn([], TurnFailed)
    else Turn([Say(CuriosityMessage(id, r.answer)), Update(id, l.(lastContacted := Some(now)))], TurnReplied)
  }

  /** `runConversationTurn`: paused leads, leads without a thread and empty readings are left alone. */
  function RunTurn(db: Db, id: LeadId, reading: Option<Reading>, history: nat, now: Time): Turn
    requires id in db.leads
  {
    var l := db.leads[id];
    if IsAiPaused(l.status) then Turn([], SkippedPaused)
    else if l.thread.None? then Turn([], SkippedNoThread)
    else
      match reading
      case None => Turn([], SkippedNoInbound)
      case Some(r) =>
        var d := DecisionLog(db, id, r, history, now);
        Turn(TagLog(db.messages, id, r.tag) + d.log, d.outcome)
  }

  /** `applyInboundDetected`. */
  function DetectedLog(db: Db, id: LeadId, now: Time): seq<Write>
    requires id in db.leads
  {
    if IsOutboundActive(db.leads[id].status)
    then [Update(id, db.leads[id].(status := RepliedInProgress, nextFollowUp := None, lastContacted := Some(now)))]
    else []
  }

  function SyncedDb(rules: Rules, db: Db, id: LeadId, scraped: seq<Scraped>): Db {
    db.(messages := db.messages + SyncedRows(rules, db.messages, id, scraped))
  }

  /** What the poll does before the turn, and whether the turn follows: a first reply moves the lead on, a later
      one only refreshes its date. `scrapedReply` tells whether the scrape holds a meaningful inbound. */
  function ReplyLog(db: Db, id: LeadId, seen: LeadStatus, inboundNew: nat, scrapedReply: bool,
                    now: Time): (seq<Write>, bool)
    requires id in db.leads
  {
    if inboundNew == 0 && !scrapedReply then ([], false)
    else if IsOutboundActive(seen) then (DetectedLog(db, id, now), true)
    else if seen.RepliedInProgress? then ([Update(id, db.leads[id].(lastContacted := Some(now)))], true)
    else ([], false)
  }

  function AfterReply(db: Db, id: LeadId, seen: LeadStatus, inboundNew: nat, scrapedReply: bool, now: Time): (r: Db)
    requires id in db.leads
    ensures r.leads.Keys == db.leads.Keys
  {
    var w := ReplyLog(db, id, seen, inboundNew, scrapedReply, now).0;
    if w == [] then db else db.(leads := db.leads[id := w[0].row])
  }

  /** `pollLeadThread` on a lead last seen with status `seen`. */
  function Poll(rules: Rules, db: Db, id: LeadId, seen: LeadStatus, scraped: seq<Scraped>, scrapedReply: bool,
                reading: Option<Reading>, history: nat, now: Time): seq<Write>
    requires id in db.leads
  {
    var rows := SyncedRows(rules, db.messages, id, scraped);
    var synced := SyncedDb(rules, db, id, scraped);
    var inboundNew := CountDir(rows, Inbound);
    var reply := ReplyLog(synced, id, seen, inboundNew, scrapedReply, now);
    var after := AfterReply(synced, id, seen, inboundNew, scrapedReply, now);
    Says(rows) + reply.0 + if reply.1 then RunTurn(after, id, reading, history, now).log else []
  }

  // ---------- legality ----------

  lemma NotesArePlain(id: LeadId, text: string)
    ensures Plain(Note(id, text, CLOSE_LOST)) && Plain(Note(id, text, TAKEOVER))
    ensures forall p :: !IsTemplate(CuriosityMessage(id, text), p)
  {
    forall p
      ensures !IsTemplate(CuriosityMessage(id, text), p)
    {
      TagsDiffer(p);
    }
  }

  lemma SayThenUpdate(db: Db, m: Message, id: LeadId, row: Lead)
    requires Consistent(db) && Legal(db, Say(m)) && Legal(db, Update(id, row))
    ensures LegalLog(db, [Say(m), Update(id, row)])
  {
    RunOne(db, Say(m));
    RunSnoc(db, [Say(m)], Update(id, row));
    assert [Say(m), Update(id, row)] == [Say(m)] + [Update(id, row)];
  }

  lemma TagRuns(db: Db, id: LeadId, tag: string)
    requires Consistent(db)
    ensures LegalLog(db, TagLog(db.messages, id, tag))
    ensures Replay(db, TagLog(db.messages, id, tag)).leads == db.leads
    ensures Consistent(Replay(db, TagLog(db.messages, id, tag)))
  {
    var i := LatestInbound(db.messages, id);
    if i >= 0 && db.messages[i].intent.None? {
      RunOne(db, Tag(i, tag));
      WriteKeepsIndices(db, Tag(i, tag));
    }
  }

  lemma DecisionRuns(db: Db, n: Db, id: LeadId, r: Reading, history: nat, now: Time)
    requires Consistent(n) && id in db.leads && n.leads == db.leads && !IsAiPaused(db.leads[id].status)
    ensures LegalLog(n, DecisionLog(db, id, r, history, now).log)
  {
    NotesArePlain(id, r.text);
    NotesArePlain(id, r.answer);
    var log := DecisionLog(db, id, r, history, now).log;
    if log != [] {
      SayThenUpdate(n, log[0].msg, id, log[1].row);
      assert log == [log[0], log[1]];
    }
  }

  lemma TurnRuns(db: Db, id: LeadId, reading: Option<Reading>, history: nat, now: Time)
    requires Consistent(db) && id in db.leads
    ensures LegalLog(db, RunTurn(db, id, reading, history, now).log)
  {
    if !IsAiPaused(db.leads[id].status) && db.leads[id].thread.Some? && reading.Some? {
      var tag := TagLog(db.messages, id, reading.value.tag);
      TagRuns(db, id, reading.value.tag);
      DecisionRuns(db, Replay(db, tag), id, reading.value, history, now);
      RunConcat(db, tag, DecisionLog(db, id, reading.value, history, now).log);
    }
  }

  lemma SameThreadUpdateRuns(db: Db, id: LeadId, row: Lead)
    requires Sound(db) && id in db.leads && row.host == db.leads[id].host && row.thread == db.leads[id].thread
    requires Rank(db.leads[id].status) <= Rank(row.status)
    ensures Run(db, [Update(id, row)]) == Some(db.(leads := db.leads[id := row]))
  {
    RunOne(db, Update(id, row));
  }

  lemma ReplyRuns(db: Db, id: LeadId, seen: LeadStatus, inboundNew: nat, scrapedReply: bool, now: Time)
    requires Consistent(db) && id in db.leads
    ensures Run(db, ReplyLog(db, id, seen, inboundNew, scrapedReply, now).0)
      == Some(AfterReply(db, id, seen, inboundNew, scrapedReply, now))
  {
    var w := ReplyLog(db, id, seen, inboundNew, scrapedReply, now).0;
    if w != [] {
      SameThreadUpdateRuns(db, id, w[0].row);
      assert w == [Update(id, w[0].row)];
    }
  }

  /** A poll writes a legal log, even when the status it started from is out of date. */
  lemma PollRuns(rules: Rules, db: Db, id: LeadId, seen: LeadStatus, scraped: seq<Scraped>, scrapedReply: bool,
                 reading: Option<Reading>, history: nat, now: Time)
    requires Consistent(db) && id in db.leads
    ensures LegalLog(db, Poll(rules, db, id, seen, scraped, scrapedReply, reading, history, now))
  {
    var rows := SyncedRows(rules, db.messages, id, scraped);
    SyncedRowsArePlain(rules, db.messages, id, scraped);
    SaysRun(db, rows);
    RunKeepsIndices(db, Says(rows));
    var synced := SyncedDb(rules, db, id, scraped);
    var inboundNew := CountDir(rows, Inbound);
    var reply := ReplyLog(synced, id, seen, inboundNew, scrapedReply, now);
    ReplyRuns(synced, id, seen, inboundNew, scrapedReply, now);
    RunConcat(db, Says(rows), reply.0);
    RunKeepsIndices(synced, reply.0);
    var after := AfterReply(synced, id, seen, inboundNew, scrapedReply, now);
    TurnRuns(after, id, reading, history, now);
    if reply.1 {
      RunConcat(db, Says(rows) + reply.0, RunTurn(after, id, reading, history, now).log);
    } else {
      assert Says(rows) + reply.0 + [] == Says(rows) + reply.0;
    }
  }

  // ---------- how often the bot answers ----------

  /** Between any two bot replies of the sequence lie at least `n` other messages. */
  ghost predicate Spaced(ms: seq<Message>, n: nat) {
    forall i, j :: 0 <= i < j < |ms| && IsCuriosity(ms[i]) && IsCuriosity(ms[j]) ==> j - i > n
  }

  /** Every lead's bot replies are spaced. */
  ghost predicate AllSpaced(db: Db, n: nat) {
    forall id :: Spaced(MessagesOf(db.messages, id), n)
  }

  lemma MessagesOfSnoc(ms: seq<Message>, m: Message, id: LeadId)
    ensures MessagesOf(ms + [m], id) == MessagesOf(ms, id) + if m.lead == id then [m] else []
  {
    assert (ms + [m])[..|ms|] == ms;
  }

  lemma {:induction false} TagKeepsKinds(ms: seq<Message>, i: nat, t: string, id: LeadId)
    requires i < |ms| && ms[i].direction.Inbound?
    ensures var a, b := MessagesOf(ms, id), MessagesOf(ms[i := ms[i].(intent := Some(t))], id);
      |a| == |b| && forall k :: 0 <= k < |a| ==> (IsCuriosity(a[k]) <==> IsCuriosity(b[k]))
  {
    var ns := ms[i := ms[i].(intent := Some(t))];
    var front, m := ms[..|ms| - 1], ms[|ms| - 1];
    assert ms == front + [m];
    MessagesOfSnoc(front, m, id);
    if i == |ms| - 1 {
      assert ns == front + [ns[i]];
      MessagesOfSnoc(front, ns[i], id);
    } else {
      TagKeepsKinds(front, i, t, id);
      assert ns == front[i := front[i].(intent := Some(t))] + [m];
      MessagesOfSnoc(front[i := front[i].(intent := Some(t))], m, id);
    }
  }

  /** A write of a bot reply, if it is one, was decided by the turn on a store whose last `n` messages of the lead
      hold none. */
  ghost predicate TurnDecides(db: Db, w: Write, n: nat) {
    w.Say? && IsCuriosity(w.msg) ==> !AlreadySentCuriosity(Recent(db.messages, w.msg.lead, n))
  }

  lemma SpacingKept(db: Db, w: Write, n: nat)
    requires AllSpaced(db, n) && Legal(db, w) && TurnDecides(db, w, n) && !w.Absorb?
    ensures AllSpaced(Apply(db, w), n)
  {
    forall id
      ensures Spaced(MessagesOf(Apply(db, w).messages, id), n)
    {
      if w.Say? {
        SayKeepsSpacing(db.messages, w.msg, id, n);
      } else if w.Tag? {
        TagKeepsKinds(db.messages, w.index, w.intent, id);
      }
    }
  }

  lemma SayKeepsSpacing(ms: seq<Message>, m: Message, id: LeadId, n: nat)
    requires Spaced(MessagesOf(ms, id), n)
    requires m.lead == id && IsCuriosity(m) ==> !AlreadySentCuriosity(Recent(ms, id, n))
    ensures Spaced(MessagesOf(ms + [m], id), n)
  {
    MessagesOfSnoc(ms, m, id);
    var mine := MessagesOf(ms, id);
    if m.lead == id && IsCuriosity(m) {
      var recent := Recent(ms, id, n);
      var older := |mine| - |recent|;
      forall i | 0 <= i < |mine|
        ensures IsCuriosity(mine[i]) ==> |mine| - i > n
      {
        if i >= older {
          assert recent[i - older] == mine[i];
        }
      }
    }
  }

  ghost predicate TurnsDecide(db: Db, log: seq<Write>, n: nat)
    requires LegalLog(db, log)
  {
    forall i: nat :: i < |log| ==>
      !log[i].Absorb? && (LogPrefix(db, log, i); TurnDecides(Replay(db, log[..i]), log[i], n))
  }

  /** Without merges, any two bot replies the turns write on one lead have at least the history limit's number of that
      lead's messages recorded between them, over every run. */
  lemma {:induction false} BotRepliesAreSpaced(db: Db, log: seq<Write>, n: nat)
    requires AllSpaced(db, n) && LegalLog(db, log) && TurnsDecide(db, log, n)
    ensures AllSpaced(Replay(db, log), n)
    decreases |log|
  {
    if log != [] {
      var k := |log| - 1;
      var front := log[..k];
      LogPrefix(db, log, k);
      forall i: nat | i < |front|
        ensures !front[i].Absorb? && (LogPrefix(db, front, i); TurnDecides(Replay(db, front[..i]), front[i], n))
      {
        LogPrefix(db, log, i);
        LogPrefix(db, front, i);
        assert front[..i] == log[..i];
      }
      BotRepliesAreSpaced(db, front, n);
      LogEntry(db, log, k);
      assert log[..k + 1] == log;
      SpacingKept(Replay(db, front), log[k], n);
    }
  }

  /** The turn itself decides its bot reply that way: the tag it writes first changes no bot reply. */
  lemma TurnDecidesItsReply(db: Db, id: LeadId, reading: Option<Reading>, history: nat, now: Time)
    requires Consistent(db) && id in db.leads
    ensures var log := RunTurn(db, id, reading, history, now).log;
      LegalLog(db, log) && TurnsDecide(db, log, history)
  {
    TurnRuns(db, id, reading, history, now);
    var log := RunTurn(db, id, reading, history, now).log;
    forall i: nat | i < |log|
      ensures !log[i].Absorb? && (LogPrefix(db, log, i); TurnDecides(Replay(db, log[..i]), log[i], history))
    {
      LogPrefix(db, log, i);
      if log[i].Say? && IsCuriosity(log[i].msg) {
        ReplyPlace(db, id, reading, history, now, i);
        TagKeepsHistory(db, id, reading.value.tag, history);
      }
    }
  }

  lemma ReplyPlace(db: Db, id: LeadId, reading: Option<Reading>, history: nat, now: Time, i: nat)
    requires id in db.leads
    requires var log := RunTurn(db, id, reading, history, now).log; i < |log| && log[i].Say? && IsCuriosity(log[i].msg)
    ensures reading.Some? && !AlreadySentCuriosity(Recent(db.messages, id, history))
    ensures var log := RunTurn(db, id, reading, history, now).log;
      log[i].msg.lead == id && log[..i] == TagLog(db.messages, id, reading.value.tag)
  {
    var d := DecisionLog(db, id, reading.value, history, now).log;
    var tag := TagLog(db.messages, id, reading.value.tag);
    assert RunTurn(db, id, reading, history, now).log == tag + d;
    assert (tag + d)[..|tag|] == tag;
  }

  lemma TagKeepsHistory(db: Db, id: LeadId, tag: string, n: nat)
    requires Consistent(db)
    ensures LegalLog(db, TagLog(db.messages, id, tag))
    ensures AlreadySentCuriosity(Recent(Replay(db, TagLog(db.messages, id, tag)).messages, id, n))
       <==> AlreadySentCuriosity(Recent(db.messages, id, n))
  {
    TagRuns(db, id, tag);
    var log := TagLog(db.messages, id, tag);
    if log != [] {
      RunOne(db, log[0]);
      TagKeepsRecent(db.messages, log[0].index, log[0].intent, id, n);
    }
  }

  lemma TagKeepsRecent(ms: seq<Message>, i: nat, t: string, id: LeadId, n: nat)
    requires i < |ms| && ms[i].direction.Inbound?
    ensures AlreadySentCuriosity(Recent(ms[i := ms[i].(intent := Some(t))], id, n))
       <==> AlreadySentCuriosity(Recent(ms, id, n))
  {
    TagKeepsKinds(ms, i, t, id);
    var a, b := Recent(ms, id, n), Recent(ms[i := ms[i].(intent := Some(t))], id, n);
    forall k | 0 <= k < |a|
      ensures IsCuriosity(a[k]) <==> IsCuriosity(b[k])
    {
    }
    if AlreadySentCuriosity(a) {
      var k :| 0 <= k < |a| && IsCuriosity(a[k]);
      assert IsCuriosity(b[k]);
    }
    if AlreadySentCuriosity(b) {
      var k :| 0 <= k < |b| && IsCuriosity(b[k]);
      assert IsCuriosity(a[k]);
    }
  }
}
