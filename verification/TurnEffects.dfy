/** What the conversation turn and the poll make of a host's words, on the tables they leave behind. */
module TurnEffects {
  import opened Records
  import opened Gate
  import opened Merge
  import opened Writes
  import opened Sync
  import opened Sending
  import opened Conversation

  // ---------- the history ----------

  /** Messages of the lead behind the `i`-th message. */
  ghost function LaterOf(ms: seq<Message>, id: LeadId, i: nat): set<int> {
    set j | i < j < |ms| && ms[j].lead == id
  }

  predicate IsBotReply(m: Message) {
    m.direction == Outbound && m.intent == Some("CURIOSITY_REPLY")
  }

  /** A bot reply with fewer than `n` messages of its lead behind it: it is among the lead's last `n`. */
  ghost predicate RepliedLately(ms: seq<Message>, id: LeadId, n: nat) {
    exists i: nat :: i < |ms| && ms[i].lead == id && IsBotReply(ms[i]) && |LaterOf(ms, id, i)| < n
  }

  lemma LaterOfMore(ms: seq<Message>, m: Message, id: LeadId, i: nat)
    requires i < |ms|
    ensures |LaterOf(ms + [m], id, i)| == |LaterOf(ms, id, i)| + if m.lead == id then 1 else 0
  {
    var all := ms + [m];
    assert LaterOf(all, id, i) == LaterOf(ms, id, i) + if m.lead == id then {|ms|} else {};
  }

  lemma RepliedLatelyMore(ms: seq<Message>, m: Message, id: LeadId, n: nat)
    ensures m.lead != id ==> (RepliedLately(ms + [m], id, n) <==> RepliedLately(ms, id, n))
    ensures m.lead == id && n > 0 ==>
      (RepliedLately(ms + [m], id, n) <==> IsBotReply(m) || RepliedLately(ms, id, n - 1))
  {
    var all := ms + [m];
    forall i: nat | i < |ms|
      ensures all[i] == ms[i] && |LaterOf(all, id, i)| == |LaterOf(ms, id, i)| + if m.lead == id then 1 else 0
    {
      LaterOfMore(ms, m, id, i);
    }
    assert LaterOf(all, id, |ms|) == {};
    assert all[|ms|] == m;
  }

  /** The bounded history holds a bot reply iff one has fewer than that many messages of the lead behind it. */
  lemma {:induction false} HistoryMeans(ms: seq<Message>, id: LeadId, n: nat)
    ensures AlreadySentCuriosity(Recent(ms, id, n)) <==> RepliedLately(ms, id, n)
  {
    if ms != [] {
      var front, m := ms[..|ms| - 1], ms[|ms| - 1];
      assert ms == front + [m];
      RepliedLatelyMore(front, m, id, n);
      MessagesOfSnoc(front, m, id);
      if m.lead != id {
        HistoryMeans(front, id, n);
        assert Recent(ms, id, n) == Recent(front, id, n);
      } else if n > 0 {
        HistoryMeans(front, id, n - 1);
        RecentMore(front, m, id, n);
      }
    }
  }

  lemma RecentMore(front: seq<Message>, m: Message, id: LeadId, n: nat)
    requires m.lead == id && n > 0
    ensures Recent(front + [m], id, n) == Recent(front, id, n - 1) + [m]
    ensures AlreadySentCuriosity(Recent(front + [m], id, n))
       <==> IsBotReply(m) || AlreadySentCuriosity(Recent(front, id, n - 1))
  {
    MessagesOfSnoc(front, m, id);
    var a, b := Recent(front, id, n - 1), Recent(front + [m], id, n);
    assert b == a + [m];
    assert b[|a|] == m;
    forall i | 0 <= i < |a|
      ensures b[i] == a[i]
    {
    }
  }

  // ---------- the turn ----------

  predicate Paused(s: LeadStatus) { s == HumanTakeover || s == ClosedWon || s == ClosedLost }

  /** The lead's inbound message behind which there is no other. */
  ghost predicate IsLatestInbound(ms: seq<Message>, id: LeadId, i: nat) {
    && i < |ms| && ms[i].lead == id && ms[i].direction == Inbound
    && forall j :: i < j < |ms| ==> ms[j].lead != id || ms[j].direction != Inbound
  }

  /** The latest inbound message has the tag, unless it had an intent; no other message has changed. */
  ghost predicate Tagged(before: seq<Message>, id: LeadId, tag: string, after: seq<Message>) {
    |after| == |before| && forall i: nat :: i < |before| ==>
      after[i] == if IsLatestInbound(before, id, i) && before[i].intent == None then before[i].(intent := Some(tag))
        else before[i]
  }

  lemma TagMeans(db: Db, id: LeadId, tag: string)
    requires Consistent(db)
    ensures LegalLog(db, TagLog(db.messages, id, tag)) && Consistent(Replay(db, TagLog(db.messages, id, tag)))
    ensures var n := Replay(db, TagLog(db.messages, id, tag));
      n == db.(messages := n.messages) && Tagged(db.messages, id, tag, n.messages)
  {
    TagRuns(db, id, tag);
    var i := LatestInbound(db.messages, id);
    if i >= 0 && db.messages[i].intent.None? {
      RunOne(db, Tag(i, tag));
    }
  }

  /** One message more, and the row of the lead. */
  ghost predicate Adds(before: Db, m: Message, id: LeadId, row: Lead, after: Db) {
    after == before.(messages := before.messages + [m], leads := before.leads[id := row])
  }

  /** What the decision writes on the tagged tables: a rejection closes the lead, an accepted meeting after a bot reply
      hands it to a person, the words of a host who is interested are answered if no answer was given lately, and
      nothing is written in any other case. */
  ghost predicate Decided(before: Db, id: LeadId, l: Lead, r: Reading, lately: bool, now: Time, after: Db) {
    && (r.intent == Rejected ==>
      Adds(before, Message(id, System, r.text, Some("CLOSE_LOST")), id,
        l.(status := ClosedLost, nextFollowUp := None), after))
    && (r.intent != Rejected && lately && r.acceptsMeeting ==>
      Adds(before, Message(id, System, r.text, Some("HUMAN_TAKEOVER")), id,
        l.(status := HumanTakeover, nextFollowUp := None), after))
    && (r.intent == Interested && !lately && r.delivered ==>
      Adds(before, Message(id, Outbound, r.answer, Some("CURIOSITY_REPLY")), id, l.(lastContacted := Some(now)),
        after))
    && (r.intent != Rejected && !(lately && r.acceptsMeeting) && !(r.intent == Interested && !lately && r.delivered)
      ==> after == before)
  }

  lemma DecisionMeans(db: Db, tagged: Db, id: LeadId, r: Reading, history: nat, now: Time)
    requires Consistent(tagged) && id in db.leads && tagged.leads == db.leads && !Paused(db.leads[id].status)
    ensures LegalLog(tagged, DecisionLog(db, id, r, history, now).log)
    ensures Decided(tagged, id, db.leads[id], r, RepliedLately(db.messages, id, history), now,
      Replay(tagged, DecisionLog(db, id, r, history, now).log))
  {
    HistoryMeans(db.messages, id, history);
    DecisionRuns(db, tagged, id, r, history, now);
    var log := DecisionLog(db, id, r, history, now).log;
    if log != [] {
      RunOne(tagged, log[0]);
      RunSnoc(tagged, [log[0]], log[1]);
      assert log == [log[0]] + [log[1]];
    }
  }

  /** The messages were `tagged` in between. */
  ghost predicate TaggedAndDecided(before: Db, id: LeadId, r: Reading, lately: bool, now: Time, after: Db,
                                   tagged: seq<Message>)
    requires id in before.leads
  {
    && Tagged(before.messages, id, r.tag, tagged)
    && Decided(before.(messages := tagged), id, before.leads[id], r, lately, now, after)
  }

  /** The turn on the tables: paused leads, leads without a thread and empty readings are left alone; otherwise the
      latest message of the host is tagged and the decision is written. */
  lemma TurnMeans(db: Db, id: LeadId, reading: Option<Reading>, history: nat, now: Time)
    requires Consistent(db) && id in db.leads
    ensures LegalLog(db, RunTurn(db, id, reading, history, now).log)
    ensures var l, n := db.leads[id], Replay(db, RunTurn(db, id, reading, history, now).log);
      if Paused(l.status) || l.thread == None || reading == None then n == db
      else exists tagged :: TaggedAndDecided(db, id, reading.value, RepliedLately(db.messages, id, history), now, n,
          tagged)
  {
    TurnRuns(db, id, reading, history, now);
    if !Paused(db.leads[id].status) && db.leads[id].thread.Some? && reading.Some? {
      var tag := TagLog(db.messages, id, reading.value.tag);
      TagMeans(db, id, reading.value.tag);
      DecisionMeans(db, Replay(db, tag), id, reading.value, history, now);
      RunConcat(db, tag, DecisionLog(db, id, reading.value, history, now).log);
      assert TaggedAndDecided(db, id, reading.value, RepliedLately(db.messages, id, history), now,
          Replay(db, RunTurn(db, id, reading, history, now).log), Replay(db, tag).messages);
    }
  }

  /** The verdict on an unpaused lead with a thread and words to read: it is closed iff they are a rejection; it goes to
      a person iff they are none, the bot has replied lately and a meeting is accepted; a bot reply is recorded iff it
      has not, they show interest and the answer was delivered. In every other case the lead stays as it is. */
  lemma TurnVerdict(db: Db, id: LeadId, r: Reading, history: nat, now: Time)
    requires Consistent(db) && id in db.leads && !Paused(db.leads[id].status) && db.leads[id].thread != None
    ensures LegalLog(db, RunTurn(db, id, Some(r), history, now).log)
    ensures var n, l := Replay(db, RunTurn(db, id, Some(r), history, now).log), db.leads[id];
      var lately, count := RepliedLately(db.messages, id, history), |db.messages|;
      && id in n.leads && n == db.(leads := db.leads[id := n.leads[id]], messages := n.messages)
      && (n.leads[id].status == ClosedLost <==> r.intent == Rejected)
      && (n.leads[id].status == HumanTakeover <==> r.intent != Rejected && lately && r.acceptsMeeting)
      && (n.leads[id].status != ClosedLost && n.leads[id].status != HumanTakeover ==> n.leads[id].status == l.status)
      && (|n.messages| > count && IsBotReply(n.messages[count])
          <==> r.intent == Interested && !lately && r.delivered)
      && (|n.messages| == count
          <==> n.leads[id].status == l.status && !(r.intent == Interested && !lately && r.delivered))
      && (|n.messages| == count ==> n.leads[id] == l && Tagged(db.messages, id, r.tag, n.messages))
  {
    TurnMeans(db, id, Some(r), history, now);
    var n := Replay(db, RunTurn(db, id, Some(r), history, now).log);
    var tagged :| TaggedAndDecided(db, id, r, RepliedLately(db.messages, id, history), now, n, tagged);
    NotesAreNoReplies(id, r.text);
  }

  lemma NotesAreNoReplies(id: LeadId, text: string)
    ensures !IsBotReply(Message(id, System, text, Some("CLOSE_LOST")))
    ensures !IsBotReply(Message(id, System, text, Some("HUMAN_TAKEOVER")))
  {
  }

  /** The outcome names the case. */
  lemma OutcomeNamesTheCase(db: Db, id: LeadId, reading: Option<Reading>, history: nat, now: Time)
    requires id in db.leads
    ensures var o, l := RunTurn(db, id, reading, history, now).outcome, db.leads[id];
      var lately := RepliedLately(db.messages, id, history);
      && (o == SkippedPaused <==> Paused(l.status))
      && (o == SkippedNoThread <==> !Paused(l.status) && l.thread == None)
      && (o == SkippedNoInbound <==> !Paused(l.status) && l.thread != None && reading == None)
      && (!Paused(l.status) && l.thread != None && reading != None ==>
        var r := reading.value;
        && (o == TurnClosedLost <==> r.intent == Rejected)
        && (o == TurnTakenOver <==> r.intent != Rejected && lately && r.acceptsMeeting)
        && (o == SkippedAlreadyReplied <==> r.intent != Rejected && lately && !r.acceptsMeeting)
        && (o == SkippedAmbiguous <==> r.intent == Ambiguous && !lately)
        && (o == TurnReplied <==> r.intent == Interested && !lately && r.delivered)
        && (o == TurnFailed <==> r.intent == Interested && !lately && !r.delivered))
  {
    HistoryMeans(db.messages, id, history);
  }

  /** Outcome and status together, as the caller sees them. */
  predicate RightOutcome(l: Lead, reading: Option<Reading>, lately: bool, o: TurnOutcome, r: Lead) {
    if Paused(l.status) then o == SkippedPaused && r == l
    else if l.thread == None then o == SkippedNoThread && r == l
    else
      match reading
      case None => o == SkippedNoInbound && r == l
      case Some(words) =>
        && (words.intent == Rejected <==> o == TurnClosedLost)
        && (words.intent == Rejected <==> r.status == ClosedLost)
        && (words.intent != Rejected && lately && words.acceptsMeeting <==> o == TurnTakenOver)
        && (words.intent != Rejected && lately && words.acceptsMeeting <==> r.status == HumanTakeover)
        && (words.intent == Interested && !lately && words.delivered <==> o == TurnReplied)
        && (words.intent == Interested && !lately && !words.delivered <==> o == TurnFailed)
        && (o != TurnClosedLost && o != TurnTakenOver ==> r.status == l.status)
        && (o != TurnClosedLost && o != TurnTakenOver && o != TurnReplied ==> r == l)
  }

  lemma TurnIsRight(db: Db, id: LeadId, reading: Option<Reading>, history: nat, now: Time)
    requires Consistent(db) && id in db.leads
    ensures LegalLog(db, RunTurn(db, id, reading, history, now).log)
    ensures var n := Replay(db, RunTurn(db, id, reading, history, now).log);
      id in n.leads && RightOutcome(db.leads[id], reading, RepliedLately(db.messages, id, history),
        RunTurn(db, id, reading, history, now).outcome, n.leads[id])
  {
    OutcomeNamesTheCase(db, id, reading, history, now);
    TurnMeans(db, id, reading, history, now);
    if reading != None && !Paused(db.leads[id].status) && db.leads[id].thread != None {
      TurnVerdict(db, id, reading.value, history, now);
    }
  }

  // ---------- the poll ----------

  /** A status in which an answer of the host is awaited. */
  predicate AwaitsReply(s: LeadStatus) {
    s == InitialMsgSent || s == FollowUp1Sent || s == FollowUp2Sent || s == FollowUp3Sent
  }

  /** The row of a lead after its host was heard of: from a status that awaits the reply it goes on to the conversation
      with nothing due, in the conversation only its date is refreshed. */
  predicate Heard(l: Lead, seen: LeadStatus, heard: bool, now: Time, r: Lead) {
    && (heard && AwaitsReply(seen) && AwaitsReply(l.status) ==>
      r == l.(status := RepliedInProgress, nextFollowUp := None, lastContacted := Some(now)))
    && (heard && seen == RepliedInProgress ==> r == l.(lastContacted := Some(now)))
    && (!heard || (seen != RepliedInProgress && !(AwaitsReply(seen) && AwaitsReply(l.status))) ==> r == l)
  }

  lemma AfterReplyMeans(db: Db, id: LeadId, seen: LeadStatus, inboundNew: nat, scrapedReply: bool, now: Time)
    requires id in db.leads
    ensures var n := AfterReply(db, id, seen, inboundNew, scrapedReply, now);
      && n == db.(leads := db.leads[id := n.leads[id]])
      && Heard(db.leads[id], seen, inboundNew > 0 || scrapedReply, now, n.leads[id])
  {
    assert db.leads[id := db.leads[id]] == db.leads;
  }

  /** What hearing from the host does before the turn, and when a turn follows. */
  lemma HearingMeans(db: Db, id: LeadId, seen: LeadStatus, inboundNew: nat, scrapedReply: bool, now: Time)
    requires Consistent(db) && id in db.leads
    ensures LegalLog(db, ReplyLog(db, id, seen, inboundNew, scrapedReply, now).0)
    ensures var n := Replay(db, ReplyLog(db, id, seen, inboundNew, scrapedReply, now).0);
      && id in n.leads && n == db.(leads := db.leads[id := n.leads[id]])
      && Heard(db.leads[id], seen, inboundNew > 0 || scrapedReply, now, n.leads[id])
    ensures ReplyLog(db, id, seen, inboundNew, scrapedReply, now).1
      <==> (inboundNew > 0 || scrapedReply) && (AwaitsReply(seen) || seen == RepliedInProgress)
  {
    ReplyRuns(db, id, seen, inboundNew, scrapedReply, now);
    AfterReplyMeans(db, id, seen, inboundNew, scrapedReply, now);
  }

  lemma {:induction false} RowsAreCounted(rows: seq<Message>, dir: Direction)
    ensures CountDir(rows, dir) > 0 <==> exists i :: 0 <= i < |rows| && rows[i].direction == dir
  {
    if rows != [] {
      RowsAreCounted(rows[..|rows| - 1], dir);
      assert forall i :: 0 <= i < |rows| - 1 ==> rows[..|rows| - 1][i] == rows[i];
    }
  }

  /** The poll has something to go by: a new inbound message, or one in the scrape. */
  ghost predicate Hears(rules: Rules, db: Db, id: LeadId, scraped: seq<Scraped>, scrapedReply: bool) {
    var rows := SyncedRows(rules, db.messages, id, scraped);
    scrapedReply || exists i :: 0 <= i < |rows| && rows[i].direction == Inbound
  }

  /** A poll that hears nothing copies messages and leaves it at that. */
  lemma SilentPoll(rules: Rules, db: Db, id: LeadId, seen: LeadStatus, scraped: seq<Scraped>, scrapedReply: bool,
                   reading: Option<Reading>, history: nat, now: Time)
    requires Consistent(db) && id in db.leads && !Hears(rules, db, id, scraped, scrapedReply)
    ensures Run(db, Poll(rules, db, id, seen, scraped, scrapedReply, reading, history, now))
      == Some(db.(messages := db.messages + SyncedRows(rules, db.messages, id, scraped)))
  {
    var rows := SyncedRows(rules, db.messages, id, scraped);
    SyncedRowsArePlain(rules, db.messages, id, scraped);
    SaysRun(db, rows);
    RowsAreCounted(rows, Inbound);
    assert Says(rows) + [] + [] == Says(rows);
  }

  /** The tables the turn of such a poll meets, and the log that led there. */
  lemma HeardStore(rules: Rules, db: Db, id: LeadId, seen: LeadStatus, scraped: seq<Scraped>, scrapedReply: bool,
                   reading: Option<Reading>, history: nat, now: Time)
    returns (head: seq<Write>, after: Db)
    requires Consistent(db) && id in db.leads && Hears(rules, db, id, scraped, scrapedReply)
    requires AwaitsReply(seen) && AwaitsReply(db.leads[id].status)
    ensures Run(db, head) == Some(after) && Consistent(after)
    ensures id in after.leads && after.leads[id].status == RepliedInProgress
    ensures Poll(rules, db, id, seen, scraped, scrapedReply, reading, history, now)
      == head + RunTurn(after, id, reading, history, now).log
  {
    var rows, synced := SyncedRows(rules, db.messages, id, scraped), SyncedDb(rules, db, id, scraped);
    SyncedRowsArePlain(rules, db.messages, id, scraped);
    SaysRun(db, rows);
    RunKeepsIndices(db, Says(rows));
    RowsAreCounted(rows, Inbound);
    var reply := ReplyLog(synced, id, seen, CountDir(rows, Inbound), scrapedReply, now).0;
    ReplyRuns(synced, id, seen, CountDir(rows, Inbound), scrapedReply, now);
    RunConcat(db, Says(rows), reply);
    RunKeepsIndices(synced, reply);
    head, after := Says(rows) + reply, AfterReply(synced, id, seen, CountDir(rows, Inbound), scrapedReply, now);
  }

  /** A poll that hears of a host whose reply is awaited takes the lead out of the template phases, whatever the turn
      then decides. */
  lemma HeardLeadLeavesTheTemplates(rules: Rules, db: Db, id: LeadId, seen: LeadStatus, scraped: seq<Scraped>,
                                    scrapedReply: bool, reading: Option<Reading>, history: nat, now: Time)
    requires Consistent(db) && id in db.leads && Hears(rules, db, id, scraped, scrapedReply)
    requires AwaitsReply(seen) && AwaitsReply(db.leads[id].status)
    ensures LegalLog(db, Poll(rules, db, id, seen, scraped, scrapedReply, reading, history, now))
    ensures var n := Replay(db, Poll(rules, db, id, seen, scraped, scrapedReply, reading, history, now));
      id in n.leads && PhaseForStatus(n.leads[id].status) == None
      && (n.leads[id].status == RepliedInProgress || n.leads[id].status == HumanTakeover
          || n.leads[id].status == ClosedLost)
  {
    var head, after := HeardStore(rules, db, id, seen, scraped, scrapedReply, reading, history, now);
    TurnStatus(after, id, reading, history, now);
    RunsOn(db, head, after, RunTurn(after, id, reading, history, now).log);
  }

  lemma RunsOn(db: Db, head: seq<Write>, after: Db, tail: seq<Write>)
    requires Run(db, head) == Some(after) && LegalLog(after, tail)
    ensures LegalLog(db, head + tail) && Replay(db, head + tail) == Replay(after, tail)
  {
    RunConcat(db, head, tail);
  }

  lemma TurnStatus(db: Db, id: LeadId, reading: Option<Reading>, history: nat, now: Time)
    requires Consistent(db) && id in db.leads
    ensures LegalLog(db, RunTurn(db, id, reading, history, now).log)
    ensures var n := Replay(db, RunTurn(db, id, reading, history, now).log);
      id in n.leads && (n.leads[id].status == db.leads[id].status || n.leads[id].status == HumanTakeover
        || n.leads[id].status == ClosedLost)
  {
    TurnMeans(db, id, reading, history, now);
    if reading != None && !Paused(db.leads[id].status) && db.leads[id].thread != None {
      TurnVerdict(db, id, reading.value, history, now);
    }
  }
}
