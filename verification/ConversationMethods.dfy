/** Polling and answering, as they run against the database. */
module ConversationMethods {
  import opened Records
  import opened Gate
  import opened Writes
  import opened Sync
  import opened Sending
  import opened Conversation
  import opened Store
  import opened SendMethods
  import TurnEffects

  /** `tagLatestInboundIntent`. */
  method TagLatestInbound(db: Database, id: LeadId, tag: string)
    requires db.Valid()
    modifies db`messages
    ensures db.Valid() && Run(old(db.Snapshot()), TagLog(old(db.messages), id, tag)) == Some(db.Snapshot())
  {
    TagRuns(db.Snapshot(), id, tag);
    var i := |db.messages| - 1;
    while i >= 0 && !(db.messages[i].lead == id && db.messages[i].direction.Inbound?)
      invariant -1 <= i < |db.messages|
      invariant forall j :: i < j < |db.messages| ==> !(db.messages[j].lead == id && db.messages[j].direction.Inbound?)
    {
      i := i - 1;
    }
    assert i == LatestInbound(db.messages, id);
    if i >= 0 && db.messages[i].intent.None? {
      RunOne(db.Snapshot(), Tag(i, tag));
      db.TagMessage(i, tag);
    }
  }

  /** A message and the row update that goes with it. */
  method SayAndUpdate(db: Database, m: Message, id: LeadId, row: Lead)
    requires db.Valid() && Legal(db.Snapshot(), Say(m)) && Legal(db.Snapshot(), Update(id, row))
    modifies db
    ensures Run(old(db.Snapshot()), [Say(m), Update(id, row)]) == Some(db.Snapshot())
  {
    ghost var start := db.Snapshot();
    RunOne(start, Say(m));
    RunSnoc(start, [Say(m)], Update(id, row));
    assert [Say(m), Update(id, row)] == [Say(m)] + [Update(id, row)];
    var ok := db.CreateMessage(m);
    ok := db.UpdateLead(id, row);
  }

  /** The turn's decision; the history was loaded as `seen` before the tag was written. */
  method Decide(db: Database, ghost loaded: Db, recent: seq<Message>, id: LeadId, r: Reading, history: nat, now: Time)
    returns (outcome: TurnOutcome)
    requires db.Valid() && id in loaded.leads && db.leads == loaded.leads && !IsAiPaused(db.leads[id].status)
    requires recent == Recent(loaded.messages, id, history)
    modifies db
    ensures outcome == DecisionLog(loaded, id, r, history, now).outcome
    ensures Run(old(db.Snapshot()), DecisionLog(loaded, id, r, history, now).log) == Some(db.Snapshot())
  {
    var l := db.leads[id];
    NotesArePlain(id, r.text);
    NotesArePlain(id, r.answer);
    if r.intent.Rejected? {
      SayAndUpdate(db, Note(id, r.text, CLOSE_LOST), id, l.(status := ClosedLost, nextFollowUp := None));
      return TurnClosedLost;
    }
    if AlreadySentCuriosity(recent) {
      if r.acceptsMeeting {
        SayAndUpdate(db, Note(id, r.text, TAKEOVER), id, l.(status := HumanTakeover, nextFollowUp := None));
        return TurnTakenOver;
      }
      return SkippedAlreadyReplied;
    }
    if !r.intent.Interested? {
      return SkippedAmbiguous;
    }
    if !r.delivered {
      return TurnFailed;
    }
    SayAndUpdate(db, CuriosityMessage(id, r.answer), id, l.(lastContacted := Some(now)));
    return TurnReplied;
  }

  /** `runConversationTurn`. */
  method RunConversationTurn(db: Database, id: LeadId, reading: Option<Reading>, history: nat, now: Time)
    returns (outcome: TurnOutcome)
    requires db.Valid() && id in db.leads
    modifies db
    ensures outcome == RunTurn(old(db.Snapshot()), id, reading, history, now).outcome
    ensures Run(old(db.Snapshot()), RunTurn(old(db.Snapshot()), id, reading, history, now).log) == Some(db.Snapshot())
    ensures id in db.leads && TurnEffects.RightOutcome(old(db.leads)[id], reading,
      TurnEffects.RepliedLately(old(db.messages), id, history), outcome, db.leads[id])
  {
    ghost var loaded := db.Snapshot();
    TurnEffects.TurnIsRight(loaded, id, reading, history, now);
    var l := db.leads[id];
    var recent := Recent(db.messages, id, history);
    if IsAiPaused(l.status) {
      return SkippedPaused;
    }
    if l.thread.None? {
      return SkippedNoThread;
    }
    match reading
    case None => return SkippedNoInbound;
    case Some(r) =>
      TagRuns(loaded, id, r.tag);
      TagLatestInbound(db, id, r.tag);
      RunConcat(loaded, TagLog(loaded.messages, id, r.tag), DecisionLog(loaded, id, r, history, now).log);
      outcome := Decide(db, loaded, recent, id, r, history, now);
  }

  /** What a detected reply does to the lead, before the turn. */
  method NoteReply(db: Database, id: LeadId, seen: LeadStatus, inboundNew: nat, scrapedReply: bool, now: Time)
    returns (turn: bool)
    requires db.Valid() && id in db.leads
    modifies db`leads
    ensures turn == ReplyLog(old(db.Snapshot()), id, seen, inboundNew, scrapedReply, now).1
    ensures db.Snapshot() == AfterReply(old(db.Snapshot()), id, seen, inboundNew, scrapedReply, now) && db.Valid()
    ensures Run(old(db.Snapshot()), ReplyLog(old(db.Snapshot()), id, seen, inboundNew, scrapedReply, now).0)
      == Some(db.Snapshot())
  {
    ghost var start := db.Snapshot();
    ReplyRuns(start, id, seen, inboundNew, scrapedReply, now);
    RunKeepsIndices(start, ReplyLog(start, id, seen, inboundNew, scrapedReply, now).0);
    if inboundNew == 0 && !scrapedReply {
      return false;
    }
    var l := db.leads[id];
    if IsOutboundActive(seen) {
      if IsOutboundActive(l.status) {
        var ok := db.UpdateLead(id, l.(status := RepliedInProgress, nextFollowUp := None, lastContacted := Some(now)));
      }
      return true;
    }
    if seen.RepliedInProgress? {
      var ok := db.UpdateLead(id, l.(lastContacted := Some(now)));
      return true;
    }
    return false;
  }

  /** `pollLeadThread`. */
  method PollLeadThread(db: Database, rules: Rules, id: LeadId, seen: LeadStatus, scraped: seq<Scraped>,
                        scrapedReply: bool,
                        reading: Option<Reading>, history: nat, now: Time)
    requires db.Valid() && id in db.leads
    modifies db
    ensures Run(old(db.Snapshot()), Poll(rules, old(db.Snapshot()), id, seen, scraped, scrapedReply, reading, history,
      now)) == Some(db.Snapshot())
  {
    ghost var start := db.Snapshot();
    ghost var rows := SyncedRows(rules, start.messages, id, scraped);
    SyncedRowsArePlain(rules, start.messages, id, scraped);
    SaysRun(start, rows);
    RunKeepsIndices(start, Says(rows));
    var inboundNew, synced, hostReplied := SyncThreadMessages(db, rules, id, scraped);
    ghost var mid := db.Snapshot();
    ghost var reply := ReplyLog(mid, id, seen, inboundNew, scrapedReply, now).0;
    var turn := NoteReply(db, id, seen, inboundNew, scrapedReply, now);
    RunConcat(start, Says(rows), reply);
    if turn {
      RunConcat(start, Says(rows) + reply, RunTurn(db.Snapshot(), id, reading, history, now).log);
      var outcome := RunConversationTurn(db, id, reading, history, now);
    } else {
      assert Says(rows) + reply + [] == Says(rows) + reply;
    }
  }
}
