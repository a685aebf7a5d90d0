/** The bot's answers as they reach the host: one that is not seen to arrive is on no record and is given again. */
module BotAnswers {
  import opened Records
  import opened Gate
  import opened Merge
  import opened Writes
  import opened Sync
  import opened Sending
  import opened ColdSafety
  import opened Conversation
  import opened Pipeline

  /** The turn presses the send button. */
  predicate Answers(db: Db, id: LeadId, reading: Option<Reading>, history: nat)
    requires id in db.leads
  {
    var outcome := RunTurn(db, id, reading, history, 0).outcome;
    outcome.TurnReplied? || outcome.TurnFailed?
  }

  /** The store the turn of a poll meets, and whether there is a turn. */
  function BeforeTurn(rules: Rules, db: Db, t: Activity): (r: (Db, bool))
    requires t.PollActivity? && t.lead in db.leads
    ensures r.0.leads.Keys == db.leads.Keys
  {
    var synced := SyncedDb(rules, db, t.lead, t.scraped);
    var inboundNew := CountDir(SyncedRows(rules, db.messages, t.lead, t.scraped), Inbound);
    (AfterReply(synced, t.lead, t.seen, inboundNew, t.scrapedReply, t.now),
     ReplyLog(synced, t.lead, t.seen, inboundNew, t.scrapedReply, t.now).1)
  }

  /** The poll answers the host, and the answer arrives. */
  predicate PollPosts(rules: Rules, db: Db, t: Activity) {
    && t.PollActivity? && t.lead in db.leads
    && var (now, turn) := BeforeTurn(rules, db, t);
    turn && Answers(now, t.lead, t.reading, t.history) && t.reading.Some? &&
        (t.reading.value.delivered || t.reading.value.posted)
  }

  /** It arrives without being put on record: its delivery was not seen, or the run stops before the record. */
  ghost predicate PollLoses(rules: Rules, db: Db, s: Scheduled) {
    && PollPosts(rules, db, s.activity)
    && (!s.activity.reading.value.delivered || s.stopAfter + 1 < |ActivityLog(rules, db, s.activity)|)
  }

  /** Bot replies that a log puts on record. */
  ghost function CountReplies(log: seq<Write>, id: LeadId): nat {
    if log == [] then 0
    else
      var w := log[|log| - 1];
      CountReplies(log[..|log| - 1], id) + if w.Say? && IsCuriosity(w.msg) && w.msg.lead == id then 1 else 0
  }

  lemma {:induction false} RepliesConcat(a: seq<Write>, b: seq<Write>, id: LeadId)
    ensures CountReplies(a + b, id) == CountReplies(a, id) + CountReplies(b, id)
    decreases |b|
  {
    if b == [] {
      assert a + b == a;
    } else {
      RepliesConcat(a, b[..|b| - 1], id);
      assert (a + b)[..|a + b| - 1] == a + b[..|b| - 1];
    }
  }

  lemma {:induction false} QuietLogsCountNothing(log: seq<Write>, id: LeadId)
    requires NoBotReply(log)
    ensures CountReplies(log, id) == 0
  {
    if log != [] {
      QuietLogsCountNothing(log[..|log| - 1], id);
    }
  }

  // ---------- one turn ----------

  /** The writes behind the tag: a bot reply and a row if an answer was seen to arrive, else no bot reply. */
  lemma DecisionWrites(db: Db, id: LeadId, r: Reading, history: nat, now: Time)
    requires id in db.leads
    ensures var d := DecisionLog(db, id, r, history, now);
      if d.outcome.TurnReplied? then IsRecord(d.log, id, r.answer) else NoBotReply(d.log)
  {
    NotesArePlain(id, r.text);
  }

  predicate IsRecord(log: seq<Write>, id: LeadId, text: string) {
    |log| == 2 && log[0] == Say(CuriosityMessage(id, text)) && log[1].Update?
  }

  lemma AnswersAreDecided(db: Db, id: LeadId, r: Reading, history: nat, now: Time)
    requires id in db.leads && !IsAiPaused(db.leads[id].status) && db.leads[id].thread.Some?
    ensures DecisionLog(db, id, r, history, now).outcome.TurnReplied?
       <==> Answers(db, id, Some(r), history) && r.delivered
  {
  }

  /** The writes of a turn: at most a tag, and then the record. */
  lemma TurnWrites(db: Db, id: LeadId, reading: Option<Reading>, history: nat, now: Time)
    returns (tag: seq<Write>, record: seq<Write>)
    requires id in db.leads
    ensures RunTurn(db, id, reading, history, now).log == tag + record && NoBotReply(tag)
    ensures if Answers(db, id, reading, history) &&
      reading.value.delivered then IsRecord(record, id, reading.value.answer)
            else NoBotReply(record)
  {
    tag, record := [], [];
    if !IsAiPaused(db.leads[id].status) && db.leads[id].thread.Some? && reading.Some? {
      tag, record := TagLog(db.messages, id, reading.value.tag), DecisionLog(db, id, reading.value, history, now).log;
      DecisionWrites(db, id, reading.value, history, now);
      AnswersAreDecided(db, id, reading.value, history, now);
    }
  }

  /** A turn whose answer failed leaves a tag at most, and the next turn decides as if it had not been. */
  lemma FailedAnswerIsForgotten(db: Db, id: LeadId, reading: Option<Reading>, history: nat, now: Time,
                                next: Option<Reading>, window: nat)
    requires Consistent(db) && id in db.leads && RunTurn(db, id, reading, history, now).outcome.TurnFailed?
    ensures LegalLog(db, RunTurn(db, id, reading, history, now).log)
    ensures var n := Replay(db, RunTurn(db, id, reading, history, now).log);
      id in n.leads && n.leads == db.leads && (Answers(n, id, next, window) <==> Answers(db, id, next, window))
  {
    var tag := TagLog(db.messages, id, reading.value.tag);
    assert RunTurn(db, id, reading, history, now).log == tag + [] == tag;
    TagRuns(db, id, reading.value.tag);
    TagKeepsHistory(db, id, reading.value.tag, window);
  }

  // ---------- one poll ----------

  lemma NoReplyConcat(a: seq<Write>, b: seq<Write>)
    requires NoBotReply(a) && NoBotReply(b)
    ensures NoBotReply(a + b)
  {
  }

  lemma PollHeadIsQuiet(rules: Rules, db: Db, t: Activity) returns (head: seq<Write>)
    requires t.PollActivity? && t.lead in db.leads
    ensures NoBotReply(head)
    ensures var (now, turn) := BeforeTurn(rules, db, t);
      ActivityLog(rules, db, t) == head + if turn then RunTurn(now, t.lead, t.reading, t.history, t.now).log else []
  {
    var rows := SyncedRows(rules, db.messages, t.lead, t.scraped);
    SyncedRowsArePlain(rules, db.messages, t.lead, t.scraped);
    SaysAreQuiet(rows);
    var synced := SyncedDb(rules, db, t.lead, t.scraped);
    var reply := ReplyLog(synced, t.lead, t.seen, CountDir(rows, Inbound), t.scrapedReply, t.now).0;
    head := Says(rows) + reply;
    NoReplyConcat(Says(rows), reply);
  }

  /** A recorded answer stands last but one in the log of its poll, and no other bot reply is in it. */
  lemma PollWrites(rules: Rules, db: Db, t: Activity) returns (front: seq<Write>, record: seq<Write>)
    requires t.PollActivity? && t.lead in db.leads
    ensures ActivityLog(rules, db, t) == front + record && NoBotReply(front)
    ensures if PollPosts(rules, db, t) &&
      t.reading.value.delivered then IsRecord(record, t.lead, t.reading.value.answer)
            else record == []
  {
    front := PollHeadIsQuiet(rules, db, t);
    record := [];
    var (now, turn) := BeforeTurn(rules, db, t);
    if turn {
      var tag, rest := TurnWrites(now, t.lead, t.reading, t.history, t.now);
      front, record := BehindHead(front, tag, rest, PollPosts(rules, db, t) && t.reading.value.delivered);
    }
  }

  lemma BehindHead(head: seq<Write>, tag: seq<Write>, rest: seq<Write>, recorded: bool)
    returns (front: seq<Write>, record: seq<Write>)
    requires NoBotReply(head) && NoBotReply(tag) && (!recorded ==> NoBotReply(rest))
    ensures front + record == head + (tag + rest) && NoBotReply(front) && record == if recorded then rest else []
  {
    NoReplyConcat(head, tag);
    if recorded {
      front, record := head + tag, rest;
    } else {
      NoReplyConcat(head + tag, rest);
      front, record := head + tag + rest, [];
    }
  }

  lemma RecordCounts(record: seq<Write>, k: LeadId, text: string, id: LeadId)
    requires IsRecord(record, k, text)
    ensures CountReplies(record, id) == CountReplies(record[..1], id) == if k == id then 1 else 0
  {
    assert record[..1][..0] == [];
  }

  lemma PollCounts(rules: Rules, db: Db, s: Scheduled, id: LeadId)
    requires s.activity.PollActivity? && s.activity.lead in db.leads
    ensures CountReplies(Done(rules, db, s), id) + (if PollLoses(rules, db, s) && s.activity.lead == id then 1 else 0)
         == if PollPosts(rules, db, s.activity) && s.activity.lead == id then 1 else 0
  {
    var t, log := s.activity, ActivityLog(rules, db, s.activity);
    var front, record := PollWrites(rules, db, t);
    if record != [] {
      RecordCounts(record, t.lead, t.reading.value.answer, id);
    }
    if s.stopAfter <= |front| {
      var done := front[..s.stopAfter];
      assert s.stopAfter < |log| ==> log[..s.stopAfter] == done;
      QuietLogsCountNothing(done, id);
    }
    QuietLogsCountNothing(front, id);
    RepliesConcat(front, record, id);
    if s.stopAfter == |front| + 1 && record != [] {
      assert log[..s.stopAfter] == front + record[..1];
      RepliesConcat(front, record[..1], id);
    }
  }

  // ---------- over every run ----------

  lemma DoneCounts(rules: Rules, db: Db, s: Scheduled, id: LeadId)
    ensures CountReplies(Done(rules, db, s), id) + (if PollLoses(rules, db, s) && s.activity.lead == id then 1 else 0)
         == if PollPosts(rules, db, s.activity) && s.activity.lead == id then 1 else 0
  {
    if s.activity.PollActivity? && s.activity.lead in db.leads {
      PollCounts(rules, db, s, id);
    } else {
      if Admissible(db, s.activity) {
        SendActivitiesWriteNoBotReply(rules, db, s.activity);
      }
      QuietLogsCountNothing(Done(rules, db, s), id);
    }
  }

  /** Answers of the bot that reach a host over a run. */
  ghost function AnswersTo(rules: Rules, db: Db, run: seq<Scheduled>, id: LeadId): nat {
    if run == [] then 0
    else
      var front, last := run[..|run| - 1], run[|run| - 1];
      var now := Exec(db, RunLog(rules, db, front));
      AnswersTo(rules, db, front, id) + if PollPosts(rules, now, last.activity) && last.activity.lead == id then 1
          else 0
  }

  /** Those of them that are on no record. */
  ghost function LostTo(rules: Rules, db: Db, run: seq<Scheduled>, id: LeadId): nat {
    if run == [] then 0
    else
      var front, last := run[..|run| - 1], run[|run| - 1];
      var now := Exec(db, RunLog(rules, db, front));
      LostTo(rules, db, front, id) + if PollLoses(rules, now, last) && last.activity.lead == id then 1 else 0
  }

  /** Over every run, interruptions included: an answer that reaches a host is either on record, once, or lost. */
  lemma {:induction false} AnswersAreRecordedOrLost(rules: Rules, db: Db, run: seq<Scheduled>, id: LeadId)
    ensures AnswersTo(rules, db, run, id) == CountReplies(RunLog(rules, db, run), id) + LostTo(rules, db, run, id)
  {
    if run != [] {
      var n := |run| - 1;
      var front := RunLog(rules, db, run[..n]);
      AnswersAreRecordedOrLost(rules, db, run[..n], id);
      DoneCounts(rules, Exec(db, front), run[n], id);
      RepliesConcat(front, Done(rules, Exec(db, front), run[n]), id);
    }
  }

  // ---------- there is no bound on the lost ones ----------

  /** The host has replied, and the last messages hold no bot reply. */
  predicate AwaitsAnswer(db: Db, id: LeadId, history: nat) {
    && id in db.leads && db.leads[id].status.RepliedInProgress? && db.leads[id].thread.Some?
    && !AlreadySentCuriosity(Recent(db.messages, id, history))
  }

  /** An answer of the bot that arrives without being seen to. */
  predicate Unseen(r: Reading) {
    r.intent.Interested? && !r.delivered && r.posted
  }

  /** A poll of such a lead that finds the host's words in the thread. */
  function PollAgain(id: LeadId, scraped: seq<Scraped>, r: Reading, history: nat, now: Time): Activity {
    PollActivity(id, RepliedInProgress, scraped, true, Some(r), history, now)
  }

  lemma {:induction false} PlainKeepsHistory(ms: seq<Message>, rows: seq<Message>, id: LeadId, n: nat)
    requires forall i :: 0 <= i < |rows| ==> !IsCuriosity(rows[i])
    ensures !AlreadySentCuriosity(Recent(ms, id, n)) ==> !AlreadySentCuriosity(Recent(ms + rows, id, n))
    decreases |rows|
  {
    if rows == [] {
      assert ms + rows == ms;
    } else {
      var k := |rows| - 1;
      PlainKeepsHistory(ms, rows[..k], id, n);
      assert ms + rows == ms + rows[..k] + [rows[k]];
      OneMoreKeepsHistory(ms + rows[..k], rows[k], id, n);
    }
  }

  lemma RecentMeans(ms: seq<Message>, id: LeadId, n: nat)
    ensures var mine := MessagesOf(ms, id);
      AlreadySentCuriosity(Recent(ms, id, n)) <==> exists i ::
          0 <= i < |mine| && |mine| - n <= i && IsCuriosity(mine[i])
  {
    var mine, recent := MessagesOf(ms, id), Recent(ms, id, n);
    var older := |mine| - |recent|;
    forall i | 0 <= i < |recent|
      ensures recent[i] == mine[older + i]
    {
    }
    if i :| 0 <= i < |mine| && |mine| - n <= i && IsCuriosity(mine[i]) {
      assert recent[i - older] == mine[i];
    }
  }

  lemma OneMoreKeepsHistory(ms: seq<Message>, m: Message, id: LeadId, n: nat)
    requires !IsCuriosity(m)
    ensures !AlreadySentCuriosity(Recent(ms, id, n)) ==> !AlreadySentCuriosity(Recent(ms + [m], id, n))
  {
    MessagesOfSnoc(ms, m, id);
    RecentMeans(ms, id, n);
    RecentMeans(ms + [m], id, n);
  }

  lemma AwaitsAtTheTurn(rules: Rules, db: Db, id: LeadId, scraped: seq<Scraped>, r: Reading, history: nat, now: Time)
    requires Consistent(db) && AwaitsAnswer(db, id, history)
    ensures var (after, turn) := BeforeTurn(rules, db, PollAgain(id, scraped, r, history, now));
      turn && AwaitsAnswer(after, id, history)
  {
    var rows := SyncedRows(rules, db.messages, id, scraped);
    SyncedRowsArePlain(rules, db.messages, id, scraped);
    PlainKeepsHistory(db.messages, rows, id, history);
  }

  lemma UnseenTurn(db: Db, id: LeadId, r: Reading, history: nat, now: Time)
    requires Consistent(db) && AwaitsAnswer(db, id, history) && Unseen(r)
    ensures Answers(db, id, Some(r), history)
    ensures var log := RunTurn(db, id, Some(r), history, now).log;
      LegalLog(db, log) && AwaitsAnswer(Replay(db, log), id, history)
  {
    var tag := TagLog(db.messages, id, r.tag);
    assert RunTurn(db, id, Some(r), history, now).log == tag + [] == tag;
    TagRuns(db, id, r.tag);
    TagKeepsHistory(db, id, r.tag, history);
  }

  lemma PollReachesTurn(rules: Rules, db: Db, t: Activity) returns (head: seq<Write>)
    requires Consistent(db) && t.PollActivity? && t.lead in db.leads
    ensures var (after, turn) := BeforeTurn(rules, db, t);
      && Run(db, head) == Some(after) && Consistent(after)
      && ActivityLog(rules, db, t) == head + if turn then RunTurn(after, t.lead, t.reading, t.history, t.now).log
        else []
  {
    var rows := SyncedRows(rules, db.messages, t.lead, t.scraped);
    SyncedRowsArePlain(rules, db.messages, t.lead, t.scraped);
    SaysRun(db, rows);
    RunKeepsIndices(db, Says(rows));
    var synced, inboundNew := SyncedDb(rules, db, t.lead, t.scraped), CountDir(rows, Inbound);
    var reply := ReplyLog(synced, t.lead, t.seen, inboundNew, t.scrapedReply, t.now).0;
    ReplyRuns(synced, t.lead, t.seen, inboundNew, t.scrapedReply, t.now);
    RunConcat(db, Says(rows), reply);
    RunKeepsIndices(synced, reply);
    head := Says(rows) + reply;
  }

  /** One such poll: the answer arrives, nothing is recorded of it, and the lead awaits its answer as before. */
  lemma UnseenAnswerIsLost(rules: Rules, db: Db, id: LeadId, scraped: seq<Scraped>, r: Reading, history: nat, now: Time)
    requires Consistent(db) && AwaitsAnswer(db, id, history) && Unseen(r)
    ensures var t := PollAgain(id, scraped, r, history, now); var log := ActivityLog(rules, db, t);
      && PollPosts(rules, db, t) && PollLoses(rules, db, Scheduled(t, |log|))
      && LegalLog(db, log) && Consistent(Exec(db, log)) && AwaitsAnswer(Exec(db, log), id, history)
  {
    var t := PollAgain(id, scraped, r, history, now);
    var head := PollReachesTurn(rules, db, t);
    var after := BeforeTurn(rules, db, t).0;
    AwaitsAtTheTurn(rules, db, id, scraped, r, history, now);
    UnseenTurn(after, id, r, history, now);
    RunConcat(db, head, RunTurn(after, id, Some(r), history, now).log);
    RunIsExec(db, ActivityLog(rules, db, t));
    RunKeepsIndices(db, ActivityLog(rules, db, t));
  }

  lemma OneMorePoll(rules: Rules, db: Db, id: LeadId, run: seq<Scheduled>, s: Scheduled)
    ensures var now := Exec(db, RunLog(rules, db, run));
      && Exec(db, RunLog(rules, db, run + [s])) == Exec(now, Done(rules, now, s))
      && AnswersTo(rules, db, run + [s], id)
         == AnswersTo(rules, db, run, id) + (if PollPosts(rules, now, s.activity) && s.activity.lead == id then 1
             else 0)
      && LostTo(rules, db, run + [s], id)
         == LostTo(rules, db, run, id) + (if PollLoses(rules, now, s) && s.activity.lead == id then 1 else 0)
  {
    assert (run + [s])[..|run|] == run;
    ExecConcat(db, RunLog(rules, db, run), Done(rules, Exec(db, RunLog(rules, db, run)), s));
  }

  lemma OneMoreLost(rules: Rules, db: Db, id: LeadId, run: seq<Scheduled>, m: Db, t: Activity, r: Reading, history: nat)
    returns (longer: seq<Scheduled>, after: Db)
    requires m == Exec(db, RunLog(rules, db, run)) && Consistent(m) && AwaitsAnswer(m, id, history)
    requires Unseen(r) && t.PollActivity? && t == PollAgain(id, t.scraped, r, history, t.now)
    ensures |longer| == |run| + 1 && longer[..|run|] == run && longer[|run|].activity == t
    ensures after == Exec(db, RunLog(rules, db, longer)) && Consistent(after) && AwaitsAnswer(after, id, history)
    ensures AnswersTo(rules, db, longer, id) == AnswersTo(rules, db, run, id) + 1
    ensures LostTo(rules, db, longer, id) == LostTo(rules, db, run, id) + 1
  {
    var s := Scheduled(t, |ActivityLog(rules, m, t)|);
    UnseenAnswerIsLost(rules, m, id, t.scraped, r, history, t.now);
    OneMorePoll(rules, db, id, run, s);
    longer, after := run + [s], Exec(m, ActivityLog(rules, m, t));
  }

  /** Such polls deliver one answer each, as many as there are polls, although every one of them finds the earlier
      answers in the thread: the copies that the sync stores of them do not count as answers. */
  lemma {:induction false} LostAnswersAreUnbounded(rules: Rules, db: Db, id: LeadId, t: Activity, r: Reading,
                                                   history: nat, n: nat)
    returns (run: seq<Scheduled>, after: Db)
    requires Consistent(db) && AwaitsAnswer(db, id, history) && Unseen(r)
    requires t.PollActivity? && t == PollAgain(id, t.scraped, r, history, t.now)
    ensures |run| == n && forall i :: 0 <= i < n ==> run[i].activity == t
    ensures after == Exec(db, RunLog(rules, db, run)) && Consistent(after) && AwaitsAnswer(after, id, history)
    ensures AnswersTo(rules, db, run, id) == n && LostTo(rules, db, run, id) == n
  {
    run, after := [], db;
    if n > 0 {
      var front, m := LostAnswersAreUnbounded(rules, db, id, t, r, history, n - 1);
      run, after := OneMoreLost(rules, db, id, front, m, t, r, history);
      forall i | 0 <= i < n
        ensures run[i].activity == t
      {
        assert i < n - 1 ==> run[..n - 1][i] == front[i];
      }
    }
  }
}
