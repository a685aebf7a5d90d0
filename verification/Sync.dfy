/** Copying a scraped Airbnb thread into the message table. */
module Sync {
  import opened Records
  import opened Gate

  datatype Scraped = Scraped(inbound: bool, content: string)

  function DirectionOf(s: Scraped): Direction { if s.inbound then Inbound else Outbound }

  predicate Meaningful(rules: Rules, s: Scraped) {
    |rules.trim(s.content)| >= 2 && !rules.noise(rules.trim(s.content))
  }

  /** A stored message of the lead with this direction and normalised content. */
  predicate Stored(rules: Rules, ms: seq<Message>, lead: LeadId, dir: Direction, key: string) {
    exists i :: 0 <= i < |ms| && ms[i].lead == lead && ms[i].direction == dir && rules.normalize(ms[i].content) == key
  }

  function KeyOf(rules: Rules, s: Scraped): string { rules.normalize(rules.trim(s.content)) }

  function RowFor(rules: Rules, lead: LeadId, s: Scraped): Message {
    Message(lead, DirectionOf(s), rules.trim(s.content), if s.inbound then None else Some(THREAD_SYNC))
  }

  /** The rows one scraped message adds: none when it is noise or already stored. */
  function NewRow(rules: Rules, ms: seq<Message>, lead: LeadId, s: Scraped): seq<Message> {
    if !Meaningful(rules, s) || Stored(rules, ms, lead, DirectionOf(s), KeyOf(rules, s)) then []
    else [RowFor(rules, lead, s)]
  }

  /** The rows a whole scrape adds to the messages `ms`, in order. */
  function SyncedRows(rules: Rules, ms: seq<Message>, lead: LeadId, scraped: seq<Scraped>): seq<Message> {
    if scraped == [] then []
    else
      var front := SyncedRows(rules, ms, lead, scraped[..|scraped| - 1]);
      front + NewRow(rules, ms + front, lead, scraped[|scraped| - 1])
  }

  function CountDir(rows: seq<Message>, dir: Direction): nat {
    if rows == [] then 0
    else CountDir(rows[..|rows| - 1], dir) + if rows[|rows| - 1].direction == dir then 1 else 0
  }

  ghost function CountKey(rules: Rules, rows: seq<Message>, dir: Direction, key: string): nat {
    if rows == [] then 0
    else
      CountKey(rules, rows[..|rows| - 1], dir, key)
      + if rows[|rows| - 1].direction == dir && rules.normalize(rows[|rows| - 1].content) == key then 1 else 0
  }

  /** Some scraped message with this direction and key is worth keeping. */
  ghost predicate Offers(rules: Rules, scraped: seq<Scraped>, dir: Direction, key: string) {
    exists i :: 0 <= i < |scraped| && Meaningful(rules, scraped[i]) && DirectionOf(scraped[i]) == dir &&
        KeyOf(rules, scraped[i]) == key
  }

  lemma {:induction false} CountAppend(rules: Rules, rows: seq<Message>, m: Message, dir: Direction, key: string)
    ensures CountKey(rules, rows + [m], dir, key)
         == CountKey(rules, rows, dir, key) + if m.direction == dir && rules.normalize(m.content) == key then 1 else 0
    ensures CountDir(rows + [m], dir) == CountDir(rows, dir) + if m.direction == dir then 1 else 0
  {
    assert (rows + [m])[..|rows|] == rows;
  }

  lemma StoredAppend(rules: Rules, ms: seq<Message>, m: Message, lead: LeadId, dir: Direction, key: string)
    ensures Stored(rules, ms + [m], lead, dir, key)
       <==> Stored(rules, ms, lead, dir, key)
            || (m.lead == lead && m.direction == dir && rules.normalize(m.content) == key)
  {
    var all := ms + [m];
    assert all[|ms|] == m && forall i :: 0 <= i < |ms| ==> all[i] == ms[i];
    if Stored(rules, ms, lead, dir, key) {
      var i :| 0 <= i < |ms| && ms[i].lead == lead && ms[i].direction == dir && rules.normalize(ms[i].content) == key;
      assert all[i].lead == lead;
    }
  }

  lemma {:induction false} CountedIsStored(rules: Rules, ms: seq<Message>, rows: seq<Message>, lead: LeadId,
                                           dir: Direction, key: string)
    requires forall i :: 0 <= i < |rows| ==> rows[i].lead == lead
    ensures Stored(rules, ms + rows, lead, dir, key)
       <==> Stored(rules, ms, lead, dir, key) || CountKey(rules, rows, dir, key) > 0
  {
    if rows == [] {
      assert ms + rows == ms;
    } else {
      var front, m := rows[..|rows| - 1], rows[|rows| - 1];
      CountedIsStored(rules, ms, front, lead, dir, key);
      StoredAppend(rules, ms + front, m, lead, dir, key);
      assert ms + rows == (ms + front) + [m];
    }
  }

  lemma {:induction false} SyncedRowsAreTheLeads(rules: Rules, ms: seq<Message>, lead: LeadId, scraped: seq<Scraped>)
    ensures forall i :: 0 <= i < |SyncedRows(rules, ms, lead, scraped)| ==>
      var m := SyncedRows(rules, ms, lead, scraped)[i];
      && m.lead == lead && !m.direction.System?
      && m.intent == (if m.direction.Inbound? then None else Some(THREAD_SYNC))
  {
    if scraped != [] {
      SyncedRowsAreTheLeads(rules, ms, lead, scraped[..|scraped| - 1]);
    }
  }

  /** A sync adds exactly one row for each (direction, normalised content) that is offered by a meaningful
      scraped message and was not stored yet, and none for any other key. */
  lemma {:induction false} OneRowPerNewKey(rules: Rules, ms: seq<Message>, lead: LeadId, scraped: seq<Scraped>,
                                           dir: Direction, key: string)
    ensures CountKey(rules, SyncedRows(rules, ms, lead, scraped), dir, key)
         == if Offers(rules, scraped, dir, key) && !Stored(rules, ms, lead, dir, key) then 1 else 0
  {
    if scraped != [] {
      var front, s := scraped[..|scraped| - 1], scraped[|scraped| - 1];
      OneRowPerNewKey(rules, ms, lead, front, dir, key);
      var rows := SyncedRows(rules, ms, lead, front);
      SyncedRowsAreTheLeads(rules, ms, lead, front);
      CountedIsStored(rules, ms, rows, lead, dir, key);
      OffersGrows(rules, front, s, dir, key);
      assert scraped == front + [s];
      NewRowCounts(rules, ms + rows, rows, lead, s, dir, key);
    }
  }

  /** One scraped message adds to the count of its own key, once. */
  lemma NewRowCounts(rules: Rules, ms: seq<Message>, rows: seq<Message>, lead: LeadId, s: Scraped, dir: Direction,
                     key: string)
    ensures CountKey(rules, rows + NewRow(rules, ms, lead, s), dir, key) == CountKey(rules, rows, dir, key)
      + if Meaningful(rules, s) && DirectionOf(s) == dir && KeyOf(rules, s) == key &&
          !Stored(rules, ms, lead, dir, key) then 1 else 0
  {
    if NewRow(rules, ms, lead, s) != [] {
      CountAppend(rules, rows, RowFor(rules, lead, s), dir, key);
    } else {
      assert rows + [] == rows;
    }
  }

  lemma OffersGrows(rules: Rules, front: seq<Scraped>, s: Scraped, dir: Direction, key: string)
    ensures Offers(rules, front + [s], dir, key)
       <==> Offers(rules, front, dir, key) || (Meaningful(rules, s) && DirectionOf(s) == dir && KeyOf(rules, s) == key)
  {
    var all := front + [s];
    assert all[|front|] == s;
    forall i | 0 <= i < |front|
      ensures all[i] == front[i]
    {
    }
    if Offers(rules, front, dir, key) {
      var i :| 0 <= i < |front| && Meaningful(rules, front[i]) && DirectionOf(front[i]) == dir &&
          KeyOf(rules, front[i]) == key;
      assert Meaningful(rules, all[i]);
    }
  }

  lemma {:induction false} NothingOfferedNothingAdded(rules: Rules, ms: seq<Message>, lead: LeadId,
                                                      scraped: seq<Scraped>)
    requires forall dir, key :: Offers(rules, scraped, dir, key) ==> Stored(rules, ms, lead, dir, key)
    ensures SyncedRows(rules, ms, lead, scraped) == []
  {
    if scraped != [] {
      var front, s := scraped[..|scraped| - 1], scraped[|scraped| - 1];
      assert scraped == front + [s];
      forall dir, key | Offers(rules, front, dir, key)
        ensures Stored(rules, ms, lead, dir, key)
      {
        OffersGrows(rules, front, s, dir, key);
      }
      OffersGrows(rules, front, s, DirectionOf(s), KeyOf(rules, s));
      NothingOfferedNothingAdded(rules, ms, lead, front);
      assert ms + [] == ms;
    }
  }

  /** Syncing the same scrape a second time adds nothing. */
  lemma SyncIsIdempotent(rules: Rules, ms: seq<Message>, lead: LeadId, scraped: seq<Scraped>)
    ensures SyncedRows(rules, ms + SyncedRows(rules, ms, lead, scraped), lead, scraped) == []
  {
    var rows := SyncedRows(rules, ms, lead, scraped);
    SyncedRowsAreTheLeads(rules, ms, lead, scraped);
    forall dir, key | Offers(rules, scraped, dir, key)
      ensures Stored(rules, ms + rows, lead, dir, key)
    {
      OneRowPerNewKey(rules, ms, lead, scraped, dir, key);
      CountedIsStored(rules, ms, rows, lead, dir, key);
    }
    NothingOfferedNothingAdded(rules, ms + rows, lead, scraped);
  }

  // ---------- the rows themselves ----------

  /** `places` picks scraped messages in their order, and the rows are copies of them: the trimmed text, the direction,
      and an intent that marks our own messages as copies. */
  ghost predicate CopiedFrom(rules: Rules, lead: LeadId, scraped: seq<Scraped>, places: seq<nat>, rows: seq<Message>) {
    && |places| == |rows| && (forall i, j :: 0 <= i < j < |places| ==> places[i] < places[j])
    && forall i :: 0 <= i < |rows| ==> places[i] < |scraped| && IsCopyOf(rules, lead, scraped[places[i]], rows[i])
  }

  predicate IsCopyOf(rules: Rules, lead: LeadId, s: Scraped, m: Message) {
    && m.lead == lead && m.content == rules.trim(s.content)
    && (s.inbound ==> m.direction == Inbound && m.intent == None)
    && (!s.inbound ==> m.direction == Outbound && m.intent == Some("THREAD_SYNC"))
    && |m.content| >= 2 && !rules.noise(m.content)
  }

  /** The rows a scrape adds are copies of some of its messages, in their order. */
  lemma {:induction false} RowsAreCopies(rules: Rules, ms: seq<Message>, lead: LeadId, scraped: seq<Scraped>)
    returns (places: seq<nat>)
    ensures CopiedFrom(rules, lead, scraped, places, SyncedRows(rules, ms, lead, scraped))
  {
    places := [];
    if scraped != [] {
      var last := |scraped| - 1;
      places := RowsAreCopies(rules, ms, lead, scraped[..last]);
      var front := SyncedRows(rules, ms, lead, scraped[..last]);
      if NewRow(rules, ms + front, lead, scraped[last]) != [] {
        places := places + [last];
      }
    }
  }

  /** A scraped message alone, on an empty table: it is copied iff its text has two characters after trimming and is no
      noise. */
  lemma LoneMessage(rules: Rules, lead: LeadId, s: Scraped)
    ensures SyncedRows(rules, [], lead, [s]) != []
       <==> |rules.trim(s.content)| >= 2 && !rules.noise(rules.trim(s.content))
  {
    assert [s][..0] == [];
    assert SyncedRows(rules, [], lead, [s][..0]) == [];
  }
}
