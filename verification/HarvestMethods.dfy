/** The lead upsert and the discovered-lead repair, as they run against the database. */
module HarvestMethods {
  import opened Records
  import opened Identity
  import opened Gate
  import opened Merge
  import opened Recanonical
  import opened Writes
  import opened Harvesting
  import opened Pipeline
  import opened Store

  /** `cacheIcpSkip`; the lookup by host id was answered with `existing`. */
  method CacheIcpSkip(db: Database, h: Harvested, id: LeadId, existing: Option<LeadId>)
    requires db.Valid() && IsFresh(h.row) && id !in db.leads && FindsHost(db.Snapshot(), h.row.host, existing)
    modifies db
    ensures Run(old(db.Snapshot()), SkipLog(old(db.Snapshot()), h, id, existing)) == Some(db.Snapshot())
  {
    ghost var start := db.Snapshot();
    match existing
    case None =>
      var row := h.row.(icpSkip := h.verdict);
      FreshRowFits(start, id, row);
      RunOne(start, Create(id, row));
      var ok := db.CreateLead(id, row);
    case Some(k) =>
      if db.leads[k].status.LeadDiscovered? {
        var row := SkipRow(db.leads[k], h);
        UpdateOfContactedFieldsOnly(start, k, row);
        RunOne(start, Update(k, row));
        var ok := db.UpdateLead(k, row);
      }
  }

  lemma CreateThenAbsorb(db: Db, id: LeadId, row: Lead, d: LeadId)
    requires Legal(db, Create(id, row))
    ensures Run(db, [Create(id, row), Absorb(id, d)]) == Step(Apply(db, Create(id, row)), Absorb(id, d))
  {
    RunOne(db, Create(id, row));
    RunSnoc(db, [Create(id, row)], Absorb(id, d));
    assert [Create(id, row), Absorb(id, d)] == [Create(id, row)] + [Absorb(id, d)];
  }

  /** An eligible host that is not stored yet: created, and merged with a duplicate when one was found. */
  method StoreNewHost(db: Database, h: Harvested, id: LeadId, duplicate: Option<LeadId>) returns (action: Action)
    requires db.Valid() && Storable(db.Snapshot(), h, id, None, duplicate) && h.verdict.None?
    modifies db
    ensures action == Upsert(old(db.Snapshot()), h, id, None, duplicate).action
    ensures Run(old(db.Snapshot()), Upsert(old(db.Snapshot()), h, id, None, duplicate).log) == Some(db.Snapshot())
  {
    ghost var start := db.Snapshot();
    FreshRowFits(start, id, h.row);
    RunOne(start, Create(id, h.row));
    var ok := db.CreateLead(id, h.row);
    if !IsNumericHostId(h.row.host) || duplicate.None? {
      return WasCreated;
    }
    ok := AbsorbDuplicate(db, start, h, id, duplicate.value);
    action := if ok then WasUpdated else MergeThrew;
  }

  /** The new row takes its duplicate over, or the indices refuse it. */
  method AbsorbDuplicate(db: Database, ghost start: Db, h: Harvested, id: LeadId, d: LeadId) returns (ok: bool)
    requires Consistent(start) && Storable(start, h, id, None, Some(d)) && db.Snapshot() == Created(start, id, h.row)
    modifies db
    ensures ok <==> MergeCommits(Created(start, id, h.row), id, d)
    ensures Run(start, if ok then [Create(id, h.row), Absorb(id, d)] else [Create(id, h.row)]) == Some(db.Snapshot())
  {
    FreshRowFits(start, id, h.row);
    RunOne(start, Create(id, h.row));
    CreationKeepsIndices(start, id, h.row);
    CreateThenAbsorb(start, id, h.row, d);
    ok := db.MergeLeadIntoCanonical(id, d);
  }

  /** An eligible host that is stored already. */
  method RefreshHost(db: Database, h: Harvested, k: LeadId, ghost id: LeadId, ghost duplicate: Option<LeadId>)
    returns (action: Action)
    requires db.Valid() && Storable(db.Snapshot(), h, id, Some(k), duplicate) && h.verdict.None?
    modifies db
    ensures action == Upsert(old(db.Snapshot()), h, id, Some(k), duplicate).action
    ensures Run(old(db.Snapshot()), Upsert(old(db.Snapshot()), h, id, Some(k), duplicate).log) == Some(db.Snapshot())
  {
    ghost var start := db.Snapshot();
    var l := db.leads[k];
    if !l.status.LeadDiscovered? && !Grew(l, h) {
      return WasUnchanged;
    }
    var row := if l.status.LeadDiscovered? then RefreshedRow(l, h) else GrownRow(l, h);
    UpdateOfContactedFieldsOnly(start, k, row);
    RunOne(start, Update(k, row));
    var ok := db.UpdateLead(k, row);
    return WasUpdated;
  }

  /** `upsertDiscoveredLead`; both lookups were answered with `existing` and `duplicate`. */
  method UpsertDiscoveredLead(db: Database, h: Harvested, id: LeadId, existing: Option<LeadId>,
                              duplicate: Option<LeadId>)
    returns (action: Action, stored: Option<LeadId>)
    requires db.Valid() && Storable(db.Snapshot(), h, id, existing, duplicate)
    modifies db
    ensures action == Upsert(old(db.Snapshot()), h, id, existing, duplicate).action
    ensures stored == Upsert(old(db.Snapshot()), h, id, existing, duplicate).id
    ensures Run(old(db.Snapshot()), Upsert(old(db.Snapshot()), h, id, existing, duplicate).log) == Some(db.Snapshot())
  {
    if h.verdict.Some? {
      CacheIcpSkip(db, h, id, existing);
      return WasSkipped, None;
    }
    match existing
    case None =>
      action := StoreNewHost(db, h, id, duplicate);
      stored := if action.MergeThrew? then None else Some(id);
    case Some(k) =>
      action := RefreshHost(db, h, k, id, duplicate);
      stored := existing;
  }

  /** `fixInconsistentDiscoveredLead`. */
  method FixInconsistentDiscoveredLead(db: Database, id: LeadId, now: Time)
    requires db.Valid() && id in db.leads
    modifies db`leads
    ensures Run(old(db.Snapshot()), FixLog(old(db.Snapshot()), id, now)) == Some(db.Snapshot())
  {
    FixRuns(db.Snapshot(), id, now);
    var l := db.leads[id];
    if !l.status.LeadDiscovered? {
      return;
    }
    if l.thread.None? && !HasOutbound(db.messages, id) {
      return;
    }
    var row := l.(status := InitialMsgSent, lastContacted := Or(l.lastContacted, Some(now)));
    RunOne(db.Snapshot(), Update(id, row));
    var ok := db.UpdateLead(id, row);
  }
}
