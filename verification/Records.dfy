/** The relational store of the prospecting pipeline: leads, identity aliases, the
    host-contact ledger and messages, with the unique indices and foreign keys of the schema. */
module Records {

  datatype Option<+T> = None | Some(value: T)

  type LeadId = nat
  type AccountId = nat
  type HostId = string
  type Time = int

  /** Every writer of a thread column stores a non-empty URL, so "has a thread" and "is not null" agree. */
  type ThreadUrl = s: string | s != "" witness "t"

  datatype LeadStatus =
    | LeadDiscovered
    | InitialMsgSent
    | FollowUp1Sent
    | FollowUp2Sent
    | FollowUp3Sent
    | RepliedInProgress
    | HumanTakeover
    | ClosedWon
    | ClosedLost

  function Rank(s: LeadStatus): nat {
    match s
    case LeadDiscovered => 0
    case InitialMsgSent => 1
    case FollowUp1Sent => 2
    case FollowUp2Sent => 3
    case FollowUp3Sent => 4
    case RepliedInProgress => 5
    case HumanTakeover => 6
    case ClosedWon => 7
    case ClosedLost => 7
  }

  function PickAdvanced(a: LeadStatus, b: LeadStatus): LeadStatus {
    if Rank(a) >= Rank(b) then a else b
  }

  datatype SkipReason = BelowMin | AboveMax | NotSuperhost | HotelLoft | WrongMarket

  datatype Lead = Lead(
    host: HostId,
    url: string,
    listingName: Option<string>,
    company: Option<string>,
    thread: Option<ThreadUrl>,
    status: LeadStatus,
    total: int,
    superhost: bool,
    market: Option<string>,
    icpSkip: Option<SkipReason>,
    lastContacted: Option<Time>,
    nextFollowUp: Option<Time>,
    createdAt: Time)

  datatype Alias = Alias(canonical: HostId, lead: Option<LeadId>)

  datatype ContactSource = FromOutbound | ManualSync | ManualRegister | PresendGuard | Backfill

  datatype Contact = Contact(host: HostId, firstAt: Time, account: Option<AccountId>, source: ContactSource)

  datatype BlockType = RateLimit | IdentityCheck | Captcha | OtherBlock

  datatype Direction = Inbound | Outbound | System

  /** The intent of an outbound message copied from its thread. */
  const THREAD_SYNC := "THREAD_SYNC"

  datatype Message = Message(lead: LeadId, direction: Direction, content: string, intent: Option<string>)

  /** The four tables. Messages are kept in the order in which they were recorded. */
  datatype Db = Db(
    leads: map<LeadId, Lead>,
    aliases: map<HostId, Alias>,
    contacts: map<LeadId, Contact>,
    messages: seq<Message>)

  predicate HostFree(leads: map<LeadId, Lead>, host: HostId) {
    forall k :: k in leads ==> leads[k].host != host
  }

  predicate ThreadFree(leads: map<LeadId, Lead>, self: LeadId, thread: Option<ThreadUrl>) {
    forall k :: k in leads && k != self && leads[k].thread.Some? ==> leads[k].thread != thread
  }

  predicate ContactHostFree(contacts: map<LeadId, Contact>, self: LeadId, host: HostId) {
    forall k :: k in contacts && k != self ==> contacts[k].host != host
  }

  ghost predicate HostsUnique(leads: map<LeadId, Lead>) {
    forall j, k :: j in leads && k in leads && leads[j].host == leads[k].host ==> j == k
  }

  ghost predicate ThreadsUnique(leads: map<LeadId, Lead>) {
    forall j, k :: j in leads && k in leads && leads[j].thread.Some? && leads[j].thread == leads[k].thread ==> j == k
  }

  ghost predicate ContactHostsUnique(contacts: map<LeadId, Contact>) {
    forall j, k :: j in contacts && k in contacts && contacts[j].host == contacts[k].host ==> j == k
  }

  /** Unique indices and foreign keys. Alias rows have no foreign key: they may name a deleted lead. */
  ghost predicate Sound(db: Db) {
    && HostsUnique(db.leads)
    && ThreadsUnique(db.leads)
    && ContactHostsUnique(db.contacts)
    && db.contacts.Keys <= db.leads.Keys
    && forall i :: 0 <= i < |db.messages| ==> db.messages[i].lead in db.leads
  }

  /** A ledger row carries the host id of the lead it belongs to; every writer of the ledger keeps it so. */
  ghost predicate LedgerNamesOwner(db: Db) {
    forall k :: k in db.contacts ==> k in db.leads && db.contacts[k].host == db.leads[k].host
  }

  ghost predicate Consistent(db: Db) {
    Sound(db) && LedgerNamesOwner(db)
  }

  predicate HasOutbound(messages: seq<Message>, lead: LeadId) {
    exists i :: 0 <= i < |messages| && messages[i].lead == lead && messages[i].direction.Outbound?
  }

  /** A status past discovery or a thread: what the lead row alone tells. */
  predicate RowContacted(l: Lead) {
    !l.status.LeadDiscovered? || l.thread.Some?
  }

  /** The four senses in which a lead counts as contacted. */
  predicate Contacted(db: Db, id: LeadId)
    requires id in db.leads
  {
    RowContacted(db.leads[id]) || id in db.contacts || HasOutbound(db.messages, id)
  }
}
