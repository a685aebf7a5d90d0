# Never twice, never too much: a model of the prospecting pipeline

The repository prospects hosts on Airbnb. It discovers listings, decides which hosts fit, sends a first "cold" message
and follow-ups from a rotation of accounts, reads the answers and hands interested hosts to a person. Its promise is
that no host is contacted cold twice and that no account is overrun. This project models the logic behind that promise
and proves what the code keeps of it, over all inputs and all runs: no lineage of leads has two cold messages on record,
outside one exact case; a host that the gate has forgotten starts a new lineage; the messages hosts really get are more,
and how many more is bounded below.

Written for Dafny 4.11; `dafny verify dfyconfig.toml` covers the whole project.

## What is modelled

**The store.** Leads, alias rows, the contact ledger and messages are four tables of the class `Store.Database`. Every
write is accepted or refused by the unique indices of the Prisma schema (`hostAirbnbId` and `threadId` of a lead,
`aliasId` of an alias, `leadId` and `hostAirbnbId` of a ledger row). The merge is one transaction that commits or leaves
everything unchanged. Alias rows have no foreign key and survive the lead they name.

**Plans and methods.** Each pipeline operation appears twice: as a pure plan (the log of writes it makes from a given
store, whatever Airbnb answers) and as a method that works step by step on the database. A method's contract says that
the tables end up exactly where the plan's log takes them, that every write of it was accepted by the indices, and that
every write kept the pipeline's own discipline (`Writes.Disciplined`: no status loses rank, no lead loses its thread, a
template goes out only in the phase of the lead's status, and so on). The facts about runs are then proved once, about
logs of legal writes. A run may be interrupted after any write.

**Rows and numbers.** What an operation leaves behind is also stated without the functions of its plan: on the tables
after its log, in columns, texts and numbers. `Merge.SurvivorInherits`, `Members`, `SendEffects`, `TurnEffects`,
`UpsertEffects` and `AccountEffects` hold these laws; most of them are exact in both directions.

**Airbnb.** A send attempt is an arbitrary answer: blocked, delivered, undeliverable, failed, or redirected to an
existing thread with an arbitrary scrape. An attempt that is blocked or fails may have reached the host all the same: the
answer carries a flag for it that no code reads. Every success carries a thread (apps/scraper/src/messaging/airbnb-messaging.ts:507-512
and 556-558), so the branches for a success without one (apps/scraper/scripts/outbound-run.ts:347-358 and the second half
of apps/scraper/src/discovery/harvest-send.ts:245) are never taken. One attempt counts as one message, although the
contact form is sent once before and once after the dates are chosen. Classifiers, noise filters, ICP eligibility and text
normalisation are parameters.

**Accounts.** The account table is the class `AccountBook.Book`; its methods are tied to functions on values, and the
daemon is a machine whose steps are the table's updates, with a clock that moves between any two of them. The jobs are
tied to the machine by proof: what `OutboundRun.Rotation.Drive` and `HarvestRun.Harvest.HarvestWithRotation` do to the
table is a stretch of a run of the machine (`Daemon.Reaches`), so everything proved over its runs holds of them.

| file | content |
|---|---|
| `Records`, `Texts`, `Captures` | rows, indices, string tests, and what the tests find |
| `Identity`, `Gate`, `Members`, `ClusterMethods` | clusters as graph distance, the cold gate, the cold queue, and who is in a cluster by the columns of the rows |
| `Merge`, `Recanonical`, `Trails`, `Reappearance` | the merge, and what the gate remembers after merges and runs of harvests |
| `Writes`, `Pipeline` | legal logs, and every run of the pipeline |
| `Sync`, `Sending`, `SendEffects`, `ColdSafety`, `SendMethods` | thread sync, cold and follow-up sends, and the rows they leave |
| `Deliveries` | the messages hosts get, on record or not |
| `Harvesting`, `UpsertEffects`, `HarvestMethods` | discovered leads: upsert, merge, repair, and the rows they leave |
| `Conversation`, `TurnEffects`, `ConversationMethods`, `BotAnswers` | polling a thread, the conversation turn, the rows they leave, and the answers hosts get, on record or not |
| `Store` | the database class |
| `Accounts`, `AccountEffects`, `AccountBook`, `Daemon` | picking, waves, cooldowns, maintenance, sleep, and the same in numbers and columns |
| `Progress`, `RotationTrace`, `OutboundRun` | the nested send loops, why they end, and their turns as stretches of the daemon |
| `HarvestCursor`, `HarvestTrace`, `HarvestVisits`, `HarvestRun`, `CapMissed` | the stored cursor, one listing, the listing, page and account loops with the accounts that carry them, and a harvest past its cap |
| `Phrases`, `Payload`, `Decodo` | branding detection, payload search, proxy user names |
| `Witness` | addresses and rows of the concrete cases |

## What the code does not keep, and exactly when

- **A delivery the code did not see is made again.** After the send button was pressed an attempt can still fail: no
  thread is found, a later step throws, a block appears. Nothing is recorded, the retry sends the template again, and so
  does the next run. At the end of any run, a send behind an open gate writes to a host already written to if and only if
  its second attempt is delivered after a first one that reached the host unseen or was stale (below), or one of its
  attempts is delivered after the run has reached the host unseen (`Deliveries.ReachesAgainIff`). Over every run the cold
  messages a host gets as one lead are at most two for each failure the cap still allows, and at least two - twice the cap
  for a lead the run itself discovers - and two more for each send that was blocked or cut short
  (`Deliveries.PostsAreBounded`, `DiscoveredIsBounded`); the bound is reached (`UnseenSendIsExact`, `BoundIsReached`), and
  a retry that ends in a block leaves not even a note, so that such sends have no bound (`BlockedSendsAreUnbounded`). Only
  a delivery on record is the last one (`RecordedDeliveryIsLast`). A failed follow-up leaves nothing behind either
  (`FailedFollowUpIsForgotten`). The counters of the accounts miss exactly these deliveries
  (`OutboundRun.Rotation.Drive`).
- **An answer of the bot that was not seen to arrive is given again.** The failed turn leaves a tag at most and the next
  one decides as if it had not been (`BotAnswers.FailedAnswerIsForgotten`). The copy of the answer that the next poll finds
  in the thread is no bot reply to the turn, so polls repeat it without end (`LostAnswersAreUnbounded`); over every run the
  answers that arrive are the recorded ones and the lost ones (`AnswersAreRecordedOrLost`).
- **The retry asks no gate.** A failed cold attempt is repeated once without a second look. If the first attempt was
  redirected to a thread whose URL carries no thread number, another lead holds that URL, and one of our own messages
  was copied before the claim failed, a delivered second attempt records a cold message on a lead that is already
  contacted. `ColdSafety.SendLeadColdExactness` and `HarvestSendColdExactness`: cold messages are recorded on uncontacted
  leads if and only if the first attempt was not of that kind, which is known before the second one starts.
  `StaleRetryHappens` is a concrete case.
- **The gate remembers two merges.** A contacted host without a thread is harvested under one new host id after the
  other; each harvest creates a lead and merges the one before into it. When it is harvested under its first id again, with
  a listing no lead names, the gate refuses the new lead if and only if there were at most two such harvests
  (`Reappearance.MemoryIsTwoMerges`). Other contacted leads may be in the store as long as their host ids are numeric; other
  alias rows must not touch these ids or the one of the new listing. `Reappearance.ThirdMergeForgets` is a run from an
  empty store at whose end one host id has two cold messages on record, under two leads.
- **A harvested placeholder cannot take over a thread.** The survivor is updated before the duplicate is deleted, so
  the merge aborts exactly when a thread would have to move (`Harvesting.HarvestMergeCommitsIff`); the placeholder that
  stays behind is still refused by the gate (`AbortedMergeIsStillRefused`).
- **An inbound login can strand an account.** It marks a cooling account active and leaves its cooldown date: the pick
  query skips the account while the sleep computation reports that somebody is ready. A wait of zero is honest if and
  only if one of the accounts that report it is not stranded (`Accounts.ZeroWaitIsHonestIff`); until the date passes
  the daemon keeps its minimum sleep (`StrandedAccountSpins`). A pick succeeds after the first or the second wait if and
  only if some expected account is ready by the end of the first or none is stuck then (`TwoSleepsIff`); on a table with
  one stranded account both waits fail (`BothSleepsFail`).
- **A send cap below one never ends.** With `OUTBOUND_MAX_SENDS` below one, or with a text that is no number, which makes
  the cap NaN, the outer loop picks the account again and nothing changes. With leads and a usable account at hand it is
  still running after any number of turns if and only if the cap is below one (`OutboundRun.Rotation.DriveFor`); with at
  least one it ends (`Drive`).
- **The harvest cap counts sends, not messages.** A delivery whose reported thread belongs to another lead is recorded
  and then refused by the thread index; the listing throws and counts for nothing. The messages recorded are the sends
  counted and these, so they stay below twice the cap if and only if the refused deliveries leave room
  (`HarvestRun.Harvest.HarvestWithRotation`). `CapMissed.CapIsMissed` is a concrete harvest that goes past it. The
  fallback to the newest thread of the inbox (apps/scraper/src/messaging/airbnb-messaging.ts:245-257) reports such threads.
- **The proxy base name "session" is misread.** The parser finds the session id again if and only if the base is not
  the word itself or the part that then follows it equals the id (`Decodo.ParseUndoesBuild`, `SessionBaseIsMisread`).

The comment on `markAccountSessionInvalid` (apps/scraper/src/accounts/account-repository.ts:106-109) says that the
account stays out of rotation until somebody logs it in by hand; the recovery step at
apps/scraper/src/accounts/account-selector.ts:96-135 puts every such account with a stored session back in each cycle,
and the model follows the code.

## Model

| member | source | states |
|---|---|---|
| Identity.ReachIsDistanceTwo | packages/lead-contact/src/cluster.ts:97-129 | before related leads are added, the cluster's host ids are exactly the ids within two undirected alias links of the lead's own host, listing and thread ids |
| Identity.StarsAreCovered | packages/lead-contact/src/cluster.ts:110-129 | when no canonical id is itself an alias, every id linked to a seed by a walk of any length is in the cluster |
| Identity.RootOwnerInCluster | packages/lead-contact/src/cluster.ts:110-158 | the lead owning the end of an alias chain of at most two links from the seed's host is in the cluster |
| Identity.PointedLeadInCluster | packages/lead-contact/src/cluster.ts:126-129 | a lead named by an alias row one link from the seeds is in the cluster |
| Identity.ListingLookupInCluster | packages/lead-contact/src/cluster.ts:179-208 | whatever a lookup by one of its listings finds, the lead's cluster contains |
| ClusterMethods.ResolveCanonicalHostIds | packages/lead-contact/src/host-ids.ts:3-21 | the loop over alias rows yields one undirected hop |
| ClusterMethods.ResolveLeadIdentityCluster | packages/lead-contact/src/cluster.ts:93-177 | the growing local sets end as the cluster, and its leads are exactly the lead itself, those named by an alias row with an end at most one link away, and every stored lead of the same host: within two links, with a known listing in its URL, with a known thread number in its thread, or registered under such a number in either form |
| Members.LeadsOfTheCluster | packages/lead-contact/src/cluster.ts:93-158 | the same of the cluster as defined, for every store and lead, in terms of row columns and walks through the alias table |
| Members.ThreadLeadsAreInCluster | packages/lead-contact/src/cluster.ts:147-151 | every stored lead whose thread holds one of the lead's own thread numbers, under whatever address, or that is registered under one, is in the cluster |
| Members.HostsOfTheCluster | packages/lead-contact/src/cluster.ts:97-166 | exactly these host ids: those at most two links away, and those of its stored leads with the ids their listings and threads may be registered under |
| Members.NumbersOfTheCluster | packages/lead-contact/src/cluster.ts:99-165 | exactly these listings and threads: those of the lead, those named by alias rows read, and those of its stored leads |
| Members.ListingIdsMean | packages/lead-contact/src/cluster.ts:50-57 | a row names a listing by the number in its URL or as the listing it is registered under |
| Members.ThreadIdsMean | packages/lead-contact/src/cluster.ts:59-71 | a row names a thread by the number in its thread URL or by its host id, in the new form or the old one |
| Members.SeedsMean | packages/lead-contact/src/cluster.ts:97-108 | the search starts from the lead's own host id and those of its listings and threads, and nowhere else |
| Captures.DigitsAfterIsFirst | packages/airbnb-parse/src/index.ts:8-16 | the capture of a URL pattern: all the digits behind the first marker, in any case, that has a digit behind it; nothing iff none has |
| Captures.DigitsOfMeans | packages/lead-contact/src/cluster.ts:54-70 | an anchored pattern matches iff the whole id is the prefix and a number |
| Captures.ContainsMeans | packages/lead-contact/src/cluster.ts:139-149 | a text contains another iff it can be cut around it |
| ClusterMethods.FindLeadsByListingId | packages/lead-contact/src/cluster.ts:179-208 | the lookup returns exactly the leads reachable through the listing's row, its URL or the row's lead |
| Members.LookupByListing | packages/lead-contact/src/cluster.ts:179-208 | exactly the leads under the listing's own id, under its canonical id or one link from that, with the listing in their URL, or named by its alias row |
| ClusterMethods.IsClusterContacted | packages/lead-contact/src/cluster.ts:210-276 | contact iff some lead row, ledger row or outbound message of the cluster shows it, with the first reason in that order and a lead that shows it |
| ClusterMethods.AssertColdOutboundAllowed | packages/lead-contact/src/index.ts:70-116 | the gate reads the tables step by step and returns the first reason that applies, with the lead itself or the contacted lead of its cluster |
| ClusterMethods.FindEligibleColdLeads | apps/scraper/src/persistence/outbound-pipeline.ts:89-151 | exactly the first `limit` leads the gate accepts among the first 4*limit rows of the cold query |
| Members.QueueMeans | apps/scraper/src/persistence/outbound-pipeline.ts:89-151 | only cold rows the gate accepts are offered, and every one of them when neither window nor limit cuts the queue short |
| Members.ColdRowMeans | apps/scraper/src/persistence/outbound-pipeline.ts:104-131 | the rows of the cold query, column by column |
| Gate.ClusterContactedMeaning | packages/lead-contact/src/cluster.ts:210-276 | not contacted iff every lead of the cluster is uncontacted in all four senses and no ledger row carries a cluster host id |
| Gate.GateMeaning | packages/lead-contact/src/index.ts:46-116 | the gate opens iff the lead is ICP-eligible and its whole cluster is untouched; the own-row tests add nothing to that |
| Members.ReasonsInOrder | packages/lead-contact/src/index.ts:70-116 | each of the six reasons is given iff it applies and none before it does |
| Members.ContactOfAMemberRefuses | packages/lead-contact/src/cluster.ts:210-276 | one stored lead of the cluster with a later status, a thread, a ledger row or an outbound message is enough to refuse |
| Members.LedgerOfTheClusterRefuses | packages/lead-contact/src/cluster.ts:234-250 | so is a ledger row under one of the cluster's host ids |
| Members.SharedThreadRefuses | packages/lead-contact/src/index.ts:70-116 | whenever the thread of any lead holds a thread number the lead is known by, the gate refuses |
| Members.RegisteredThreadRefuses | packages/lead-contact/src/index.ts:70-116 | and when a lead past discovery is registered under such a number |
| Members.SharedListingRefuses | packages/lead-contact/src/index.ts:70-116 | and when the URL of a lead past discovery shows a listing it is known by |
| Gate.QueueTestIsGate | apps/scraper/src/persistence/outbound-pipeline.ts:104-147 | on rows of the cold query the queue's test and the gate agree |
| Merge.MergeConserves | apps/scraper/src/persistence/lead-identity-merge.ts:71-148 | a committed merge moves all messages of both leads to the survivor, makes it contacted iff either was, gives it the higher rank, and leaves every other lead as it was |
| Merge.SurvivorInherits | apps/scraper/src/persistence/lead-identity-merge.ts:107-144 | the survivor's columns as above, its ledger row - its own, else the duplicate's under its own host id - and the alias row under which the duplicate is remembered; every other ledger and alias row stays |
| Merge.RanksAscend | packages/lead-contact/src/status.ts:14-24 | the order of the statuses, with both ends at the top |
| Merge.MergeKeepsIndices | apps/scraper/src/persistence/lead-identity-merge.ts:71-148 | all unique indices and the ledger's link to its lead still hold after a committed merge |
| Store.Database.MergeLeadIntoCanonical | apps/scraper/src/persistence/lead-identity-merge.ts:71-148 | the transaction commits to the merged tables or, when an index objects, leaves everything unchanged; after a commit the survivor has inherited, column by column: the larger total, superhost if either was, the further status and its own at equal rank, and thread, market, company, name, date and URL of its own where it has them |
| Store.Database.MergeInTransaction | apps/scraper/src/persistence/lead-identity-merge.ts:80-147 | the writes of the transaction in order, rolled back by the first that an index refuses |
| Store.Database.MarkHostContacted | packages/lead-contact/src/index.ts:118-140 | a first contact adds the ledger row, a later one changes nothing |
| Store.Database.RegisterIdentityAlias | packages/lead-contact/src/cluster.ts:73-91 | the alias points at its canonical id afterwards; an id is never its own alias |
| Store.Database.UpdateLead | packages/db/prisma/schema.prisma:65-72 | an update succeeds iff no other lead holds the thread |
| Recanonical.OneMergeIsRemembered | apps/scraper/src/persistence/lead-identity-merge.ts:107-144 | after a merge, a fresh lead with the duplicate's host id is refused if either lead was contacted |
| Trails.MergeIsRemembered | packages/lead-contact/src/cluster.ts:110-137 | the same after any further legal writes, while the survivor is not merged away and the id is not linked anew |
| Trails.TwoMergesAreRemembered | packages/lead-contact/src/cluster.ts:110-137 | the same through a second merge of the survivor, with any legal writes in between and after that leave the two rows and the last survivor alone |
| Trails.SuccessionLeavesTrail | apps/scraper/src/persistence/lead-repository.ts:201-221 | each harvest of the chain creates a lead and merges the one before into it; they leave one alias row each, naming its survivor, and the contact with the last lead, and every other lead as it was |
| Reappearance.MemoryIsTwoMerges | packages/lead-contact/src/cluster.ts:110-158 | over a run of harvests of a contacted host under ever new ids, and then under its first id with a listing no lead names: the lead created last is refused iff there were at most two in between; other contacted leads are allowed under numeric host ids, other alias rows if they touch none of these ids |
| Reappearance.ThirdMergeForgets | packages/lead-contact/src/cluster.ts:110-129 | a run from an empty store, every activity fitting the store it starts on, that puts two cold messages to one host id on record |
| Reappearance.HarvestsSucceed | apps/scraper/src/persistence/lead-repository.ts:201-221 | a run of such harvests writes exactly the chain of creations and merges, each accepted by the indices |
| Recanonical.TrailMemory | packages/lead-contact/src/cluster.ts:110-158 | on any store, the gate refuses the id at the head of a trail of alias rows iff at most two of them separate it from the contacted survivor |
| Writes.WriteKeepsIndices | packages/db/prisma/schema.prisma:65-229 | every legal write keeps the indices and the ledger's links |
| Writes.WriteKeepsContact | apps/scraper/src/persistence/outbound-pipeline.ts:244-363 | no legal write makes a contacted lead, or the survivor it is merged into, uncontacted or lowers its rank |
| Writes.ContactIsPermanent | packages/lead-contact/src/status.ts:14-41 | over every legal log the heir of a contacted lead is contacted and stands at least as high in the pipeline |
| Writes.RepliedLeadsAreLeftAlone | apps/scraper/src/persistence/outbound-pipeline.ts:12-43 | after a reply no template reaches the lead or its heirs; once paused, every outbound row is a copy of its thread |
| Writes.NoSecondColdMessage | packages/lead-contact/src/index.ts:70-116 | if cold messages are recorded only on uncontacted leads, no lineage gets two |
| Sync.OneRowPerNewKey | apps/scraper/src/persistence/inbound-pipeline.ts:136-163 | exactly one row for each meaningful (direction, normalised content) key not stored yet, none for any other |
| Sync.SyncIsIdempotent | apps/scraper/src/persistence/inbound-pipeline.ts:39-163 | the same scrape again adds nothing |
| Sync.RowsAreCopies | apps/scraper/src/persistence/inbound-pipeline.ts:136-163 | the rows are copies of scraped messages in their order: trimmed text, direction, and the mark of a copy on our own |
| Sync.LoneMessage | apps/scraper/src/persistence/inbound-pipeline.ts:144-147 | a message alone is copied iff its trimmed text has two characters and is no noise |
| SendMethods.SyncThreadMessages | apps/scraper/src/persistence/inbound-pipeline.ts:136-163 | the rows and both counters; a host has replied iff an inbound row was added |
| Sending.FoundThreadRuns | apps/scraper/src/messaging/existing-thread-sync.ts:34-124 | syncing an existing thread writes a legal log and fails iff it finds no owner and another lead holds the URL |
| Sending.OwnersMerge | apps/scraper/src/persistence/lead-identity-merge.ts:86-147 | a merge commits iff no thread has to move from the duplicate to a survivor without one |
| Sending.SendLeadRuns | apps/scraper/scripts/outbound-run.ts:214-393 | whatever Airbnb answers, a send from the outbound job writes a legal log |
| Sending.HarvestSendRuns | apps/scraper/src/discovery/harvest-send.ts:123-292 | and so does the send that follows a harvested listing |
| SendMethods.SyncExistingColdThread | apps/scraper/src/messaging/existing-thread-sync.ts:34-124 | messages, aliases, merge or claim, status and ledger, as planned for owner and non-owner; a lead that claims the thread leaves the template phases iff the scrape of a discovered lead holds a message of the host, is due for the second message otherwise, and keeps a later status; one that yields is gone and its owner has inherited; a refused claim leaves leads and ledger as they were |
| SendEffects.FoundThreadIsClaimed | apps/scraper/src/messaging/existing-thread-sync.ts:85-124 | on the tables after the log: thread, status, date, nothing due, the ledger row with its source unless there was one, the thread's listings pointing at the lead, the new messages, and nothing else |
| SendEffects.FoundThreadIsYielded | apps/scraper/src/messaging/existing-thread-sync.ts:53-83 | on the tables after the log: the lead is gone, the owner has inherited, is on the ledger, and has the messages of both |
| SendEffects.FoundThreadIsRefused | apps/scraper/src/messaging/existing-thread-sync.ts:85-117 | a thread without known owner whose URL another lead holds: messages and aliases are written, and nothing else |
| SendMethods.SendTwice | apps/scraper/scripts/outbound-run.ts:264-299 | one attempt and one retry without a second gate |
| SendMethods.RegisterColdSendFailure | apps/scraper/src/persistence/outbound-pipeline.ts:287-321 | the failure is noted and, at the cap, a lead still in discovery is closed |
| SendMethods.RecordDelivery | apps/scraper/scripts/outbound-run.ts:360-378 | record, transition, ledger; an index that refuses the transition leaves only the record |
| SendEffects.DeliveryMovesOn | apps/scraper/src/persistence/outbound-pipeline.ts:14-76 | on the tables after a delivery: the phase's message on record, the next status, the thread, the next message due after the phase's days and none after the last phase, and the ledger row of a first message |
| SendEffects.RefusedDeliveryIsOnRecord | apps/scraper/scripts/outbound-run.ts:360-378 | a delivery whose thread another lead holds is on record, and nothing else is written |
| SendEffects.FailureIsNoted | apps/scraper/src/persistence/outbound-pipeline.ts:287-321 | on the tables after a failure: one note more, and the lead closed with nothing due iff it is still in discovery and its notes have reached the cap |
| SendMethods.SendLeadWithAccount | apps/scraper/scripts/outbound-run.ts:214-393 | the whole send ends where its plan says, on every path |
| SendEffects.SendReports | apps/scraper/scripts/outbound-run.ts:214-393 | exactly discovered leads behind an open gate and leads in a later template phase are written to; the outcome follows from the first answer or, if that gave up, the second |
| SendEffects.HarvestReports | apps/scraper/src/discovery/harvest-send.ts:131-292 | the same of the harvest send, whose closed gate leaves no trace |
| SendEffects.CoreLeaves | apps/scraper/scripts/outbound-run.ts:264-391 | attempts leave leads and ledger as they were unless a thread is found; then a seen delivery is entered, a cold failure noted, and a block or a failed follow-up writes nothing |
| HarvestVisits.SendColdAfterHarvest | apps/scraper/src/discovery/harvest-send.ts:123-292 | gate, listing binding and send end where their plan says; behind an open gate the account's wave is started and the outcome entered on it, else its row stays |
| SendMethods.BindToListing | apps/scraper/src/discovery/harvest-send.ts:65-117 | the lead points at the harvested listing and keeps everything else |
| SendEffects.BindingMoves | apps/scraper/src/discovery/harvest-send.ts:88-117 | on the tables afterwards: the harvested URL, the title as name if there is one, all else as before, and no write when it is so already |
| ColdSafety.SendLeadColdExactness | apps/scraper/scripts/outbound-run.ts:220-378 | a cold message of the outbound job is recorded on an uncontacted lead iff the first attempt was not a stale one |
| ColdSafety.HarvestSendColdExactness | apps/scraper/src/discovery/harvest-send.ts:131-277 | the same for the record of the harvest send |
| ColdSafety.HarvestSendNeedsCleanCluster | apps/scraper/src/discovery/harvest-send.ts:131-144 | the harvest sends cold only to leads whose whole cluster was untouched |
| ColdSafety.RecordedColdIsRefused | packages/lead-contact/src/index.ts:84-99 | once a cold message is recorded, the gate refuses the lead's heir after any continuation, even if the run stopped before transition and ledger |
| ColdSafety.StaleRetryHappens | apps/scraper/scripts/outbound-run.ts:270-276 | a concrete store and pair of answers, with real addresses, on which a cold message is recorded on a contacted lead |
| Deliveries.ReachesAgainIff | apps/scraper/src/messaging/airbnb-messaging.ts:463-522 | exactly when a send at the end of a run delivers to a host that the store, its own first attempt or a message of the run under this lead or one merged into it has reached before |
| Deliveries.HarvestReachesAgainIff | apps/scraper/src/discovery/harvest-send.ts:131-218 | the same for the send that follows a harvested listing |
| Deliveries.PostsAreBounded | apps/scraper/src/persistence/outbound-pipeline.ts:287-321 | over every run the cold messages a host gets as one lead, recorded or not, are at most the chances its failure count leaves it, those of a new lead for each time the run creates it, and two for each send blocked or cut short |
| Deliveries.DiscoveredIsBounded | apps/scraper/src/persistence/outbound-pipeline.ts:287-321 | for a lead the run discovers: at most twice the failure cap, and two for each send blocked or cut short |
| Deliveries.WriteGivesNoChance | apps/scraper/src/persistence/outbound-pipeline.ts:287-321 | no write of the pipeline, a merge included, gives a lead new chances |
| Deliveries.ActivityUsesChances | apps/scraper/scripts/outbound-run.ts:264-378 | a cold send that is not blocked uses up two chances, delivered, failed or led to an existing thread |
| Deliveries.UnseenSendIsExact | apps/scraper/scripts/outbound-run.ts:270-340 | a send that fails after the button was pressed delivers two messages, uses exactly two chances and leaves the gate open while one is left |
| Deliveries.BoundIsReached | apps/scraper/scripts/outbound-run.ts:270-340 | such sends turn every chance of a lead into a message |
| Deliveries.BlockedSendsAreUnbounded | apps/scraper/scripts/outbound-run.ts:277-299 | a retry that ends in a block leaves the store as it was, so that n such sends deliver 2n messages |
| Deliveries.RecordedDeliveryIsLast | packages/lead-contact/src/index.ts:70-116 | after a cold message on record no later send of the run delivers one to the lead's heir |
| Deliveries.CountedOrVain | apps/scraper/scripts/outbound-run.ts:360-391 | a send counts one message if it was sent and none otherwise; all others that reach the host are counted nowhere |
| Pipeline.RunsAreLegal | apps/scraper/src/server/orchestrator.ts:120-166 | every run of sends, harvest upserts, polls and repairs, each stopped after any write, writes a legal log |
| Pipeline.RunsNeverForget | packages/lead-contact/src/index.ts:70-140 | over every run contact passes to the heir and no lead falls back |
| Pipeline.RunsLeaveRepliedLeadsAlone | apps/scraper/src/conversation/run-conversation-turn.ts:82-187 | over every run no template to a lead that has replied and nothing to one that is paused |
| Pipeline.RunsKeepThePromise | apps/scraper/scripts/outbound-run.ts:220-378 | over every run without a stale first attempt, cold messages are recorded only on uncontacted leads |
| Pipeline.NeverTwiceOnRecord | packages/lead-contact/src/index.ts:70-116 | in such a run no lineage of leads has two cold messages on record |
| Pipeline.RunsSpaceBotReplies | apps/scraper/src/conversation/lead-agent-context.ts:68-86 | over every run without merges, two bot replies on a lead have at least the history limit's number of its messages between them |
| Pipeline.FixRuns | apps/scraper/src/persistence/lead-identity-merge.ts:181-200 | repairing an inconsistent discovered lead is a legal write |
| Conversation.PollRuns | apps/scraper/src/messaging/airbnb-inbox.ts:447-512 | a poll writes a legal log even when the status it started from is out of date |
| Conversation.BotRepliesAreSpaced | apps/scraper/src/conversation/run-conversation-turn.ts:138-179 | if every bot reply was decided on the last n messages, replies stay n messages apart |
| Conversation.TurnDecidesItsReply | apps/scraper/src/conversation/run-conversation-turn.ts:50-187 | the turn replies only when no bot reply is among the last n messages, the tag it writes first included |
| BotAnswers.AnswersAreRecordedOrLost | apps/scraper/src/conversation/run-conversation-turn.ts:166-187 | over every run, interruptions included, the bot answers that reach a host are the recorded ones and the lost ones: unseen, or cut short before the record |
| BotAnswers.FailedAnswerIsForgotten | apps/scraper/src/conversation/run-conversation-turn.ts:166-177 | after a turn whose answer failed every later turn decides as if it had not been |
| BotAnswers.LostAnswersAreUnbounded | apps/scraper/src/messaging/airbnb-inbox.ts:447-512 | polls of a host's words, whatever the thread shows of earlier answers, deliver one unseen answer each, any number of them |
| ConversationMethods.TagLatestInbound | apps/scraper/src/persistence/conversation-pipeline.ts:126-141 | the latest inbound message is tagged, if it had no tag |
| ConversationMethods.RunConversationTurn | apps/scraper/src/conversation/run-conversation-turn.ts:67-194 | the ordered guards end in the planned writes and outcome; the lead is closed iff the words are a rejection, handed over iff they are none, the bot has replied lately and a meeting is accepted, and otherwise keeps its status; the outcome names the case |
| TurnEffects.TurnVerdict | apps/scraper/src/conversation/run-conversation-turn.ts:124-187 | on the tables after the turn of an unpaused lead with a thread and words to read: closed iff a rejection; handed over iff none, a reply among the last n messages and a meeting accepted; a bot reply on record iff none among them, interest shown and the answer delivered; else only the tag |
| TurnEffects.OutcomeNamesTheCase | apps/scraper/src/conversation/run-conversation-turn.ts:82-187 | the nine outcomes, each iff its case |
| TurnEffects.TurnIsRight | apps/scraper/src/conversation/run-conversation-turn.ts:67-194 | outcome and row together |
| TurnEffects.TurnMeans | apps/scraper/src/conversation/run-conversation-turn.ts:82-187 | paused leads, leads without thread and empty readings change nothing; else the tables are tagged and then decided on, with the notes and rows in full |
| TurnEffects.DecisionMeans | apps/scraper/src/persistence/conversation-pipeline.ts:20-120 | the writes of a rejection, a takeover and a reply, and none in any other case |
| TurnEffects.TagMeans | apps/scraper/src/persistence/conversation-pipeline.ts:126-141 | exactly the latest inbound message is tagged, and only if it had no intent |
| TurnEffects.HistoryMeans | apps/scraper/src/conversation/lead-agent-context.ts:68-86 | the bounded history holds a bot reply iff one has fewer than n messages of the lead behind it |
| ConversationMethods.PollLeadThread | apps/scraper/src/messaging/airbnb-inbox.ts:447-512 | sync, detection and turn, dispatched on the status last seen |
| TurnEffects.HearingMeans | apps/scraper/src/messaging/airbnb-inbox.ts:470-512 | what hearing from the host does to the row before the turn, and exactly when a turn follows |
| TurnEffects.SilentPoll | apps/scraper/src/messaging/airbnb-inbox.ts:447-512 | a poll that hears nothing copies messages and changes nothing else |
| TurnEffects.HeardLeadLeavesTheTemplates | apps/scraper/src/messaging/airbnb-inbox.ts:447-512 | a poll that hears of a host whose reply is awaited takes the lead out of the template phases, whatever the turn decides |
| Harvesting.UpsertRuns | apps/scraper/src/persistence/lead-repository.ts:172-335 | storing a discovered host writes a legal log on every path |
| Harvesting.HarvestMergeCommitsIff | apps/scraper/src/persistence/lead-identity-merge.ts:122-144 | the merge into a harvested placeholder commits iff the duplicate has no thread |
| Harvesting.DuplicateIsInCluster | apps/scraper/src/persistence/lead-identity-merge.ts:18-69 | the duplicate found for a host is in the cluster of the lead created for it |
| Harvesting.AbortedMergeIsStillRefused | apps/scraper/src/persistence/lead-repository.ts:172-335 | a placeholder left by an aborted merge is refused by the gate |
| HarvestMethods.CacheIcpSkip | apps/scraper/src/persistence/lead-repository.ts:117-152 | an ineligible host is stored as skipped, a contacted one is left alone |
| HarvestMethods.UpsertDiscoveredLead | apps/scraper/src/persistence/lead-repository.ts:172-335 | created, refreshed, grown, merged or skipped, as planned |
| UpsertEffects.UnfitHost | apps/scraper/src/persistence/lead-repository.ts:117-152 | on the tables afterwards: the verdict with what was scraped, out of the cold queue; a lead that has moved on is untouched |
| UpsertEffects.NewHost | apps/scraper/src/persistence/lead-repository.ts:238-269 | a new host is created as scraped, and nothing else changes |
| UpsertEffects.DuplicateIsAbsorbed | apps/scraper/src/persistence/lead-repository.ts:194-236 | with a numeric id and a duplicate without thread: the duplicate is gone, the new row has inherited, and the old id points at it |
| UpsertEffects.DuplicateStays | apps/scraper/src/persistence/lead-repository.ts:194-236 | with a thread the duplicate stays and the new row stays beside it |
| UpsertEffects.KnownHost | apps/scraper/src/persistence/lead-repository.ts:271-335 | a stored host: refreshed in discovery; past it, grown iff it has more properties or a new superhost, column by column; else untouched |
| UpsertEffects.DuplicateMeans | apps/scraper/src/persistence/lead-identity-merge.ts:18-69 | which lead looks like a duplicate: host id, listing id, listing URL or alias row |
| HarvestMethods.FixInconsistentDiscoveredLead | apps/scraper/src/persistence/lead-identity-merge.ts:181-200 | a discovered lead with a thread or an outbound message is moved on, any other is left alone |
| Pipeline.FixMeans | apps/scraper/src/persistence/lead-identity-merge.ts:181-200 | on the tables afterwards: status and date as described, and the lead is not inconsistent any more |
| Accounts.MidnightEndsTheDay | apps/scraper/src/accounts/account-selector.ts:290-307 | until the next midnight of Colombia it is the same day, and at midnight the next |
| AccountEffects.MidnightIsAtFive | apps/scraper/src/accounts/account-selector.ts:290-307 | the Colombian day ends at five in the morning UTC, at most a day from now |
| Accounts.SettledIffUnchanged | apps/scraper/src/server/orchestrator.ts:123-126 | the tables on which no maintenance step has anything to do are those maintenance leaves unchanged |
| Accounts.MaintenanceSettles | apps/scraper/src/server/orchestrator.ts:123-126 | one pass of maintenance always leaves such a table |
| Accounts.SleepHidesNoUnlock | apps/scraper/src/accounts/account-selector.ts:206-377 | from a settled table no account can be picked at any time before the computed wait is over, later maintenance included |
| Accounts.TwoSleepsIff | apps/scraper/src/accounts/account-selector.ts:206-377 | a pick succeeds after the first wait or after the second iff some expected account is by the end of the first under its cap with no cooldown running, or no expected account under its cap by then is active with a cooldown running on |
| Accounts.TwoSleepsSuffice | apps/scraper/src/accounts/account-selector.ts:206-377 | without stranded accounts, an account can be picked after the first wait or after the second |
| Accounts.BothSleepsFail | apps/scraper/src/accounts/account-selector.ts:316-377 | a concrete table on which nobody can be picked after either |
| Accounts.ZeroWaitIsHonestIff | apps/scraper/src/accounts/account-selector.ts:316-377 | when the wait is zero an account can be picked iff one of those reporting zero is not active with a cooldown still running |
| Accounts.StrandedAccountSpins | apps/scraper/src/accounts/account-repository.ts:121-132 | while its old cooldown runs, a re-logged-in account keeps the wait at zero and is not picked |
| Accounts.StartedWaveIsPickedAgain | apps/scraper/src/accounts/account-selector.ts:250-264 | a wave started and left without a send leaves the account first in line, and starting it again changes nothing |
| Accounts.CycleSleepBounds | apps/scraper/src/server/orchestrator.ts:70-165 | the sleep never exceeds the inbound poll, meets the unlock exactly when the limits allow, and passes it by at most the minimum sleep |
| AccountEffects.CycleSleepMeans | apps/scraper/src/server/orchestrator.ts:64-78 | the sleep exactly, as the least of its limits, in each of the three cases |
| Accounts.OversleepIsBounded | apps/scraper/src/server/orchestrator.ts:160-165 | an unlock inside a cycle's sleep is missed by at most the minimum sleep |
| AccountBook.Book.MaybeResetDaily | apps/scraper/scripts/account-reaper.ts:28-57 | all daily counters are zeroed at most once per Colombian day |
| AccountBook.Book.SoftenFalseIdentityBlocks | apps/scraper/src/accounts/account-selector.ts:142-179 | exactly the blocked accounts without an identity event lose their block |
| AccountBook.Book.RecoverReusableSessions | apps/scraper/src/accounts/account-selector.ts:96-135 | exactly the pending accounts with a stored session and a market become active |
| AccountBook.Book.ReactivateExpiredCooldowns | apps/scraper/src/accounts/account-selector.ts:400-417 | exactly the expired cooldowns are lifted, with a fresh wave |
| AccountBook.Book.Maintain | apps/scraper/src/server/orchestrator.ts:123-126 | the four steps in order end in a settled table |
| AccountEffects.MaintenanceMeans | apps/scraper/src/accounts/account-selector.ts:96-179 | what the four steps together make of each account, column by column |
| AccountBook.Book.PickNextAccount | apps/scraper/src/accounts/account-selector.ts:206-248 | nobody who may send and is not excluded has sent fewer messages in its wave than the one picked, and among those with as many nobody is older; none is picked iff there is nobody |
| AccountEffects.PickMeans | apps/scraper/src/accounts/account-selector.ts:206-248 | the same of every table and pick, both ways |
| AccountEffects.PickableMeans | apps/scraper/src/accounts/account-selector.ts:206-236 | who may send: in rotation, in a market, with a session or the means to make one, under twenty today and not cooling |
| AccountEffects.SkipReasonsInOrder | apps/scraper/src/accounts/account-selector.ts:51-89 | each reason not to pick is given iff it applies and none before it does |
| AccountBook.Book.StartWave | apps/scraper/src/accounts/account-selector.ts:250-264 | a full or first wave starts at zero, another goes on; the account is active without a cooldown |
| AccountEffects.StartMeans | apps/scraper/src/accounts/account-selector.ts:250-264 | in numbers: from zero after ten messages or at first, else on from where it stood |
| AccountEffects.ProgressMeans | apps/scraper/src/accounts/account-selector.ts:266-274 | after n sends both counters have risen by n and nothing else has changed |
| AccountEffects.RestMeans | apps/scraper/src/accounts/account-selector.ts:276-288 | a rest lasts 18,000,000 ms, during which the account may not send |
| AccountBook.Book.IncrementWaveProgress | apps/scraper/src/accounts/account-selector.ts:266-274 | both counters of this account rise by one |
| AccountBook.Book.CompleteWave | apps/scraper/src/accounts/account-selector.ts:276-288 | five hours of cooldown and an empty wave |
| AccountBook.Book.HandleAccountBlock | apps/scraper/src/accounts/account-repository.ts:18-86 | an identity check blocks for good and is put on record, any other block cools for five hours |
| AccountEffects.BlockMeans | apps/scraper/src/accounts/account-repository.ts:18-86 | row, record and all other accounts after an identity check and after any other block |
| AccountEffects.SessionsMean | apps/scraper/src/accounts/account-repository.ts:106-132 | rows after a lost session, a remediation and a login |
| AccountBook.Book.MarkSessionInvalid | apps/scraper/src/accounts/account-repository.ts:110-115 | the account waits for credentials, its cooldown date stays |
| AccountBook.Book.MarkSessionActive | apps/scraper/src/accounts/account-repository.ts:121-132 | the account is active with the new session, its cooldown date stays |
| AccountBook.Book.Remediate | apps/scraper/src/accounts/manual-session-remediation.ts:137-146 | the account waits for credentials, without a cooldown |
| AccountBook.Book.ComputeNextAvailability | apps/scraper/src/accounts/account-selector.ts:351-377 | the loop with its early exit returns the smallest wait of the table, none iff nobody is expected |
| AccountEffects.WaitMeans | apps/scraper/src/accounts/account-selector.ts:316-349 | how long each account is waited for: midnight at the cap, the rest of a cooldown, no time, or not at all |
| AccountBook.Book.ListInboundAccounts | apps/scraper/src/accounts/account-selector.ts:383-398 | whoever can be picked, at any time, is read; and with a session and a market an account is read iff it could be picked once its daily count and cooldown were lifted |
| AccountBook.Book.IdleCycle | apps/scraper/src/server/orchestrator.ts:160-165 | the sleep is computed from the smallest wait and lies within the inbound poll |
| Daemon.CoolingAccountIsNotPicked | apps/scraper/src/accounts/account-selector.ts:206-288 | over every run of the daemon, an account sent to rest is not picked before five hours have passed, whoever logs it in meanwhile |
| Daemon.IdentityBlockIsFinal | apps/scraper/src/accounts/account-selector.ts:142-179 | over every run, an account hit by the identity check stays blocked and is neither picked nor read again |
| Daemon.CountersStayTame | apps/scraper/src/accounts/account-selector.ts:250-288 | over every run, waves stay below twice their length, a day's counter below its cap plus one pick's worth, a harvest below twice its cap |
| Daemon.ReachedStillCools | apps/scraper/src/accounts/account-selector.ts:276-288 | an account that rests at the start of a stretch of a run rests at its end, unless its time has come |
| Progress.RemainingCountsPhases | apps/scraper/src/persistence/outbound-pipeline.ts:12-43 | the measure of a status is the number of phases the tables still lead it through |
| Progress.SentMovesOn | apps/scraper/src/persistence/outbound-pipeline.ts:329-363 | a sent lead ends in the next status of its phase |
| Progress.SendLowersPotential | apps/scraper/scripts/outbound-run.ts:500-522 | a sent lead has a phase less and a lead given up on has none left for the run; nothing else gains any |
| OutboundRun.Rotation.SendOne | apps/scraper/scripts/outbound-run.ts:500-522 | outcome, counters, exclusions and account row of one lead |
| OutboundRun.Rotation.SendNext | apps/scraper/scripts/outbound-run.ts:481-521 | one turn of the inner loop: the failure count, the reasons to stop, and a measure that falls whenever the loop goes on |
| OutboundRun.Rotation.SendWave | apps/scraper/scripts/outbound-run.ts:475-522 | the wave goes on until an outcome stops it, the cap is reached or no lead is left, and no further; its sends are on this account's counters; the messages it delivers exceed them by the vain ones and stay within a bound set by the sends counted and the failure cap |
| OutboundRun.EndMeans | apps/scraper/scripts/outbound-run.ts:481-522 | the reasons a wave ends for, each iff its case |
| OutboundRun.StreakIsSinceDelivery | apps/scraper/scripts/outbound-run.ts:500-522 | the failures counted are those since the last delivery |
| OutboundRun.Rotation.Rest | apps/scraper/scripts/outbound-run.ts:524-528 | a full wave, and only that, earns a cooldown |
| OutboundRun.Rotation.Prepare | apps/scraper/scripts/outbound-run.ts:154-212 | the wave is started; an account whose session is lost is set aside for the run |
| OutboundRun.Rotation.Rotate | apps/scraper/scripts/outbound-run.ts:429-554 | one turn lowers accounts in play or open phases and keeps all other accounts; with a cap below one it leaves the store as it was, and an account with a session and a lead stays in play with its wave started |
| OutboundRun.WaveCap | apps/scraper/scripts/outbound-run.ts:476-481 | the wave goes on after n sends iff n is below a wave's length and below the configured number; never when the text is no number |
| OutboundRun.Rotation.DriveFor | apps/scraper/scripts/outbound-run.ts:429-481 | with leads and a usable account the run is still going after more turns than its measure iff the cap is below one |
| OutboundRun.Rotation.Drive | apps/scraper/scripts/outbound-run.ts:395-563 | the run ends within as many rotations as there were accounts and open phases; the daily counters rise by the messages delivered without the vain ones; no account passes its bounds; what the accounts go through is a run of the daemon |
| RotationTrace.UseIsReached | apps/scraper/scripts/outbound-run.ts:154-212 | the turn of a picked account, from the start of its wave to its rest, is a stretch of a run of the daemon |
| HarvestTrace.ChargeIsReached | apps/scraper/src/discovery/harvest-send.ts:178-278 | so is what one send of a harvest does to the account |
| HarvestTrace.ChargeMeans | apps/scraper/src/discovery/harvest-send.ts:178-278 | row, record and all other accounts after a send of a harvest |
| HarvestCursor.SystemState.GetHarvestSearchPage | apps/scraper/src/persistence/system-state.ts:59-64 | a positive page; the first one when nothing is stored; any page in the form in which it is written is read back |
| HarvestCursor.SystemState.SetHarvestSearchPage | apps/scraper/src/persistence/system-state.ts:66-74 | the page written is the page read, and no other row changes |
| HarvestCursor.SendMax | apps/scraper/src/discovery/harvest-send.ts:48-59 | at least one and at most 50, or 500 until blocked; a value in range is kept, one above it becomes the limit, anything else the default of 10, or 200 |
| HarvestCursor.BatchMeans | apps/scraper/src/discovery/harvester.ts:406 | how many listings a limit leaves, a negative one included |
| HarvestCursor.StartMeans | apps/scraper/scripts/harvest-run.ts:406-407 | a stored page behind the last means the first |
| HarvestCursor.NextMeans | apps/scraper/scripts/harvest-run.ts:514-529 | where the next run starts |
| HarvestCursor.ListingsMean | apps/scraper/scripts/harvest-run.ts:427-513 | what counts as a page with listings |
| HarvestCursor.NextPageMeans | apps/scraper/scripts/harvest-run.ts:412 | when another page follows |
| Captures.ParseIntMeans | apps/scraper/src/persistence/system-state.ts:59-64 | how a stored number is read: white space, a sign, digits, anything behind them |
| Captures.DigitsCountByPlace | apps/scraper/src/persistence/system-state.ts:59-64 | digits count by their place |
| HarvestVisits.VisitListing | apps/scraper/src/discovery/harvester.ts:94-355 | a visit stores the host and sends at once to a created or changed row, ends where its plan says, and charges the account iff it came to a send |
| HarvestVisits.VisitMeans | apps/scraper/src/discovery/harvester.ts:94-355 | a message follows only to a row that is new or changed, at once, under the harvested address |
| HarvestVisits.VisitColds | apps/scraper/src/discovery/harvest-send.ts:262-277 | a visit records one cold message if its send is counted or its delivery refused because another lead holds the thread, else none |
| HarvestVisits.RunCountsCold | apps/scraper/src/persistence/outbound-pipeline.ts:244-263 | cold messages enter the store by being recorded and in no other way, and none is lost in a merge |
| HarvestRun.Harvest.HarvestListings | apps/scraper/src/discovery/harvester.ts:387-498 | the listing loop stops at the first block or at the cap, and no earlier |
| HarvestRun.Harvest.WalkPages | apps/scraper/scripts/harvest-run.ts:412-513 | consecutive pages within the market, each with listings, the reason to end there, and fewer than twice the cap in counted sends |
| HarvestRun.OpenRunIsFull | apps/scraper/scripts/harvest-run.ts:402-513 | when every page has listings and neither a block nor the cap ends it, a run goes through all its pages |
| HarvestRun.Harvest.HarvestSingleMarket | apps/scraper/scripts/harvest-run.ts:386-530 | the cursor moves past the pages gone through, wraps at the end, resets on an empty first page and stays put on failure |
| HarvestRun.Harvest.HarvestWithRotation | apps/scraper/scripts/harvest-run.ts:224-344 | each account is picked once at most; the first harvest that gets through ends the rotation and alone writes its cursor, and else every account that can be picked has had its turn; what the accounts go through is a run of the daemon, its bounds included; one run counts at most 2*sendMax-1 sends; what it records are these and the refused deliveries, within that limit iff the refused ones leave room |
| HarvestRun.Harvest.TakeTurn | apps/scraper/scripts/harvest-run.ts:244-343 | pick, market, session, run and what a failed run does to the account are steps of the daemon; the cursor moves only with a run that got through |
| HarvestRun.RecordedIsCountedOrRefused | apps/scraper/src/discovery/harvester.ts:426-444 | over a whole harvest the cold messages recorded are the sends counted and the deliveries whose reported thread another lead holds at that moment |
| CapMissed.CapIsMissed | apps/scraper/src/discovery/harvester.ts:408-444 | a concrete store and harvest with a cap of one that records two messages and counts none |
| HarvestRun.HarvestAgainAndAgain | apps/scraper/scripts/harvest-run.ts:402-529 | over any number of jobs on one stored cursor, whatever it was at first: the cursor stays within the pages; between two resets the finished jobs go through exactly the pages between their start and the cursor; undisturbed jobs finish the market in the rounded-up number of runs |
| HarvestCursor.NothingIsSkipped | apps/scraper/scripts/harvest-run.ts:402-529 | the same for a chain of runs: no page is left out between two resets, failed runs or not |
| HarvestCursor.RestOfSweep | apps/scraper/scripts/harvest-run.ts:402-529 | from any stored page undisturbed runs visit every page left exactly once, in order, and return to 1 after exactly the rounded-up number of runs |
| Phrases.SplitUndoesJoin | apps/scraper/src/discovery/icp.ts:242-247 | splitting a phrase gives back its words |
| Phrases.ExtractCandidatePhrases | apps/scraper/src/discovery/icp.ts:249-262 | exactly the significant runs of two to four words |
| Phrases.ThresholdIsCeiling | apps/scraper/src/discovery/icp.ts:272 | the least number of titles that is six tenths of them |
| Phrases.HasHomogeneousListingBranding | apps/scraper/src/discovery/icp.ts:268-286 | true iff at least three titles are not blank and some phrase occurs in enough of them, each title counted once |
| Phrases.VerdictInNumbers | apps/scraper/src/discovery/icp.ts:268-286 | three titles at least, and a phrase that counts for six tenths of them |
| Phrases.TitlesAreTrimmed | apps/scraper/src/discovery/icp.ts:269 | titles are trimmed and blank ones dropped |
| Phrases.SignificanceMeans | apps/scraper/src/discovery/icp.ts:242-247 | one word never tells, two do iff they have six characters with the blank and not both are stop words, more do iff not all are |
| Phrases.CandidatesMean | apps/scraper/src/discovery/icp.ts:249-262 | the phrases of a title are its telling runs of two to four words |
| Phrases.HitsAreTitles | apps/scraper/src/discovery/icp.ts:275-279 | a phrase counts once for each title that has it |
| Phrases.OrderDoesNotMatter | apps/scraper/src/discovery/icp.ts:268-286 | a permutation of the titles has the same verdict |
| Phrases.CapIsLossless | apps/scraper/src/discovery/icp.ts:252-259 | with phrases of any length the verdict is the same as with four words |
| Phrases.TwoWordsWouldLose | apps/scraper/src/discovery/icp.ts:252-259 | with two words it would not be: titles that share three two-letter words are found only as a run of three |
| Payload.LevelIsDepth | apps/scraper/src/scraping/airbnb-host.ts:37-64 | the levels of the queue are exactly the nodes at the end of paths of that length |
| Payload.Search | apps/scraper/src/scraping/airbnb-host.ts:37-64 | the worklist ends and finds what stands nearest to the root, the leftmost of its level, nothing only if there is nothing anywhere |
| Payload.ExtractListingCount | apps/scraper/src/scraping/airbnb-host.ts:22-64 | none iff no node of the payload has a count, else the count of the leftmost object of least depth |
| Payload.ExtractSuperhost | apps/scraper/src/scraping/airbnb-host.ts:319-344 | the same for the superhost flag, false included |
| Payload.FirstUnderMeaning | apps/scraper/src/scraping/airbnb-host.ts:51-58 | an object gives the value of the first listed key that reads as wanted |
| Payload.NodeGives | apps/scraper/src/scraping/airbnb-host.ts:51-58 | only objects give anything: the count, or the flag, under the first listed key that reads as wanted |
| Payload.KeysInOrder | apps/scraper/src/scraping/airbnb-host.ts:22-35 | the twelve keys of a count and the three of a flag, in order |
| Payload.CountInMeans | apps/scraper/src/scraping/airbnb-host.ts:53-57 | a positive number, or digits that stand for one |
| Payload.FlagInMeans | apps/scraper/src/scraping/airbnb-host.ts:335-338 | a truth value, false included |
| Payload.GetMeans | apps/scraper/src/scraping/airbnb-host.ts:52 | the first field with the key |
| Payload.ChildrenMean | apps/scraper/src/scraping/airbnb-host.ts:44-61 | the search goes on into the items of a list and the values of an object, in order |
| Payload.NoCountMeans | apps/scraper/src/scraping/airbnb-host.ts:37-64 | no count anywhere iff no object has a positive count under any listed key |
| Decodo.ClampIsNearest | apps/scraper/src/proxy/decodo.ts:204-207 | minutes in range are cut to whole ones, the rest go to the nearer end |
| Decodo.DurationMeans | apps/scraper/src/proxy/decodo.ts:110-112 | an hour unless something else is asked for, within one minute and a day |
| Decodo.CountryAndSessionMean | apps/scraper/src/proxy/decodo.ts:116-125 | country and session without white space around them, the country in small letters |
| Decodo.TrimMeans | apps/scraper/src/proxy/decodo.ts:58 | trimming drops the white space at both ends and nothing else |
| Decodo.BaseMeans | apps/scraper/src/proxy/decodo.ts:57-65 | the base behind a prefix in any case, up to the first dash, or all of the rest when nothing is left of that |
| Decodo.BuildNeeds | apps/scraper/src/proxy/decodo.ts:106-124 | exactly when no name is built |
| Decodo.BuildMeans | apps/scraper/src/proxy/decodo.ts:106-128 | a built name, spelled out |
| Decodo.FindIsLeftmost | apps/scraper/src/proxy/decodo.ts:191-193 | on any text the leftmost match of a pattern, nothing iff there is none |
| Decodo.CapturesMean | apps/scraper/src/proxy/decodo.ts:191-193 | what the three captures take |
| Decodo.ParseMeans | apps/scraper/src/proxy/decodo.ts:181-202 | the four parts the parser reads from any name |
| Decodo.FindScans | apps/scraper/src/proxy/decodo.ts:191-193 | on dash-separated parts the leftmost match of a pattern is the first key with a value behind it |
| Decodo.ParseUndoesBuild | apps/scraper/src/proxy/decodo.ts:99-202 | base, country and duration are always found again; the session iff the base is not "session" or the next part equals the id |
| Decodo.SessionBaseIsMisread | apps/scraper/src/proxy/decodo.ts:191-191 | a concrete name whose session is read as "country" |
| Decodo.NormalizeUndoesBuild | apps/scraper/src/proxy/decodo.ts:57-65 | normalising a built name gives its base back |
| Decodo.DashFreeBaseIsTidy | apps/scraper/src/proxy/decodo.ts:57-65 | a normalised base without dashes has no white space at its ends |

## Left out

- Playwright, scraping, logins, e-mail, encryption and the network side of the proxies: foreign calls; their answers are arbitrary.
- The regular expressions behind reply intents, thread noise, excluded keywords and title normalisation: they are parameters, their content is data.
- Mutual exclusion of the Playwright mutex: it is read and then written in two steps and does not hold under interleaving; runs are serial here, as the orchestrator awaits them.
- Failures of the database other than a refused index: a run may be interrupted after any write, and nothing else goes wrong.
- Order of rows within a query and `updatedAt`: a lookup of one lead out of several returns an arbitrary one that matches; the cold queue is given in the database's order.
- MVP single-account mode, which picks without the cooldown filter.
- Manual session remediation outside the harvest rotation, where it meets an account whose cooldown was just cleared, and the web and lab scripts that change rows by hand: they are not steps of the runs.
- Errors that no branch of the harvest rotation handles: they end the job, and the facts hold of the part done.
- The daily quota per city: it is not applied whenever a market is given.
- Enrichment requirement and business scale of the cold query, call-link flags and reply counters: they do not bear on the facts proved.
- Wording of system notes and the cut of long texts: a note carries the words or the error it is about.
- The delays between messages and the failure caps are read from the environment: they are parameters, the days of a phase any natural number.
- Fairness of the cold queue: blocked rows may fill its window.
- The numbers of the harvest configuration are taken as parsed; a text that is no number is modelled for the send caps only.
- HarvestMethods.UpsertDiscoveredLead: the system message with the harvested context is not written; it carries no contact and no failure, and the gate does not read it.
- Deliveries.PostsAreBounded: an interrupted send counts with every message its attempts could have delivered, and a host known under several leads is counted once for each of them.
- OutboundRun.Rotation.DriveFor: the clock stands still, so that no cooldown or day ends among its turns.
- OutboundRun.Rotation.Drive: the queries for the next lead are over-approximated by any lead with an open phase that is not excluded, and the clock stands still, so that no cooldown ends within the run.
- Phrases.ThresholdIsCeiling: six tenths are exact here; the product of a number of titles and the double nearest to 0.6 rounds to the same ceiling.
- Payload.ExtractListingCount: numbers are exact reals, without the rounding and overflow of doubles; keys of an object are distinct.
- Decodo.ParseUndoesBuild: case folding covers ASCII letters, which is all the patterns look at; other letters of a country are left as they are.
