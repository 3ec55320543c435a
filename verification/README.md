# Rustak, modelled and proved in Dafny

Rustak is a TAK server with its client library and feed plugins. This project models the parts of it whose correctness
spans many steps, and proves what they promise over every input and every run. `dafny verify dfyconfig.toml` checks the
whole project; it uses nothing outside this directory.

| part | files |
|---|---|
| CoT instants, the event builder | `CotTime.dfy`, `CotEvent.dfy` |
| the calendar and the text form of an instant | `Decimals.dfy`, `Calendar.dfy`, `TimeGrammar.dfy`, `TimeReading.dfy`, `TimeText.dfy` |
| the ESB outage publisher | `Outage.dfy`, `OutagePublisher.dfy`, `OutageRuns.dfy`, `OutageTiming.dfy`, `OutageResending.dfy` |
| TAK protocol negotiation, both ends and the wire between them | `Negotiation.dfy`, `NegotiationLink.dfy`, `NegotiationRuns.dfy`, `NegotiationRaces.dfy`, `NegotiationScript.dfy` |
| the AIS vessel cache, the tracks it offers, how long they live | `BoundedMemory.dfy`, `Vessels.dfy`, `AisMapping.dfy`, `AisStaleness.dfy` |
| the stop signal, the signal sequencer, the telemetry reclaim | `Shutdown.dfy`, `ShutdownRuns.dfy`, `Telemetry.dfy` |
| the sidecars' competing configurations | `FeedSettings.dfy`, `AdsbSettings.dfy`, `AdsbSidecar.dfy`, `AdsbRuns.dfy`, `EsbSidecar.dfy` |
| the preference value codec | `PrefCodec.dfy` |

Objects the original updates in place are classes with the same fields (`OutagePublisher`, `EventBuilder`, `Vessels`,
`Shutdown`, `AdsbSidecar`, `EsbSidecar`, `ServerNegotiation`, `ClientNegotiation`); each method's contract gives the whole
new state as a function of the old, or, where hash iteration leaves it open, as a relation. What is promised over whole
runs is proved about those functions and relations. Concurrency (the negotiation's two streams and three tasks, the stop
signal's tasks and sequencer) is a state machine in which any enabled step may come next.

Time is in whole milliseconds. Clocks, randomness, the network, files and the operating system's signals are parameters
of the steps: every instant, document, signal, failure to open and drawn uid is arbitrary.

## What the proofs say

**Outage publisher.** No delete is ever sent, so correctness is temporal. `OutageTiming.NeverBlinks`: after any history,
an outage that stays admitted at offers no more than half a lifetime apart is covered by a live published marker at every
instant, whatever `refresh` was configured. The other side, `UnchangedIsPaced`, bounds how often an unchanged outage is
sent from any offer that lists it, after any history too, and `OutageResending.NothingWaitsLonger` and
`ReconnectingResends` how late one may be sent: never later than the first offer `refresh` after its last marker, and at
the next offer after a reconnection. `OutageRuns.HeldIsTheList`, `TheMapShowsWhatIsHeld` and
`CountersConserve` tie what is held to the list, the last marker sent to what is held, and the counters to each other,
over every interleaving.

**Negotiation.** Both ends change framing mid-stream, each on its own. `NegotiationRuns.FramingAgreement` characterises
safety exactly: over every run, whatever the server relays, the two ends agree and nothing has been misread precisely
while no *race* has happened, and after the first race agreement never comes back without a misreading. A race is one of
three things, each checkable in the state before the step: the server grants a request whose client no longer waits for an
answer or whose outbound queue is full; a client gives up after the server has granted; or a client takes an answer
somebody else sent for its server's, because the server relays `t-x-takp-r` like any other event
(`rustak-server/src/stream/router.rs:140-145`, `rustak-cot/src/types.rs:75-87`). The no-racing hypothesis is `RaceFree`.
Where no answer is relayed only the first two can happen, and `NegotiationRaces.RacesSplitTheLink` says more: from the
first race on the link is split for good, heard no further (`NothingIsHeardAfterARace`) and felt (`ARaceIsFelt`).

**Vessel cache.** `BoundedMemory.MemoryRefinesTheLog`: under least-recently-heard eviction the bounded map holds, at every
moment and however often it was trimmed, exactly the most recent part of what an unbounded one would hold. Hence right
after an expiry it is a trim of the log's own view, and it is that view exactly when the view fits. Between expiries it is
the view as long as what the last expiry left fits, however large a batch has made it since: so a cache no expiry of which
found too many vessels is the log (`VesselCaches.CacheIsTheLogUntilItOverfills`), and the tracks offered in the middle of a
batch are the joins an unbounded log would give. `ViewIsTheLastReportsStillFresh` says what the log's view is without the
functions that compute it, and `ReportsAreJoined` what a join is.

**Text of an instant.** The calendar is defined by its own successor rule and proved inverse to day numbers both ways. The
two readers are the calendar library's: RFC 3339's fixed fields with a zone, and without one the pattern
`%Y-%m-%dT%H:%M:%S%.f`, whose fields may be short, padded in front or signed. Every spelling of either kind is read as the
instant it names, leap seconds included, and nothing else is read; what is written reads back exactly for four-digit years.

**Stop signal.** Cancellation is scoped to the subtree and includes children made later, the abort is shared by all, both
only rise, the sequencer's phase is the number of signals received, and each call and each signal does what it is for from
every run it can come in.

**Configurations.** The copies of a setting held by source, publisher and sidecar never disagree, what is in effect is a
fold of the documents that were readable and usable, and validation raises an issue exactly when application would refuse;
the intervals, the bounds and the defaults behind these words are stated in numbers beside them.

**Preference codec.** Text and JSON undo each other up to canonical spelling, over the full 32- and 64-bit ranges.

## Where the code and what is said about it differ

Each is proved as an exact condition, with a concrete run or input where it fails.

- That a client sees no XML once it has been told to expect none (`rustak-server/src/stream/writer.rs:16-21`) holds of this
  server's own answer. Another client's acceptance, relayed in XML, is taken for it and followed by more of this server's
  XML: `NegotiationRaces.AStrangersAnswerMisleads`.
- A full server queue drops the acceptance while the reader has already switched: the answer's send result is not looked
  at (`rustak-server/src/stream/connection.rs:326-345`). `NegotiationRaces.AFullQueueSplitsTheLink` gives the run.
- "Calling this twice returns `None` the second time" (`rustak-server/src/stream/negotiation.rs:98-103`) holds unless the
  first readable request was refused: `Negotiations.OfferedOnceUnlessRefused`. A connection calls it once, so
  `NegotiationScripts.TheExchangeFollowsTheScript` still has one offer.
- A probe wait of zero that the server sets is not put back when the source is opened again
  (`rustak-plugin-adsb/src/lib.rs:253-256`), and the record then matches the next document, so it is never corrected
  (`rustak-plugin-adsb/src/lib.rs:226-228`). It matters exactly for sources with no interval that would open at another
  wait: `AdsbRuns.SourceGoesByTheRecordedWait`.
- A document without an area is said to give the choice back to the file (`rustak-client/src/feed/config.rs:26-29`); the
  ADS-B sidecar keeps the area it has, so that the file's is in effect iff it was already
  (`AdsbRuns.DroppingTheAreaKeepsIt`; `AdsbRuns.AnAreaIsNotGivenBack` gives the run), and the ESB one gives it back
  (`EsbSidecars.TheAreaIsWhatTheLastDocumentSaid`).
- A document without a wait gives the choice back iff the file's or the default's is in range for the configured interval,
  or in effect already: `AdsbRuns.DroppingTheWaitGivesItBack`. `AdsbRuns.AWaitIsNotGivenBack` gives the run: a receiver
  read every five minutes, told six hours by the server, does not get its three hours back.
- An abort called on a child marks every node aborted but cancels only that child's subtree:
  `ShutdownRuns.AbortOnAChildDoesNotCancelTheRest`, `ShutdownRuns.AbortedMeansCancelledUnderTheRoot`.
- Instants outside the years 0000 to 9999 are written but not read: `TimeText.DisplayReadsBack`.
- `+5`, `007` and `-0` are accepted preference texts that come back rewritten: `PrefCodecs.TextComesBackWhenCanonical`.

## Model

| member | source | states |
|---|---|---|
| `CotTimes.Clamp` | rustak-cot/src/time.rs:68-71 | saturating to the i64 bounds: the value itself when it fits, else the bound it passed |
| `CotTimes.MillisOf` | rustak-cot/src/time.rs:94-97 | a span in milliseconds, short of the span only when it is the largest i64 |
| `CotTimes.StaleAfter` | rustak-cot/src/time.rs:67-71 | the deadline is the start plus the span, short of that only at the last instant there is or by the longest span there is |
| `CotTimes.GapUndoesStaleAfter` | rustak-cot/src/time.rs:67-71 | subtracting the start from a deadline gives the span back iff neither step saturated |
| `CotTimes.StaleAfterIsMonotone` | rustak-cot/src/time.rs:67-71 | a later start or longer span never gives an earlier deadline |
| `CotTimes.TimeStopsAtItsEnds` | rustak-cot/src/time.rs:67-133 | deadlines and gaps stop at the last and first 64-bit millisecond, in numbers, and nowhere else |
| `CotEvents.EventBuilder.Time` | rustak-cot/src/event.rs:254-262 | moves time and start together and keeps the interval to stale, saturating |
| `CotEvents.EventBuilder.StaleAfter` | rustak-cot/src/event.rs:278-283 | measures stale from the start |
| `CotEvents.MovingKeepsTheLifetime` | rustak-cot/src/event.rs:254-262 | moving any event keeps its lifetime iff lifetime and new deadline stay within i64 |
| `CotEvents.Timeline` | rustak-cot/src/event.rs:254-283 | after any chain of the two setters: start is time, and the lifetime is the last one asked for cut to the least room since |
| `CotEvents.LifetimeIsTheOneAskedFor` | rustak-cot/src/event.rs:254-283 | an event never expires before it is produced, and lives exactly as last asked iff that fitted at every instant since |
| `CotEvents.TimeAndLifetimeCommute` | rustak-cot/src/event.rs:254-283 | the order of the two calls does not matter while the lifetime fits at both instants |
| `CotEvents.LifetimesStartAtTheStart` | rustak-cot/src/event.rs:254-283 | a start moves alone, and a lifetime asked for afterwards is measured from it |
| `Calendar.DaysCountDays` | rustak-cot/src/time.rs:73-78 | 1 January 1970 is day zero and every day's successor is one more, over all years |
| `Calendar.MonthsStartWhereTheyDo` | rustak-cot/src/time.rs:73-78 | each month starts after the days a printed calendar gives, one more after February in a leap year |
| `Calendar.CivilFromDays` | rustak-cot/src/time.rs:73-78 | every day number is a valid date that counts back to it |
| `Calendar.DaysFromCivilIsInjective` | rustak-cot/src/time.rs:73-78 | no two dates share a day number |
| `Calendar.ReadingUndoesCounting` | rustak-cot/src/time.rs:74-84 | a counted date reads off the calendar as itself |
| `Calendar.MillisReadBack` | rustak-cot/src/time.rs:74-84 | an instant read off calendar and clock counts back to itself |
| `Calendar.CivilReadsBack` | rustak-cot/src/time.rs:74-84 | and the other way, for every date and time of day |
| `TimeText.EverySpellingIsRead` | rustak-cot/src/time.rs:44-64 | every well-formed text of either kind, in any white space, is read as the instant it names, or refused iff a field is out of range |
| `TimeText.OnlySpellingsAreRead` | rustak-cot/src/time.rs:44-92 | whatever is read is, but for white space, a spelling of the instant it is read as, with one of the separators, letters and signs there are |
| `TimeText.RefusedOutsideCalendarAndClock` | rustak-cot/src/time.rs:44-92 | a well-formed text is refused iff a field is on no calendar or clock or its offset is a day or more, in numbers |
| `TimeText.OffsetsAreAheadOfUtc` | rustak-cot/src/time.rs:56-64 | after a plus the same fields name an instant earlier than with a Z by the offset, after a minus of either kind one later by it |
| `TimeText.NoonInUtc` | rustak-cot/src/time.rs:140-150 | seven in the morning at -05:00 on the source's own day is read as its own noon |
| `TimeText.LettersDoNotMatter` | rustak-cot/src/time.rs:56-64 | T, t or a space, and Z or z, name the same instant |
| `TimeText.ZerosEndAFraction` | rustak-cot/src/time.rs:56-64 | a zero at the end of a fraction changes nothing, so a short fraction is in tenths |
| `TimeText.LeapSecondsAreRead` | rustak-cot/src/time.rs:44-64 | second 60 of any minute is read as the second after second 59 |
| `TimeText.ZonedSpellingsAgree` | rustak-cot/src/time.rs:44-64 | every instant is read back from its spelling in any zone in which its year has four digits, with any digits after the milliseconds |
| `TimeText.LocalSpellingsAgree` | rustak-cot/src/time.rs:87-92 | every instant of the calendar is read back from its spelling without a zone, signed year or not |
| `TimeText.ShortSpellingsAgree` | rustak-cot/src/time.rs:87-92 | and from any spelling without leading zeros, its fields after white space, its year after a plus sign or none, its fraction as short as it may be |
| `TimeText.KnownInstants` | rustak-cot/src/time.rs:140-150 | the calendar range is whole years, and an instant the original names falls where it says |
| `TimeText.DisplayReadsBack` | rustak-cot/src/time.rs:99-110 | what is written is read back iff the year has four digits; any other instant is written unreadably |
| `Outages.UidIsInjective` | rustak-plugin-esb/src/outage.rs:146-150 | two outages never share a marker |
| `Outages.ToEvent` | rustak-plugin-esb/src/outage.rs:193-203 | the marker is the outage's, of the marker type and machine-made, under its own prefix, from now, for `stale` |
| `Outages.ToEventIgnoresTheWallClock` | rustak-plugin-esb/src/outage.rs:193-203 | the marker does not depend on when the builder was made |
| `Outages.MarkerLives` | rustak-plugin-esb/src/outage.rs:193-203 | a marker is live at an instant iff it is earlier than now plus `stale` |
| `OutagePublishers.ClampedRefresh` | rustak-plugin-esb/src/publish.rs:72-94 | the refresh in effect is the shorter of what was asked and half of `stale`, or nothing where both leave i64 |
| `OutagePublishers.RefreshAfterIsSpread` | rustak-plugin-esb/src/publish.rs:137-145 | every id's share lies between half of refresh and 99 hundredths of it |
| `OutagePublishers.EverySpreadIsUsed` | rustak-plugin-esb/src/publish.rs:137-145 | every hundredth in between is some id's share |
| `OutagePublishers.ByteSumAdds` | rustak-plugin-esb/src/publish.rs:137-145 | every character of an id counts towards its share by its code, wherever it stands |
| `OutagePublishers.SharesAreOfTheCharacters` | rustak-plugin-esb/src/publish.rs:137-145 | a share depends on which characters an id has and not on their order; half of refresh with none, 65 hundredths for `A` |
| `OutagePublishers.OutagePublisher.constructor` | rustak-plugin-esb/src/publish.rs:72-94 | a new publisher holds nothing, with the clamped refresh |
| `OutagePublishers.OutagePublisher.OfferAt` | rustak-plugin-esb/src/publish.rs:102-135 | the loop over a snapshot and the forgetting after it, as a function of snapshot, instant and old state |
| `OutagePublishers.OutagePublisher.Publish` | rustak-plugin-esb/src/publish.rs:125-129 | one marker more in the outbox, and the outage held until its share of refresh has passed |
| `OutagePublishers.OutagePublisher.RetainListed` | rustak-plugin-esb/src/publish.rs:132-134 | exactly the listed ids stay held, and the rest are counted as expired |
| `OutagePublishers.OutagePublisher.Drain` | rustak-plugin-esb/src/publish.rs:147-150 | hands over the whole outbox and empties it |
| `OutagePublishers.OutagePublisher.RefreshAll` | rustak-plugin-esb/src/publish.rs:152-157 | every held marker becomes due |
| `OutagePublishers.OutagePublisher.SetScope` | rustak-plugin-esb/src/publish.rs:185-191 | the scope and nothing else changes |
| `OutagePublishers.OutagePublisher.Summarise` | rustak-plugin-esb/src/publish.rs:165-183 | each count is the number held of that kind, the total is what is held, customers are summed over the faults alone |
| `OutagePublishers.CustomersInAnyOrder` | rustak-plugin-esb/src/publish.rs:165-183 | the customers' sum does not depend on the order of the map |
| `OutageRuns.CountersConserve` | rustak-plugin-esb/src/publish.rs:97-191 | over any interleaving: offered = published + suppressed, published = drained + waiting, held + expired = insertions |
| `OutageRuns.HeldIsTheList` | rustak-plugin-esb/src/publish.rs:102-135 | after an offer the held ids are exactly those listed with a kind among the scope's and a position in its area, each with its last such entry |
| `OutageRuns.OnlyWhatIsAdmittedGoesOut` | rustak-plugin-esb/src/publish.rs:102-135 | an offer adds to the outbox only markers of entries of its snapshot of such a kind and in such a place, at its instant |
| `OutageRuns.TheMapShowsWhatIsHeld` | rustak-plugin-esb/src/publish.rs:102-157 | in every reachable state the latest marker published for a held id is the marker of the value held, and under a clock that does not go back no later than the last offer |
| `OutageTiming.NeverBlinks` | rustak-plugin-esb/src/publish.rs:102-145 | after any history, an outage admitted at offers at most half of `stale` apart has a live marker at every instant up to the last offer |
| `OutageTiming.UnchangedIsPaced` | rustak-plugin-esb/src/publish.rs:102-145 | from any offer that lists an outage, after any history, it is sent no more often than every half of refresh while it stays listed unchanged and nothing reconnects |
| `OutageTiming.OfferSendsIfDue` | rustak-plugin-esb/src/publish.rs:114-129 | an offer sends an outage it lists, new or held, iff it is due, once unless its share of refresh rounds to nothing, and sets when it is next due |
| `OutageResending.ScopeIsTheLastOneSet` | rustak-plugin-esb/src/publish.rs:185-191 | over every run a publisher goes by the scope last set and by the spans it was made with |
| `OutageResending.ReconnectingResends` | rustak-plugin-esb/src/publish.rs:152-157 | after any history and a reconnection the next offer sends a marker for everything it lists to show, however lately it was sent |
| `OutageResending.NothingWaitsLonger` | rustak-plugin-esb/src/publish.rs:102-145 | after any history an offer sends everything it lists to show whose latest marker is as old as refresh, or that has none |
| `Negotiations.MessagesRoundTrip` | rustak-cot/src/negotiate.rs:74-154 | each message is read by its own parser, in full, by no other, and lives for the client's timeout or to the end of time |
| `Negotiations.AtMostOneParserReads` | rustak-cot/src/negotiate.rs:106-154 | no event at all is read by two parsers, nor any other kind of event by one |
| `Negotiations.ServerNegotiation.Offer` | rustak-server/src/stream/negotiation.rs:104-121 | offers once from the XML state, keeping the uid |
| `Negotiations.ServerNegotiation.OnEvent` | rustak-server/src/stream/negotiation.rs:126-159 | what each message does to the server's state and what is answered |
| `Negotiations.ServerAnswersARequest` | rustak-server/src/stream/negotiation.rs:126-159 | in the message's own fields: accepts iff its offer stands, version 1 is named and it was not told to refuse; refuses iff any other version is, or it was; on the offer's uid |
| `Negotiations.ServerOffersVersion1` | rustak-server/src/stream/negotiation.rs:76-121 | offers version 1 at interface version 3 iff it was not told to be silent |
| `Negotiations.OfferedOnceUnlessRefused` | rustak-server/src/stream/negotiation.rs:98-159 | from the start, offering again does nothing iff the first readable request so far was not refused |
| `Negotiations.ClientNegotiation.OnOffer` | rustak-client/src/stream/negotiation.rs:98-124 | the state and the request as a function of state and offer; keeps the first server version |
| `Negotiations.ClientAsksForVersion1` | rustak-client/src/stream/negotiation.rs:98-124 | in the message's own fields: asks iff waiting, enabled and 1 is among the versions listed, for version 1 on the offer's uid; any other readable offer settles a waiting client on XML |
| `Negotiations.ClientTakesTheAnswer` | rustak-client/src/stream/negotiation.rs:130-151 | settles on the answer's own word iff its request is outstanding, and on XML when it gives up |
| `Negotiations.ClientNegotiation.OnAnswer` | rustak-client/src/stream/negotiation.rs:130-142 | settles on the answer iff a request is outstanding |
| `Negotiations.ClientNegotiation.GiveUp` | rustak-client/src/stream/negotiation.rs:145-151 | gives up an outstanding request and nothing else |
| `Negotiations.SettledStaysSettled` | rustak-client/src/stream/negotiation.rs:98-151 | a settled client never changes, and reaches protobuf iff it reads an acceptance while its request is outstanding |
| `NegotiationLinks.OneStep` | rustak-server/src/stream/connection.rs:321-345 | from agreement one step misreads nothing, and keeps agreement iff it is not a race |
| `NegotiationRuns.FramingAgreement` | rustak-cot/src/negotiate.rs:3-21 | over every run, whatever is relayed: no race iff both ends agree and nothing was misread, a race iff the link is astray, which it then stays |
| `NegotiationRuns.EndsDoAsTold` | rustak-server/src/stream/negotiation.rs:76-159 | over every run a server switches only where told to accept, a client told not to never asks, and each reads what it settled on |
| `NegotiationRuns.QueueIsBounded` | rustak-server/src/stream/writer.rs:117-137 | over every run the channel and the flush are bounded, and something relayed is dropped iff the channel has no room |
| `NegotiationRuns.InFlightFramesFit` | rustak-cot/src/negotiate.rs:3-21 | every frame on its way is in the framing its receiver will be reading when it takes it, unless a stranger's answer comes first |
| `NegotiationRuns.QuiescentEndsAgree` | rustak-cot/src/negotiate.rs:3-14 | with nothing left to deliver downwards all four ends are in one framing, protobuf iff granted |
| `NegotiationRuns.NothingIsLostOnTheWayUp` | rustak-client/src/stream/connection.rs:391-405 | until a race what the application handed over is routed or on its way, in order, the held-back events included |
| `NegotiationRaces.EveryFrameInFlightFits` | rustak-cot/src/negotiate.rs:3-21 | where no answer is relayed every frame on its way is in the framing its receiver will be reading when it takes it |
| `NegotiationRaces.SplitStays` | rustak-server/src/stream/connection.rs:321-345 | a split link stays split and hears nothing more from its client |
| `NegotiationRaces.RacesSplitTheLink` | rustak-server/src/stream/connection.rs:321-345 | where no answer is relayed: no race iff both ends agree, a race iff they are split |
| `NegotiationRaces.NothingIsHeardAfterARace` | rustak-server/src/stream/connection.rs:321-345 | after a race no continuation lets the server route anything further from this client |
| `NegotiationRaces.ARaceIsFelt` | rustak-server/src/stream/connection.rs:321-345 | after a race the client's next message, once it has given up, is misread |
| `NegotiationRaces.AWillingPairSwitches` | rustak-cot/src/negotiate.rs:3-14 | a run in which offer, request and answer leave both ends in protobuf with nothing in flight or misread |
| `NegotiationRaces.ARefusedPairStays` | rustak-cot/src/negotiate.rs:3-14 | the same run with a server told to refuse leaves both in XML, the refusal delivered and taken |
| `NegotiationRaces.AFullQueueSplitsTheLink` | rustak-server/src/stream/subscription.rs:150-183 | a run with no timeout that splits the link: the acceptance dropped by a full queue |
| `NegotiationRaces.AStrangersAnswerMisleads` | rustak-server/src/stream/router.rs:140-145 | a run in which a relayed acceptance moves a client to protobuf before its server has answered, and the answer is then misread |
| `NegotiationScripts.OneSwitchAtTheAcceptance` | rustak-server/src/stream/writer.rs:217-242 | over every run in which no answer is relayed, races included, a written frame is protobuf iff an acceptance was written before it |
| `NegotiationScripts.TheExchangeFollowsTheScript` | rustak-cot/src/negotiate.rs:3-14 | over every run in which only the two ends negotiate, races included: at most one offer, then one answer, one request between them, all on one uid, and silence after the request |
| `BoundedMemory.Trim` | rustak-plugin-ais/src/vessels.rs:182-195 | terminates with exactly as many as fit, unchanged, none kept that was heard before one evicted |
| `BoundedMemory.TrimIsUniqueWithoutTies` | rustak-plugin-ais/src/vessels.rs:182-195 | with all instants different there is one such result |
| `BoundedMemory.SweepingKeepsTheMostRecent` | rustak-plugin-ais/src/vessels.rs:173-195 | forgetting by age and by number keeps the map the most recent part of the log's view |
| `BoundedMemory.MemoryRefinesTheLog` | rustak-plugin-ais/src/vessels.rs:116-195 | over every run the map is part of the view of the unbounded log, and lacks only what is no more recent than all it holds |
| `BoundedMemory.ViewIsTheLastReportsStillFresh` | rustak-plugin-ais/src/vessels.rs:116-125 | a key is in the log's view iff no expiry came more than the retention after its last report, and the view holds that report and its instant |
| `BoundedMemory.SweptMemoryIsATrimOfTheView` | rustak-plugin-ais/src/vessels.rs:116-125 | after an expiry the map is a least-recently-heard trim of the whole log's view |
| `BoundedMemory.MemoryIsTheViewWhenItFits` | rustak-plugin-ais/src/vessels.rs:116-125 | whenever the log's view fits, the map is the view, even after trims |
| `BoundedMemory.MemoryIsTheViewWhenTheLastSweepFits` | rustak-plugin-ais/src/vessels.rs:94-125 | whenever the view the last expiry left fits, the map is the view, however large both have grown since |
| `BoundedMemory.SweptMemoryIsTheViewIffItFits` | rustak-plugin-ais/src/vessels.rs:116-125 | after an expiry the map is the view iff that fits |
| `BoundedMemory.NeverOverfullFitsAtTheLastSweep` | rustak-plugin-ais/src/vessels.rs:94-125 | while no expiry finds more live vessels than fit, the map is the view |
| `VesselCaches.Vessels.constructor` | rustak-plugin-ais/src/vessels.rs:75-84 | an empty cache, with room for at least one vessel |
| `VesselCaches.Vessels.Absorb` | rustak-plugin-ais/src/vessels.rs:86-92 | what either report does to the cache and the track it makes publishable, as functions whose meaning the next rows prove |
| `VesselCaches.Vessels.HearPosition` | rustak-plugin-ais/src/vessels.rs:127-148 | a usable position is remembered and joined to the static data already heard |
| `VesselCaches.Vessels.HearStatics` | rustak-plugin-ais/src/vessels.rs:150-171 | static data is remembered and re-offers the last position, if there is one |
| `VesselCaches.ReportsAreJoined` | rustak-plugin-ais/src/vessels.rs:127-171 | a vessel's position and static data are joined into one track whichever is heard first |
| `VesselCaches.OtherVesselsDoNotMatter` | rustak-plugin-ais/src/vessels.rs:127-171 | what one vessel reports changes no other vessel's track |
| `VesselCaches.OffTheMapIsNothing` | rustak-plugin-ais/src/vessels.rs:127-148 | a position makes a track iff it is within 90 and 180 degrees, and otherwise is not remembered either |
| `VesselCaches.BatchesAddUp` | rustak-plugin-ais/src/vessels.rs:94-109 | a batch is its parts one after the other, in memory and in the order of its tracks |
| `VesselCaches.Vessels.AbsorbAll` | rustak-plugin-ais/src/vessels.rs:94-109 | one track per publishable observation, in order, then an expiry; both maps fit |
| `VesselCaches.Vessels.Expire` | rustak-plugin-ais/src/vessels.rs:116-125 | each half forgets by its own horizon and then by number; both fit |
| `VesselCaches.CacheRefinesTheLog` | rustak-plugin-ais/src/vessels.rs:86-180 | over every history each half is the most recent part of the log's view, and equal to it whenever that fits now or fitted at the last expiry |
| `VesselCaches.CacheIsTheLogUntilItOverfills` | rustak-plugin-ais/src/vessels.rs:86-125 | the cache is the log's view as long as no expiry has found more live vessels than fit |
| `VesselCaches.EachTrackJoinsTheLog` | rustak-plugin-ais/src/vessels.rs:127-171 | every track offered is the observation alone or joined to the log's own latest report of the other kind, and joined whenever the log has one and that half fits now or fitted at the last expiry |
| `VesselCaches.ViewRemembersWhatIsFresh` | rustak-plugin-ais/src/vessels.rs:116-125 | the log's view has a vessel's static data iff no expiry came more than half an hour, or a longer retention, after its last, and its position by the retention |
| `AisMapping.WordsTellStationary` | rustak-plugin-ais/src/mapping.rs:216-239 | of all 256 codes only 1, 5 and 6 have one of the three words |
| `AisMapping.StationaryReadsBack` | rustak-plugin-ais/src/mapping.rs:241-337 | whatever else is known, a track reads back as stationary iff its position's status is 1, 5 or 6 |
| `AisMapping.AnyRemarkMaySayStationary` | rustak-plugin-ais/src/mapping.rs:241-257 | a track is stationary iff some status remark is one of the three words |
| `AisMapping.EnrichmentOnlyRelabels` | rustak-plugin-ais/src/mapping.rs:259-337 | static data changes a track's label, class and remarks alone, keeps every remark it had, and no sentinel reading is published |
| `AisMapping.TracksSayWhatWasReported` | rustak-plugin-ais/src/mapping.rs:138-275 | id, place, instant, class and name are what was reported, and each reading is published iff it is not a sentinel or off its scale |
| `AisMapping.RemarksReadBack` | rustak-plugin-ais/src/mapping.rs:284-337 | every remark reads back as the field it was written for, and a zero IMO or size as none |
| `AisMapping.ClassAgreesWithTheWord` | rustak-plugin-ais/src/mapping.rs:170-214 | for all 256 codes the class and the word beside it agree |
| `AisMapping.TypeWordsAreTheTables` | rustak-plugin-ais/src/mapping.rs:187-214 | the words of all 256 ship types, as three tables |
| `AisMapping.StatusWordsAreTheTables` | rustak-plugin-ais/src/mapping.rs:216-234 | the words of all 256 statuses, as a table |
| `AisMapping.IdIsInjective` | rustak-plugin-ais/src/mapping.rs:138-144 | two vessels never share an id |
| `AisStaleness.StationaryIds` | rustak-plugin-ais/src/lib.rs:417-428 | the set holds exactly the ids of the stationary tracks of this tick |
| `AisStaleness.Drain` | rustak-plugin-ais/src/lib.rs:284-299 | every event of a vessel outside the set gets the shortened staleness and nothing else changes |
| `AisStaleness.UnderWayIsTheLonger` | rustak-plugin-ais/src/lib.rs:130-155 | a vessel under way lives the longer of what was asked and the refresh gap, a negative span standing for its default |
| `AisStaleness.UnderWayOutlivesTheGap` | rustak-plugin-ais/src/lib.rs:146-155 | a marker under way outlives the gap between two refreshes unless time saturates, and lives exactly as raised iff it does not |
| `AisStaleness.AnchoredKeepTheFeedsStaleness` | rustak-plugin-ais/src/lib.rs:278-299 | a vessel keeps the feed's staleness iff a report of it in this tick said at anchor, moored or aground |
| `Shutdowns.Shutdown.Child` | rustak-core/src/runtime.rs:179-190 | a child is born stopped iff its parent is, and shares its parent's abort |
| `Shutdowns.AChildIsUnderItsParent` | rustak-core/src/runtime.rs:179-190 | a child is under its parent and whatever that is under, and nothing else |
| `Shutdowns.Shutdown.Cancel` | rustak-core/src/runtime.rs:144-147 | walking the tree in place stops exactly the node and everything under it |
| `Shutdowns.Shutdown.Abort` | rustak-core/src/runtime.rs:154-163 | stops the node's subtree and raises its abort token |
| `ShutdownRuns.StopIsScoped` | rustak-core/src/runtime.rs:61-69 | in every run a node is cancelled iff cancel or abort was called on it or an ancestor, whenever it was made |
| `ShutdownRuns.CancelStopsTheSubtree` | rustak-core/src/runtime.rs:144-163 | in every run a call of cancel or abort cancels the node and everything under it and nothing else |
| `ShutdownRuns.ChildrenAreReached` | rustak-core/src/runtime.rs:179-190 | a child is cancelled by whatever cancels its parent, before it is made or after |
| `ShutdownRuns.FinishingReachesEveryone` | rustak-core/src/runtime.rs:154-163 | the second half of an abort aborts every node |
| `ShutdownRuns.AbortIsShared` | rustak-core/src/runtime.rs:165-190 | every node reads one abort, up iff some abort has finished |
| `ShutdownRuns.FlagsOnlyRise` | rustak-core/src/runtime.rs:144-190 | neither flag is ever lowered and no node is lost, however a run goes on |
| `ShutdownRuns.AbortedMeansCancelledUnderTheRoot` | rustak-core/src/runtime.rs:154-163 | everything is cancelled iff cancel or abort was called on the process's own signal |
| `ShutdownRuns.AbortOnTheRootCancelsAll` | rustak-core/src/runtime.rs:154-163 | if every abort was called there, aborted implies cancelled at every node and every instant, between the two halves too |
| `ShutdownRuns.AbortOnAChildDoesNotCancelTheRest` | rustak-core/src/runtime.rs:154-163 | an abort on a child leaves the root aborted and not cancelled |
| `ShutdownRuns.PhaseIsTheNumberOfSignals` | rustak-core/src/runtime.rs:85-135 | n signals received: cancelled from 1, aborted from 2, exit only at 3, no others received; a channel that closes early advances nothing |
| `ShutdownRuns.FirstSignalCancels` | rustak-core/src/runtime.rs:85-135 | from any run in which the sequencer waits for it, the first signal cancels |
| `ShutdownRuns.SecondSignalAborts` | rustak-core/src/runtime.rs:85-135 | and the second aborts |
| `ShutdownRuns.ThirdSignalExits` | rustak-core/src/runtime.rs:85-135 | and the third ends the process, after which nothing happens |
| `Telemetry.Reclaim` | rustak-core/src/telemetry.rs:143-167 | at most 40 checks and one flush, which happens iff some check finds a sole owner, at the first that does |
| `AdsbSettings.WaitsAreCheckedAgainstTheIntervalOpenedAt` | rustak-plugin-adsb/src/settings.rs:187-210 | a file's wait is checked against the interval that opening its source computes, for every source that has a wait |
| `AdsbSettings.IntervalsInMilliseconds` | rustak-plugin-adsb/src/settings.rs:187-210 | in numbers: what every source is configured with, asked or not, and the two-second floor |
| `AdsbSettings.WaitsInMilliseconds` | rustak-plugin-adsb/src/sources/state/probe.rs:25-70 | in numbers: a file's wait is refused and a document's raises an issue iff it spans fewer than sixty polls or more than a day; with none, three hours |
| `AdsbSidecars.AdsbSidecar.Watch` | rustak-plugin-adsb/src/lib.rs:243-268 | opens source and publisher for the area and puts a recorded wait back unless it is zero, or fails and changes nothing |
| `AdsbSidecars.AdsbSidecar.ApplySymbology` | rustak-plugin-adsb/src/lib.rs:177-192 | record and publisher take the edition together |
| `AdsbSidecars.AdsbSidecar.ApplyProbeMaxWait` | rustak-plugin-adsb/src/lib.rs:194-241 | source and record take a usable wait together, and an unusable one changes nothing |
| `AdsbSidecars.AdsbSidecar.Start` | rustak-plugin-adsb/src/lib.rs:290-327 | the state after starting on any document, or on a source that will not open |
| `AdsbSidecars.AdsbSidecar.Tick` | rustak-plugin-adsb/src/lib.rs:329-371 | the configuration after a tick with any document and any failure to open |
| `AdsbRuns.SettingsNeverDisagree` | rustak-plugin-adsb/src/lib.rs:290-371 | over every run source, publisher and record agree on area and edition, and a wait from file or server is in range |
| `AdsbRuns.WaitsInEffectAreUsable` | rustak-plugin-adsb/src/lib.rs:202-241 | in numbers: over every run a chosen wait in effect spans sixty polls and at most a day, and the default is three hours |
| `AdsbRuns.SourceGoesByTheRecordedWait` | rustak-plugin-adsb/src/lib.rs:249-268 | the source's wait is the recorded one over every run iff it polls at an interval or would open at no wait anyway |
| `AdsbRuns.SettingsAreFoldsOfTheDocuments` | rustak-plugin-adsb/src/lib.rs:329-371 | area, edition and wait are the last that opened, the last document's or the file's, and the last usable |
| `AdsbRuns.AreaIsTheServersOnceMoved` | rustak-plugin-adsb/src/lib.rs:350-364 | over every run the area is said to be the file's iff no other was ever opened |
| `AdsbRuns.DroppingTheAreaKeepsIt` | rustak-plugin-adsb/src/lib.rs:350-364 | a document without an area leaves it where it was, so the file's is in effect iff the last area that opened, or the first, is the file's |
| `AdsbRuns.AnAreaIsNotGivenBack` | rustak-plugin-adsb/src/lib.rs:350-364 | a run in which an area, named once and then dropped, stays in effect |
| `AdsbRuns.DroppingTheWaitGivesItBack` | rustak-plugin-adsb/src/lib.rs:202-241 | a document without a wait leaves the file's choice in effect iff that is in range or was in effect already, and otherwise changes nothing |
| `AdsbRuns.AWaitIsNotGivenBack` | rustak-plugin-adsb/src/lib.rs:202-241 | a run in which the default does not come back: polled every five minutes, six hours from the server |
| `AdsbRuns.ValidationAgreesWithApplication` | rustak-plugin-adsb/src/remote.rs:62-86 | a readable document raises a wait issue iff its minutes are out of range, in numbers, and iff a tick applying it keeps the wait already in effect |
| `EsbSidecars.EsbSidecar.Start` | rustak-plugin-esb/src/lib.rs:197-225 | source and publisher open on the area that answer puts into effect, or nothing changes |
| `EsbSidecars.EsbSidecar.ApplyArea` | rustak-plugin-esb/src/lib.rs:130-154 | both scopes and the record move together |
| `EsbSidecars.EsbSidecar.TickAt` | rustak-plugin-esb/src/lib.rs:162-167 | an answer that changes neither area nor origin changes nothing |
| `EsbSidecars.TheAreaIsWhatTheLastDocumentSaid` | rustak-plugin-esb/src/lib.rs:101-187 | over every run both scopes are the area on record with the file's kinds, and area and origin are the last readable-or-absent answer's |
| `PrefCodecs.ToJson` | rustak-api/src/pref_catalog.rs:271-290 | there is a JSON value iff the class accepts the text, it is one JSON can carry, and it is the text, the truth or the whole number within the class's bounds that the text spells |
| `PrefCodecs.BoundsAreExact` | rustak-api/src/pref_catalog.rs:377-385 | a value has a text iff it is of the class's kind and, for a number, whole and within the bounds the form draws |
| `PrefCodecs.WordsHoldTheirBits` | rustak-api/src/profile.rs:84-96 | in numbers: a class takes exactly the integers of 32 or 64 bits, as text and as JSON |
| `Decimals.IntegersAreSignedDigits` | rustak-api/src/profile.rs:84-96 | a text is an integer iff it is at least one digit after one sign or none, and what that means is in range |
| `PrefCodecs.WrittenReadsBack` | rustak-api/src/pref_catalog.rs:292-308 | every text written is accepted and reads back as the value it was written for |
| `PrefCodecs.AcceptedIsMadeCanonical` | rustak-api/src/pref_catalog.rs:271-308 | every accepted text is written back with the same value, and writing it again changes nothing |
| `PrefCodecs.TextComesBackWhenCanonical` | rustak-api/src/pref_catalog.rs:271-308 | the text itself comes back iff it has no plus sign, leading zero or minus zero |
| `PrefCodecs.SomeTextsAreRewritten` | rustak-api/src/profile.rs:84-96 | three accepted texts that come back rewritten |
| `PrefCodecs.NarrowIsWide` | rustak-api/src/profile.rs:88-96 | what a class accepts is what its bounds admit, and reading it as an i64 gives the same value |
| `PrefCodecs.WrittenIsJson` | rustak-api/src/pref_catalog.rs:296-308 | every number written is spelled as RFC 8259, section 6, spells an integer |
| `Decimals.CanonicalIsWritten` | rustak-api/src/pref_catalog.rs:298-303 | of all the spellings of an integer exactly one is the one written |

## Left out

- CotTimes.MillisOf: spans are whole milliseconds, so a finer configured span is not modelled.
- OutagePublishers.RefreshAfterIsSpread: the sum over an id is unbounded here and one unit per character, so neither an id of many megabytes, whose sum would leave an i32, nor the bytes of non-ASCII characters are modelled; the bounds hold for every sum that does not overflow.
- OutageTiming.NeverBlinks: instants whose due time would leave the calendar range are unbounded integers here, where the original would panic on overflow; counters are unbounded as well.
- Outages: coordinates are reals only compared and looked up, so NaN and rounding are not modelled, and an area is the set of positions it contains.
- TimeText.EverySpellingIsRead: the calendar library is not part of this model; its two readers are modelled from their documented grammar, and white space is the set Unicode names.
- NegotiationRuns.FramingAgreement: an application that itself hands `t-x-takp-q` to the client it talks through is not modelled; anything may be relayed downwards.
- NegotiationScripts.TheExchangeFollowsTheScript: says nothing of runs in which the server relays another client's `t-x-takp-v` or `t-x-takp-r`.
- NegotiationLinks.OneStep: the writer may take an item at any time and writes no more than 64 ahead, where the original takes all it can between two flushes, so the model allows every run of the original and more; a misread frame is dropped; what a decoder makes of bytes in the wrong framing, closing a connection after repeated drops, oversize substitution and the keepalive's deadlines are not modelled.
- AisStaleness.Drain: which tracks the publisher buffers is arbitrary; its rate limiting is not modelled.
- AisMapping.StationaryReadsBack: speed, course and heading are reals, so rounding and non-finite readings are not modelled.
- ShutdownRuns: waking the tasks that wait on a token, and the grace period around them, are left to the runtime.
- AdsbRuns: what a source does with its probe wait (the adaptive cadence) is not modelled, only that it has one; the log lines and the JSON schema are not either.
- EsbSidecars: areas are compared, not evaluated; the outages a source already holds are not moved with its scope.
- PrefCodecs: the floating-point class is not modelled, nor is the catalogue of known preferences.
- The XML and protobuf codecs, TLS, HTTP, enrolment, storage, the router, the admin interface and the other plugins would add either input and output or easy members.
