# ORB, the open HbbTV browser: a verified model

ORB runs HbbTV applications beside a television service. This project models the parts of it whose behaviour is
spread over many steps and proves what those parts are meant to guarantee.

**Application manager and AIT.** The broadcaster sends an application information table (AIT, section 5.3.4 of ETSI
TS 102 809) in up to 256 sections, in any order and again and again. `AitMask`, `AitDescriptors` and `AitSections`
read sections byte by byte into a partial table. Two descriptions of the bytes stand behind them: `AitSyntax`
prints a syntax, and `AitLayout` reads fixed places of raw bytes without it; `AitPositions` proves that they agree,
and `AitPrinting` says which tables come out as they went in. `AitReassembly` follows whole broadcasts, and
`AitIds` those in which sections share application ids. `AppManager` holds the application manager, the state
machine of section 6.2.2 of ETSI TS 102 796 that starts, keeps, updates and kills applications by that table: each
method changes its fields as the source does and is proved to compute the function of the same operation in
`AppManagerModel`. `AppOutcomes` and `AppCalls` tell what each call leads to without these functions, by conditions
on the inputs, the table and the state before. `AppManagerRuns` and `AppFallback` prove what holds in every state
that any sequence of calls reaches. `AitLookup` has the table's lookups and `Origin` the URL origins (sections 4
and 5 of RFC 6454) by which an application may or may not stay.

**Iframe proxy.** Two windows exchange messages under sessions. `IframeProxy` is the proxy object, `IframeProtocol`
the two ends, the channels between them and every event that can happen, including a reload of the frame and the
traffic of other proxies of the same window. `IframeSteps` tells what each event does and that it is what the proxy
object does. `IframeConservation`, `IframeFates`, `IframeOrder`, `IframeSessions` and `IframeCalls` prove over all
runs that nothing is lost or duplicated, what is discarded, when order is kept, that sessions are isolated, and
which call a response settles.

**HTTP server core.** `SocketQueue` and `SocketThreads`: the ring of accepted sockets, as an object and as an
interleaving of one master and any number of workers, statement by statement. `HttpBody`: the Content-Length body
reader over a socket that delivers what it likes. `HttpFraming`: where a request's headers end, and whether that
depends on how the bytes arrive.

**CI+ messages.** `CiPlusWire` is the wire format, with JavaScript's signed 32-bit transaction ids; `CiPlusReplies`
the table of open messages over whole runs; `CiPlusAgent` the object that sends and receives.

**Codecs.** `UrlLib` and `XmlEscape` write into buffers of limited size; `Base64` is the encoder with a strict
decoder beside it (section 4 of RFC 4648).

Where the code does less than it is meant to, the code was kept. A lemma ending in `ExactlyWhen` then states the
condition under which it does what is expected, in both directions, and where it helps a lemma gives a run or an
input for which the condition fails:

- an AIT entry whose application is known already is stepped over only by coincidence (`ait.cpp:1196`), and when it is,
  the descriptors found there are applied once more; a section that only repeats known applications is not read, so
  what is stored for an id sent in two sections depends on their order;
- of several ratings in a descriptor the last is dropped (`ait.cpp:836`); further names are found only by coincidence
  (`ait.cpp:590`); more than two transports, or a repeated one, leave the slot array (`ait.cpp:665-674`);
- a load failure of an operator application that the present table does not signal dereferences null
  (`application_manager.cpp:653-654`);
- a load failure uses up a transport only if the device could use one of the application's transports at all; if it
  could not, the same application is started again for as long as it fails;
- origins are trimmed before they are compared, so white space behind an explicit port does not tell them apart
  (`utils.cpp:188-191`);
- messages posted between the start and the end of a handshake overtake those that were queued before it
  (`iframeobjectproxy.js:38`);
- a call made by a frame before it was reloaded and answered afterwards can settle the new document's call with the
  same id (`iframeobjectproxy.js:27`, a counter that restarts with the document);
- a control character before the end of the headers makes a request fail or not, depending on how it was chunked
  (`mongoose.c:491-494`);
- upper-case hexadecimal payloads come back in lower case, and payloads of 65536 bytes and more come back cut;
- `xmlencode` drops characters that do not fit and goes on with the next; base64 keeps only the low byte of a
  character.

In the table below the results about runs, round trips and exact conditions lead each group; the operations they are
about follow.

## Model

| member | source | states |
|---|---|---|
| AppManagerRuns.EveryRunIsSafe | components/application_manager/application_manager.cpp:318-1089 | after any sequence of calls: while a service is selected and its table is held, the running HbbTV application is broadcast-related and signalled in that table; the map's keys are the non-zero slots, which differ, and each application is stored under its own id with the type of its slot |
| AppManagerRuns.RunKeeps | components/application_manager/application_manager.cpp:318-1089 | the inductive invariant behind it (a held table implies the first-AIT flag; with service, flag and application running, the application is broadcast-related) is kept by every run, and application ids only grow |
| AppManagerRuns.IdsAreNeverReused | components/application_manager/hbbtv_app.cpp:66-127 | an id that was given out and is not in use is not used again in any later state |
| AppCalls.EveryCallLeadsToItsOutcome | components/application_manager/application_manager.cpp:69-682 | after any run, what each call leads to, told by the conditions on its inputs and the table and by every field of the new state, not by the functions that compute it |
| AppCalls.UpdateKeepsExactlyWhen | components/application_manager/application_manager.cpp:773-822 | after any further table of the service the running application is still there exactly when the first entry with its ids has another control code than KILL, carries its protocol and is not age-restricted |
| AppCalls.FirstTableKeepsExactlyWhen | components/application_manager/application_manager.cpp:689-758 | after the first table of a service a broadcast-related application is still there exactly when its entry lets it and it is not bound to another service, any other one exactly when it may join; then it is broadcast-related |
| AppCalls.FailedIsGone | components/application_manager/application_manager.cpp:632-658 | an application that fails to load under a service is gone, and the other one is as it was unless the application started instead took its slot |
| AppCalls.DestroyedIsGone | components/application_manager/application_manager.cpp:158-176 | so is an application that destroys itself |
| AppOutcomes.UpdatedTableOutcome | components/application_manager/application_manager.cpp:773-822 | the whole new state after a further table: the application changed in place and nothing else, or taken out and the best entry started |
| AppOutcomes.FirstTableOutcome | components/application_manager/application_manager.cpp:689-758 | the same for the first table, with the service-bound case, the transition and the second update |
| AppOutcomes.JoiningOutcome | components/application_manager/hbbtv_app.cpp:183-214 | an application outside any service is updated and becomes broadcast-related exactly when its entry is unrestricted and AUTOSTART or PRESENT, the first transport to try is broadband, and the origins of its entry page and of its updated page each are that of its base address or of a boundary, white space behind a port aside |
| AppOutcomes.CreationOutcome | components/application_manager/application_manager.cpp:879-990 | the application made for any request, with its addresses, kind, state and protocol, in its slot, and no other field changed; only an id is used up exactly when the ratings forbid it |
| AppOutcomes.AutostartOutcome | components/application_manager/application_manager.cpp:845-868 | started is the best eligible entry of the table as a broadcast-related application; nothing changes exactly when there is none |
| AppOutcomes.UpdateOutcome | components/application_manager/hbbtv_app.cpp:141-181 | an update keeps what an application was created with; description and protocol follow, and the page follows the linked application scheme |
| AppOutcomes.UrlCreationOutcome | components/application_manager/hbbtv_app.cpp:90-98 | an application made from an address is broadcast-independent with all its addresses this one, and its scheme is the one the address asks for |
| AppOutcomes.UrlsAreMerged | components/application_manager/utils.cpp:389-407 | a merged address is the base, the location up to its fragment and the query, of which only the first question mark stays one |
| AppOutcomes.BaseUrls | components/application_manager/ait.cpp:385-428 | the address in front of a location is that of the first transport to try: its base address, or the network, stream, service and component of a carousel in hexadecimal |
| AppManagerRuns.SectionsNeverMeetTheUnexpected | components/application_manager/application_manager.cpp:773-822 | the branch marked as unexpected cannot be reached from a section of the selected service |
| AppManagerRuns.NullDereferenceExactlyWhen | components/application_manager/application_manager.cpp:632-658 | in every reachable state the look-up after a load failure finds nothing exactly for the operator application when the table does not signal it, never for the HbbTV slot |
| AppManagerRuns.NullDereferenceIsReachable | components/application_manager/application_manager.cpp:632-658 | four calls that lead from the initial state to that dereference |
| AppManagerRuns.CreationExactlyWhen | components/application_manager/application_manager.cpp:879-990 | a creation fails exactly when the ratings forbid it, and then changes only the id counter; otherwise the new application takes its slot with the given description, every application outside the slot stays, the service is deselected exactly when the application is not broadcast-related, and table, first-AIT flag, AIT PID and network stay |
| AppFallback.FailureChain | components/application_manager/application_manager.cpp:632-658 | with the network available and well-identified applications, load failures of autostarted applications one after another are no more than the transports left to try, and end with no application eligible; what failed last is gone then, its slot empty and the other slot as it was |
| AppFallback.FailureUsesUpATransportExactlyWhen | components/application_manager/ait.cpp:435-487 | a failure never adds an untried transport, and uses one up exactly when the device could use some transport of the application; otherwise the same application is picked again |
| AppFallback.UselessFailuresNeverEnd | components/application_manager/application_manager.cpp:632-658 | otherwise every further failure starts the same entry again: for any number of failures the same choice, and no transport used up |
| AppFallback.UselessFailuresAreReachable | components/application_manager/application_manager.cpp:632-658 | it happens from the initial state: a channel, a table with one HTTP application and no network |
| AppFallback.AutostartStarts | components/application_manager/application_manager.cpp:845-868 | what autostart picks is never refused by the constructor: nothing is started exactly when nothing is eligible |
| AppManager.ApplicationManager.ProcessAitSection | components/application_manager/application_manager.cpp:318-365 | from the bytes of a section to the new state: the table they complete, if any, is processed as a first or an updated one |
| AppManager.ApplicationManager.ProcessXmlAit | components/application_manager/application_manager.cpp:376-440 | whole new state: a DVB-I table replaces the table, another one starts its autostart application |
| AppManager.ApplicationManager.CreateApplication | components/application_manager/application_manager.cpp:69-151 | whole new state, for every kind of locator and any caller |
| AppManager.ApplicationManager.DestroyApplication | components/application_manager/application_manager.cpp:158-176 | the caller's application is gone and, with a service selected, the best eligible entry of its table runs; caller 0, which no application has, only starts that entry; any other caller that does not exist changes nothing |
| AppManager.ApplicationManager.RunTeletextApplication | components/application_manager/application_manager.cpp:462-481 | the first teletext entry runs as a broadcast-related application, or nothing changes |
| AppManager.ApplicationManager.OnBroadcastStopped | components/application_manager/application_manager.cpp:572-585 | service, table and flag are forgotten and the running application becomes broadcast-independent; the transition is never refused |
| AppManager.ApplicationManager.OnChannelChanged | components/application_manager/application_manager.cpp:598-613 | the table, the flag and the AIT PID are forgotten, the running application is kept |
| AppManager.ApplicationManager.OnLoadApplicationFailed | components/application_manager/application_manager.cpp:632-658 | total: computes the outcome that `AppCalls.FailureOutcome` tells (marked in the table, killed, the next candidate started; unknown ids and no service change nothing); the null dereference ends it exactly when `DereferencesNull` holds, before anything has changed |
| AppManager.ApplicationManager.OnSelectedServiceAitReceived | components/application_manager/application_manager.cpp:689-758 | the first table of a service: computes the outcome that `AppOutcomes.FirstTableOutcome` tells |
| AppManager.ApplicationManager.OnSelectedServiceAitUpdated | components/application_manager/application_manager.cpp:773-822 | a further table: computes the outcome that `AppOutcomes.UpdatedTableOutcome` tells |
| AppManager.ApplicationManager.OnPerformBroadcastAutostart | components/application_manager/application_manager.cpp:845-868 | starts the best eligible entry once the first table has been received, otherwise changes nothing; the id started |
| AppManager.ApplicationManager.OnRunningAppExited | components/application_manager/application_manager.cpp:827-840 | autostart, but only with a service selected |
| AppManager.ApplicationManager.CreateAndRunApp | components/application_manager/application_manager.cpp:879-949 | a throwing constructor uses up an id and changes nothing else; usage decides between the slots; the id created |
| AppManager.ApplicationManager.CreateAndRunUrl | components/application_manager/application_manager.cpp:879-949 | an empty URL uses up an id and changes nothing else; otherwise a broadcast-independent application takes the slot |
| AppManager.ApplicationManager.RunApp | components/application_manager/application_manager.cpp:958-990 | the slot's old application is dropped; a broadcast-independent one deselects the service |
| AppManager.ApplicationManager.UpdateRunningApp | components/application_manager/application_manager.cpp:999-1010 | the running application updated, or unchanged when the update throws |
| AppManager.ApplicationManager.KillRunningApp | components/application_manager/application_manager.cpp:1015-1031 | only an application in a slot is killed, and its slot emptied |
| AppManager.ApplicationManager.TransitionRunningAppToBroadcastRelated | components/application_manager/application_manager.cpp:1038-1074 | succeeds exactly when the table signals the application and it may become broadcast-related |
| AppManager.HbbTVApp.Update | components/application_manager/hbbtv_app.cpp:141-181 | refused exactly when age-restricted, and then nothing changed |
| AppManager.HbbTVApp.TransitionToBroadcastRelated | components/application_manager/hbbtv_app.cpp:183-214 | refused, with nothing changed, unless control code, protocol and both boundary checks allow it, which `AppOutcomes.JoiningOutcome` tells by origins |
| AitIds.ReportedExactlyOnce | components/application_manager/ait.cpp:76-108 | sections 0 to last of one version arriving in any order with any repeats, whatever application ids they share: `ProcessSection` returns true for exactly one arrival, once all have arrived |
| AitIds.UpdatesAtTheLastMissing | components/application_manager/ait.cpp:76-108 | that arrival is the one after which no section is missing |
| AitReassembly.OrderDoesNotMatter | components/application_manager/ait.cpp:1033-1229 | when every application id is in one section only, two arrival orders end with the same applications (as a multiset), version and received set, including last numbers at which the 8-bit mask wraps |
| AitReassembly.FinalTable | components/application_manager/ait.cpp:1033-1229 | the table then exposed holds exactly the arrived sections' applications and is complete |
| AitReassembly.CompletedTablesAreComplete | components/application_manager/ait.cpp:76-108 | whatever sections arrive, an incomplete broadcast table is never exposed |
| AitIds.IdsDoNotDependOnOrder | components/application_manager/ait.cpp:1033-1229 | ids in several sections included: the table exposed once all have arrived is complete and has exactly the application ids of the sections, whatever the order and the repeats |
| AitIds.ContentsDependOnOrderExactlyWhen | components/application_manager/ait.cpp:1135-1205 | what is stored under the ids of two sections that list the same ones depends on which arrives first exactly when the sections describe the applications differently |
| AitIds.DifferentTwins | components/application_manager/ait.cpp:1135-1205 | two such sections: one application with two control codes |
| AitIds.DescriptorsAreAppliedAgain | components/application_manager/ait.cpp:1190-1201 | a form of known entries, of any length, that is read again without leaving the loop: the descriptors behind its first are applied a second time |
| AitIds.BroadcastIsCollected | components/application_manager/ait.cpp:1033-1229 | with every id in one section only, the parser stays within each section in any order of arrival |
| AitMask.CompleteBySlots | components/application_manager/ait.cpp:983-1026 | the test of full bytes and a last partial byte holds exactly when the marked sections are 0 to last (and none above in that byte), 8-bit wrap-around included |
| AitMask.MarkSectionReceived | components/application_manager/ait.cpp:983-1026 | the array in place: one more number in the set, and whether that completes it |
| AitPrinting.PrintedSectionIsRecovered | components/application_manager/ait.cpp:1087-1205 | a section printed from a list of applications is parsed into exactly those applications |
| AitPrinting.PrintedAppIsRecovered | components/application_manager/ait.cpp:886-953 | for every application a broadcast can describe, the descriptors printed for it mean that application and stay within the transport slots |
| AitSections.SectionPositions | components/application_manager/ait.cpp:1033-1205 | a printed section has its kind, version, numbers and applications at the places `AitLayout` reads them from the raw bytes |
| AitSections.ReadEntryPositions | components/application_manager/ait.cpp:1141-1205 | the second pass over an entry by its bytes: a new application from byte 9 on, a known one from byte 15 on, applied again |
| AitSections.NewsExactlyWhen | components/application_manager/ait.cpp:1033-1085 | a section changes the table exactly when it lists HbbTV applications and has a new version or a new number |
| AitPositions.DescriptorPositions | components/application_manager/ait.cpp:886-953 | each descriptor means what `AitLayout` reads at fixed places of its bytes, under its tag by number |
| AitPositions.ApplicationPositions | components/application_manager/ait.cpp:494-564 | profile i is the word at 1 + 5i behind the length and major, minor and micro behind it; flags, priority and labels follow the profiles |
| AitPositions.TransportPositions | components/application_manager/ait.cpp:636-762 | protocol, label and selector at their places: network, stream and service in that order, or the addresses |
| AitPositions.RatingsPositions | components/application_manager/ait.cpp:818-842 | country and age of each rating at their places, and in closed form how many are read |
| AitPrinting.StaysInSlotsExactlyWhen | components/application_manager/ait.cpp:653-674 | the transport slots suffice exactly when at most two different non-zero protocols are named |
| AitPrinting.KnownEntryIsSteppedOverExactlyWhen | components/application_manager/ait.cpp:1190-1201 | the step over a known application's entry lands on the next entry exactly when two of its descriptor bytes happen to hold its remaining length |
| AitPrinting.RatingsReadExactlyWhen | components/application_manager/ait.cpp:818-842 | a rating descriptor is read in full exactly when it holds one rating or ends in one to three extra bytes; otherwise the last of its ratings is dropped |
| AitPrinting.NamesAreReadExactlyWhen | components/application_manager/ait.cpp:571-628 | any number of names is read back exactly when the bytes behind the first header repeat the other names with their headers four bytes apart |
| AitSections.Ait.ProcessSection | components/application_manager/ait.cpp:76-108 | from bytes to the new partial and completed tables; wrong sizes change nothing; the completed table changes only to a complete one |
| AitSections.Ait.ParseSection | components/application_manager/ait.cpp:1033-1229 | the partial table gains the section's applications and its number exactly when the section is news; in a new table the applications are those at their places in the raw bytes; a section all of whose applications are known adds its number alone, and known entries among new ones are read again |
| AitSections.Ait.ReplaceCompleted | components/application_manager/ait.cpp:478-487 | writing into the completed table writes into the partial one exactly while they are shared |
| AitSections.CountApps | components/application_manager/ait.cpp:1087-1116 | the first pass ends at the end of the loop having visited every entry and counts those the table under way does not know, repeated ones each time |
| AitSections.ParseApps | components/application_manager/ait.cpp:1135-1205 | the second pass over any mix of new and known entries: each new one is appended, each known one applied again to its application, and the loop ends where the entries end |
| AitSections.ReadKnown | components/application_manager/ait.cpp:1188-1200 | the branch for a known application: what is taken for its descriptors, and where the step ends |
| AitSections.NewCountIsEnough | components/application_manager/ait.cpp:1091-1138 | the second pass never appends more than the first has counted, so the array resized in between is large enough |
| AitDescriptors.ParseApplication | components/application_manager/ait.cpp:886-953 | the TLV loop visits each descriptor once, ends exactly at the given length and applies them in order; its result is what `AitLayout` reads from the raw bytes |
| AitDescriptors.ParseDescriptor | components/application_manager/ait.cpp:886-953 | one descriptor of any kind: its effect on the application, also by tag number and raw bytes |
| AitDescriptors.ParseAppDesc | components/application_manager/ait.cpp:494-564 | profiles, flags, priority and labels as printed, and as they stand at their places in the raw bytes |
| AitDescriptors.ParseAppNameDesc | components/application_manager/ait.cpp:571-628 | the first name descriptor decides, with the name that stands behind its language code |
| AitDescriptors.ParseTransportProtocolDesc | components/application_manager/ait.cpp:636-762 | the chosen slot holds protocol, label and selector as printed and as they stand in the raw bytes |
| AitDescriptors.ParseSimpleAppLocationDesc | components/application_manager/ait.cpp:769-787 | the location is the text of the first such descriptor that is not empty |
| AitDescriptors.ParseSimpleAppBoundaryDesc | components/application_manager/ait.cpp:795-811 | the boundaries as printed and as they stand in the raw bytes are appended |
| AitDescriptors.ParseParentalRatingDesc | components/application_manager/ait.cpp:818-842 | the ratings the loop reads, by country and age in the raw bytes: the last of several is missing unless extra bytes follow |
| AitDescriptors.ParseGraphicsConstraints | components/application_manager/ait.cpp:849-878 | 720 and the line counts of the formats 4, 5 and 6 in the raw bytes, in order |
| AitLookup.AutoStartApp | components/application_manager/ait.cpp:124-210 | the first eligible entry of the highest priority among eligible ones, and none exactly when none is eligible |
| AitLookup.AutoStartExactlyWhen | components/application_manager/ait.cpp:124-210 | these conditions define the choice: the entry picked is the only one that meets them |
| AitLookup.EligibleExactlyWhen | components/application_manager/ait.cpp:124-210 | an entry is considered exactly when it is AUTOSTART, a basic profile of it is at most this device's version compared as a number, its ratings allow it, and a broadband or carousel transport has not failed |
| AitLookup.FindApp | components/application_manager/ait.cpp:245-268 | the first entry with both ids |
| AitLookup.TeletextApp | components/application_manager/ait.cpp:217-236 | the first entry with the teletext usage |
| AitLookup.ExtractProtocolId | components/application_manager/ait.cpp:435-453 | the protocol of the first transport that can be used now, 0 exactly when there is none |
| AitLookup.AppSetTransportFailedToLoad | components/application_manager/ait.cpp:478-487 | exactly the transports of that protocol are marked |
| AitLookup.IsAgeRestricted | components/application_manager/ait.cpp:1238-1276 | restricted exactly when rated and no rating both applies here and allows it |
| AitLookup.RatingsAllowExactlyWhen | components/application_manager/ait.cpp:1238-1276 | allowed exactly when unrated or some DVB rating is for this region, by two or three letters, and for this age or a lower one |
| AitLookup.SameRegionExactlyWhen | components/application_manager/ait.cpp:1238-1276 | regions compare letter by letter in either case, up to a zero character |
| Origin.OriginIsIdempotentExactlyWhen | components/application_manager/utils.cpp:233-350 | taking the origin of an origin changes nothing exactly when "://" was consumed without error, or there is none |
| Origin.OriginIgnoresPath | components/application_manager/utils.cpp:233-350 | nothing behind the slash after the authority matters |
| Origin.OriginOfParts | components/application_manager/utils.cpp:233-350 | the origin of a URL put together from scheme, host, port and path |
| Origin.AbsentPortIsDefaultPort | components/application_manager/utils.cpp:233-350 | a missing port and 80 or 443 give the same origin |
| Origin.SameOriginExactlyWhen | components/application_manager/utils.cpp:183-201 | for all URLs the trimming comparison of origins is equality of the origins without the white space behind an explicit port, where there is an origin |
| Origin.ComparisonIsEqualityExactlyWhen | components/application_manager/utils.cpp:183-201 | so it is equality of origins exactly when the two do not differ in the white space behind a port alone |
| Origin.BoundariesAreCheckedExactlyWhen | components/application_manager/utils.cpp:360-380 | the boundary check is that for equal origins exactly when some origin is equal, or none differs in such white space alone |
| Origin.SpacedPortIsEquated | components/application_manager/utils.cpp:183-201 | two different origins that the comparison equates |
| Origin.SpaceBehindPortIsIgnored | components/application_manager/utils.cpp:183-201 | every URL ending in an explicit port with room for one more character is equated with another origin |
| Origin.StrGetUrlOrigin | components/application_manager/utils.cpp:233-350 | the automaton computes the origin defined by the positions of the separators |
| Origin.CheckBoundaries | components/application_manager/utils.cpp:360-380 | holds exactly when the application URI or some boundary has the same origin |
| IframeConservation.EveryMessageIsInOnePlace | src/mediaproxies/iframeobjectproxy.js:34-255 | after any run each message handed to `postMessage` is queued, in its channel or gone with its document, once; in the channel the first messages have each met one fate and the others are on their way |
| IframeSteps.SettledHandshakesSendTheQueue | src/mediaproxies/iframeobjectproxy.js:34-46 | in any run: when a delivery settles a handshake of a side, its queue is empty and all that waited has gone out behind what was sent before, in order and under the present session |
| IframeSteps.EveryEventDoesItsPart | src/mediaproxies/iframeobjectproxy.js:34-255 | in any run, what each event leaves in channels, queues, open calls and fates: posting, asking, answering, timeouts, handshakes, greeting, reload |
| IframeSteps.DeliveriesAreTheProxys | src/mediaproxies/iframeobjectproxy.js:105-204 | what a delivery does to the receiver is what the proxy object's `Greet` and `OnResponse` do |
| IframeSteps.EventsAreTheProxys | src/mediaproxies/iframeobjectproxy.js:27-167 | what a side does of itself is what the object's `PostMessage`, `MakeAsyncCall`, `InitiateHandshake` and `Invalidate` do |
| IframeFates.DiscardedExactlyWhen | src/mediaproxies/iframeobjectproxy.js:105-204 | over any run: a delivered message is discarded exactly when it was stale then (of another session, an answer to a call not open, or for an unknown observer), and what is not delivered is discarded exactly by a reload of the frame it was on its way to |
| IframeFates.StaleAtTheMainWindowIsOlder | src/mediaproxies/iframeobjectproxy.js:118-134 | what the main window discards for its session was sent in an earlier session |
| IframeOrder.OrderIsKeptExactlyWhen | src/mediaproxies/iframeobjectproxy.js:150-167 | over all runs, reloads included, a side's ordinary messages are sent in the order posted exactly when it never posts one while others wait for a handshake under way |
| IframeOrder.TheFrameKeepsTheOrder | src/mediaproxies/iframeobjectproxy.js:186-201 | the frame's messages always are, whatever is reloaded |
| IframeOrder.OvertakingHappens | src/mediaproxies/iframeobjectproxy.js:34-46 | a run of three events in which a queued message is overtaken |
| IframeSessions.EarlierSessionsAreIgnored | src/mediaproxies/iframeobjectproxy.js:34-52 | once a side is in session k, whatever happens later, all it accepts and all that settles its calls was sent in session k or later |
| IframeSessions.HandshakesTakeANewSession | src/mediaproxies/iframeobjectproxy.js:27-37 | the session of a handshake is no other proxy's and later than that of every message sent |
| IframeSessions.OtherProxiesAreIgnored | src/mediaproxies/iframeobjectproxy.js:118-204 | messages stamped with another proxy's session are discarded |
| IframeSessions.EveryFlushEnds | src/mediaproxies/iframeobjectproxy.js:40-45 | in every run a completed handshake finds the remote window known, so its loop ends |
| IframeCalls.CallsSettleOnceByTheirOwnResponse | src/mediaproxies/iframeobjectproxy.js:105-148 | after any run no call has been settled twice, and each settled call of the main window was settled by a response to that very call |
| IframeCalls.CallIdsAreNeverReused | src/mediaproxies/iframeobjectproxy.js:105-148 | in any run, no two requests of the main window carry the same call id, and none carries one that another proxy of the window took |
| IframeCalls.ResponsesSettleTheirOwnCallExactlyWhen | src/mediaproxies/iframeobjectproxy.js:105-148 | in any run a response settles the call it answers exactly when the receiver's present document made that call |
| IframeCalls.AStaleAnswerCanSettleAnotherCall | src/mediaproxies/iframeobjectproxy.js:25-26 | a run with a reload of the frame in which it does not |
| IframeProxy.IFrameObjectProxy.PostMessage | src/mediaproxies/iframeobjectproxy.js:150-167 | to the channel, stamped with the session, or to the end of the queue |
| IframeProxy.IFrameObjectProxy.FlushPending | src/mediaproxies/iframeobjectproxy.js:40-45 | the loop ends with the queue empty and its messages sent in order |
| IframeProxy.IFrameObjectProxy.MakeAsyncCall | src/mediaproxies/iframeobjectproxy.js:105-148 | a fresh call id, a listener under it, and the request posted |
| IframeProxy.IFrameObjectProxy.InitiateHandshake | src/mediaproxies/iframeobjectproxy.js:34-39 | a fresh session, and the request sent ahead of whatever waits |
| IframeProxy.IFrameObjectProxy.Greet | src/mediaproxies/iframeobjectproxy.js:186-201 | the session adopted, the response sent first, then what waited |
| IframeProxy.IFrameObjectProxy.OnResponse | src/mediaproxies/iframeobjectproxy.js:110-134 | settles an open call of the present session and removes its listener, otherwise nothing |
| SocketThreads.RingIsAQueue | components/mock_dial_service/mongoose.c:777-892 | under every interleaving of the master and any number of workers: sockets are handed out in the order produced, each once, the ring holds exactly the others, and the counters stay within two rings |
| SocketThreads.WorkersServeTheirOwn | components/mock_dial_service/mongoose.c:777-830 | a busy worker serves a socket handed to it, and no two threads are in their critical sections |
| SocketThreads.TestsAreSound | components/mock_dial_service/mongoose.c:787-881 | the source's two assertions hold in every run |
| SocketThreads.TestsDecideExactlyWhen | components/mock_dial_service/mongoose.c:777-892 | in any run the master waits exactly when 20 sockets are queued; a worker waits exactly when none is and the server is not stopping, goes exactly when it is, and otherwise holds the oldest socket |
| SocketThreads.StopIsObeyed | components/mock_dial_service/mongoose.c:777-830 | once the server stops, whatever follows, at most the one socket being taken out is handed out |
| SocketThreads.RunKeeps | components/mock_dial_service/mongoose.c:777-892 | the inductive invariant: mutual exclusion, ranges, what threads have read or written, and the FIFO equation |
| SocketQueue.StoringOverwritesNothing | components/mock_dial_service/mongoose.c:868-892 | writing behind the newest socket touches no queued one and appends one |
| SocketQueue.TakingRemovesTheOldest | components/mock_dial_service/mongoose.c:793-796 | reading at the tail gives the oldest and leaves the rest |
| SocketQueue.WrappingKeeps | components/mock_dial_service/mongoose.c:798-802 | reducing both counters keeps the contents |
| SocketQueue.Context.Produce | components/mock_dial_service/mongoose.c:868-892 | waits exactly when 20 sockets are queued, else appends |
| SocketQueue.Context.Consume | components/mock_dial_service/mongoose.c:777-808 | waits exactly when empty and not stopping, stops when told to, else takes the oldest |
| HttpBody.Connection.Read | components/mock_dial_service/mongoose.c:382-430 | for any length and any behaviour of the socket, all that was returned so far, joined, stays the prefix of the stream of length `consumed_content`, never above `content_len`; less than asked for only at the end of the content or when the socket gives nothing |
| HttpBody.Connection.Discard | components/mock_dial_service/mongoose.c:708-731 | the loop ends with the whole content read or the socket giving nothing, and does nothing without a Content-Length |
| HttpBody.ReadersAgree | components/mock_dial_service/mongoose.c:382-430 | two readers of one body, with any lengths and chunks, have one content between them |
| HttpFraming.ChunkingDoesNotMatterExactlyWhen | components/mock_dial_service/mongoose.c:575-591 | `read_request` finds the same length however the bytes are split into receives, exactly when no forbidden character precedes the first empty line |
| HttpFraming.SpoiledDataCanFail | components/mock_dial_service/mongoose.c:484-503 | otherwise some split makes a good request malformed |
| HttpFraming.PositiveLengthIsTheFirstEmptyLine | components/mock_dial_service/mongoose.c:484-503 | a positive result is the end of the first empty line, and there is one exactly then |
| HttpFraming.EmptyLineBytes | components/mock_dial_service/mongoose.c:484-503 | an empty line is two line feeds in a row or with a carriage return between them |
| HttpFraming.ForbiddenCharacters | components/mock_dial_service/mongoose.c:484-503 | the forbidden characters are the control characters of ASCII but the two of a line break |
| HttpFraming.GetRequestLen | components/mock_dial_service/mongoose.c:484-503 | the loop over the buffer computes that |
| HttpFraming.ReadRequest | components/mock_dial_service/mongoose.c:575-591 | the loop over the socket computes the framing of what fits the buffer, and the buffer holds what was received |
| CiPlusWire.HeaderRoundTripExactlyWhen | src/drmmanager.js:603-617 | command and key of every message that is serialized come back, whatever its data; the CA system's name exactly when it is the canonical name of a number below 65536 |
| CiPlusWire.PayloadRoundTripExactlyWhen | src/drmmanager.js:513-536 | of any string: it can be serialized and comes back as the payload exactly when it is an even number of hexadecimal digits, in lower case, shorter than 65536 bytes |
| CiPlusWire.MessageByPosition | src/drmmanager.js:783-803 | where the fields of a message stand, each number with its highest byte first, and to how many bits it is cut |
| CiPlusWire.PayloadByPosition | src/drmmanager.js:783-803 | hexadecimal data is pushed byte by byte, the higher digit first |
| CiPlusWire.PairsAreParsed | src/drmmanager.js:783-803 | what any two characters of the data are pushed as, digits, signs, space and others |
| CiPlusWire.TransactionSurvives | src/drmmanager.js:608-614 | shifting a signed 32-bit transaction id into bytes and back gives it back, negative ones included |
| CiPlusWire.EntriesAreRecovered | src/drmmanager.js:513-601 | every list of known data types in a message is read back, whatever follows |
| CiPlusWire.ExtractedIsTyped | src/drmmanager.js:513-601 | whatever the message, only values of its kind are filed under a data type |
| CiPlusWire.ExtractDataTypes | src/drmmanager.js:513-601 | the index-advancing loop against its recursive specification for any message: lengths behind its end, not-a-number indices and the throwing branch included |
| CiPlusReplies.RepliesReachTheirSenderExactlyWhen | src/drmmanager.js:629-657 | while message n is open, a reply under its key is reported for n exactly when no message a multiple of 2^32 later has been sent |
| CiPlusReplies.RepliesReachTheirSender | src/drmmanager.js:629-657 | so always with fewer than 2^32 messages |
| CiPlusReplies.RepliesReachTheLastSender | src/drmmanager.js:629-657 | after any run a reply changes nothing, or closes one open message, reporting at most once, with the message id of the last message sent under its key |
| CiPlusReplies.ReplyOutcome | src/drmmanager.js:629-657 | a reply closes its message and is reported, with which code, exactly when there is an agent, a status and a text; the message stays open exactly when it cannot be read or has a status without a text |
| CiPlusReplies.SendOutcome | src/drmmanager.js:340-381 | what is sent is open under its key; what is not uses up its id and is reported with code 3, 5 or not at all |
| CiPlusReplies.AtMostOneResult | src/drmmanager.js:340-381 | in any run no message id is reported twice |
| CiPlusReplies.RepeatedRepliesDoNothing | src/drmmanager.js:629-657 | a reported reply that comes again changes nothing |
| CiPlusReplies.KeysCollideExactlyWhen | src/drmmanager.js:783-803 | two messages have the same key exactly when their numbers differ by a multiple of 2^32 |
| CiPlusAgent.DrmManager.SerializeCiplusMessage | src/drmmanager.js:783-803 | for any data: the bytes pushed one by one are the message, or base64 refuses a negative one; the transaction id advances in 32-bit arithmetic either way |
| CiPlusAgent.DrmManager.SendDRMMessage | src/drmmanager.js:340-381 | a message id for every type, system and data, filed exactly for a CI+ message that can be encoded; the message that goes out carries the key under which its id was filed |
| CiPlusAgent.DrmManager.CommonSend | src/drmmanager.js:457-469 | the message is filed under the new transaction id, unless its data cannot be encoded |
| CiPlusAgent.DrmManager.ProbeContent | src/drmmanager.js:383-441 | takes a transaction id and leaves the table alone, for any data |
| CiPlusAgent.DrmManager.TryNextAppId | src/drmmanager.js:471-511 | the ids tried one after another: the newer, the older, none |
| CiPlusAgent.DrmManager.OnReply | src/drmmanager.js:629-657 | for any reply: reports and closes the open message of its key; the throwing replies leave it open, short and unknown ones change nothing |
| UrlLib.UrlRoundTrip | components/mock_dial_service/url_lib.c:79-99 | decoding an encoded string gives it back, cut at the size allowed |
| UrlLib.CharactersByPosition | components/mock_dial_service/url_lib.c:272-292 | what each character becomes and where it stands: itself, a plus sign, or a percent sign and two digits, the higher first |
| UrlLib.DecodedByPosition | components/mock_dial_service/url_lib.c:46-99 | what each character of an encoded text is decoded to, and that malformed digits end the decoding |
| UrlLib.UrlDecodeTo | components/mock_dial_service/url_lib.c:79-99 | the buffer, the terminator and the result, for malformed input too; nothing behind the terminator is written |
| UrlLib.UrlEncodeTo | components/mock_dial_service/url_lib.c:272-292 | the encoding fits three times the length plus one, and is terminated |
| UrlLib.UrlEncodeIsInjective | components/mock_dial_service/url_lib.c:272-292 | different strings have different encodings |
| UrlLib.EncodedIsUrlSafe | components/mock_dial_service/url_lib.c:272-292 | only unreserved characters, `+` and `%` come out |
| UrlLib.Smartstrncpy | components/mock_dial_service/url_lib.c:35-44 | the longest prefix that fits, terminated, and where the terminator is |
| XmlEscape.XmlEncodeIsLosslessExactlyWhen | components/mock_dial_service/url_lib.c:101-143 | unescaping the output gives the input back exactly when the escaped input is shorter than the size, or just as long with a plain last character |
| XmlEscape.SixTimesIsEnough | components/mock_dial_service/url_lib.c:101-143 | a size above six times the length drops nothing |
| XmlEscape.KeptFits | components/mock_dial_service/url_lib.c:101-143 | never more than the size is written |
| XmlEscape.XmlRoundTrip | components/mock_dial_service/url_lib.c:101-143 | unescaping undoes escaping (section 4.6 of XML 1.0) |
| XmlEscape.ReferencesAreXmls | components/mock_dial_service/url_lib.c:101-143 | exactly the five special characters are escaped, each by its reference in XML |
| XmlEscape.NoMarkupLeft | components/mock_dial_service/url_lib.c:101-143 | no quote or angle bracket survives |
| XmlEscape.XmlEncodeTo | components/mock_dial_service/url_lib.c:101-143 | the buffer holds the escaped kept characters and a terminator within the size; nothing behind it is written |
| Base64.EncodedIsDecoded | src/utils.js:90-118 | a strict decoder recovers every byte string, so the encoder is injective |
| Base64.DecodedIsEncoded | src/utils.js:90-118 | whatever the strict decoder accepts is the encoding of its result |
| Base64.StringIsRecoveredExactlyWhen | src/utils.js:90-118 | a string survives exactly when all its characters are below 256 |
| Base64.SymbolsByPosition | src/utils.js:90-118 | every three bytes are a number, highest byte first, and their four symbols its digits to the base 64 in the alphabet of RFC 4648 |
| Base64.EncodedLength | src/utils.js:90-118 | four characters for every three bytes begun |
| Base64.PaddingExactlyAtTheEnd | src/utils.js:90-118 | padding stands exactly in the last places, as many as bytes are missing |
| Base64.Base64Encode | src/utils.js:90-118 | the loop computes the encoding of the low bytes, for a missing argument that of nothing |

## Left out

- AitSections.Ait.ProcessSection: sections whose inner lengths do not nest, on which the source reads past its buffer, are not modelled.
- AitSections.Ait.ParseSection: sections on which the step over a known entry, taken among new ones, leaves the application loop or lands between two entries, and tables of more than 255 applications, whose 8-bit counters wrap, are not modelled.
- AitReassembly.OrderDoesNotMatter: each application id occurs in one section of the table; otherwise the contents can depend on the order, see `AitIds.ContentsDependOnOrderExactlyWhen`, though the ids cannot, see `AitIds.IdsDoNotDependOnOrder`.
- AitReassembly.FinalTable: each application id occurs in one section, as above.
- AitIds.IdsDoNotDependOnOrder: arrivals on which the parser stays within each section; `AitIds.BroadcastIsCollected` and `AitIds.DescriptorsAreAppliedAgain` give kinds that it does.
- AitDescriptors.ParseAppNameDesc: within a whole section a descriptor holds at most one name, since what is read of more of them depends on the bytes behind it; `AitPrinting.NamesAreReadExactlyWhen` has any number and any bytes behind.
- AitPrinting.NamesAreReadExactlyWhen: names that contain a zero byte, which the loop can take for the length of an empty name.
- AitDescriptors.ParseParentalRatingDesc: descriptors shorter than one rating, of which the source reads four bytes all the same.
- AitDescriptors.ParseTransportProtocolDesc: a transport beyond the two slots, which the source writes behind its array; `AitPrinting.StaysInSlotsExactlyWhen` says when that is.
- AppManager.ApplicationManager.ProcessXmlAit: the boolean result, in which the source stores an application id, and the XML parser, whose result is an input.
- AppManager.ApplicationManager.CreateApplication: the parsing of locators, whose result is an input.
- AppManager.ApplicationManager.CreateAndRunUrl: the AIT description of an application created from a URL is uninitialised memory in the source and an arbitrary value here.
- AppManager.ApplicationManager.RunApp: applications are values in a map the manager owns alone, so no aliasing of application objects is modelled.
- AppManagerRuns.EveryRunIsSafe: services passed in have no id 0xFFFF, the reserved value; the callbacks to the session (load, show, hide, stop broadcast) are not recorded and do not call back.
- AppFallback.FailureChain: without the network the chain need not end, see `AppFallback.UselessFailuresNeverEnd`.
- IframeProtocol.Step: the main window alone starts handshakes, as the source assumes; what observers do with messages, and JSON, are not modelled.
- IframeProxy.IFrameObjectProxy.MakeAsyncCall: the ten seconds of the timeout; a timeout is an event that may come at any time.
- SocketThreads.RingIsAQueue: progress; condition variables may wake a thread at any time, and what is still queued when the server stops is not handed out.
- HttpBody.Connection.Read: lengths of 2^31 and more, which the source casts to `int`.
- CiPlusWire.UrnToInt: white space, signs, a `0x` prefix and numbers beyond 2^53 after the last colon, which `parseInt` treats specially.
- CiPlusWire.Serialized: base64, in which messages travel, and data too long for the arguments of one JavaScript call.
- CiPlusAgent.DrmManager.ProbeContent: the handling of the answer, which the source calls with an argument missing; a DRM system that disappears and comes back.
- Key-set masks, activation, languages of names and the minor protocol version of an application, and the operator application's state transitions and countdown, of which only the initial state can be reached.
- Timeouts and the recursive mutex of the application manager: each call and each timeout is one step.
- The counted and weak listeners of `EventDispatcher` in `src/utils.js`: the counter is the size of a set.
- Bridge, native objects, media elements, WebKit, DIAL handlers, service lookup, logging: forwarding and plumbing that would only add easy members.
