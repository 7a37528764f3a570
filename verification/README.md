# IMS stack: provisioning, negotiation, feature tags, ports, registry and indexes

A Dafny model of the stateful core of the IMS stack, with proofs. `dafny verify dfyconfig.toml` checks all of it.
Each part that updates fields or runs loops in the source is a class or a method here, proved against a function or
a step relation on values; the properties are lemmas about those, for every input or every run.

- **Provisioning** (`Provisioning`, `ProvisioningEffects`, `ProvisioningNotices`, `ProvisioningSafety`, `RefreshSafety`,
  `ProvisioningCounts`, `ProvisioningProgress`, `RetrySchedule`, `InitSchedule`, `SubscriberConfig`, `SubscriberRuns`):
  the asynchronous machine that reads the ISIM. Its environment is free: callbacks, errors, timers, changes of the carrier
  configuration and calls of the application come in any order with any answers. Proved: the effect of every step on
  every field, which steps end provisioning or a refresh, that after an error or a restart every record is read again
  first, when the end is told, that it stays within reach, the balance and a bound of the reads, that the counters stay
  in range, and the exact delays of retries. The class and the helper that queues its messages refine the step relation,
  and a helper with several configurations does a run of its own for each.
- **Offer and answer** (`MediaNego`, `MediaNegoVerdict`, `MediaNegoAgreement`, `OfferAnswer`): when an offer is accepted
  and why it is not, the loop that turns media lines down and the loop that chooses them, when the two agree, and two
  endpoints talking to each other (RFC 3264).
- **Feature tags** (`PercentCoding`, `Feature`, `FeatureSet`, `FeatureText`, `FeatureKinds`): percent coding (section 2.1
  of RFC 3986), what a parsed feature is, equality of features, when the reference-counted set is a multiset, and
  printing and parsing (section 9 of RFC 3840).
- **RTP ports** (`RtpPorts`): the cyclic scan for a free even port.
- **Registry** (`Text`, `ImsProperty`, `QosProperty`, `ServiceIdentifier`, `CoreService`, `AppConfig`,
  `AppConfigOrder`, `AppConfigParts`, `AppConfigMeaning`, `AppConfigResult`, `AppConfigServices`): the texts of properties
  with their round trips, and the two-pass loader, proved independent of where CoreService properties stand and equal to
  separate computations for each service. When creation succeeds and what comes out is read off the texts alone.
- **Printer and indexes** (`PidfWriter`, `PidfReader`, `PidfRoundTrip`, `EventHolder`, `JniConnector`, with `Lists` shared
  by several parts): location documents as XML events with a reader that gives the elements back, the listeners of
  platform events as a set of pairs in the order of registration, and the connector as a plain map.

Where the code does not do what its names or comments promise, the model follows the code, and the condition under
which the promise holds is proved:

- an extra READY notice makes the ISIM be asked twice for one record (`ExtraReadyRepeatsARead`): a record is asked
  for again exactly when a message that says it was answered, or the start message, meets a read that is out
  (`AskedAgainIff`), and never while notices and callbacks come when they are due (`EachRecordIsAskedForOnce`);
- a full reload without the ISIM ends provisioning early (`ReloadEndsProvisioningEarly`, `ProvisioningEndsIff`), where
  a change of the carrier configuration leaves it in provisioning (`CarrierChangeStaysInProvisioning`);
- a read can go through a null ISIM after a recovery (`RecoveryLeadsToNullRead`, `ReadMeetsNullIsimIff`);
- a media line of no known kind can be taken for several kinds (`KindsShareALineIff`) or instead of the one
  negotiated (`AnswerUsesTheNegotiatedLineIff`), a line with port 0 makes its kind lose the lines behind it
  (`KindKeepsAPortIff`), and the next offer may take another line than the answer (`NextOfferUsesTheSameLineIff`,
  `NextOfferOfTheSameKindsIff`);
- crossing offers count as answers (`CrossingOffersAreTakenForAnswers`), and a lost message leaves an end waiting
  (`FailedDeliveryLeavesBothWaiting`): the two ends never both wait exactly in careful runs (`NeverBothWaitIffCareful`);
- identifiers with and without angle brackets make equality asymmetric (`EqualsIsSymmetricIff`), and a set counts
  right exactly where equality is an equivalence (`FeatureSetIsAMultisetIff`, `EqualsIsAnEquivalenceIff`); the
  constructor with values does not look for equal ones (`ConstructorAddsAllIff`);
- the tags of the sip tree cannot be used: the parsed feature loses the prefix, and its set turns it away
  (`ParsedIsEmptyIff`, `SipAudioIsLost`); a boolean loses its value when printed, so that a false one becomes true
  (`BooleanRoundTripIff`);
- a stray percent sign hides the escape behind it (`StrayPercentHidesAnEscape`, `EscapeDecodesTo`), and
  bytes above 127 do not survive percent coding where characters are signed (`DecodeUndoesEncode`, `ParseUndoesPrint`);
- equal port bounds and a range from 0 are special (`AcquireKeepsDistinctIff`, `RangeFromZeroIsSureIff`);
- the receiving flow of a Qos property is the sending one (`ReceiveIsAsAskedIff`), repeated writable headers are
  accepted (`RepeatedWriteHeadersAreAccepted`), and the feature-tag field also holds the ICSIs
  (`TagFieldRoundTripIff`), so that a service with ICSIs is not read back as written (`CorePropertyRoundTripIff`).

## Model

| member | source | states |
|---|---|---|
| ProvisioningSafety.EveryRunFromLoadIsSound | native/libimsstack/config/common/SubscriberConfig.cpp:182-2365 | from every load and over every run: both retry counters stay in range, so the interval tables are read in bounds; every delay put in a timer lies in 1 to 60 seconds; a record is asked for only when each record due before it is set, P-CSCF never before the service table |
| ProvisioningSafety.SoundStep | native/libimsstack/config/common/SubscriberConfig.cpp:252-452 | one step of any kind keeps that invariant |
| ProvisioningSafety.NextIsInOrder | native/libimsstack/config/common/SubscriberConfig.cpp:2160-2341 | the record read next is unset, due, and every earlier due record is set |
| ProvisioningSafety.ProvisionedOnlyByCompleteRead | native/libimsstack/config/common/SubscriberConfig.cpp:277-327 | in every run that keeps the ISIM in use, provisioning ends only in the read step with every configured record set, every other way into the provisioned state leaves a refresh, and completion is told right after such a read and never otherwise |
| ProvisioningSafety.LegalStep | native/libimsstack/config/common/SubscriberConfig.cpp:252-452 | one step keeps the log of state changes and notices within those rules |
| ProvisioningSafety.ProvisioningEndsIff | native/libimsstack/config/common/SubscriberConfig.cpp:252-452 | a step takes the machine from provisioning to the provisioned state exactly when it delivers the read message with the ISIM in use and every configured record set, or is a full reload, by message or by refresh, that finds no ISIM in the carrier configuration |
| ProvisioningSafety.ProvisioningEndsOnlyThere | native/libimsstack/config/common/SubscriberConfig.cpp:182-2365 | this holds at every step of every run from every load, whatever the carrier configuration answers at any time |
| ProvisioningSafety.CarrierChangeStaysInProvisioning | native/libimsstack/config/common/SubscriberConfig.cpp:1328-1361 | a change of the carrier configuration that drops the ISIM leaves the machine in provisioning, with records and messages as they were; over every run from there provisioning does not end until everything is reloaded or the ISIM is configured again |
| ProvisioningSafety.ReloadEndsProvisioningEarly | native/libimsstack/config/common/SubscriberConfig.cpp:366-384 | a full reload without the ISIM ends provisioning with records missing: the premise of ProvisionedOnlyByCompleteRead is needed |
| ProvisioningCounts.StepAddsExactly | native/libimsstack/config/common/SubscriberConfig.cpp:252-452 | what each step adds to the reads asked for, of every record and in all, to the ends of provisioning, to the notices of completion and to the reads through a null ISIM |
| ProvisioningCounts.ReadMeetsNullIsimIff | native/libimsstack/config/common/SubscriberConfig.cpp:2160-2173 | a read goes through a null ISIM exactly when a read message is acted on, nothing being out or the message saying it was answered, while the ISIM was not found when last looked for |
| ProvisioningCounts.RecoveryLeadsToNullRead | native/libimsstack/config/common/SubscriberConfig.cpp:1932-1960 | and this does happen: after a recovery that does not find the ISIM, at the answer to an earlier read |
| ProvisioningCounts.CompletionIsToldIff | native/libimsstack/config/common/SubscriberConfig.cpp:277-327 | completion is told exactly when provisioning ends by a complete read, or a message asks for it, and somebody listens |
| ProvisioningCounts.RefreshCompletionIsToldIff | native/libimsstack/config/common/SubscriberConfig.cpp:277-327 | the completion of a refresh is told exactly at a complete read outside provisioning, or when a message asks for it, and somebody listens |
| RefreshSafety.RefreshEndsIff | native/libimsstack/config/common/SubscriberConfig.cpp:252-452 | exactly which steps lead from a refresh to the provisioned state: a complete read, a refused read of an identity or an error that gives it up, and a reload without the ISIM; and exactly which lead back to provisioning |
| RefreshSafety.EveryRefreshEndsOnlyThere | native/libimsstack/config/common/SubscriberConfig.cpp:182-2365 | this holds at every step of every run, from any state |
| ProvisioningEffects.StepIs | native/libimsstack/config/common/SubscriberConfig.cpp:252-452 | every field after every step, read off the event, the answers and the fields before: which records are set and forgotten, when a read is out and when the wait for it is given up, which error is reported and cleared, counters, timers, listeners, flags, and the messages posted |
| ProvisioningEffects.ModeIs | native/libimsstack/config/common/SubscriberConfig.cpp:252-452 | the mode after every step in the same terms: exactly which steps begin provisioning, begin a refresh, and end either |
| ProvisioningEffects.ErrorForgetsRecords | native/libimsstack/config/common/SubscriberConfig.cpp:1599-1671 | an error of an ISIM in use, other than the three of registration refresh, channel and refresh, leaves no configured record set and nothing out, and the other records as they were; those three, and any error without an ISIM in use, leave the reading as it was |
| ProvisioningEffects.EndsOnlyWhenReadAgain | native/libimsstack/config/common/SubscriberConfig.cpp:277-327 | over every run after such an error, provisioning or a refresh ends by a complete read only when every record configured then was set again since the error |
| ProvisioningEffects.RenewalEndsOnlyWhenReadAgain | native/libimsstack/config/common/SubscriberConfig.cpp:277-327 | the same after a restart or refresh of the ISIM, a refresh message that renews the records, and a full refresh |
| ProvisioningNotices.HeardIs | native/libimsstack/config/common/SubscriberConfig.cpp:252-452 | exactly what every step tells the listeners, of completion, of a refresh and of errors, and exactly which timers it sets with which delay |
| ProvisioningProgress.FaultFreeStep | native/libimsstack/config/common/SubscriberConfig.cpp:252-452 | what a fault-free step does to records, queue and mode, with the invariant of fault-free runs kept |
| ProvisioningProgress.AccountStep | native/libimsstack/config/common/SubscriberConfig.cpp:2160-2341 | in each such step, reads asked for, records left and the read that is out balance but for reads given up and records set unasked |
| ProvisioningProgress.LoadStep | native/libimsstack/config/common/SubscriberConfig.cpp:2160-2341 | what can still be asked for falls with every read, and rises by one at most, for a notice or stale callback that comes while something is under way |
| ProvisioningProgress.ProgressStep | native/libimsstack/config/common/SubscriberConfig.cpp:252-452 | deliveries of work and callbacks that set a record wear down records and messages, and only notices and stale callbacks add to them |
| ProvisioningProgress.UnderWayStep | native/libimsstack/config/common/SubscriberConfig.cpp:277-327 | reading under way stays so until provisioning has ended |
| ProvisioningProgress.NeverStuck | native/libimsstack/config/common/SubscriberConfig.cpp:2160-2341 | while provisioning has not ended there is always a fault-free step that goes on: the oldest message, the awaited callback, or a notice or the start when nothing is under way |
| ProvisioningProgress.CanComplete | native/libimsstack/config/common/SubscriberConfig.cpp:277-327 | from every state a fault-free run can be in, a fault-free run to the provisioned state |
| ProvisioningProgress.BootIsFaultFree | native/libimsstack/config/common/SubscriberConfig.cpp:2051-2157 | start message, INIT notice and the message it posts form such a run from every load; an ISIM that is ready then is being read, any other one after its READY notice |
| ProvisioningProgress.ProvisioningIsAccountedFor | native/libimsstack/config/common/SubscriberConfig.cpp:277-327 | in every run from load without errors, refusals, restarts, refreshes or loss of the ISIM, with harmless events in any order: the machine is in provisioning or provisioned with every record set, provisioning has ended once exactly in the latter case and was told as often to whoever listened, and the reads balance |
| ProvisioningProgress.ReadsAreBounded | native/libimsstack/config/common/SubscriberConfig.cpp:2160-2341 | in every such run at most one read for each of the at most five configured records, and one more for each notice or stale callback that came while something was under way |
| ProvisioningProgress.EachRecordIsAskedForOnce | native/libimsstack/config/common/SubscriberConfig.cpp:2160-2341 | an ISIM that sends notices only while nothing is under way, and calls back only for the read that is out, is asked for each record at most once in every such run, and for no more than the configured records in all |
| ProvisioningProgress.AskedForOnceUnlessGivenUp | native/libimsstack/config/common/SubscriberConfig.cpp:2160-2341 | in every such run in which no read is given up, each record is asked for at most once |
| ProvisioningProgress.ProgressIsBounded | native/libimsstack/config/common/SubscriberConfig.cpp:252-452 | in every such run at most two steps of progress for each configured record and one for each notice and stale callback |
| ProvisioningProgress.ReadingGoesOnToTheEnd | native/libimsstack/config/common/SubscriberConfig.cpp:277-327 | in every such run reading stays under way until provisioning has ended, and the end stays within reach |
| ProvisioningProgress.AskedAgainIff | native/libimsstack/config/common/SubscriberConfig.cpp:281-287 | while a read is out, its record is asked for again exactly when a read message that says it was answered, or the start message, is delivered |
| ProvisioningProgress.ExtraReadyRepeatsARead | native/libimsstack/config/common/SubscriberConfig.cpp:1735-1742 | and this does happen: one READY notice too many, at the start of any reading, makes the machine give up the second read and ask again |
| ProvisioningProgress.RefreshBegins | native/libimsstack/config/common/SubscriberConfig.cpp:1673-1792 | the notices of an ISIM that refreshes, has refreshed or has restarted lead to a refresh, with all records due again in the last two cases, from which the theorems on fault-free runs hold |
| ProvisioningProgress.RefreshIsAccountedFor | native/libimsstack/config/common/SubscriberConfig.cpp:277-327 | in every fault-free run of a refresh: it goes on or has ended once with every record set, was told as often to whoever listened besides the notices asked for by message, reads no more than is due and interfering events bring, and its end stays within reach |
| RetrySchedule.PlanIsClosedForm | native/libimsstack/config/common/SubscriberConfig.cpp:2088-2137 | one failed Start plans the delay of the closed form for its number |
| RetrySchedule.QuietStep | native/libimsstack/config/common/SubscriberConfig.cpp:252-452 | a step without a successful Start or a reset either leaves counters and planned delays alone or counts one failure with its closed-form delay |
| RetrySchedule.NthDelay | native/libimsstack/config/common/SubscriberConfig.cpp:2051-2157 | with counters at zero, the n-th failed Start of every such run plans 1, 1, 2, 2, 4 seconds by n modulo 6, and min(60, 10 n / 6) when 6 divides n |
| InitSchedule.KeepsCountStep | native/libimsstack/config/common/SubscriberConfig.cpp:1932-1996 | a step that does not reset the count of failed Init calls either counts one and asks for its delay, or leaves both alone |
| InitSchedule.NthInitDelay | native/libimsstack/config/common/SubscriberConfig.cpp:1932-1996 | over every run of such steps the delays asked for are those of the failed Init calls in turn, and nothing else asks for the Init timer |
| InitSchedule.InitDelaysFromLoad | native/libimsstack/config/common/SubscriberConfig.cpp:1932-1996 | from every load the n-th failed Init asks for 2, 2, 4, 8, 16, 32 and then always 60 seconds |
| Subscriber.AsyncConfigHelper.Register | native/libimsstack/config/common/AsyncConfigHelper.cpp:61-69 | a configuration is listed once; the others stay |
| Subscriber.AsyncConfigHelper.Unregister | native/libimsstack/config/common/AsyncConfigHelper.cpp:97-109 | the configuration leaves the list, and the others stay in their order |
| Subscriber.AsyncConfigHelper.SendTo | native/libimsstack/config/common/AsyncConfigHelper.cpp:72-94 | a message is queued last, exactly for listed configurations |
| Subscriber.AsyncConfigHelper.OnMessage | native/libimsstack/config/common/AsyncConfigHelper.cpp:112-146 | the oldest message does to its configuration what the delivery step does, or is dropped when it is gone; every other configuration keeps its whole state |
| Subscriber.AsyncConfigHelper.IsRegisteredConfig | native/libimsstack/config/common/AsyncConfigHelper.cpp:149-162 | found exactly when listed |
| Subscriber.SubscriberConfig.constructor | native/libimsstack/config/common/SubscriberConfig.cpp:34-70 | the state the step relation starts from |
| Subscriber.SubscriberConfig.InitProvisioning | native/libimsstack/config/common/SubscriberConfig.cpp:1932-1996 | refines the step: a failed Init is counted and retried after the table's delay |
| Subscriber.SubscriberConfig.StartProvisioning | native/libimsstack/config/common/SubscriberConfig.cpp:2051-2157 | refines the step: a failed Start plans a retry, a successful one may start reading |
| Subscriber.SubscriberConfig.PlanStartRetry | native/libimsstack/config/common/SubscriberConfig.cpp:2088-2137 | refines the step with both counters and the escalation to a new Init |
| Subscriber.SubscriberConfig.ReadIsimProvisioning | native/libimsstack/config/common/SubscriberConfig.cpp:2160-2341 | refines the step: one read at a time, in the fixed order |
| Subscriber.SubscriberConfig.RecoverIsimProvisioning | native/libimsstack/config/common/SubscriberConfig.cpp:2344-2365 | refines the step that gives up a refresh |
| Subscriber.SubscriberConfig.RefreshIsimProvisioning | native/libimsstack/config/common/SubscriberConfig.cpp:2368-2410 | refines the refresh of the records |
| Subscriber.SubscriberConfig.ReadFrom | native/libimsstack/config/common/SubscriberConfig.cpp:497-637 | refines the state changes of loading the carrier configuration |
| Subscriber.SubscriberConfig.UpdateAllConfigs | native/libimsstack/config/common/SubscriberConfig.cpp:2501-2516 | refines loading followed by a refresh message |
| Subscriber.SubscriberConfig.OnReadRecord | native/libimsstack/config/common/SubscriberConfig.cpp:277-327 | refines the message that ends provisioning or reads on |
| Subscriber.SubscriberConfig.HandleMessage | native/libimsstack/config/common/SubscriberConfig.cpp:252-452 | refines the dispatch of all messages |
| Subscriber.SubscriberConfig.OnIdentity | native/libimsstack/config/common/SubscriberConfig.cpp:1471-1597 | refines the callbacks for the identity records |
| Subscriber.SubscriberConfig.OnField | native/libimsstack/config/common/SubscriberConfig.cpp:1363-1469 | refines the callbacks for service table and P-CSCF |
| Subscriber.SubscriberConfig.OnError | native/libimsstack/config/common/SubscriberConfig.cpp:1599-1671 | refines the error callback, whose effect on the records is ErrorForgetsRecords |
| Subscriber.SubscriberConfig.OnStateChanged | native/libimsstack/config/common/SubscriberConfig.cpp:1673-1792 | refines the state callback |
| Subscriber.SubscriberConfig.TimerExpired | native/libimsstack/config/common/SubscriberConfig.cpp:1794-1816 | refines both timers |
| Subscriber.SubscriberConfig.CarrierConfigChanged | native/libimsstack/config/common/SubscriberConfig.cpp:1328-1361 | refines the change of the carrier configuration |
| Subscriber.SubscriberConfig.Refresh | native/libimsstack/config/common/SubscriberConfig.cpp:182-212 | refines the full refresh with its counters and timers reset |
| Subscriber.SubscriberConfig.SetListener | native/libimsstack/config/common/SubscriberConfig.cpp:471-495 | refines adding a listener and telling it a standing error |
| Subscriber.SubscriberConfig.RemoveListener | native/libimsstack/config/common/SubscriberConfig.cpp:454-469 | refines removing the first occurrence of a listener |
| Subscriber.SubscriberConfig.SendMessage | native/libimsstack/config/common/SubscriberConfig.cpp:2486-2498 | a message goes to the end of this configuration's queue |
| Subscriber.SubscriberConfig.UpdateSubscriber | native/libimsstack/config/common/SubscriberConfig.cpp:1298-1302 | refines the reload asked for by message |
| SubscriberRuns.Serve | native/libimsstack/config/common/AsyncConfigHelper.cpp:112-146 | whatever messages the helper takes and whatever happens to its configurations, in any order: each configuration does a run of its own, of exactly the events that happen to it, with deliveries in between, so what holds of every run holds of each; the invariant of EveryRunFromLoadIsSound is stated so |
| SubscriberRuns.OwnRunGrows | native/libimsstack/config/common/AsyncConfigHelper.cpp:112-146 | one call makes a configuration's own run longer by the event that happens to it, by a delivery if the oldest message is its own, or not at all |
| MediaNegos.MediaNego.SetSessionType | native/libimsstack/enabler/media/MediaNego.cpp:973-1013 | the kinds asked for are those of the lines with a port, unless a descriptor is missing |
| MediaNegos.MediaNego.JudgeLines | native/libimsstack/enabler/media/MediaNego.cpp:569-666 | the loop turns down exactly the lines of the wrong IP version and the lines whose kind is already taken, reports the kinds taken and the last complaint |
| MediaNegos.MediaNego.NegotiateSDP | native/libimsstack/enabler/media/MediaNego.cpp:546-732 | lines, session type, result with its reason, and the state switch of negotiating what was received |
| MediaNegos.MediaNego.GetMediaList | native/libimsstack/enabler/media/MediaNego.cpp:917-970 | an offer gets at least one line for each kind |
| MediaNegos.MediaNego.ChooseInOrder | native/libimsstack/enabler/media/MediaNego.cpp:191-211 | a first offer gives the lines to the kinds in order |
| MediaNegos.MediaNego.ChooseLines | native/libimsstack/enabler/media/MediaNego.cpp:212-329 | the choosing loop, with early failure on a line without description |
| MediaNegos.MediaNego.ChooseForOther | native/libimsstack/enabler/media/MediaNego.cpp:279-323 | a line of no known kind goes to all kinds that need one, or with port 0 in an answer to the first only |
| MediaNegos.MediaNego.FormSDP | native/libimsstack/enabler/media/MediaNego.cpp:125-435 | lines chosen, result, and the state switch of forming an offer or answer; refused while an offer is out |
| MediaNegos.MediaNego.Forking | native/libimsstack/enabler/media/MediaNego.cpp:93-122 | a forked negotiation waits for an answer; without one to fork from nothing changes |
| MediaNegos.MediaNego.CreateProfile | native/libimsstack/enabler/media/MediaNego.cpp:67-90 | the profile that forming and negotiating ask for is there after a call with an environment, and stays |
| MediaNegoVerdicts.AskedForIff | native/libimsstack/enabler/media/MediaNego.cpp:973-1013 | a kind is asked for exactly when one of its lines has a port other than -1, or a descriptor is missing and it was asked for before |
| MediaNegoVerdicts.NegotiationSucceedsIff | native/libimsstack/enabler/media/MediaNego.cpp:668-732 | negotiation succeeds exactly when it is configured, a call for audio finds an audio line with a port 0 or an address of the IP version in use and an audio codec in use, and some direction is valid, that of audio only with such a line; and the exact reason of every failure, for want of a configuration that of the last line complained of |
| MediaNegoVerdicts.TurnedDownIff | native/libimsstack/enabler/media/MediaNego.cpp:569-666 | exactly the lines with a port and an address of the other IP version, and those of a known kind behind a usable line of that kind, lose port and attributes, and keep the rest |
| MediaNegoVerdicts.NeededIff | native/libimsstack/enabler/media/MediaNego.cpp:156-181 | the kinds formed are those asked for, and in an established session those in use |
| MediaNegoVerdicts.HasLineChosenIff | native/libimsstack/enabler/media/MediaNego.cpp:212-329 | a kind gets a line exactly when some line is of it, or of no known kind while the kind is needed; one with port 0 in an answer only when every needed kind before it has a line already |
| MediaNegoVerdicts.FormsIff | native/libimsstack/enabler/media/MediaNego.cpp:125-435 | an offer or answer is formed exactly when no kind with a line fails and, but for a first offer, every line has its media description |
| MediaNegoAgreements.OnlyTheNegotiatedKeepsItsPort | native/libimsstack/enabler/media/MediaNego.cpp:569-666 | after judging, number, order and kinds are unchanged, the negotiated line is untouched, and any line of a known kind with a port is the negotiated one |
| MediaNegoAgreements.OnePortForEachKind | native/libimsstack/enabler/media/MediaNego.cpp:607-665 | at most one line of each known kind keeps a port |
| MediaNegoAgreements.KindKeepsAPortIff | native/libimsstack/enabler/media/MediaNego.cpp:607-665 | a kind keeps a line with a port exactly when the line negotiated for it has one |
| MediaNegoAgreements.LineWithoutPortEndsItsKind | native/libimsstack/enabler/media/MediaNego.cpp:607-665 | so a line with port 0 makes its kind lose every line behind it |
| MediaNegoAgreements.ChoiceStands | native/libimsstack/enabler/media/MediaNego.cpp:218-328 | a kind's choice stands exactly from the first line that takes it, and is that line |
| MediaNegoAgreements.AnswerUsesTheNegotiatedLineIff | native/libimsstack/enabler/media/MediaNego.cpp:212-329 | when the negotiated line has a port, the answer uses it for its kind exactly when the kind is not needed or no usable line without a known kind comes before it |
| MediaNegoAgreements.AnswerToKnownKinds | native/libimsstack/enabler/media/MediaNego.cpp:212-329 | with known kinds only: the answer has a line for exactly the kinds offered, the negotiated one if that has a port and the last one of the kind otherwise |
| MediaNegoAgreements.RetypedTo | native/libimsstack/enabler/media/MediaNego.cpp:279-323 | a line of no known kind becomes one of the last kind that takes it for good, and every other line stays as it is |
| MediaNegoAgreements.NextOfferUsesTheSameLineIff | native/libimsstack/enabler/media/MediaNego.cpp:158-329 | the next offer, whatever it needs and whatever lines are created for it, uses the line of the answer for a kind exactly when that line still takes the kind after the answer and no earlier one does |
| MediaNegoAgreements.NextOfferOfTheSameKindsIff | native/libimsstack/enabler/media/MediaNego.cpp:158-329 | for the kinds of the answer: exactly when that line is the first one of the kind, or of no known kind for one that is needed, with or without a port, and either is of the kind or is shared by no later kind |
| MediaNegoAgreements.NextOfferOfKnownKinds | native/libimsstack/enabler/media/MediaNego.cpp:158-329 | with known kinds only: exactly when the first line of the kind is the negotiated one, or without a port there the last one of the kind |
| MediaNegoAgreements.NextOfferBringsADisabledLineBack | native/libimsstack/enabler/media/MediaNego.cpp:158-329 | it can differ: a line with port 0 comes back before the one that replaces it |
| MediaNegoAgreements.NextOfferLeavesASharedLine | native/libimsstack/enabler/media/MediaNego.cpp:279-323 | and a line of no known kind that two kinds share is left to the later one |
| MediaNegoAgreements.ChoosingKeepsTheLines | native/libimsstack/enabler/media/MediaNego.cpp:218-328 | choosing changes nothing but the kind of lines without a known one, and those only to needed kinds |
| MediaNegoAgreements.KindsShareALineIff | native/libimsstack/enabler/media/MediaNego.cpp:218-328 | two kinds are given one line exactly when both are needed, and the first usable line of no known kind comes before every usable line of theirs |
| MediaNegoAgreements.OneUnknownLineForTwoKinds | native/libimsstack/enabler/media/MediaNego.cpp:279-323 | and this does happen in an answer, for any two needed kinds |
| MediaNegoAgreements.FirstOfferGivesEachKindItsLine | native/libimsstack/enabler/media/MediaNego.cpp:191-211 | in a first offer a kind has a line exactly when it is asked for and there is a line with a descriptor at its place in the order audio, video, text, be it one of the session or one created, which some service types do without |
| MediaNegoAgreements.FirstOfferKeepsTheOrder | native/libimsstack/enabler/media/MediaNego.cpp:191-211 | no two kinds are given the same line, and the order is that of the kinds |
| OfferAnswers.OffersAreAnsweredInTurn | native/libimsstack/enabler/media/MediaNego.cpp:418-431 | in every orderly run of two endpoints they never both wait, every offer is answered by the other end before the next, and with nothing on its way they are negotiated together, exactly when every offer is answered |
| OfferAnswers.MessagesAreTakenForWhatTheyAre | native/libimsstack/enabler/media/MediaNego.cpp:709-722 | in orderly runs an endpoint takes exactly the answers for answers |
| OfferAnswers.SomethingCanHappen | native/libimsstack/enabler/media/MediaNego.cpp:140-143 | an orderly run is never stuck |
| OfferAnswers.NeverBothWaitIffCareful | native/libimsstack/enabler/media/MediaNego.cpp:140-143 | over all runs, with failed deliveries or without: both ends never wait together exactly when nothing is sent while something is on its way or after something was lost |
| OfferAnswers.NeverBothWaitIffOrderly | native/libimsstack/enabler/media/MediaNego.cpp:140-143 | so among runs with successful deliveries, exactly when nothing is sent while something is on its way |
| OfferAnswers.CrossingOffersAreTakenForAnswers | native/libimsstack/enabler/media/MediaNego.cpp:709-722 | two crossing offers leave both ends negotiated although nothing was answered |
| OfferAnswers.FailedDeliveryLeavesBothWaiting | native/libimsstack/enabler/media/MediaNego.cpp:701-707 | whatever is lost, at whatever time of an orderly run: the next thing that is sent makes both ends wait, and until then nothing happens any more |
| PercentCoding.DoPercentEncoding | native/libimsstack/config/common/Feature.cpp:436-460 | the loop computes the encoding, for signed and for unsigned characters |
| PercentCoding.DoPercentDecoding | native/libimsstack/config/common/Feature.cpp:403-433 | the loop computes the decoding, with its skip of two characters |
| PercentCoding.DecodeUndoesEncode | native/libimsstack/config/common/Feature.cpp:403-460 | decoding undoes encoding for every text of bytes when characters are unsigned, and exactly for texts without bytes above 127 when they are signed |
| PercentCoding.EncodedIsInert | native/libimsstack/config/common/Feature.cpp:436-460 | an encoded text holds no comma, quote, equals sign, white space or angle bracket |
| PercentCoding.PlainIff | native/libimsstack/config/common/Feature.cpp:436-460 | exactly letters, digits and eight more characters are not encoded |
| PercentCoding.HexTextIs | native/libimsstack/platform/util/TextParser.cpp:97-162 | which texts are the number of a character, and which number, in either case of the digits |
| PercentCoding.EscapeDecodesTo | native/libimsstack/config/common/Feature.cpp:403-433 | of any text, an escape with two hexadecimal digits becomes its character, negative ones excepted; any other three characters from a percent sign on stay, and decoding goes on behind them |
| PercentCoding.ShortEscapeStays | native/libimsstack/config/common/Feature.cpp:403-433 | a percent sign with less than two characters behind it stays |
| PercentCoding.StrayPercentHidesAnEscape | native/libimsstack/config/common/Feature.cpp:412-429 | so an escape right behind a stray percent sign is not decoded |
| Features.EqualsIsSameKey | native/libimsstack/config/common/Feature.cpp:115-195 | for features whose case flag follows from kind and tag, equality is the sameness of a key, where an absent Boolean value is TRUE |
| Features.EqualsIsAnEquivalence | native/libimsstack/config/common/Feature.cpp:115-195 | hence an equivalence |
| Features.EqualsIsSymmetricIff | native/libimsstack/config/common/Feature.cpp:115-195 | exactly which pairs are equal one way round only |
| Features.EqualsIsAnEquivalenceIff | native/libimsstack/config/common/Feature.cpp:115-195 | exactly on which sets of features equality is an equivalence |
| Features.SameFlagsMakeAnEquivalence | native/libimsstack/config/common/Feature.cpp:115-195 | it is where features of one kind and tag have one flag, identifiers that are all in angle brackets included, and equality is then the sameness of keys |
| Features.AnglesBreakSymmetry | native/libimsstack/config/common/Feature.cpp:345-352 | such a pair |
| Features.ExtractedIsRegularIff | native/libimsstack/config/common/Feature.cpp:317-400 | a parsed feature has the flag its kind and tag ask for, exactly unless it is an IARI or ICSI in angle brackets |
| FeatureKinds.KindOfValueIff | native/libimsstack/config/common/Feature.cpp:334-367 | the kind of a value: a boolean by its text, a string by its angle brackets, a number by the sign in front, and else a token |
| FeatureKinds.IdentifierIs | native/libimsstack/config/common/Feature.cpp:317-400 | an IARI or ICSI by its tag ignoring case, with its value decoded |
| FeatureKinds.OtherFeatureIs | native/libimsstack/config/common/Feature.cpp:317-400 | any other feature by its value, case sensitive in angle brackets or with the tag of methods, and without the prefix of a tag of the sip tree |
| FeatureKinds.OtherFeatureRoundTrip | native/libimsstack/config/common/Feature.cpp:227-257 | a printed feature that is neither identifier nor boolean is read back as it was |
| FeatureKinds.BooleanRoundTripIff | native/libimsstack/config/common/Feature.cpp:227-257 | a printed boolean, which is its tag alone, equals what it was exactly when it was true |
| FeatureSets.FeatureSetIsAMultiset | native/libimsstack/config/common/Feature.cpp:724-808 | for every run from a well-formed list, over features on which equality is an equivalence: no two listed features are equal, each is referred to, and the references are the additions less the removals that find something |
| FeatureSets.FeatureSetIsAMultisetIff | native/libimsstack/config/common/Feature.cpp:724-808 | every run over some features keeps that account exactly when equality is an equivalence on those the set accepts |
| FeatureSets.ListedHaveTheTag | native/libimsstack/config/common/Feature.cpp:724-808 | after every run from a list where that holds, the empty one included, each listed feature has the tag of the set ignoring case |
| FeatureSets.AddListsIff | native/libimsstack/config/common/Feature.cpp:724-808 | a call whose feature has another tag, ignoring case, leaves the list as it is; an addition with the tag lists the feature last unless an equal one is there |
| FeatureSets.IrregularFeaturesDependOnOrder | native/libimsstack/config/common/Feature.cpp:724-748 | two features that are equal one way round only are listed once or twice, depending on the order of the calls |
| FeatureSets.ConstructorKeepsDuplicates | native/libimsstack/config/common/Feature.cpp:751-776 | the list that the constructor with values makes is well formed exactly when no two of its features are equal |
| FeatureSets.ConstructorAddsAllIff | native/libimsstack/config/common/Feature.cpp:751-776 | it is the list that adding the values one by one makes, exactly when every one has the tag of the set and none equals an earlier one |
| FeatureSets.FeatureSet.WithValues | native/libimsstack/config/common/Feature.cpp:520-525 | the set with one feature for each value in the text, in order |
| FeatureSets.FeatureSet.AddFeatures | native/libimsstack/config/common/Feature.cpp:751-776 | the values, with or without quotes around them all, are split at commas and appended |
| FeatureSets.FeatureSet.Contains | native/libimsstack/config/common/Feature.cpp:563-576 | found exactly when an equal feature is listed |
| FeatureSets.FeatureSet.Lookup | native/libimsstack/config/common/Feature.cpp:602-621 | the first equal entry, taken out on request when it is held once |
| FeatureSets.FeatureSet.AddFeature | native/libimsstack/config/common/Feature.cpp:724-748 | the new list and which of the three outcomes it was |
| FeatureSets.FeatureSet.RemoveFeature | native/libimsstack/config/common/Feature.cpp:779-808 | the new list and which of the outcomes it was |
| FeatureText.ToString | native/libimsstack/config/common/Feature.cpp:640-681 | the loop prints the set |
| FeatureText.FromServiceIdentifier | native/libimsstack/config/common/Feature.cpp:683-721 | the loop parses a set |
| FeatureText.MadeFromEncoded | native/libimsstack/config/common/Feature.cpp:317-400 | an encoded identifier value, parsed with its tag, is the value again exactly unless it is empty and not null, or holds a byte above 127 where characters are signed |
| FeatureText.ParseUndoesPrint | native/libimsstack/config/common/Feature.cpp:640-721 | for every non-empty ICSI or IARI list: printing and parsing gives the same values in the same order exactly when no two differ in case alone and every one comes back by itself, so with signed characters none may hold a byte above 127 |
| FeatureText.PlainSetsDiffer | native/libimsstack/config/common/Feature.cpp:724-748 | in well-formed lists without angle-bracket values no two values differ in case alone |
| FeatureText.IdentifierValueNeverEmpty | native/libimsstack/config/common/Feature.cpp:379-391 | a parsed identifier never has an empty value that is not null |
| FeatureKinds.TagIsKeptIff | native/libimsstack/config/common/Feature.cpp:317-400 | a feature made of a tag and a value has that tag exactly when one of them is there, no blank surrounds the tag, and it is not of the sip tree |
| FeatureKinds.ParsedValuesAre | native/libimsstack/config/common/Feature.cpp:696-718 | what is behind the equals sign is split at commas, without one pair of quotes around it all |
| FeatureKinds.ParsedIsEmptyIff | native/libimsstack/config/common/Feature.cpp:683-721 | the set parsed from a name is empty exactly when its tag has blanks around it, is of the sip tree, or is empty with empty values |
| FeatureKinds.SipAudioIsLost | native/libimsstack/config/common/Feature.cpp:690-695 | and so it is for the tag of audio in the sip tree |
| RtpPorts.ScanOutcome | native/libimsstack/enabler/media/MediaResourceManager.cpp:103-137 | the scan terminates with the first unused even port from where it is, or with 0 when all are used |
| RtpPorts.StartIsFirstEven | native/libimsstack/enabler/media/MediaResourceManager.cpp:90-97 | the scan begins at the first even port from the random place on |
| RtpPorts.CanStartIff | native/libimsstack/enabler/media/MediaResourceManager.cpp:90-97 | it can begin at exactly the even ports of the range |
| RtpPorts.AcquireIsCompleteAndFresh | native/libimsstack/enabler/media/MediaResourceManager.cpp:61-148 | for distinct bounds in either order the port is even, in range, unused, the first such from the random start, and appended; or 0 with the list unchanged, with a lower bound above 0 exactly when every even port is used |
| RtpPorts.RangeFromZero | native/libimsstack/enabler/media/MediaResourceManager.cpp:61-148 | a range from 0 reports failure with ports left exactly when the scan meets an unused port 0 first |
| RtpPorts.RangeFromZeroIsSureIff | native/libimsstack/enabler/media/MediaResourceManager.cpp:61-148 | so with a port left, success is sure, whatever the random start, exactly while port 0 is in use |
| RtpPorts.AcquireKeepsDistinctIff | native/libimsstack/enabler/media/MediaResourceManager.cpp:84-88 | acquiring keeps held ports distinct exactly unless equal bounds name a held port |
| RtpPorts.NoPortTwice | native/libimsstack/enabler/media/MediaResourceManager.cpp:61-171 | over every run without equal bounds no port is held twice |
| RtpPorts.EqualBoundsRepeat | native/libimsstack/enabler/media/MediaResourceManager.cpp:84-88 | with equal bounds two calls hold a port twice |
| Lists.WithoutEntries | native/libimsstack/enabler/media/MediaResourceManager.cpp:150-171 | releasing takes away one occurrence and nothing else |
| RtpPorts.MediaResourceManager.AcquireRtpPort | native/libimsstack/enabler/media/MediaResourceManager.cpp:61-148 | the do-while scan in place returns that port and leaves that list |
| RtpPorts.MediaResourceManager.ReleaseRtpPort | native/libimsstack/enabler/media/MediaResourceManager.cpp:150-171 | the first occurrence goes, and the result tells whether there was one |
| RtpPorts.MediaResourceManager.IsUsed | native/libimsstack/enabler/media/MediaResourceManager.cpp:106-115 | found exactly when in the list |
| Text.SplitJoin | native/libimsstack/platform/util/AString.cpp:3214-3255 | splitting undoes joining for texts without spaces and separators |
| ImsProperties.Decode | native/libimsstack/config/common/ImsProperty.cpp:87-121 | the loop gives the tokens between white space |
| ImsProperties.Encode | native/libimsstack/config/common/ImsProperty.cpp:123-139 | the loop joins the values with spaces |
| ImsProperties.DecodeUndoesEncode | native/libimsstack/config/common/ImsProperty.cpp:87-139 | decoding undoes encoding exactly for lists of non-empty texts without white space |
| ImsProperties.CheckDuplicate | native/libimsstack/config/common/ImsProperty.cpp:141-190 | accepted exactly when no two values are the same, with or without regard to case |
| ImsProperties.FindKey | native/libimsstack/config/common/ImsProperty.cpp:197-213 | the key a text names |
| ImsProperties.TrimAndCheckProperties | native/libimsstack/config/common/ImsProperty.cpp:215-269 | accepted exactly when every key is known and only the repeatable ones repeat, and then every element but the keys is trimmed |
| QosProperties.ParseUndoesDecimal | native/libimsstack/platform/util/AString.cpp:2451-2494 | reading a printed unsigned 32-bit number gives it back |
| QosProperties.SetUndoesPrint | native/libimsstack/config/common/QosProperty.cpp:74-125 | setting from a printed flow restores all seven fields, those that went through a negative signed value included |
| QosProperties.QosProperty.GetQosString | native/libimsstack/config/common/QosProperty.cpp:74-83 | the tokens of the text are the seven fields as unsigned decimals, and setting any flow from the text gives the fields |
| QosProperties.QosProperty.SetQos | native/libimsstack/config/common/QosProperty.cpp:86-125 | accepted exactly for seven numbers; otherwise the fields stay |
| ServiceIdentifiers.ToString | native/libimsstack/config/common/ServiceIdentifier.cpp:133-150 | the name followed by its flags |
| ServiceIdentifiers.Create | native/libimsstack/config/common/ServiceIdentifier.cpp:152-174 | the trimmed name and the flags found after it |
| ServiceIdentifiers.CheckFeatureFlags | native/libimsstack/config/common/ServiceIdentifier.cpp:176-201 | refused exactly when a known flag stands where none is allowed |
| ServiceIdentifiers.CreateUndoesPrint | native/libimsstack/config/common/ServiceIdentifier.cpp:133-174 | creating from the printed form gives the identifier back exactly when its name is trimmed and without semicolon |
| ServiceIdentifiers.ReadIsClean | native/libimsstack/config/common/CoreServiceConfig.cpp:124-137 | whatever a field holds, the names read from it are without white space and semicolons |
| ServiceIdentifiers.IcsiFieldRoundTrip | native/libimsstack/config/common/CoreServiceConfig.cpp:443-459 | the ICSI field of the registry is read back as the same identifiers and flags exactly when no name holds white space or a semicolon and no identifier is blank |
| ServiceIdentifiers.TagFieldRoundTripIff | native/libimsstack/config/common/CoreServiceConfig.cpp:461-475 | for names as the loader reads them, the feature-tag field is read back as the ICSIs and then the tags without the blank ones, which is the tags exactly when every ICSI is blank and no tag is |
| CoreServices.CorePropertyRoundTripIff | native/libimsstack/config/common/CoreServiceConfig.cpp:423-478 | the loader makes of a written CoreService property the service it was written for exactly when the IARI is trimmed and without semicolon and flags, there are no ICSIs, and no feature tag is blank or holds white space or a semicolon |
| CoreServices.CoreServiceConfig.WriteCoreProperty | native/libimsstack/config/common/CoreServiceConfig.cpp:423-478 | the five elements of that property |
| ServiceIdentifiers.WriteFields | native/libimsstack/config/common/CoreServiceConfig.cpp:443-475 | the loops of both fields with their shared list |
| ServiceIdentifiers.ParseIcsis | native/libimsstack/config/common/CoreServiceConfig.cpp:124-137 | the loop reads the identifiers of a field, and none is ever refused |
| CoreServices.CoreServiceConfig.constructor | native/libimsstack/config/common/CoreServiceConfig.cpp:275-278 | a service with nothing but its name |
| CoreServices.CoreServiceConfig.Create | native/libimsstack/config/common/CoreServiceConfig.cpp:101-167 | refused exactly for an IARI with flags; otherwise IARI, ICSIs and feature tags are filled in |
| CoreServices.CoreServiceConfig.AddQosProperty | native/libimsstack/config/common/CoreServiceConfig.cpp:169-199 | result and service after a Qos property |
| CoreServices.CoreServiceConfig.AddRegistrationHeaderProperty | native/libimsstack/config/common/CoreServiceConfig.cpp:201-238 | result and service after a Reg property, with the headers before a bad one kept |
| CoreServices.CoreServiceConfig.AddProperty | native/libimsstack/config/common/CoreServiceConfig.cpp:336-355 | result and service after any property about it |
| CoreServices.ReceiveIsAsAskedIff | native/libimsstack/config/common/CoreServiceConfig.cpp:181-196 | what is stored for the receiving side is what the property asks for exactly when it asks for the same as when sending |
| CoreServices.RegIsTakenOnce | native/libimsstack/config/common/CoreServiceConfig.cpp:206-237 | a Reg property is taken exactly when all headers have a colon, and then no other is taken |
| AppConfigServices.PrintedFlowIsTaken | native/libimsstack/config/common/CoreServiceConfig.cpp:169-199 | a Qos property with a printed sending side gives the flow that was printed |
| AppConfigServices.AppliedIff | native/libimsstack/config/common/CoreServiceConfig.cpp:336-355 | a service accepts a property exactly when its texts are as its key asks for, and which field each then changes |
| AppConfigServices.ServicePassOkIff | native/libimsstack/config/common/AppConfig.cpp:835-886 | the properties that name a service succeed exactly when each is good by itself and at most one gives registration headers |
| AppConfigServices.ServicePassIs | native/libimsstack/config/common/AppConfig.cpp:835-886 | then the service has the flows of its Qos properties in their order, the sending ones both ways, the headers of its Reg property, the profile of its last Mprof property, and a connection if there is a property for one |
| AppConfigs.AppConfig.GetCoreServiceConfig | native/libimsstack/config/common/AppConfig.cpp:186-199 | the first service of that name ignoring case |
| AppConfigs.AppConfig.AddCoreServiceProperty | native/libimsstack/config/common/AppConfig.cpp:523-565 | a new service at the end, exactly for a well-formed property with a new name |
| AppConfigs.AppConfig.AddCoreServiceRelatedProperty | native/libimsstack/config/common/AppConfig.cpp:567-589 | the property is applied in place to the service it names, the other services stay |
| AppConfigs.AppConfig.AddStreamMediaProperty | native/libimsstack/config/common/AppConfig.cpp:232-297 | result and media flags, those of a refused property included |
| AppConfigs.AppConfig.AddFramedMediaProperty | native/libimsstack/config/common/AppConfig.cpp:299-345 | result and fields, with the media types taken back for a bad size |
| AppConfigs.AppConfig.AddBasicMediaProperty | native/libimsstack/config/common/AppConfig.cpp:347-370 | result and fields |
| AppConfigs.AppConfig.AddEventProperty | native/libimsstack/config/common/AppConfig.cpp:372-393 | result and fields |
| AppConfigs.AppConfig.AddWriteHeaderProperty | native/libimsstack/config/common/AppConfig.cpp:395-416 | result and fields, with the check that looks at the readable headers |
| AppConfigs.AppConfig.AddReadHeaderProperty | native/libimsstack/config/common/AppConfig.cpp:418-439 | result and fields |
| AppConfigs.AppConfig.AddCapabilitySdp | native/libimsstack/config/common/AppConfig.cpp:202-230 | the field joins the first capability with the same key, or makes one |
| AppConfigs.AppConfig.AddCapabilityProperty | native/libimsstack/config/common/AppConfig.cpp:441-521 | result and capabilities, with the fields before a bad one kept |
| AppConfigs.AppConfig.CheckMandatoryProperty | native/libimsstack/config/common/AppConfig.cpp:147-159 | holds exactly when something is configured |
| AppConfigs.AppConfig.Create | native/libimsstack/config/common/AppConfig.cpp:810-900 | result and whole configuration of the check, both passes and the last test |
| AppConfigMeanings.KeyIs | native/libimsstack/config/common/ImsProperty.cpp:197-213 | the key of each text, one by one |
| AppConfigMeanings.StreamTypesAre | native/libimsstack/config/common/AppConfig.cpp:266-296 | stream types are accepted exactly when each is audio, video or text ignoring case; then each of the three is supported exactly if it was before or is listed, for a refused list among those before the first unknown one |
| AppConfigMeanings.AddStreamIff | native/libimsstack/config/common/AppConfig.cpp:232-297 | a Stream property is accepted exactly when it has two elements and its types are known and none repeated, and then supports exactly what it lists |
| AppConfigMeanings.AddFramedIff | native/libimsstack/config/common/AppConfig.cpp:299-345 | when a Framed property is accepted, its types and size, and what is left of one refused for its size |
| AppConfigMeanings.AddListsIff | native/libimsstack/config/common/AppConfig.cpp:347-439 | when Basic, Event and Read properties are accepted, and the lists they leave in either case |
| AppConfigMeanings.AddWriteIff | native/libimsstack/config/common/AppConfig.cpp:395-416 | a Write property is accepted by what the readable headers are |
| AppConfigMeanings.GoodSdpIff | native/libimsstack/config/common/AppConfig.cpp:487-515 | the letters of the SDP fields that each sector allows |
| AppConfigMeanings.AddCapIff | native/libimsstack/config/common/AppConfig.cpp:441-521 | a Cap property is accepted exactly when sector, message and all fields are known; its fields then join those for its own key, and all others stay |
| AppConfigResults.GoodRegistryIff | native/libimsstack/config/common/ImsProperty.cpp:215-269 | a registry passes the check exactly when every key is known or empty and none of the single ones is there twice |
| AppConfigResults.OwnPassOkIff | native/libimsstack/config/common/AppConfig.cpp:835-886 | the properties of the application succeed exactly when each is good by itself |
| AppConfigResults.CreatedStream | native/libimsstack/config/common/AppConfig.cpp:810-900 | after a successful creation the application supports stream media exactly with a Stream property, and audio, video and text exactly as that property lists them |
| AppConfigResults.CreatedLists | native/libimsstack/config/common/AppConfig.cpp:810-900 | and its other media, events and headers are those of the one property with their key |
| AppConfigResults.CreatedCapabilities | native/libimsstack/config/common/AppConfig.cpp:810-900 | and it holds, for each sector and message, the fields of the Cap properties for them in their order |
| AppConfigServices.CreatedServices | native/libimsstack/config/common/AppConfig.cpp:810-900 | and it has one service for each CoreService property in their order, each with the properties that name it |
| AppConfigServices.CreatedIff | native/libimsstack/config/common/AppConfig.cpp:810-900 | creation succeeds exactly when the keys pass, each property of the application is good by itself, the CoreService properties are complete with different names, each property about a service names one and is good for it, and something is configured |
| AppConfigOrders.GoodOthers | native/libimsstack/config/common/ImsProperty.cpp:215-269 | the check of a registry depends on the properties other than CoreService alone |
| AppConfigOrders.SamePartsSameConfig | native/libimsstack/config/common/AppConfig.cpp:823-886 | registries with the same CoreService properties and the same others, each in the same order, give the same result and configuration, failures included |
| AppConfigOrders.CoresFirstChangesNothing | native/libimsstack/config/common/AppConfig.cpp:823-886 | moving the CoreService properties to the front changes neither result nor configuration |
| AppConfigParts.SecondPassParts | native/libimsstack/config/common/AppConfig.cpp:835-886 | the second pass succeeds exactly when every service and the application succeed with their own properties and every property about a service names one |
| AppConfigParts.FirstPassOfCores | native/libimsstack/config/common/AppConfig.cpp:823-833 | the first pass succeeds exactly for well-formed properties with different names ignoring case, and adds their services in order |
| AppConfigParts.CreationComesApart | native/libimsstack/config/common/AppConfig.cpp:810-900 | creation succeeds exactly when every part does and something is configured; each service is then what its own property and the properties naming it make of it, each applied with success |
| AppConfigParts.ServiceNamesAreDistinct | native/libimsstack/config/common/AppConfig.cpp:543-549 | after creation no two services have the same name ignoring case |
| AppConfigParts.RepeatedWriteHeadersAreAccepted | native/libimsstack/config/common/AppConfig.cpp:408-413 | a list of writable headers is never refused for repeating one |
| AppConfigParts.CapsStayDistinct | native/libimsstack/config/common/CapProperty.cpp:130-142 | capabilities with one key are one: one for each sector and single message, one in all for both messages |
| PidfWriters.Write | native/libimsstack/enabler/internal/GeolocationPidfWriter.cpp:36-335 | writing an element appends exactly the events of its XML tree, whatever was written before |
| PidfWriters.WriteChildren | native/libimsstack/enabler/internal/GeolocationPidfWriter.cpp:36-42 | the children in order |
| PidfWriters.WritePresence | native/libimsstack/enabler/internal/GeolocationPidfWriter.cpp:54-91 | the presence tag with the namespaces in use, in their order, and the entity |
| PidfWriters.WriteEllipsoid | native/libimsstack/enabler/internal/GeolocationPidfWriter.cpp:232-279 | nothing without a position; axes only with both accuracies |
| PidfWriters.WriteCircle | native/libimsstack/enabler/internal/GeolocationPidfWriter.cpp:201-230 | nothing without a position; radius only if known |
| PidfWriters.WriteCivicAddress | native/libimsstack/enabler/internal/GeolocationPidfWriter.cpp:293-335 | nothing when all parts are empty; a line for each other part |
| PidfWriters.ReadExactlyThePrinted | native/libimsstack/enabler/internal/GeolocationPidfWriter.cpp:36-335 | a stack reader accepts a list of events and gives certain trees exactly when the list is what those trees print |
| PidfWriters.ElementReadsBack | native/libimsstack/enabler/internal/GeolocationPidfWriter.cpp:36-335 | for every element tree the events are well nested, namespaces and attributes stand directly behind a start tag, and reading gives exactly the tree of what is shown |
| PidfRoundTrips.PresenceReads | native/libimsstack/enabler/internal/GeolocationPidfWriter.cpp:54-91 | the declarations of a presence are read back as its namespaces and entity, by their prefixes, addresses and order |
| PidfRoundTrips.AllShownReads | native/libimsstack/enabler/internal/GeolocationPidfWriter.cpp:36-335 | a reader of elements, written by tag names, attributes, line feeds and places in a position, gives back what is shown of any elements, containers with their ids included, exactly when no coordinate that is written holds a space |
| PidfRoundTrips.WrittenReadsBackIff | native/libimsstack/enabler/internal/GeolocationPidfWriter.cpp:36-335 | so do the events of an element: it comes back as far as it is written, exactly when no coordinate holds a space |
| PidfRoundTrips.ReadsBackIff | native/libimsstack/enabler/internal/GeolocationPidfWriter.cpp:36-335 | it comes back as itself exactly when moreover all of it is written |
| PidfRoundTrips.CircleReadsBackIff | native/libimsstack/enabler/internal/GeolocationPidfWriter.cpp:201-230 | a circle comes back with its own latitude, longitude and radius exactly when both coordinates are there and without spaces |
| PidfRoundTrips.EllipsoidReadsBackIff | native/libimsstack/enabler/internal/GeolocationPidfWriter.cpp:232-279 | an ellipsoid does so exactly when moreover both accuracies are known, or none |
| EventHolders.HolderRefinesPairs | native/libimsstack/platform/ServiceEvent.cpp:173-299 | over every run the lists stand for the set of pairs added and not removed, none is empty or repeats a listener, and the receiver is armed for exactly the events with a list unless it lost some since the last rearming |
| EventHolders.EachListenerIsPostedOnce | native/libimsstack/platform/ServiceEvent.cpp:301-335 | after every run a received event is posted exactly once to each registered listener that is not null, and to nobody else |
| EventHolders.ListsKeepOrder | native/libimsstack/platform/ServiceEvent.cpp:174-277 | over every run the listeners of an event stand in the order in which they were registered |
| EventHolders.NoticesFollowRegistrations | native/libimsstack/platform/ServiceEvent.cpp:301-335 | a received event is posted to them in that order, and no other call posts anything |
| EventHolders.EventHolder.AddListener | native/libimsstack/platform/ServiceEvent.cpp:174-237 | result and holder |
| EventHolders.EventHolder.RemoveListener | native/libimsstack/platform/ServiceEvent.cpp:240-277 | holder afterwards, with the event disarmed when its list is empty |
| EventHolders.EventHolder.SetUnregisteredEvents | native/libimsstack/platform/ServiceEvent.cpp:280-299 | every event with a list is armed |
| EventHolders.EventHolder.NotifyEvent | native/libimsstack/platform/ServiceEvent.cpp:301-335 | the posts in the order of the list, and whether there was one |
| JniConnectors.ConnectorAgreesWithLastCalls | native/libimsstack/enabler/JniEnablerConnector.cpp:148-246 | after every run there is at most one connection for each slot and type and none is empty, and both getters return what was set last |
| JniConnectors.ConnectionsAreForWhatIsSet | native/libimsstack/enabler/JniEnablerConnector.cpp:229-246 | a connection exists for exactly the slots and types with something set |
| JniConnectors.JniConnection.SetJniEnabler | native/libimsstack/enabler/JniEnablerConnector.cpp:51-79 | the enabler under its key is set or removed, and the native one is told |
| JniConnectors.JniConnection.SetNativeEnabler | native/libimsstack/enabler/JniEnablerConnector.cpp:91-98 | the native enabler is set and all others are told |
| JniConnectors.JniEnablerConnector.GetConnection | native/libimsstack/enabler/JniEnablerConnector.cpp:202-213 | the first connection for the slot and type |
| JniConnectors.JniEnablerConnector.CreateConnectionIfNotExist | native/libimsstack/enabler/JniEnablerConnector.cpp:216-227 | that connection, made at the end if there was none |
| JniConnectors.JniEnablerConnector.CheckAndRemoveConnection | native/libimsstack/enabler/JniEnablerConnector.cpp:230-246 | an empty connection leaves the list, the others stay in order |
| JniConnectors.JniEnablerConnector.SetNativeEnabler | native/libimsstack/enabler/JniEnablerConnector.cpp:149-160 | the connections afterwards and who was told |
| JniConnectors.JniEnablerConnector.SetJniEnabler | native/libimsstack/enabler/JniEnablerConnector.cpp:163-174 | the connections afterwards and who was told |
| JniConnectors.JniEnablerConnector.GetNativeEnabler | native/libimsstack/enabler/JniEnablerConnector.cpp:177-186 | what is set for the slot and type, or null |
| JniConnectors.JniEnablerConnector.GetJniEnabler | native/libimsstack/enabler/JniEnablerConnector.cpp:189-199 | what is set under the key, or null |

## Left out

- JNI and parcel code, sockets, files, tracing, locks and the release of memory; each public call is one atomic step.
- What the ISIM, timers, carrier configuration and negotiators of single kinds answer: parameters, free at every step.
- Subscriber data: the identities, addresses and P-CSCF lists themselves. Only which records are set is modelled.
- Calls of the ISIM back into the configuration during a call into the ISIM, and a message sent before the start
  message has installed the message helper.
- ReadIsimProvisioning: what follows the unguarded read through a null ISIM is not modelled; the step only logs it, and
  ReadMeetsNullIsimIff says when it happens.
- SendTo: a failing PostMessage, after which the message is gone, is not modelled.
- HandleMessage: the start message is the event Begin, and the registration with the helper is in the constructor.
- OnIdentity: the early return when the subscriber information is missing is not modelled.
- SendMessage: a message handled at once because there is no helper is not modelled.
- Serve: configurations register before the run and do not leave during it; Register and Unregister stand alone.
- ProvisioningIsAccountedFor: speaks of fault-free runs; what faults do is in the theorems over every run. A callback
  counts as fault-free once the ISIM was found.
- RefreshIsAccountedFor: speaks of a refresh from the notice of the ISIM on; for one that a message or a change of the
  carrier configuration asks for, only the theorems over every run hold.
- Notices to several listeners are one effect for all of them; only the listener of an error notice is named.
- Overflow of the retry counters at 32 bits, which takes years of failures.
- The initial set of configured records is any set that contains the three mandatory ones; the code only ever starts
  from those three.
- AudioNego, VideoNego and TextNego: they report a codec and directions, may fail to form a line, and leave ports alone.
  The remote port of a descriptor is the port of its media line. Session bandwidth and FinalizeSDP are not modelled.
- FormSDP: the session bandwidth and the refusal for a missing negotiator are not modelled.
- CreateProfile: the negotiators made and their profiles are not modelled, only that there are some.
- Forking: the negotiators copied from the other negotiation are not modelled.
- NegotiateSDP: keeps lines as values in the session; two entries of one session are never the same descriptor.
- OffersAreAnsweredInTurn: speaks of runs without Forking and FinalizeSDP, which set the state from outside.
- Features handed out by reference: entries of a feature set are values, so later changes through one are
  not seen; the reference counts are kept.
- Create: the feature sets that a core service derives from its feature tags are not modelled.
- Texts with embedded zero bytes, and the difference between a null and an empty text outside Feature.
- ToRegistry except the CoreService property: the other written forms are either plain copies or are not read
  back by the loader (Event, Read and Write entries).
- The array access past the end when CoreServiceConfig::Create gets fewer than five elements: its only caller checks.
- GetSupportedMediaTypesFromSdp, the MTU and network callbacks of the port manager, and slot bookkeeping of the event
  service: only easy members.
- The escaping and layout done by the XML writer behind the events, and the branches that build the element tree.
- The namespaces of a presence element are a set, where the code has a bit mask.
