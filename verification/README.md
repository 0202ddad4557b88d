# A verified model of the Orchra AMF

This project models the parts of the modified OpenAirInterface AMF that keep a UE's state together, and proves
what they promise: the UE context registry and the NGAP procedures that update it, the NAS security layer and
the 5GMM procedure flags, the migration of a UE's security context to another AMF, and the slice, bitmap and response
bookkeeping around them. `dafny verify dfyconfig.toml` checks all of it.

## How it is laid out

**UE context registry.** `Contexts` has the context objects. `Registry` has the index tables as a value and the effect of
every procedure on them; `AmfTables` performs the same steps on maps to shared objects that are written in place, and
proves that it does. `Agreement` finds, for each procedure, the exact condition under which the five indices still
agree after it, and `Teardown` for those of a gNB: it reduces the loops of NG Setup, NG Reset and NG Shutdown to one
erasure, whatever the order of their list. `Effects` says of every procedure what each lookup gives after it, and that
nothing else has changed. `Runs` puts these together for whole runs, from empty tables on. `Tasks` is the
task loop on the heap: each message keeps what the runs promise. `Handover` follows one UE through an N2 handover while guarded events of
other UEs happen in between. `RegistryLimits` has states, each with the guarded run that leads to it, where what one would
expect fails. `Restore` is what a migrated UE leaves in the tables of its target.

**NAS.** `NasSecurity` has framing, MAC, ciphering and the uplink path; `Numbering` the sequence numbers over many calls.
`NasProcedures` has the running-procedure flags, the 5GMM state and the security context under every sequence of handlers,
once handler by handler and once field by field.

**Migration.** `SnapshotCodecs` has the two codecs of the snapshot and the Redis store over time; `Migration` the
hex and count encodings, the restore of the keys and the end-to-end theorem.

**Slices, bitmaps, answers.** `CommonPlmn`, `Nssai`, `PduBitmap`, `Algorithms` and `Promises`.

## What the model takes as given

- `Runs.Guard` says of every event what a run may rely on. For the most part it is the condition that the lemmas of
  `Agreement` and `Teardown` find exact. Some of it is up to the gNBs: a RAN id that is in use is not given to another UE,
  and a gNB speaks for the UEs that it serves. The AMF id generator has not wrapped. The rest no peer controls: Handover
  Notify comes when no earlier release of the UE is awaited, other than in place; a Release
  Complete that is not of a handover source, when none is awaited for the UE; NG Reset, NG Shutdown and an NG Setup that
  gives up UEs, when none is awaited for any UE of the association; a gNB that comes, or that changes its id, has the id of
  every key at which a release from its association number is awaited; an NG Setup that changes the id retains no UE, and
  of each UE that it gives up the NAS record is in place and the RAN id not in use under the new id; and a restore meets the
  condition of `Restore.RestoreAgreement`.
- The guard also keeps NAS records linked to RAN ids, which teardown depends on: an Initial UE Message comes under the home
  key of the context it finds, a Downlink NAS Transport that assigns an id assigns one without NAS record, a record is
  attached or re-bound with the RAN id of the UE, and a RAN id given at Handover Notify, re-binding or restore is not one
  that another AMF id of the same record had elsewhere.
- The gNB context of a new association is made by the SCTP layer, which is not part of this model; its gNB id and state
  before NG Setup are arbitrary. A GUTI leads to some NAS record that the AMF has; the table of GUTIs is not modelled.
- A new `ue_ngap_context` carries INVALID_AMF_UE_NGAP_ID, which is what its lookups by AMF id never find; its header is not
  part of this model.
- `amf_conv::get_ue_context_key` is injective; a key is a pair. SUPIs in the registry are only compared, so they are numbers.
- MAC, keystream and what 128-NEA1 writes past the end of a message are arbitrary functions of their arguments.
- `nas_context.hpp` is not part of this model: a sequence number has 8 bits, an overflow counter is unbounded where that
  makes a theorem sharper, a new NAS context is not registered, and the type of a security context that a restore
  creates is a parameter. `kNasMessageMinLength` is 3 octets, up to the message type.
- One handler, or one section under a lock, is one step. Received messages are decoded; what a handler learns from decoding,
  encoding, lookups in other tables, the AUSF and sending comes with the event, in every combination.
- Redis is a map with deadlines; `dump` and `parse` of a JSON text are inverse. Promise ids do not wrap.
- PDU sessions of one UE have distinct ids.

## What the proofs found

- NG Reset and NG Shutdown are incomplete for a UE between Handover Notify and the release of its source, and only then.
  When the source goes down in that time, the key that the UE had there stays for good.
  The SUPI index is not framed: a teardown can drop the SUPI entry of a UE on another gNB.
- De-registration removes the NAS record before Release Complete arrives, which then returns early; both NGAP indices keep
  the UE, and the next UE with that RAN id breaks them.
- The comment on `generate_amf_ue_ngap_id` (`component/oai-amf/amf_app.cpp:410-414`) speaks of 40 bits; the mask has 32.
- NG Setup stores the new gNB id before it gives up UEs, so one of its two removals searches under that id. With a changed id
  a UE without NAS record keeps its RAN entry, and where another gNB's key is in the way the outcome can depend on the order of
  the list.
- A message from a resetting gNB is logged as ignored and processed all the same; the model follows the code.
- No overflow counter is ever incremented, so ciphering reuses its COUNT every 256 messages, and the MAC takes the sequence
  number octet alone as its COUNT.
- A Security Mode Reject leaves the flag up; only a Security Mode Complete that passes every check clears it, and until
  then authentication cannot start. A second Security Mode Command is not sent for a security context that is in use.
- The JSON form has neither the AMF id nor the gNB association of a snapshot, and the Redis record no counts.
- A restored NGAP context is stored under (association, RAN id) where lookups use (RAN id, gNB id), and no UE context is
  entered for it; on a target without UEs the tables never agree afterwards.
- With the default preferences a UE that supports no listed integrity algorithm is given NIA0 all the same: the result of
  `security_select_algorithms` is not looked at.

## Model

| member | source | states |
|---|---|---|
| `Agreement.InitialUeAgreement` | component/oai-amf/amf_n2.cpp:821-839 | Initial UE Message keeps the index tables in agreement if and only if the context that already answers to the (RAN id, gNB) key, where there is one, is served by the reporting gNB |
| `Agreement.EstablishAgreement` | component/oai-amf/amf_app.cpp:610-659 | assigning an unused AMF id keeps agreement if and only if the context under the RAN key had no AMF id, that is, no live RAN id was reused |
| `Agreement.DlNasAgreement` | component/oai-amf/amf_n2.cpp:976-998 | Downlink NAS Transport keeps agreement if and only if the context that the UE context key leads to already carries the AMF id of the message, or carries none while that id is free |
| `Agreement.HandoverRequiredAgreement` | component/oai-amf/amf_n2.cpp:1750-1798 | Handover Required keeps agreement if and only if the gNB that sent it serves the context |
| `Agreement.HandoverAckAgreement` | component/oai-amf/amf_n2.cpp:2028-2053 | Handover Request Acknowledge keeps agreement always |
| `Agreement.HandoverNotifyAgreement` | component/oai-amf/amf_n2.cpp:2306-2324 | Handover Notify keeps agreement if and only if no other live context answers to the target key and no earlier release of this UE is awaited, other than at the very key it moves to or, if it moves the UE nowhere, on the same gNB |
| `Agreement.ReleaseCompleteAgreement` | component/oai-amf/amf_n2.cpp:1525-1582 | UE Context Release Complete keeps agreement if and only if the RAN key of the message is the one the taken branch is about: the left-behind source key after a handover, the home key of a context with no release awaited otherwise |
| `Runs.StepKeepsAgreement` | component/oai-amf/amf_n2.cpp:391-723 | every event, those of gNBs and the restore of a migrated UE included, keeps agreement when it meets its guard |
| `Runs.StepFits` | component/oai-amf/amf_n1.cpp:2035-2070 | every guarded event keeps the NAS records linked: the record of a live AMF id is at the UE's RAN id, or at one under which that AMF id has no UE context; and every id in use was drawn |
| `Runs.GuardedRunIsValid` | component/oai-amf/amf_n2.cpp:2731-2770 | agreement and linkage hold in every state that a run of guarded events reaches |
| `Runs.LookupsAgreeAfterRun` | component/oai-amf/amf_n2.cpp:2731-2770 | after any guarded run the AMF-id lookup, the (RAN id, gNB id) lookup and the lookup through the UE context key give one and the same context, whose stored ids match its keys |
| `Runs.RanEntriesAgreeAfterRun` | component/oai-amf/amf_n2.cpp:2773-2793 | conversely every RAN-index entry matches its key or is the one entry of its context that awaits a handover release, and its AMF id leads back to it |
| `Runs.StartIsValid` | component/oai-amf/amf_app.cpp:410-415 | tables without UEs are valid, and so are the empty ones of an AMF that has seen no gNB: the runs above may start there, and gNBs come and go in them |
| `Runs.FirstContact` | component/oai-amf/amf_n2.cpp:821-839 | after the Initial UE Message of a UE with a RAN id not in use and the assignment of its AMF id, each of the three lookups finds its one new context, with that RAN id, AMF id and association |
| `Runs.ReleasedUeIsGone` | component/oai-amf/amf_n2.cpp:1568-1724 | a release that is not of a handover source takes the UE out of both NGAP indices, and makes it idle if and only if its SUPI leads to the released AMF id |
| `Effects.NewAssociationWrites` | component/oai-amf/amf_n2.cpp:403-411 | a new association gets its gNB context, a known one keeps it, and nothing else changes |
| `Effects.RefusedSetupWrites` | component/oai-amf/amf_n2.cpp:398-511 | NG Setup without effect, and what a refused one leaves: the new gNB id and the old state |
| `Effects.SetupOpensGnb` | component/oai-amf/amf_n2.cpp:513-600 | after an accepted NG Setup, with or without UE retention, the gNB has the new id, is found by it, and is ready if the response encoded and as it was if not; so its Initial UE Messages are heeded if and only if the response encoded or they were heeded before |
| `Effects.ResetWritesGnb` | component/oai-amf/amf_n2.cpp:614-729 | NG Reset leaves the gNB resetting under its id, NG Shutdown removes it, and no other gNB or gNB id is touched |
| `Effects.RemovalByAmfWrites` | component/oai-amf/amf_n2.cpp:2882-2918 | the removal by AMF id alone, for each of its three ends: which indices lose which entry |
| `Effects.RemovalByRanWritesId` | component/oai-amf/amf_n2.cpp:2796-2832 | the removal by RAN id alone takes out the entry, the AMF id of its context and the NAS record of that |
| `Effects.InitialUeFinds` | component/oai-amf/amf_n2.cpp:821-839 | an Initial UE Message that finds a context gives it RAN id and association and changes nothing else |
| `Effects.InitialUeMakes` | component/oai-amf/amf_n2.cpp:821-839 | one that finds none makes a context with neither AMF id nor anything of a handover, under exactly that key |
| `Effects.EstablishUeWrites` | component/oai-amf/amf_app.cpp:610-659 | the AMF id is the generator's in 32 bits, and under (RAN id, AMF id) there is a UE context with these ids and the gNB id |
| `Effects.EstablishNgapWrites` | component/oai-amf/amf_app.cpp:635-648 | a context under the RAN key receives that AMF id and is found by it |
| `Effects.DlNasWrites` | component/oai-amf/amf_n2.cpp:976-998 | Downlink NAS Transport acts on the context under the RAN id and the gNB id that the UE context names, if its association has a gNB; it then carries the AMF id, is found by it and is connected |
| `Effects.RequiredWrites` | component/oai-amf/amf_n2.cpp:1750-2021 | when Handover Required is heeded, and what it then writes, with or without the association of the target |
| `Effects.AckWrites` | component/oai-amf/amf_n2.cpp:2028-2053 | Handover Request Acknowledge writes the RAN id at the target, and only that |
| `Effects.NotifyWritesNgap` | component/oai-amf/amf_n2.cpp:2300-2324 | when Handover Notify is heeded; every field of the moved NGAP context, and its new RAN entry |
| `Effects.NotifyWritesOthers` | component/oai-amf/amf_n2.cpp:2306-2324 | the NAS record, the UE context and its second key follow |
| `Effects.ReleaseBranchExactly` | component/oai-amf/amf_n2.cpp:1525-1590 | the exact condition of each way that Release Complete goes |
| `Effects.ReleaseWrites` | component/oai-amf/amf_n2.cpp:1561-1724 | what each way erases and writes, and that nothing else changes |
| `Effects.AttachFiles` | component/oai-amf/amf_n1.cpp:2035-2070 | registration with a SUCI files a new record: AMF id and SUPI lead to it, the SUPI to the AMF id, and no other entry changes |
| `Effects.RebindFiles` | component/oai-amf/amf_n1.cpp:391-419 | a GUTI that leads to a record files it anew under the new ids, SUPI and connection state as before; no other entry changes, so that of its old AMF id stays |
| `Effects.ReboundGoesIdle` | component/oai-amf/amf_n2.cpp:1582-1590 | so a UE that came back with its GUTI becomes idle when it is released, other than as a handover source |
| `Effects.DeregisterWrites` | component/oai-amf/amf_n1.cpp:4069-4096 | de-registration takes the record out of both tables of records, and the SUPI keeps its AMF id |
| `Teardown.LoopTears` | component/oai-amf/amf_n2.cpp:641-653 | the teardown loop, over a list in any order and with repetitions, amounts to one erasure of exactly the listed contexts from both NGAP indices and both NAS tables; it may search under another gNB id than that of the association if the NAS record of each context is in place and no key of that id is in the way |
| `Teardown.RemovalsErase` | component/oai-amf/amf_n2.cpp:2796-2832 | the two removals of one context, through each of their early returns, erase its home entry, its AMF id and its NAS record, and nothing else |
| `Teardown.ResetIsCompleteAndFramed` | component/oai-amf/amf_n2.cpp:614-656 | NG Reset leaves no context of its association in either NGAP index if and only if none of them awaits a handover release; every other association keeps its NGAP and AMF-id entries; a SUPI entry is lost exactly if a record of a torn context carries that SUPI |
| `Teardown.ShutdownIsCompleteAndFramed` | component/oai-amf/amf_n2.cpp:690-729 | the same of NG Shutdown, which removes exactly its own gNB context |
| `Teardown.TornAgreement` | component/oai-amf/amf_n2.cpp:2882-2918 | after a teardown the tables agree if and only if it was complete |
| `Teardown.TeardownClearsKeys` | component/oai-amf/amf_n2.cpp:641-655 | after NG Reset, and after NG Shutdown, no RAN key of the gNB's id is left if and only if every such key was the home of a context on the association |
| `Teardown.NewAssociationAgreement` | component/oai-amf/amf_n2.cpp:403-411 | a gNB context that appears under a new association number keeps agreement if and only if its gNB id is that of every key at which a release from that number is awaited |
| `Teardown.GnbIdAgreement` | component/oai-amf/amf_n2.cpp:442-443 | setting the gNB id of an association keeps agreement if and only if it is the id it had, or no context is on the association and no release from it is awaited at a key of another id |
| `Teardown.SetupTears` | component/oai-amf/amf_n2.cpp:525-537 | NG Setup without UE retention amounts to one erasure of the contexts of its association, whatever the order of the list, if and only if the gNB id is as before or each context has its NAS record in place (where no key of the new id is in the way) |
| `Teardown.NgSetupAgreement` | component/oai-amf/amf_n2.cpp:391-600 | NG Setup, refused, with or without retention, and whether or not the response encodes, keeps agreement if and only if: the UEs it gives up await no handover release; a new id is that of every key at which a release from the association is awaited; and under a new id no UE is retained or, of UEs given up, every NAS record is in place. Stated for every id that is the old one or under which no RAN id of a given-up UE is in use |
| `Runs.ResetAgreement` | component/oai-amf/amf_n2.cpp:614-656 | NG Reset keeps agreement if and only if no handover release is awaited for a UE of the association |
| `Runs.ShutdownAgreement` | component/oai-amf/amf_n2.cpp:690-729 | the same of NG Shutdown |
| `Handover.HandoverChain` | component/oai-amf/amf_n2.cpp:2300-2324 | over Required, Request Acknowledge, Notify and the source's Release Complete, with any guarded events of other UEs between them, the AMF id resolves to the same context throughout; between Notify and Release Complete the source key is its only mismatched RAN entry; at the end only the target key resolves and the NAS record's connection state is what it was |
| `Handover.RequiredStep` | component/oai-amf/amf_n2.cpp:1750-2021 | Handover Required marks the context as in handover and gives it the association of the target gNB, and leaves the UE at its source |
| `Handover.NotifyStep` | component/oai-amf/amf_n2.cpp:2306-2324 | Handover Notify moves a UE from being at its source to being between the gNBs, where the only entry left behind is the key that release_gnb records |
| `Handover.ReleaseStep` | component/oai-amf/amf_n2.cpp:1561-1566 | Release Complete from the source erases that entry alone and does not make the UE idle |
| `Handover.ForeignRunKeeps` | component/oai-amf/amf_n2.cpp:1525-1582 | no guarded run of other UEs' events touches the entries, the context or the NAS record of the UE in handover |
| `RegistryLimits.ResetDuringHandoverIsIncomplete` | component/oai-amf/amf_n2.cpp:641-653 | a state that a guarded run of ten events reaches, one UE between its gNBs, from which NG Reset of the target leaves a RAN-index entry that leads to a context of the reset association |
| `RegistryLimits.MovedUeIsReached` | component/oai-amf/amf_n2.cpp:391-600 | that run, from empty tables: two associations are set up, a UE attaches at one gNB and is handed over to the other up to Handover Notify; each event meets its guard |
| `RegistryLimits.ShutdownOfSourceLeavesKey` | component/oai-amf/amf_n2.cpp:690-729 | from the same state a guarded NG Shutdown of the source leaves none of its contexts, yet the UE's key there stays and no Release Complete from there is heeded any more |
| `RegistryLimits.ResetLosesForeignSupi` | component/oai-amf/amf_n2.cpp:2805-2820 | a state that a guarded run reaches, two UEs whose NAS records carry one SUPI, from which a complete NG Reset of one gNB makes the SUPI of the other's UE lead nowhere |
| `RegistryLimits.NewIdLeavesUe` | component/oai-amf/amf_n2.cpp:442-537 | a state that a guarded run reaches, one UE with an AMF id and no NAS record, where NG Setup that changes the gNB id leaves its RAN entry and breaks agreement, although every other condition is met |
| `RegistryLimits.NewIdIsGuarded` | component/oai-amf/amf_n2.cpp:525-537 | with the NAS record in place the same setup meets its guard |
| `RegistryLimits.SetupDependsOnOrder` | component/oai-amf/amf_n2.cpp:525-537 | a state that a guarded run reaches, one UE left behind at a key that carries the new id and the RAN id of another UE: the tables agree after NG Setup for one order of the list and do not for another |
| `RegistryLimits.DeregistrationLeavesEntries` | component/oai-amf/amf_n1.cpp:4069-4096 | after UE-initiated de-registration no Release Complete takes the UE out of the AMF-id index, and it has no effect at all unless it is the release of a handover source |
| `RegistryLimits.ReuseBreaksAgreement` | component/oai-amf/amf_app.cpp:635-648 | a context that stayed behind under its RAN id: assigning an AMF id to the next UE reported with that RAN id breaks agreement |
| `RegistryLimits.ReuseAfterDeregistration` | component/oai-amf/amf_n1.cpp:4069-4096 | from every valid state: de-registration, Release Complete and the Initial UE Message of the next UE with that RAN id are guarded, and the assignment of its AMF id then breaks agreement |
| `AmfTables.AmfTables.InitialUeMessage` | component/oai-amf/amf_n2.cpp:821-839 | on shared context objects written in place: the context is found or created, and the tables after it are those of the registry step |
| `AmfTables.AmfTables.EstablishNas` | component/oai-amf/amf_app.cpp:610-659 | the heap form of AMF id assignment has the effect of the registry step |
| `AmfTables.AmfTables.DownlinkNas` | component/oai-amf/amf_n2.cpp:976-998 | the heap form of Downlink NAS Transport has the effect of the registry step |
| `AmfTables.AmfTables.HandoverRequired` | component/oai-amf/amf_n2.cpp:1750-1798 | the heap form of Handover Required, through each of its refusals, has the effect of the registry step |
| `AmfTables.AmfTables.HandoverNotify` | component/oai-amf/amf_n2.cpp:2300-2324 | the heap form of Handover Notify has the effect of the registry step on all four kinds of object and table |
| `AmfTables.AmfTables.UeContextReleaseComplete` | component/oai-amf/amf_n2.cpp:1525-1582 | the heap form of Release Complete has the effect of the registry step on each of its branches |
| `AmfTables.AmfTables.RemoveUeByAmf` | component/oai-amf/amf_n2.cpp:2882-2918 | the heap form of the removal by AMF id, early return included |
| `AmfTables.AmfTables.RemoveUeByRan` | component/oai-amf/amf_n2.cpp:2796-2832 | the heap form of the removal by RAN id |
| `AmfTables.AmfTables.UeContextsOn` | component/oai-amf/amf_n2.cpp:2835-2843 | the list built holds exactly the contexts of the RAN index that are on the association |
| `AmfTables.AmfTables.NgSetup` | component/oai-amf/amf_n2.cpp:391-600 | the heap form of NG Setup: refusals, the stored gNB id, the loop unless UEs are retained, and the state after an encoded response |
| `AmfTables.AmfTables.RebindNas` | component/oai-amf/amf_n1.cpp:391-419 | the heap form of re-binding the NAS record that a GUTI leads to; its entry under the old AMF id stays |
| `AmfTables.AmfTables.NgReset` | component/oai-amf/amf_n2.cpp:614-656 | the loop over that list refines the registry step for which completeness and frame are proved |
| `AmfTables.AmfTables.NgShutdown` | component/oai-amf/amf_n2.cpp:690-729 | the same for NG Shutdown |
| `Tasks.Handle` | component/oai-amf/amf_n2.cpp:82-305 | one turn of the task loop on the heap takes the step of its message, with a list that answers get_ue_ngap_contexts, and from valid tables, with the guard met, leads to valid ones |
| `Tasks.Reset` | component/oai-amf/amf_n2.cpp:614-656 | on the heap: from valid tables NG Reset is complete if and only if no release is awaited for the UEs of the association, clears the keys of the gNB if and only if every one is a home there, and keeps all others |
| `Tasks.Shutdown` | component/oai-amf/amf_n2.cpp:690-729 | the same of NG Shutdown |
| `AmfTables.AmfTables.RestoreUe` | component/oai-amf/amf_app.cpp:3365-3446 | the heap form of a restore; a failed one has written the NAS record only |
| `Restore.RestoredLookups` | component/oai-amf/amf_app.cpp:3376-3442 | after a restore the AMF id leads to the restored NGAP context and the SUPI to its AMF id and NAS record, with the snapshot's ids; the AMF id leads to the NAS record exactly if that is new with an AMF id other than 0, or was found there before |
| `Restore.RestoreFrame` | component/oai-amf/amf_app.cpp:3365-3446 | every entry of another SUPI, AMF id or RAN key is as before, and every UE context but the one under the ids, which takes the ids and keeps its gNB id |
| `Restore.FailedRestoreFrame` | component/oai-amf/amf_app.cpp:3376-3408 | a restore whose keys do not decode has written the NAS record and, if that is new, its table entries, and nothing else |
| `Restore.RestoredByRan` | component/oai-amf/amf_n2.cpp:3103-3105 | the lookup by RAN id and gNB id finds the restored context if and only if association number, RAN id and gNB id coincide |
| `Restore.RestoreAgreement` | component/oai-amf/amf_app.cpp:3365-3446 | a restore keeps agreement if and only if the key written is (RAN id, gNB id of the association), the target has a UE context of the ids that names this gNB, no live UE with another AMF id is under the key, and what the AMF id led to before was under this key alone |
| `Restore.RestoredLookupsAgree` | component/oai-amf/amf_n2.cpp:3103-3105 | the lookups of the restored AMF id alone agree if and only if the first two of these hold |
| `Restore.RestoreOnFreshTarget` | component/oai-amf/amf_app.cpp:3376-3442 | a concrete target, one gNB with association number, gNB id and RAN id all 5 and no UE, where a restore loses agreement because no UE context is entered |
| `Restore.RestoreOfKnownUe` | component/oai-amf/amf_app.cpp:3365-3446 | of a UE that the target has already, at home where association number, RAN id and gNB id coincide, a restore keeps agreement if and only if no handover release of it is awaited |
| `NasSecurity.ProtectedRoundTrip` | component/oai-amf/amf_n1.cpp:460-532 | a message framed as encode_nas_message_protected frames header type 2, in uplink direction and with an overflow counter that agrees on 16 bits, is accepted whatever sequence number the receiver held, if and only if it has at least 3 octets; its octets come out first and in full, alone unless NEA1 fills its last word, so it comes out exactly if and only if not NEA1 or a multiple of 4 octets |
| `NasSecurity.AcceptedIsFramed` | component/oai-amf/amf_n1.cpp:495-524 | conversely whatever is accepted under header type 2 is, octet for octet, the frame of what was read from it, but for the upper half of its second octet, which the receiver masks off |
| `NasSecurity.BareRoundTrip` | component/oai-amf/amf_n1.cpp:3711-3714 | under NIA0 the message goes out bare and comes back exactly when it is a plain 5GMM message |
| `NasSecurity.FrameParts` | component/oai-amf/amf_n1.cpp:3682-3717 | octet by octet what is sent: 0x7e, the header type, the MAC of the algorithm high octet first, the sequence number, and then the message itself, or under header type 2 combined with the keystream of the algorithm for the COUNT of 16 bits of overflow and the sequence number |
| `NasSecurity.XorAt` | component/oai-amf/amf_n1.cpp:3852-3870 | the combination is exclusive or, bit by bit |
| `NasSecurity.ProtectedExactly` | component/oai-amf/amf_n1.cpp:3670-3749 | which header types go out framed, which empty and which call is refused; every other call moves the downlink sequence number on by one modulo 256, and nothing else |
| `NasSecurity.ReceivedUnchecked` | component/oai-amf/amf_n1.cpp:436-478 | what is dropped, and that a plain message is taken whole and one of header type 1 from octet 7 on |
| `NasSecurity.ReceivedChecked` | component/oai-amf/amf_n1.cpp:479-532 | a message of header type 2, 3 or 4 is accepted if and only if there is a context and, unless it says NIA0, the MAC is right; octet by octet what is then read |
| `NasSecurity.CheckedAlike` | component/oai-amf/amf_n1.cpp:479-532 | these three header types make no difference, to what is read or to the context |
| `NasSecurity.HeldAfter` | component/oai-amf/amf_n1.cpp:495-524 | the sequence number of a checked message is held afterwards, accepted or not, and nothing else changes |
| `NasSecurity.CipherInverts` | component/oai-amf/amf_n1.cpp:3815-3877 | deciphering inverts ciphering on the octets of the message, for every key, COUNT, direction and algorithm of the three |
| `NasSecurity.SecurityContext.IntegrityProtected` | component/oai-amf/amf_n1.cpp:3752-3812 | what is returned for each algorithm, and that an uplink call, matching or not, makes the sequence number of the message the one held |
| `NasSecurity.SecurityContext.EncodeProtected` | component/oai-amf/amf_n1.cpp:3670-3749 | the frame built in a fixed 4096-octet buffer is the one whose round trip is proved; every call but a refused one takes a number |
| `NasSecurity.Unprotect` | component/oai-amf/amf_n1.cpp:436-536 | the uplink path, from header check to plain message, yields what the round trip theorem speaks of, with or without a security context |
| `Numbering.NumberedInOrder` | component/oai-amf/amf_n1.cpp:3682-3748 | after a new security context zeroed the counts, the k-th call not refused carries k-1 modulo 256 wherever it frames its message, and a refused call outputs nothing and consumes no number |
| `Numbering.NumbersRepeatEvery256` | component/oai-amf/amf_n1.cpp:3746-3748 | two framed messages carry the same octet if and only if the calls between them took a multiple of 256 numbers, so any 256 in a row differ |
| `Numbering.CountRepeats` | component/oai-amf/amf_n1.cpp:3820-3829 | the COUNT of ciphering is the number of messages before modulo 256; it is the one section 4.4.3.1 of TS 24.501 prescribes if and only if that number is below 256 |
| `NasProcedures.RunKeepsValid` | component/oai-amf/amf_n1.cpp:2823-2834 | over any run of the handlers, failing ones included, authentication and security mode control never run at once, a registered UE has a security context, and a security context is never lost |
| `NasProcedures.ReachableIsValid` | component/oai-amf/amf_n1.cpp:3384-3389 | the same in every state that a new NAS context reaches |
| `NasProcedures.StepByField` | component/oai-amf/amf_n1.cpp:1134-3528 | every handler, for every outcome of what it depends on, does what ten definitions say that each give one field by the events that set it and take it back |
| `NasProcedures.RegisteredExactlyBy` | component/oai-amf/amf_n1.cpp:1453-1553 | a UE becomes registered by exactly a Security Mode Complete that clears, encodes and has its Kamf where asked, with a security context, an Initial UE Service Request that is served with a held or adopted context, and a restore; and de-registered by exactly a completed de-registration or a reject that was sent |
| `NasProcedures.FlagsExactlyBy` | component/oai-amf/amf_n1.cpp:2823-3090 | authentication starts by exactly these: vectors for an initial registration, one on mobility without context, an Identity Response or after a failure of synchronisation, and a clash of key set identifiers in a context; and it ends by any answer; security mode control starts by exactly a successful answer |
| `NasProcedures.OnlyCompleteClears` | component/oai-amf/amf_n1.cpp:3203-3384 | from a state with security mode control running, a step ends it if and only if it is a Security Mode Complete that passes every check before the flag; a Security Mode Reject does not |
| `NasProcedures.BlockedUntilComplete` | component/oai-amf/amf_n1.cpp:2875-2894 | until such a message no run starts authentication again |
| `NasProcedures.OneCommandPerRenewal` | component/oai-amf/amf_n1.cpp:3108-3134 | once its security context is no longer new, no run without a Registration Request, adopted context or restore ends where a successful authentication sends a Security Mode Command, although it raises the flag |
| `NasProcedures.RegistrationCompletes` | component/oai-amf/amf_n1.cpp:3384-3528 | from every state with no procedure running, Registration Request with a SUCI, Authentication Response and Security Mode Complete lead to a registered UE with a full security context and no procedure running, and the command goes out on the way |
| `NasProcedures.GutiAsksForIdentity` | component/oai-amf/amf_n1.cpp:2328-2335 | with a GUTI and no SUPI authentication does not start before the Identity Response, which starts it |
| `NasProcedures.NasContext.StartSecurityModeControl` | component/oai-amf/amf_n1.cpp:3094-3170 | the flag goes up in every case, and a command is sent if and only if the security context was not available before and the message encodes |
| `NasProcedures.NasContext.StartAuthenticationProcedure` | component/oai-amf/amf_n1.cpp:2823-2872 | refused without effect if a common procedure runs; otherwise the flag is up even where the request does not encode |
| `NasProcedures.NasContext.RegistrationRequestHandle` | component/oai-amf/amf_n1.cpp:1619-2033 | the handler, through every refusal, leaves the context as the step that the run theorems are about |
| `NasProcedures.NasContext.AuthenticationResponseHandle` | component/oai-amf/amf_n1.cpp:2898-2998 | the same, and when it sends a Security Mode Command |
| `NasProcedures.NasContext.AuthenticationFailureHandle` | component/oai-amf/amf_n1.cpp:3001-3090 | the same for each failure cause |
| `NasProcedures.NasContext.SecurityModeCompleteHandle` | component/oai-amf/amf_n1.cpp:3203-3528 | the same for each of its early returns |
| `NasProcedures.NasContext.InitialServiceRequestHandle` | component/oai-amf/amf_n1.cpp:1134-1576 | the same, with the security context taken over by GUTI, and the exception where there is none to take; its answer is true exactly if the request registers the UE |
| `NasProcedures.NasContext.UplinkServiceRequestHandle` | component/oai-amf/amf_n1.cpp:912-1131 | the same: acceptance leaves the 5GMM state, a reject that was sent de-registers |
| `Migration.HexToBytes32` | component/oai-amf/amf_app.cpp:3298-3316 | succeeds if and only if the text is 64 hex digits of either case; the buffer then holds their values, and after a failure exactly the pairs before the first bad one have been overwritten |
| `Migration.OverwrittenAt` | component/oai-amf/amf_app.cpp:3298-3316 | octet i of the buffer is the value of its two digits exactly if the text has 64 characters and those up to there are hex digits, and else what it was |
| `Migration.DigitsAre` | component/oai-amf/amf_app.cpp:3301-3306 | which characters read as which nibble, and which character a nibble prints as |
| `Migration.HexRoundTrip` | component/oai-amf/amf_n1.cpp:2775-2778 | decoding the "%02x" print of a 32-octet key gives the key |
| `Migration.HexIsCaseFolded` | component/oai-amf/amf_app.cpp:3301-3314 | printing a decoded key gives its digits in lower case |
| `Migration.PackInverts` | component/oai-amf/orchra_context.cpp:172-176 | unpacking inverts packing if and only if the overflow counter fits 24 bits, and packing inverts unpacking for every 32-bit number |
| `Migration.SnapshotTakesKeys` | component/oai-amf/orchra_context.cpp:161-190 | a snapshot has the SUPI, the Kseaf and the Kamf that the vector pointer selects |
| `Migration.SnapshotTakesCounts` | component/oai-amf/orchra_context.cpp:161-190 | the packed counts and the pointer, zero without a security context |
| `Migration.MigrationPreservesSecurity` | component/oai-amf/orchra_context.cpp:161-190 | for every source, snapshot, JSON and restore give a target whose Kamf at vector pointer 0 is the source's active one, whenever the Kseaf is a key; each pair of counts is equal if and only if its overflow counter fits 24 bits |
| `Migration.Migrate` | component/oai-amf/amf_app.cpp:3319-3363 | the same on the target's memory: success if and only if the Kseaf is a key, active Kamf as at the source, each pair of counts if and only if its overflow counter fits 24 bits, and an untouched security context after a failure |
| `Migration.TargetContext.RestoreSecurity` | component/oai-amf/amf_app.cpp:3319-3363 | exact content of every field and key buffer after success and failure: a failure leaves security context and both flags as they were |
| `Migration.FailedRestoreKeepsActive` | component/oai-amf/amf_app.cpp:3336-3344 | a restore that fails for either key leaves the Kamf of vector 0 unchanged if and only if Kseaf was no key, the Kamf text was not of 64 characters, or what could be decoded repeats what was there |
| `Migration.RedisLosesCounts` | component/oai-amf/orchra_redis.cpp:44-55 | sources that differ only in their counts leave the same Redis record |
| `SnapshotCodecs.JsonRoundTrip` | component/oai-amf/orchra_context.cpp:24-68 | from_json after to_json gives all nineteen serialised fields, into any object, and leaves that object's other nine |
| `SnapshotCodecs.JsonTellsApart` | component/oai-amf/orchra_context.cpp:24-46 | two snapshots have the same JSON form if and only if those fields are equal |
| `SnapshotCodecs.JsonCarriesNumbers` | component/oai-amf/orchra_context.cpp:24-46 | which key carries which number |
| `SnapshotCodecs.BadObjectsStop` | component/oai-amf/orchra_context.cpp:49-68 | reading stops exactly at a value of the wrong type or, for a record, a missing key |
| `SnapshotCodecs.RecordRoundTrip` | component/oai-amf/orchra_redis.cpp:44-61 | import after export gives the ten fields, the PDU session id if and only if it is below 256 |
| `SnapshotCodecs.RecordIsPartOfJson` | component/oai-amf/orchra_redis.cpp:45-55 | the keys of the Redis record are a proper part of those of the JSON form, with equal values but for a PDU session id of 2^31 or more |
| `SnapshotCodecs.LastStoredIsLast` | component/oai-amf/orchra_redis.cpp:56-62 | of the exports of one UE the one that counts is the last whose SET did not fail |
| `SnapshotCodecs.ImportAfterHistory` | component/oai-amf/orchra_redis.cpp:56-113 | over any history of exports and failures, an import yields the projection of that UE's last stored export while it has not expired, nothing otherwise, and never another UE's |
| `SnapshotCodecs.StoreAfterHistory` | component/oai-amf/orchra_redis.cpp:56-62 | after any history the store has a UE's record exactly under "orchra:ue:" and the SUPI, that of the last stored export, for 120 seconds unless the deadline could not be set |
| `SnapshotCodecs.RedisClient.ExportSnapshot` | component/oai-amf/orchra_redis.cpp:35-80 | what is stored, and until when, where either Redis command or the connection fails |
| `SnapshotCodecs.RedisClient.ImportSnapshot` | component/oai-amf/orchra_redis.cpp:86-122 | the lookup that the history theorem is about, and nothing without a connection |
| `Promises.FirstAnswerStays` | component/oai-amf/amf_app.cpp:2795-2800 | a promise keeps its first answer whatever comes later |
| `Promises.AnswerOrderIrrelevant` | component/oai-amf/amf_app.cpp:2788-2801 | exchanging two answers to different promises changes the outcome of none |
| `Promises.ReleasedExactly` | component/oai-amf/amf_app.cpp:2919-2955 | a session is released if and only if the first answer to its promise comes in a batch up to its own wait, which has as many before it as there are smaller ids, and carries 200 or 204 |
| `Promises.PromiseTable.TriggerProcessResponse` | component/oai-amf/amf_app.cpp:2788-2801 | an answer fulfils the promise of its id, which held none, and takes it out of the table; without one it is dropped; every promise ever added holds the first answer since |
| `Promises.PromiseTable.AddPromise` | component/oai-amf/amf_app.cpp:2771-2776 | a promise under an id not in the table is tracked from then on; an id in the table keeps the promise it has |
| `Promises.TriggerUpDeactivation` | component/oai-amf/amf_app.cpp:2871-2958 | whatever order answers come in and whichever are late or missing, exactly the sessions whose own first answer came by the end of their wait and was 200 or 204 become DEACTIVATED; all others keep their state; the wait loop terminates |
| `CommonPlmn.GetCommonPlmn` | component/oai-amf/amf_n2.cpp:2921-2973 | one item is appended for every (configured PLMN, tracking area, broadcast PLMN) triple matching on TAC, MCC and MNC, in loop order, and no other; true if and only if some such triple shares a slice |
| `CommonPlmn.CollectSlices` | component/oai-amf/amf_n2.cpp:2946-2959 | the slices of an item, and whether there are any |
| `CommonPlmn.CommonSlicesAreShared` | component/oai-amf/amf_n2.cpp:2946-2959 | a slice is carried if and only if gNB and configuration both have it |
| `CommonPlmn.CommonMultiplicity` | component/oai-amf/amf_n2.cpp:2946-2959 | a slice that the gNB names m times and the configuration n times is carried m*n times |
| `CommonPlmn.ItemCarries` | component/oai-amf/amf_n2.cpp:2939-2966 | the item of a matching triple has the tracking area, the one PLMN of both sides, and each slice as often as both lists have it, multiplied |
| `CommonPlmn.CommonInOrder` | component/oai-amf/amf_n2.cpp:2946-2959 | the slices keep the order of the gNB |
| `Nssai.CheckSubscribedNssai` | component/oai-amf/amf_n1.cpp:5622-5715 | the answer is the verdict of the specification, for a known UE |
| `Nssai.VerdictIsOfTheLast` | component/oai-amf/amf_n1.cpp:5635-5647 | that verdict is true if and only if some configured PLMN of the UE's tracking area serves every required slice and no later one is of that tracking area |
| `Nssai.ServedBy` | component/oai-amf/amf_n1.cpp:5649-5708 | one PLMN's verdict is inclusion in its slice list of the requested slices that are subscribed, or of all default ones if there are none such |
| `Nssai.NssaiLists` | component/oai-amf/amf_n1.cpp:5221-5295 | the allowed list is the common list in order; the rejected one is what is outside it of the requested, or else subscribed, list |
| `Nssai.RequestedArePartitioned` | component/oai-amf/amf_n1.cpp:5250-5289 | every requested slice is in the common list or among the rejected, with its multiplicity, never both, and nothing else is rejected |
| `Nssai.RejectedInOrder` | component/oai-amf/amf_n1.cpp:5250-5289 | the rejected keep the order of the request |
| `PduBitmap.SessionsToActivate` | component/oai-amf/amf_n1.cpp:5159-5170 | the list has exactly the ids 1 to 15 whose bit is set, without duplicates, low octet first; bit 8 is never listed |
| `PduBitmap.BitmapRoundTrip` | component/oai-amf/amf_n1.cpp:6185-6210 | the code is a bijection between sets of ids 1 to 15 and bitmaps whose bit 8 is clear |
| `PduBitmap.DecodedBits` | component/oai-amf/amf_n1.cpp:5159-5170 | which bit stands for which session |
| `PduBitmap.SetStatusInactive` | component/oai-amf/amf_n1.cpp:6185-6195 | exactly this session leaves the status |
| `PduBitmap.SetReactivationResult` | component/oai-amf/amf_n1.cpp:6198-6210 | exactly this session enters the result |
| `PduBitmap.ActivateSessions` | component/oai-amf/amf_n1.cpp:3393-3434 | after the loop the status shows the sessions it showed but for those lacking N2 information, and the reactivation result exactly those, each if its element is present |
| `PduBitmap.ResultWithinUplink` | component/oai-amf/amf_n1.cpp:1462-1503 | the reactivation result is a bit-subset of the uplink data status |
| `PduBitmap.EarlyIesAreStale` | component/oai-amf/amf_n1.cpp:1039-1093 | the elements that the other Service Request handler sets before its loop are right if and only if no asked session lacks N2 information |
| `Algorithms.PreProcess` | component/oai-amf/amf_config.cpp:1254-1288 | the preference list is the list of names, or the default one, translated in order |
| `Algorithms.PreferenceKeepsOrder` | component/oai-amf/amf_config.cpp:1254-1280 | what is named first is preferred |
| `Algorithms.ChosenIsFirst` | component/oai-amf/amf_n1.cpp:3176-3200 | the choice is the supported algorithm of least index, and 0 where none is supported |
| `Algorithms.CapabilityIsItsBits` | component/oai-amf/amf_n1.cpp:3180-3196 | a capability octet is the sum of the bits of the algorithms it supports, algorithm 0 at the highest |
| `Algorithms.NamesAre` | component/oai-amf/amf_config.cpp:1254-1288 | a name is its prefix and the digit of the algorithm |
| `Algorithms.SelectAlgorithms` | component/oai-amf/amf_n1.cpp:3176-3201 | both choices, and success if and only if each list has a supported algorithm |
| `Algorithms.DefaultPrefersIntegrity` | component/oai-amf/amf_config.cpp:552-558 | with the default list NIA0 is chosen if and only if the UE supports neither NIA2 nor NIA1, whether or not it supports NIA0 |

## Left out

- ASN.1, NGAP and NAS information element encoding, SCTP, HTTP and MIME, logging, statistics and event notifications.
- The algorithms behind MAC, keystream and key derivation; the keys of NAS integrity and ciphering after a restore, which the code does not derive.
- Interleavings within a handler; mutexes and the task bus.
- Header types 1 and 4 of a downlink message, for which the code frames nothing, beyond that they take a number; the round trip of the Security Mode Command, which is sent in clear under a header that the uplink path deciphers.
- Encryption algorithms past NEA2, for which the code leaves its output unset.
- Teardown.NgSetupAgreement: does not cover an NG Setup that gives up UEs under a new gNB id where a RAN key already carries that id and the RAN id of one of them; what is left then can depend on the order of the list, as RegistryLimits.SetupDependsOnOrder shows. Teardown.SetupTears is stated for the same ids.
- NG Reset of part of an interface.
- The N1 message notification, which also draws an AMF id; the table of GUTIs.
- Path switch, handover cancel and failure, paging, and UE context modification.
- The order in which one Initial UE Message is handled by the two tasks: its NGAP part and the assignment of the AMF id are two events.
- The statuses of PDU sessions in Release Complete and Handover Required, and the activation that precedes the bitmap loops; whether N2 information is there afterwards is an input.
- `get_amf_set_id`, `discover_smf`, `remove_event_subscription`, `trigger_pdu_session_up_activation` and the configuration's `from_json`.
- JSON values that are neither text nor integer; the SMF's snapshot functions.
- The orchestrator, the scripts and the deployment files.
