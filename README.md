# Audio manager and TX-timestamp bookkeeping, modelled in Dafny

This project models two parts of the BlueZ sources.

**The audio device manager (`audio/manager.c`).** It covers:
- the registry of audio devices (the global `devices` list, the `device_id` counter and the object paths it hands out);
- the default headset (`default_hs`) and how it is re-derived when its device goes away;
- the service discovery that runs for a new device. This is a four-phase state machine. It enumerates service handles for three profile groups, then fetches each distinct handle's record. It classifies the records by their first service class. Finally it finishes exactly once, checking the caller's required interfaces and publishing the device;
- the manager's bus methods: CreateDevice, ListDevices, CreateHeadset, RemoveDevice / RemoveHeadset, ListHeadsets, FindDeviceByAddress, DefaultHeadset and ChangeDefaultHeadset;
- the internal headset-connected entry point.

**The TX-timestamp expectation table of the test tools (`tools/tester.h`).** It is a sixteen-entry array filled by `tx_tstamp_expect` and consumed by the matching tail of `tx_tstamp_recv`.

Files (one module each):
- `wrappers.dfy`: `Option`.
- `ints.dfy`: the 32-bit unsigned type.
- `sdp.dfy`: UUIDs of the three widths, parsed records and `get_service_uuid`.
- `classifier.dfy`: `strcmp`, `record_iface_cmp`, profile slots, `device_supports_interface` and `device_matches`.
- `registry.dfy`: class `Device`, object paths, `find_device`, list removal, the default re-scan and the listing filters.
- `handles.dfy`: the handle queue and `find_handle`.
- `session.dfy`: class `SdpSession`, phases and bus events.
- `manager.dfy`: class `AudioManager`, with the discovery steps and the bus methods.
- `tx_tstamp.dfy`: class `TxTstampData`.

How the model represents the manager:
- Its state lives in an `AudioManager` object: `devices`, `defaultHs`, `deviceId`, and the append-only `log` of everything sent on the bus.
- A discovery is an `SdpSession` object whose handle queue, record list, phase and outstanding query the reply handlers update in place.
- Every collaborator outcome the code depends on is an input. These are: whether a request could be sent, whether the object path and interface could be registered, and whether `headset_init` returns a headset. They are bundled as `Env`.
- The adapter's replies are inputs too (`HandlesReply`, `RecordReply`).

Two behaviours of the code are easy to misread; the model follows the code in both:
- After removing the default headset, `am_remove_device` re-scans the list without a `break`, so the new default is the **last** remaining device with a headset, not the first.
- `finish_sdp` ignores the result of `add_device`. When registration fails, the caller still gets the path and DeviceCreated is still sent, but the device is not registered.

`device_supports_interface` answers the Source interface from the gateway slot (audio/manager.c:802-803). The model keeps this: `Classifier.DeviceMatches`, and with it CreateDevice and ListDevices, use the check as written. The defect is latent in this file, because no device the manager holds ever has a gateway or a source slot:
- `create_device` zero-fills a device.
- Only the headset slot is ever assigned.
- `AudioManager.Valid` records this.
- `AudioManager.MatchingAgreesOnRegistry` proves that the as-written and the corrected checks give every registered device the same answer.

The `source` slot that the corrected reading uses is declared with `audio_device_t` in `manager.h`, which is not part of this model. The corrected check is `Classifier.SupportsInterface` / `Classifier.DeviceMatchesCorrected`.

In one place the model deliberately uses the corrected behaviour rather than the code's (see "## Findings"). When CreateHeadset removes an existing device whose headset cannot be initialised, the model re-derives the default headset. The code leaves `default_hs` pointing at the removed device (audio/manager.c:966-973); `Registry.DefaultAfterInitFailureAsWritten` models the code.

## Model

| member | source | states |
|---|---|---|
| Sdp.ShrinkUuid | audio/manager.c:287-291 | A UUID reduces exactly when it has a 32-bit alias: it is short already, or it is 128 bits on the Base UUID. The reduced form is short and has the same alias. A 128-bit UUID reduces to 32 bits only when its alias exceeds 0xFFFF. |
| Sdp.GetServiceUuid | audio/manager.c:274-306 | The class id is the 16-bit alias of the record's first service class, or 0 when there is none. The alias is defined independently, through `Alias`. |
| Sdp.ClassifiedIffFirstClassIsAlias | audio/manager.c:274-306 | A record is classified as a non-zero class v exactly when its first service class is an alias of v. |
| Sdp.OnlyFirstClassConsulted | audio/manager.c:285 | Service classes after the first never change the classification. |
| Sdp.AllWidthsClassifyAlike | audio/manager.c:287-300 | The 16-bit, 32-bit and Base-UUID 128-bit forms of a class id classify alike. |
| Sdp.UnclassifiedCases | audio/manager.c:280-298 | The result is 0 in three cases: no service classes, a 128-bit UUID off the Base UUID, and a 32-bit value above 0xFFFF. |
| Classifier.StrCmp | audio/manager.c:995-1001 | The comparison is -1, 0 or 1, and 0 exactly when the strings are equal. |
| Classifier.RecordIfaceCmp | audio/manager.c:385-414 | The result is 0 exactly when the record's class provides an interface whose name is the argument. It is -1 for every class outside the fixed table. |
| Classifier.MatchesIffCmpZero | audio/manager.c:385-414 | `record_iface_cmp` returns 0 exactly when the record's class provides the interface of that name, the match `g_slist_find_custom` looks for. |
| Classifier.ClassifierRoundTrip | audio/manager.c:385-414 | Take a record whose first class is a known class, in any width. `record_iface_cmp` returns 0 for that class's interface name and for no other interface name. |
| Classifier.UnknownClassMatchesNothing | audio/manager.c:410-412 | For a record whose class provides no interface, `record_iface_cmp` returns -1 whatever the name. |
| Classifier.FindRecord | audio/manager.c:455 | `g_slist_find_custom` over the records with `record_iface_cmp`: an index it returns is a position of the list. |
| Classifier.FindRecordNoneIffNoMatch | audio/manager.c:455 | The record search finds nothing exactly when no record matches the name. |
| Classifier.FindRecordFirstMatch | audio/manager.c:455 | When the record search finds a record, that record matches the name and no earlier record does. |
| Classifier.FindMissingInterface | audio/manager.c:452-463 | The loop over the required interfaces reports none missing exactly when every required name is matched by some record. Otherwise it reports the first unmatched one. |
| Classifier.SupportsInterfaceAsWritten | audio/manager.c:793-817 | `device_supports_interface` as written: the six interface names map to slots, Source to the gateway slot, and any other name to false. Its meaning is fixed by `SourceInterfaceAnsweredByGateway` and `AsWrittenAgreesElsewhere`. |
| Classifier.SupportsInterface | audio/manager.c:793-817 | The corrected `device_supports_interface`, with Source mapped to the source slot; `SupportsInterfaceMeaning` states what it decides. |
| Classifier.SupportsInterfaceMeaning | audio/manager.c:793-817 | For the corrected check: a name is supported exactly when it names one of the six interfaces and that interface's slot is present. Unknown names are never supported. |
| Classifier.SourceInterfaceAnsweredByGateway | audio/manager.c:802-803 | The code as written answers the Source interface from the gateway slot. It rejects a source-only device and accepts a gateway-only one; the corrected check does the opposite. |
| Classifier.SourceInterfaceIsGatewaySlot | audio/manager.c:802-803 | On every device, the as-written check answers Source with the gateway slot and the corrected check with the source slot. |
| Classifier.AsWrittenAgreesElsewhere | audio/manager.c:793-817 | On every name other than Source, the code as written and the corrected check agree. |
| Classifier.DeviceMatches | audio/manager.c:819-831 | `device_matches` as written, over `SupportsInterfaceAsWritten`; `DeviceMatchesAll` states what it decides. |
| Classifier.DeviceMatchesAll | audio/manager.c:819-831 | A device matches a list of names exactly when the as-written check accepts each of them; the empty list always matches. |
| Classifier.DeviceMatchesCorrected | audio/manager.c:819-831 | The corrected `device_matches`: the device matches exactly when the corrected check accepts every name of the list. |
| Classifier.MatchesAgreeWithoutSource | audio/manager.c:802-803 | The as-written and corrected `device_matches` agree on every list that does not name the Source interface. |
| Classifier.AgreeWithoutGatewayOrSource | audio/manager.c:802-803 | On a device with neither a gateway nor a source slot, the as-written and corrected `device_matches` agree on every list. |
| Classifier.GatewayOnlyMatchesSourceAsWritten | audio/manager.c:802-803 | A gateway-only device matches `["org.bluez.audio.Source"]` as written but not under the corrected check. |
| Classifier.CheckMatches | audio/manager.c:819-831 | The loop stops at the first name the as-written check rejects, and returns exactly `DeviceMatches`. |
| Classifier.NoProfilesMatchOnlyNothing | audio/manager.c:819-831 | A device with no profile slot matches only the empty list. |
| Classifier.MatchesMonotone | audio/manager.c:819-831 | Adding profile slots never makes a device stop matching. |
| Registry.Decimal | audio/manager.c:235-236 | The decimal rendering is never empty, and it has one digit exactly for numbers below ten. |
| Registry.DecimalInjective | audio/manager.c:235-236 | Distinct numbers have distinct decimal renderings. |
| Registry.DevicePath | audio/manager.c:235-236 | The `"%s/device%d"` path of a counter value; `DevicePathsDistinct` states that distinct values give distinct paths. |
| Registry.DevicePathsDistinct | audio/manager.c:226-239 | Devices created with different counter values get different object paths. |
| Registry.Device.constructor | audio/manager.c:226-239 | A new device has the given address, the path of its number, and no profile slot. |
| Registry.Device.HandleRecord | audio/manager.c:343-383 | A headset-class record fills an empty headset slot with `headset_init`'s outcome. A present slot stays present. Every other class changes nothing. |
| Registry.Device.ApplyRecords | audio/manager.c:478-479 | After all records are handled, the headset slot is present exactly when it already was, or when some record is of the headset class and `headset_init` succeeds. No other slot changes. |
| Registry.FindDevice | audio/manager.c:152-163 | `find_device`: a device it returns is in the list and has the address asked for. |
| Registry.FindDeviceFirst | audio/manager.c:152-163 | `find_device` returns null exactly when no device has the address. Otherwise it returns the first device in list order that has it. |
| Registry.FindFirstAt | audio/manager.c:152-163 | When position i is the first with the address, `find_device` returns the device at i. |
| Registry.FindAfterAppend | audio/manager.c:251-272 | After an unknown device is appended, looking up its address finds it. |
| Registry.FindUnaffectedByAppend | audio/manager.c:251-272 | Appending a device never changes the result for an address that was already found. |
| Registry.FindAfterRemove | audio/manager.c:241-248 | Removing the only device with an address makes the address unknown. |
| Registry.FindByPath | audio/manager.c:995-1001 | The lookup by object path is null exactly when no device has the path. Otherwise it returns a registered device with that path. |
| Registry.IndexOf | audio/manager.c:241-248 | The position found holds the element, and the element does not occur before it. |
| Registry.RemoveFirst | audio/manager.c:241-248 | `g_slist_remove` on the device list; `RemoveFirstSplit` and `RemoveFirstOfDistinct` state what it returns. |
| Registry.RemoveFirstSplit | audio/manager.c:241-248 | `g_slist_remove` keeps everything before and after the first occurrence, in order. A list without the element is unchanged. |
| Registry.RemoveFirstAppended | audio/manager.c:241-272 | Removing a device right after appending it gives the list back. |
| Registry.RemoveFirstOfDistinct | audio/manager.c:241-248 | In a duplicate-free list, removal drops exactly that device and shortens the list by one. The result stays duplicate-free and keeps every other member. |
| Registry.LastHeadset | audio/manager.c:1046-1051 | The re-scan loop without a `break`; `LastHeadsetMeaning` states that it yields the last device with a headset. |
| Registry.LastHeadsetMeaning | audio/manager.c:1040-1053 | The re-scan yields null exactly when no device has a headset. Otherwise it yields a headset device with no headset device after it. |
| Registry.DefaultAfterRemoval | audio/manager.c:1040-1053 | The default after a removal: kept unless it was the removed device, and otherwise re-scanned; `DefaultAfterRemovalMeaning` states what it yields. |
| Registry.DefaultAfterRemovalMeaning | audio/manager.c:1036-1060 | Removing a device other than the default keeps the default. Removing the default yields a remaining headset device or none, and the result is never the removed device. |
| Registry.DefaultAfterInitFailureAsWritten | audio/manager.c:966-973 | The default headset as the code leaves it after the init-failure removal: unchanged, even when it was the removed device. |
| Registry.InitFailureLeavesDanglingDefault | audio/manager.c:966-973 | The code as written can keep a removed device as the default; the corrected re-derivation never does. |
| Registry.RemovingDefaultPicksRemainingHeadset | audio/manager.c:1036-1060 | With D1 (no headset), D2 and D3 (headsets) and D2 the default, removing D2 makes D3 the default. |
| Registry.RescanPrefersLastHeadset | audio/manager.c:1043-1050 | With two remaining headset devices, the one later in the list becomes the default. |
| Registry.MatchingPaths | audio/manager.c:915-926 | The filter of `am_list_devices`: the paths of the devices that pass `device_matches`, in list order; `MatchingPathsMeaning` states it. |
| Registry.MatchingPathsMeaning | audio/manager.c:884-933 | ListDevices lists the path of every registered device that matches the required interfaces, and only such paths. |
| Registry.HeadsetPaths | audio/manager.c:1101-1112 | The filter of `am_list_headsets`: the paths of the devices with a headset, in list order; `HeadsetPathsMeaning` states it. |
| Registry.HeadsetPathsMeaning | audio/manager.c:1084-1117 | ListHeadsets lists the path of every registered device with a headset, and only such paths. |
| HandleQueue.FindHandle | audio/manager.c:607-616 | `find_handle` finds nothing exactly when the handle is not queued. Otherwise it finds a position holding it. |
| HandleQueue.AppendNew | audio/manager.c:643-654 | Merging keeps the queue as a prefix and adds at most the arrivals. The result holds exactly the queued and arrived handles. |
| HandleQueue.AppendNewKeepsDistinct | audio/manager.c:643-654 | Merging arrivals into a duplicate-free queue keeps it duplicate-free. |
| HandleQueue.AppendNewIgnoresKnown | audio/manager.c:643-654 | An arriving handle that is already queued changes nothing. |
| HandleQueue.MergeHandles | audio/manager.c:643-654 | The loop returns the merge of the arrivals, and the result is duplicate-free. |
| Session.NextPhase | audio/manager.c:657 | `state++` moves an enumeration phase exactly one step forward. |
| Session.SdpSession.constructor | audio/manager.c:726-737 | A discovery starts in the first phase with an empty queue and no records, and is not yet finished. |
| Manager.AudioManager.constructor | audio/manager.c:80-84 | The manager starts with no devices, no default headset and a zero counter. |
| Manager.AudioManager.CreateDevice | audio/manager.c:226-239 | `create_device` makes a fresh, unregistered device with the current counter's path and no slots, then advances the counter. |
| Manager.AudioManager.MatchingAgreesOnRegistry | audio/manager.c:793-831 | No registered device has a gateway or a source slot, so the as-written and the corrected `device_matches` give every registered device the same answer. |
| Manager.AudioManager.AddDevice | audio/manager.c:251-272 | `add_device` appends the device exactly when both registrations succeed. On failure the list is unchanged. The device, like every device made here, has no gateway or source slot, so `Valid` is kept. |
| Manager.AudioManager.RemoveDevice | audio/manager.c:241-248 | `remove_device` removes exactly that device and keeps the rest in order. |
| Manager.AudioManager.RescanDefault | audio/manager.c:1040-1053 | The re-scan sets the default to the last device with a headset, or null. |
| Manager.AudioManager.RemoveAndRederive | audio/manager.c:1034-1060 | Removal. If the removed device was the default, the default is re-derived and DefaultHeadsetChanged announces its path or "". |
| Manager.AudioManager.FinishSdp | audio/manager.c:416-503 | FinishRemoteServiceTransaction is always sent first. A failed discovery changes nothing else. Without a request, the records are applied. No records or an unmatched required interface gives NotSupported. Otherwise the device is published, the records are applied, and DeviceCreated and the path are sent. Resources are released once. |
| Manager.AudioManager.AnswerRequest | audio/manager.c:438-491 | The request is answered successfully exactly when there are records and every required interface is matched. On failure the registry and slots are untouched. |
| Manager.AudioManager.GetHandles | audio/manager.c:682-724 | The handle request for the current phase is outstanding, or, when it cannot be sent, the discovery fails with "Sending GetRemoteServiceHandles failed". |
| Manager.AudioManager.ResolveServices | audio/manager.c:726-737 | A new discovery for the device enumerates the generic-audio group first. |
| Manager.AudioManager.GetNextRecord | audio/manager.c:564-605 | Exactly the front handle is dequeued. Its record is requested, or the discovery fails with ConnectFailed(EIO). |
| Manager.AudioManager.GetHandlesReply | audio/manager.c:618-680 | An error fails the discovery, with ConnectFailed(EHOSTDOWN) when the connection failed. Otherwise new handles are queued without duplicates and the phase rises by exactly one. Then the next group is enumerated, a record is fetched, or the discovery finishes successfully. |
| Manager.AudioManager.GetRecordReply | audio/manager.c:505-562 | An error fails the discovery. A record that parses is appended and one that does not is skipped. The discovery continues while handles remain, and finishes successfully otherwise. |
| Manager.AudioManager.LookupDevice | audio/manager.c:152-163 | The loop returns `find_device`'s answer: a registered device with that address, or null. |
| Manager.AudioManager.AmCreateDevice | audio/manager.c:833-882 | A known address gets its path at once. An unknown one gets a new device and a discovery that answers later. |
| Manager.AudioManager.AmListDevices | audio/manager.c:884-933 | The loop returns the paths of the devices that match, in registry order. |
| Manager.AudioManager.AmListHeadsets | audio/manager.c:1084-1117 | The loop returns the paths of the devices with a headset, in registry order. |
| Manager.AudioManager.AmFindByAddr | audio/manager.c:1119-1155 | DoesNotExist exactly when no device has the address; otherwise the path of the first device that has it. |
| Manager.AudioManager.AmGetDefaultHeadset | audio/manager.c:1157-1178 | DoesNotExist exactly when there is no default; otherwise the default's path, which is a registered device's path. |
| Manager.AudioManager.AmChangeDefaultHeadset | audio/manager.c:1180-1222 | An unknown path gives DoesNotExist and changes nothing. Otherwise that device becomes the default and DefaultHeadsetChanged is sent. |
| Manager.AudioManager.AmRemoveDevice | audio/manager.c:1003-1082 | An unknown path gives DoesNotExist. Otherwise the device is removed, the default is re-derived if needed, and HeadsetRemoved and DeviceRemoved are sent. |
| Manager.AudioManager.CreateAndAdd | audio/manager.c:749-755 | An unknown address gets a new device at the end of the list, or none when registration fails. The counter advances either way. |
| Manager.AudioManager.AnnounceHeadset | audio/manager.c:775-788 | HeadsetCreated is sent. The device becomes the default only when there was none, and then DefaultHeadsetChanged is sent. |
| Manager.AudioManager.InitHeadset | audio/manager.c:758-762 | `headset_init` fills the slot and the headset is announced, or nothing changes when it fails. |
| Manager.AudioManager.AnnounceNewHeadset | audio/manager.c:766-788 | For a new device: DeviceCreated, a discovery without a request, then the headset announcement. |
| Manager.AudioManager.ManagerHeadsetConnected | audio/manager.c:739-791 | A known headset device is returned unchanged. Otherwise the device is found or created, given a headset and announced. `default_hs` is set only when it was null. A device whose `headset_init` fails stays registered. |
| Manager.AudioManager.EnsureHeadset | audio/manager.c:964-990 | A device with a headset, or whose `headset_init` succeeds, gets HeadsetCreated and its path. Otherwise it is removed with the default re-derived, and the request fails. |
| Manager.AudioManager.CreateHeadsetDevice | audio/manager.c:954-990 | For an unknown address: a registration failure or an init failure leaves the registry as it was. Otherwise the new headset device is appended and its path returned. |
| Manager.AudioManager.AmCreateHeadset | audio/manager.c:935-993 | Combines the two cases above, chosen by `find_device`. No device other than the found one changes its slots. |
| TxTstamp.ExpectedTypesMeaning | tools/tester.h:62-81 | A send queues at most three types, each exactly when its flag is set, pairwise distinct, and never ACK or the sentinel. |
| TxTstamp.SentAfterCases | tools/tester.h:59-60 | In stream mode a send of len > 0 bytes advances `sent` by len and an empty one leaves it. Otherwise every send advances it by one, all modulo 2^32. |
| TxTstamp.StreamSentCountsBytes | tools/tester.h:59-84 | On a stream, `sent` after a series of sends is the start plus the total bytes, modulo 2^32. |
| TxTstamp.DatagramSentCountsSends | tools/tester.h:59-84 | Otherwise, `sent` is the start plus the number of sends, modulo 2^32. |
| TxTstamp.FirstMatchMeaning | tools/tester.h:173-186 | The search finds nothing exactly when no entry is both unconsumed and of the timestamp's type. Otherwise it finds the first such entry. |
| TxTstamp.PendingMark | tools/tester.h:178-180 | Consuming an unconsumed entry lowers the number of pending entries by exactly one. |
| TxTstamp.PendingAppend | tools/tester.h:62-81 | Queuing entries adds them all to the pending count. |
| TxTstamp.QueueKeepsTable | tools/tester.h:54-89 | Queuing after the last queued entry keeps `pos <= count <= 16`, the unset tail and the pending bound. |
| TxTstamp.MarkKeepsTable | tools/tester.h:173-199 | Consuming an entry keeps those invariants, whether the timestamp is then accepted or rejected. |
| TxTstamp.MatchMeansRoom | tools/tester.h:168-171 | Whenever some pending entry would match, `pos < count`, so the "too many timestamps" guard never rejects it. |
| TxTstamp.TxTstampData.Init | tools/tester.h:44-52 | Counters are zero, every entry is all-ones, and the options are stored. |
| TxTstamp.TxTstampData.Expect | tools/tester.h:54-89 | Writes the entries from `count` on, in the order SCHED, SND, COMPLETION, one per enabled flag, all with this send's id; every other entry is unchanged. Returns the number written and advances `count` by it. `sent` is updated per mode. Requires room for the entries. |
| TxTstamp.TxTstampData.QueueIf | tools/tester.h:62-81 | One of the three blocks: when its flag is set, one entry with this send's id and the block's type is written at the position and the position advances by one; otherwise nothing changes. |
| TxTstamp.TxTstampData.QueueAll | tools/tester.h:62-81 | The three blocks together write exactly the expected types from the given position. |
| TxTstamp.TxTstampData.Recv | tools/tester.h:168-199 | With `pos >= count`, or no unconsumed entry of the type, the result is -EINVAL and nothing changes. Otherwise the first such entry is marked 0xffff. Then an OPT_ID id mismatch gives -EINVAL with `pos` unchanged; else `pos` rises by one and `count - pos` is returned. |

## Left out

- D-Bus plumbing is not modelled: message construction, argument unmarshalling and the InvalidArguments replies, `send_message_and_unref`, the method and signal tables, and `error_reply` and the `err_*` helpers. Replies are values and signals are entries of the event log.
- Out-of-memory branches (`dbus_message_new_*` returning NULL) are not modelled.
- `finish_sdp` re-parses the request's arguments (audio/manager.c:434-442). That failure path is not modelled: the required interfaces are kept with the request.
- The collaborators are opaque. `headset_init`, `headset_update`, `headset_free` and the other profile implementations are a present/absent slot, and `headset_init`'s outcome is one boolean per event. `sdp_extract_pdu` and `sdp_get_service_classes` are a parsed record or a parse failure.
- Address formatting (`ba2str`, `str2ba`) is not modelled, and addresses are compared as values.
- When `sdp_get_service_classes` succeeds with an empty list, `get_service_uuid` dereferences `classes->data` unchecked (audio/manager.c:285). That case is not modelled: a record has either no class list or a non-empty one.
- `device_get_address`, `device_get_connected`, `manager_get_device`, `audio_init` and `audio_exit` are not modelled.
- The UUID strings and interface names come from `manager.h`, which is not part of this model. The interface names use BlueZ's `org.bluez.audio.*` values.
- The socket part of `tx_tstamp_recv` (tools/tester.h:91-166) is not modelled: `recvmsg`, the control-message scan and the wall-clock check. The timestamp's `ee_info` and `ee_data` are parameters.
- Manager.AudioManager.FinishSdp: when a discovery without a request fails, the code frees a device that `manager_headset_connected` has already registered, leaving a dangling registry entry. The model keeps such a device registered and drops only unpublished devices.
- Manager.AudioManager.FinishSdp: the result of `add_device` is ignored as in the code, so a registration failure still answers with the path.
- Manager.AudioManager.CreateDevice: the `device_id` counter is unbounded. The C `int` overflow after 2^31 devices is not modelled.
- Manager.AudioManager.EnsureHeadset: after an init failure removes an existing device, the default headset is re-derived, which is the corrected behaviour. The code leaves `default_hs` pointing at the removed device (audio/manager.c:966-973); `Registry.DefaultAfterInitFailureAsWritten` models the code.
- Manager.AudioManager.AmCreateHeadset: the model re-derives the default headset after an init failure removes the device, which is the corrected behaviour (see Findings). The code leaves `default_hs` pointing at the removed device.
- Manager.AudioManager.AmRemoveDevice also stands for `am_remove_headset`, which only forwards to it (audio/manager.c:1077-1082).
- Session.ErrorKind: the detail strings of NotSupported and ConnectFailed are not modelled; only the errno of ConnectFailed is kept.
- Classifier.StrCmp models only the sign of `strcmp`, not the byte difference C returns.
- TxTstamp.TxTstampData.Expect: the `g_assert` that aborts the test when the table is full is a precondition. The `len` argument is any natural number, so `size_t` wrap-around is not modelled.
- Concurrency, re-entrancy and the lifetime of freed objects are not modelled: one event is handled at a time and devices are never freed.

## Findings

| source | as written | input that shows it | evidently intended | confidence | as-written member | corrected member |
|---|---|---|---|---|---|---|
| audio/manager.c:802-803 | `device_supports_interface` answers the Source interface from the gateway slot | a device with a gateway slot and no source slot asked for "org.bluez.audio.Source" is accepted, and one with only a source slot is rejected. Latent in this file: no device here ever gets a gateway or a source slot (`Manager.AudioManager.MatchingAgreesOnRegistry`) | the Source interface is answered from the source slot | low, not executed | Classifier.SupportsInterfaceAsWritten, Classifier.SourceInterfaceIsGatewaySlot, Classifier.DeviceMatches, Classifier.GatewayOnlyMatchesSourceAsWritten | Classifier.SupportsInterface, Classifier.SupportsInterfaceMeaning, Classifier.DeviceMatchesCorrected |
| audio/manager.c:966-973 | `am_create_headset` removes an existing device whose `headset_init` fails without touching `default_hs` | a registered device without a headset made the default via ChangeDefaultHeadset, then CreateHeadset for its address with `headset_init` failing: `default_hs` still names the removed device | the default is re-derived as `am_remove_device` does | medium, not executed | Registry.DefaultAfterInitFailureAsWritten, Registry.InitFailureLeavesDanglingDefault | Manager.AudioManager.EnsureHeadset, Manager.AudioManager.RemoveAndRederive |
