# smk-uniden-bluetooth: a verified model of the settings registry and session

This project models the core of a Go client for Uniden R4 / R8 / R9 radar
detectors. The client talks to the detector over Bluetooth Low Energy. The
model covers the parts that are not transport:

- **The settings catalog** (`defSettings`). There are 87 settings. Each has a
  storage offset per detector model, a current value id, and either a static
  value list or a speed table chosen by the current "Speed Units". The
  catalog's duplicate names and colliding offsets are kept as they are.
- **The registry searches and value lists.** Settings are found by name (first
  match, ASCII case-insensitive) and by offset on the active model (first
  match, a missing model key reading as offset 0). The value-list generators,
  id/name translation and the value check are modelled too.
- **The session** (`Uniden`). It holds the registry, the alert table, the
  status, the mute cache and the conditional callbacks. It encodes update
  commands (`BTreqSETC:<offset>=<id>`), decodes settings dumps, status frames
  and radar frames, mutes and unmutes, synchronises the time zone, and
  dispatches notifications by characteristic UUID.
- **The helpers** of `utils/utils.go`, the enumerations and parent links of
  `types/types.go`, and the GPS decoder of `uniden/misc.go`.

Each Go panic (an index out of range, a nil dereference, `ParseInt` on bad
text) is an `Err(Panic(..))` result. The Bluetooth link is replaced by
sequences the session appends to:

- `outbox` holds the commands written to the Command characteristic;
- `notices` holds the calls of the listeners;
- `invoked` holds the conditional callbacks run;
- `dropped` holds the UUIDs of notifications no handler took.

The host clock, `time.Now()` and the truth of each callback condition are
parameters: `offsetSeconds`, `now` and `holding`.

Modules, one per source concern:

- `Wrappers`: `Option`, `Result` and the error kinds.
- `GoStrings`: `strconv.Itoa` / `Atoi`, `strings.Split` / `Join`, ASCII `EqualFold`.
- `Utils`: `utils/utils.go`.
- `Types`: `types/types.go`.
- `Settings`: `uniden/settings.go`.
- `SettingsDefs`: `uniden/settingsDefs.go`.
- `Misc`: `uniden/misc.go` and the status frame.
- `Radar`: the radar frame decoder.
- `Callbacks`: the conditional callbacks.
- `Sync`: the settings-dump decoder.
- `Uniden`: commands, the time-zone label, dispatch, and the `Uniden` class.

The session class follows the code as written throughout. That includes
the four places listed under Findings: the static value check of
`Setting.Update`, the "GMT+0" label of `SyncTime`, the nil condition that
`runCallbacks` calls, and the append of the radar handler. The corrected
behaviour of each is a separate definition with its own lemmas, and the
session does not use it.

The radar handler overwrites the alert at a slot's own index while that index
is inside the table, and appends the alert once the index is past the end
(uniden/uniden.go:484-488). On a short table an alert therefore lands at the
end of the table, not at its slot index: on an empty table the frame
`"0&12,00,K,5,123,24.109,0,1&0&0"` leaves a one-entry table. The code marks
slot positions as an open question ("TODO: Determine if the position of the
signals matters", uniden/uniden.go:462). `Radar.ApplyFrameAsWritten` is the
code, which the session runs; `Radar.ApplyFrame` is the slot-indexed reading
it is compared with.

## Model

| member | source | states |
|---|---|---|
| Utils.SteppedIsProgression | utils/utils.go:89-99 | a non-positive step or an empty range gives nothing; otherwise element i is start + i*step, every element is at most end, and one more step would pass end |
| Utils.SteppedLength | utils/utils.go:94-99 | for a positive step and start <= end the range has (end - start) / step + 1 elements |
| Utils.Step | utils/utils.go:89-99 | the loop builds exactly the stepped range |
| Utils.ValueInArray | utils/utils.go:10-17 | true exactly when some element equals the value |
| Utils.ConcatenateStrings | utils/utils.go:107-113 | the accumulator loop returns the left-to-right concatenation of its arguments |
| Utils.ParseInt | utils/utils.go:43-51 | succeeds exactly on text strconv.Atoi accepts, with its value; anything else is a panic, never a default |
| Utils.ParseIntItoa | utils/utils.go:43-51 | ParseInt reads back every 64-bit integer Itoa formats |
| Utils.ParseFloat32FailSoft | utils/utils.go:31-41 | a well-formed literal is kept; malformed text reads as the parse of "0" and never fails |
| GoStrings.AtoiItoa | utils/utils.go:44 | Atoi inverts Itoa on every 64-bit integer |
| GoStrings.SplitJoin | uniden/misc.go:26 | splitting a join of separator-free pieces gives the pieces back |
| GoStrings.JoinSplit | uniden/uniden.go:442 | joining the pieces of a split with the separator gives the text back |
| Types.CharsDistinct | types/types.go:88-100 | the six characteristic UUIDs are pairwise distinct; Settings and Command differ only in their second character |
| Types.Characteristic.AddParentService | types/types.go:40-42 | sets the parent service and nothing else |
| Types.Service.AddParentDevice | types/types.go:30-32 | sets the parent device and nothing else |
| Types.Service.AddCharacteristic | types/types.go:25-28 | links the characteristic to the service, then appends exactly one copy of it; earlier entries are unchanged |
| Types.Device.AddService | types/types.go:13-16 | links the service to the device, then appends exactly one copy of it; earlier entries are unchanged |
| Settings.ValueListAt | uniden/settings.go:18-71 | entry i of a generated list is named by start + i*step and the suffix, with that speed as id or with id i |
| Settings.SlidersAt | uniden/settings.go:73-84 | a slider list over a non-empty range has (max - min) / step + 1 entries, entry i named itoa(min + i*step) + suffix with id i |
| Settings.GenerateSlidersRange | uniden/settings.go:73-84 | the loop builds one value per element of Step, entry i with id i and name itoa(min + i*step) + suffix |
| Settings.GenerateSpeedValues | uniden/settings.go:18-71 | the mph and kph tables: unit suffix only withUnit, ids the speeds when valueIsID and the positions otherwise |
| Settings.GenerateBool | uniden/settings.go:120-147 | the p-th argument is the offset for the p-th model; -1 leaves that model out and arguments past the third are ignored |
| Settings.KaSegment | uniden/settings.go:149-159 | segment n's offset on every model is that model's base - 1 + n |
| Settings.FindByOffset | uniden/settings.go:229-238 | the first setting whose offset on the model is the index; none exactly when no setting has that offset |
| Settings.FindByName | uniden/settings.go:240-248 | the first setting whose name equals the name up to case; none exactly when no name matches |
| Settings.FindByNameIs | uniden/settings.go:240-248 | the answer depends only on the entries up to the first match |
| Settings.FindByOffsetAtOrBefore | uniden/settings.go:229-238 | the lookup of any setting's own offset succeeds, at that setting or an earlier one |
| Settings.ShadowedByOffset | uniden/settings.go:229-238 | a setting that shares its offset with an earlier one is never answered |
| Settings.ShadowedByName | uniden/settings.go:240-248 | of two settings with the same name the later is never answered |
| Settings.IndexOfId | uniden/settings.go:326-334 | the first position holding the id; none exactly when no value has it |
| Settings.IndexOfName | uniden/settings.go:316-324 | the first position whose name matches up to case; none exactly when no name matches |
| Settings.GetByInt | uniden/settings.go:326-334 | the first value with the id when there is one, else the empty Value |
| Settings.CurrentValue | uniden/settings.go:343-345 | Ok exactly when the current list can be computed, whose error is passed on otherwise; then the first value of that list with the current id, or the empty Value when none has it |
| Settings.GetValueInt | uniden/settings.go:316-324 | the id of the first value of the current list whose name matches up to case; "value not found" exactly when none matches; an error computing the list is passed on |
| Settings.ValidateValueInt | uniden/settings.go:306-314 | true exactly when the static list holds the id |
| Settings.DynamicSettingRejectsEveryId | uniden/settings.go:306-314 | a setting with only a resolver rejects every id |
| Settings.ValidateCurrent | uniden/settings.go:306-314 | (corrected) no error exactly when the list the setting currently offers holds the id |
| Settings.ValidateCurrentAgreesOnStatic | uniden/settings.go:306-314 | on a static setting the corrected check and the code agree |
| Settings.ResolvableWhenSpeedUnitsStatic | uniden/settings.go:336-341 | with a static "Speed Units" first, every setting's value list can be computed |
| Settings.SpeedValuesFollowUnits | uniden/settings.go:103-117 | the speed tables are the mph ones exactly when the current "Speed Units" value is named "MPH", and kph when the id names no value |
| Settings.OffOrSpeedLiteralShape | uniden/settings.go:86-101 | a literal speed list starts with "Off":0, and every later entry's id is its speed and its name that speed with the unit |
| SettingsDefs.DefSettings | uniden/settingsDefs.go:8-764 | the catalog has 87 settings |
| SettingsDefs.SpeedUnitsByName | uniden/settingsDefs.go:129-140 | "Speed Units" is the first setting of its name, entry 11 |
| SettingsDefs.SpeedUnitsOffsets | uniden/settingsDefs.go:131-135 | "Speed Units" sits at R4:60, R8:68, R9:86 |
| SettingsDefs.SpeedUnitsEntry | uniden/settingsDefs.go:129-140 | "Speed Units" has offsets 60/68/86 and values MPH:0, KPH:1, and is static, so every resolver can run |
| SettingsDefs.SameOffsetsShadowed | uniden/settingsDefs.go:84-92 | a catalog entry with an earlier entry's offset map is never written by a dump, on any model |
| SettingsDefs.AutoMuteMemoryOptionByName | uniden/settingsDefs.go:46-54 | the name lookup answers the first declaration, a boolean; the X_K / X_K_KA variant has the same name |
| SettingsDefs.AutoMuteMemoryOptionNeverDecoded | uniden/settingsDefs.go:298-309 | the second and third declarations are never written by a dump |
| SettingsDefs.AutoMuteMemoryOptionRepeated | uniden/settingsDefs.go:84-92 | the second and third declarations are never answered by a name lookup |
| SettingsDefs.AlertsPriorityByName | uniden/settingsDefs.go:414-426 | "Alerts priority" differs from "Alerts Priority" but looks up to the earlier entry |
| SettingsDefs.AlertsPriorityNeverDecoded | uniden/settingsDefs.go:414-426 | "Alerts priority" shares "Alerts Priority"'s offsets and is never written by a dump |
| SettingsDefs.RepeatedOffsetsNeverDecoded | uniden/settingsDefs.go:333-341 | the second "Quiet ride beep volume" and the second "Left display" are never written by a dump |
| SettingsDefs.DuplicateEntriesRepeated | uniden/settingsDefs.go:333-341 | nor are they ever answered by a name lookup |
| SettingsDefs.SharedOffsetsNeverDecoded | uniden/settingsDefs.go:595-606 | "Auto dim mode" (Dark mode's offsets) and "Scan icon" (All threat display's) are never written by a dump |
| SettingsDefs.KaBandColorShadowedOnR8 | uniden/settingsDefs.go:514-521 | on an R8 "Ka band color" sits at 53, "Background Color"'s offset, and is never written by a dump |
| SettingsDefs.R9OffsetZeroIsXBand | uniden/settingsDefs.go:142-151 | on an R9 the first setting at offset 0 is "X Band" |
| SettingsDefs.R9OffsetsMissing | uniden/settingsDefs.go:152-169 | "K Band", "Ka Band" and the other entries without an R9 key read offset 0 on an R9 |
| SettingsDefs.R9MissingOffsetsNeverDecoded | uniden/settingsDefs.go:152-169 | so "X Band" shadows them and a dump on an R9 never writes them |
| SettingsDefs.KaSegmentOffsets | uniden/settingsDefs.go:276-284 | "Ka Segment n" for n = 1..9 is boolean at R4 36+n, R8 38+n, R9 45+n |
| SettingsDefs.KaBandFilterRepeated | uniden/settingsDefs.go:753-754 | "Ka band filter" is declared twice with different offsets and the second is never answered by name |
| SettingsDefs.DetectorVolumeByName | uniden/settingsDefs.go:685-703 | "Detector volume" is the first setting of its name, entry 66 |
| SettingsDefs.DetectorVolumeEntry | uniden/settingsDefs.go:685-703 | the volume is static at 91/101/118, starts at "Always Muted":0 and offers "1".."8" with ids 1..8 |
| SettingsDefs.DetectorVolumeIds | uniden/settingsDefs.go:692-702 | the volume ids are 0..8, each at its own position |
| SettingsDefs.TimeZoneByName | uniden/settingsDefs.go:649-683 | "Time zone" is the first setting of its name, entry 65 |
| SettingsDefs.TimeZoneEntry | uniden/settingsDefs.go:649-683 | "Time zone" is static at 81/91/108 with the 25 labels GMT-12..GMT+12 |
| SettingsDefs.SensitivitySliders | uniden/settingsDefs.go:207 | generateSlidersRange(30, 100, 10, "%") gives eight values "30%".."100%" with ids 0..7 |
| SettingsDefs.SensitivityEntries | uniden/settingsDefs.go:201-227 | the three band sensitivities offer those sliders |
| SettingsDefs.LimitSpeedEntry | uniden/settingsDefs.go:427-441 | "Limit speed" has no static values, only the "Off" plus literal-speed resolver |
| SettingsDefs.LimitSpeedName | uniden/settingsDefs.go:428 | entry 48 is "Limit speed" |
| SettingsDefs.CatalogUnitsAreMph | uniden/settingsDefs.go:136-139 | with the catalog's default id 0 the units are "MPH" |
| SettingsDefs.LimitSpeedOnDefaults | uniden/settingsDefs.go:434-440 | with the defaults "Limit speed" offers "Off":0 then 50..100 mph in steps of 5, each speed its own id |
| SettingsDefs.EightyMphOnOffer | uniden/settingsDefs.go:437 | "80mph" with id 80 is in that list |
| SettingsDefs.LimitSpeedEightyRefused | uniden/settingsDefs.go:427-441 | 80 is on offer and passes the corrected check, but the static check refuses it |
| Misc.GpsState | uniden/misc.go:31-38 | "Disconnected" exactly for "D", "Connected" exactly for "C", "Unknown" exactly for any other letter |
| Misc.ParseGPS | uniden/misc.go:24-40 | decodes exactly when there are at least four sub-fields, else a panic; speed stays zero and the state is one of the three labels |
| Misc.ParseGpsText | uniden/misc.go:24-40 | the heading is sub-field 0 verbatim, the altitude sub-field 2 through the fail-soft parser, the state sub-field 3 through the letter mapping |
| Misc.GpsIgnoresField1 | uniden/misc.go:29 | sub-field 1 never affects the reading |
| Misc.ShortGpsPanics | uniden/misc.go:26-31 | a GPS text of two or three sub-fields is a panic |
| Misc.ParseStatus | uniden/uniden.go:440-450 | decodes exactly when there are at least five sections and the GPS section decodes, else a panic |
| Misc.ParseStatusFrame | uniden/uniden.go:441-450 | a five-section frame gives its voltage, its signal and its GPS decoding; sections 1 and 3 play no part |
| Radar.SlotEvent | uniden/uniden.go:472-482 | a record decodes exactly when it has at least six fields and an integer strength, giving band 2, strength 3, frequency 5 and the time now; else a panic |
| Radar.FirstBadSlot | uniden/uniden.go:463-482 | the index of the first slot that neither is "0" nor decodes; none exactly when every slot decodes |
| Radar.PlaceAsWritten | uniden/uniden.go:484-488 | (as written) an index inside the table overwrites the alert there; past the end the alert is appended as the new last entry; every other alert is kept |
| Radar.AppendedAlerts | uniden/uniden.go:484-488 | the alerts of the non-"0" slots in frame order: never more than the slots and never a cleared alert |
| Radar.ApplyFrameAsWrittenClosedForm | uniden/uniden.go:463-492 | (as written) a frame decodes exactly when every slot does; each slot inside the old table overwrites its index (a "0" clears it), alerts past the frame are kept, and the alerts of the remaining slots follow the old table in frame order; a failure is a panic |
| Radar.ApplyFrameAsWrittenDecodes | uniden/uniden.go:463-490 | (as written) a frame decodes exactly when every slot does, and a failure is a panic |
| Radar.ApplyFrameAsWrittenOnEmpty | uniden/uniden.go:463-492 | (as written) on an empty table a frame leaves exactly the alerts of its non-"0" slots, in frame order, whatever their slot indices |
| Radar.ApplyFrameAsWrittenStops | uniden/uniden.go:463-490 | (as written) a slot that fails ends the frame |
| Radar.ApplyFrameAsWrittenStep | uniden/uniden.go:465-488 | (as written) one more slot: a "0" clears its index inside the table and does nothing past it; an alert overwrites its index inside the table and is appended past it |
| Radar.ApplyFrameAsWrittenPanicsAt | uniden/uniden.go:463-482 | (as written) the first unreadable slot is the panic the frame ends with; by then the earlier slots have overwritten the alerts inside the old table |
| Radar.ApplyFrameAsWrittenNeverShrinks | uniden/uniden.go:463-492 | (as written) a frame never shortens the table and adds at most one alert per slot |
| Radar.Place | uniden/uniden.go:484-488 | (corrected) the alert sits at its own index, other alerts stay, and any gap is filled with cleared alerts |
| Radar.ApplySlot | uniden/uniden.go:465-488 | a slot succeeds exactly when it is "0" or a decodable record; a failure is a panic |
| Radar.ApplyFrameStops | uniden/uniden.go:463-490 | a slot that fails ends the frame, and the rest of it is never read |
| Radar.ApplyFrameClosedForm | uniden/uniden.go:463-492 | a frame decodes exactly when every slot does; each slot's alert is at its index, a "0" clears its slot, alerts past the frame are untouched and none is removed |
| Radar.ClearTouchesOnlyItsSlot | uniden/uniden.go:465-470 | a "0" slot clears only its own index, and does nothing past the end |
| Radar.ApplyFrameAgreesInsideTable | uniden/uniden.go:484-488 | while every slot index is inside the table the code and the corrected decoder agree and the length is kept |
| Radar.ExampleAlert | uniden/uniden.go:472-482 | the record "12,00,K,5,123,24.109,0,1" decodes to band K, strength 5, frequency 24.109 |
| Radar.ExampleFrameMisplaced | uniden/uniden.go:484-488 | on an empty table the example frame leaves a one-entry table as written, and the alert at index 1 after a cleared slot 0 as intended |
| Callbacks.Register | uniden/uniden.go:364-372 | a new entry is armed and not completed |
| Callbacks.Unregister | uniden/uniden.go:45-48 | condition and callback are cleared together; timeout and completion are kept |
| Callbacks.Expire | uniden/uniden.go:375-380 | a completed entry is left alone; otherwise it is unregistered |
| Callbacks.Fired | uniden/uniden.go:389-395 | a fired entry is completed and unregistered |
| Callbacks.FirstUnarmed | uniden/uniden.go:388-389 | the first unregistered entry, where a pass as written stops; none exactly when every entry is armed |
| Callbacks.AsWrittenEffect | uniden/uniden.go:383-397 | what a pass as written leaves: the list keeps its length, and the first unregistered entry and every later one are untouched |
| Callbacks.AsWrittenEffectAgrees | uniden/uniden.go:383-397 | (as written) the pass completes exactly when no entry is unregistered and then leaves that effect; otherwise it is the nil-call panic |
| Callbacks.PanicEffect | uniden/uniden.go:388-396 | when entry i is the first unregistered one, the effect of a pass as written is the corrected pass over the first i entries, with the rest untouched |
| Callbacks.VisitedPrefix | uniden/uniden.go:388-396 | a list whose first i entries have been visited is the corrected pass over them followed by the untouched rest |
| Callbacks.RunCorrected | uniden/uniden.go:383-397 | (corrected) every entry is visited in place and the list keeps its length |
| Callbacks.RunCorrectedFires | uniden/uniden.go:388-396 | the pass invokes exactly the callbacks of the armed entries whose condition holds, in list order |
| Callbacks.RunAgreesWhileArmed | uniden/uniden.go:388-396 | while every entry is armed the code does not panic and agrees with the corrected pass |
| Callbacks.RunAsWrittenPanics | uniden/uniden.go:388-389 | (as written) the pass panics exactly when some entry is unregistered |
| Callbacks.PanicAfterFiring | uniden/uniden.go:388-395 | (as written) after a pass that fired anything, the next pass panics whatever the conditions say |
| Callbacks.PanicAfterExpiry | uniden/uniden.go:375-380 | (as written) once a pending entry has timed out, every pass panics |
| Callbacks.RunCorrectedIdempotent | uniden/uniden.go:388-396 | a second corrected pass fires nothing and changes nothing |
| Callbacks.ExpiredNeverFires | uniden/uniden.go:375-380 | an entry that has timed out never fires |
| Sync.SameLayoutSameSearches | uniden/uniden.go:412 | the searches read only names and offsets, never the current ids |
| Sync.Apply | uniden/uniden.go:412-421 | one byte keeps the registry's layout |
| Sync.Decode | uniden/uniden.go:410-422 | a dump keeps the registry's layout |
| Sync.DecodeClosedForm | uniden/uniden.go:410-422 | after a dump every setting it reaches holds the byte at its offset, and every other setting is as before |
| Sync.DecodeStep | uniden/uniden.go:412-421 | the last byte writes the first setting at its offset when that setting holds another id, and records it as changed |
| Sync.DecodeUnreached | uniden/uniden.go:412-415 | a setting the dump does not reach keeps its id |
| Sync.DecodeChangedReached | uniden/uniden.go:417-421 | every setting in the changed list was reached and held another id than its byte |
| Sync.DecodeChangedComplete | uniden/uniden.go:417-421 | every setting reached with another id than its byte is in the changed list |
| Sync.DecodeChangedOrdered | uniden/uniden.go:410-421 | the changed list follows the dump: offsets strictly increase |
| Sync.DecodeFixed | uniden/uniden.go:417 | a registry that already holds the dump's bytes is left as it is, with nothing reported changed |
| Sync.DecodeIdempotent | uniden/uniden.go:405-437 | decoding the same dump again changes nothing and reports no change |
| Sync.DecodeDoesNotValidate | uniden/uniden.go:417-419 | a byte outside the setting's values is stored all the same |
| Uniden.CommandRoundTrip | uniden/uniden.go:248 | the command text reads back as its offset and id, for every pair of 64-bit integers |
| Uniden.CommandFor | uniden/uniden.go:241-248 | "not found" exactly when no setting has the name |
| Uniden.CommandForRoundTrip | uniden/uniden.go:241-255 | the command reads back as the offset of the first setting of that name and the id asked for |
| Uniden.SpeedUnitsCommand | uniden/uniden.go:248 | on an R4, "Speed Units" set to KPH is "BTreqSETC:60=1", which reads back as (60, 1) |
| Uniden.UpdateCommandAsWritten | uniden/settings.go:289-304 | (as written) an id outside the static list is "value not found"; otherwise UpdateSetting's command |
| Uniden.UpdateCommand | uniden/settings.go:289-304 | (corrected) a command exactly when the current list holds the id, and then UpdateSetting's command |
| Uniden.UpdateStaticAt | uniden/settings.go:289-304 | a static setting found first by its name updates to any of its ids, at its own offset |
| Uniden.FindByNameIsSomeForOwnName | uniden/settings.go:297 | a setting's own name finds it or an earlier setting |
| Uniden.UpdateCommandAgreesOnStatic | uniden/settings.go:289-304 | on a static setting the corrected update and the code agree |
| Uniden.UpdateGoesToFirstNamesake | uniden/settings.go:297 | an update goes to the offset of the first setting of its name, which may precede the setting updated |
| Uniden.LimitSpeedEightyUpdate | uniden/settings.go:289-304 | with the defaults, 80 mph for "Limit speed" is refused as written and sent as intended |
| Uniden.TruncDiv | utils/utils.go:104 | Go's division truncates toward zero: the remainder a - q*b lies in [0, b) for a non-negative dividend and in (-b, 0] for a negative one |
| Uniden.GmtLabel | utils/utils.go:102-105 | (corrected) "GMT" for the zero hour, else the signed hours |
| Uniden.TimeZoneLabel | uniden/settingsDefs.go:656-682 | the corrected label of every whole hour -12..12 is the name of the time-zone value with id h + 12 |
| Uniden.UtcLabelNotOffered | utils/utils.go:102-105 | (as written) an offset under an hour either way reads "GMT+0"; the corrected label is "GMT" |
| Uniden.GmtPlusZeroAbsent | uniden/settingsDefs.go:656-682 | no time-zone value is named "GMT+0" in any case |
| Uniden.CatalogLookups | uniden/uniden.go:259 | in a registry with the catalog's layout "Time zone" is entry 65 and "Detector volume" 66 |
| Uniden.MuteUpdate | uniden/uniden.go:272 | in such a registry an update of the volume to 0 always validates |
| Uniden.VolumeUpdateValid | uniden/uniden.go:296-301 | in such a registry an update of the volume to p validates exactly when p is 0..8 |
| Uniden.TimeZoneUpdates | uniden/uniden.go:309-322 | in such a registry the corrected label of every whole hour -12..12 resolves to an id that validates |
| Uniden.TimeZoneFailsNearUtcAsWritten | uniden/uniden.go:310-320 | (as written) within an hour of UTC the lookup finds no time-zone value |
| Uniden.TimeSync | uniden/uniden.go:309-332 | (corrected) SyncTime sends at most one command |
| Uniden.TimeSyncOnCatalog | uniden/uniden.go:309-332 | (corrected) in such a registry every offset whose whole hours are -12..12 sends exactly one command |
| Uniden.TimeSyncFailsNearUtcAsWritten | uniden/uniden.go:309-320 | (as written) in such a registry a clock within an hour of UTC fails with "value not found" |
| Uniden.TimeSyncAsWrittenStopsAt | uniden/uniden.go:317-320 | a failed label lookup is the error SyncTime returns |
| Uniden.TimeSyncAsWrittenAt | uniden/uniden.go:317-331 | (as written) once the label's id is found, SyncTime sends the as-written update command for it, or nothing when the static check refuses it |
| Uniden.TimeSyncAgreesAwayFromUtc | uniden/uniden.go:309-332 | in such a registry, away from the zero hour the as-written and corrected labels give the same plan |
| Uniden.TimeSyncAsWrittenOnCatalog | uniden/uniden.go:309-332 | (as written) in such a registry a clock within an hour of UTC fails with "value not found", and one whose whole hours are 1..12 either way sends exactly one command |
| Uniden.LabelMissing | uniden/settings.go:316-324 | a label no value of the list carries is "value not found" |
| Uniden.Route | uniden/uniden.go:507-523 | each of Settings, Status and Radar event is routed to its own handler exactly on its UUID; any UUID outside the six is unhandled |
| Uniden.CommandCharUnhandled | uniden/uniden.go:507-523 | the Command characteristic, one character from Settings, has no handler |
| Uniden.BytesText | uniden/uniden.go:441 | string(buf) has one character per byte, with the byte's code |
| Uniden.DecodeDump | uniden/uniden.go:410-422 | the byte loop computes exactly the dump decoding and its changed list |
| Uniden.RunPass | uniden/uniden.go:383-397 | (as written) the entry loop panics exactly when the pass as written does, and leaves its effect: the entries before the first unregistered one visited and their callbacks invoked, in order |
| Uniden.ReadFrame | uniden/uniden.go:460-490 | (as written) the slot loop leaves exactly the as-written table; on a panic it leaves the old table with the overwrites of the slots before the bad one, without appended alerts |
| Uniden.Uniden.constructor | uniden/uniden.go:76-87 | a session starts with the catalog and its default ids, no alerts, the zero status, pre-mute volume 1 and both flags false |
| Uniden.Uniden.SetListener | uniden/uniden.go:198-208 | sets or clears one listener and changes nothing else |
| Uniden.Uniden.SendArbitraryCommand | uniden/uniden.go:537-547 | the text is written as it is, once |
| Uniden.Uniden.UpdateSetting | uniden/uniden.go:241-255 | an unknown name is an error and sends nothing; otherwise exactly the command for the first setting of the name, with no validation and no change to the registry |
| Uniden.Uniden.Update | uniden/settings.go:289-313 | (as written) an id outside the setting's static list is "value not found" and sends nothing; otherwise UpdateSetting's command, with the current id unchanged |
| Uniden.Uniden.Mute | uniden/uniden.go:258-282 | volume 0 sends nothing; otherwise the update to 0 is sent and only on success the old volume is kept; on the catalog muting never fails |
| Uniden.Uniden.Unmute | uniden/uniden.go:284-307 | a volume other than 0 sends nothing; otherwise a kept 0 becomes 1 and the kept volume is sent; on the catalog it fails exactly when the kept volume is outside 1..8 |
| Uniden.Uniden.SyncTime | uniden/uniden.go:309-332 | (as written) the label with its sign always shown; a missing setting or label is an error that sends nothing and leaves the session unsynced; otherwise at most the one update is sent, no error is returned even if it is refused, and the session is time-synced; on the catalog a clock within an hour of UTC fails with "value not found" and changes nothing, and one to twelve whole hours either way send exactly one command |
| Uniden.Uniden.SyncTimeZone | uniden/uniden.go:309-332 | (as written) the lookup and update of SyncTime: exactly what TimeSyncAsWritten plans is sent, and the session is time-synced unless the lookup failed |
| Uniden.Uniden.RegisterConditionalCallback | uniden/uniden.go:354-381 | appends one armed pending entry |
| Uniden.Uniden.ExpireCallback | uniden/uniden.go:375-380 | the timeout unregisters the entry unless it completed |
| Uniden.Uniden.RunCallbacks | uniden/uniden.go:383-397 | (as written) the nil-call panic exactly when some entry is unregistered; the entries before the first such entry are visited and their callbacks invoked in order, and that entry and the rest are untouched |
| Uniden.Uniden.HandleSettingsUpdate | uniden/uniden.go:405-438 | the registry becomes the dump's decoding and the first dump is recorded; callbacks run only when something changed and the listener is set, and the listener is then called unless the callbacks panicked, whose panic is returned |
| Uniden.Uniden.HandleStatusUpdate | uniden/uniden.go:440-455 | a decodable frame becomes the status and is passed to the listener when set; otherwise a panic that changes nothing |
| Uniden.Uniden.HandleRadarEvent | uniden/uniden.go:457-497 | (as written) a decodable frame leaves the as-written table and is passed to the listener when set; a bad slot is a panic, after which the table holds the overwrites of the slots before it and none of the appended alerts, and the listener is not called |
| Uniden.Uniden.HandleCharacteristicUpdate | uniden/uniden.go:507-523 | the settings, status and radar routes leave exactly what their handler leaves (decoded registry, callbacks and notice; parsed status and notice; as-written table and notice, with each panic path), each notification reaches only its handler's state; generic attribute and response do nothing; an unknown UUID is dropped |

## Left out

- Bluetooth transport: `Connect`, `scanForDevice`, `Disconnect`, `requestDeviceState`, `getChar`, `AddCallback` / notifications and the embedded `bluetooth.*` types are foreign I/O. A command write is an append to `outbox`.
- Uniden.Uniden.SendArbitraryCommand: when the Command characteristic is missing, Go dereferences a nil characteristic and panics. The model assumes a connected session.
- The timeout goroutine of `RegisterConditionalCallback` is concurrency. It is the explicit step `ExpireCallback`, and the timeout is kept only as data.
- Uniden.Uniden.RunCallbacks: conditions and callbacks are Go closures over the session. Here they are identifiers. The conditions that hold are a set given for the whole pass, whereas Go evaluates each condition live. What a callback does to the session is not modelled.
- `OnConnect`, `OnDisconnect`, `OnServerClientEvent`, `handleServerClientEvent`, `StartServer`, `StayOpen` and the server's `handleSettingsUpdate` call belong to the server or the link. The server is not part of this model.
- `uniden/server.go` and `cmd/program/main.go` are not part of this model (socket server, CLI, timers).
- JSON serialisation (`Settings.Serialize`, `Setting.Serialize`, `Value.Serialize`) wraps `encoding/json` and `utils.LooseMarshal`. `LooseMarshal` is not part of this model.
- Floating point: voltage, signal, altitude and frequency are kept as the decimal text they came from. `ParseFloat32` accepts an optional sign, digits and at most one point, which is a subset of `strconv.ParseFloat`'s syntax. Range is not modelled either: `strconv.ParseFloat` refuses a literal too large for a float32 (for example "1" followed by 39 zeros) with a range error, so Go reads it as 0, while `Utils.ParseFloat32` keeps the literal.
- Time: `time.Now()` is the parameter `now`, and the host's UTC offset in `GetDeviceTimeZoneGMT` is the parameter `offsetSeconds`. Go reads the clock once per decoded radar slot (uniden/uniden.go:481); the model stamps every slot of a frame with the same `now`.
- `strings.EqualFold` is modelled with ASCII case folding only. `string(buf)` is modelled for one character per byte, which holds for ASCII frames.
- Go `int` wrap-around is not modelled. Offsets, ids and bytes stay far from 64-bit limits, and the command round trip is proved for 64-bit values.
- `DefaultValue` is never read by the core. The back-pointers `Setting.Settings`, `Setting.Uniden` and `Setting.Model` become parameters (the registry and the session's model).
- The `defSettings` slice shares its setting pointers across every `NewUniden`. The model gives each session its own registry.
- `GetSettings` only returns the registry field. `CharType.String` is the identity, because a `CharType` is its UUID text. `mark`, `handleGenericAttribute` and `handleResponse` have empty bodies.
- Verbose logging (`println`) and the error print in `SyncTime` produce output only.
- Uniden.Uniden.Mute: that muting never fails is stated only for a session whose registry has the catalog's layout. A registry built otherwise is covered only by the general clauses.
- `Must`, `LogStruct`, `ParseJSON`, `After`, `AfterAsync` and `SetInterval` are panics, logging and sleeps outside the core.

## Findings

| source | as written | input that shows it | evidently intended | confidence | as-written member | corrected member |
|---|---|---|---|---|---|---|
| uniden/uniden.go:388-395 | `runCallbacks` calls `cce.Condition(m)` for every entry, including entries whose condition a fired callback or the timeout set to nil | a callback fires once; the next settings change calls its nil condition and panics | skip unregistered entries | high, not executed | Callbacks.PanicAfterFiring | Callbacks.RunCorrectedFires |
| uniden/settings.go:306-314 | `ValidateValueInt` checks only the static `Values`, so every setting with `DynamicValues` refuses every id | `Update(80)` on "Limit speed" with MPH units: 80 mph is offered but refused | validate against `GetValues()` | high, not executed | Uniden.LimitSpeedEightyUpdate | Uniden.UpdateCommand |
| utils/utils.go:102-105 | `fmt.Sprintf("GMT%+d", ...)` prints "GMT+0" for the zero hour, but the zero-hour time-zone value is named "GMT" | a host clock at UTC: `SyncTime` returns "value not found" | "GMT" for the zero hour | high, not executed | Uniden.TimeSyncFailsNearUtcAsWritten | Uniden.TimeSyncOnCatalog |
| uniden/uniden.go:484-488 | an alert whose slot index is past the end of the table is appended, so it lands at the end of the table rather than at its slot | empty table, frame "0&12,00,K,5,123,24.109,0,1&0&0": the slot-1 alert ends up at index 0 | the slot index as the alert's index, as for slots inside the table (uniden/uniden.go:484-485), padding with cleared alerts; the TODO at uniden/uniden.go:462 leaves slot positions undecided | low, not executed | Radar.ExampleFrameMisplaced | Radar.ApplyFrameClosedForm |
