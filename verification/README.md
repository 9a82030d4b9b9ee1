# BlenderDMX core, modelled in Dafny

This project models the logic core of the BlenderDMX add-on for Blender:

- **MVR-xchange glue.** The client and server message callbacks, the download path for a commit, and the life cycle of the single client and server instance.
- **DMX fixture.** The channel cache built from the GDTF profile, `setDMX`, `clear`, `getProgrammerData` and `get_channel_by_attribute`. It also covers the attribute dispatch of `render`, plus the shutter/strobe logic of `updateShutterDimmer` and `runStrobe`.
- **DMX universes.** The universe record, its input enum, and add/remove on the universe list.
- **Programmer panel operators.** Select All, Invert, Select Every Other, Select Bodies, Select Targets, Targets to Zero and Clear.
- **Setup panel.** The checks on export and import file names, and the status text of the version check.

Blender, the network and the helper libraries are not modelled. Each becomes one of two things:

- a parameter, such as whether a peer is reachable, the outcome of a helper, or the names of lights; or
- an output list, such as the host calls a callback makes, the network calls of the life cycle, or the fixture updates `render` calls.

Module layout:

| file | module | what it holds |
|---|---|---|
| wrappers.dfy | Wrappers | `Option` |
| text.dfy | Text | ASCII lower-casing, substring search, POSIX `os.path.join` |
| json.dfy | Json | JSON values, messages, and `dict.get` |
| mvrx_protocol.dfy | MvrxProtocol | callbacks, download path, client and server life cycle |
| dmx_data.dfy | DmxData | the DMX buffer as a map from (universe, slot) to value |
| fixture.dfy | Fixture | the patch, channel cache, setDMX, clear, programmer data, channel lookup |
| fixture_render.dfy | FixtureRender | the `render` plan and its last-value-wins meaning |
| fixture_strobe.dfy | FixtureStrobe | `updateShutterDimmer`, `runStrobe`, and the strobe period |
| universe.dfy | Universe | the universe record, input enum, add and remove |
| programmer.dfy | Programmer | the selection operators and Clear over an abstract scene |
| setup.dfy | Setup | export and import, and the version check |

## Model

| member | source | states |
|---|---|---|
| Text.ContainsIff | fixture.py:182 | The substring test used for `"shutter" in id` and for the geometry-in-name search holds exactly when the needle occurs at some position of the text. |
| Text.EmptyIsContained | fixture.py:335 | An empty geometry name occurs in every name, so Python's `in` says yes for it. |
| Text.PathJoin | mvrx_protocol.py:56 | POSIX `os.path.join` of two parts. An absolute second part replaces the first. Otherwise the result starts with the first part and ends with the second. |
| Json.Get | mvrx_protocol.py:43-44 | `dict.get`: the stored value when the key is present, the default otherwise. |
| MvrxProtocol.ClientCallback | mvrx_protocol.py:27-48 | A message without StationUUID does nothing. Otherwise there is one host call per key present: Commits, FileUUID (the message itself as a one-element commit list), Provider and file_downloaded, and every call is justified by a key. MVR-xchange is disabled exactly when Type is MVR_JOIN_RET and OK is the boolean false. |
| MvrxProtocol.ServerCallback | mvrx_protocol.py:139-159 | Same key-by-key behaviour. The server registers the peer with the sender's address and port and a StationName that defaults to the empty string. It never disables MVR-xchange. |
| MvrxProtocol.BothCommitSourcesFire | mvrx_protocol.py:33-36 | When both Commits and FileUUID are present, both batches are created: Commits first, each tagged with the station. |
| MvrxProtocol.RejectionNeedsStation | mvrx_protocol.py:29-31 | A join refusal without a StationUUID is dropped like any other message without one. |
| MvrxProtocol.MissingOkNeverDisables | mvrx_protocol.py:44-45 | A message with no OK field (which reads as the empty string) never disables MVR-xchange. |
| MvrxProtocol.ClientCallbackInOrder | mvrx_protocol.py:33-48 | The client makes its host calls in source order: commits, then the peer update, then the downloaded file, then the refusal. |
| MvrxProtocol.ServerCallbackInOrder | mvrx_protocol.py:147-159 | The server makes its host calls in source order: commits, then the new peer, then the downloaded file. |
| MvrxProtocol.DownloadPath | mvrx_protocol.py:55-56 | The download path ends in `assets/mvrs/<commit_uuid>.mvr`. The exception is an absolute commit identifier, which is then the whole path. |
| MvrxProtocol.Connect | mvrx_protocol.py:77-90 | Without an instance, nothing happens. Otherwise a new client for the selected peer is built (the next in the handle's numbering) and started. If it cannot be built, the old client is kept and nothing escapes. |
| MvrxProtocol.ConnectReplacesClient | mvrx_protocol.py:84 | A successful `connect` installs a different client object from the one the instance held. |
| MvrxProtocol.Join | mvrx_protocol.py:92-99 | A fresh instance for the peer is always installed. It starts and joins when the peer is reachable, and raises otherwise. |
| MvrxProtocol.ReJoin | mvrx_protocol.py:65-75 | With a client and a reachable peer: a new client is built and started, then JOIN is sent on that new client. With a client and an unreachable peer: JOIN is sent on the old client. Without a client: nothing. |
| MvrxProtocol.ClientRequestFile | mvrx_protocol.py:50-63 | With a client and a reachable peer: a new client is built and started, then asked for the commit's file at the download path. With an unreachable peer, the old client is asked. Without a client: nothing. |
| MvrxProtocol.ClientDisable | mvrx_protocol.py:101-111 | The instance is dropped. Its client is stopped if it has one. |
| MvrxProtocol.ClientLeave | mvrx_protocol.py:113-122 | The instance is dropped. With a client and a reachable peer, the calls are exactly start, LEAVE and stop, all on the newly built client. With an unreachable peer, LEAVE and stop go to the old client. |
| MvrxProtocol.LeaveLeaksOldClient | mvrx_protocol.py:117-120 | When the peer is reachable, `leave` never sends LEAVE to, or stops, the client the instance held before: that client is left running. |
| MvrxProtocol.ReconnectKeepsNumbered | mvrx_protocol.py:58-72 | `request_file` (lines 58-59) and `re_join` (lines 71-72) reconnect before acting, and the client they install is numbered after every client built before it, so a later `connect` can still tell it apart. |
| MvrxProtocol.ReJoinLeaksOldClient | mvrx_protocol.py:69-72 | When the peer is reachable, `re_join` sends JOIN only on the client its `connect` built. The client held before is neither joined nor stopped, so it is left running. |
| MvrxProtocol.RequestFileLeaksOldClient | mvrx_protocol.py:54-59 | When the peer is reachable, `request_file` asks only the newly built client for the file. The client held before is neither asked nor stopped. |
| MvrxProtocol.JoinThenLeaveEndsDisconnected | mvrx_protocol.py:92-122 | Join followed by leave always ends with no instance. If the leave reaches the peer, the calls are start and JOIN on the first client, then start, LEAVE and stop on a second one: the first is never stopped. If it does not, the calls are LEAVE and stop on the first client. |
| MvrxProtocol.JoinThenDisable | mvrx_protocol.py:92-111 | A successful join followed by disable ends with no instance, and the calls are exactly start, JOIN and stop on the one client the join built. Unlike leave, disable stops that client. |
| MvrxProtocol.ServerEnable | mvrx_protocol.py:174-185 | With an existing instance, enabling does nothing. Otherwise it installs an instance and starts the server if it can be built. |
| MvrxProtocol.ServerEnableIdempotent | mvrx_protocol.py:176-177 | Enabling twice leaves the same instance as enabling once, and the second call makes no calls. |
| MvrxProtocol.ServerDisable | mvrx_protocol.py:192-198 | The instance is dropped. The server is stopped if it was built. |
| MvrxProtocol.ServerEnableThenDisable | mvrx_protocol.py:174-198 | Enabling from no instance and then disabling leaves no instance. The server is started and then stopped when it could be built; otherwise no call is made. |
| MvrxProtocol.ServerRequestFileAsWritten | mvrx_protocol.py:161-172 | With an instance installed, the request raises before any call. Without one, it does nothing. |
| MvrxProtocol.ServerRequestFileNeverRequests | mvrx_protocol.py:164 | Even with a running server, the request as written never reaches it. |
| MvrxProtocol.ServerRequestFile | mvrx_protocol.py:161-172 | The corrected request asks the server for the file exactly when a server exists, using the client's download path. |
| DmxData.Set | fixture.py:277 | The written slot reads the new value, and every other slot is unchanged. |
| DmxData.GetRange | fixture.py:281 | `n` values, the i-th being slot `address + i` of the universe (an unwritten slot reads 0). |
| Fixture.Clamp | fixture.py:102-114 | Assigning to a property with hard limits keeps the value within the limits. An in-range value is stored as given, and a value out of range becomes the nearer limit. |
| Fixture.Build | fixture.py:147-148 | The stored universe is in 0..511 and the address in 1..512, keeping in-range values. The channels are exactly the channel cache. |
| Fixture.ChannelCache | fixture.py:171-185 | The cache has as many channels as all DMX breaks together. A channel whose id contains "shutter" in any letter case defaults to 0. |
| Fixture.ChannelCacheIsConcatenation | fixture.py:174-185 | Channel `j` of break `b` sits at the break's offset with its id and geometry. Its default is 0 for shutter ids and the profile default otherwise. |
| Fixture.WriteDefaults | fixture.py:513-515 | Each slot of the fixture's block holds its channel's default, and no other slot changes. |
| Fixture.Clear | fixture.py:513-515 | Slot `address + i` reads channel i's default, and slots outside the fixture's block are unchanged. |
| Fixture.SetDmx | fixture.py:271-277 | Every channel whose id is a parameter gets that parameter's value, and nothing else changes. With no matching id, the buffer is untouched. |
| Fixture.IdMap | fixture.py:491-493 | Every channel id is a key, and the last channel's id maps to the last value. |
| Fixture.IdMapKeys | fixture.py:491-493 | The programmer dictionary has exactly one key per distinct channel id. |
| Fixture.IdMapLastWins | fixture.py:492-493 | For a repeated id, the value of its last channel wins. |
| Fixture.ProgrammerData | fixture.py:488-494 | The value of each id is the DMX value of the last channel carrying it. |
| Fixture.ProgrammerDataKeys | fixture.py:488-494 | The keys are exactly the fixture's channel ids. |
| Fixture.ProgrammerDataAt | fixture.py:488-494 | The entry for the last channel of an id is that channel's slot in the buffer. |
| Fixture.ChannelByAttribute | fixture.py:342-345 | None exactly when no channel carries the attribute. Otherwise the first channel carrying it. |
| Fixture.ClearThenReadGivesDefaults | fixture.py:488-494 | After `clear`, the programmer data reads every channel's default (the last one for a repeated id). |
| Fixture.ReadBack | fixture.py:488-494 | When every channel of an id holds a value, the programmer data reports that value for the id. |
| Fixture.SetThenRead | fixture.py:271-277 | Setting an attribute with `setDMX` and then reading the programmer data returns the value just set. |
| FixtureRender.TrackStep | fixture.py:288-302 | Handling one more channel keeps "value of the last channel carrying the attribute". |
| FixtureRender.ScanStep | fixture.py:289-291 | One loop iteration adds exactly the channel's geometry to the mixing dictionary's keys. |
| FixtureRender.ScanChannels | fixture.py:288-302 | After the loop, the mixing dictionary's keys are exactly the geometries of the channels seen. |
| FixtureRender.ScanStepTracks | fixture.py:288-302 | The if/elif chain updates exactly the attribute the channel carries, because the attribute names are distinct. The mixing dictionary gains the channel's geometry if it is new. |
| FixtureRender.ScanStepTracksMix | fixture.py:290-297 | The R, G and B components are tracked per geometry. |
| FixtureRender.GeometriesStep | fixture.py:290-291 | The mixing dictionary's ordered keys stay distinct and are exactly the geometries seen so far. |
| FixtureRender.ScanIsLastValue | fixture.py:279-302 | After the channel loop, every attribute (R, G, B per geometry) holds the DMX value of the last channel carrying it, or is absent when no channel does. The dictionary holds exactly the channels' geometries, once each. |
| FixtureRender.AnyContains | fixture.py:333-340 | True exactly when some name contains the given text. |
| FixtureRender.LightObjectForGeometryExists | fixture.py:331-340 | True exactly when some geometry of the dictionary occurs in a light's data name or in an emitter material name. |
| FixtureRender.RgbUpdates | fixture.py:304-310 | Only colour updates, at most one per geometry. An update is present exactly when it is the colour update of a geometry whose three components were all seen. |
| FixtureRender.RgbUpdatesInOrder | fixture.py:304-310 | The colour loop emits exactly one update per complete geometry, in the dictionary's key order: the i-th update belongs to the i-th complete geometry. With no geometry named, the last one therefore decides the colour of every light. |
| FixtureRender.OtherUpdatesRanked | fixture.py:312-329 | After the colour loop, CMY, pan/tilt, zoom and shutter/dimmer are each called at most once, in that order. |
| FixtureRender.OtherUpdatesMembers | fixture.py:312-329 | Which non-colour updates fire, and with which arguments and defaults. |
| FixtureRender.OtherUpdates | fixture.py:312-329 | After the colour loop there are at most four more updates, none of them a colour update. |
| FixtureRender.Render | fixture.py:279-329 | The plan puts all colour updates first, then at most one each of the other kinds, in a fixed order. |
| FixtureRender.RenderCmy | fixture.py:312-313 | CMY fires exactly when C, M and Y channels all exist, and it carries their last values. |
| FixtureRender.RenderPanTilt | fixture.py:315-321 | Pan/tilt fires exactly when a Pan or a Tilt channel exists. A missing pan is 191 and a missing tilt is 190. |
| FixtureRender.RenderZoom | fixture.py:323-324 | Zoom fires exactly when a Zoom channel exists, and it carries the last value. |
| FixtureRender.RenderShutterDimmer | fixture.py:326-329 | Shutter/dimmer fires exactly when a Shutter1 or Dimmer channel exists. A missing shutter is 0, and the dimmer is passed as absent when there is none. |
| FixtureRender.GeometryCount | fixture.py:306 | The mixing dictionary has one entry exactly when all channels share one geometry. |
| FixtureRender.GeometryNamedIff | fixture.py:306 | Searching the dictionary's geometries in the names is the same as searching the channels' geometries. |
| FixtureRender.RenderRgbSound | fixture.py:304-310 | Every colour update carries the last R, G and B values of one geometry, and names only that geometry. |
| FixtureRender.RenderRgbComplete | fixture.py:304-310 | Every geometry with R, G and B channels gets a colour update with their last values. |
| FixtureRender.RenderRgbAddressed | fixture.py:306-310 | A colour update names its geometry exactly when the fixture has more than one geometry and one of them occurs in a light or emitter name. |
| FixtureStrobe.StoreLoop | fixture.py:357-365 | Every light is written, but only the first one when the shutter is positive. The remembered values are those of the last light written. |
| FixtureStrobe.UpdateShutterDimmer | fixture.py:347-372 | Which lights take the new shutter and dimmer (counters untouched), and which keep theirs. The timer is registered exactly when the shutter is non-zero and the last light written was not strobing, or there are no lights. |
| FixtureStrobe.NextCounter | fixture.py:388-392 | A non-negative counter lands in 1..shutter+1 after one tick. A counter past the shutter value restarts at 1. |
| FixtureStrobe.RunStrobe | fixture.py:374-406 | For each light, the level is the dimmer on count 1 and dark otherwise, and the counter advances. The emitters take the last light's level. The timer keeps running exactly when no light has a zero shutter or dimmer. |
| FixtureStrobe.TicksAdd | fixture.py:374-406 | Successive ticks compose. |
| FixtureStrobe.TicksAdvance | fixture.py:388-392 | Below the shutter value, the counter advances by one per tick. |
| FixtureStrobe.TicksPeriodic | fixture.py:386-392 | A light is back to the same state after shutter+1 ticks. |
| FixtureStrobe.FlashesOncePerPeriod | fixture.py:386-392 | Within one period, a strobing light flashes on exactly one tick: the one that brings its counter back to 1. |
| FixtureStrobe.ShutterZeroStopsStrobe | fixture.py:347-384 | Closing the shutter never registers a timer, and it leaves a light that stops a running timer on its next tick. |
| FixtureStrobe.NoSecondTimer | fixture.py:368-369 | With every light already strobing, no second timer is registered. |
| FixtureStrobe.OpeningShutterStartsStrobe | fixture.py:352-369 | Opening the shutter on dark lights registers the timer, and the first light, which is always written, then strobes. Only a negative shutter, which no DMX value is, writes every light. |
| FixtureStrobe.LaterLightsStayDark | fixture.py:356-362 | For a shutter of 0 or more, a light after the first that has shutter value 0 keeps it: the `break` after the first light means it is never written. |
| FixtureStrobe.OpeningShutterDropsLaterLights | fixture.py:356-400 | As written, opening the shutter (positive) on a fixture whose second light is dark registers the timer but leaves that light unchanged and not strobing. Rendering the same values again registers nothing, because the first light now strobes. |
| FixtureStrobe.OpenThenTickAsWritten | fixture.py:356-400 | Under the same conditions, the timer is registered and the first `runStrobe` tick stops it again. |
| FixtureStrobe.UpdateShutterDimmerIntended | fixture.py:352-369 | The corrected update: every light takes the new shutter and dimmer, counters are kept, and the timer is registered exactly when the shutter is non-zero and the last light was not strobing (or there are no lights). |
| FixtureStrobe.IntendedAgreesWithWritten | fixture.py:352-369 | The corrected update equals the written one whenever the shutter is not positive or there is at most one light. |
| FixtureStrobe.OpenThenTick | fixture.py:368-400 | With the corrected update, a non-zero shutter and dimmer leave every light strobing, so the next tick keeps the timer running. The timer is registered exactly when the last light was dark. |
| Universe.ParseInput | universe.py:19 | An identifier that parses names that input. |
| Universe.ParseInputId | universe.py:19 | The three input identifiers BLENDERDMX, ARTNET and sACN are distinct, and each round-trips. |
| Universe.Add | universe.py:45-51 | Appends one universe with the given number and name and the default input and settings. The earlier universes are unchanged, and the new one is returned. |
| Universe.Remove | universe.py:53-56 | An out-of-range index changes nothing. A valid index removes exactly that universe, keeping the others in order. |
| Universe.AddThenRemove | universe.py:45-56 | Removing the universe just added restores the list. |
| Programmer.Unselect | fixture.py:499-502 | Deselects exactly the root and the target. |
| Programmer.SelectAll | panels/programmer.py:34-38 | Adds every fixture's root to the selection and nothing else. |
| Programmer.SelectAllTouchesEvery | panels/programmer.py:34-38 | After Select All every fixture is selected, and doing it again changes nothing. |
| Programmer.SelectEveryOther | panels/programmer.py:67-74 | The selection is exactly the roots of the even-positioned fixtures. |
| Programmer.SelectEveryOtherAlternates | panels/programmer.py:67-74 | With separate fixtures, exactly the even-positioned ones end up selected. |
| Programmer.InvertPass | panels/programmer.py:48-53 | The live unselect loop only removes objects and only remembers fixtures it has visited. |
| Programmer.SelectInvert | panels/programmer.py:46-59 | The root of every fixture without a selected object ends up selected. Everything else that ends up selected was already selected or is some fixture's root. |
| Programmer.InvertSelection | panels/programmer.py:46-59 | With separate fixtures, an object is selected after Invert exactly when it was selected and is not the root or target of a fixture with a selected object, or when it is the root of a fixture without one. |
| Programmer.InvertPassSeparate | panels/programmer.py:48-53 | With separate fixtures, the live loop remembers exactly the fixtures that had a selected object at the start, and removes exactly their roots and targets. |
| Programmer.InvertTouched | panels/programmer.py:46-59 | After Invert, a fixture is selected exactly when it was not before, or when it still has a selected object besides its root and target. |
| Programmer.InvertFlipsRoots | panels/programmer.py:46-59 | Inverting a selection made of roots selects exactly the other fixtures. |
| Programmer.TouchedTargets | panels/programmer.py:231-238 | Exactly the targets of the fixtures that have a selected object. |
| Programmer.SelectTargets | panels/programmer.py:231-243 | With some target found, the selection becomes exactly those targets. Otherwise it is unchanged. |
| Programmer.TouchedByTargets | panels/programmer.py:231-243 | A fixture is selected through the targets exactly when it was selected and has a target. |
| Programmer.SelectTargetsKeepsFixtures | panels/programmer.py:231-243 | When every selected fixture has a target, the same fixtures stay selected. |
| Programmer.SelectTargetsIdempotent | panels/programmer.py:231-243 | Selecting targets twice is selecting them once. |
| Programmer.TargetsToZero | panels/programmer.py:107-117 | The selection after the operator is the one `select_targets` makes. |
| Programmer.TargetsToZeroMovesTouchedTargets | panels/programmer.py:107-117 | The targets moved to the origin are exactly those of the fixtures that had a selected object before the operator ran. |
| Programmer.TouchedBodies | panels/programmer.py:128-135 | Exactly the bodies of the fixtures that have a selected object. |
| Programmer.SelectBodies | panels/programmer.py:126-141 | With some body found, the selection becomes exactly those bodies. Otherwise it is unchanged. |
| Programmer.SelectBodiesKeepsFixtures | panels/programmer.py:126-141 | With separate fixtures, the fixtures still selected are exactly those that had a selected object and have bodies. |
| Programmer.ClearLoopOutside | panels/programmer.py:84-92 | A slot of no cleared fixture keeps its value. |
| Programmer.ClearLoopInside | panels/programmer.py:84-92 | A cleared fixture's slot holds its channel default unless a later cleared fixture shares the slot. |
| Programmer.ClearLoopLast | panels/programmer.py:84-92 | When the last fixture the loop visits is cleared, each of its slots holds its channel default afterwards. |
| Programmer.ClearProgrammer | panels/programmer.py:82-99 | The programmer controls are reset: white, and dimmer, pan, tilt, zoom and strobe at 0. Slots outside every cleared fixture are untouched. |
| Programmer.ClearResetsCleared | panels/programmer.py:84-92 | With fixtures on separate slots, every channel of every cleared fixture is back at its default. Every fixture is cleared when nothing is selected, and the fixtures with a selected object are cleared otherwise. |
| Setup.ExportStem | panels/setup.py:430-431 | The stem is a prefix of the file name. |
| Setup.ExportStemOfZipped | panels/setup.py:430-431 | A `.zip` extension in any letter case is stripped, and only once. |
| Setup.ExportStemKeepsOthers | panels/setup.py:430-431 | A name without the extension is kept. |
| Setup.Export | panels/setup.py:428-444 | A stem shorter than two characters is refused with "Incorrect file name!" and the exporter is not called. Otherwise the exporter is called once. On success, the report is "Data exported to: " followed by the directory joined with `<stem>.zip`, so it ends with `<stem>.zip`. On failure, the exporter's error is reported. |
| Setup.ExportWithOrWithoutExtension | panels/setup.py:428-444 | Exporting `x` and exporting `x.zip` are the same request. |
| Setup.ExportThenImport | panels/setup.py:383-444 | Importing the zip an export wrote calls the importer on that very file. The export report ("Data exported to: ") and the import report ("Data imported from: ") name the same joined path. Exporting again under the zip's own name makes the same request. |
| Setup.Import | panels/setup.py:383-398 | A name shorter than two characters is refused without calling the importer. Otherwise the importer is called once. On success, the report is "Data imported from: " followed by the directory joined with the file name. On failure, the importer's error is reported. |
| Setup.VersionText | panels/setup.py:326-344 | The text is the query's error if it returned one. Otherwise: "KeyError 'name'" without a release name, the comparison's exception, or one of three verdicts by the sign of the comparison. |
| Setup.VersionCallback | panels/setup.py:326-347 | The report shows the text. The status takes it only when it is a string, since storing anything else raises. |
| Setup.VersionCheck | panels/setup.py:349-353 | The status reads "Checking..." until the callback stores its text. |
| Setup.VersionVerdictsDistinct | panels/setup.py:339-344 | A newer release is announced by name, a pre-release and the latest release get fixed texts, and the three cannot be confused. |
| Setup.ErrorWins | panels/setup.py:329-330 | An error from the release query takes precedence over the name and the comparison. |

## Left out

- Blender itself is not modelled: objects, materials, node trees, timers, reports and the user interface. Host calls are output lists, and the scene is reduced to the sets of objects the operators test.
- Floating-point work is not modelled: colour, energy, emission strength, pan/tilt/zoom angles and gel colour. `render` is modelled up to the fixture updates it calls, and `runStrobe` up to the DMX level of each light.
- The network is not modelled: the mvrxchange client and server classes, `time.sleep`, and threads. Their calls are recorded as actions. Whether a constructor succeeds is a parameter.
- `DMX_Data`, `blender_utils` (zip export/import, the latest-release query, `version_compare`), `pygdtf` and `DMX_GDTF` are not part of this model. Their results are parameters, and a never-written DMX slot is taken to read 0.
- The MVR-xchange callbacks assume an installed instance. With `_instance` None they raise AttributeError, and that path is not modelled.
- `prefs.get("application_uuid", uuid4())` is a parameter. Random UUIDs are not modelled.
- `get_port`, `toggleSelect`, Deselect All, Select Camera and the panels' `draw` methods are outside the modelled core.
- The import and export operators take `files[0]` as a parameter. An empty file list (IndexError) is not modelled.
- Translations through `_()` are treated as the identity.
- Python's `str.lower()` is modelled as ASCII lower-casing. This is exact for the tests made here, `"shutter" in id.lower()` and `name[-4:].lower() == ".zip"`: no other character lowers to a single one of their letters, and the slice is taken before lowering.
- JSON numbers are integers. Floating-point JSON numbers are not modelled.
- Setup.Display: a release name that is a JSON array or object is rendered as the empty string, not as Python's `str()` of it.
- Fixture universe and address are clamped to the limits declared on the properties. Values beyond 32 bits, which Blender rejects, are not modelled.
- Universe.Add: the universe number is an unbounded integer. In Blender, `id` is a signed 32-bit `IntProperty` (universe.py:23-27). Assigning a number outside that range at universe.py:49 raises after `dmx.universes.add()` at universe.py:47 has already appended a default universe. That path is not modelled.
- FixtureStrobe.UpdateShutterDimmer: `render` passes no dimmer when a fixture has a shutter channel but no Dimmer channel. That path is not modelled: it raises TypeError inside the `try`, and Blender's handling of a None custom property is outside the model. Neither is a light without the `shutter_value`, `shutter_dimmer_value` or `flux` custom property (fixture.py:357-363). The KeyError is swallowed by the `except` at fixture.py:365-366, so the loop ends at that light. Later lights keep their values. The remembered pair stops there too. A missing `flux` leaves that light's pair, after its new values were stored. A missing `shutter_value` leaves the previous light's pair. A missing `shutter_dimmer_value` leaves that light's shutter with the previous light's dimmer. The model assumes every light carries all three properties.
- FixtureStrobe.RunStrobe: the exception handler that stops the timer on a missing custom property is not modelled.
- FixtureRender.PerGeometry counts the mixing dictionary's keys through its ordered key list. `GeometriesWellFormed` shows the two agree.
- The client `leave`, `re_join` and `request_file` call `connect()` first. This replaces the current client with a new one and never stops the old one. It is modelled as written. Client objects are told apart by a serial number the handle keeps, standing in for Python object identity.
- A server `enable` whose constructor fails leaves the instance installed without a server, so later enables do nothing. It is modelled as written.

## Findings

| source | as written | input that shows it | evidently intended | confidence | as-written member | corrected member |
|---|---|---|---|---|---|---|
| mvrx_protocol.py:164 | `request_file` guards on `_instance.DMX_MVR_X_Server`, an attribute no instance has, so the guard raises AttributeError whenever an instance exists | `enable()` succeeds, then `request_file(commit)` is called: it raises before `server.request_file` is reached | guard on `_instance.server` and request the file into `assets/mvrs/<commit_uuid>.mvr` | high, not executed | MvrxProtocol.ServerRequestFileAsWritten (with MvrxProtocol.ServerRequestFileNeverRequests) | MvrxProtocol.ServerRequestFile |
| fixture.py:361-362 | with a positive shutter, the `break` ends the light loop after the first light has stored the new shutter and dimmer, so later lights keep shutter value 0 while `runStrobe` stops the timer as soon as any light reads 0 | a fixture with two lights, both dark, rendered with shutter 10 and dimmer 255: the timer is registered, the first tick returns None because the second light reads 0, and re-rendering registers nothing because the first light now strobes | the `break` skips only the energy assignment the timer redoes: every light stores the new values, and the timer keeps running | medium, not executed | FixtureStrobe.OpenThenTickAsWritten (with FixtureStrobe.OpeningShutterDropsLaterLights) | FixtureStrobe.UpdateShutterDimmerIntended (with FixtureStrobe.OpenThenTick) |
