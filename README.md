# Virtual Gamepad relay — a Dafny model

Virtual Gamepad turns a phone or desktop window into an Xbox 360 controller.
A Tauri application (the producer) keeps one controller state made of 14
button flags, two i32 sticks and two u8 triggers. Each touch command
updates that state and emits a full snapshot: the names of the pressed
buttons in a fixed order, plus the trigger and axis values. A WebSocket
server on the host (the ingress) accepts one client at a time and hands
every trimmed text frame to an in-process broadcast bus. A virtual pad (the
consumer) rebuilds an XInput report from each snapshot: a 16-bit button
word and the analogue values. It then hands that report to the ViGEm bus
driver.

This project models those four pieces and proves what they promise:

- `base.dfy`: `Option`, the integer widths `u8`, `i16` and `i32`, and two
  small sequence facts.
- `producer.dfy` (module `Producer`) models `gamepad.rs`:
  - the button, stick and trigger records;
  - the string-keyed mutators of the class `GamepadState`;
  - the snapshot encoding.
- `producer_commands.dfy` (module `ProducerCommands`) models `lib.rs`. The
  class `AppState` holds the shared state and the log of emitted events.
  Each of the three commands mutates the state and then emits.
- `emulation.dfy` (module `Emulation`) models `virtual_gamepad.rs`:
  - the wire record;
  - the XInput button flags;
  - the decode loop that rebuilds the button word;
  - the class `VirtualGamepad` with its log of driver updates.

  It also carries the producer-to-consumer round trip.
- `ingress.dfy` (module `Ingress`) models `websocketserver.rs`:
  - the client slot and the accept and read loops, written as events;
  - `str::trim` over Rust's whitespace set;
  - the logs of what went to the bus and what went to a client.

JSON text does not appear. A snapshot is the datatype `Producer.Snapshot`
on the producer side and `Emulation.WireState` on the consumer side. The
consumer's parse is an `Option<WireState>` parameter, with `None` standing
for a payload that fails to parse. Driver updates, bus sends and client
writes are appends to logs held by the classes.

## Model

| member | source | states |
|---|---|---|
| Producer.ButtonIdOf | TauriGamePad/src-tauri/src/gamepad.rs:46-62 | a string names a button exactly when it equals that button's name; every other string names none |
| Producer.Buttons.Updated | TauriGamePad/src-tauri/src/gamepad.rs:45-64 | the button set after `update_button(btn, status)`: each of the 14 match arms sets its own flag when `btn` is its name, and any other string changes no flag |
| Producer.UpdateButtonEffect | TauriGamePad/src-tauri/src/gamepad.rs:45-64 | after a button write, the named button holds the new status and every other button keeps its value; an unrecognised name leaves all 14 flags unchanged |
| Producer.UpdatedGet | TauriGamePad/src-tauri/src/gamepad.rs:45-64 | one button after a write holds the written status when the write names it, and its old value otherwise |
| Producer.UpdateButtonLastWriteWins | TauriGamePad/src-tauri/src/gamepad.rs:45-64 | of two writes to the same name, only the second counts; repeating a write changes nothing |
| Producer.ApplyWrites | TauriGamePad/src-tauri/src/gamepad.rs:45-64 | the button set after a sequence of `update_button` calls, applied oldest first |
| Producer.ApplyWritesLastWins | TauriGamePad/src-tauri/src/gamepad.rs:45-64 | after any sequence of writes, each button holds the status of the last write that named it, or its old value if none did |
| Producer.OutputOrderRanks | TauriGamePad/src-tauri/src/gamepad.rs:93-106 | the output order ranks the 14 names 0 to 13 in the order the snapshot lists them |
| Producer.OutputOrderComplete | TauriGamePad/src-tauri/src/gamepad.rs:93-106 | every one of the 14 buttons has a place in the output order |
| Producer.PressedNames | TauriGamePad/src-tauri/src/gamepad.rs:93-106 | the conditional pushes of `to_output_string`: walking a button order, the name of each pressed button, in that order |
| Producer.PressedNamesLength | TauriGamePad/src-tauri/src/gamepad.rs:93-106 | filtering a button order gives at most one name per position |
| Producer.PressedNamesHas | TauriGamePad/src-tauri/src/gamepad.rs:93-106 | filtering a button order keeps a button's name exactly when the button is in the order and pressed |
| Producer.PressedNamesOnly | TauriGamePad/src-tauri/src/gamepad.rs:93-106 | every name the filter keeps is a recognised name whose button is pressed |
| Producer.PressedNamesRanked | TauriGamePad/src-tauri/src/gamepad.rs:93-106 | filtering any tail of the output order yields names in strictly increasing rank |
| Producer.EncodeButtons | TauriGamePad/src-tauri/src/gamepad.rs:90-106 | the snapshot's button list holds a name exactly when its flag is true; it holds only recognised names, at most 14, without duplicates, in the fixed order LB, RB, UP, DOWN, LEFT, RIGHT, Y, X, A, B, SELECT, HOME, BACK, START |
| Producer.EncodeNoButtons | TauriGamePad/src-tauri/src/gamepad.rs:90-106 | with no button pressed the list is empty |
| Producer.EncodeSingleButton | TauriGamePad/src-tauri/src/gamepad.rs:90-106 | with exactly one button pressed the list is that button's name alone |
| Producer.GamepadState.constructor | TauriGamePad/src-tauri/src/gamepad.rs:5-41 | the default state has every button released, both sticks at (0, 0) and both triggers at 0 |
| Producer.GamepadState.UpdateButton | TauriGamePad/src-tauri/src/gamepad.rs:45-64 | the button set becomes the old one with the named button written; sticks and triggers are unchanged |
| Producer.GamepadState.UpdateStick | TauriGamePad/src-tauri/src/gamepad.rs:67-79 | "stickLeft" or "stickRight" overwrites both axes of that stick only, unclamped; any other id changes nothing |
| Producer.GamepadState.UpdateTrigger | TauriGamePad/src-tauri/src/gamepad.rs:82-88 | "LT" or "RT" overwrites only that trigger; any other id changes nothing |
| Producer.GamepadState.ToSnapshot | TauriGamePad/src-tauri/src/gamepad.rs:90-120 | the snapshot's button list is the encoding of the current flags, and the triggers and four axes are copied unchanged; reading the state does not modify it |
| ProducerCommands.AppState.constructor | TauriGamePad/src-tauri/src/lib.rs:66-70 | the shared state starts as the default controller state, and nothing has been emitted |
| ProducerCommands.AppState.Emit | TauriGamePad/src-tauri/src/lib.rs:27-28 | a successful emit appends one "send_to_server" event and returns Ok; a failed emit appends nothing and returns the error as a string |
| ProducerCommands.AppState.ButtonsInfo | TauriGamePad/src-tauri/src/lib.rs:17-30 | applies the button write, then emits exactly one snapshot of the updated state; on emit failure it returns Err and keeps the mutation; an unrecognised name emits the snapshot of the unchanged state |
| ProducerCommands.AppState.StickInfo | TauriGamePad/src-tauri/src/lib.rs:32-47 | applies the stick write, then emits exactly one snapshot of the updated state; on emit failure it returns Err and keeps the mutation; an unrecognised id emits the snapshot of the unchanged state |
| ProducerCommands.AppState.TriggerInfo | TauriGamePad/src-tauri/src/lib.rs:49-62 | applies the trigger write, then emits exactly one snapshot of the updated state; on emit failure it returns Err and keeps the mutation; an unrecognised id emits the snapshot of the unchanged state |
| ProducerCommands.PressA | TauriGamePad/src-tauri/src/lib.rs:17-30 | pressing A on a fresh application emits a snapshot listing A alone, everything else zero |
| ProducerCommands.PressThenMove | TauriGamePad/src-tauri/src/lib.rs:17-47 | mutations accumulate: after pressing A and moving the left stick to (100, -50), the second snapshot lists A and carries the stick |
| ProducerCommands.PressedA | TauriGamePad/src-tauri/src/gamepad.rs:45-106 | pressing A on the default buttons encodes as the list holding A alone |
| ProducerCommands.PressedThenReleasedA | TauriGamePad/src-tauri/src/gamepad.rs:45-106 | pressing then releasing A on the default buttons encodes as the empty list |
| Emulation.Flag | src/virtual_gamepad.rs:78-89 | the XInput `wButtons` bit each of the twelve `XButtons` constants stands for |
| Emulation.FlagsDistinct | src/virtual_gamepad.rs:78-89 | the twelve XInput flags are distinct single bits, all inside 0xF33F |
| Emulation.Recognise | src/virtual_gamepad.rs:77-91 | a name is recognised as a button exactly when it equals that button's wire name |
| Emulation.SelectAndHomeUnrecognised | src/virtual_gamepad.rs:77-91 | SELECT and HOME are not recognised |
| Emulation.FlagOf | src/virtual_gamepad.rs:77-91 | the bits one list entry ORs into the word: its button's flag for the twelve recognised names, none for any other string |
| Emulation.ButtonWord | src/virtual_gamepad.rs:73-92 | the word the zero-then-OR loop builds: the OR of the flags of the list's entries, taken in list order |
| Emulation.FlagOfBits | src/virtual_gamepad.rs:77-91 | one name contributes exactly the flag of the button it names, and no bit outside the twelve flags |
| Emulation.WordsAgree | src/virtual_gamepad.rs:73-92 | a button word inside the twelve flags is determined by which flags it holds |
| Emulation.ButtonWordBit | src/virtual_gamepad.rs:73-92 | in the rebuilt word, a button's bit is set exactly when its name occurs in the list |
| Emulation.ButtonWordInside | src/virtual_gamepad.rs:73-92 | the rebuilt word never holds a bit outside the twelve flags |
| Emulation.ButtonWordBits | src/virtual_gamepad.rs:73-92 | the rebuilt word has each button's bit set exactly when its name occurs, and nothing else |
| Emulation.ButtonWordSameNames | src/virtual_gamepad.rs:76-92 | two lists that mention the same recognised names give the same word, whatever their order, repetitions or unrecognised entries |
| Emulation.UnrecognisedNameIgnored | src/virtual_gamepad.rs:77-91 | an unrecognised name anywhere in the list contributes no bit |
| Emulation.Apply | src/virtual_gamepad.rs:62-106 | the report after one `use_controller` call: unchanged on a failed parse; otherwise the rebuilt word plus the snapshot's triggers and axes |
| Emulation.ApplyFullReplace | src/virtual_gamepad.rs:73-100 | a parsed snapshot determines the whole report, whatever the report before it was; applying it twice equals applying it once; triggers and axes are copied verbatim |
| Emulation.ApplyAll | src/virtual_gamepad.rs:54-60 | the report after `use_controller` has handled each delivery in turn |
| Emulation.UpdatesOf | src/virtual_gamepad.rs:54-60 | the driver updates a run of deliveries issues: one per parsed delivery, each carrying the report right after it |
| Emulation.ApplyAllLastWins | src/virtual_gamepad.rs:54-106 | after a stream of deliveries the report is what the last parsed snapshot makes of the starting report; there is one driver update per parsed snapshot, the last carrying the final report |
| Emulation.VirtualGamepad.constructor | src/virtual_gamepad.rs:39-45 | a new pad holds UP alone, with all analogue values zero, and has sent nothing |
| Emulation.VirtualGamepad.PressButtonA | src/virtual_gamepad.rs:48-50 | the button word becomes A or X, and exactly one update carries the new report |
| Emulation.VirtualGamepad.UseController | src/virtual_gamepad.rs:62-106 | a payload that fails to parse changes nothing and sends nothing; a parsed one rebuilds the report from the snapshot alone and sends exactly one update carrying it |
| Emulation.VirtualGamepad.StartReceiving | src/virtual_gamepad.rs:54-60 | handling a stream of deliveries leaves the report and the update log as the per-delivery fold describes |
| Emulation.Counterpart | src/virtual_gamepad.rs:78-89 | each consumer button corresponds to the producer button with the same wire name |
| Emulation.Carried | src/virtual_gamepad.rs:8-17 | a producer snapshot has a wire form exactly when its four axes fit in i16, and the wire form copies every field |
| Emulation.SharedBit | src/virtual_gamepad.rs:73-92 | decoding the producer's button list sets a shared button's bit exactly when the producer's flag for it is true |
| Emulation.RoundTrip | src/virtual_gamepad.rs:73-100 | a producer snapshot with axes in i16 range has a wire form, and decodes to a report whose word is rebuilt from the snapshot's own button list and whose triggers and axes equal the snapshot's; with SharedBit, each shared button is held exactly when its producer flag was true |
| Emulation.ButtonWordNoneRecognised | src/virtual_gamepad.rs:77-91 | a list of unrecognised names decodes to the empty word |
| Emulation.SelectAndHomeDropped | src/virtual_gamepad.rs:77-91 | SELECT and HOME held alone on the producer give a non-empty button list that decodes to no button at all |
| Ingress.IsWhitespace | src/websocketserver.rs:41 | `char::is_whitespace`: the Unicode White_Space characters, from tab to carriage return, space, U+0085, U+00A0, U+1680, U+2000 to U+200A, U+2028, U+2029, U+202F, U+205F and U+3000 |
| Ingress.Trim | src/websocketserver.rs:41 | `str::trim`: whitespace is removed from the front and from the back until the text is empty or starts and ends with a non-whitespace character |
| Ingress.TrimIsTrimmed | src/websocketserver.rs:41 | the trimmed text neither starts nor ends with whitespace |
| Ingress.TrimStartIndex | src/websocketserver.rs:41 | the count of characters removed in front, together with the trimmed length, stays within the frame |
| Ingress.TrimIsSlice | src/websocketserver.rs:41 | the trimmed text is the contiguous part of the frame that starts after the removed leading whitespace |
| Ingress.TrimRemovesOnlyWhitespace | src/websocketserver.rs:41 | every character of the frame in front of or behind the kept part is whitespace |
| Ingress.TrimOfTrimmed | src/websocketserver.rs:41 | text without whitespace at its ends is its own trim |
| Ingress.TrimLeading | src/websocketserver.rs:41 | leading whitespace makes no difference to the trim |
| Ingress.TrimTrailing | src/websocketserver.rs:41 | trailing whitespace after text that starts with a non-whitespace character makes no difference to the trim |
| Ingress.TrimPadded | src/websocketserver.rs:41 | padding trimmed text with whitespace and trimming it gives the text back |
| Ingress.TrimIdempotent | src/websocketserver.rs:41 | trimming twice is trimming once |
| Ingress.ForwardItem | src/websocketserver.rs:38-49 | what one read item hands to the bus: a text frame's trim, or nothing for any other item |
| Ingress.Forwarded | src/websocketserver.rs:37-50 | what the read loop hands to the bus for one connection: each item's contribution, in arrival order |
| Ingress.ForwardedAppend | src/websocketserver.rs:37-50 | what the read loop forwards for two runs of items is what it forwards for the first followed by the second |
| Ingress.ForwardedOncePerText | src/websocketserver.rs:37-50 | exactly one message is forwarded per text frame, and each has no whitespace at its ends |
| Ingress.ForwardedSkipsOthers | src/websocketserver.rs:48 | a non-text frame or a read error anywhere forwards nothing and does not disturb the rest |
| Ingress.TextFrames | src/websocketserver.rs:39 | one text frame per text |
| Ingress.TrimEach | src/websocketserver.rs:41 | the k-th entry is the trim of the k-th text |
| Ingress.ForwardedAllText | src/websocketserver.rs:37-50 | a run of text frames forwards each frame, trimmed, in arrival order |
| Ingress.AcceptedPrefix | src/websocketserver.rs:27 | the accept loop's run stops at the first failed accept, or at the end of the outcomes |
| Ingress.AcceptedBeforePrefix | src/websocketserver.rs:27 | every outcome the accept loop gets through is an accepted connection |
| Ingress.ForwardConn | src/websocketserver.rs:27-53 | what one accept outcome hands to the bus: the served connection's forwarded frames, or nothing for a failed accept |
| Ingress.ForwardedAll | src/websocketserver.rs:27-53 | what a run of accept outcomes hands to the bus, connection after connection |
| Ingress.ForwardedAllStep | src/websocketserver.rs:27-53 | serving one more accepted connection extends what reached the bus by that connection's forwarded frames |
| Ingress.WebsocketServer.constructor | src/websocketserver.rs:21-24 | a new server has no client, and has forwarded and pushed nothing |
| Ingress.WebsocketServer.Accept | src/websocketserver.rs:33-34 | the new connection's sender takes the slot, replacing whatever was there |
| Ingress.WebsocketServer.Receive | src/websocketserver.rs:38-49 | a text frame forwards its trim; anything else forwards nothing |
| Ingress.WebsocketServer.Disconnect | src/websocketserver.rs:52 | when the read stream ends the slot is cleared |
| Ingress.WebsocketServer.SendToAgent | src/websocketserver.rs:62-65 | the message is handed to the bus exactly once |
| Ingress.WebsocketServer.SendToClient | src/websocketserver.rs:55-61 | with no client nothing is written; with one, exactly one text message goes to that client only |
| Ingress.WebsocketServer.Serve | src/websocketserver.rs:30-52 | one connection is served to the end of its stream: its frames are forwarded in order and the slot ends empty |
| Ingress.WebsocketServer.Init | src/websocketserver.rs:26-54 | connections are served one after another until the first failed accept, which ends the loop; the bus receives every served connection's forwarded frames in order, and the slot ends empty once a connection has been served |
| Ingress.HandOver | src/websocketserver.rs:33-60 | after client 1 leaves a push is dropped, and once client 2 is accepted the next push reaches client 2 only |
| Ingress.SampleFrameTrimmed | src/websocketserver.rs:41 | a frame padded with a space and a newline trims to its JSON text |
| Ingress.SampleItemsForwarded | src/websocketserver.rs:37-50 | of a text frame, a binary frame and a read error, only the text frame is forwarded |
| Ingress.SampleRunForwarded | src/websocketserver.rs:26-54 | in the sample run the loop stops at the failed accept, and only the first client's frame is forwarded |
| Ingress.ForwardOneClient | src/websocketserver.rs:26-54 | running the accept loop on the sample run stops, and forwards exactly the trimmed frame |

## Left out

- JSON text. `serde_json::json!`, `to_string`, `from_str` and `is_json` are
  not modelled. Snapshots are datatypes, and a consumer parse is an
  `Option` parameter. Key order, escaping and serde's own range checks on
  u8 and i16 are outside the model.
- Producer axes outside i16. The producer stores i32 axes unclamped, while
  the consumer's record has i16 axes. `Emulation.Carried` gives a wire form
  only to snapshots whose axes fit, so `Emulation.RoundTrip` covers only
  those. What serde does with a larger value is not modelled.
- The ViGEm driver. `Client::connect`, `plugin`, `wait_ready` and the
  `expect` in `new` are foreign calls. `connector.update` is modelled as an
  append to `updates`. Logging with `println!`/`eprintln!` is left out.
- The broadcast bus (`src/agent.rs`): its capacity, lagging and eviction
  belong to tokio. `Ingress` records each `send` as an append to
  `forwarded`, and `Emulation` takes the delivered messages as a finite
  input sequence.
- `Emulation.VirtualGamepad.StartReceiving`: models a finite prefix of the
  endless receive loop. The `unwrap` on a receive error, which ends the
  consumer with a panic (a lagged receiver included), is not modelled.
- The WebSocket handshake and framing (RFC 6455, sections 4 and 5) and TCP
  bind/accept. The `unwrap` panics on bind and on the handshake are not
  modelled. A connection is its id plus the finite list of items its read
  stream yields.
- `Ingress.WebsocketServer.Init`: a finite run of accept outcomes. When
  every outcome is an accept, the real loop would keep waiting. `stopped`
  is then false.
- `Ingress.WebsocketServer.SendToClient`: the result of the write is
  ignored, as in the source. The model records every write attempted,
  including one that fails.
- Concurrency. The tokio mutex, async/await, threads and the Tauri runtime
  are not modelled. Each command, delivery and event is one atomic
  sequential step.
- Process wiring: `src/main.rs` and the Tauri builder in `run`, apart from
  the initial state. The window UI and its joystick arithmetic
  (`TauriGamePad/src/main.js`) are not part of this model.
- `ProducerCommands.PressThenMove`: shows accumulation with a press
  followed by a stick move. Releasing A after the press is shown on values
  by `ProducerCommands.PressedThenReleasedA`, not as a third command.
- `Producer.GamepadState.ToSnapshot`: returns the snapshot datatype,
  not its JSON text.
