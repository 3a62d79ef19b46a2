# BLE relay controller: session manager, in Dafny

This project models the wireless core of a touchscreen controller (an ESP32
"Cheap Yellow Display") that drives a four-relay board over Bluetooth Low
Energy. The core covers four things:

- **Peer registry**: the addresses of Target1 and Target2 and the
  auto-connect flag. They are kept in the `ble_storage` namespace of the
  non-volatile store. Target1 defaults to `B4:52:A9:B0:0F:BB`, Target2 to
  the all-zero "not set" address, and auto-connect to on.
- **Discovery**: a five-second scan rebuilds the candidate list from the
  radio's results. Each candidate is flagged if its address equals a stored
  target. The user then selects a candidate by clicking it.
- **Session manager**: the single link to a peer, held in the globals
  `isConnected`, `pClient`, `serverAddress`, `pRemoteCharacteristic`,
  `connectedDeviceName` and `connectedDeviceAddress`. Its operations are
  connect, direct connect to a stored target, disconnect, the two-second
  liveness tick of `loop()` and the boot-time auto-connect of `setup()`.
- **Command codec**: text tokens (`CONNECTED`, `CONNECTED_TO_TARGET2`,
  `DISCONNECT`) are sent byte for byte. A hex string is converted to bytes in
  pairs with `strtoul`, and the relay buttons send eight fixed 4-byte frames.

Files and modules:

- `codec.dfy` (`Codec`): hex conversion, relay frames and text bytes.
- `registry.dfy` (`Registry`): the stored MACs and flag over a `map` that
  stands for the store.
- `discovery.dfy` (`Discovery`): the candidate list and the selection.
- `session.dfy` (`Session`): the link globals as a class.
- `controller.dfy` (`Controller`): the handlers and `setup` that combine
  them.
- `scenarios.dfy` (`Scenarios`): client code that relies only on the
  contracts.

The BLE stack is replaced by its answers, passed in as parameters:

- `Radio` holds the answers during a connect: does the link come up, are the
  service and the characteristic found, and what do the old and the new
  client report when asked whether their link is up.
- `linkUp` is the client's `isConnected()` answer wherever a write or the
  liveness tick asks it.

The session keeps two ghost records:

- `written`, the log of every payload written to the characteristic;
- `live`, the set of handles that were allocated with `new` and not yet
  deleted.

The session invariant `Valid()` holds between operations and has two cases:

- **Idle**: every handle is null, nothing is allocated, and no name or
  address is set.
- **Active**: `isConnected` is true, all three handles are set, the client
  and the address are the only live allocations, and the address object
  holds the connected address.

So `isConnected <==> pClient != null`, and every exit path of every
operation keeps this. A connect attempt that creates a client and then fails
(no link, no service or no characteristic) ends Idle, so no handle leaks.
The exception is a connect refused before any client exists: an index
outside the list, or a direct connect to an empty or all-zero Target1 or an
all-zero Target2. It returns false and leaves the existing session, which
may be Active, as it was.

Behaviour of the code worth noting:

- Targets are matched by exact, case-sensitive string equality.
- Target1 is refused when its stored address is empty as well as when it is
  the all-zero address; Target2 only when it is the all-zero address.
- Disconnect writes `DISCONNECT` only when `isConnected` holds and the write
  guard passes: the client reports its link up and the characteristic is
  set.
- Each hex pair is converted with `strtoul`, so an invalid digit is not
  simply read as 0: parsing stops at the first non-digit, so "1G" gives 1;
  leading white space and one sign are accepted; a minus sign negates modulo
  256.
- The connect functions return a plain success flag; the cause of a failure
  is not reported to the caller.
- A send without a session only logs; it returns no error.

Candidate flags are computed when the scan runs. Storing a new target does
not update the flags of the list that is already shown.

## Model

| member | source | states |
|---|---|---|
| `Codec.TextBytes` | src/main.cpp:699-712 | a text payload is its characters as bytes, one per character, in order |
| `Codec.ParseHexPair` | src/main.cpp:728-729 | two hex digits convert to 16·digit(hi) + digit(lo); a pair whose second character is not a hex digit gives at most 15; a pair starting with a character that is neither a hex digit, white space nor a sign gives 0 |
| `Codec.ParseHexPairQuirks` | src/main.cpp:728-729 | the pair conversion follows strtoul: "1G" gives 1, "G1" gives 0, " F" gives 15, "+a" gives 10, "-1" gives 255, "0x" gives 0 |
| `Codec.DecodeHex` | src/main.cpp:718-730 | an odd-length hex string yields no payload; an even-length one yields exactly half as many bytes |
| `Codec.DecodeHexDigits` | src/main.cpp:724-730 | for a string of hex digits, byte i is 16·digit(s[2i]) + digit(s[2i+1]) |
| `Codec.HexToBytes` | src/main.cpp:724-730 | the conversion loop fills an array whose contents are exactly the decoded bytes |
| `Codec.HexRoundTrip` | src/main.cpp:727-730 | decoding the hex text of any byte string gives that byte string back, so the conversion loses no byte value |
| `Codec.RelayLiteralDecodes` | src/main.cpp:918-984 | each of the eight relay literals is an 8-digit hex string that decodes to [0xA0, r, on?1:0, (0xA0+r+on) mod 256] |
| `Codec.RelayFrameInjective` | src/main.cpp:918-984 | two buttons or two states never send the same frame |
| `Registry.GetString` | src/main.cpp:183-184 | a stored string is returned, or the default when the key is absent |
| `Registry.GetBool` | src/main.cpp:215 | a stored flag is returned, or the default when the key is absent |
| `Registry.StringReadAfterWrite` | src/main.cpp:193-210 | a MAC written under a key reads back, and the other keys read as before |
| `Registry.FlagReadAfterWrite` | src/main.cpp:222-228 | the auto-connect flag written reads back, and the MAC keys read as before |
| `Registry.Registry.constructor` | src/main.cpp:100-104 | at power-on the cached MACs are empty, auto-connect is on, and the store keeps what earlier runs saved |
| `Registry.Registry.LoadStoredMACs` | src/main.cpp:181-190 | the cached MACs become the stored ones, or "B4:52:A9:B0:0F:BB" / "00:00:00:00:00:00" when absent |
| `Registry.Registry.SaveTarget1MAC` | src/main.cpp:193-200 | only the target1_mac key is written, the cache equals the new MAC, and the cache stays consistent with the store |
| `Registry.Registry.SaveTarget2MAC` | src/main.cpp:203-210 | only the target2_mac key is written, the cache equals the new MAC, and the cache stays consistent with the store |
| `Registry.Registry.LoadAutoConnectState` | src/main.cpp:213-219 | the cached flag becomes the stored one, or true when absent |
| `Registry.Registry.SaveAutoConnectState` | src/main.cpp:222-229 | only the auto_connect key is written, and the cached flag equals it |
| `Discovery.CandidateFields` | src/main.cpp:497-512 | a candidate keeps its result's address and RSSI; an empty name becomes "Unknown Device"; isTarget1/isTarget2 hold exactly when the address equals that stored MAC |
| `Discovery.Scanner.constructor` | src/main.cpp:57-72 | at power-on no scan runs, the list is empty and nothing is selected |
| `Discovery.Scanner.StartScan` | src/main.cpp:465-556 | a scan already running is ignored; otherwise the selection becomes -1, the list holds one candidate per result in radio order, and scanning ends false |
| `Discovery.Scanner.Select` | src/main.cpp:807-843 | an index below the list size is selected; any other index sets the selection to -1 |
| `Session.Farewell` | src/main.cpp:664-666 | tearing down writes at most one payload, and it is "DISCONNECT"; it is written exactly when the session was up and its link reports up |
| `Session.Session.constructor` | src/main.cpp:54-60 | initially all handles are null, nothing is allocated and nothing has been written |
| `Session.Session.SendData` | src/main.cpp:699-712 | the token is appended to the log exactly when isConnected, pClient is set with its link up, and the characteristic is set; otherwise nothing changes |
| `Session.Session.SendHexString` | src/main.cpp:715-754 | on a live link an odd-length string writes nothing and an even-length one writes its decoded bytes; without a live link nothing is written |
| `Session.Session.Disconnect` | src/main.cpp:660-697 | with no session and no client nothing changes, so a second call is a no-op; otherwise "DISCONNECT" is attempted only if connected, and every handle, the flag, the name and the address are cleared with nothing left allocated |
| `Session.Session.CheckLiveness` | src/main.cpp:1517-1526 | a connected session whose link reports down becomes Idle and writes nothing; otherwise nothing changes |
| `Session.Session.Open` | src/main.cpp:575-657 | an old session is torn down first; success happens exactly when link, service and characteristic all resolve, and leaves the session Active with the given name and address and the token as the next write; any failure leaves the session Idle with every handle released |
| `Session.Session.Resolve` | src/main.cpp:588-657 | with a fresh client and address allocated, success happens exactly when link, service and characteristic resolve, and leaves the session Active with that name and address and the token written if the link is still up; any failure releases both handles and leaves the session Idle |
| `Controller.BootGuardAgreesWithTarget1Check` | src/main.cpp:1496-1497 | the boot guard and the Target1 check of the direct connect disagree only on an empty stored address, and the factory default passes both |
| `Controller.Controller.constructor` | src/main.cpp:53-104 | at power-on the session is Idle, the list is empty and unselected, and the store is the persisted one |
| `Controller.Controller.ConnectToDevice` | src/main.cpp:558-658 | an index outside [0, size) fails with the session untouched; otherwise success happens exactly when link, service and characteristic resolve, the candidate's name and address are connected, "CONNECTED" follows any "DISCONNECT" to the old peer, and a failure leaves the session Idle with every handle released |
| `Controller.Controller.ConnectSelected` | src/main.cpp:783-797 | without a valid selection nothing happens; otherwise the selected candidate is connected under its name and address, "CONNECTED" follows any "DISCONNECT" to the old peer, and a failure leaves the session Idle |
| `Controller.Controller.AutoConnectDirect` | src/main.cpp:300-379 | an empty or all-zero Target1 fails before any client exists; otherwise success happens exactly when link, service and characteristic resolve, names the session "MY TARGET DEVICE" at the stored MAC and sends "CONNECTED", and a failure leaves the session Idle |
| `Controller.Controller.AutoConnectTarget2` | src/main.cpp:382-462 | only the all-zero Target2 fails before any client exists; otherwise success happens exactly when link, service and characteristic resolve, names the session "TARGET2 DEVICE" at the stored MAC and sends "CONNECTED_TO_TARGET2", and a failure leaves the session Idle |
| `Controller.Controller.StoreSelectedAsTarget1` | src/main.cpp:846-870 | with a valid selection only target1_mac and its cache change, to the candidate's address; without one the registry is untouched |
| `Controller.Controller.StoreSelectedAsTarget2` | src/main.cpp:873-897 | with a valid selection only target2_mac and its cache change, to the candidate's address; without one the registry is untouched |
| `Controller.Controller.Scan` | src/main.cpp:776-781 | the Scan button rebuilds the list, flagging candidates against the cached Target1 and Target2 MACs |
| `Controller.Controller.RelayToggled` | src/main.cpp:918-984 | a relay button writes exactly the frame [0xA0, r, on?1:0, checksum] when the link is live, and nothing otherwise |
| `Controller.Controller.Setup` | src/main.cpp:1437-1498 | boot loads the registry, then tries Target1 only when auto-connect is on and Target1 is not all-zero; the session ends connected exactly when that attempt succeeds |
| `Scenarios.DisconnectTwice` | src/main.cpp:660-697 | disconnecting twice writes only what the first call writes and ends Idle |
| `Scenarios.DropThenToggle` | src/main.cpp:1522-1525 | after the tick sees the link down, the session is Idle and a relay button writes nothing |
| `Scenarios.DesignateThenConnect` | src/main.cpp:846-870 | after scanning, selecting candidate 0 and storing it as Target1, the direct connect reaches that address and writes exactly "CONNECTED" |

## Left out

- Screen construction, styling, navigation, the status-indicator colour, the stored-devices status labels, and the list's display text and truncation. These are presentation only.
- Touchscreen coordinate mapping: hardware input.
- The BLE library calls (`createClient`, `connect`, `getService`, `getCharacteristic`, scan `start`/`clearResults`, `writeValue`, `pClient->disconnect()`). Their answers are parameters, and their writes go to the ghost log.
- `canWrite()`: both of its branches write the same bytes, so the model does not consult it.
- Within one operation, each query about the link gets a single answer. A drop between two queries of the same operation is not modelled.
- `Session.Session.Open`: the three connect functions share this one body, because theirs differ only in address, name and token. The status-label texts that differ between them are presentation.
- The advertised-device callback only logs.
- `storedDevices` / `initStoredDevices` is written at boot and never read.
- Preferences `begin`/`end`, storage failures, `Serial` logging and `delay()`. These are I/O and timing.
- The store's typed getters: a key holding a value of the other type is read as the default.
- The `millis()` timer of `loop()` and its unsigned wrap. `CheckLiveness` models one firing of the two-second branch.
- The candidate list is filled only when the list widget exists. The model assumes it does, since it is created before `loop()` runs.
- The scan's five-second duration and the radio's own deduplication. The results are an input sequence.
- Text tokens are taken as byte strings (every character below 256). The C string's stop at an embedded NUL is not modelled for text.
