/** The application's glue around the session: the connect operations that
    read the candidate list or the registry, the event handlers of the
    Bluetooth screen and the relay buttons, the boot-time auto-connect of
    setup() and the liveness tick of loop(). */
module Controller {
  import opened Codec
  import opened Registry
  import opened Discovery
  import opened Session

  /** bleAutoConnectDirect refuses an empty or all-zero Target1 address. */
  predicate Target1Refused(mac: string) {
    |mac| == 0 || mac == Unset
  }

  /** bleAutoConnectTarget2 refuses only the all-zero address. */
  predicate Target2Refused(mac: string) {
    mac == Unset
  }

  /** setup() tries Target1 only when auto-connect is on and the address is
      not the all-zero one. */
  predicate BootAutoConnects(enabled: bool, target1: string) {
    enabled && target1 != Unset
  }

  /** A boot that passes the guard is refused by the connect itself only for
      an empty stored address, and a factory-fresh store always passes. */
  lemma BootGuardAgreesWithTarget1Check(enabled: bool, target1: string)
    ensures BootAutoConnects(enabled, target1) && Target1Refused(target1) <==> enabled && target1 == ""
    ensures BootAutoConnects(true, GetString(map[], Target1Key, DefaultTarget1))
    ensures !Target1Refused(GetString(map[], Target1Key, DefaultTarget1))
  {
    assert DefaultTarget1 != Unset by {
      assert DefaultTarget1[0] != Unset[0];
    }
  }

  class Controller {
    const session: Session
    const scanner: Scanner
    const registry: Registry

    ghost predicate Valid()
      reads session, scanner
    {
      session.Valid() && scanner.Valid()
    }

    /** Power-on: every global at its initial value; the store keeps what
        earlier runs saved. */
    constructor (store: Store)
      ensures Valid() && fresh(session) && fresh(scanner) && fresh(registry)
      ensures session.Idle() && session.written == []
      ensures scanner.bleDevices == [] && scanner.selectedDeviceIdx == -1 && !scanner.isScanning
      ensures registry.store == store
    {
      session := new Session();
      scanner := new Scanner();
      registry := new Registry(store);
    }

    /** bleConnectToDevice: an index outside the list is refused with the
        session untouched; otherwise the candidate's address is connected
        under its name and "CONNECTED" is sent. */
    method ConnectToDevice(index: int, radio: Radio) returns (ok: bool)
      requires Valid()
      modifies session
      ensures Valid()
      ensures !(0 <= index < |scanner.bleDevices|) ==> !ok && unchanged(session)
      ensures 0 <= index < |scanner.bleDevices| ==> (ok <==> radio.Resolves())
      ensures 0 <= index < |scanner.bleDevices| && !ok ==> session.Idle()
      ensures ok ==>
        && session.Active()
        && session.connectedDeviceName == scanner.bleDevices[index].name
        && session.connectedDeviceAddress == scanner.bleDevices[index].address
      ensures 0 <= index < |scanner.bleDevices| ==>
        session.written == old(session.written) + Farewell(old(session.isConnected), radio.priorLinkUp)
          + (if ok && radio.stillUp then [TextBytes(ConnectedToken)] else [])
    {
      if index < 0 || index >= |scanner.bleDevices| {
        return false;
      }
      var device := scanner.bleDevices[index];
      TokensAreByteStrings();
      ok := session.Open(device.address, device.name, ConnectedToken, radio);
    }

    /** The Connect button: connects the selected candidate, if any, as
        bleConnectToDevice does. */
    method ConnectSelected(radio: Radio) returns (ok: bool)
      requires Valid()
      modifies session
      ensures Valid()
      ensures !scanner.HasSelection() ==> !ok && unchanged(session)
      ensures scanner.HasSelection() ==> (ok <==> radio.Resolves())
      ensures scanner.HasSelection() && !ok ==> session.Idle()
      ensures ok ==>
        && session.Active()
        && session.connectedDeviceName == scanner.bleDevices[scanner.selectedDeviceIdx].name
        && session.connectedDeviceAddress == scanner.bleDevices[scanner.selectedDeviceIdx].address
      ensures scanner.HasSelection() ==>
        session.written == old(session.written) + Farewell(old(session.isConnected), radio.priorLinkUp)
          + (if ok && radio.stillUp then [TextBytes(ConnectedToken)] else [])
    {
      ok := false;
      if scanner.selectedDeviceIdx >= 0 && scanner.selectedDeviceIdx < |scanner.bleDevices| {
        ok := ConnectToDevice(scanner.selectedDeviceIdx, radio);
      }
    }

    /** bleAutoConnectDirect: Target1 is refused before any client exists if
        its address is empty or all-zero; otherwise it is connected as
        "MY TARGET DEVICE" and "CONNECTED" is sent. */
    method AutoConnectDirect(radio: Radio) returns (ok: bool)
      requires Valid()
      modifies session
      ensures Valid()
      ensures Target1Refused(registry.storedTarget1MAC) ==> !ok && unchanged(session)
      ensures !Target1Refused(registry.storedTarget1MAC) ==> (ok <==> radio.Resolves())
      ensures !Target1Refused(registry.storedTarget1MAC) && !ok ==> session.Idle()
      ensures ok ==>
        && session.Active()
        && session.connectedDeviceName == Target1Name
        && session.connectedDeviceAddress == registry.storedTarget1MAC
      ensures !Target1Refused(registry.storedTarget1MAC) ==>
        session.written == old(session.written) + Farewell(old(session.isConnected), radio.priorLinkUp)
          + (if ok && radio.stillUp then [TextBytes(ConnectedToken)] else [])
    {
      if |registry.storedTarget1MAC| == 0 || registry.storedTarget1MAC == Unset {
        return false;
      }
      TokensAreByteStrings();
      ok := session.Open(registry.storedTarget1MAC, Target1Name, ConnectedToken, radio);
    }

    /** bleAutoConnectTarget2: Target2 is refused only for the all-zero
        address; otherwise it is connected as "TARGET2 DEVICE" and
        "CONNECTED_TO_TARGET2" is sent. */
    method AutoConnectTarget2(radio: Radio) returns (ok: bool)
      requires Valid()
      modifies session
      ensures Valid()
      ensures Target2Refused(registry.storedTarget2MAC) ==> !ok && unchanged(session)
      ensures !Target2Refused(registry.storedTarget2MAC) ==> (ok <==> radio.Resolves())
      ensures !Target2Refused(registry.storedTarget2MAC) && !ok ==> session.Idle()
      ensures ok ==>
        && session.Active()
        && session.connectedDeviceName == Target2Name
        && session.connectedDeviceAddress == registry.storedTarget2MAC
      ensures !Target2Refused(registry.storedTarget2MAC) ==>
        session.written == old(session.written) + Farewell(old(session.isConnected), radio.priorLinkUp)
          + (if ok && radio.stillUp then [TextBytes(Target2Token)] else [])
    {
      if registry.storedTarget2MAC == Unset {
        return false;
      }
      TokensAreByteStrings();
      ok := session.Open(registry.storedTarget2MAC, Target2Name, Target2Token, radio);
    }

    /** The "Target1" button: stores the selected candidate's address as
        Target1; without a selection nothing changes. */
    method StoreSelectedAsTarget1()
      requires Valid()
      modifies registry
      ensures scanner.HasSelection() ==>
        && registry.store == old(registry.store)[Target1Key := Str(scanner.bleDevices[scanner.selectedDeviceIdx].address)]
        && registry.storedTarget1MAC == scanner.bleDevices[scanner.selectedDeviceIdx].address
        && registry.storedTarget2MAC == old(registry.storedTarget2MAC)
        && registry.autoConnectEnabled == old(registry.autoConnectEnabled)
      ensures !scanner.HasSelection() ==> unchanged(registry)
      ensures old(registry.MacsLoaded()) ==> registry.MacsLoaded()
      ensures old(registry.FlagLoaded()) ==> registry.FlagLoaded()
    {
      if scanner.selectedDeviceIdx >= 0 && scanner.selectedDeviceIdx < |scanner.bleDevices| {
        var device := scanner.bleDevices[scanner.selectedDeviceIdx];
        registry.SaveTarget1MAC(device.address);
      }
    }

    /** The "Target2" button, in the same way for Target2. */
    method StoreSelectedAsTarget2()
      requires Valid()
      modifies registry
      ensures scanner.HasSelection() ==>
        && registry.store == old(registry.store)[Target2Key := Str(scanner.bleDevices[scanner.selectedDeviceIdx].address)]
        && registry.storedTarget2MAC == scanner.bleDevices[scanner.selectedDeviceIdx].address
        && registry.storedTarget1MAC == old(registry.storedTarget1MAC)
        && registry.autoConnectEnabled == old(registry.autoConnectEnabled)
      ensures !scanner.HasSelection() ==> unchanged(registry)
      ensures old(registry.MacsLoaded()) ==> registry.MacsLoaded()
      ensures old(registry.FlagLoaded()) ==> registry.FlagLoaded()
    {
      if scanner.selectedDeviceIdx >= 0 && scanner.selectedDeviceIdx < |scanner.bleDevices| {
        var device := scanner.bleDevices[scanner.selectedDeviceIdx];
        registry.SaveTarget2MAC(device.address);
      }
    }

    /** The Scan button: a scan flags candidates against the cached addresses. */
    method Scan(found: seq<Advertisement>)
      requires Valid()
      modifies scanner
      ensures Valid()
      ensures old(scanner.isScanning) ==> unchanged(scanner)
      ensures !old(scanner.isScanning) ==>
        && !scanner.isScanning && scanner.selectedDeviceIdx == -1
        && |scanner.bleDevices| == |found|
        && forall i :: 0 <= i < |found| ==>
             scanner.bleDevices[i] == Candidate(found[i], registry.storedTarget1MAC, registry.storedTarget2MAC)
    {
      scanner.StartScan(found, registry.storedTarget1MAC, registry.storedTarget2MAC);
    }

    /** The handler of relay button `relay`: sends that relay's literal, so
        a live link receives exactly the frame for the new state. */
    method RelayToggled(relay: RelayIndex, on: bool, linkUp: bool)
      modifies session`written
      ensures session.written == old(session.written) +
        (if session.CanSend(linkUp) then [RelayFrame(relay, on)] else [])
    {
      RelayLiteralDecodes(relay, on);
      session.SendHexString(RelayLiteral(relay, on), linkUp);
    }

    /** The BLE part of setup(): load the registry, then try Target1 once if
        auto-connect is on and Target1 is not the all-zero address. */
    method Setup(radio: Radio)
      requires Valid() && session.Idle()
      modifies session, registry`storedTarget1MAC, registry`storedTarget2MAC, registry`autoConnectEnabled
      ensures Valid()
      ensures registry.MacsLoaded() && registry.FlagLoaded()
      ensures !BootAutoConnects(registry.autoConnectEnabled, registry.storedTarget1MAC) ==> unchanged(session)
      ensures session.isConnected <==>
        BootAutoConnects(registry.autoConnectEnabled, registry.storedTarget1MAC)
        && registry.storedTarget1MAC != "" && radio.Resolves()
      ensures session.isConnected ==> session.connectedDeviceAddress == registry.storedTarget1MAC
      ensures session.written ==
        old(session.written) + (if session.isConnected && radio.stillUp then [TextBytes(ConnectedToken)] else [])
    {
      registry.LoadStoredMACs();
      registry.LoadAutoConnectState();
      if registry.autoConnectEnabled && registry.storedTarget1MAC != Unset {
        var _ := AutoConnectDirect(radio);
      }
    }
  }
}
