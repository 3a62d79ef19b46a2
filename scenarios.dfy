/** Client code that uses only the contracts of the session and the
    controller: what a caller of the session manager can rely on. */
module Scenarios {
  import opened Codec
  import opened Registry
  import opened Discovery
  import opened Session
  import opened Controller

  /** Disconnecting twice: the second call finds no session and no client,
      so it changes nothing and writes nothing. */
  method DisconnectTwice(s: Session, firstLinkUp: bool, secondLinkUp: bool)
    requires s.Valid()
    modifies s
    ensures s.Idle()
    ensures s.written == old(s.written) + Farewell(old(s.isConnected), firstLinkUp)
  {
    s.Disconnect(firstLinkUp);
    ghost var afterFirst := s.written;
    s.Disconnect(secondLinkUp);
    assert s.written == afterFirst;
  }

  /** A session whose link drops is torn down by the next tick, and the
      relay buttons then write nothing. */
  method DropThenToggle(c: Controller, relay: RelayIndex, on: bool)
    requires c.Valid() && c.session.Active()
    modifies c.session
    ensures c.session.Idle()
    ensures c.session.written == old(c.session.written)
  {
    c.session.CheckLiveness(false);
    c.RelayToggled(relay, on, true);
  }

  /** Two candidates are found, the first is stored as Target1, and the
      direct connect to Target1 then reaches that candidate's address and
      announces itself with "CONNECTED". */
  method DesignateThenConnect(c: Controller)
    requires c.Valid() && c.session.Idle() && !c.scanner.isScanning
    modifies c.scanner, c.registry, c.session
    ensures c.session.Active()
    ensures c.session.connectedDeviceAddress == "AA:00:00:00:00:01"
    ensures c.registry.storedTarget1MAC == "AA:00:00:00:00:01"
    ensures GetString(c.registry.store, Target1Key, DefaultTarget1) == "AA:00:00:00:00:01"
    ensures c.session.written == old(c.session.written) + [TextBytes(ConnectedToken)]
  {
    var found := [Advertisement("X", "AA:00:00:00:00:01", -50), Advertisement("Y", "BB:00:00:00:00:02", -70)];
    c.Scan(found);
    assert c.scanner.bleDevices[0].address == "AA:00:00:00:00:01";
    c.scanner.Select(0);
    c.StoreSelectedAsTarget1();
    assert c.registry.storedTarget1MAC == "AA:00:00:00:00:01";
    assert !Target1Refused(c.registry.storedTarget1MAC) by {
      assert c.registry.storedTarget1MAC[0] != Unset[0];
    }
    var ok := c.AutoConnectDirect(Radio(false, true, true, true, true));
    assert ok;
  }
}
