/** The session manager: the single link to a peer, held in the globals
    isConnected, pClient, serverAddress, pRemoteCharacteristic,
    connectedDeviceName and connectedDeviceAddress.

    The BLE stack is not modelled. Each of its answers is a parameter: whether
    the link comes up, whether the service and the characteristic are found,
    and what the client reports when asked if its link is still up. A ghost
    log records every payload written to the characteristic, and a ghost set
    records the handles that were allocated and not yet deleted. */
module Session {
  import opened Codec

  const Target1Name: string := "MY TARGET DEVICE"
  const Target2Name: string := "TARGET2 DEVICE"

  /** BLEClient: the link to one peer. */
  class Client {
    constructor () {}
  }

  /** BLEAddress: the address a client connects to. */
  class Address {
    const mac: string
    constructor (mac: string)
      ensures this.mac == mac
    {
      this.mac := mac;
    }
  }

  /** BLERemoteCharacteristic: owned by the client, never deleted here. */
  class RemoteCharacteristic {
    constructor () {}
  }

  /** The answers of the BLE stack during one connect attempt. */
  datatype Radio = Radio(
    priorLinkUp: bool,       // the old client's isConnected(), asked while it is torn down
    connects: bool,          // pClient->connect(*serverAddress)
    hasService: bool,        // getService(SERVICE_UUID) != nullptr
    hasCharacteristic: bool, // getCharacteristic(CHARACTERISTIC_UUID) != nullptr
    stillUp: bool)           // the new client's isConnected(), asked when the token is sent
  {
    /** The attempt ends with a usable characteristic. */
    predicate Resolves() {
      connects && hasService && hasCharacteristic
    }
  }

  /** The "DISCONNECT" token that tearing down a live session writes, if any. */
  function Farewell(wasConnected: bool, linkUp: bool): (w: seq<seq<Byte>>)
    ensures |w| <= 1
    ensures w != [] <==> wasConnected && linkUp
    ensures w != [] ==> w[0] == TextBytes(DisconnectToken)
  {
    TokensAreByteStrings();
    if wasConnected && linkUp then [TextBytes(DisconnectToken)] else []
  }

  class Session {
    var isConnected: bool
    var pClient: Client?
    var serverAddress: Address?
    var pRemoteCharacteristic: RemoteCharacteristic?
    var connectedDeviceName: string
    var connectedDeviceAddress: string

    /** Every payload written to the characteristic, oldest first. */
    ghost var written: seq<seq<Byte>>
    /** Handles created with new and not yet deleted. */
    ghost var live: set<object>

    /** No session: every handle null, nothing allocated, no peer named. */
    ghost predicate Idle()
      reads this
    {
      && !isConnected
      && pClient == null && serverAddress == null && pRemoteCharacteristic == null
      && connectedDeviceName == "" && connectedDeviceAddress == ""
      && live == {}
    }

    /** A live session: all three handles set, client and address owned. */
    ghost predicate Active()
      reads this
    {
      && isConnected
      && pClient != null && serverAddress != null && pRemoteCharacteristic != null
      && serverAddress.mac == connectedDeviceAddress
      && live == {pClient, serverAddress}
    }

    /** Between operations: isConnected <==> pClient != null, and a session
        holds all three handles; no allocated handle is unreachable. */
    ghost predicate Valid()
      reads this
    {
      Idle() || Active()
    }

    /** Inside a connect attempt: the new client and address are allocated
        but no characteristic is found and the session is not yet established. */
    ghost predicate Opening()
      reads this
    {
      && !isConnected
      && pClient != null && serverAddress != null && pRemoteCharacteristic == null
      && connectedDeviceName == "" && connectedDeviceAddress == ""
      && live == {pClient, serverAddress}
    }

    /** A write goes ahead only on a live link with a characteristic. */
    predicate CanSend(linkUp: bool)
      reads this
    {
      isConnected && pClient != null && linkUp && pRemoteCharacteristic != null
    }

    constructor ()
      ensures Idle() && written == []
    {
      isConnected := false;
      pClient := null;
      serverAddress := null;
      pRemoteCharacteristic := null;
      connectedDeviceName := "";
      connectedDeviceAddress := "";
      written := [];
      live := {};
    }

    /** bleSendData: the token's bytes are written when the link is live,
        whatever canWrite() reports; otherwise nothing happens. */
    method SendData(data: string, linkUp: bool)
      requires IsByteString(data)
      modifies this`written
      ensures written == old(written) + (if CanSend(linkUp) then [TextBytes(data)] else [])
    {
      if isConnected && pClient != null && linkUp && pRemoteCharacteristic != null {
        written := written + [TextBytes(data)];
      }
    }

    /** bleSendHexString: on a live link, an odd-length string writes nothing
        and an even-length one writes its converted bytes. */
    method SendHexString(hex: string, linkUp: bool)
      modifies this`written
      ensures written == old(written) +
        (if CanSend(linkUp) && DecodeHex(hex).Some? then [DecodeHex(hex).value] else [])
    {
      if isConnected && pClient != null && linkUp && pRemoteCharacteristic != null {
        if |hex| % 2 != 0 {
          return;
        }
        var bytes := HexToBytes(hex);
        written := written + [bytes[..]];
      }
    }

    /** bleDisconnect: nothing to do without a session or a client; otherwise
        "DISCONNECT" is attempted if the session is up, and every handle, the
        flag and the peer's name and address are cleared. */
    method Disconnect(linkUp: bool)
      requires Valid() || Opening()
      modifies this
      ensures Idle()
      ensures !old(isConnected) && old(pClient) == null ==> unchanged(this)
      ensures written == old(written) + Farewell(old(isConnected), linkUp)
    {
      if isConnected || pClient != null {
        if isConnected {
          TokensAreByteStrings();
          SendData(DisconnectToken, linkUp);
        }
        if pClient != null {
          live := live - {pClient};
          pClient := null;
        }
        if serverAddress != null {
          live := live - {serverAddress};
          serverAddress := null;
        }
        pRemoteCharacteristic := null;
        isConnected := false;
        connectedDeviceName := "";
        connectedDeviceAddress := "";
      }
    }

    /** The liveness check of loop(): a session whose link reports down is
        torn down; since the link is down, no token is written. */
    method CheckLiveness(linkUp: bool)
      requires Valid()
      modifies this
      ensures Valid()
      ensures old(isConnected) && !linkUp ==> Idle() && written == old(written)
      ensures !(old(isConnected) && !linkUp) ==> unchanged(this)
    {
      if isConnected && pClient != null && !linkUp {
        Disconnect(linkUp);
      }
    }

    /** The common body of bleConnectToDevice, bleAutoConnectDirect and
        bleAutoConnectTarget2 after their own checks: tear down any session,
        allocate a client and an address for `mac`, and either establish the
        session and send `token`, or release everything. */
    method Open(mac: string, name: string, token: string, radio: Radio) returns (ok: bool)
      requires Valid() && IsByteString(token)
      modifies this
      ensures Valid()
      ensures ok <==> radio.Resolves()
      ensures ok ==> Active() && connectedDeviceName == name && connectedDeviceAddress == mac
      ensures ok ==> fresh(pClient) && fresh(serverAddress)
      ensures !ok ==> Idle()
      ensures written == old(written) + Farewell(old(isConnected), radio.priorLinkUp)
                         + (if ok && radio.stillUp then [TextBytes(token)] else [])
    {
      if isConnected {
        Disconnect(radio.priorLinkUp);
      }
      pClient := new Client();
      serverAddress := new Address(mac);
      live := live + {pClient, serverAddress};
      ok := Resolve(mac, name, token, radio);
    }

    /** The second half of a connect attempt, with the new client and address
        allocated: connect, find the service and the characteristic, and
        either establish the session and send `token` or release everything. */
    method Resolve(mac: string, name: string, token: string, radio: Radio) returns (ok: bool)
      requires Opening() && serverAddress.mac == mac && IsByteString(token)
      modifies this
      ensures Valid()
      ensures ok <==> radio.Resolves()
      ensures ok ==> Active() && connectedDeviceName == name && connectedDeviceAddress == mac
      ensures ok ==> pClient == old(pClient) && serverAddress == old(serverAddress)
      ensures !ok ==> Idle()
      ensures written == old(written) + (if ok && radio.stillUp then [TextBytes(token)] else [])
    {
      if radio.connects {
        if !radio.hasService {
          // The new link is up; its state only decides pClient->disconnect().
          Disconnect(true);
          return false;
        }
        if radio.hasCharacteristic {
          pRemoteCharacteristic := new RemoteCharacteristic();
        } else {
          pRemoteCharacteristic := null;
        }
        if pRemoteCharacteristic == null {
          Disconnect(true);
          return false;
        }
        isConnected := true;
        connectedDeviceName := name;
        connectedDeviceAddress := mac;
        SendData(token, radio.stillUp);
        return true;
      } else {
        live := live - {pClient};
        pClient := null;
        live := live - {serverAddress};
        serverAddress := null;
        return false;
      }
    }
  }
}
