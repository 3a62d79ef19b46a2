/** Discovery and selection: the candidate list a scan rebuilds from the
    radio's results, and the index of the candidate the user picked. */
module Discovery {

  /** One result of the radio's five-second scan, as the radio reports it. */
  datatype Advertisement = Advertisement(name: string, address: string, rssi: int)

  /** One entry of the candidate list (BLEDeviceInfo). */
  datatype DeviceInfo = DeviceInfo(name: string, address: string, rssi: int, isTarget1: bool, isTarget2: bool)

  const UnknownName: string := "Unknown Device"

  /** The entry a scan makes of one result, given the stored addresses of
      Target1 and Target2. */
  function Candidate(ad: Advertisement, target1: string, target2: string): (d: DeviceInfo) {
    DeviceInfo(
      if ad.name == "" then UnknownName else ad.name,
      ad.address,
      ad.rssi,
      ad.address == target1,
      ad.address == target2)
  }

  /** A candidate keeps the address and signal strength of its result, is
      named after it ("Unknown Device" when the name is empty), and is
      flagged as a target exactly when its address equals that target's
      stored address. */
  lemma CandidateFields(ad: Advertisement, target1: string, target2: string)
    ensures Candidate(ad, target1, target2).address == ad.address
    ensures Candidate(ad, target1, target2).rssi == ad.rssi
    ensures Candidate(ad, target1, target2).name != ""
    ensures ad.name != "" ==> Candidate(ad, target1, target2).name == ad.name
    ensures ad.name == "" ==> Candidate(ad, target1, target2).name == UnknownName
    ensures Candidate(ad, target1, target2).isTarget1 <==> ad.address == target1
    ensures Candidate(ad, target1, target2).isTarget2 <==> ad.address == target2
  {
  }

  class Scanner {
    var isScanning: bool
    var bleDevices: seq<DeviceInfo>
    var selectedDeviceIdx: int

    /** The selection is -1 or an index into the list. */
    ghost predicate Valid()
      reads this
    {
      -1 <= selectedDeviceIdx < |bleDevices|
    }

    /** The candidate the user selected, if any. */
    predicate HasSelection()
      reads this
    {
      0 <= selectedDeviceIdx < |bleDevices|
    }

    constructor ()
      ensures Valid()
      ensures !isScanning && bleDevices == [] && selectedDeviceIdx == -1
    {
      isScanning := false;
      bleDevices := [];
      selectedDeviceIdx := -1;
    }

    /** bleStartScan: refused while a scan runs; otherwise the selection is
        cleared and the list becomes one candidate per result, in the order
        the radio returned them. */
    method StartScan(found: seq<Advertisement>, target1: string, target2: string)
      requires Valid()
      modifies this
      ensures Valid()
      ensures old(isScanning) ==> unchanged(this)
      ensures !old(isScanning) ==> !isScanning && selectedDeviceIdx == -1
      ensures !old(isScanning) ==> |bleDevices| == |found|
      ensures !old(isScanning) ==>
        forall i :: 0 <= i < |found| ==> bleDevices[i] == Candidate(found[i], target1, target2)
    {
      if isScanning {
        return;
      }
      isScanning := true;
      bleDevices := [];
      selectedDeviceIdx := -1;
      var i := 0;
      while i < |found|
        invariant 0 <= i <= |found|
        invariant |bleDevices| == i
        invariant isScanning && selectedDeviceIdx == -1
        invariant forall k :: 0 <= k < i ==> bleDevices[k] == Candidate(found[k], target1, target2)
      {
        bleDevices := bleDevices + [Candidate(found[i], target1, target2)];
        i := i + 1;
      }
      isScanning := false;
    }

    /** The list-click handler: an index inside the list selects that
        candidate, any other index clears the selection. */
    method Select(index: nat)
      requires Valid()
      modifies this`selectedDeviceIdx
      ensures Valid()
      ensures index < |bleDevices| ==> selectedDeviceIdx == index
      ensures index >= |bleDevices| ==> selectedDeviceIdx == -1
    {
      if index < |bleDevices| {
        selectedDeviceIdx := index;
      } else {
        selectedDeviceIdx := -1;
      }
    }
  }
}
