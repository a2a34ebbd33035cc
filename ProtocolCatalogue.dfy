/**
 * The reference data the form reads and the derivation of the protocols offered
 * for the selected device type (`getAvailableProtocols`).
 */
module ProtocolCatalogue {
  import opened Wrappers
  import opened NumberParsing
  import opened Subsequences

  datatype DeviceType = DeviceType(id: int, name: string, subtype: int)

  datatype Protocol = Protocol(id: int, name: string)

  /** A row of the protocol/device link table; the original spells `protocolId` as `prpotocol_id`. */
  datatype ProtocolToDevice = ProtocolToDevice(id: int, protocolId: int, deviceId: int)

  /** Some link row joins protocol `protocolId` to device type `deviceId`. */
  ghost predicate Linked(links: seq<ProtocolToDevice>, deviceId: int, protocolId: int) {
    exists l :: l in links && l.deviceId == deviceId && l.protocolId == protocolId
  }

  /** `protocolsToDevice.filter((item) => item.device_id === deviceId).map((item) => item.prpotocol_id)`. */
  function LinkedProtocolIds(links: seq<ProtocolToDevice>, deviceId: int): (ids: seq<int>)
    ensures |ids| <= |links|
    ensures forall pid :: pid in ids <==> Linked(links, deviceId, pid)
  {
    if links == [] then []
    else
      var rest := LinkedProtocolIds(links[1..], deviceId);
      assert forall l :: l in links <==> l == links[0] || l in links[1..];
      if links[0].deviceId == deviceId then [links[0].protocolId] + rest else rest
  }

  /** `protocols.filter((protocol) => ids.includes(protocol.id))`. */
  function KeepListed(protocols: seq<Protocol>, ids: seq<int>): (r: seq<Protocol>)
    ensures forall p :: p in r <==> p in protocols && p.id in ids
  {
    if protocols == [] then []
    else (if protocols[0].id in ids then [protocols[0]] else []) + KeepListed(protocols[1..], ids)
  }

  /**
   * The device-type id the selection stands for: `parseInt(deviceType)`, where
   * `!deviceId` discards both `NaN` and `0`.
   */
  function SelectedDeviceId(deviceType: string): Option<int> {
    match ParseInt(deviceType)
    case None => None
    case Some(d) => if d == 0 then None else Some(d)
  }

  /** `getAvailableProtocols()`. */
  function AvailableProtocols(deviceType: string, links: seq<ProtocolToDevice>, protocols: seq<Protocol>): seq<Protocol> {
    match SelectedDeviceId(deviceType)
    case None => []
    case Some(d) => KeepListed(protocols, LinkedProtocolIds(links, d))
  }

  /** Protocol `p` is linked to the device type that `deviceType` selects. */
  ghost predicate Offered(deviceType: string, links: seq<ProtocolToDevice>, p: Protocol) {
    SelectedDeviceId(deviceType).Some? && Linked(links, SelectedDeviceId(deviceType).value, p.id)
  }

  /** No selection, an unparsable one, or device type `0` offers no protocol. */
  lemma NoDeviceNoProtocols(deviceType: string, links: seq<ProtocolToDevice>, protocols: seq<Protocol>)
    requires ParseInt(deviceType) == None || ParseInt(deviceType) == Some(0)
    ensures AvailableProtocols(deviceType, links, protocols) == []
  {
  }

  /** The initial, empty selection offers no protocol. */
  lemma EmptySelectionNoProtocols(links: seq<ProtocolToDevice>, protocols: seq<Protocol>)
    ensures AvailableProtocols("", links, protocols) == []
  {
    ParseIntNeedsDigit("");
  }

  /** A protocol is offered exactly when it is in the catalogue and linked to the selected device type. */
  lemma AvailableMembership(deviceType: string, links: seq<ProtocolToDevice>, protocols: seq<Protocol>, p: Protocol)
    ensures p in AvailableProtocols(deviceType, links, protocols) <==> p in protocols && Offered(deviceType, links, p)
  {
  }

  lemma {:induction false} KeepListedIsSubsequence(protocols: seq<Protocol>, ids: seq<int>)
    ensures IsSubsequence(KeepListed(protocols, ids), protocols)
  {
    if protocols != [] {
      KeepListedIsSubsequence(protocols[1..], ids);
      var r := KeepListed(protocols, ids);
      if protocols[0].id in ids {
        assert r[1..] == KeepListed(protocols[1..], ids);
      } else {
        assert r == KeepListed(protocols[1..], ids);
      }
    }
  }

  lemma {:induction false} KeepListedCounts(protocols: seq<Protocol>, ids: seq<int>, p: Protocol)
    ensures multiset(KeepListed(protocols, ids))[p] == if p.id in ids then multiset(protocols)[p] else 0
  {
    if protocols != [] {
      KeepListedCounts(protocols[1..], ids, p);
      assert protocols == [protocols[0]] + protocols[1..];
    }
  }

  /** The offered list keeps catalogue order and introduces nothing. */
  lemma AvailableIsSubsequence(deviceType: string, links: seq<ProtocolToDevice>, protocols: seq<Protocol>)
    ensures IsSubsequence(AvailableProtocols(deviceType, links, protocols), protocols)
  {
    match SelectedDeviceId(deviceType)
    case None =>
      assert IsSubsequence([], protocols) by {
        EmptyIsSubsequence(protocols);
      }
    case Some(d) =>
      KeepListedIsSubsequence(protocols, LinkedProtocolIds(links, d));
  }

  /** An offered protocol appears as many times as in the catalogue, duplicates included. */
  lemma AvailableCounts(deviceType: string, links: seq<ProtocolToDevice>, protocols: seq<Protocol>, p: Protocol)
    ensures multiset(AvailableProtocols(deviceType, links, protocols))[p]
         == if Offered(deviceType, links, p) then multiset(protocols)[p] else 0
  {
    match SelectedDeviceId(deviceType)
    case None =>
    case Some(d) =>
      KeepListedCounts(protocols, LinkedProtocolIds(links, d), p);
  }

  /**
   * Choosing a device type from the drop-down (whose option value is the
   * rendered id) offers exactly the catalogue protocols linked to that id, or
   * nothing when the id is `0`.
   */
  lemma ChoosingDeviceType(t: DeviceType, links: seq<ProtocolToDevice>, protocols: seq<Protocol>, p: Protocol)
    ensures t.id == 0 ==> AvailableProtocols(ShowInt(t.id), links, protocols) == []
    ensures t.id != 0 ==>
      (p in AvailableProtocols(ShowInt(t.id), links, protocols) <==> p in protocols && Linked(links, t.id, p.id))
  {
    ParseShowInt(t.id);
  }
}
