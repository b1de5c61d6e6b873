/**
 * Decoding of a Bluetooth LE advertisement report.  Service data and
 * manufacturer data come as lists of (uuid, legacy words, raw bytes) items;
 * the first item of a list decides whether the whole list carries raw bytes
 * or legacy words.  Manufacturer keys are decimal company identifiers;
 * service keys and service UUIDs are canonicalised.
 *
 * Where the decoder would abort (a company identifier that does not parse, a
 * UUID too short to slice), the model returns a `DecodeError` instead.
 */
module Advertisement {
  import opened Types
  import opened Uuid
  import opened Decimal
  import opened LeBytes
  import opened KeyedMap

  /** One service-data or manufacturer-data item as it arrives on the wire. */
  datatype ServiceDataItem = ServiceDataItem(uuid: string, legacyData: seq<uint32>, data: seq<uint8>)

  /** The advertisement report as it arrives on the wire. */
  datatype AdvertisementResponse = AdvertisementResponse(
    address: uint64,
    name: string,
    rssi: int32,
    serviceUuids: seq<string>,
    serviceData: seq<ServiceDataItem>,
    manufacturerData: seq<ServiceDataItem>,
    addressType: uint32)

  /** The decoded advertisement. */
  datatype BluetoothLEAdvertisement = BluetoothLEAdvertisement(
    address: uint64,
    rssi: int32,
    addressType: uint32,
    name: string,
    serviceUuids: seq<string>,
    serviceData: map<string, seq<uint8>>,
    manufacturerData: map<uint16, seq<uint8>>)

  datatype DecodeError = InvalidCompanyId | UuidTooShort

  /** A list carries raw bytes exactly when its first item has a non-empty byte payload. */
  predicate UsesRawBytes(items: seq<ServiceDataItem>) {
    |items| > 0 && |items[0].data| > 0
  }

  /** The bytes an item contributes: its raw bytes, or its legacy words expanded. */
  function Payload(item: ServiceDataItem, rawBytes: bool): seq<uint8> {
    if rawBytes then item.data else Flatten(item.legacyData)
  }

  predicate HasCompanyId(item: ServiceDataItem) {
    ParseU16(item.uuid).Some?
  }

  predicate HasServiceKey(item: ServiceDataItem) {
    |item.uuid| >= 2
  }

  predicate CompanyIdsValid(items: seq<ServiceDataItem>) {
    forall i :: 0 <= i < |items| ==> HasCompanyId(items[i])
  }

  predicate ServiceKeysConvertible(items: seq<ServiceDataItem>) {
    forall i :: 0 <= i < |items| ==> HasServiceKey(items[i])
  }

  predicate UuidsConvertible(uuids: seq<string>) {
    forall i :: 0 <= i < |uuids| ==> |uuids[i]| >= 2
  }

  function CompanyId(item: ServiceDataItem): uint16
    requires HasCompanyId(item)
  {
    ParseU16(item.uuid).value
  }

  function ServiceKey(item: ServiceDataItem): string
    requires HasServiceKey(item)
  {
    UuidConvert(item.uuid)
  }

  /** The (key, payload) pairs of the first `n` manufacturer items. */
  function ManufacturerEntries(items: seq<ServiceDataItem>, n: nat, rawBytes: bool): seq<(uint16, seq<uint8>)>
    requires n <= |items| && forall j :: 0 <= j < n ==> HasCompanyId(items[j])
  {
    seq(n, i requires 0 <= i < n => (CompanyId(items[i]), Payload(items[i], rawBytes)))
  }

  /** The (key, payload) pairs of the first `n` service-data items. */
  function ServiceEntries(items: seq<ServiceDataItem>, n: nat, rawBytes: bool): seq<(string, seq<uint8>)>
    requires n <= |items| && forall j :: 0 <= j < n ==> HasServiceKey(items[j])
  {
    seq(n, i requires 0 <= i < n => (ServiceKey(items[i]), Payload(items[i], rawBytes)))
  }

  /** The manufacturer-data map: every item inserted in order, the encoding chosen once.
      Every item's key is present, and there are no more keys than items. */
  function ManufacturerData(items: seq<ServiceDataItem>): (m: map<uint16, seq<uint8>>)
    requires CompanyIdsValid(items)
    ensures forall i :: 0 <= i < |items| ==> CompanyId(items[i]) in m
    ensures |m| <= |items|
  {
    var entries := ManufacturerEntries(items, |items|, UsesRawBytes(items));
    assert forall i :: 0 <= i < |items| ==> entries[i].0 == CompanyId(items[i]);
    InsertAll(entries)
  }

  /** The service-data map: every item inserted in order, the encoding chosen once.
      Every item's key is present, and there are no more keys than items. */
  function ServiceData(items: seq<ServiceDataItem>): (m: map<string, seq<uint8>>)
    requires ServiceKeysConvertible(items)
    ensures forall i :: 0 <= i < |items| ==> ServiceKey(items[i]) in m
    ensures |m| <= |items|
  {
    var entries := ServiceEntries(items, |items|, UsesRawBytes(items));
    assert forall i :: 0 <= i < |items| ==> entries[i].0 == ServiceKey(items[i]);
    InsertAll(entries)
  }

  /** One more manufacturer item updates the fold at that item's key only. */
  lemma ManufacturerDataStep(items: seq<ServiceDataItem>, n: nat, rawBytes: bool)
    requires n < |items| && forall j :: 0 <= j <= n ==> HasCompanyId(items[j])
    ensures InsertAll(ManufacturerEntries(items, n + 1, rawBytes))
         == InsertAll(ManufacturerEntries(items, n, rawBytes))[CompanyId(items[n]) := Payload(items[n], rawBytes)]
  {
    var entry := (CompanyId(items[n]), Payload(items[n], rawBytes));
    assert ManufacturerEntries(items, n + 1, rawBytes) == ManufacturerEntries(items, n, rawBytes) + [entry];
    InsertAllAppend(ManufacturerEntries(items, n, rawBytes), entry.0, entry.1);
  }

  /** One more service-data item updates the fold at that item's key only. */
  lemma ServiceDataStep(items: seq<ServiceDataItem>, n: nat, rawBytes: bool)
    requires n < |items| && forall j :: 0 <= j <= n ==> HasServiceKey(items[j])
    ensures InsertAll(ServiceEntries(items, n + 1, rawBytes))
         == InsertAll(ServiceEntries(items, n, rawBytes))[ServiceKey(items[n]) := Payload(items[n], rawBytes)]
  {
    var entry := (ServiceKey(items[n]), Payload(items[n], rawBytes));
    assert ServiceEntries(items, n + 1, rawBytes) == ServiceEntries(items, n, rawBytes) + [entry];
    InsertAllAppend(ServiceEntries(items, n, rawBytes), entry.0, entry.1);
  }

  lemma ManufacturerDataIsFold(items: seq<ServiceDataItem>)
    requires CompanyIdsValid(items)
    ensures ManufacturerData(items) == InsertAll(ManufacturerEntries(items, |items|, UsesRawBytes(items)))
    ensures |items| == 0 ==> ManufacturerData(items) == map[]
  {
  }

  lemma ServiceDataIsFold(items: seq<ServiceDataItem>)
    requires ServiceKeysConvertible(items)
    ensures ServiceData(items) == InsertAll(ServiceEntries(items, |items|, UsesRawBytes(items)))
    ensures |items| == 0 ==> ServiceData(items) == map[]
  {
  }

  /** An empty list gives an empty map. */
  lemma EmptyListsGiveEmptyMaps()
    ensures ManufacturerData([]) == map[]
    ensures ServiceData([]) == map[]
  {
  }

  /** The manufacturer map's keys are exactly the parsed company identifiers. */
  lemma ManufacturerDataKeys(items: seq<ServiceDataItem>, k: uint16)
    requires CompanyIdsValid(items)
    ensures k in ManufacturerData(items) <==> exists i :: 0 <= i < |items| && CompanyId(items[i]) == k
  {
    var entries := ManufacturerEntries(items, |items|, UsesRawBytes(items));
    InsertAllKeys(entries, k);
    if exists i :: 0 <= i < |items| && CompanyId(items[i]) == k {
      var i :| 0 <= i < |items| && CompanyId(items[i]) == k;
      assert entries[i].0 == k;
    }
  }

  /** The last item with a company identifier decides its payload, decoded as the first item
      of the list dictates. */
  lemma ManufacturerDataLastWins(items: seq<ServiceDataItem>, i: nat)
    requires CompanyIdsValid(items) && i < |items|
    requires forall j :: i < j < |items| ==> CompanyId(items[j]) != CompanyId(items[i])
    ensures CompanyId(items[i]) in ManufacturerData(items)
    ensures ManufacturerData(items)[CompanyId(items[i])] == Payload(items[i], UsesRawBytes(items))
  {
    var entries := ManufacturerEntries(items, |items|, UsesRawBytes(items));
    assert IsLastOccurrence(entries, i);
    InsertAllLastWins(entries, i);
  }

  /** The service map's keys are exactly the canonical UUIDs of the items. */
  lemma ServiceDataKeys(items: seq<ServiceDataItem>, k: string)
    requires ServiceKeysConvertible(items)
    ensures k in ServiceData(items) <==> exists i :: 0 <= i < |items| && ServiceKey(items[i]) == k
  {
    var entries := ServiceEntries(items, |items|, UsesRawBytes(items));
    InsertAllKeys(entries, k);
    if exists i :: 0 <= i < |items| && ServiceKey(items[i]) == k {
      var i :| 0 <= i < |items| && ServiceKey(items[i]) == k;
      assert entries[i].0 == k;
    }
  }

  /** The last item with a canonical UUID decides its payload, decoded as the first item of
      the list dictates. */
  lemma ServiceDataLastWins(items: seq<ServiceDataItem>, i: nat)
    requires ServiceKeysConvertible(items) && i < |items|
    requires forall j :: i < j < |items| ==> ServiceKey(items[j]) != ServiceKey(items[i])
    ensures ServiceKey(items[i]) in ServiceData(items)
    ensures ServiceData(items)[ServiceKey(items[i])] == Payload(items[i], UsesRawBytes(items))
  {
    var entries := ServiceEntries(items, |items|, UsesRawBytes(items));
    assert IsLastOccurrence(entries, i);
    InsertAllLastWins(entries, i);
  }

  /** In a legacy-encoded list every value is four bytes per legacy word of an item with that
      key, and those words can be read back from it. */
  lemma LegacyManufacturerPayload(items: seq<ServiceDataItem>, k: uint16)
    requires CompanyIdsValid(items) && !UsesRawBytes(items)
    requires k in ManufacturerData(items)
    ensures exists i ::
      (&& 0 <= i < |items| && CompanyId(items[i]) == k
       && |ManufacturerData(items)[k]| == 4 * |items[i].legacyData|
       && Unflatten(ManufacturerData(items)[k]) == items[i].legacyData)
  {
    var entries := ManufacturerEntries(items, |items|, false);
    InsertAllValue(entries, k);
    var i :| 0 <= i < |entries| && IsLastOccurrence(entries, i) && entries[i].0 == k
      && InsertAll(entries)[k] == entries[i].1;
    FlattenRoundTrip(items[i].legacyData);
  }

  /** With raw bytes, every value is the raw payload of an item with that key. */
  lemma RawManufacturerPayload(items: seq<ServiceDataItem>, k: uint16)
    requires CompanyIdsValid(items) && UsesRawBytes(items)
    requires k in ManufacturerData(items)
    ensures exists i ::
      (0 <= i < |items| && CompanyId(items[i]) == k && ManufacturerData(items)[k] == items[i].data)
  {
    var entries := ManufacturerEntries(items, |items|, true);
    InsertAllValue(entries, k);
    var i :| 0 <= i < |entries| && IsLastOccurrence(entries, i) && entries[i].0 == k
      && InsertAll(entries)[k] == entries[i].1;
    assert ManufacturerData(items)[k] == items[i].data;
  }

  lemma RawBytesExample()
    ensures CompanyIdsValid([ServiceDataItem("76", [], [1, 2, 3])])
    ensures ManufacturerData([ServiceDataItem("76", [], [1, 2, 3])]) == map[76 := [1, 2, 3]]
  {
    ParseU16Examples();
    var entries := ManufacturerEntries([ServiceDataItem("76", [], [1, 2, 3])], 1, true);
    assert entries == [] + [(76 as uint16, [1, 2, 3])];
    InsertAllAppend([], 76 as uint16, [1, 2, 3]);
  }

  lemma LegacyWordsExample()
    ensures CompanyIdsValid([ServiceDataItem("76", [0x0102], [])])
    ensures ManufacturerData([ServiceDataItem("76", [0x0102], [])]) == map[76 := [0x02, 0x01, 0x00, 0x00]]
  {
    ParseU16Examples();
    FlattenExample();
    var entries := ManufacturerEntries([ServiceDataItem("76", [0x0102], [])], 1, false);
    assert entries == [] + [(76 as uint16, [0x02, 0x01, 0x00, 0x00])];
    InsertAllAppend([], 76 as uint16, [0x02, 0x01, 0x00, 0x00]);
  }

  /** The first item alone picks the encoding: a later item's raw bytes are then ignored. */
  lemma FirstItemDecidesExample()
    ensures ServiceData([ServiceDataItem("0x180D", [5], []), ServiceDataItem("0x180F", [], [9])])
         == map[UuidConvert("0x180D") := [5, 0, 0, 0], UuidConvert("0x180F") := []]
  {
    var items := [ServiceDataItem("0x180D", [5], []), ServiceDataItem("0x180F", [], [9])];
    assert !UsesRawBytes(items);
    var a: (string, seq<uint8>) := (UuidConvert("0x180D"), [5, 0, 0, 0]);
    var b: (string, seq<uint8>) := (UuidConvert("0x180F"), []);
    assert Flatten([5]) == [5, 0, 0, 0];
    assert ServiceEntries(items, 2, false) == [a] + [b];
    InsertAllAppend([a], b.0, b.1);
    InsertAllAppend([], a.0, a.1);
    assert [] + [a] == [a];
  }

  method DecodeManufacturerData(items: seq<ServiceDataItem>) returns (r: Option<map<uint16, seq<uint8>>>)
    ensures r.Some? <==> CompanyIdsValid(items)
    ensures r.Some? ==> r.value == ManufacturerData(items)
  {
    var decoded: map<uint16, seq<uint8>> := map[];
    if |items| > 0 {
      var rawBytes := |items[0].data| > 0;
      var i := 0;
      while i < |items|
        invariant 0 <= i <= |items|
        invariant forall j :: 0 <= j < i ==> HasCompanyId(items[j])
        invariant decoded == InsertAll(ManufacturerEntries(items, i, rawBytes))
      {
        var id := ParseU16(items[i].uuid);
        if id.None? {
          assert !HasCompanyId(items[i]);
          return None;
        }
        var payload := if rawBytes then items[i].data else Flatten(items[i].legacyData);
        ManufacturerDataStep(items, i, rawBytes);
        decoded := decoded[id.value := payload];
        i := i + 1;
      }
    }
    ManufacturerDataIsFold(items);
    return Some(decoded);
  }

  method DecodeServiceData(items: seq<ServiceDataItem>) returns (r: Option<map<string, seq<uint8>>>)
    ensures r.Some? <==> ServiceKeysConvertible(items)
    ensures r.Some? ==> r.value == ServiceData(items)
  {
    var decoded: map<string, seq<uint8>> := map[];
    if |items| > 0 {
      var rawBytes := |items[0].data| > 0;
      var i := 0;
      while i < |items|
        invariant 0 <= i <= |items|
        invariant forall j :: 0 <= j < i ==> HasServiceKey(items[j])
        invariant decoded == InsertAll(ServiceEntries(items, i, rawBytes))
      {
        if |items[i].uuid| < 2 {
          assert !HasServiceKey(items[i]);
          return None;
        }
        var key := UuidConvert(items[i].uuid);
        var payload := if rawBytes then items[i].data else Flatten(items[i].legacyData);
        ServiceDataStep(items, i, rawBytes);
        decoded := decoded[key := payload];
        i := i + 1;
      }
    }
    ServiceDataIsFold(items);
    return Some(decoded);
  }

  /** The canonical form of every service UUID, in the order and multiplicity received. */
  method ConvertServiceUuids(uuids: seq<string>) returns (r: Option<seq<string>>)
    ensures r.Some? <==> UuidsConvertible(uuids)
    ensures r.Some? ==> |r.value| == |uuids| && forall i :: 0 <= i < |uuids| ==> r.value[i] == UuidConvert(uuids[i])
  {
    var converted: seq<string> := [];
    var i := 0;
    while i < |uuids|
      invariant 0 <= i <= |uuids|
      invariant UuidsConvertible(uuids[..i])
      invariant |converted| == i
      invariant forall j :: 0 <= j < i ==> converted[j] == UuidConvert(uuids[j])
    {
      if |uuids[i]| < 2 {
        return None;
      }
      converted := converted + [UuidConvert(uuids[i])];
      i := i + 1;
    }
    assert uuids[..i] == uuids;
    return Some(converted);
  }

  /** Decodes a report: manufacturer data first, then service data, then service UUIDs; the
      scalar fields are copied. */
  method FromPb(msg: AdvertisementResponse) returns (r: Result<BluetoothLEAdvertisement, DecodeError>)
    ensures !CompanyIdsValid(msg.manufacturerData) ==> r == Failure(InvalidCompanyId)
    ensures CompanyIdsValid(msg.manufacturerData)
      && !(ServiceKeysConvertible(msg.serviceData) && UuidsConvertible(msg.serviceUuids))
      ==> r == Failure(UuidTooShort)
    ensures r.Success? <==>
      CompanyIdsValid(msg.manufacturerData) && ServiceKeysConvertible(msg.serviceData) && UuidsConvertible(msg.serviceUuids)
    ensures r.Success? ==>
      && r.value.address == msg.address
      && r.value.rssi == msg.rssi
      && r.value.addressType == msg.addressType
      && r.value.name == msg.name
      && |r.value.serviceUuids| == |msg.serviceUuids|
      && (forall i :: 0 <= i < |msg.serviceUuids| ==> r.value.serviceUuids[i] == UuidConvert(msg.serviceUuids[i]))
      && r.value.serviceData == ServiceData(msg.serviceData)
      && r.value.manufacturerData == ManufacturerData(msg.manufacturerData)
  {
    var manufacturerData := DecodeManufacturerData(msg.manufacturerData);
    if manufacturerData.None? {
      return Failure(InvalidCompanyId);
    }
    var serviceData := DecodeServiceData(msg.serviceData);
    if serviceData.None? {
      return Failure(UuidTooShort);
    }
    var serviceUuids := ConvertServiceUuids(msg.serviceUuids);
    if serviceUuids.None? {
      return Failure(UuidTooShort);
    }
    return Success(BluetoothLEAdvertisement(
      msg.address, msg.rssi, msg.addressType, msg.name,
      serviceUuids.value, serviceData.value, manufacturerData.value));
  }
}
