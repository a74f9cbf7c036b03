/** The device both entities attach to: `device_info` of the calendar and of the sensor. */
module Device {
  import opened Wrappers
  import opened Text
  import opened Const
  import opened Schedule

  const Manufacturer := "Warszawa 19115"

  /** The name used when neither the data nor the entry gives one. */
  function FallbackName(addressPointId: int): (name: string)
    ensures |name| > 0
  {
    "Wywóz Odpadów (" + IntToString(addressPointId) + ")"
  }

  /** The address of the coordinator's data when there is data and the address is not empty. */
  predicate HasAddress(data: Option<Snapshot>)
  {
    data.Some? && data.value.address.Some? && data.value.address.value != ""
  }

  /** The data's address, else the entry's title, else the fallback; never empty. */
  function DeviceName(data: Option<Snapshot>, title: string, addressPointId: int): (name: string)
    ensures |name| > 0
    ensures HasAddress(data) ==> name == data.value.address.value
    ensures !HasAddress(data) && title != "" ==> name == title
    ensures !HasAddress(data) && title == "" ==> name == FallbackName(addressPointId)
  {
    var address := if HasAddress(data) then data.value.address.value else title;
    if address == "" then FallbackName(addressPointId) else address
  }

  datatype DeviceInfo = DeviceInfo(identifier: (string, string), name: string, manufacturer: string)

  /** `device_info`: one device per config entry, named by `DeviceName`. */
  function Info(data: Option<Snapshot>, entryId: string, title: string, addressPointId: int): (info: DeviceInfo)
    ensures info.identifier == (Domain, entryId) && info.manufacturer == Manufacturer
    ensures info.name == DeviceName(data, title, addressPointId)
  {
    DeviceInfo((Domain, entryId), DeviceName(data, title, addressPointId), Manufacturer)
  }

  /** Once a refresh has stored an address, the device is named after it whatever the entry's title. */
  lemma RefreshedDeviceName(payload: seq<RawEntry>, today: Dates.CalendarDate, table: map<string, string>,
                            title: string, addressPointId: int)
    requires payload != [] && payload[0].adres.Some? && payload[0].adres.value != ""
    ensures DeviceName(Some(Normalize(payload, today, table)), title, addressPointId) == payload[0].adres.value
  {
  }

  /** The fallback names the address point id: a different id gives a different name. */
  lemma FallbackNamesDiffer(a: int, b: int)
    requires a != b
    ensures FallbackName(a) != FallbackName(b)
  {
    var prefix := "Wywóz Odpadów (";
    if FallbackName(a) == FallbackName(b) {
      var sa, sb := IntToString(a), IntToString(b);
      assert |sa| == |sb|;
      assert FallbackName(a)[|prefix|..|prefix| + |sa|] == sa;
      assert FallbackName(b)[|prefix|..|prefix| + |sb|] == sb;
      ParseIntOfIntToString(a);
      ParseIntOfIntToString(b);
    }
  }
}
