/** The records of `models.go` and the typed form of the XML files that hold them. An element type
    below is the struct the source hands to its XML encoder; `...ToElement` is what saving writes
    for one record and `ElementTo...` what loading reads back. */
module Records {
  datatype Reply<+T> = Ok(value: T) | Error

  /** A file as seen by a loader: missing, not parsable, or a list of records. */
  datatype File<+T> = Absent | Malformed | Holds(records: seq<T>)

  datatype ContentItem = ContentItem(
    id: string, name: string, source: string, kind: string, location: string,
    sourceAccount: string, sourceId: string, isPresetable: string)

  datatype Preset = Preset(item: ContentItem, containerArt: string, createdOn: string, updatedOn: string)

  datatype Recent = Recent(item: ContentItem, deviceId: string, utcTime: string, containerArt: string)

  datatype ConfiguredSource = ConfiguredSource(
    displayName: string, id: string, secret: string, secretType: string,
    sourceKeyType: string, sourceKeyAccount: string)

  datatype DeviceInfo = DeviceInfo(
    deviceId: string, productCode: string, deviceSerialNumber: string, productSerialNumber: string,
    firmwareVersion: string, ipAddress: string, name: string)

  datatype ContentElement = ContentElement(
    source: string, kind: string, location: string, sourceAccount: string,
    isPresetable: string, itemName: string, containerArt: string)

  datatype PresetElement = PresetElement(id: string, createdOn: string, updatedOn: string, content: ContentElement)

  datatype RecentElement = RecentElement(id: string, deviceId: string, utcTime: string, content: ContentElement)

  datatype SourceElement = SourceElement(
    displayName: string, id: string, secret: string, secretType: string, account: string, kind: string)

  datatype Component = Component(category: string, softwareVersion: string, serialNumber: string)

  datatype Network = Network(kind: string, ipAddress: string)

  datatype InfoElement = InfoElement(
    deviceId: string, name: string, kind: string, moduleType: string,
    components: seq<Component>, networkInfo: seq<Network>)

  const BLANK_ITEM := ContentItem("", "", "", "", "", "", "", "")
  const BLANK_PRESET := Preset(BLANK_ITEM, "", "", "")

  // ---------- presets ----------

  function PresetToElement(p: Preset): PresetElement {
    PresetElement(p.item.id, p.createdOn, p.updatedOn,
                  ContentElement(p.item.source, p.item.kind, p.item.location, p.item.sourceAccount,
                                 "true", p.item.name, p.containerArt))
  }

  function ElementToPreset(e: PresetElement): Preset {
    Preset(ContentItem(e.id, e.content.itemName, e.content.source, e.content.kind, e.content.location,
                       e.content.sourceAccount, "", e.content.isPresetable),
           e.content.containerArt, e.createdOn, e.updatedOn)
  }

  function PresetElements(ps: seq<Preset>): seq<PresetElement> {
    seq(|ps|, i requires 0 <= i < |ps| => PresetToElement(ps[i]))
  }

  function Presets(es: seq<PresetElement>): seq<Preset> {
    seq(|es|, i requires 0 <= i < |es| => ElementToPreset(es[i]))
  }

  // ---------- recents ----------

  function RecentToElement(r: Recent): RecentElement {
    RecentElement(r.item.id, r.deviceId, r.utcTime,
                  ContentElement(r.item.source, r.item.kind, r.item.location, r.item.sourceAccount,
                                 if r.item.isPresetable == "" then "true" else r.item.isPresetable,
                                 r.item.name, r.containerArt))
  }

  function ElementToRecent(e: RecentElement): Recent {
    Recent(ContentItem(e.id, e.content.itemName, e.content.source, e.content.kind, e.content.location,
                       e.content.sourceAccount, "", e.content.isPresetable),
           e.deviceId, e.utcTime, e.content.containerArt)
  }

  function RecentElements(rs: seq<Recent>): seq<RecentElement> {
    seq(|rs|, i requires 0 <= i < |rs| => RecentToElement(rs[i]))
  }

  function Recents(es: seq<RecentElement>): seq<Recent> {
    seq(|es|, i requires 0 <= i < |es| => ElementToRecent(es[i]))
  }

  // ---------- device info ----------

  /** The position of the first space of a product code, or its length. */
  function FirstSpace(code: string): (i: nat)
    ensures i <= |code| && ' ' !in code[..i]
    ensures i < |code| ==> code[i] == ' '
  {
    if code == "" || code[0] == ' ' then 0
    else
      var i := 1 + FirstSpace(code[1..]);
      assert code[..i] == [code[0]] + code[1..][..i - 1];
      i
  }

  function InfoToElement(d: DeviceInfo): InfoElement {
    var i := FirstSpace(d.productCode);
    InfoElement(d.deviceId, d.name, d.productCode[..i],
                if i < |d.productCode| then d.productCode[i + 1..] else "",
                [Component("SCM", d.firmwareVersion, d.deviceSerialNumber),
                 Component("PackagedProduct", "", d.productSerialNumber)],
                [Network("SCM", d.ipAddress)])
  }

  /** Later components and networks of a category override earlier ones. */
  function WithComponents(d: DeviceInfo, cs: seq<Component>): DeviceInfo {
    if cs == [] then d
    else
      var before, c := WithComponents(d, cs[..|cs| - 1]), cs[|cs| - 1];
      if c.category == "SCM" then
        before.(firmwareVersion := c.softwareVersion, deviceSerialNumber := c.serialNumber)
      else if c.category == "PackagedProduct" then before.(productSerialNumber := c.serialNumber)
      else before
  }

  function WithNetworks(d: DeviceInfo, ns: seq<Network>): DeviceInfo {
    if ns == [] then d
    else
      var before, n := WithNetworks(d, ns[..|ns| - 1]), ns[|ns| - 1];
      if n.kind == "SCM" then before.(ipAddress := n.ipAddress) else before
  }

  function ElementToInfo(e: InfoElement): DeviceInfo {
    WithNetworks(WithComponents(
                   DeviceInfo(e.deviceId, e.kind + " " + e.moduleType, "", "", "", "", e.name),
                   e.components), e.networkInfo)
  }

  /** Index of the last component of the category, or -1. */
  function LastComponent(cs: seq<Component>, category: string): (i: int)
    ensures -1 <= i < |cs| && forall k :: i < k < |cs| ==> cs[k].category != category
    ensures i >= 0 ==> cs[i].category == category
  {
    if cs == [] then -1
    else if cs[|cs| - 1].category == category then |cs| - 1
    else LastComponent(cs[..|cs| - 1], category)
  }

  function LastNetwork(ns: seq<Network>, kind: string): (i: int)
    ensures -1 <= i < |ns| && forall k :: i < k < |ns| ==> ns[k].kind != kind
    ensures i >= 0 ==> ns[i].kind == kind
  {
    if ns == [] then -1
    else if ns[|ns| - 1].kind == kind then |ns| - 1
    else LastNetwork(ns[..|ns| - 1], kind)
  }

  /** Firmware and serial numbers are those of the last component of their category, the address that
      of the last "SCM" network, each "" when there is none; the rest is the element's own. */
  predicate LastEntriesWin(e: InfoElement, d: DeviceInfo) {
    var scm, product := LastComponent(e.components, "SCM"), LastComponent(e.components, "PackagedProduct");
    var network := LastNetwork(e.networkInfo, "SCM");
    && d.firmwareVersion == (if scm >= 0 then e.components[scm].softwareVersion else "")
    && d.deviceSerialNumber == (if scm >= 0 then e.components[scm].serialNumber else "")
    && d.productSerialNumber == (if product >= 0 then e.components[product].serialNumber else "")
    && d.ipAddress == (if network >= 0 then e.networkInfo[network].ipAddress else "")
    && d.deviceId == e.deviceId && d.name == e.name && d.productCode == e.kind + " " + e.moduleType
  }

  lemma {:induction false} ComponentsMean(d: DeviceInfo, cs: seq<Component>)
    ensures var scm, product := LastComponent(cs, "SCM"), LastComponent(cs, "PackagedProduct");
      WithComponents(d, cs) == d.(
        firmwareVersion := if scm >= 0 then cs[scm].softwareVersion else d.firmwareVersion,
        deviceSerialNumber := if scm >= 0 then cs[scm].serialNumber else d.deviceSerialNumber,
        productSerialNumber := if product >= 0 then cs[product].serialNumber else d.productSerialNumber)
  {
    if cs != [] {
      ComponentsMean(d, cs[..|cs| - 1]);
    }
  }

  lemma {:induction false} NetworksMean(d: DeviceInfo, ns: seq<Network>)
    ensures var network := LastNetwork(ns, "SCM");
      WithNetworks(d, ns) == d.(ipAddress := if network >= 0 then ns[network].ipAddress else d.ipAddress)
  {
    if ns != [] {
      NetworksMean(d, ns[..|ns| - 1]);
    }
  }

  /** What loading a device file reads. */
  lemma {:induction false} LoadedInfoMeans(e: InfoElement, d: DeviceInfo)
    ensures d == ElementToInfo(e) <==> LastEntriesWin(e, d)
  {
    var start := DeviceInfo(e.deviceId, e.kind + " " + e.moduleType, "", "", "", "", e.name);
    ComponentsMean(start, e.components);
    NetworksMean(WithComponents(start, e.components), e.networkInfo);
  }

  /** `SaveDeviceInfo`'s scan for the first space. */
  method SplitProductCode(code: string) returns (devType: string, moduleType: string)
    ensures ' ' !in devType
    ensures ' ' in code ==> devType + " " + moduleType == code
    ensures ' ' !in code ==> devType == code && moduleType == ""
  {
    devType, moduleType := code, "";
    for i := 0 to |code|
      invariant ' ' !in code[..i]
      invariant devType == code && moduleType == ""
    {
      if code[i] == ' ' {
        return code[..i], code[i + 1..];
      }
      assert code[..i + 1] == code[..i] + [code[i]];
    }
    assert code[..|code|] == code;
  }

  /** `GetDeviceInfo` and `parseDeviceInfoFile`: the two loops over the decoded element. */
  method ParseDeviceInfo(e: InfoElement) returns (d: DeviceInfo)
    ensures d == ElementToInfo(e) && LastEntriesWin(e, d)
  {
    d := DeviceInfo(e.deviceId, e.kind + " " + e.moduleType, "", "", "", "", e.name);
    ghost var start := d;
    for i := 0 to |e.components|
      invariant d == WithComponents(start, e.components[..i])
    {
      var comp := e.components[i];
      assert e.components[..i + 1][..i] == e.components[..i];
      if comp.category == "SCM" {
        d := d.(firmwareVersion := comp.softwareVersion, deviceSerialNumber := comp.serialNumber);
      } else if comp.category == "PackagedProduct" {
        d := d.(productSerialNumber := comp.serialNumber);
      }
    }
    assert e.components[..|e.components|] == e.components;
    ghost var scanned := d;
    for i := 0 to |e.networkInfo|
      invariant d == WithNetworks(scanned, e.networkInfo[..i])
    {
      assert e.networkInfo[..i + 1][..i] == e.networkInfo[..i];
      if e.networkInfo[i].kind == "SCM" {
        d := d.(ipAddress := e.networkInfo[i].ipAddress);
      }
    }
    assert e.networkInfo[..|e.networkInfo|] == e.networkInfo;
    LoadedInfoMeans(e, d);
  }

  // ---------- load after save ----------

  function NormalPreset(p: Preset): Preset {
    p.(item := p.item.(sourceId := "", isPresetable := "true"))
  }

  function NormalRecent(r: Recent): Recent {
    r.(item := r.item.(sourceId := "",
                       isPresetable := if r.item.isPresetable == "" then "true" else r.item.isPresetable))
  }

  function NormalInfo(d: DeviceInfo): DeviceInfo {
    if ' ' in d.productCode then d else d.(productCode := d.productCode + " ")
  }

  /** Saving and loading a preset list erases the source id and sets `isPresetable`, and nothing
      else; a second trip changes nothing. */
  lemma {:induction false} PresetsRoundTrip(ps: seq<Preset>)
    ensures Presets(PresetElements(ps)) == seq(|ps|, i requires 0 <= i < |ps| => NormalPreset(ps[i]))
    ensures Presets(PresetElements(Presets(PresetElements(ps)))) == Presets(PresetElements(ps))
  {
  }

  lemma {:induction false} RecentsRoundTrip(rs: seq<Recent>)
    ensures Recents(RecentElements(rs)) == seq(|rs|, i requires 0 <= i < |rs| => NormalRecent(rs[i]))
    ensures Recents(RecentElements(Recents(RecentElements(rs)))) == Recents(RecentElements(rs))
  {
  }

  /** Device info survives saving and loading except that a product code without a space gains a
      trailing one; one trip reaches the fixed point. */
  lemma {:induction false} InfoRoundTrip(d: DeviceInfo)
    ensures ElementToInfo(InfoToElement(d)) == NormalInfo(d)
    ensures ElementToInfo(InfoToElement(NormalInfo(d))) == NormalInfo(d)
    ensures ElementToInfo(InfoToElement(d)) == d <==> ' ' in d.productCode
  {
    InfoTrip(d);
    InfoTrip(NormalInfo(d));
  }

  lemma InfoTrip(d: DeviceInfo)
    ensures ElementToInfo(InfoToElement(d)) == NormalInfo(d)
  {
    var i := FirstSpace(d.productCode);
    var e := InfoToElement(d);
    var start := DeviceInfo(e.deviceId, e.kind + " " + e.moduleType, "", "", "", "", e.name);
    assert e.components[..1] == [e.components[0]] && [e.components[0]][..0] == [];
    assert WithComponents(start, [e.components[0]])
        == start.(firmwareVersion := d.firmwareVersion, deviceSerialNumber := d.deviceSerialNumber);
    assert WithComponents(start, e.components)
        == WithComponents(start, e.components[..1]).(productSerialNumber := d.productSerialNumber);
    var scanned := WithComponents(start, e.components);
    assert e.networkInfo[..0] == [];
    assert WithNetworks(scanned, e.networkInfo) == scanned.(ipAddress := d.ipAddress);
    if i < |d.productCode| {
      assert d.productCode == d.productCode[..i] + " " + d.productCode[i + 1..];
    } else {
      assert d.productCode[..i] == d.productCode;
      assert ' ' !in d.productCode;
      assert e.kind + " " + e.moduleType == d.productCode + " ";
    }
  }
}
