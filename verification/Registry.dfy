/** Device directories: the deduplicating listing of `ListAllDevices`, the operations that add and
    remove directories, and the reconcile loop of `discoverDevices`. A device file is represented by
    what it reads back as; `NormalInfo` is load after save (lemma `InfoRoundTrip` of `Records`). */
module DeviceRegistry {
  import opened Common
  import opened Records

  /** The key a record is listed under. */
  function KeyOf(d: DeviceInfo): string {
    if d.deviceId != "" then d.deviceId else d.ipAddress
  }

  function Keys(ds: seq<DeviceInfo>): set<string> {
    set d | d in ds :: KeyOf(d)
  }

  // ---------- the listing ----------

  /** The first record of each key, in order. */
  function Dedup(ds: seq<DeviceInfo>): seq<DeviceInfo> {
    if ds == [] then []
    else
      var n := |ds| - 1;
      Dedup(ds[..n]) + if KeyOf(ds[n]) in Keys(ds[..n]) then [] else [ds[n]]
  }

  /** Index of the first record with the key, or the length. */
  function FirstWith(ds: seq<DeviceInfo>, key: string): (i: nat)
    ensures i <= |ds| && forall k :: 0 <= k < i ==> KeyOf(ds[k]) != key
    ensures i < |ds| ==> KeyOf(ds[i]) == key
  {
    if ds == [] || KeyOf(ds[0]) == key then 0 else 1 + FirstWith(ds[1..], key)
  }

  ghost predicate IsFirst(ds: seq<DeviceInfo>, d: DeviceInfo) {
    FirstWith(ds, KeyOf(d)) < |ds| && ds[FirstWith(ds, KeyOf(d))] == d
  }

  lemma FirstWithAppend(ds: seq<DeviceInfo>, d: DeviceInfo, key: string)
    ensures FirstWith(ds + [d], key) == if FirstWith(ds, key) < |ds| then FirstWith(ds, key)
                                        else if KeyOf(d) == key then |ds| else |ds| + 1
  {
    var i, j := FirstWith(ds + [d], key), FirstWith(ds, key);
    if j < |ds| {
      assert (ds + [d])[j] == ds[j];
    } else if KeyOf(d) == key {
      assert (ds + [d])[|ds|] == d;
    }
    assert forall k :: 0 <= k < |ds| ==> (ds + [d])[k] == ds[k];
  }

  lemma DedupStep(visited: seq<DeviceInfo>, d: DeviceInfo)
    ensures Dedup(visited + [d]) == Dedup(visited) + if KeyOf(d) in Keys(visited) then [] else [d]
    ensures Keys(visited + [d]) == Keys(visited) + {KeyOf(d)}
  {
    assert (visited + [d])[..|visited|] == visited;
  }

  lemma {:induction false} DedupKeys(ds: seq<DeviceInfo>)
    ensures Keys(Dedup(ds)) == Keys(ds)
  {
    if ds != [] {
      var before, d := ds[..|ds| - 1], ds[|ds| - 1];
      assert ds == before + [d];
      DedupKeys(before);
      DedupStep(before, d);
      DedupStep(Dedup(before), d);
    }
  }

  predicate NoKeyTwice(ds: seq<DeviceInfo>) {
    forall i, j :: 0 <= i < j < |ds| ==> KeyOf(ds[i]) != KeyOf(ds[j])
  }

  lemma {:induction false} DedupDistinct(ds: seq<DeviceInfo>)
    ensures NoKeyTwice(Dedup(ds))
  {
    if ds != [] {
      var before, d := ds[..|ds| - 1], ds[|ds| - 1];
      DedupDistinct(before);
      DedupKeys(before);
      AppendKeepsDistinct(Dedup(before), d);
    }
  }

  lemma AppendKeepsDistinct(ds: seq<DeviceInfo>, d: DeviceInfo)
    requires NoKeyTwice(ds)
    ensures NoKeyTwice(ds + []) && (KeyOf(d) !in Keys(ds) ==> NoKeyTwice(ds + [d]))
  {
    assert forall i :: 0 <= i < |ds| ==> KeyOf(ds[i]) in Keys(ds);
  }

  lemma {:induction false} DedupFirst(ds: seq<DeviceInfo>, x: DeviceInfo)
    ensures x in Dedup(ds) <==> x in ds && IsFirst(ds, x)
  {
    if ds != [] {
      var before, d := ds[..|ds| - 1], ds[|ds| - 1];
      assert ds == before + [d];
      DedupFirst(before, x);
      DedupStep(before, d);
      FirstWithAppend(before, d, KeyOf(x));
      KeyOccurs(before, KeyOf(x));
    }
  }

  lemma KeyOccurs(ds: seq<DeviceInfo>, key: string)
    ensures key in Keys(ds) <==> FirstWith(ds, key) < |ds|
  {
  }

  /** The listing holds exactly the first record of each key that occurs, and no key twice. */
  lemma {:induction false} DedupMeans(ds: seq<DeviceInfo>)
    ensures NoKeyTwice(Dedup(ds))
    ensures forall d :: d in Dedup(ds) <==> d in ds && IsFirst(ds, d)
    ensures Keys(Dedup(ds)) == Keys(ds)
  {
    DedupDistinct(ds);
    DedupKeys(ds);
    forall d ensures d in Dedup(ds) <==> d in ds && IsFirst(ds, d) {
      DedupFirst(ds, d);
    }
  }

  /** When no key repeats nothing is dropped. */
  lemma {:induction false} DedupOfDistinct(ds: seq<DeviceInfo>)
    requires NoKeyTwice(ds)
    ensures Dedup(ds) == ds
  {
    if ds != [] {
      var before, d := ds[..|ds| - 1], ds[|ds| - 1];
      assert ds == before + [d];
      LastKeyNew(before, d);
      DedupOfDistinct(before);
      DedupStep(before, d);
    }
  }

  lemma LastKeyNew(before: seq<DeviceInfo>, d: DeviceInfo)
    requires NoKeyTwice(before + [d])
    ensures NoKeyTwice(before) && KeyOf(d) !in Keys(before)
  {
    var ds := before + [d];
    assert ds[|before|] == d && forall k :: 0 <= k < |before| ==> ds[k] == before[k];
  }

  const DEVICE_INFO_FILE := "DeviceInfo.xml"

  /** An entry of a devices directory with the record in it, if there is one that parses. */
  datatype DirEntry = Directory(name: string, info: Option<DeviceInfo>) | PlainFile(name: string, info: Option<DeviceInfo>)

  /** An entry of a data directory; `devices` is `None` when its devices directory cannot be read. */
  datatype AccountEntry = AccountEntry(isDir: bool, devices: Option<seq<DirEntry>>)

  function EntryInfo(e: DirEntry): seq<DeviceInfo> {
    if e.info.None? || (e.PlainFile? && e.name != DEVICE_INFO_FILE) then [] else [e.info.value]
  }

  function EntryInfos(es: seq<DirEntry>): seq<DeviceInfo> {
    if es == [] then [] else EntryInfos(es[..|es| - 1]) + EntryInfo(es[|es| - 1])
  }

  function AccountInfo(a: AccountEntry): seq<DeviceInfo> {
    if a.isDir && a.devices.Some? then EntryInfos(a.devices.value) else []
  }

  function AccountInfos(accounts: seq<AccountEntry>): seq<DeviceInfo> {
    if accounts == [] then []
    else AccountInfos(accounts[..|accounts| - 1]) + AccountInfo(accounts[|accounts| - 1])
  }

  function RootInfo(root: Option<seq<AccountEntry>>): seq<DeviceInfo> {
    if root.Some? then AccountInfos(root.value) else []
  }

  /** Every readable record below the data directories, in the order they are visited. */
  function RootInfos(roots: seq<Option<seq<AccountEntry>>>): seq<DeviceInfo> {
    if roots == [] then [] else RootInfos(roots[..|roots| - 1]) + RootInfo(roots[|roots| - 1])
  }

  /** The record of entry k of account directory j of data directory i: in a subdirectory, or in a plain
      file with the right name. */
  ghost predicate ReadableAt(roots: seq<Option<seq<AccountEntry>>>, i: nat, j: nat, k: nat, d: DeviceInfo) {
    && i < |roots| && roots[i].Some? && j < |roots[i].value|
    && AccountReads(roots[i].value[j], k, d)
  }

  ghost predicate AccountReads(a: AccountEntry, k: nat, d: DeviceInfo) {
    a.isDir && a.devices.Some? && k < |a.devices.value| && EntryReads(a.devices.value[k], d)
  }

  predicate EntryReads(e: DirEntry, d: DeviceInfo) {
    match e
    case Directory(_, info) => info == Some(d)
    case PlainFile(name, info) => name == "DeviceInfo.xml" && info == Some(d)
  }

  lemma {:induction false} EntriesRead(es: seq<DirEntry>, d: DeviceInfo)
    ensures d in EntryInfos(es) <==> exists k :: 0 <= k < |es| && EntryReads(es[k], d)
  {
    if es != [] {
      var n := |es| - 1;
      EntriesRead(es[..n], d);
      assert d in EntryInfo(es[n]) <==> EntryReads(es[n], d);
      assert forall k :: 0 <= k < n ==> es[..n][k] == es[k];
    }
  }

  lemma AccountRead(a: AccountEntry, d: DeviceInfo)
    ensures d in AccountInfo(a) <==> exists k: nat :: AccountReads(a, k, d)
  {
    if a.isDir && a.devices.Some? {
      EntriesRead(a.devices.value, d);
      if k: nat :| k < |a.devices.value| && EntryReads(a.devices.value[k], d) {
        assert AccountReads(a, k, d);
      }
    }
  }

  lemma {:induction false} AccountOf(accounts: seq<AccountEntry>, d: DeviceInfo) returns (j: nat)
    requires d in AccountInfos(accounts)
    ensures j < |accounts| && d in AccountInfo(accounts[j])
  {
    j := |accounts| - 1;
    if d !in AccountInfo(accounts[j]) {
      j := AccountOf(accounts[..j], d);
    }
  }

  lemma {:induction false} AccountListed(accounts: seq<AccountEntry>, j: nat, d: DeviceInfo)
    requires j < |accounts| && d in AccountInfo(accounts[j])
    ensures d in AccountInfos(accounts)
  {
    if j < |accounts| - 1 {
      AccountListed(accounts[..|accounts| - 1], j, d);
    }
  }

  lemma RootRead(roots: seq<Option<seq<AccountEntry>>>, i: nat, d: DeviceInfo)
    requires i < |roots|
    ensures d in RootInfo(roots[i]) <==> exists j: nat, k: nat :: ReadableAt(roots, i, j, k, d)
  {
    if d in RootInfo(roots[i]) {
      var j := AccountOf(roots[i].value, d);
      AccountRead(roots[i].value[j], d);
      var k: nat :| AccountReads(roots[i].value[j], k, d);
      assert ReadableAt(roots, i, j, k, d);
    }
    if j: nat, k: nat :| ReadableAt(roots, i, j, k, d) {
      AccountRead(roots[i].value[j], d);
      AccountListed(roots[i].value, j, d);
    }
  }

  lemma {:induction false} RootOf(roots: seq<Option<seq<AccountEntry>>>, d: DeviceInfo) returns (i: nat)
    requires d in RootInfos(roots)
    ensures i < |roots| && d in RootInfo(roots[i])
  {
    i := |roots| - 1;
    if d !in RootInfo(roots[i]) {
      i := RootOf(roots[..i], d);
    }
  }

  lemma {:induction false} RootListed(roots: seq<Option<seq<AccountEntry>>>, i: nat, d: DeviceInfo)
    requires i < |roots| && d in RootInfo(roots[i])
    ensures d in RootInfos(roots)
  {
    if i < |roots| - 1 {
      RootListed(roots[..|roots| - 1], i, d);
    }
  }

  /** The listing is made from exactly the records that can be read at some place of the tree. */
  lemma {:induction false} ListedAreReadable(roots: seq<Option<seq<AccountEntry>>>, d: DeviceInfo)
    ensures d in RootInfos(roots) <==> exists i: nat, j: nat, k: nat :: ReadableAt(roots, i, j, k, d)
  {
    if d in RootInfos(roots) {
      var i := RootOf(roots, d);
      RootRead(roots, i, d);
    }
    if i: nat, j: nat, k: nat :| ReadableAt(roots, i, j, k, d) {
      RootRead(roots, i, d);
      RootListed(roots, i, d);
    }
  }

  /** What the listing means to its reader: every readable record is represented by one with the same
      device id, or the same address when there is no id, and no two listed records share it. */
  lemma {:induction false} ListingRepresents(roots: seq<Option<seq<AccountEntry>>>)
    ensures var ds := Dedup(RootInfos(roots));
      && (forall d :: d in ds ==> exists i: nat, j: nat, k: nat :: ReadableAt(roots, i, j, k, d))
      && (forall m, n :: 0 <= m < n < |ds| ==>
            (if ds[m].deviceId != "" then ds[m].deviceId else ds[m].ipAddress)
              != (if ds[n].deviceId != "" then ds[n].deviceId else ds[n].ipAddress))
    ensures forall i: nat, j: nat, k: nat, d :: ReadableAt(roots, i, j, k, d) ==>
      exists e :: e in Dedup(RootInfos(roots))
        && (if e.deviceId != "" then e.deviceId else e.ipAddress) == (if d.deviceId != "" then d.deviceId else d.ipAddress)
  {
    var ds := Dedup(RootInfos(roots));
    DedupMeans(RootInfos(roots));
    forall d | d in ds ensures exists i: nat, j: nat, k: nat :: ReadableAt(roots, i, j, k, d) {
      ListedAreReadable(roots, d);
    }
    assert forall m, n :: 0 <= m < n < |ds| ==> KeyOf(ds[m]) != KeyOf(ds[n]);
    forall i: nat, j: nat, k: nat, d | ReadableAt(roots, i, j, k, d)
      ensures exists e :: e in ds && KeyOf(e) == KeyOf(d)
    {
      ListedAreReadable(roots, d);
      assert KeyOf(d) in Keys(RootInfos(roots));
    }
  }

  /** The state of the listing loops after visiting some records. */
  ghost predicate Scanned(devices: seq<DeviceInfo>, seenIds: set<string>, visited: seq<DeviceInfo>) {
    devices == Dedup(visited) && seenIds == Keys(visited)
  }

  lemma EntriesSnoc(visited: seq<DeviceInfo>, es: seq<DirEntry>, k: nat)
    requires k < |es|
    ensures visited + EntryInfos(es[..k + 1]) == visited + EntryInfos(es[..k]) + EntryInfo(es[k])
  {
    assert es[..k + 1][..k] == es[..k];
  }

  lemma AccountsSnoc(visited: seq<DeviceInfo>, accounts: seq<AccountEntry>, j: nat)
    requires j < |accounts|
    ensures visited + AccountInfos(accounts[..j + 1]) == visited + AccountInfos(accounts[..j]) + AccountInfo(accounts[j])
  {
    assert accounts[..j + 1][..j] == accounts[..j];
  }

  lemma RootsSnoc(roots: seq<Option<seq<AccountEntry>>>, i: nat)
    requires i < |roots|
    ensures RootInfos(roots[..i + 1]) == RootInfos(roots[..i]) + RootInfo(roots[i])
  {
    assert roots[..i + 1][..i] == roots[..i];
  }

  lemma Unit<T>(s: seq<T>)
    ensures s + [] == s
  {
  }

  /** The body of the innermost loop: one directory entry. */
  method ScanEntry(devices: seq<DeviceInfo>, seenIds: set<string>, e: DirEntry, ghost visited: seq<DeviceInfo>)
    returns (devices': seq<DeviceInfo>, seenIds': set<string>)
    requires Scanned(devices, seenIds, visited)
    ensures Scanned(devices', seenIds', visited + EntryInfo(e))
  {
    devices', seenIds' := devices, seenIds;
    var info: Option<DeviceInfo> := None;
    if e.PlainFile? {
      if e.name == DEVICE_INFO_FILE {
        info := e.info;
      }
    } else {
      info := e.info;
    }
    Unit(visited);
    if info.Some? {
      var key := info.value.deviceId;
      if key == "" {
        key := info.value.ipAddress;
      }
      DedupStep(visited, info.value);
      assert key == KeyOf(info.value) && EntryInfo(e) == [info.value];
      if key !in seenIds {
        devices' := devices + [info.value];
        seenIds' := seenIds + {key};
      }
    }
  }

  /** The innermost loop: one devices directory. */
  method ScanEntries(devices: seq<DeviceInfo>, seenIds: set<string>, es: seq<DirEntry>, ghost visited: seq<DeviceInfo>)
    returns (devices': seq<DeviceInfo>, seenIds': set<string>)
    requires Scanned(devices, seenIds, visited)
    ensures Scanned(devices', seenIds', visited + EntryInfos(es))
  {
    devices', seenIds' := devices, seenIds;
    Unit(visited);
    for k := 0 to |es|
      invariant Scanned(devices', seenIds', visited + EntryInfos(es[..k]))
    {
      var e := es[k];
      EntriesSnoc(visited, es, k);
      devices', seenIds' := ScanEntry(devices', seenIds', e, visited + EntryInfos(es[..k]));
    }
    assert es[..|es|] == es;
  }

  /** The middle loop: one data directory. */
  method ScanAccounts(devices: seq<DeviceInfo>, seenIds: set<string>, accounts: seq<AccountEntry>, ghost visited: seq<DeviceInfo>)
    returns (devices': seq<DeviceInfo>, seenIds': set<string>)
    requires Scanned(devices, seenIds, visited)
    ensures Scanned(devices', seenIds', visited + AccountInfos(accounts))
  {
    devices', seenIds' := devices, seenIds;
    Unit(visited);
    for j := 0 to |accounts|
      invariant Scanned(devices', seenIds', visited + AccountInfos(accounts[..j]))
    {
      AccountsSnoc(visited, accounts, j);
      Unit(visited + AccountInfos(accounts[..j]));
      if accounts[j].isDir && accounts[j].devices.Some? {
        devices', seenIds' := ScanEntries(devices', seenIds', accounts[j].devices.value, visited + AccountInfos(accounts[..j]));
      }
    }
    assert accounts[..|accounts|] == accounts;
  }

  /** `ListAllDevices` over the data directories that exist. */
  method ListAllDevices(roots: seq<Option<seq<AccountEntry>>>) returns (devices: seq<DeviceInfo>)
    ensures devices == Dedup(RootInfos(roots))
  {
    devices := [];
    var seenIds: set<string> := {};
    for i := 0 to |roots|
      invariant Scanned(devices, seenIds, RootInfos(roots[..i]))
    {
      RootsSnoc(roots, i);
      Unit(RootInfos(roots[..i]));
      if roots[i].Some? {
        devices, seenIds := ScanAccounts(devices, seenIds, roots[i].value, RootInfos(roots[..i]));
      }
    }
    assert roots[..|roots|] == roots;
  }

  // ---------- the registry and its operations ----------

  /** A device directory: its account and its name. */
  datatype Place = Place(account: string, dir: string)

  type Registry = map<Place, DeviceInfo>

  /** `SaveDeviceInfo`: an empty name is refused, and the disk may refuse the rest. */
  function Saved(r: Registry, account: string, device: string, info: DeviceInfo, diskOk: bool): Registry {
    if device != "" && diskOk then r[Place(account, device) := NormalInfo(info)] else r
  }

  /** `RemoveDevice`: joining an empty name names the account's whole devices directory. */
  function Removed(r: Registry, account: string, device: string): Registry {
    if device == "" then map p | p in r && p.account != account :: r[p]
    else r - {Place(account, device)}
  }

  /** A removal in a run does what `DeviceStore.RemoveDevice` promises. */
  lemma {:induction false} RemovedMeans(r: Registry, account: string, device: string)
    ensures device != "" ==> Removed(r, account, device).Keys == r.Keys - {Place(account, device)}
    ensures device == "" ==> forall p :: p in Removed(r, account, device) <==> p in r && p.account != account
    ensures forall p :: p in Removed(r, account, device) ==> Removed(r, account, device)[p] == r[p]
  {
  }

  /** A speaker as discovery reports it; `liveSerial` is what asking the speaker itself would give, ""
      when that fails, and `diskOk` whether the record can be written. */
  datatype Found = Found(name: string, host: string, serial: string, modelId: string, liveSerial: string, diskOk: bool)

  function SerialOf(d: Found): string {
    if d.serial != "" then d.serial else d.liveSerial
  }

  function NameFor(d: Found): string {
    if SerialOf(d) != "" then SerialOf(d) else d.host
  }

  function InfoFor(d: Found): DeviceInfo {
    DeviceInfo(SerialOf(d), d.modelId, SerialOf(d), "", "0.0.0", d.host, d.name)
  }

  predicate Carries(known: DeviceInfo, serial: string) {
    serial != "" && (known.deviceId == serial || known.deviceSerialNumber == serial)
  }

  /** The name under which the first listed record with the serial is known, "" when there is none. */
  function Lookup(listing: seq<DeviceInfo>, serial: string): string {
    if listing == [] then ""
    else if Carries(listing[0], serial) then KeyOf(listing[0])
    else Lookup(listing[1..], serial)
  }

  /** An order in which the directories are visited: each once. */
  ghost predicate IsOrder(r: Registry, order: seq<Place>) {
    && (forall p :: p in order <==> p in r)
    && (forall i, j :: 0 <= i < j < |order| ==> order[i] != order[j])
  }

  function InfosIn(r: Registry, order: seq<Place>): seq<DeviceInfo>
    requires forall p :: p in order ==> p in r
  {
    seq(|order|, i requires 0 <= i < |order| => r[order[i]])
  }

  function Visited(r: Registry, order: seq<Place>, others: seq<DeviceInfo>): seq<DeviceInfo>
    requires forall p :: p in order ==> p in r
  {
    InfosIn(r, order) + others
  }

  /** What `ListAllDevices` returns; `others` are the records of the alternative data directory, which is
      listed behind the server's own and never written. */
  function Listing(r: Registry, order: seq<Place>, others: seq<DeviceInfo>): seq<DeviceInfo>
    requires forall p :: p in order ==> p in r
  {
    Dedup(Visited(r, order, others))
  }

  const DEFAULT_ACCOUNT := "default"

  /** One turn of the discovery loop. */
  function Discovered(r: Registry, d: Found, order: seq<Place>, others: seq<DeviceInfo>): Registry
    requires forall p :: p in order ==> p in r
  {
    Stored(r, d, Lookup(Listing(r, order, others), d.serial))
  }

  /** Steps 2 and 3 of a turn: the entry under another name is cleaned up and the speaker saved. */
  function Stored(r: Registry, d: Found, existing: string): Registry {
    var cleaned := if SerialOf(d) != "" && existing != "" && existing != SerialOf(d)
                   then Removed(r, DEFAULT_ACCOUNT, existing) else r;
    Saved(cleaned, DEFAULT_ACCOUNT, NameFor(d), InfoFor(d), d.diskOk)
  }

  // ---------- what every operation keeps ----------

  /** Every directory is named by the key of the record in it. */
  ghost predicate Named(r: Registry) {
    forall p :: p in r ==> p.dir == KeyOf(r[p])
  }

  /** Every serial number that is recorded is also the record's device id. */
  ghost predicate SerialsAreIds(r: Registry) {
    forall p :: p in r && r[p].deviceSerialNumber != "" ==> r[p].deviceSerialNumber == r[p].deviceId
  }

  datatype Operation =
    | AddDevice(account: string, id: string, name: string, diskOk: bool)
    | RemoveDevice(account: string, device: string)
    | Discover(found: Found, order: seq<Place>, others: seq<DeviceInfo>)

  ghost predicate CanRun(r: Registry, op: Operation) {
    op.Discover? ==> IsOrder(r, op.order)
  }

  function Operated(r: Registry, op: Operation): Registry
    requires op.Discover? ==> forall p :: p in op.order ==> p in r
  {
    match op
    case AddDevice(account, id, name, diskOk) => Saved(r, account, id, DeviceInfo(id, "", "", "", "", "", name), diskOk)
    case RemoveDevice(account, device) => Removed(r, account, device)
    case Discover(d, order, others) => Discovered(r, d, order, others)
  }

  /** The states of a run: each from the one before by an operation of the server. */
  ghost predicate IsRun(states: seq<Registry>, ops: seq<Operation>) {
    && |states| == |ops| + 1
    && forall i :: 0 <= i < |ops| ==> CanRun(states[i], ops[i]) && states[i + 1] == Operated(states[i], ops[i])
  }

  lemma OperatedKeepsNames(r: Registry, op: Operation)
    requires CanRun(r, op) && Named(r)
    ensures Named(Operated(r, op))
    ensures SerialsAreIds(r) ==> SerialsAreIds(Operated(r, op))
  {
    match op
    case AddDevice(account, id, name, diskOk) =>
      SavedKeepsNames(r, account, id, DeviceInfo(id, "", "", "", "", "", name), diskOk);
    case RemoveDevice(account, device) => RemovedKeepsNames(r, account, device);
    case Discover(d, order, others) => DiscoveredKeepsNames(r, d, order, others);
  }

  lemma SavedKeepsNames(r: Registry, account: string, device: string, info: DeviceInfo, diskOk: bool)
    requires Named(r) && (device != "" ==> device == KeyOf(info))
    requires info.deviceSerialNumber == "" || info.deviceSerialNumber == info.deviceId
    ensures Named(Saved(r, account, device, info, diskOk))
    ensures SerialsAreIds(r) ==> SerialsAreIds(Saved(r, account, device, info, diskOk))
  {
  }

  lemma RemovedKeepsNames(r: Registry, account: string, device: string)
    requires Named(r)
    ensures Named(Removed(r, account, device)) && (SerialsAreIds(r) ==> SerialsAreIds(Removed(r, account, device)))
  {
  }

  lemma DiscoveredKeepsNames(r: Registry, d: Found, order: seq<Place>, others: seq<DeviceInfo>)
    requires Named(r) && forall p :: p in order ==> p in r
    ensures Named(Discovered(r, d, order, others))
    ensures SerialsAreIds(r) ==> SerialsAreIds(Discovered(r, d, order, others))
  {
    var existing := Lookup(Listing(r, order, others), d.serial);
    var cleaned := if SerialOf(d) != "" && existing != "" && existing != SerialOf(d)
                   then Removed(r, DEFAULT_ACCOUNT, existing) else r;
    RemovedKeepsNames(r, DEFAULT_ACCOUNT, existing);
    SavedKeepsNames(cleaned, DEFAULT_ACCOUNT, NameFor(d), InfoFor(d), d.diskOk);
  }

  /** In every state the server can reach from an empty registry, directories are named by the keys of
      their records and recorded serials are device ids. */
  lemma {:induction false} ReachableIsNamed(states: seq<Registry>, ops: seq<Operation>)
    requires IsRun(states, ops) && states[0] == map[]
    ensures Named(states[|ops|]) && SerialsAreIds(states[|ops|])
  {
    if ops != [] {
      var n := |ops| - 1;
      ReachableIsNamed(states[..n + 1], ops[..n]);
      OperatedKeepsNames(states[n], ops[n]);
    }
  }

  /** So with one account the listing drops nothing: it shows every stored record exactly once,
      whatever order the directories are visited in. */
  lemma {:induction false} SingleAccountListing(r: Registry, order: seq<Place>, account: string)
    requires Named(r) && IsOrder(r, order) && forall p :: p in r ==> p.account == account
    ensures Listing(r, order, []) == InfosIn(r, order)
  {
    var ds := InfosIn(r, order);
    forall i, j | 0 <= i < j < |ds| ensures KeyOf(ds[i]) != KeyOf(ds[j]) {
      assert order[i] in r && order[j] in r && order[i] != order[j];
    }
    DedupOfDistinct(ds);
    assert ds + [] == ds;
  }

  // ---------- a discovery pass ----------

  /** The states of one pass over the discovered speakers, and the orders of its listings. */
  ghost predicate IsPass(states: seq<Registry>, found: seq<Found>, orders: seq<seq<Place>>, others: seq<DeviceInfo>) {
    && |states| == |found| + 1 && |orders| == |found|
    && forall i :: 0 <= i < |found| ==>
         IsOrder(states[i], orders[i]) && states[i + 1] == Discovered(states[i], found[i], orders[i], others)
  }

  // Directories are read in the byte order of their names, account by account.

  predicate NameBefore(a: string, b: string) {
    b != "" && (a == "" || a[0] < b[0] || (a[0] == b[0] && NameBefore(a[1..], b[1..])))
  }

  predicate Before(p: Place, q: Place) {
    NameBefore(p.account, q.account) || (p.account == q.account && NameBefore(p.dir, q.dir))
  }

  predicate Sorted(order: seq<Place>) {
    forall i, j :: 0 <= i < j < |order| ==> Before(order[i], order[j])
  }

  lemma {:induction false} NamesCompare(a: string, b: string)
    ensures !(NameBefore(a, b) && NameBefore(b, a))
    ensures a == b || NameBefore(a, b) || NameBefore(b, a)
  {
    if a != "" && b != "" && a[0] == b[0] {
      NamesCompare(a[1..], b[1..]);
      assert a == [a[0]] + a[1..] && b == [b[0]] + b[1..];
    }
  }

  lemma {:induction false} NamesChain(a: string, b: string, c: string)
    requires NameBefore(a, b) && NameBefore(b, c)
    ensures NameBefore(a, c)
  {
    if a != "" && a[0] == b[0] == c[0] {
      NamesChain(a[1..], b[1..], c[1..]);
    }
  }

  lemma PlacesCompare(p: Place, q: Place)
    ensures !(Before(p, q) && Before(q, p))
    ensures p == q || Before(p, q) || Before(q, p)
  {
    NamesCompare(p.account, q.account);
    NamesCompare(p.dir, q.dir);
  }

  lemma PlacesChain(p: Place, q: Place, s: Place)
    requires Before(p, q) && Before(q, s)
    ensures Before(p, s)
  {
    if NameBefore(p.account, q.account) && NameBefore(q.account, s.account) {
      NamesChain(p.account, q.account, s.account);
    } else if p.account == q.account == s.account {
      NamesChain(p.dir, q.dir, s.dir);
    }
  }

  ghost predicate IsFirstPlace(places: set<Place>, p: Place) {
    p in places && forall q :: q in places && q != p ==> Before(p, q)
  }

  lemma {:induction false} FirstPlaceExists(places: set<Place>)
    requires places != {}
    ensures exists p :: IsFirstPlace(places, p)
  {
    var x :| x in places;
    var rest := places - {x};
    if rest == {} {
      assert places == {x};
      assert IsFirstPlace(places, x);
    } else {
      FirstPlaceExists(rest);
      var p :| IsFirstPlace(rest, p);
      PlacesCompare(x, p);
      forall q | q in rest && Before(x, p) ensures Before(x, q) {
        if q != p {
          PlacesChain(x, p, q);
        }
      }
      assert IsFirstPlace(places, if Before(x, p) then x else p);
    }
  }

  /** A pass as the server makes it: every listing visits the directories in the order of their names. */
  ghost predicate IsSortedPass(states: seq<Registry>, found: seq<Found>, orders: seq<seq<Place>>, others: seq<DeviceInfo>) {
    IsPass(states, found, orders, others) && forall i :: 0 <= i < |orders| ==> Sorted(orders[i])
  }

  // ---------- the operations, step by step ----------

  class DeviceStore {
    var files: Registry
    const other: Option<seq<AccountEntry>>  // the alternative data directory, if there is one

    constructor (other: Option<seq<AccountEntry>>)
      ensures files == map[] && this.other == other
    {
      files := map[];
      this.other := other;
    }

    method SaveDeviceInfo(account: string, device: string, info: DeviceInfo, diskOk: bool) returns (ok: bool)
      modifies this
      ensures files == Saved(old(files), account, device, info, diskOk) && (ok <==> device != "" && diskOk)
    {
      if device == "" {
        return false;
      }
      if diskOk {
        files := files[Place(account, device) := NormalInfo(info)];
      }
      ok := diskOk;
    }

    /** A non-empty name takes that one directory away, an empty one all of the account's. */
    method RemoveDevice(account: string, device: string)
      modifies this
      ensures device != "" ==> files.Keys == old(files).Keys - {Place(account, device)}
      ensures device == "" ==> forall p :: p in files <==> p in old(files) && p.account != account
      ensures forall p :: p in files ==> files[p] == old(files)[p]
    {
      if device == "" {
        files := map p | p in files && p.account != account :: files[p];
      } else {
        files := files - {Place(account, device)};
      }
    }

    method AddDeviceToAccount(account: string, id: string, name: string, diskOk: bool) returns (ok: bool)
      modifies this
      ensures files == Operated(old(files), AddDevice(account, id, name, diskOk)) && (ok <==> id != "" && diskOk)
      ensures ok ==> files == old(files)[Place(account, id) := DeviceInfo(id, " ", "", "", "", "", name)]
      ensures !ok ==> files == old(files)
    {
      ok := SaveDeviceInfo(account, id, DeviceInfo(id, "", "", "", "", "", name), diskOk);
      assert "" + " " == " ";
    }

    /** `os.ReadDir`: the directories in the order of their names. */
    method ReadPlaces() returns (order: seq<Place>)
      ensures IsOrder(files, order) && Sorted(order)
    {
      order := [];
      var left := files.Keys;
      while left != {}
        invariant left <= files.Keys && forall p :: p in order <==> p in files && p !in left
        invariant forall i, j :: 0 <= i < j < |order| ==> order[i] != order[j]
        invariant Sorted(order) && forall p, q :: p in order && q in left ==> Before(p, q)
        decreases left
      {
        FirstPlaceExists(left);
        var p :| p in left && forall q :: q in left && q != p ==> Before(p, q);
        order := order + [p];
        left := left - {p};
      }
    }

    /** The tree below the data directory: each directory visited on its own. */
    method ReadTree() returns (accounts: seq<AccountEntry>, ghost order: seq<Place>)
      ensures IsOrder(files, order) && Sorted(order) && AccountInfos(accounts) == InfosIn(files, order)
    {
      var places := ReadPlaces();
      order := places;
      accounts := [];
      for i := 0 to |places|
        invariant AccountInfos(accounts) == InfosIn(files, places)[..i]
      {
        var a := AccountEntry(true, Some([Directory(places[i].dir, Some(files[places[i]]))]));
        SingleEntry(accounts, a, places[i].dir, files[places[i]]);
        accounts := accounts + [a];
      }
    }

    /** Step 1 of a turn: the search for a record with the serial. */
    static method FindKnown(devices: seq<DeviceInfo>, serial: string) returns (existingId: string)
      ensures existingId == Lookup(devices, serial)
    {
      for i := 0 to |devices|
        invariant Lookup(devices, serial) == Lookup(devices[i..], serial)
      {
        var known := devices[i];
        assert devices[i..][1..] == devices[i + 1..];
        if serial != "" && (known.deviceId == serial || known.deviceSerialNumber == serial) {
          existingId := known.deviceId;
          if existingId == "" {
            existingId := known.ipAddress;
          }
          return;
        }
      }
      existingId := "";
    }

    method DiscoverDevices(found: seq<Found>) returns (ghost states: seq<Registry>, ghost orders: seq<seq<Place>>)
      modifies this
      ensures IsSortedPass(states, found, orders, RootInfo(other))
      ensures states[0] == old(files) && files == states[|found|]
    {
      states, orders := [files], [];
      for i := 0 to |found|
        invariant IsSortedPass(states, found[..i], orders, RootInfo(other)) && states[0] == old(files) && files == states[i]
      {
        ghost var order := DiscoverOne(found[i]);
        ExtendPass(states, found, orders, RootInfo(other), i, order, files);
        states, orders := states + [files], orders + [order];
      }
      assert found[..|found|] == found;
    }

    method DiscoverOne(d: Found) returns (ghost order: seq<Place>)
      modifies this
      ensures IsOrder(old(files), order) && Sorted(order) && files == Discovered(old(files), d, order, RootInfo(other))
    {
      var accounts;
      accounts, order := ReadTree();
      var allDevices := ListAllDevices([Some(accounts), other]);
      TwoRoots(accounts, other);
      var existingId := FindKnown(allDevices, d.serial);
      StoreFound(d, existingId);
    }

    method StoreFound(d: Found, existingId: string)
      modifies this
      ensures files == Stored(old(files), d, existingId)
    {
      var serial := d.serial;
      if serial == "" && d.liveSerial != "" {
        serial := d.liveSerial;
      }
      var deviceId := serial;
      if deviceId == "" {
        deviceId := d.host;
      }
      var info := DeviceInfo(serial, d.modelId, serial, "", "0.0.0", d.host, d.name);
      if serial != "" && existingId != "" && existingId != serial {
        RemoveDevice(DEFAULT_ACCOUNT, existingId);
        assert files == Removed(old(files), DEFAULT_ACCOUNT, existingId);
      }
      var saved := SaveDeviceInfo(DEFAULT_ACCOUNT, deviceId, info, d.diskOk);
    }
  }

  lemma SingleEntry(accounts: seq<AccountEntry>, a: AccountEntry, name: string, info: DeviceInfo)
    requires a == AccountEntry(true, Some([Directory(name, Some(info))]))
    ensures AccountInfos(accounts + [a]) == AccountInfos(accounts) + [info]
  {
    assert (accounts + [a])[..|accounts|] == accounts;
    assert a.devices.value[..0] == [];
    assert EntryInfos(a.devices.value) == [info];
  }

  lemma TwoRoots(accounts: seq<AccountEntry>, other: Option<seq<AccountEntry>>)
    ensures RootInfos([Some(accounts), other]) == AccountInfos(accounts) + RootInfo(other)
  {
    var roots := [Some(accounts), other];
    assert roots[..1] == [Some(accounts)] && roots[..1][..0] == [];
    assert RootInfos(roots[..1]) == AccountInfos(accounts);
  }

  lemma ExtendPass(states: seq<Registry>, found: seq<Found>, orders: seq<seq<Place>>, others: seq<DeviceInfo>,
                   n: nat, order: seq<Place>, r: Registry)
    requires n < |found| && IsSortedPass(states, found[..n], orders, others)
    requires IsOrder(states[n], order) && Sorted(order) && r == Discovered(states[n], found[n], order, others)
    ensures IsSortedPass(states + [r], found[..n + 1], orders + [order], others)
  {
    var states', orders' := states + [r], orders + [order];
    forall i | 0 <= i < n + 1
      ensures IsOrder(states'[i], orders'[i]) && Sorted(orders'[i])
      ensures states'[i + 1] == Discovered(states'[i], found[i], orders'[i], others)
    {
      if i < n {
        TurnOf(states, found, orders, others, n, i);
      }
    }
  }

  lemma TurnOf(states: seq<Registry>, found: seq<Found>, orders: seq<seq<Place>>, others: seq<DeviceInfo>, n: nat, i: nat)
    requires i < n <= |found| && IsSortedPass(states, found[..n], orders, others)
    ensures IsOrder(states[i], orders[i]) && Sorted(orders[i])
    ensures states[i + 1] == Discovered(states[i], found[i], orders[i], others)
  {
    assert found[..n][i] == found[i];
  }
}
