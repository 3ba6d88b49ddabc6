/** `marge.go`: the two operations that change an account's lists. Each loads, changes and saves; its
    contract is the request's effect in module `Account`, where the properties of runs are proved. */
module Marge {
  import opened Common
  import opened Numerals
  import opened Records
  import opened Sources
  import opened Recency
  import opened RecentList
  import opened PresetSlots
  import opened Account
  import opened DataStore

  method UpdatePreset(ds: DataStore, account: string, presetNumber: int, body: Option<PresetBody>, now: int,
                      diskOk: bool) returns (a: Answer)
    modifies ds
    ensures var r := PostPreset(presetNumber, body, now, diskOk);
      && a == AnswerTo(old(ds.Files(account)), r)
      && ds.Files(account) == Apply(old(ds.Files(account)), r)
    ensures forall other :: other != account ==> ds.Files(other) == old(ds.Files(other))
  {
    ghost var r := PostPreset(presetNumber, body, now, diskOk);
    var sources := ds.GetConfiguredSources(account);
    if sources.Error? {
      return Rejected;
    }
    var loaded := ds.GetPresets(account);
    if loaded.Error? || body.None? {
      return Rejected;
    }
    var src := FindSource(sources.value, body.value.sourceId);
    if src.None? {
      return Rejected;
    }
    var presetObj := NewPreset(presetNumber, body.value, src.value, now);
    assert PresetFor(ds.Files(account), r) == Some(presetObj);
    var presets := loaded.value;
    while |presets| < presetNumber
      invariant |loaded.value| <= |presets| && (|presets| <= presetNumber || presets == loaded.value)
      invariant presets == Padded(loaded.value, |presets|)
    {
      presets := presets + [BLANK_PRESET];
    }
    if presetNumber < 1 {
      return Panicked;  // index out of range, before anything is saved
    }
    presets := presets[presetNumber - 1 := presetObj];
    assert presets == SetSlot(loaded.value, presetNumber, presetObj);
    var ok := ds.SavePresets(account, presets, diskOk);
    if !ok {
      return Rejected;
    }
    a := PresetAnswer(presetObj, src.value);
  }

  /** The loop that computes `maxID`. */
  method ComputeMaxId(recents: seq<Recent>) returns (maxID: nat)
    ensures maxID == MaxId(recents)
  {
    maxID := 0;
    for i := 0 to |recents|
      invariant maxID == MaxOf(IdValues(recents)[..i])
    {
      assert IdValues(recents)[..i + 1][..i] == IdValues(recents)[..i];
      var id := Atoi(recents[i].item.id);
      if id.Some? && id.value > maxID {
        maxID := id.value;
      }
    }
    assert IdValues(recents)[..|recents|] == IdValues(recents);
  }

  /** The search, the slice surgery and the insertion, on the array behind the loaded slice. The
      returned entry is what `recentObj` points to when the response is written. */
  method TouchRecents(recents: array<Recent>, body: RecentBody, src: ConfiguredSource, device: string, time: int)
    returns (list: seq<Recent>, answered: Recent)
    modifies recents
    ensures list == AddToList(old(recents[..]), body, src, device, time)
    ensures answered == AnsweredEntry(old(recents[..]), body, src, device, time)
  {
    ghost var rs := recents[..];
    var key := RequestKey(body, src);
    var i := 0;
    while i < recents.Length
      invariant 0 <= i <= recents.Length && recents[..] == rs
      invariant forall k :: 0 <= k < i ==> KeyOf(rs[k]) != key
    {
      if KeyOf(recents[i]) == key {
        assert FindRecent(rs, key) == i;
        recents[i] := recents[i].(utcTime := Itoa(time));
        assert recents[..] == rs[i := rs[i].(utcTime := Itoa(time))];
        var front := MoveSlotToFront(recents, i);
        return front[..], recents[i];
      }
      i := i + 1;
    }
    assert FindRecent(rs, key) == |rs|;
    var maxID := ComputeMaxId(recents[..]);
    answered := Recent(ContentItem(Itoa(Wrap64(maxID + 1)), body.name, src.sourceKeyType, body.kind, body.location,
                                   src.sourceKeyAccount, body.sourceId, "true"),
                       device, Itoa(time), "");
    list := [answered] + recents[..];
    if |list| > CAPACITY {
      list := list[..CAPACITY];
    }
  }

  method AddRecent(ds: DataStore, account: string, device: string, body: Option<RecentBody>, now: int, diskOk: bool)
    returns (a: Answer)
    modifies ds
    ensures var r := PostRecent(device, body, now, diskOk);
      && a == AnswerTo(old(ds.Files(account)), r)
      && ds.Files(account) == Apply(old(ds.Files(account)), r)
    ensures forall other :: other != account ==> ds.Files(other) == old(ds.Files(other))
  {
    var sources := ds.GetConfiguredSources(account);
    if sources.Error? {
      return Rejected;
    }
    var loaded := ds.GetRecents(account);
    if loaded.Error? || body.None? {
      return Rejected;
    }
    var src := FindSource(sources.value, body.value.sourceId);
    if src.None? {
      return Rejected;
    }
    ghost var f, r := ds.Files(account), PostRecent(device, body, now, diskOk);
    assert RecentReady(f, r) && SourceFor(f, body.value.sourceId) == src;
    var utcTime := now;
    if body.value.lastPlayedAt.Some? {
      utcTime := body.value.lastPlayedAt.value;
    }
    var rs := loaded.value;
    var recents := new Recent[|rs|](k requires 0 <= k < |rs| => rs[k]);
    assert recents[..] == rs;
    var list, entry := TouchRecents(recents, body.value, src.value, device, utcTime);
    assert list == NewList(f, r);
    var ok := ds.SaveRecents(account, list, diskOk);
    if !ok {
      return Rejected;
    }
    a := RecentAnswer(entry.item.id, entry.item.kind, entry.item.location, entry.item.name, src.value, utcTime);
  }
}
