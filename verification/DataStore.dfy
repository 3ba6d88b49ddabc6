/** `datastore.go`: the per-account files, one load and one save method for each. A write either
    replaces the whole file or, when the disk refuses it, changes nothing. */
module DataStore {
  import opened Records
  import opened Sources
  import opened Account

  class DataStore {
    var accounts: map<string, AccountFiles>

    constructor ()
      ensures accounts == map[]
    {
      accounts := map[];
    }

    function Files(account: string): AccountFiles
      reads this
    {
      if account in accounts then accounts[account] else NO_FILES
    }

    method GetPresets(account: string) returns (r: Reply<seq<Preset>>)
      ensures r == if Files(account).presets.Holds? then Ok(Presets(Files(account).presets.records)) else Error
    {
      var file := Files(account).presets;
      if !file.Holds? {
        return Error;
      }
      var presets: seq<Preset> := [];
      for i := 0 to |file.records|
        invariant |presets| == i && forall k :: 0 <= k < i ==> presets[k] == ElementToPreset(file.records[k])
      {
        presets := presets + [ElementToPreset(file.records[i])];
      }
      assert presets == Presets(file.records);
      r := Ok(presets);
    }

    method SavePresets(account: string, presets: seq<Preset>, diskOk: bool) returns (ok: bool)
      modifies this
      ensures ok == diskOk
      ensures accounts == if diskOk
                          then old(accounts)[account := old(Files(account)).(presets := Holds(PresetElements(presets)))]
                          else old(accounts)
    {
      var es: seq<PresetElement> := [];
      for i := 0 to |presets|
        invariant |es| == i && forall k :: 0 <= k < i ==> es[k] == PresetToElement(presets[k])
        invariant accounts == old(accounts)
      {
        es := es + [PresetToElement(presets[i])];
      }
      if diskOk {
        assert es == PresetElements(presets);
        accounts := accounts[account := Files(account).(presets := Holds(es))];
      }
      ok := diskOk;
    }

    method GetRecents(account: string) returns (r: Reply<seq<Recent>>)
      ensures r == if Files(account).recents.Holds? then Ok(Recents(Files(account).recents.records)) else Error
    {
      var file := Files(account).recents;
      if !file.Holds? {
        return Error;
      }
      var recents: seq<Recent> := [];
      for i := 0 to |file.records|
        invariant |recents| == i && forall k :: 0 <= k < i ==> recents[k] == ElementToRecent(file.records[k])
      {
        recents := recents + [ElementToRecent(file.records[i])];
      }
      assert recents == Recents(file.records);
      r := Ok(recents);
    }

    method SaveRecents(account: string, recents: seq<Recent>, diskOk: bool) returns (ok: bool)
      modifies this
      ensures ok == diskOk
      ensures accounts == if diskOk
                          then old(accounts)[account := old(Files(account)).(recents := Holds(RecentElements(recents)))]
                          else old(accounts)
    {
      var es: seq<RecentElement> := [];
      for i := 0 to |recents|
        invariant |es| == i && forall k :: 0 <= k < i ==> es[k] == RecentToElement(recents[k])
        invariant accounts == old(accounts)
      {
        es := es + [RecentToElement(recents[i])];
      }
      if diskOk {
        assert es == RecentElements(recents);
        accounts := accounts[account := Files(account).(recents := Holds(es))];
      }
      ok := diskOk;
    }

    method GetConfiguredSources(account: string) returns (r: Reply<seq<ConfiguredSource>>)
      ensures r == if Files(account).sources.Holds? then Ok(LoadSources(Files(account).sources.records)) else Error
    {
      var file := Files(account).sources;
      if !file.Holds? {
        return Error;
      }
      var sources := DecodeSources(file.records);
      r := Ok(sources);
    }

    method SaveConfiguredSources(account: string, sources: seq<ConfiguredSource>, diskOk: bool) returns (a: Answer)
      modifies this
      ensures a == AnswerTo(old(Files(account)), PutSources(sources, diskOk))
      ensures Files(account) == Apply(old(Files(account)), PutSources(sources, diskOk))
      ensures forall other :: other != account ==> Files(other) == old(Files(other))
    {
      var es := EncodeSources(sources);
      if !diskOk {
        return Rejected;
      }
      accounts := accounts[account := Files(account).(sources := Holds(es))];
      a := Stored;
    }
  }
}
