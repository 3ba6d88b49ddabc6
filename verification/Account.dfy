/** One account's files and the requests that change them. `Apply` is the whole effect of a request,
    including the failing ones; the theorems are about every sequence of requests. */
module Account {
  import opened Common
  import opened Numerals
  import opened Records
  import opened Sources
  import opened Recency
  import opened RecentList
  import opened PresetSlots

  datatype AccountFiles = AccountFiles(
    sources: File<SourceElement>, presets: File<PresetElement>, recents: File<RecentElement>)

  const NO_FILES := AccountFiles(Absent, Absent, Absent)

  /** A request with what it meets: a decoded body (`None` when it is not valid XML), the clock, and
      whether the final file write succeeds. */
  datatype Request =
    | PostPreset(number: int, preset: Option<PresetBody>, now: int, diskOk: bool)
    | PostRecent(device: string, recent: Option<RecentBody>, now: int, diskOk: bool)
    | PutSources(sources: seq<ConfiguredSource>, diskOk: bool)

  datatype Answer =
    | PresetAnswer(preset: Preset, presetSource: ConfiguredSource)
    | RecentAnswer(id: string, kind: string, location: string, name: string,
                   recentSource: ConfiguredSource, lastPlayed: int)
    | Stored
    | Rejected
    | Panicked

  function SourceFor(f: AccountFiles, id: string): Option<ConfiguredSource> {
    if !f.sources.Holds? then None
    else
      var ss := LoadSources(f.sources.records);
      if FindById(ss, id) < |ss| then Some(ss[FindById(ss, id)]) else None
  }

  /** The preset a request is about to store, when the request is well formed. */
  function PresetFor(f: AccountFiles, r: Request): Option<Preset>
    requires r.PostPreset?
  {
    if f.presets.Holds? && r.preset.Some? && SourceFor(f, r.preset.value.sourceId).Some? then
      Some(NewPreset(r.number, r.preset.value, SourceFor(f, r.preset.value.sourceId).value, r.now))
    else None
  }

  predicate PresetAccepted(f: AccountFiles, r: Request)
    requires r.PostPreset?
  {
    PresetFor(f, r).Some? && r.number >= 1 && r.diskOk
  }

  /** Whether a recents request is well formed: the list is rewritten, if the disk lets it. */
  predicate RecentReady(f: AccountFiles, r: Request)
    requires r.PostRecent?
  {
    f.recents.Holds? && r.recent.Some? && SourceFor(f, r.recent.value.sourceId).Some?
  }

  predicate RecentAccepted(f: AccountFiles, r: Request)
    requires r.PostRecent?
  {
    RecentReady(f, r) && r.diskOk
  }

  function NewList(f: AccountFiles, r: Request): seq<Recent>
    requires r.PostRecent? && RecentReady(f, r)
  {
    AddToList(Recents(f.recents.records), r.recent.value, SourceFor(f, r.recent.value.sourceId).value,
              r.device, PlayTime(r.recent.value, r.now))
  }

  function Apply(f: AccountFiles, r: Request): AccountFiles {
    match r
    case PostPreset(number, _, _, _) =>
      if PresetAccepted(f, r) then
        f.(presets := Holds(StoreSlot(f.presets.records, number, PresetFor(f, r).value)))
      else f
    case PostRecent(_, _, _, _) =>
      if RecentAccepted(f, r) then f.(recents := Holds(RecentElements(NewList(f, r)))) else f
    case PutSources(sources, diskOk) =>
      if diskOk then f.(sources := Holds(SourceElements(sources))) else f
  }

  /** The entry the response to a recents request describes. On a hit it is whatever the shift left in
      the old slot of the entry, because the pointer into the old array is dereferenced again. */
  function AnsweredEntry(rs: seq<Recent>, body: RecentBody, src: ConfiguredSource, device: string, time: int): Recent {
    var i := FindRecent(rs, RequestKey(body, src));
    if i < |rs| then Shifted(rs[i := rs[i].(utcTime := Itoa(time))], i)[i]
    else NewRecent(rs, body, src, device, time)
  }

  function AnswerTo(f: AccountFiles, r: Request): Answer {
    match r
    case PostPreset(number, body, _, diskOk) =>
      if PresetFor(f, r).None? then Rejected
      else if number < 1 then Panicked
      else if !diskOk then Rejected
      else PresetAnswer(PresetFor(f, r).value, SourceFor(f, body.value.sourceId).value)
    case PostRecent(device, body, now, _) =>
      if !RecentAccepted(f, r) then Rejected
      else
        var src, time := SourceFor(f, body.value.sourceId).value, PlayTime(body.value, now);
        var e := AnsweredEntry(Recents(f.recents.records), body.value, src, device, time);
        RecentAnswer(e.item.id, e.item.kind, e.item.location, e.item.name, src, time)
    case PutSources(_, diskOk) => if diskOk then Stored else Rejected
  }

  function Run(f: AccountFiles, rs: seq<Request>): AccountFiles {
    if rs == [] then f else Apply(Run(f, rs[..|rs| - 1]), rs[|rs| - 1])
  }

  // ---------- recents over whole runs ----------

  /** What a request adds to the history of accepted recents requests: a play, or nothing. */
  function PlayedBy(g: AccountFiles, r: Request): seq<Play<Key, string>> {
    if r.PostRecent? && RecentAccepted(g, r) then
      [PlayOf(r.recent.value, SourceFor(g, r.recent.value.sourceId).value, PlayTime(r.recent.value, r.now))]
    else []
  }

  function History(f: AccountFiles, rs: seq<Request>): seq<Play<Key, string>> {
    if rs == [] then []
    else History(f, rs[..|rs| - 1]) + PlayedBy(Run(f, rs[..|rs| - 1]), rs[|rs| - 1])
  }

  /** The source id an accepted recents request named. */
  function NamedBy(g: AccountFiles, r: Request): seq<string> {
    if r.PostRecent? && RecentAccepted(g, r) then [r.recent.value.sourceId] else []
  }

  function SourceIds(f: AccountFiles, rs: seq<Request>): (ids: seq<string>)
    ensures |ids| == |History(f, rs)|
  {
    if rs == [] then []
    else SourceIds(f, rs[..|rs| - 1]) + NamedBy(Run(f, rs[..|rs| - 1]), rs[|rs| - 1])
  }

  /** Saving and loading keeps what the list properties speak about. */
  lemma StoredColumns(rs: seq<Recent>)
    ensures var rs' := Recents(RecentElements(rs));
      Plays(rs') == Plays(rs) && Keys(rs') == Keys(rs) && Ids(rs') == Ids(rs) && IdValues(rs') == IdValues(rs)
  {
  }

  /** The stored list is the ten-prefix of the unbounded list of a history. */
  ghost predicate HoldsPrefix(g: AccountFiles, history: seq<Play<Key, string>>) {
    g.recents.Holds? && Plays(Recents(g.recents.records)) == Truncated(Unbounded(history))
  }

  lemma ApplyKeepsPrefix(g: AccountFiles, r: Request, history: seq<Play<Key, string>>)
    requires HoldsPrefix(g, history)
    ensures HoldsPrefix(Apply(g, r), history + PlayedBy(g, r))
  {
    if r.PostRecent? && RecentAccepted(g, r) {
      var body := r.recent.value;
      StoredColumns(NewList(g, r));
      AddKeepsPrefix(Recents(g.recents.records), history, body, SourceFor(g, body.sourceId).value,
                     r.device, PlayTime(body, r.now));
    } else {
      assert history + PlayedBy(g, r) == history;
    }
  }

  function StoredRecents(f: AccountFiles): seq<Recent> {
    if f.recents.Holds? then Recents(f.recents.records) else []
  }

  /** A list the server can have left behind: at most ten entries of different keys. */
  ghost predicate Tidy(f: AccountFiles) {
    f.recents.Holds? && |f.recents.records| <= CAPACITY && NoDuplicates(Keys(Recents(f.recents.records)))
  }

  /** The requests that the list at the start of a run stands for, its last entry requested first. */
  function Earlier(f: AccountFiles): seq<Play<Key, string>> {
    Backwards(Plays(StoredRecents(f)))
  }

  /** The requests for the recents of an account, before the run and in it. */
  function WholeHistory(f: AccountFiles, rs: seq<Request>): seq<Play<Key, string>> {
    Earlier(f) + History(f, rs)
  }

  lemma {:induction false} RunKeepsPrefix(f: AccountFiles, rs: seq<Request>)
    requires Tidy(f)
    ensures HoldsPrefix(Run(f, rs), WholeHistory(f, rs))
  {
    if rs == [] {
      var ps := Plays(StoredRecents(f));
      assert forall i :: 0 <= i < |ps| ==> ps[i].key == Keys(StoredRecents(f))[i];
      UnboundedBackwards(ps);
      assert Earlier(f) + [] == Earlier(f);
    } else {
      var before := rs[..|rs| - 1];
      RunKeepsPrefix(f, before);
      ApplyKeepsPrefix(Run(f, before), rs[|rs| - 1], WholeHistory(f, before));
      assert WholeHistory(f, rs) == WholeHistory(f, before) + PlayedBy(Run(f, before), rs[|rs| - 1]);
    }
  }

  /** Starting from any list of at most ten different keys, read as the requests that left it behind:
      after every sequence of requests the stored recents are exactly the ten most recently requested
      keys, most recent first, each with the time of its latest request; rejected requests and requests
      for other files in between do not matter. */
  lemma {:induction false} RecentsAreTenMostRecent(f: AccountFiles, rs: seq<Request>)
    requires Tidy(f)
    ensures Run(f, rs).recents.Holds?
    ensures IsTenMostRecent(Plays(Recents(Run(f, rs).recents.records)), WholeHistory(f, rs))
  {
    RunKeepsPrefix(f, rs);
    PrefixIsTenMostRecent(WholeHistory(f, rs));
  }

  /** The id a request issues, if it does, as the value it parses to. */
  function IssuedBy(g: AccountFiles, r: Request): seq<Option<int>> {
    if r.PostRecent? && RecentAccepted(g, r)
       && !Hit(Recents(g.recents.records), r.recent.value, SourceFor(g, r.recent.value.sourceId).value)
    then [Atoi(IssuedId(Recents(g.recents.records)))]
    else []
  }

  function Issued(f: AccountFiles, rs: seq<Request>): seq<Option<int>> {
    if rs == [] then []
    else Issued(f, rs[..|rs| - 1]) + IssuedBy(Run(f, rs[..|rs| - 1]), rs[|rs| - 1])
  }

  /** The values are from + 1, from + 2, ..., to, without gaps. */
  ghost predicate Consecutive(issued: seq<Option<int>>, from: nat, to: nat) {
    to == from + |issued| && forall k :: 0 <= k < |issued| ==> issued[k] == Some(from + k + 1)
  }

  /** How a list relates to the list `start` a run began with, after the ids `issued`. */
  ghost predicate IdsSound(start: seq<Recent>, rs: seq<Recent>, issued: seq<Option<int>>) {
    && Consecutive(issued, MaxId(start), MaxId(rs))
    && StaysDistinct(start, rs)
    && (|issued| > 0 || |start| <= CAPACITY ==> |rs| <= CAPACITY)
  }

  /** Over any run, from any stored list, with ids below the integer limit: the issued ids are
      consecutive from the starting maximum, so none is issued twice although entries are evicted, and
      the maximum never decreases; distinct ids and distinct keys stay distinct; and once an id has
      been issued the list never exceeds ten entries. */
  lemma {:induction false} IdsOverRuns(f: AccountFiles, rs: seq<Request>)
    requires MaxId(StoredRecents(f)) + |Issued(f, rs)| <= MAX_INT64
    ensures IdsSound(StoredRecents(f), StoredRecents(Run(f, rs)), Issued(f, rs))
  {
    if rs != [] {
      var before := rs[..|rs| - 1];
      IdsOverRuns(f, before);
      ApplyKeepsIdsSound(StoredRecents(f), Run(f, before), rs[|rs| - 1], Issued(f, before));
    }
  }

  lemma ApplyKeepsIdsSound(start: seq<Recent>, g: AccountFiles, r: Request, issued: seq<Option<int>>)
    requires IdsSound(start, StoredRecents(g), issued)
    requires MaxId(start) + |issued + IssuedBy(g, r)| <= MAX_INT64
    ensures IdsSound(start, StoredRecents(Apply(g, r)), issued + IssuedBy(g, r))
  {
    if r.PostRecent? && RecentAccepted(g, r) {
      NewListIdsSound(start, g, r, issued);
      StoredColumns(NewList(g, r));
      SameColumnsSound(start, NewList(g, r), StoredRecents(Apply(g, r)), issued + IssuedBy(g, r));
    } else {
      assert issued + IssuedBy(g, r) == issued;
    }
  }

  lemma NewListIdsSound(start: seq<Recent>, g: AccountFiles, r: Request, issued: seq<Option<int>>)
    requires r.PostRecent? && RecentAccepted(g, r) && IdsSound(start, StoredRecents(g), issued)
    requires MaxId(start) + |issued + IssuedBy(g, r)| <= MAX_INT64
    ensures IdsSound(start, NewList(g, r), issued + IssuedBy(g, r))
  {
    var body := r.recent.value;
    IdStep(start, StoredRecents(g), issued, body, SourceFor(g, body.sourceId).value, r.device, PlayTime(body, r.now));
  }

  lemma IdStep(start: seq<Recent>, rs: seq<Recent>, issued: seq<Option<int>>,
               body: RecentBody, src: ConfiguredSource, device: string, time: int)
    requires IdsSound(start, rs, issued)
    requires Hit(rs, body, src) || MaxId(rs) < MAX_INT64
    ensures IdsSound(start, AddToList(rs, body, src, device, time),
                     issued + if Hit(rs, body, src) then [] else [Atoi(IssuedId(rs))])
  {
    AddMovesMaxId(rs, body, src, device, time);
    AddKeepsDistinct(rs, body, src, device, time);
    IssuedIdValue(rs);
    SoundStep(start, rs, AddToList(rs, body, src, device, time), issued, Hit(rs, body, src));
  }

  lemma SoundStep(start: seq<Recent>, rs: seq<Recent>, rs': seq<Recent>, issued: seq<Option<int>>, hit: bool)
    requires IdsSound(start, rs, issued) && StaysDistinct(rs, rs')
    requires MaxId(rs') == MaxId(rs) + if hit then 0 else 1
    requires !hit || |rs| <= CAPACITY ==> |rs'| <= CAPACITY
    ensures IdsSound(start, rs', issued + if hit then [] else [Some(MaxId(rs) + 1)])
  {
    ConsecutiveStep(issued, MaxId(start), MaxId(rs));
    DistinctStep(start, rs, rs');
    assert issued + [] == issued;
  }

  lemma DistinctStep(start: seq<Recent>, rs: seq<Recent>, rs': seq<Recent>)
    requires StaysDistinct(start, rs) && StaysDistinct(rs, rs')
    ensures StaysDistinct(start, rs')
  {
  }

  lemma ConsecutiveStep(issued: seq<Option<int>>, from: nat, to: nat)
    requires Consecutive(issued, from, to)
    ensures Consecutive(issued + [Some(to + 1)], from, to + 1)
  {
  }

  lemma SameColumnsSound(start: seq<Recent>, rs: seq<Recent>, rs': seq<Recent>, issued: seq<Option<int>>)
    requires IdsSound(start, rs, issued)
    requires Ids(rs) == Ids(rs') && Keys(rs) == Keys(rs') && IdValues(rs) == IdValues(rs')
    ensures IdsSound(start, rs', issued)
  {
    assert |rs| == |Ids(rs)| == |rs'|;
  }

  // ---------- the response to a recents request ----------

  /** With distinct ids, the response names the entry now at the front exactly when the request missed
      or hit the last entry: on any other hit it names the entry's old successor. */
  lemma {:induction false} AnswerNamesFrontIff(rs: seq<Recent>, body: RecentBody, src: ConfiguredSource, device: string, time: int)
    requires NoDuplicates(Ids(rs))
    ensures var i := FindRecent(rs, RequestKey(body, src));
      AnsweredEntry(rs, body, src, device, time).item.id == AddToList(rs, body, src, device, time)[0].item.id
      <==> i >= |rs| - 1
  {
    var i := FindRecent(rs, RequestKey(body, src));
    if i < |rs| {
      SlotAfterShift(rs[i := rs[i].(utcTime := Itoa(time))], i);
      if i + 1 < |rs| {
        assert Ids(rs)[i] != Ids(rs)[i + 1];
      }
    }
  }

  lemma SlotAfterShift<T>(s: seq<T>, i: nat)
    requires i < |s|
    ensures Shifted(s, i)[i] == if i == |s| - 1 then s[i] else s[i + 1]
    ensures MoveToFront(s, i)[0] == s[i]
  {
  }

  // ---------- presets over whole runs ----------

  /** The slot write of an accepted preset request, if it is one. */
  function WrittenBy(g: AccountFiles, r: Request): seq<SlotWrite> {
    if r.PostPreset? && PresetAccepted(g, r) then
      [SlotWrite(r.number, PresetToElement(PresetFor(g, r).value), r.preset.value.sourceId)]
    else []
  }

  function PresetWrites(f: AccountFiles, rs: seq<Request>): seq<SlotWrite> {
    if rs == [] then []
    else PresetWrites(f, rs[..|rs| - 1]) + WrittenBy(Run(f, rs[..|rs| - 1]), rs[|rs| - 1])
  }

  ghost predicate HoldsSlots(g: AccountFiles, es: seq<PresetElement>, ws: seq<SlotWrite>) {
    g.presets.Holds? && IsSlotList(g.presets.records, es, ws)
  }

  lemma ApplyKeepsSlots(g: AccountFiles, r: Request, es: seq<PresetElement>, ws: seq<SlotWrite>)
    requires HoldsSlots(g, es, ws)
    ensures HoldsSlots(Apply(g, r), es, ws + WrittenBy(g, r))
  {
    if r.PostPreset? && PresetAccepted(g, r) {
      StoreKeepsSlotList(g.presets.records, es, ws, r.number, PresetFor(g, r).value, r.preset.value.sourceId);
    } else {
      assert ws + WrittenBy(g, r) == ws;
    }
  }

  /** After every sequence of requests the stored presets are the slot-to-last-write map: the length is
      the larger of the old length and the numbers used, written slots hold their last write,
      untouched ones their normalised old record, and gaps are blank. */
  lemma {:induction false} PresetsAreLastWrites(f: AccountFiles, rs: seq<Request>)
    requires f.presets.Holds?
    ensures HoldsSlots(Run(f, rs), f.presets.records, PresetWrites(f, rs))
  {
    if rs != [] {
      var before := rs[..|rs| - 1];
      PresetsAreLastWrites(f, before);
      ApplyKeepsSlots(Run(f, before), rs[|rs| - 1], f.presets.records, PresetWrites(f, before));
    }
  }

  /** If every entry with an id sat in its slot at the start, it always does. */
  lemma {:induction false} IdsMatchSlotsForever(f: AccountFiles, rs: seq<Request>)
    requires f.presets.Holds? && IdsMatchSlots(f.presets.records)
    ensures Run(f, rs).presets.Holds? && IdsMatchSlots(Run(f, rs).presets.records)
  {
    if rs != [] {
      var before, r := rs[..|rs| - 1], rs[|rs| - 1];
      IdsMatchSlotsForever(f, before);
      var g := Run(f, before);
      if r.PostPreset? && PresetAccepted(g, r) {
        StoreSlotShape(g.presets.records, r.number, PresetFor(g, r).value);
      }
    }
  }

  /** Preset requests for different slots commute, whatever becomes of each of them, and so do a
      preset request and a recents request. */
  lemma {:induction false} RequestsCommute(f: AccountFiles, a: Request, b: Request)
    requires a.PostPreset?
    requires (b.PostPreset? && a.number != b.number) || b.PostRecent?
    ensures Apply(Apply(f, a), b) == Apply(Apply(f, b), a)
    ensures AnswerTo(Apply(f, a), b) == AnswerTo(f, b)
  {
    if b.PostPreset? {
      PresetForStays(f, a, b);
      PresetForStays(f, b, a);
      if PresetAccepted(f, a) && PresetAccepted(f, b) {
        SlotsCommute(f.presets.records, a.number, PresetFor(f, a).value, b.number, PresetFor(f, b).value);
      }
    }
  }

  lemma PresetForStays(f: AccountFiles, a: Request, b: Request)
    requires a.PostPreset? && b.PostPreset?
    ensures Apply(f, a).sources == f.sources && PresetFor(Apply(f, a), b) == PresetFor(f, b)
  {
  }

  // ---------- sources of stored items ----------

  predicate KeepsSources(rs: seq<Request>) {
    forall k :: 0 <= k < |rs| ==> !rs[k].PutSources?
  }

  lemma {:induction false} SourcesStay(f: AccountFiles, rs: seq<Request>)
    requires KeepsSources(rs)
    ensures Run(f, rs).sources == f.sources
  {
    if rs != [] {
      SourcesStay(f, rs[..|rs| - 1]);
    }
  }

  /** The source a play came from, by the id its request named. */
  ghost predicate FromSource(ss: seq<ConfiguredSource>, id: string, key: Key) {
    FindById(ss, id) < |ss|
    && key.source == ss[FindById(ss, id)].sourceKeyType && key.account == ss[FindById(ss, id)].sourceKeyAccount
  }

  lemma {:induction false} HistoryFromSources(f: AccountFiles, rs: seq<Request>)
    requires f.sources.Holds? && KeepsSources(rs)
    ensures forall n :: 0 <= n < |History(f, rs)| ==>
      FromSource(LoadSources(f.sources.records), SourceIds(f, rs)[n], History(f, rs)[n].key)
  {
    if rs != [] {
      var before := rs[..|rs| - 1];
      HistoryFromSources(f, before);
      SourcesStay(f, before);
    }
  }

  /** The k-th recent is listed under the source that its latest request in the run named. */
  ghost predicate ListedAsRequested(f: AccountFiles, rs: seq<Request>, k: nat) {
    && f.sources.Holds? && k < |StoredRecents(Run(f, rs))|
    && var ss, entry := LoadSources(f.sources.records), StoredRecents(Run(f, rs))[k];
    var n := LastAt(History(f, rs), KeyOf(entry));
    n > 0 && FindById(ss, SourceIds(f, rs)[n - 1]) < |ss|
    && FindListed(ss, entry.item) == FindById(ss, SourceIds(f, rs)[n - 1])
  }

  /** While the configured sources keep pairwise distinct (type, account) pairs, a listing shows every
      recent that the run requested under the source that the id of its latest request resolved to,
      although that id is not stored; whatever recents the account had when the run began. */
  lemma {:induction false} RecentsListedUnderRequestedSource(f: AccountFiles, rs: seq<Request>, k: nat)
    requires f.sources.Holds? && KeepsSources(rs)
    requires DistinctPairs(LoadSources(f.sources.records))
    requires k < |StoredRecents(Run(f, rs))|
    requires LastAt(History(f, rs), KeyOf(StoredRecents(Run(f, rs))[k])) > 0
    ensures ListedAsRequested(f, rs, k)
  {
    HistoryFromSources(f, rs);
    var ss, entry := LoadSources(f.sources.records), StoredRecents(Run(f, rs))[k];
    var n := LastAt(History(f, rs), KeyOf(entry));
    assert FromSource(ss, SourceIds(f, rs)[n - 1], History(f, rs)[n - 1].key);
    ListedUnderItsSource(f.sources.records, entry.item, FindById(ss, SourceIds(f, rs)[n - 1]));
  }

  /** From an empty list that is every recent. */
  lemma {:induction false} AllRecentsListedUnderRequestedSource(f: AccountFiles, rs: seq<Request>, k: nat)
    requires f.recents == Holds([]) && f.sources.Holds? && KeepsSources(rs)
    requires DistinctPairs(LoadSources(f.sources.records))
    requires k < |StoredRecents(Run(f, rs))|
    ensures ListedAsRequested(f, rs, k)
  {
    RecentsAreTenMostRecent(f, rs);
    assert Earlier(f) == [] && WholeHistory(f, rs) == History(f, rs);
    var entry := StoredRecents(Run(f, rs))[k];
    assert Plays(StoredRecents(Run(f, rs)))[k] == Play(KeyOf(entry), entry.utcTime);
    assert Latest(Play(KeyOf(entry), entry.utcTime), History(f, rs));
    RecentsListedUnderRequestedSource(f, rs, k);
  }

  lemma {:induction false} WritesFromSources(f: AccountFiles, rs: seq<Request>)
    requires f.sources.Holds? && KeepsSources(rs)
    ensures forall n :: 0 <= n < |PresetWrites(f, rs)| ==>
      var w := PresetWrites(f, rs)[n];
      FromSource(LoadSources(f.sources.records), w.sourceId,
                 Key(w.element.content.source, w.element.content.sourceAccount, w.element.content.location))
  {
    if rs != [] {
      var before := rs[..|rs| - 1];
      WritesFromSources(f, before);
      SourcesStay(f, before);
    }
  }

  /** The same for presets: a written slot is listed under the source its last update named. */
  lemma {:induction false} PresetsListedUnderRequestedSource(f: AccountFiles, rs: seq<Request>, k: nat)
    requires f.presets.Holds? && f.sources.Holds? && KeepsSources(rs)
    requires DistinctPairs(LoadSources(f.sources.records))
    requires LastWrite(PresetWrites(f, rs), k + 1) > 0
    ensures var ss, ws := LoadSources(f.sources.records), PresetWrites(f, rs);
      var id := ws[LastWrite(ws, k + 1) - 1].sourceId;
      && Run(f, rs).presets.Holds? && k < |Run(f, rs).presets.records|
      && FindById(ss, id) < |ss|
      && FindListed(ss, Presets(Run(f, rs).presets.records)[k].item) == FindById(ss, id)
  {
    PresetsAreLastWrites(f, rs);
    WritesFromSources(f, rs);
    var ss, ws := LoadSources(f.sources.records), PresetWrites(f, rs);
    var n := LastWrite(ws, k + 1) - 1;
    assert ws[n].number == k + 1 <= LargestNumber(ws);
    var e := Run(f, rs).presets.records[k];
    assert e == ws[n].element;
    ListedUnderItsSource(f.sources.records, ElementToPreset(e).item, FindById(ss, ws[n].sourceId));
  }
}
