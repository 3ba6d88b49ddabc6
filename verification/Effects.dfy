/** What one preset or recents request does to the stored records and answers, field by field, said
    without the functions that compute it. */
module RequestEffects {
  import opened Common
  import opened Numerals
  import opened Records
  import opened Sources
  import opened Recency
  import opened RecentList
  import opened PresetSlots
  import opened Account

  /** The id names the source: the first one loaded with that id. */
  ghost predicate Names(f: AccountFiles, id: string, src: ConfiguredSource) {
    f.sources.Holds? && src.id == id
    && exists i :: 0 <= i < |f.sources.records| && LoadSources(f.sources.records)[i] == src
         && forall k :: 0 <= k < i ==> LoadSources(f.sources.records)[k].id != id
  }

  lemma NamedIsFound(f: AccountFiles, id: string, src: ConfiguredSource)
    ensures Names(f, id, src) <==> SourceFor(f, id) == Some(src)
  {
    if f.sources.Holds? {
      var ss := LoadSources(f.sources.records);
      assert FindById(ss, id) < |ss| ==> ss[FindById(ss, id)].id == id;
    }
  }

  ghost predicate NamesSome(f: AccountFiles, id: string) {
    exists src :: Names(f, id, src)
  }

  lemma NamesSomeIff(f: AccountFiles, id: string)
    ensures NamesSome(f, id) <==> SourceFor(f, id).Some?
  {
    if SourceFor(f, id).Some? {
      NamedIsFound(f, id, SourceFor(f, id).value);
    }
    if src :| Names(f, id, src) {
      NamedIsFound(f, id, src);
    }
  }

  // ---------- presets ----------

  ghost predicate PresetWellFormed(f: AccountFiles, r: Request) {
    r.PostPreset? && f.presets.Holds? && r.preset.Some? && NamesSome(f, r.preset.value.sourceId)
  }

  /** The record in the slot of an accepted preset request is the request's. */
  lemma {:induction false} PresetStored(f: AccountFiles, r: Request, src: ConfiguredSource)
    requires PresetWellFormed(f, r) && Names(f, r.preset.value.sourceId, src) && r.number >= 1 && r.diskOk
    ensures Apply(f, r).presets.Holds? && r.number <= |Apply(f, r).presets.records|
    ensures var e, body := Apply(f, r).presets.records[r.number - 1], r.preset.value;
      && e.id == Itoa(r.number) && e.createdOn == Itoa(r.now) && e.updatedOn == Itoa(r.now)
      && e.content.itemName == body.name && e.content.location == body.location
      && e.content.kind == body.kind && e.content.containerArt == body.containerArt
      && e.content.source == src.sourceKeyType && e.content.sourceAccount == src.sourceKeyAccount
      && e.content.isPresetable == "true"
  {
    NamedIsFound(f, r.preset.value.sourceId, src);
    StoreSlotShape(f.presets.records, r.number, PresetFor(f, r).value);
  }

  /** The other slots keep what they hold and are marked presetable, gaps are blank, and no other file
      changes. */
  lemma {:induction false} OtherSlots(f: AccountFiles, r: Request)
    requires PresetWellFormed(f, r) && r.number >= 1 && r.diskOk
    ensures Apply(f, r).presets.Holds?
    ensures var es, es' := f.presets.records, Apply(f, r).presets.records;
      && |es'| == (if |es| < r.number then r.number else |es|)
      && forall k :: 0 <= k < |es'| && k != r.number - 1 ==>
           es'[k] == if k < |es| then es[k].(content := es[k].content.(isPresetable := "true"))
                     else PresetElement("", "", "", ContentElement("", "", "", "", "true", "", ""))
    ensures Apply(f, r).recents == f.recents && Apply(f, r).sources == f.sources
  {
    NamesSomeIff(f, r.preset.value.sourceId);
    StoreSlotShape(f.presets.records, r.number, PresetFor(f, r).value);
  }

  /** The answer shows the request's fields and the source it named. */
  lemma {:induction false} PresetAnswered(f: AccountFiles, r: Request, src: ConfiguredSource)
    requires PresetWellFormed(f, r) && Names(f, r.preset.value.sourceId, src) && r.number >= 1 && r.diskOk
    ensures var a, body := AnswerTo(f, r), r.preset.value;
      && a.PresetAnswer? && a.presetSource == src && a.preset.item.id == Itoa(r.number)
      && a.preset.item.name == body.name && a.preset.item.location == body.location
      && a.preset.item.kind == body.kind && a.preset.containerArt == body.containerArt
  {
    NamedIsFound(f, r.preset.value.sourceId, src);
  }

  /** Which preset requests are refused: the malformed ones and those the disk refuses; one with a number
      below 1 panics. None of them changes anything. */
  lemma {:induction false} PresetRefusedIff(f: AccountFiles, r: Request)
    requires r.PostPreset?
    ensures AnswerTo(f, r).Panicked? <==> PresetWellFormed(f, r) && r.number < 1
    ensures AnswerTo(f, r).Rejected? <==> !PresetWellFormed(f, r) || (r.number >= 1 && !r.diskOk)
    ensures AnswerTo(f, r).Panicked? || AnswerTo(f, r).Rejected? ==> Apply(f, r) == f
  {
    if r.preset.Some? {
      NamesSomeIff(f, r.preset.value.sourceId);
    }
  }

  // ---------- recents ----------

  ghost predicate RecentWellFormed(f: AccountFiles, r: Request) {
    r.PostRecent? && f.recents.Holds? && r.recent.Some? && NamesSome(f, r.recent.value.sourceId)
  }

  /** The moment the request gives, or the clock's when it gives none that parses. */
  predicate PlayedAt(r: Request, t: int)
    requires r.PostRecent? && r.recent.Some?
  {
    match r.recent.value.lastPlayedAt
    case Some(given) => t == given
    case None => t == r.now
  }

  /** The record is of the content the request plays. */
  predicate SameContent(e: RecentElement, body: RecentBody, src: ConfiguredSource) {
    e.content.source == src.sourceKeyType && e.content.sourceAccount == src.sourceKeyAccount
    && e.content.location == body.location
  }

  /** A record written back as it was loaded. */
  predicate WrittenBack(e': RecentElement, e: RecentElement) {
    e' == if e.content.isPresetable == "" then e.(content := e.content.(isPresetable := "true")) else e
  }

  ghost predicate Accepts(f: AccountFiles, r: Request, src: ConfiguredSource, t: int) {
    RecentWellFormed(f, r) && Names(f, r.recent.value.sourceId, src) && r.diskOk && PlayedAt(r, t)
  }

  lemma FoundIffSame(f: AccountFiles, body: RecentBody, src: ConfiguredSource)
    requires f.recents.Holds?
    ensures var es, i := f.recents.records, FindRecent(Recents(f.recents.records), RequestKey(body, src));
      && i <= |es| && (forall k :: 0 <= k < i ==> !SameContent(es[k], body, src))
      && (i < |es| ==> SameContent(es[i], body, src))
  {
    var es := f.recents.records;
    forall k | 0 <= k < |es|
      ensures KeyOf(Recents(es)[k]) == RequestKey(body, src) <==> SameContent(es[k], body, src)
    {
    }
  }

  lemma AcceptedMeans(f: AccountFiles, r: Request, src: ConfiguredSource, t: int)
    requires Accepts(f, r, src, t)
    ensures RecentAccepted(f, r) && SourceFor(f, r.recent.value.sourceId) == Some(src)
    ensures Apply(f, r) == f.(recents := Holds(RecentElements(AddToList(Recents(f.recents.records), r.recent.value, src, r.device, t))))
  {
    NamedIsFound(f, r.recent.value.sourceId, src);
  }

  lemma TripWritesBack(e: RecentElement)
    ensures WrittenBack(RecentToElement(ElementToRecent(e)), e)
  {
  }

  function Readded(es: seq<RecentElement>, body: RecentBody, src: ConfiguredSource, device: string, t: int): seq<RecentElement> {
    RecentElements(AddToList(Recents(es), body, src, device, t))
  }

  lemma MissShape(es: seq<RecentElement>, body: RecentBody, src: ConfiguredSource, device: string, t: int)
    requires FindRecent(Recents(es), RequestKey(body, src)) == |es|
    ensures var es' := Readded(es, body, src, device, t);
      && |es'| == (if |es| < 10 then |es| + 1 else 10)
      && es'[0] == RecentToElement(NewRecent(Recents(es), body, src, device, t))
      && forall k :: 1 <= k < |es'| ==> es'[k] == RecentToElement(ElementToRecent(es[k - 1]))
  {
    var rs := Recents(es);
    var all := [NewRecent(rs, body, src, device, t)] + rs;
    assert AddToList(rs, body, src, device, t) == Truncated(all);
    assert forall k :: 1 <= k < |all| ==> all[k] == ElementToRecent(es[k - 1]);
  }

  lemma HitShape(es: seq<RecentElement>, body: RecentBody, src: ConfiguredSource, device: string, t: int, i: nat)
    requires i < |es| && FindRecent(Recents(es), RequestKey(body, src)) == i
    ensures var es' := Readded(es, body, src, device, t);
      && |es'| == |es|
      && es'[0] == RecentToElement(ElementToRecent(es[i].(utcTime := Itoa(t))))
      && (forall k :: 0 <= k < i ==> es'[k + 1] == RecentToElement(ElementToRecent(es[k])))
      && forall k :: i < k < |es| ==> es'[k] == RecentToElement(ElementToRecent(es[k]))
  {
    var timed := es[i := es[i].(utcTime := Itoa(t))];
    TimedElement(es, i, Itoa(t));
    AddOnHit(Recents(es), body, src, device, t);
    MovedElements(timed, i);
  }

  lemma AddOnHit(rs: seq<Recent>, body: RecentBody, src: ConfiguredSource, device: string, t: int)
    requires Hit(rs, body, src)
    ensures var i := FindRecent(rs, RequestKey(body, src));
      AddToList(rs, body, src, device, t) == MoveToFront(rs[i := rs[i].(utcTime := Itoa(t))], i)
  {
  }

  lemma TimedElement(es: seq<RecentElement>, i: nat, time: string)
    requires i < |es|
    ensures Recents(es[i := es[i].(utcTime := time)]) == Recents(es)[i := Recents(es)[i].(utcTime := time)]
  {
  }

  lemma MovedElements(es: seq<RecentElement>, i: nat)
    requires i < |es|
    ensures var es' := RecentElements(MoveToFront(Recents(es), i));
      && |es'| == |es| && es'[0] == RecentToElement(ElementToRecent(es[i]))
      && (forall k :: 0 <= k < i ==> es'[k + 1] == RecentToElement(ElementToRecent(es[k])))
      && forall k :: i < k < |es| ==> es'[k] == RecentToElement(ElementToRecent(es[k]))
  {
    MoveToFrontPermutes(Recents(es), i);
  }

  /** A record that a request for new content makes. */
  predicate MadeBy(e: RecentElement, r: Request, src: ConfiguredSource, t: int)
    requires r.PostRecent? && r.recent.Some?
  {
    var body := r.recent.value;
    && e.utcTime == Itoa(t) && e.deviceId == r.device
    && e.content.itemName == body.name && e.content.location == body.location && e.content.kind == body.kind
    && e.content.source == src.sourceKeyType && e.content.sourceAccount == src.sourceKeyAccount
    && e.content.isPresetable == "true" && e.content.containerArt == ""
  }

  /** Content the list does not hold: the record in front is the request's, with the given time or the
      clock's, and the rest follows, cut to ten. */
  lemma {:induction false} NewRecentStored(f: AccountFiles, r: Request, src: ConfiguredSource, t: int)
    requires Accepts(f, r, src, t)
    requires forall k :: 0 <= k < |f.recents.records| ==> !SameContent(f.recents.records[k], r.recent.value, src)
    ensures Apply(f, r).recents.Holds?
    ensures var es, es' := f.recents.records, Apply(f, r).recents.records;
      && |es'| == (if |es| < 10 then |es| + 1 else 10)
      && MadeBy(es'[0], r, src, t)
      && forall k :: 1 <= k < |es'| ==> WrittenBack(es'[k], es[k - 1])
  {
    var es := f.recents.records;
    AcceptedMeans(f, r, src, t);
    FoundIffSame(f, r.recent.value, src);
    MissShape(es, r.recent.value, src, r.device, t);
    forall k | 0 <= k < |es| ensures WrittenBack(RecentToElement(ElementToRecent(es[k])), es[k]) {
      TripWritesBack(es[k]);
    }
  }

  /** Content the list holds: its first record moves to the front with the new time and nothing else
      changed, the others keep their order. */
  lemma {:induction false} KnownRecentStored(f: AccountFiles, r: Request, src: ConfiguredSource, t: int, i: nat)
    requires Accepts(f, r, src, t)
    requires i < |f.recents.records| && SameContent(f.recents.records[i], r.recent.value, src)
    requires forall k :: 0 <= k < i ==> !SameContent(f.recents.records[k], r.recent.value, src)
    ensures Apply(f, r).recents.Holds?
    ensures var es, es' := f.recents.records, Apply(f, r).recents.records;
      && |es'| == |es|
      && WrittenBack(es'[0], es[i].(utcTime := Itoa(t)))
      && (forall k :: 0 <= k < i ==> WrittenBack(es'[k + 1], es[k]))
      && forall k :: i < k < |es| ==> WrittenBack(es'[k], es[k])
  {
    var es := f.recents.records;
    AcceptedMeans(f, r, src, t);
    FoundIffSame(f, r.recent.value, src);
    HitShape(es, r.recent.value, src, r.device, t, i);
    TripWritesBack(es[i].(utcTime := Itoa(t)));
    forall k | 0 <= k < |es| ensures WrittenBack(RecentToElement(ElementToRecent(es[k])), es[k]) {
      TripWritesBack(es[k]);
    }
  }

  /** The answer shows the time and the source, and for new content the request's fields and the id
      stored. */
  lemma {:induction false} RecentAnswered(f: AccountFiles, r: Request, src: ConfiguredSource, t: int)
    requires Accepts(f, r, src, t)
    ensures var a := AnswerTo(f, r); a.RecentAnswer? && a.lastPlayed == t && a.recentSource == src
    ensures (forall k :: 0 <= k < |f.recents.records| ==> !SameContent(f.recents.records[k], r.recent.value, src)) ==>
      var a, body := AnswerTo(f, r), r.recent.value;
      && a.kind == body.kind && a.location == body.location && a.name == body.name
      && Apply(f, r).recents.Holds? && |Apply(f, r).recents.records| > 0 && a.id == Apply(f, r).recents.records[0].id
  {
    AcceptedMeans(f, r, src, t);
    FoundIffSame(f, r.recent.value, src);
  }

  /** Which recents requests are refused; they change nothing, and no request changes another file. */
  lemma {:induction false} RecentRefusedIff(f: AccountFiles, r: Request)
    requires r.PostRecent?
    ensures AnswerTo(f, r).Rejected? <==> !RecentWellFormed(f, r) || !r.diskOk
    ensures AnswerTo(f, r).Rejected? ==> Apply(f, r) == f
    ensures Apply(f, r).presets == f.presets && Apply(f, r).sources == f.sources
  {
    if r.recent.Some? {
      NamesSomeIff(f, r.recent.value.sourceId);
    }
  }

  // ---------- sources ----------

  /** Saved sources are written record by record, and load as they were when every one has an id. */
  lemma {:induction false} SourcesStored(f: AccountFiles, r: Request)
    requires r.PutSources? && r.diskOk
    ensures Apply(f, r).sources.Holds? && AnswerTo(f, r) == Stored
    ensures |Apply(f, r).sources.records| == |r.sources|
    ensures forall k :: 0 <= k < |r.sources| ==>
      var e, s := Apply(f, r).sources.records[k], r.sources[k];
      && e.displayName == s.displayName && e.id == s.id && e.secret == s.secret && e.secretType == s.secretType
      && e.kind == s.sourceKeyType && e.account == s.sourceKeyAccount
    ensures (forall k :: 0 <= k < |r.sources| ==> r.sources[k].id != "") ==>
      LoadSources(Apply(f, r).sources.records) == r.sources
    ensures Apply(f, r).presets == f.presets && Apply(f, r).recents == f.recents
  {
    if forall k :: 0 <= k < |r.sources| ==> r.sources[k].id != "" {
      SaveThenLoad(r.sources);
    }
  }
}
