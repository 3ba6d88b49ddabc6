/** The preset slots of `UpdatePreset`: a list padded with blanks up to the requested number. */
module PresetSlots {
  import opened Numerals
  import opened Records

  datatype PresetBody = PresetBody(
    name: string, sourceId: string, location: string, kind: string, containerArt: string)

  function NewPreset(number: int, body: PresetBody, src: ConfiguredSource, now: int): Preset {
    Preset(ContentItem(Itoa(number), body.name, src.sourceKeyType, body.kind, body.location,
                       src.sourceKeyAccount, body.sourceId, ""),
           body.containerArt, Itoa(now), Itoa(now))
  }

  function Padded(ps: seq<Preset>, n: nat): seq<Preset> {
    if |ps| < n then ps + seq(n - |ps|, _ => BLANK_PRESET) else ps
  }

  function SetSlot(ps: seq<Preset>, number: int, p: Preset): seq<Preset>
    requires number >= 1
  {
    Padded(ps, number)[number - 1 := p]
  }

  // ---------- one update, on the stored records ----------

  const BLANK_ELEMENT := PresetToElement(BLANK_PRESET)

  function NormalElement(e: PresetElement): PresetElement {
    e.(content := e.content.(isPresetable := "true"))
  }

  function Max(a: int, b: int): int {
    if a < b then b else a
  }

  /** The records after load, update and save. */
  function StoreSlot(es: seq<PresetElement>, number: int, p: Preset): seq<PresetElement>
    requires number >= 1
  {
    PresetElements(SetSlot(Presets(es), number, p))
  }

  lemma {:induction false} StoreSlotShape(es: seq<PresetElement>, number: int, p: Preset)
    requires number >= 1
    ensures |StoreSlot(es, number, p)| == Max(|es|, number)
    ensures forall k :: 0 <= k < |StoreSlot(es, number, p)| ==>
      StoreSlot(es, number, p)[k] ==
        if k == number - 1 then PresetToElement(p)
        else if k < |es| then NormalElement(es[k])
        else BLANK_ELEMENT
  {
  }

  // ---------- whole runs ----------

  /** An accepted update: its slot, the record it stored and the source id it named. */
  datatype SlotWrite = SlotWrite(number: int, element: PresetElement, sourceId: string)

  /** Writes name a slot and store records as saving makes them. */
  predicate ValidWrites(ws: seq<SlotWrite>) {
    forall i :: 0 <= i < |ws| ==> ws[i].number >= 1 && ws[i].element == NormalElement(ws[i].element)
  }

  function LargestNumber(ws: seq<SlotWrite>): (m: nat)
    requires ValidWrites(ws)
    ensures forall i :: 0 <= i < |ws| ==> ws[i].number <= m
    ensures m > 0 ==> exists i :: 0 <= i < |ws| && ws[i].number == m
  {
    if ws == [] then 0
    else
      var n := |ws| - 1;
      Max(LargestNumber(ws[..n]), ws[n].number)
  }

  /** One past the position of the last write to a slot, 0 when there is none. */
  function LastWrite(ws: seq<SlotWrite>, number: int): (n: nat)
    ensures n <= |ws|
    ensures n > 0 ==> ws[n - 1].number == number
    ensures forall k :: n <= k < |ws| ==> ws[k].number != number
  {
    if ws == [] then 0
    else if ws[|ws| - 1].number == number then |ws|
    else LastWrite(ws[..|ws| - 1], number)
  }

  /** The slot-to-last-write map over the records `es` the run started from. */
  function SlotValue(es: seq<PresetElement>, ws: seq<SlotWrite>, k: nat): PresetElement {
    if LastWrite(ws, k + 1) > 0 then ws[LastWrite(ws, k + 1) - 1].element
    else if k >= |es| then BLANK_ELEMENT
    else if ws == [] then es[k]
    else NormalElement(es[k])
  }

  /** `es'` is the slot map of the writes `ws`, as a list. */
  ghost predicate IsSlotList(es': seq<PresetElement>, es: seq<PresetElement>, ws: seq<SlotWrite>) {
    && ValidWrites(ws)
    && |es'| == Max(|es|, LargestNumber(ws))
    && forall k :: 0 <= k < |es'| ==> es'[k] == SlotValue(es, ws, k)
  }

  lemma StoreKeepsSlotList(es': seq<PresetElement>, es: seq<PresetElement>, ws: seq<SlotWrite>,
                           number: int, p: Preset, sourceId: string)
    requires IsSlotList(es', es, ws) && number >= 1
    ensures IsSlotList(StoreSlot(es', number, p), es, ws + [SlotWrite(number, PresetToElement(p), sourceId)])
  {
    var w := SlotWrite(number, PresetToElement(p), sourceId);
    assert (ws + [w])[..|ws|] == ws;
    StoreSlotShape(es', number, p);
    forall k | 0 <= k < Max(|es'|, number)
      ensures StoreSlot(es', number, p)[k] == SlotValue(es, ws + [w], k)
    {
      SlotAfterWrite(es, ws, w, k);
      if k >= |es'| {
        assert LastWrite(ws, k + 1) == 0;
      }
    }
  }

  /** One more write changes its own slot and normalises the others. */
  lemma SlotAfterWrite(es: seq<PresetElement>, ws: seq<SlotWrite>, w: SlotWrite, k: nat)
    requires ValidWrites(ws)
    ensures SlotValue(es, ws + [w], k) == if w.number == k + 1 then w.element else NormalElement(SlotValue(es, ws, k))
  {
    assert (ws + [w])[..|ws|] == ws;
    assert LastWrite(ws + [w], k + 1) == if w.number == k + 1 then |ws| + 1 else LastWrite(ws, k + 1);
  }

  /** Updates to different slots commute. */
  lemma SlotsCommute(es: seq<PresetElement>, m: int, p: Preset, n: int, q: Preset)
    requires m >= 1 && n >= 1 && m != n
    ensures StoreSlot(StoreSlot(es, m, p), n, q) == StoreSlot(StoreSlot(es, n, q), m, p)
  {
    StoreSlotShape(es, m, p);
    StoreSlotShape(es, n, q);
    StoreSlotShape(StoreSlot(es, m, p), n, q);
    StoreSlotShape(StoreSlot(es, n, q), m, p);
  }

  /** Every entry that has an id sits in the slot of that number. */
  predicate IdsMatchSlots(es: seq<PresetElement>) {
    forall k :: 0 <= k < |es| && es[k].id != "" ==> es[k].id == Itoa(k + 1)
  }
}
