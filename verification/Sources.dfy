/** Configured sources: the ids `GetConfiguredSources` gives to loaded records, and the two ways the
    server looks a source up (by id when it stores an item, by type and account when it lists it). */
module Sources {
  import opened Common
  import opened Numerals
  import opened Records

  const FIRST_GENERATED_ID := 100001

  /** How many records carry no id of their own. */
  function Blanks(es: seq<SourceElement>): (n: nat)
    ensures n <= |es|
  {
    if es == [] then 0
    else Blanks(es[..|es| - 1]) + if es[|es| - 1].id == "" then 1 else 0
  }

  function LoadedId(es: seq<SourceElement>, i: nat): string
    requires i < |es|
  {
    if es[i].id == "" then Itoa(FIRST_GENERATED_ID + Blanks(es[..i])) else es[i].id
  }

  function LoadedSource(es: seq<SourceElement>, i: nat): ConfiguredSource
    requires i < |es|
  {
    ConfiguredSource(es[i].displayName, LoadedId(es, i), es[i].secret, es[i].secretType,
                     es[i].kind, es[i].account)
  }

  function LoadSources(es: seq<SourceElement>): seq<ConfiguredSource> {
    seq(|es|, i requires 0 <= i < |es| => LoadedSource(es, i))
  }

  function SourceToElement(s: ConfiguredSource): SourceElement {
    SourceElement(s.displayName, s.id, s.secret, s.secretType, s.sourceKeyAccount, s.sourceKeyType)
  }

  function SourceElements(ss: seq<ConfiguredSource>): seq<SourceElement> {
    seq(|ss|, i requires 0 <= i < |ss| => SourceToElement(ss[i]))
  }

  /** The loop of `GetConfiguredSources`, with its running `lastID`. */
  method DecodeSources(es: seq<SourceElement>) returns (sources: seq<ConfiguredSource>)
    ensures sources == LoadSources(es)
  {
    sources := [];
    var lastID := FIRST_GENERATED_ID;
    for i := 0 to |es|
      invariant lastID == FIRST_GENERATED_ID + Blanks(es[..i])
      invariant |sources| == i && forall k :: 0 <= k < i ==> sources[k] == LoadedSource(es, k)
    {
      var s := es[i];
      var id := s.id;
      assert es[..i + 1][..i] == es[..i];
      if id == "" {
        id := Itoa(lastID);
        lastID := lastID + 1;
      }
      sources := sources + [ConfiguredSource(s.displayName, id, s.secret, s.secretType, s.kind, s.account)];
    }
  }

  /** The loop of `SaveConfiguredSources`. */
  method EncodeSources(sources: seq<ConfiguredSource>) returns (es: seq<SourceElement>)
    ensures es == SourceElements(sources)
  {
    es := [];
    for i := 0 to |sources|
      invariant |es| == i && forall k :: 0 <= k < i ==> es[k] == SourceToElement(sources[k])
    {
      es := es + [SourceToElement(sources[i])];
    }
  }

  // ---------- ids of loaded sources ----------

  lemma {:induction false} BlanksGrow(es: seq<SourceElement>, i: nat, j: nat)
    requires i <= j <= |es|
    ensures Blanks(es[..i]) <= Blanks(es[..j])
    ensures i < j && es[i].id == "" ==> Blanks(es[..i]) < Blanks(es[..j])
    decreases j
  {
    if i < j {
      BlanksGrow(es, i, j - 1);
      assert es[..j][..j - 1] == es[..j - 1];
    }
  }

  /** No loaded source has an empty id, and no two generated ids coincide. */
  lemma {:induction false} LoadedIds(es: seq<SourceElement>)
    ensures forall i :: 0 <= i < |es| ==> LoadSources(es)[i].id != ""
    ensures forall i, j :: 0 <= i < j < |es| && es[i].id == "" && es[j].id == "" ==>
              LoadSources(es)[i].id != LoadSources(es)[j].id
  {
    forall i, j | 0 <= i < j < |es| && es[i].id == "" && es[j].id == ""
      ensures LoadedId(es, i) != LoadedId(es, j)
    {
      BlanksGrow(es, i, j);
      ItoaInjective(FIRST_GENERATED_ID + Blanks(es[..i]), FIRST_GENERATED_ID + Blanks(es[..j]));
    }
  }

  /** The record i as loaded: its own fields, with an id of its own kept. */
  lemma {:induction false} LoadedFields(es: seq<SourceElement>, i: nat)
    requires i < |es|
    ensures |LoadSources(es)| == |es|
    ensures var s, e := LoadSources(es)[i], es[i];
      && s.displayName == e.displayName && s.secret == e.secret && s.secretType == e.secretType
      && s.sourceKeyType == e.kind && s.sourceKeyAccount == e.account
      && (e.id != "" ==> s.id == e.id)
  {
  }

  /** No record between the two is without an id of its own. */
  predicate OwnIds(es: seq<SourceElement>, j: nat, i: nat)
    requires i <= |es|
  {
    forall k :: j <= k < i ==> es[k].id != ""
  }

  /** The first record without an id gets 100001. */
  lemma {:induction false} FirstGenerated(es: seq<SourceElement>, i: nat)
    requires i < |es| && es[i].id == "" && OwnIds(es, 0, i)
    ensures LoadSources(es)[i].id == Itoa(100001)
  {
    NoBlanks(es, 0, i);
  }

  /** The next one gets the next number. */
  lemma {:induction false} NextGenerated(es: seq<SourceElement>, j: nat, i: nat) returns (n: int)
    requires j < i < |es| && es[j].id == es[i].id == "" && OwnIds(es, j + 1, i)
    ensures LoadSources(es)[j].id == Itoa(n) && LoadSources(es)[i].id == Itoa(n + 1)
  {
    n := FIRST_GENERATED_ID + Blanks(es[..j]);
    GeneratedIs(es, j);
    GeneratedIs(es, i);
    BlankCounted(es, j);
    NoBlanks(es, j + 1, i);
  }

  lemma GeneratedIs(es: seq<SourceElement>, i: nat)
    requires i < |es| && es[i].id == ""
    ensures LoadSources(es)[i].id == Itoa(FIRST_GENERATED_ID + Blanks(es[..i]))
  {
  }

  lemma BlankCounted(es: seq<SourceElement>, j: nat)
    requires j < |es| && es[j].id == ""
    ensures Blanks(es[..j + 1]) == Blanks(es[..j]) + 1
  {
    assert es[..j + 1][..j] == es[..j];
  }

  lemma {:induction false} NoBlanks(es: seq<SourceElement>, j: nat, i: nat)
    requires j <= i <= |es| && OwnIds(es, j, i)
    ensures Blanks(es[..i]) == Blanks(es[..j])
    decreases i
  {
    if j < i {
      NoBlanks(es, j, i - 1);
      assert es[..i][..i - 1] == es[..i - 1];
    }
  }

  predicate UniqueIds(ss: seq<ConfiguredSource>) {
    forall i, j :: 0 <= i < j < |ss| ==> ss[i].id != ss[j].id
  }

  /** What a maintainer of the file can check: explicit ids are distinct and none is one of the
      numerals the loader is about to hand out. */
  ghost predicate ExplicitIdsSafe(es: seq<SourceElement>) {
    && (forall i, j :: 0 <= i < j < |es| && es[i].id != "" && es[j].id != "" ==> es[i].id != es[j].id)
    && (forall i, g :: 0 <= i < |es| && FIRST_GENERATED_ID <= g < FIRST_GENERATED_ID + Blanks(es) ==>
          es[i].id != Itoa(g))
  }

  /** Every numeral of the generated range is handed out. */
  lemma {:induction false} GeneratedBy(es: seq<SourceElement>, g: int) returns (i: nat)
    requires FIRST_GENERATED_ID <= g < FIRST_GENERATED_ID + Blanks(es)
    ensures i < |es| && es[i].id == "" && LoadedId(es, i) == Itoa(g)
  {
    var n := |es| - 1;
    if es[n].id == "" && g == FIRST_GENERATED_ID + Blanks(es[..n]) {
      return n;
    }
    i := GeneratedBy(es[..n], g);
    PrefixKeepsId(es, n, i);
  }

  lemma PrefixKeepsId(es: seq<SourceElement>, n: nat, i: nat)
    requires i < n <= |es|
    ensures LoadedId(es[..n], i) == LoadedId(es, i) && es[..n][i] == es[i]
  {
    assert es[..n][..i] == es[..i];
  }

  /** Loaded ids are unique exactly when the explicit ids are safe. */
  lemma {:induction false} UniqueIdsIff(es: seq<SourceElement>)
    ensures UniqueIds(LoadSources(es)) <==> ExplicitIdsSafe(es)
  {
    var ss := LoadSources(es);
    LoadedIds(es);
    if ExplicitIdsSafe(es) {
      forall i, j | 0 <= i < j < |es|
        ensures ss[i].id != ss[j].id
      {
        BlanksGrow(es, i, |es|);
        BlanksGrow(es, j, |es|);
        assert es[..|es|] == es;
      }
    }
    if UniqueIds(ss) {
      forall i, j | 0 <= i < j < |es| && es[i].id != "" && es[j].id != ""
        ensures es[i].id != es[j].id
      {
        assert ss[i].id != ss[j].id;
      }
      forall i, g | 0 <= i < |es| && FIRST_GENERATED_ID <= g < FIRST_GENERATED_ID + Blanks(es)
        ensures es[i].id != Itoa(g)
      {
        var k := GeneratedBy(es, g);
        ItoaNonEmpty(g);
        assert i != k ==> ss[i].id != ss[k].id;
      }
    }
  }

  /** Appending records to the file never changes the ids of the earlier ones. */
  lemma {:induction false} AppendKeepsIds(es: seq<SourceElement>, more: seq<SourceElement>)
    ensures LoadSources(es + more)[..|es|] == LoadSources(es)
  {
    forall i | 0 <= i < |es|
      ensures LoadSources(es + more)[i] == LoadSources(es)[i]
    {
      assert (es + more)[..i] == es[..i];
    }
  }

  /** Saving a list whose ids are not empty and loading it returns it; a loaded list is such a list. */
  lemma SaveThenLoad(ss: seq<ConfiguredSource>)
    requires forall i :: 0 <= i < |ss| ==> ss[i].id != ""
    ensures LoadSources(SourceElements(ss)) == ss
  {
  }

  lemma {:induction false} LoadSaveLoad(es: seq<SourceElement>)
    ensures LoadSources(SourceElements(LoadSources(es))) == LoadSources(es)
  {
    LoadedIds(es);
    SaveThenLoad(LoadSources(es));
  }

  // ---------- lookups ----------

  /** Index of the first source with the id, or the length. */
  function FindById(ss: seq<ConfiguredSource>, id: string): (i: nat)
    ensures i <= |ss| && forall k :: 0 <= k < i ==> ss[k].id != id
    ensures i < |ss| ==> ss[i].id == id
  {
    if ss == [] || ss[0].id == id then 0 else 1 + FindById(ss[1..], id)
  }

  predicate Lists(s: ConfiguredSource, item: ContentItem) {
    s.id == item.sourceId || (s.sourceKeyType == item.source && s.sourceKeyAccount == item.sourceAccount)
  }

  /** Index of the source a listing shows for an item, or the length when it shows none. */
  function FindListed(ss: seq<ConfiguredSource>, item: ContentItem): (i: nat)
    ensures i <= |ss| && forall k :: 0 <= k < i ==> !Lists(ss[k], item)
    ensures i < |ss| ==> Lists(ss[i], item)
  {
    if ss == [] || Lists(ss[0], item) then 0 else 1 + FindListed(ss[1..], item)
  }

  predicate SamePair(s: ConfiguredSource, t: ConfiguredSource) {
    s.sourceKeyType == t.sourceKeyType && s.sourceKeyAccount == t.sourceKeyAccount
  }

  predicate DistinctPairs(ss: seq<ConfiguredSource>) {
    forall i, j :: 0 <= i < j < |ss| ==> !SamePair(ss[i], ss[j])
  }

  /** An item as it comes back from a file: it carries a source's type and account but no id. */
  predicate StoredFrom(item: ContentItem, s: ConfiguredSource) {
    item.sourceId == "" && item.source == s.sourceKeyType && item.sourceAccount == s.sourceKeyAccount
  }

  /** A listing shows a stored item under source `i` exactly when no earlier source has the same
      type and account, so under the right one for every item when the pairs are distinct. */
  lemma {:induction false} ListedUnderItsSource(es: seq<SourceElement>, item: ContentItem, i: nat)
    requires i < |es| && StoredFrom(item, LoadSources(es)[i])
    ensures FindListed(LoadSources(es), item) == i
       <==> forall k :: 0 <= k < i ==> !SamePair(LoadSources(es)[k], LoadSources(es)[i])
    ensures DistinctPairs(LoadSources(es)) ==> FindListed(LoadSources(es), item) == i
  {
    LoadedIds(es);
    var ss := LoadSources(es);
    assert Lists(ss[i], item);
    forall k | 0 <= k < |ss| ensures Lists(ss[k], item) <==> SamePair(ss[k], ss[i]) {
      assert ss[k].id != "";
    }
  }

  method FindSource(ss: seq<ConfiguredSource>, id: string) returns (found: Option<ConfiguredSource>)
    ensures found == if FindById(ss, id) < |ss| then Some(ss[FindById(ss, id)]) else None
  {
    for i := 0 to |ss|
      invariant forall k :: 0 <= k < i ==> ss[k].id != id
    {
      if ss[i].id == id {
        return Some(ss[i]);
      }
    }
    return None;
  }

  method ResolveForListing(ss: seq<ConfiguredSource>, item: ContentItem) returns (found: Option<ConfiguredSource>)
    ensures found == if FindListed(ss, item) < |ss| then Some(ss[FindListed(ss, item)]) else None
    ensures found.None? ==> forall k :: 0 <= k < |ss| ==>
      ss[k].id != item.sourceId && (ss[k].sourceKeyType != item.source || ss[k].sourceKeyAccount != item.sourceAccount)
    ensures found.Some? ==> exists i :: (0 <= i < |ss| && found == Some(ss[i])
      && (ss[i].id == item.sourceId || (ss[i].sourceKeyType == item.source && ss[i].sourceKeyAccount == item.sourceAccount))
      && forall k :: 0 <= k < i ==>
           ss[k].id != item.sourceId && (ss[k].sourceKeyType != item.source || ss[k].sourceKeyAccount != item.sourceAccount))
  {
    for i := 0 to |ss|
      invariant forall k :: 0 <= k < i ==> !Lists(ss[k], item)
    {
      if Lists(ss[i], item) {
        return Some(ss[i]);
      }
    }
    return None;
  }
}
