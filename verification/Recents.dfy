/** The recents list of `AddRecent`: a bounded move-to-front list keyed by content, with ids issued
    as maximum plus one. */
module RecentList {
  import opened Common
  import opened Numerals
  import opened Records
  import opened Recency

  datatype Key = Key(source: string, account: string, location: string)

  function KeyOf(r: Recent): Key {
    Key(r.item.source, r.item.sourceAccount, r.item.location)
  }

  /** The decoded request body; `lastPlayedAt` is the time stamp when it is present and parses. */
  datatype RecentBody = RecentBody(
    name: string, sourceId: string, location: string, kind: string, lastPlayedAt: Option<int>)

  function PlayTime(body: RecentBody, now: int): int {
    if body.lastPlayedAt.Some? then body.lastPlayedAt.value else now
  }

  function RequestKey(body: RecentBody, src: ConfiguredSource): Key {
    Key(src.sourceKeyType, src.sourceKeyAccount, body.location)
  }

  /** Index of the first entry with the key, or the length. */
  function FindRecent(rs: seq<Recent>, key: Key): (i: nat)
    ensures i <= |rs| && forall k :: 0 <= k < i ==> KeyOf(rs[k]) != key
    ensures i < |rs| ==> KeyOf(rs[i]) == key
  {
    if rs == [] || KeyOf(rs[0]) == key then 0 else 1 + FindRecent(rs[1..], key)
  }

  /** The id of each entry, where it parses as an integer. */
  function IdValues(rs: seq<Recent>): seq<Option<int>> {
    seq(|rs|, i requires 0 <= i < |rs| => Atoi(rs[i].item.id))
  }

  /** The largest positive value, or 0. */
  function MaxOf(ids: seq<Option<int>>): (m: nat)
    ensures forall k :: 0 <= k < |ids| && ids[k].Some? ==> ids[k].value <= m
    ensures m > 0 ==> exists k :: 0 <= k < |ids| && ids[k] == Some(m)
  {
    if ids == [] then 0
    else
      var n := |ids| - 1;
      var before := MaxOf(ids[..n]);
      if ids[n].Some? && ids[n].value > before then ids[n].value else before
  }

  function MaxId(rs: seq<Recent>): nat {
    MaxOf(IdValues(rs))
  }

  function IssuedId(rs: seq<Recent>): string {
    Itoa(Wrap64(MaxId(rs) + 1))
  }

  function NewRecent(rs: seq<Recent>, body: RecentBody, src: ConfiguredSource, device: string, time: int): Recent {
    Recent(ContentItem(IssuedId(rs), body.name, src.sourceKeyType, body.kind, body.location,
                       src.sourceKeyAccount, body.sourceId, "true"),
           device, Itoa(time), "")
  }

  predicate Hit(rs: seq<Recent>, body: RecentBody, src: ConfiguredSource) {
    FindRecent(rs, RequestKey(body, src)) < |rs|
  }

  /** The list after one accepted request: a hit moves the entry to the front with its new time, a
      miss puts a new entry in front and cuts the list to ten. */
  function AddToList(rs: seq<Recent>, body: RecentBody, src: ConfiguredSource, device: string, time: int): seq<Recent> {
    var i := FindRecent(rs, RequestKey(body, src));
    if i < |rs| then MoveToFront(rs[i := rs[i].(utcTime := Itoa(time))], i)
    else Truncated([NewRecent(rs, body, src, device, time)] + rs)
  }

  // ---------- the slice surgery ----------

  /** What the expression on the hit path leaves in the old backing array: everything after `i` has
      moved down one slot and the last slot keeps its value. */
  function Shifted<T>(s: seq<T>, i: nat): seq<T>
    requires i < |s|
  {
    s[..i] + s[i + 1..] + [s[|s| - 1]]
  }

  /** The old array, slot by slot. */
  lemma {:induction false} ShiftedSlots<T>(s: seq<T>, i: nat, k: nat)
    requires i < |s| && k < |s|
    ensures |Shifted(s, i)| == |s|
    ensures Shifted(s, i)[k] == if k < i || k == |s| - 1 then s[k] else s[k + 1]
  {
  }

  /** `append([]Recent{*recentObj}, append(recents[:i], recents[i+1:]...)...)`, with the element
      copied out before the inner `append` shifts the array it points into. */
  method MoveSlotToFront<T(0)>(recents: array<T>, i: nat) returns (front: array<T>)
    requires i < recents.Length
    modifies recents
    ensures fresh(front) && front[..] == MoveToFront(old(recents[..]), i)
    ensures recents[..] == Shifted(old(recents[..]), i)
  {
    var n := recents.Length;
    ghost var s := recents[..];
    var moved := recents[i];
    var j := i;
    while j + 1 < n
      invariant i <= j < n
      invariant forall k :: 0 <= k < i ==> recents[k] == s[k]
      invariant forall k :: i <= k < j ==> recents[k] == s[k + 1]
      invariant forall k :: j <= k < n ==> recents[k] == s[k]
    {
      recents[j] := recents[j + 1];
      j := j + 1;
    }
    assert recents[..] == Shifted(s, i);
    front := new T[n];
    front[0] := moved;
    for k := 1 to n
      invariant front[0] == moved && recents[..] == Shifted(s, i)
      invariant forall m :: 1 <= m < k ==> front[m] == recents[m - 1]
    {
      front[k] := recents[k - 1];
    }
    FrontOfShifted(s, i, front[..]);
  }

  lemma FrontOfShifted<T>(s: seq<T>, i: nat, front: seq<T>)
    requires i < |s| == |front| && front[0] == s[i]
    requires forall m :: 1 <= m < |s| ==> front[m] == Shifted(s, i)[m - 1]
    ensures front == MoveToFront(s, i)
  {
  }

  /** The surgery is a permutation that keeps the relative order of all other entries. */
  lemma {:induction false} MoveToFrontPermutes<T>(s: seq<T>, i: nat)
    requires i < |s|
    ensures |MoveToFront(s, i)| == |s| && multiset(MoveToFront(s, i)) == multiset(s)
    ensures MoveToFront(s, i)[0] == s[i]
    ensures forall k :: 0 <= k < i ==> MoveToFront(s, i)[k + 1] == s[k]
    ensures forall k :: i < k < |s| ==> MoveToFront(s, i)[k] == s[k]
  {
    assert s == s[..i] + [s[i]] + s[i + 1..];
  }

  /** Go leaves the order of the dereference and the inner `append` open. Reading the slot after the
      shift gives the same list exactly when the hit is the last entry or equals its successor. */
  lemma {:induction false} ShiftBeforeReadDiffers<T>(s: seq<T>, i: nat)
    requires i < |s|
    ensures [Shifted(s, i)[i]] + s[..i] + s[i + 1..] == MoveToFront(s, i)
       <==> (i == |s| - 1 || s[i] == s[i + 1])
  {
    assert Shifted(s, i)[i] == if i == |s| - 1 then s[i] else s[i + 1];
    assert ([Shifted(s, i)[i]] + s[..i] + s[i + 1..])[0] == Shifted(s, i)[i];
    assert MoveToFront(s, i)[0] == s[i];
  }

  // ---------- ids ----------

  lemma MaxOfIs(ids: seq<Option<int>>, m: nat)
    requires forall k :: 0 <= k < |ids| && ids[k].Some? ==> ids[k].value <= m
    requires m > 0 ==> Some(m) in ids
    ensures MaxOf(ids) == m
  {
    if m > 0 {
      var k :| 0 <= k < |ids| && ids[k] == Some(m);
    }
  }

  lemma MaxIdInRange(rs: seq<Recent>)
    ensures MaxId(rs) <= MAX_INT64
  {
    if MaxId(rs) > 0 {
      var k :| 0 <= k < |IdValues(rs)| && IdValues(rs)[k] == Some(MaxId(rs));
    }
  }

  /** The value an issued id parses to. */
  lemma IssuedIdValue(rs: seq<Recent>)
    ensures Atoi(IssuedId(rs)) == Some(if MaxId(rs) == MAX_INT64 then MIN_INT64 else MaxId(rs) + 1)
    ensures MaxId(rs) < MAX_INT64 ==> IssuedId(rs) == Itoa(MaxId(rs) + 1)
  {
    MaxIdInRange(rs);
    assert MaxId(rs) == MAX_INT64 ==> Wrap64(MaxId(rs) + 1) == MIN_INT64;
    assert MaxId(rs) < MAX_INT64 ==> Wrap64(MaxId(rs) + 1) == MaxId(rs) + 1;
    AtoiOfItoa(Wrap64(MaxId(rs) + 1));
  }

  ghost predicate ExceedsAll(id: Option<int>, ids: seq<Option<int>>) {
    id.Some? && forall k :: 0 <= k < |ids| && ids[k].Some? ==> ids[k].value < id.value
  }

  /** The issued id exceeds every parsable id present exactly when the maximum is below the integer
      limit; then it also differs from every id string present, parsable or not. */
  lemma {:induction false} IssuedIdFresh(rs: seq<Recent>)
    ensures ExceedsAll(Atoi(IssuedId(rs)), IdValues(rs)) <==> MaxId(rs) < MAX_INT64
    ensures MaxId(rs) < MAX_INT64 ==> forall k :: 0 <= k < |rs| ==> rs[k].item.id != IssuedId(rs)
  {
    IssuedIdValue(rs);
    MaxIdInRange(rs);
    var ids := IdValues(rs);
    if MaxId(rs) == MAX_INT64 {
      var k :| 0 <= k < |ids| && ids[k] == Some(MAX_INT64);
    } else {
      forall k | 0 <= k < |rs| ensures rs[k].item.id != IssuedId(rs) {
        assert ids[k] == Atoi(rs[k].item.id);
      }
    }
  }

  function Ids(rs: seq<Recent>): seq<string> {
    seq(|rs|, i requires 0 <= i < |rs| => rs[i].item.id)
  }

  function Keys(rs: seq<Recent>): seq<Key> {
    seq(|rs|, i requires 0 <= i < |rs| => KeyOf(rs[i]))
  }

  /** What a hit at `i` does to each column of the list. */
  lemma HitMoves(rs: seq<Recent>, i: nat, stamp: string)
    requires i < |rs|
    ensures var rs' := MoveToFront(rs[i := rs[i].(utcTime := stamp)], i);
      && IdValues(rs') == MoveToFront(IdValues(rs), i)
      && Ids(rs') == MoveToFront(Ids(rs), i)
      && Keys(rs') == MoveToFront(Keys(rs), i)
      && Plays(rs') == MoveToFront(Plays(rs)[i := Play(KeyOf(rs[i]), stamp)], i)
  {
  }

  lemma CutKeeps<S, T>(s: seq<S>, t: seq<T>, f: S -> T)
    requires |s| == |t| && forall k :: 0 <= k < |s| ==> t[k] == f(s[k])
    ensures |Truncated(s)| == |Truncated(t)| && forall k :: 0 <= k < |Truncated(s)| ==> Truncated(t)[k] == f(Truncated(s)[k])
  {
  }

  lemma MissInserts(rs: seq<Recent>, r: Recent)
    ensures var rs' := Truncated([r] + rs);
      && Ids(rs') == Truncated([r.item.id] + Ids(rs))
      && Keys(rs') == Truncated([KeyOf(r)] + Keys(rs))
      && Plays(rs') == Truncated([Play(KeyOf(r), r.utcTime)] + Plays(rs))
  {
    CutKeeps([r] + rs, [r.item.id] + Ids(rs), (x: Recent) => x.item.id);
    CutKeeps([r] + rs, [KeyOf(r)] + Keys(rs), (x: Recent) => KeyOf(x));
    CutKeeps([r] + rs, [Play(KeyOf(r), r.utcTime)] + Plays(rs), (x: Recent) => Play(KeyOf(x), x.utcTime));
  }

  /** One accepted request: the maximum id stays on a hit and grows by one on a miss. */
  lemma {:induction false} AddMovesMaxId(rs: seq<Recent>, body: RecentBody, src: ConfiguredSource, device: string, time: int)
    requires Hit(rs, body, src) || MaxId(rs) < MAX_INT64
    ensures MaxId(AddToList(rs, body, src, device, time)) == MaxId(rs) + if Hit(rs, body, src) then 0 else 1
  {
    var i := FindRecent(rs, RequestKey(body, src));
    var rs' := AddToList(rs, body, src, device, time);
    var ids, ids' := IdValues(rs), IdValues(rs');
    if i < |rs| {
      HitMoves(rs, i, Itoa(time));
      MoveToFrontPermutes(ids, i);
      MaxOfPermutation(ids, ids');
    } else {
      MissMovesMaxId(rs, body, src, device, time);
    }
  }

  lemma MissMovesMaxId(rs: seq<Recent>, body: RecentBody, src: ConfiguredSource, device: string, time: int)
    requires !Hit(rs, body, src) && MaxId(rs) < MAX_INT64
    ensures MaxId(AddToList(rs, body, src, device, time)) == MaxId(rs) + 1
  {
    var rs' := AddToList(rs, body, src, device, time);
    var ids, ids' := IdValues(rs), IdValues(rs');
    IssuedIdValue(rs);
    assert ids'[0] == Atoi(IssuedId(rs));
    forall k | 1 <= k < |ids'| ensures ids'[k] == ids[k - 1] {
      assert rs'[k] == rs[k - 1];
    }
    MaxOfIs(ids', MaxId(rs) + 1);
  }

  lemma MaxOfPermutation(ids: seq<Option<int>>, ids': seq<Option<int>>)
    requires multiset(ids) == multiset(ids')
    ensures MaxOf(ids) == MaxOf(ids')
  {
    forall k | 0 <= k < |ids'| ensures ids'[k] in ids {
      assert ids'[k] in multiset(ids');
    }
    if MaxOf(ids) > 0 {
      assert Some(MaxOf(ids)) in multiset(ids);
    }
    MaxOfIs(ids', MaxOf(ids));
  }

  /** Distinct ids and keys of one list carry over to the other. */
  ghost predicate StaysDistinct(rs: seq<Recent>, rs': seq<Recent>) {
    && (NoDuplicates(Ids(rs)) ==> NoDuplicates(Ids(rs')))
    && (NoDuplicates(Keys(rs)) ==> NoDuplicates(Keys(rs')))
  }

  /** Distinct ids and distinct keys stay distinct, and a list of at most ten stays one; an inserting
      request makes any list one. */
  lemma AddKeepsDistinct(rs: seq<Recent>, body: RecentBody, src: ConfiguredSource, device: string, time: int)
    requires Hit(rs, body, src) || MaxId(rs) < MAX_INT64
    ensures StaysDistinct(rs, AddToList(rs, body, src, device, time))
    ensures !Hit(rs, body, src) || |rs| <= CAPACITY ==> |AddToList(rs, body, src, device, time)| <= CAPACITY
  {
    var i := FindRecent(rs, RequestKey(body, src));
    if i < |rs| {
      HitMoves(rs, i, Itoa(time));
      if NoDuplicates(Keys(rs)) {
        MoveKeepsNoDuplicates(Keys(rs), i);
      }
      if NoDuplicates(Ids(rs)) {
        MoveKeepsNoDuplicates(Ids(rs), i);
      }
    } else {
      MissInserts(rs, NewRecent(rs, body, src, device, time));
      if NoDuplicates(Keys(rs)) {
        InsertKeepsNoDuplicates(Keys(rs), RequestKey(body, src));
      }
      if MaxId(rs) < MAX_INT64 && NoDuplicates(Ids(rs)) {
        IssuedIdFresh(rs);
        InsertKeepsNoDuplicates(Ids(rs), IssuedId(rs));
      }
    }
  }

  // ---------- the list as recency order ----------

  function Plays(rs: seq<Recent>): seq<Play<Key, string>> {
    seq(|rs|, i requires 0 <= i < |rs| => Play(KeyOf(rs[i]), rs[i].utcTime))
  }

  function PlayOf(body: RecentBody, src: ConfiguredSource, time: int): Play<Key, string> {
    Play(RequestKey(body, src), Itoa(time))
  }

  /** Seen through keys and times, an accepted request is a touch of the bounded list. */
  lemma {:induction false} AddIsTouch(rs: seq<Recent>, body: RecentBody, src: ConfiguredSource, device: string, time: int)
    ensures Plays(AddToList(rs, body, src, device, time))
         == Touch(Plays(rs), FindRecent(rs, RequestKey(body, src)), PlayOf(body, src, time))
  {
    var i := FindRecent(rs, RequestKey(body, src));
    if i < |rs| {
      HitMoves(rs, i, Itoa(time));
    } else {
      MissInserts(rs, NewRecent(rs, body, src, device, time));
    }
  }

  lemma AddKeepsPrefix(rs: seq<Recent>, history: seq<Play<Key, string>>,
                       body: RecentBody, src: ConfiguredSource, device: string, time: int)
    requires Plays(rs) == Truncated(Unbounded(history))
    ensures Plays(AddToList(rs, body, src, device, time))
         == Truncated(Unbounded(history + [PlayOf(body, src, time)]))
  {
    var i := FindRecent(rs, RequestKey(body, src));
    AddIsTouch(rs, body, src, device, time);
    TouchKeepsPrefix(Plays(rs), history, i, PlayOf(body, src, time));
  }
}
