/** Conditional GETs (If-None-Match, section 13.1.2 of RFC 9110, reduced to string equality) against
    files that other requests rewrite. A handler reads the time stamps of its files one after the
    other, compares, and then reads the data, file by file; between any two of these steps other
    requests may run. Entity tags are time stamps in milliseconds, so the theorem needs writes to the
    files that tags are made of to be at least a millisecond apart. Requests that change a file answer
    with a tag read before their own write. */
module ConditionalGet {
  import opened Common
  import opened Numerals

  const NANOS_PER_MILLI := 1_000_000

  /** The files of an account; there is a device file in each device directory. */
  datatype FileName = PresetsFile | SourcesFile | RecentsFile | DeviceFile(dir: string)

  datatype Version<C> = Missing | Stored(content: C, mtime: nat)

  datatype Files<C> = Files(presets: Version<C>, sources: Version<C>, recents: Version<C>, devices: map<string, Version<C>>)

  function Get<C>(fs: Files<C>, f: FileName): Version<C> {
    match f
    case PresetsFile => fs.presets
    case SourcesFile => fs.sources
    case RecentsFile => fs.recents
    case DeviceFile(dir) => if dir in fs.devices then fs.devices[dir] else Missing
  }

  function Put<C>(fs: Files<C>, f: FileName, v: Version<C>): Files<C> {
    match f
    case PresetsFile => fs.(presets := v)
    case SourcesFile => fs.(sources := v)
    case RecentsFile => fs.(recents := v)
    case DeviceFile(dir) => fs.(devices := fs.devices[dir := v])
  }

  function Content<C>(v: Version<C>): Option<C> {
    if v.Missing? then None else Some(v.content)
  }

  function Millis(nanos: nat): nat {
    nanos / NANOS_PER_MILLI
  }

  /** `GetETagForPresets` and its siblings. */
  function Tag<C>(v: Version<C>): nat {
    if v.Missing? then 0 else Millis(v.mtime)
  }

  /** A tag is the time stamp in whole milliseconds, rounded down, and 0 for a missing file. */
  lemma {:induction false} TagRoundsDown<C>(v: Version<C>)
    ensures v.Stored? ==> 1_000_000 * Tag(v) <= v.mtime < 1_000_000 * (Tag(v) + 1)
    ensures v.Missing? ==> Tag(v) == 0
  {
  }

  datatype Handler = AccountFull | PresetsOnly

  /** The files whose time stamps the handler's tag covers, in the order they are looked at. */
  function Covered(h: Handler): seq<FileName> {
    match h
    case AccountFull => [PresetsFile, SourcesFile, RecentsFile]
    case PresetsOnly => [PresetsFile]
  }

  function MaxTag<C>(fs: Files<C>, covered: seq<FileName>): nat {
    if covered == [] then 0
    else
      var before, t := MaxTag(fs, covered[..|covered| - 1]), Tag(Get(fs, covered[|covered| - 1]));
      if t > before then t else before
  }

  /** `GetETagForAccount`, when nothing is written meanwhile. */
  method GetETagForAccount<C>(fs: Files<C>) returns (max: nat)
    ensures max == MaxTag(fs, Covered(AccountFull))
    ensures max >= Tag(fs.presets) && max >= Tag(fs.sources) && max >= Tag(fs.recents)
    ensures max == Tag(fs.presets) || max == Tag(fs.sources) || max == Tag(fs.recents)
  {
    var e1, e2, e3 := Tag(fs.presets), Tag(fs.sources), Tag(fs.recents);
    max := e1;
    if e2 > max {
      max := e2;
    }
    if e3 > max {
      max := e3;
    }
    var three := [PresetsFile, SourcesFile, RecentsFile];
    assert three[..2] == [PresetsFile, SourcesFile] && three[..2][..1] == [PresetsFile] && three[..2][..1][..0] == [];
    assert MaxTag(fs, three[..2][..1]) == e1;
    assert MaxTag(fs, three[..2]) == if e2 > e1 then e2 else e1;
  }

  // ---------- the state machine ----------

  /** One file as a response body saw it. */
  datatype ReadItem<C> = ReadItem(file: FileName, content: Option<C>)

  /** An answer that was sent, with the number its tag prints: a body built from files, or the answer to
      a request that rewrote one. */
  datatype Response<C> = Response(tag: nat, body: seq<ReadItem<C>>, wrote: Option<FileName>)

  /** A request in progress. `arrived` is the store as it was when the request arrived and `known` how
      many responses had been sent by then: the ones whose tags its header can come from. */
  datatype Pending<C> =
    | Tagging(handler: Handler, header: string, done: nat, max: nat, arrived: Files<C>, known: nat)
    | Reading(tag: nat, body: seq<ReadItem<C>>)
    | Changing(file: FileName, tag: nat, written: bool)

  /** An answer 304, with the request it answers. */
  datatype Verdict<C> = Verdict(handler: Handler, header: string, arrived: Files<C>, known: nat)

  datatype State<C> = State(
    now: nat, lastWrite: nat, files: Files<C>,
    pending: map<nat, Pending<C>>, sent: seq<Response<C>>, notModified: seq<Verdict<C>>)

  datatype Event<C> =
    | Tick(to: nat)
    | Write(file: FileName, data: C)
    | Arrive(id: nat, handler: Handler, header: string)
    | Stat(id: nat)
    | Decide(id: nat)
    | ReadFile(id: nat, file: FileName)
    | Send(id: nat)
    | Fail(id: nat)
    | Change(id: nat, file: FileName)
    | WriteOwn(id: nat, data: C)

  /** The files that preset and recents requests rewrite. */
  predicate Changeable(f: FileName) {
    f.PresetsFile? || f.RecentsFile?
  }

  /** `DeviceFile`s are in no tag. */
  predicate InTags(f: FileName) {
    !f.DeviceFile?
  }

  function Written<C>(s: State<C>, f: FileName, data: C): State<C> {
    s.(files := Put(s.files, f, Stored(data, s.now)), lastWrite := if InTags(f) then s.now else s.lastWrite)
  }

  /** One atomic step; an event that does not apply changes nothing. */
  function Step<C>(s: State<C>, e: Event<C>): State<C> {
    match e
    case Tick(to) => if to >= s.now then s.(now := to) else s
    case Write(f, data) => Written(s, f, data)
    case Arrive(id, h, header) =>
      if id in s.pending then s
      else s.(pending := s.pending[id := Tagging(h, header, 0, 0, s.files, |s.sent|)])
    case Stat(id) =>
      if id in s.pending && s.pending[id].Tagging? && s.pending[id].done < |Covered(s.pending[id].handler)| then
        var p := s.pending[id];
        var t := Tag(Get(s.files, Covered(p.handler)[p.done]));
        s.(pending := s.pending[id := p.(done := p.done + 1, max := if t > p.max then t else p.max)])
      else s
    case Decide(id) =>
      if id in s.pending && s.pending[id].Tagging? && s.pending[id].done == |Covered(s.pending[id].handler)| then
        var p := s.pending[id];
        if p.header == Itoa(p.max) then
          s.(pending := s.pending - {id},
             notModified := s.notModified + [Verdict(p.handler, p.header, p.arrived, p.known)])
        else s.(pending := s.pending[id := Reading(p.max, [])])
      else s
    case ReadFile(id, f) =>
      if id in s.pending && s.pending[id].Reading? then
        var p := s.pending[id];
        s.(pending := s.pending[id := p.(body := p.body + [ReadItem(f, Content(Get(s.files, f)))])])
      else s
    case Send(id) =>
      if id in s.pending && s.pending[id].Reading? then
        s.(pending := s.pending - {id}, sent := s.sent + [Response(s.pending[id].tag, s.pending[id].body, None)])
      else if id in s.pending && s.pending[id].Changing? && s.pending[id].written then
        s.(pending := s.pending - {id}, sent := s.sent + [Response(s.pending[id].tag, [], Some(s.pending[id].file))])
      else s
    case Fail(id) => s.(pending := s.pending - {id})
    case Change(id, f) =>
      if id in s.pending || !Changeable(f) then s
      else s.(pending := s.pending[id := Changing(f, Tag(Get(s.files, f)), false)])
    case WriteOwn(id, data) =>
      if id in s.pending && s.pending[id].Changing? && !s.pending[id].written then
        var s' := Written(s, s.pending[id].file, data);
        s'.(pending := s.pending[id := s.pending[id].(written := true)])
      else s
  }

  function Run<C>(s: State<C>, es: seq<Event<C>>): State<C> {
    if es == [] then s else Step(Run(s, es[..|es| - 1]), es[|es| - 1])
  }

  /** The event rewrites a file that a tag is made of. */
  predicate MovesTags<C>(s: State<C>, e: Event<C>) {
    || (e.Write? && InTags(e.file))
    || (e.WriteOwn? && e.id in s.pending && s.pending[e.id].Changing? && !s.pending[e.id].written)
  }

  predicate Spaced<C>(s: State<C>, e: Event<C>) {
    MovesTags(s, e) ==> s.now >= s.lastWrite + NANOS_PER_MILLI
  }

  /** Every write to a file in a tag comes at least a millisecond after the one before, and after the
      writes that made the files the run starts with. Device records are written at any time. */
  ghost predicate WritesSpaced<C>(s: State<C>, es: seq<Event<C>>) {
    forall i :: 0 <= i < |es| ==> Spaced(Run(s, es[..i]), es[i])
  }

  ghost predicate Initial<C>(s: State<C>) {
    && s.pending == map[] && s.sent == [] && s.notModified == []
    && StampsBounded(s)
  }

  ghost predicate StampsBounded<C>(s: State<C>) {
    s.lastWrite <= s.now && forall f: FileName :: Get(s.files, f).Stored? ==>
      Get(s.files, f).mtime <= if InTags(f) then s.lastWrite else s.now
  }

  // ---------- the invariant ----------

  /** The file was rewritten after a body with the tag looked at it. A device record may have been in
      the tag's millisecond too. */
  predicate Passed<C>(tag: nat, fs: Files<C>, f: FileName) {
    if InTags(f) then Tag(Get(fs, f)) > tag else Tag(Get(fs, f)) >= tag
  }

  /** What an answer showed of each file is still in the store, or the file has passed the tag; the file
      that the answered request rewrote has passed it. */
  ghost predicate FreshOrPassed<C>(r: Response<C>, fs: Files<C>) {
    && (forall i :: 0 <= i < |r.body| ==>
          Content(Get(fs, r.body[i].file)) == r.body[i].content || Passed(r.tag, fs, r.body[i].file))
    && (r.wrote.Some? ==> InTags(r.wrote.value) && Passed(r.tag, fs, r.wrote.value))
  }

  ghost predicate SentOk<C>(s: State<C>, n: nat, fs: Files<C>) {
    n <= |s.sent| && forall k :: 0 <= k < n ==> FreshOrPassed(s.sent[k], fs)
  }

  ghost predicate PendingOk<C>(s: State<C>, p: Pending<C>) {
    match p
    case Tagging(h, _, done, max, arrived, known) =>
      && max <= Millis(s.lastWrite) && done <= |Covered(h)|
      && (forall f: FileName :: Tag(Get(arrived, f)) <= Tag(Get(s.files, f)))
      && (forall k :: 0 <= k < done ==> Tag(Get(arrived, Covered(h)[k])) <= max)
      && SentOk(s, known, arrived)
    case Reading(tag, body) => tag <= Millis(s.lastWrite) && FreshOrPassed(Response(tag, body, None), s.files)
    case Changing(f, tag, written) =>
      tag <= Millis(s.lastWrite) && FreshOrPassed(Response(tag, [], if written then Some(f) else None), s.files) && InTags(f)
  }

  /** What a 304 tells the client: for every answer sent before the request arrived whose tag the header
      repeats, each covered file its body was built from was, at that single moment, stored as the body
      shows it; so was any other file that had not passed the tag; and the answer is not that of a
      request that rewrote a covered file. */
  ghost predicate VerdictTrue<C>(s: State<C>, v: Verdict<C>) {
    v.known <= |s.sent| &&
    forall k :: 0 <= k < v.known && v.header == Itoa(s.sent[k].tag) ==> TellsTruth(v, s.sent[k])
  }

  ghost predicate TellsTruth<C>(v: Verdict<C>, r: Response<C>) {
    && (forall i :: 0 <= i < |r.body| ==>
          r.body[i].file in Covered(v.handler) || !Passed(r.tag, v.arrived, r.body[i].file) ==>
            Content(Get(v.arrived, r.body[i].file)) == r.body[i].content)
    && (r.wrote.Some? ==> r.wrote.value !in Covered(v.handler))
  }

  ghost predicate Inv<C>(s: State<C>) {
    && StampsBounded(s)
    && (forall k :: 0 <= k < |s.sent| ==> s.sent[k].tag <= Millis(s.lastWrite))
    && SentOk(s, |s.sent|, s.files)
    && (forall id :: id in s.pending ==> PendingOk(s, s.pending[id]))
    && (forall i :: 0 <= i < |s.notModified| ==> VerdictTrue(s, s.notModified[i]))
  }

  // ---------- every step keeps the invariant ----------

  lemma TagsBounded<C>(s: State<C>, f: FileName)
    requires StampsBounded(s)
    ensures Tag(Get(s.files, f)) <= Millis(s.now)
    ensures InTags(f) ==> Tag(Get(s.files, f)) <= Millis(s.lastWrite)
  {
    MillisMonotone(if Get(s.files, f).Stored? then Get(s.files, f).mtime else 0, s.lastWrite);
    MillisMonotone(if Get(s.files, f).Stored? then Get(s.files, f).mtime else 0, s.now);
  }

  lemma MillisMonotone(a: nat, b: nat)
    ensures a <= b ==> Millis(a) <= Millis(b)
    ensures b >= a + NANOS_PER_MILLI ==> Millis(b) > Millis(a)
  {
  }

  /** A write a millisecond later passes every tag handed out so far, and one of a device record at any
      time does. */
  lemma WritePasses<C>(r: Response<C>, fs: Files<C>, f: FileName, data: C, now: nat)
    requires FreshOrPassed(r, fs) && r.tag <= Millis(now) && (InTags(f) ==> Millis(now) > r.tag)
    ensures FreshOrPassed(r, Put(fs, f, Stored(data, now)))
    ensures InTags(f) ==> FreshOrPassed(r.(wrote := Some(f)), Put(fs, f, Stored(data, now)))
  {
  }

  lemma WrittenKeepsInv<C>(s: State<C>, f: FileName, data: C)
    requires Inv(s) && (InTags(f) ==> s.now >= s.lastWrite + NANOS_PER_MILLI)
    ensures Inv(Written(s, f, data))
  {
    var s' := Written(s, f, data);
    MillisMonotone(s.lastWrite, s.now);
    assert forall g: FileName :: g != f ==> Get(s'.files, g) == Get(s.files, g);
    forall k | 0 <= k < |s.sent| ensures FreshOrPassed(s.sent[k], s'.files) {
      WritePasses(s.sent[k], s.files, f, data, s.now);
    }
    forall id | id in s.pending ensures PendingOk(s', s.pending[id]) {
      WriteKeepsPending(s, f, data, s.pending[id]);
    }
    assert forall i :: 0 <= i < |s.notModified| ==> VerdictTrue(s, s.notModified[i]) ==> VerdictTrue(s', s.notModified[i]);
  }

  lemma WriteKeepsPending<C>(s: State<C>, f: FileName, data: C, p: Pending<C>)
    requires StampsBounded(s) && PendingOk(s, p) && (InTags(f) ==> s.now >= s.lastWrite + NANOS_PER_MILLI)
    ensures PendingOk(Written(s, f, data), p)
  {
    MillisMonotone(s.lastWrite, s.now);
    TagsBounded(s, f);
    if p.Reading? {
      WritePasses(Response(p.tag, p.body, None), s.files, f, data, s.now);
    } else if p.Changing? {
      WritePasses(Response(p.tag, [], if p.written then Some(p.file) else None), s.files, f, data, s.now);
    }
  }

  /** A request that writes its file is then one whose file has passed its tag. */
  lemma WriteOwnKeepsInv<C>(s: State<C>, id: nat, data: C)
    requires Inv(s) && Spaced(s, WriteOwn(id, data))
    ensures Inv(Step(s, WriteOwn(id, data)))
  {
    if MovesTags(s, WriteOwn(id, data)) {
      var f := s.pending[id].file;
      assert PendingOk(s, s.pending[id]);
      WrittenKeepsInv(s, f, data);
      MillisMonotone(s.lastWrite, s.now);
      WritePasses(Response(s.pending[id].tag, [], None), s.files, f, data, s.now);
      OthersKept(Written(s, f, data), Step(s, WriteOwn(id, data)), id);
    }
  }

  /** Steps of one request leave the other requests alone. */
  lemma OthersKept<C>(s: State<C>, s': State<C>, id: nat)
    requires Inv(s) && s'.files == s.files && s'.lastWrite == s.lastWrite && s.sent <= s'.sent
    requires forall j :: j in s'.pending && j != id ==> j in s.pending && s'.pending[j] == s.pending[j]
    ensures forall j :: j in s'.pending && j != id ==> PendingOk(s', s'.pending[j])
    ensures forall i :: 0 <= i < |s.notModified| ==> VerdictTrue(s', s.notModified[i])
  {
    forall j | j in s'.pending && j != id ensures PendingOk(s', s'.pending[j]) {
      assert PendingOk(s, s.pending[j]);
    }
    forall i | 0 <= i < |s.notModified| ensures VerdictTrue(s', s.notModified[i]) {
      assert VerdictTrue(s, s.notModified[i]);
    }
  }

  lemma StatKeepsPending<C>(s: State<C>, p: Pending<C>)
    requires StampsBounded(s) && PendingOk(s, p) && p.Tagging? && p.done < |Covered(p.handler)|
    ensures var t := Tag(Get(s.files, Covered(p.handler)[p.done]));
      PendingOk(s, p.(done := p.done + 1, max := if t > p.max then t else p.max))
  {
    TagsBounded(s, Covered(p.handler)[p.done]);
  }

  /** The heart of the matter: a tag that still matches has not been passed. */
  lemma {:induction false} MatchingTagIsTrue<C>(s: State<C>, p: Pending<C>)
    requires PendingOk(s, p) && p.Tagging? && p.done == |Covered(p.handler)| && p.header == Itoa(p.max)
    ensures VerdictTrue(s, Verdict(p.handler, p.header, p.arrived, p.known))
  {
    var v := Verdict(p.handler, p.header, p.arrived, p.known);
    forall k | 0 <= k < p.known && p.header == Itoa(s.sent[k].tag) ensures TellsTruth(v, s.sent[k]) {
      ItoaInjective(p.max, s.sent[k].tag);
      assert FreshOrPassed(s.sent[k], p.arrived);
      forall f | f in Covered(p.handler) ensures !Passed(p.max, p.arrived, f) {
        var i :| 0 <= i < p.done && Covered(p.handler)[i] == f;
      }
    }
  }

  lemma DecideKeepsInv<C>(s: State<C>, id: nat)
    requires Inv(s)
    ensures Inv(Step(s, Decide(id)))
  {
    var s' := Step(s, Decide(id));
    OthersKept(s, s', id);
    if id in s.pending && s.pending[id].Tagging? && s.pending[id].done == |Covered(s.pending[id].handler)| {
      assert PendingOk(s, s.pending[id]);
      if s.pending[id].header == Itoa(s.pending[id].max) {
        MatchingTagIsTrue(s, s.pending[id]);
        var v := s'.notModified[|s.notModified|];
        assert VerdictTrue(s, v) && VerdictTrue(s', v);
      }
    }
  }

  lemma RequestStepKeepsInv<C>(s: State<C>, e: Event<C>)
    requires Inv(s) && (e.Arrive? || e.Stat? || e.ReadFile? || e.Fail? || e.Change?)
    ensures Inv(Step(s, e))
  {
    var s' := Step(s, e);
    OthersKept(s, s', e.id);
    if e.id in s'.pending {
      if e.Stat? && s' != s {
        StatKeepsPending(s, s.pending[e.id]);
      } else if e.Change? && s' != s {
        TagsBounded(s, e.file);
      } else if e.id in s.pending {
        assert PendingOk(s, s.pending[e.id]);
      }
      assert PendingOk(s', s'.pending[e.id]);
    }
  }

  lemma SendKeepsInv<C>(s: State<C>, id: nat)
    requires Inv(s)
    ensures Inv(Step(s, Send(id)))
  {
    OthersKept(s, Step(s, Send(id)), id);
    if id in s.pending {
      assert PendingOk(s, s.pending[id]);
    }
  }

  lemma {:induction false} StepKeepsInv<C>(s: State<C>, e: Event<C>)
    requires Inv(s) && Spaced(s, e)
    ensures Inv(Step(s, e))
  {
    match e
    case Tick(_) =>
      OthersKept(s, Step(s, e), 0);
      assert forall id :: id in s.pending ==> PendingOk(Step(s, e), s.pending[id]);
    case Write(f, data) => WrittenKeepsInv(s, f, data);
    case WriteOwn(id, data) => WriteOwnKeepsInv(s, id, data);
    case Decide(id) => DecideKeepsInv(s, id);
    case Send(id) => SendKeepsInv(s, id);
    case _ => RequestStepKeepsInv(s, e);
  }

  lemma {:induction false} RunKeepsInv<C>(s: State<C>, es: seq<Event<C>>)
    requires Initial(s) && WritesSpaced(s, es)
    ensures Inv(Run(s, es))
  {
    if es != [] {
      var n := |es| - 1;
      forall i | 0 <= i < n ensures Spaced(Run(s, es[..n][..i]), es[..n][i]) {
        assert es[..n][..i] == es[..i] && Spaced(Run(s, es[..i]), es[i]);
      }
      RunKeepsInv(s, es[..n]);
      assert Spaced(Run(s, es[..n]), es[n]);
      StepKeepsInv(Run(s, es[..n]), es[n]);
    }
  }

  /** In every interleaving with writes a millisecond apart, every 304 tells the truth. */
  lemma {:induction false} NotModifiedIsTrue<C>(s: State<C>, es: seq<Event<C>>, i: nat)
    requires Initial(s) && WritesSpaced(s, es) && i < |Run(s, es).notModified|
    ensures VerdictTrue(Run(s, es), Run(s, es).notModified[i])
  {
    RunKeepsInv(s, es);
  }

  /** The tag that a preset or recents request answers with, read before its own write, is never answered
      304 by a handler whose tag covers the file, once the answer was sent. */
  lemma {:induction false} TagOfChangeNeverMatches<C>(s: State<C>, es: seq<Event<C>>, i: nat, k: nat)
    requires Initial(s) && WritesSpaced(s, es) && i < |Run(s, es).notModified|
    requires k < |Run(s, es).sent| && k < Run(s, es).notModified[i].known
    requires Run(s, es).sent[k].wrote.Some? && Run(s, es).sent[k].wrote.value in Covered(Run(s, es).notModified[i].handler)
    ensures Run(s, es).notModified[i].header != Itoa(Run(s, es).sent[k].tag)
  {
    NotModifiedIsTrue(s, es, i);
  }

  // ---------- requests that are not disturbed ----------

  lemma {:induction false} RunOn<C>(s: State<C>, es: seq<Event<C>>, more: seq<Event<C>>)
    ensures Run(s, es + more) == Run(Run(s, es), more)
  {
    if more == [] {
      assert es + more == es;
    } else {
      var n := |more| - 1;
      RunOn(s, es, more[..n]);
      assert (es + more)[..|es| + n] == es + more[..n];
    }
  }

  lemma RunOne<C>(s: State<C>, e: Event<C>)
    ensures Run(s, [e]) == Step(s, e)
  {
    assert [e][..0] == [];
  }

  function Stats<C>(id: nat, n: nat): seq<Event<C>> {
    seq(n, _ => Stat(id))
  }

  lemma {:induction false} StatsRun<C>(s: State<C>, id: nat, n: nat)
    requires id in s.pending && s.pending[id].Tagging? && s.pending[id].done == s.pending[id].max == 0
    requires n <= |Covered(s.pending[id].handler)|
    ensures var p := s.pending[id];
      Run(s, Stats(id, n)) == s.(pending := s.pending[id := p.(done := n, max := MaxTag(s.files, Covered(p.handler)[..n]))])
  {
    var p := s.pending[id];
    if n == 0 {
      assert s.pending[id := p] == s.pending;
    } else {
      StatsRun(s, id, n - 1);
      assert Stats<C>(id, n)[..n - 1] == Stats(id, n - 1);
      assert Covered(p.handler)[..n][..n - 1] == Covered(p.handler)[..n - 1];
      var q := p.(done := n - 1, max := MaxTag(s.files, Covered(p.handler)[..n - 1]));
      var q' := p.(done := n, max := MaxTag(s.files, Covered(p.handler)[..n]));
      assert s.pending[id := q][id := q'] == s.pending[id := q'];
    }
  }

  /** A request up to its decision, with nothing in between. */
  function Quiet<C>(id: nat, h: Handler, header: string): seq<Event<C>> {
    [Arrive(id, h, header)] + Stats(id, |Covered(h)|) + [Decide(id)]
  }

  /** Undisturbed, a request is answered 304 exactly when its header prints the current tag. */
  lemma {:induction false} QuietGet<C>(s: State<C>, id: nat, h: Handler, header: string)
    requires id !in s.pending
    ensures var t := MaxTag(s.files, Covered(h));
      Run(s, Quiet(id, h, header)) ==
        if header == Itoa(t) then s.(notModified := s.notModified + [Verdict(h, header, s.files, |s.sent|)])
        else s.(pending := s.pending[id := Reading(t, [])])
  {
    var n := |Covered(h)|;
    var s1 := Step(s, Arrive(id, h, header));
    RunOne(s, Arrive(id, h, header));
    StatsRun(s1, id, n);
    RunOn(s, [Arrive(id, h, header)], Stats(id, n));
    var s2 := Run(s1, Stats(id, n));
    RunOne(s2, Decide(id));
    RunOn(s, [Arrive(id, h, header)] + Stats(id, n), [Decide(id)]);
    assert Covered(h)[..n] == Covered(h);
    assert s2.pending - {id} == s.pending;
    var q := s2.pending[id];
    assert s2.pending[id := Reading(q.max, [])] == s.pending[id := Reading(q.max, [])];
  }

  /** An undisturbed preset or recents request replaces its file, and answers with the tag that the file
      had before. */
  lemma {:induction false} QuietChange<C>(s: State<C>, id: nat, f: FileName, data: C)
    requires id !in s.pending && (f == PresetsFile || f == RecentsFile)
    ensures var events: seq<Event<C>> := [Change(id, f)] + [WriteOwn(id, data)] + [Send(id)];
      var tag := if Get(s.files, f).Missing? then 0 else Get(s.files, f).mtime / 1_000_000;
      Run(s, events) == s.(files := Put(s.files, f, Stored(data, s.now)), lastWrite := s.now,
                           sent := s.sent + [Response(tag, [], Some(f))])
  {
    RunOne(s, Change(id, f));
    var s1 := Step(s, Change(id, f));
    RunOn(s, [Change(id, f)], [WriteOwn(id, data)]);
    RunOne(s1, WriteOwn(id, data));
    var s2 := Step(s1, WriteOwn(id, data));
    RunOn(s, [Change(id, f)] + [WriteOwn(id, data)], [Send(id)]);
    RunOne(s2, Send(id));
    assert s2.pending - {id} == s.pending;
  }

  /** A first request for the body, looking at one file, with nothing in between. */
  function Fetch<C>(id: nat, h: Handler, f: FileName): seq<Event<C>> {
    Quiet(id, h, "") + [ReadFile(id, f)] + [Send(id)]
  }

  lemma Fetched<C>(s: State<C>, id: nat, h: Handler, f: FileName)
    requires id !in s.pending
    ensures Run(s, Fetch(id, h, f))
         == s.(sent := s.sent + [Response(MaxTag(s.files, Covered(h)), [ReadItem(f, Content(Get(s.files, f)))], None)])
  {
    var t := MaxTag(s.files, Covered(h));
    ItoaNonEmpty(t);
    QuietGet(s, id, h, "");
    var s1 := Run(s, Quiet(id, h, ""));
    RunOn(s, Quiet(id, h, ""), [ReadFile(id, f)]);
    RunOne(s1, ReadFile(id, f));
    var s2 := Step(s1, ReadFile(id, f));
    RunOn(s, Quiet(id, h, "") + [ReadFile(id, f)], [Send(id)]);
    RunOne(s2, Send(id));
    assert s2.pending[id].body == [ReadItem(f, Content(Get(s.files, f)))];
    assert s2.pending - {id} == s.pending;
  }

  function FetchWriteRevalidate<C>(s: State<C>, id: nat, h: Handler, f: FileName, data: C): seq<Event<C>> {
    Fetch(id, h, f) + [Write(f, data)] + Quiet(id, h, Itoa(MaxTag(s.files, Covered(h))))
  }

  /** A client fetches a body, a file is rewritten, the client asks again with the tag it got: it is
      told 304 exactly when the rewrite left the handler's tag as it was. */
  lemma {:induction false} RewriteUnnoticedIff<C>(s: State<C>, id: nat, h: Handler, f: FileName, data: C)
    requires id !in s.pending
    ensures var s' := Run(s, FetchWriteRevalidate(s, id, h, f, data));
      var after := Put(s.files, f, Stored(data, s.now));
      s'.notModified == s.notModified
        + if MaxTag(after, Covered(h)) == MaxTag(s.files, Covered(h))
          then [Verdict(h, Itoa(MaxTag(s.files, Covered(h))), after, |s.sent| + 1)] else []
    ensures Run(s, FetchWriteRevalidate(s, id, h, f, data)).sent
         == s.sent + [Response(MaxTag(s.files, Covered(h)), [ReadItem(f, Content(Get(s.files, f)))], None)]
  {
    var t := MaxTag(s.files, Covered(h));
    Fetched(s, id, h, f);
    var s1 := Run(s, Fetch(id, h, f));
    RunOn(s, Fetch(id, h, f), [Write(f, data)]);
    RunOne(s1, Write(f, data));
    var s2 := Step(s1, Write(f, data));
    RunOn(s, Fetch(id, h, f) + [Write(f, data)], Quiet(id, h, Itoa(t)));
    QuietGet(s2, id, h, Itoa(t));
    ItoaInjective(t, MaxTag(s2.files, Covered(h)));
  }

  lemma {:induction false} MaxTagElsewhere<C>(fs: Files<C>, covered: seq<FileName>, f: FileName, v: Version<C>)
    requires f !in covered
    ensures MaxTag(Put(fs, f, v), covered) == MaxTag(fs, covered)
  {
    if covered != [] {
      var n := |covered| - 1;
      assert covered[n] != f;
      MaxTagElsewhere(fs, covered[..n], f, v);
    }
  }

  /** However late a file outside the handler's tag is rewritten, the client is told that nothing
      changed. */
  lemma UncoveredGoesUnnoticed<C>(s: State<C>, id: nat, h: Handler, f: FileName, data: C)
    requires id !in s.pending && f !in Covered(h)
    ensures |Run(s, FetchWriteRevalidate(s, id, h, f, data)).notModified| == |s.notModified| + 1
  {
    RewriteUnnoticedIff(s, id, h, f, data);
    MaxTagElsewhere(s.files, Covered(h), f, Stored(data, s.now));
  }

  /** That is so for the sources, which the presets body shows. */
  lemma {:induction false} SourcesGoUnnoticed<C>(s: State<C>, id: nat, data: C)
    requires id !in s.pending
    ensures |Run(s, FetchWriteRevalidate(s, id, PresetsOnly, SourcesFile, data)).notModified| == |s.notModified| + 1
  {
    UncoveredGoesUnnoticed(s, id, PresetsOnly, SourcesFile, data);
  }

  /** And for the device records, which the account body shows. */
  lemma {:induction false} DevicesGoUnnoticed<C>(s: State<C>, id: nat, dir: string, data: C)
    requires id !in s.pending
    ensures |Run(s, FetchWriteRevalidate(s, id, AccountFull, DeviceFile(dir), data)).notModified| == |s.notModified| + 1
  {
    UncoveredGoesUnnoticed(s, id, AccountFull, DeviceFile(dir), data);
  }

  lemma {:induction false} MaxTagIsLargest<C>(fs: Files<C>, covered: seq<FileName>, f: FileName, bound: nat)
    requires f in covered && forall g :: g in covered ==> Tag(Get(fs, g)) <= bound
    ensures Tag(Get(fs, f)) <= MaxTag(fs, covered) <= bound
  {
    var n := |covered| - 1;
    if f in covered[..n] {
      MaxTagIsLargest(fs, covered[..n], f, bound);
    } else if n > 0 {
      MaxTagIsLargest(fs, covered[..n], covered[0], bound);
    } else {
      assert covered[..n] == [];
    }
  }

  /** A rewrite makes the handler's tag the millisecond of the write. */
  lemma TagOfRewritten<C>(s: State<C>, h: Handler, f: FileName, data: C)
    requires StampsBounded(s) && f in Covered(h)
    ensures MaxTag(Put(s.files, f, Stored(data, s.now)), Covered(h)) == Millis(s.now)
  {
    var after := Put(s.files, f, Stored(data, s.now));
    forall g | g in Covered(h) ensures Tag(Get(after, g)) <= Millis(s.now) {
      TagsBounded(s, g);
      MillisMonotone(s.lastWrite, s.now);
    }
    MaxTagIsLargest(after, Covered(h), f, Millis(s.now));
  }

  /** For a file that the tag covers, the clock decides: the rewrite goes unnoticed exactly when it
      falls into the millisecond of the tag already handed out; and if it changed what the body showed,
      the 304 is then wrong. */
  lemma {:induction false} SameMillisecondUnnoticed<C>(s: State<C>, id: nat, h: Handler, f: FileName, data: C)
    requires id !in s.pending && StampsBounded(s) && f in Covered(h)
    ensures var s' := Run(s, FetchWriteRevalidate(s, id, h, f, data));
      && (|s'.notModified| == |s.notModified| + 1 <==> Millis(s.now) == MaxTag(s.files, Covered(h)))
      && (|s'.notModified| == |s.notModified| + 1 && Content(Get(s.files, f)) != Some(data) ==>
            !VerdictTrue(s', s'.notModified[|s.notModified|]))
  {
    RewriteUnnoticedIff(s, id, h, f, data);
    TagOfRewritten(s, h, f, data);
    var s' := Run(s, FetchWriteRevalidate(s, id, h, f, data));
    assert Get(Put(s.files, f, Stored(data, s.now)), f) == Stored(data, s.now);
    assert s'.sent[|s.sent|].body[0].file == f;
  }

  lemma LaterRewriteNoticed<C>(s: State<C>, id: nat, h: Handler, f: FileName, data: C)
    requires id !in s.pending && StampsBounded(s) && f in Covered(h) && s.now >= s.lastWrite + NANOS_PER_MILLI
    requires forall g :: g in Covered(h) ==> InTags(g)
    ensures |Run(s, FetchWriteRevalidate(s, id, h, f, data)).notModified| == |s.notModified|
  {
    RewriteUnnoticedIff(s, id, h, f, data);
    TagOfRewritten(s, h, f, data);
    forall g | g in Covered(h) ensures Tag(Get(s.files, g)) <= Millis(s.lastWrite) {
      TagsBounded(s, g);
    }
    MaxTagIsLargest(s.files, Covered(h), f, Millis(s.lastWrite));
    MillisMonotone(s.lastWrite, s.now);
  }

  /** A rewrite of presets, sources or recents, a millisecond after the write before it, always makes the
      account handler send the body again. */
  lemma {:induction false} AccountRewriteNoticed<C>(s: State<C>, id: nat, f: FileName, data: C)
    requires id !in s.pending && StampsBounded(s) && s.now >= s.lastWrite + NANOS_PER_MILLI
    requires f == PresetsFile || f == SourcesFile || f == RecentsFile
    ensures |Run(s, FetchWriteRevalidate(s, id, AccountFull, f, data)).notModified| == |s.notModified|
  {
    assert f in [PresetsFile, SourcesFile, RecentsFile];
    LaterRewriteNoticed(s, id, AccountFull, f, data);
  }

  /** And a rewrite of the presets the presets handler. */
  lemma {:induction false} PresetsRewriteNoticed<C>(s: State<C>, id: nat, data: C)
    requires id !in s.pending && StampsBounded(s) && s.now >= s.lastWrite + NANOS_PER_MILLI
    ensures |Run(s, FetchWriteRevalidate(s, id, PresetsOnly, PresetsFile, data)).notModified| == |s.notModified|
  {
    assert PresetsFile in [PresetsFile];
    LaterRewriteNoticed(s, id, PresetsOnly, PresetsFile, data);
  }

  /** So the distance between writes is needed: with all of the account's files and a device stored, a
      change within the millisecond stays hidden from the account tag. */
  lemma {:induction false} HiddenChange<C>(was: C, data: C, now: nat)
    requires was != data
    ensures var v := Stored(was, now);
      var s := State(now, now, Files(v, v, v, map["d" := v]), map[], [], []);
      var s' := Run(s, FetchWriteRevalidate(s, 0, AccountFull, PresetsFile, data));
      && Initial(s) && |s'.notModified| == 1 && !VerdictTrue(s', s'.notModified[0])
  {
    var v := Stored(was, now);
    var s: State<C> := State(now, now, Files(v, v, v, map["d" := v]), map[], [], []);
    MaxTagIsLargest(s.files, Covered(AccountFull), PresetsFile, Millis(now));
    SameMillisecondUnnoticed(s, 0, AccountFull, PresetsFile, data);
  }
}
