/**
 * When a consume loses a notification. Nothing is asked here of epochs, evictions or renewed notifications: only that no
 * write of the miniblock's fresh record fails, that no header has the miniblock's hash, and that the miniblock's hash
 * fixes whether it is notarized at both sides at once.
 */
module InterleavingLosses {
  import opened Words
  import opened Schemas
  import opened History
  import opened HistoryRuns
  import opened HistoryEvictions
  import opened Interleaving

  /** The recorder has saved an epoch for the miniblock and has yet to put the record there. */
  predicate AboutToPut(s: System, h: Slice) {
    s.recorder.EpochSaved? && s.recorder.mb.hash == h
  }

  predicate Steady(s: System, step: Step, h: Slice, bothSides: bool) {
    match step
    case SaveHeader(hdr) => hdr.hash != h
    case RecorderFails => !AboutToPut(s, h)
    case Notify(note) => note.hash == h ==> (note.place == Both <==> bothSides)
    case _ => true
  }

  ghost predicate SteadyRun(steps: seq<Step>, h: Slice, bothSides: bool) {
    steps == [] ||
    var (init, last) := (steps[..|steps| - 1], steps[|steps| - 1]);
    SteadyRun(init, h, bothSides) && (After(init).Some? ==> Steady(After(init).value, last, h, bothSides))
  }

  // ---------- what a system promises for a miniblock ----------

  /** The record that lookups give, once the recorder has put what it has saved an epoch for. */
  function Base(s: System, h: Slice): Option<MiniblockMetadata> {
    if AboutToPut(s, h) then Some(FreshRecord(s.recorder.hdr, s.recorder.mb)) else LookupByHash(s.st, h)
  }

  /** That record once everything that waits for it is consumed. */
  function Prospect(s: System, h: Slice): Option<MiniblockMetadata> {
    match Base(s, h)
    case None => None
    case Some(md) => Some(Settled(md, HashView(s.st, h)))
  }

  /** The removal of the consumed notification changes nothing for its miniblock. */
  predicate RemovalLosesNothing(s: System)
    requires s.consumer.PatchedPut?
  {
    Prospect(Fire(s, RemovePending), s.consumer.hash) == Prospect(s, s.consumer.hash)
  }

  /** The record the consumer has put is the one that lookups give. */
  predicate InPlace(s: System)
    requires s.consumer.PatchedPut?
  {
    var (h, md) := (s.consumer.hash, s.consumer.md);
    !AboutToPut(s, h) && Find(s.st.epochs, h) == Some(md.epoch) && Find(s.st.records, Key(md.epoch, h)) == Some(md)
  }

  predicate Unpatched(s: System, h: Slice) {
    Base(s, h).Some? && Blank(Base(s, h).value, Source) && Blank(Base(s, h).value, Destination)
  }

  // ---------- the invariant ----------

  ghost predicate RecordsOf(st: State, h: Slice) {
    forall e: uint32 :: Key(e, h) in st.records ==> st.records[Key(e, h)].epoch == e
  }

  predicate Families(st: State, h: Slice, bothSides: bool) {
    if bothSides then h !in st.source && h !in st.destination else h !in st.both
  }

  /** Since the consumer read the epoch, either it is still the one, or lookups give a fresh record. */
  ghost predicate ConsumerKnows(s: System, h: Slice) {
    var c := s.consumer;
    c.NotConsuming? || c.hash != h ||
    (h in s.st.Pending(c.place) &&
     match c
     case EpochRead(_, _, _, epoch) => (!AboutToPut(s, h) && Find(s.st.epochs, h) == Some(epoch)) || Unpatched(s, h)
     case RecordRead(_, _, _, md) => (!AboutToPut(s, h) && Find(s.st.epochs, h) == Some(md.epoch)) || Unpatched(s, h)
     case PatchedPut(place, _, n, md) => Patch(md, place, n) == md && (InPlace(s) || Unpatched(s, h))
     case _ => true)
  }

  ghost predicate Inv(s: System, h: Slice, bothSides: bool) {
    && RecordsOf(s.st, h) && Families(s.st, h, bothSides)
    && (AboutToPut(s, h) ==> Find(s.st.epochs, h) == Some(s.recorder.hdr.epoch))
    && ConsumerKnows(s, h)
  }

  lemma {:induction false} FreshIsBlank(hdr: Header, mb: Miniblock)
    ensures Blank(FreshRecord(hdr, mb), Source) && Blank(FreshRecord(hdr, mb), Destination)
  {
  }

  lemma {:induction false} RecorderKeepsInv(s: System, step: Step, h: Slice, bothSides: bool)
    requires Inv(s, h, bothSides) && Enabled(s, step) && Steady(s, step, h, bothSides)
    requires step.SaveHeader? || step.CheckCache? || step.MarkInserted? || step.PutTx? || step.DoneIndexing? || step.RecorderFails?
    ensures Inv(Fire(s, step), h, bothSides)
  {
    var s' := Fire(s, step);
    assert s'.st.records == s.st.records && Find(s'.st.epochs, h) == Find(s.st.epochs, h);
    assert Base(s', h) == Base(s, h);
  }

  lemma {:induction false} SaveEpochKeepsInv(s: System, h: Slice, bothSides: bool)
    requires Inv(s, h, bothSides) && Enabled(s, SaveEpoch)
    ensures Inv(Fire(s, SaveEpoch), h, bothSides)
  {
    FreshIsBlank(s.recorder.hdr, s.recorder.mb);
    var s' := Fire(s, SaveEpoch);
    if s.recorder.mb.hash == h {
      assert Unpatched(s', h);
    } else {
      assert Base(s', h) == Base(s, h);
    }
  }

  lemma {:induction false} PutFreshKeepsInv(s: System, h: Slice, bothSides: bool)
    requires Inv(s, h, bothSides) && Enabled(s, PutFresh)
    ensures Inv(Fire(s, PutFresh), h, bothSides)
  {
    FreshIsBlank(s.recorder.hdr, s.recorder.mb);
    var s' := Fire(s, PutFresh);
    assert Base(s', h) == Base(s, h);
    if s.recorder.mb.hash == h {
      assert Unpatched(s', h);
    }
  }

  lemma {:induction false} NotifyKeepsInv(s: System, note: Note, h: Slice, bothSides: bool)
    requires Inv(s, h, bothSides) && Steady(s, Notify(note), h, bothSides)
    ensures Inv(Fire(s, Notify(note)), h, bothSides)
  {
    var s' := Fire(s, Notify(note));
    EnqueuedPending(s.st, note, h, bothSides);
    assert s'.st.records == s.st.records && s'.st.epochs == s.st.epochs;
    assert Base(s', h) == Base(s, h);
  }

  lemma {:induction false} EnqueuedPending(st: State, note: Note, h: Slice, bothSides: bool)
    requires note.hash == h ==> (note.place == Both <==> bothSides)
    ensures var st' := Enqueue(st, note);
            && (Families(st, h, bothSides) ==> Families(st', h, bothSides))
            && (forall place :: h in st.Pending(place) ==> h in st'.Pending(place))
            && st'.records == st.records && st'.epochs == st.epochs && st'.dedup == st.dedup
  {
    match note.place
    case Source =>
    case Destination =>
    case Both =>
  }

  lemma {:induction false} ReadingKeepsInv(s: System, step: Step, h: Slice, bothSides: bool)
    requires Inv(s, h, bothSides) && Enabled(s, step)
    requires step.Take? || step.ReadEpoch? || step.ReadRecord? || step.ConsumerFails?
    ensures Inv(Fire(s, step), h, bothSides)
  {
    var s' := Fire(s, step);
    assert s'.st == s.st && Base(s', h) == Base(s, h);
    if step.ReadEpoch? && AboutToPut(s, h) {
      FreshIsBlank(s.recorder.hdr, s.recorder.mb);
    }
  }

  lemma {:induction false} PutPatchedKeepsInv(s: System, h: Slice, bothSides: bool)
    requires Inv(s, h, bothSides) && Enabled(s, PutPatched)
    ensures Inv(Fire(s, PutPatched), h, bothSides)
  {
    var (c, s') := (s.consumer, Fire(s, PutPatched));
    assert Patch(Patch(c.md, c.place, c.n), c.place, c.n) == Patch(c.md, c.place, c.n);
    if c.hash == h && (AboutToPut(s, h) || Find(s.st.epochs, h) != Some(c.md.epoch)) {
      assert Base(s', h) == Base(s, h);
    }
  }

  lemma {:induction false} RemoveKeepsInv(s: System, h: Slice, bothSides: bool)
    requires Inv(s, h, bothSides) && Enabled(s, RemovePending)
    ensures Inv(Fire(s, RemovePending), h, bothSides)
  {
    RemovedPending(s.st, s.consumer.place, s.consumer.hash, h, bothSides);
  }

  lemma {:induction false} RemovedPending(st: State, place: Place, forgotten: Slice, h: Slice, bothSides: bool)
    ensures var st' := st.WithPending(place, st.Pending(place) - {forgotten});
            && (Families(st, h, bothSides) ==> Families(st', h, bothSides))
            && st'.records == st.records && st'.epochs == st.epochs && st'.dedup == st.dedup
  {
    match place
    case Source =>
    case Destination =>
    case Both =>
  }

  lemma {:induction false} StepKeepsInv(s: System, step: Step, h: Slice, bothSides: bool)
    requires Inv(s, h, bothSides) && Enabled(s, step) && Steady(s, step, h, bothSides)
    ensures Inv(Fire(s, step), h, bothSides)
  {
    match step
    case SaveEpoch => SaveEpochKeepsInv(s, h, bothSides);
    case PutFresh => PutFreshKeepsInv(s, h, bothSides);
    case Notify(note) => NotifyKeepsInv(s, note, h, bothSides);
    case PutPatched => PutPatchedKeepsInv(s, h, bothSides);
    case RemovePending => RemoveKeepsInv(s, h, bothSides);
    case Take(_, _) => ReadingKeepsInv(s, step, h, bothSides);
    case ReadEpoch => ReadingKeepsInv(s, step, h, bothSides);
    case ReadRecord => ReadingKeepsInv(s, step, h, bothSides);
    case ConsumerFails => ReadingKeepsInv(s, step, h, bothSides);
    case _ => RecorderKeepsInv(s, step, h, bothSides);
  }

  lemma {:induction false} SteadyRunKeepsInv(steps: seq<Step>, h: Slice, bothSides: bool)
    requires After(steps).Some? && SteadyRun(steps, h, bothSides)
    ensures Inv(After(steps).value, h, bothSides)
  {
    if steps != [] {
      var (init, last) := (steps[..|steps| - 1], steps[|steps| - 1]);
      SteadyRunKeepsInv(init, h, bothSides);
      StepKeepsInv(After(init).value, last, h, bothSides);
    }
  }

  // ---------- the exact condition ----------

  /** Forgetting what waits at a place changes the settled record unless the record shows it already. */
  lemma {:induction false} ForgettingIsSafe(md: MiniblockMetadata, v: View, place: Place, w: Notification)
    requires OneFamily(v, place == Both) && v.Waiting(place) == Some(w)
    ensures Settled(md, v.WithWaiting(place, None)) == Settled(md, v) <==> Patch(md, place, w) == md
  {
    match place
    case Source =>
    case Destination =>
    case Both =>
  }

  lemma {:induction false} ShownOnce(md: MiniblockMetadata, place: Place, n: Notification, w: Notification)
    requires Patch(md, place, n) == md
    ensures Patch(md, place, w) == md <==> w == n
  {
  }

  lemma {:induction false} RemovalOnView(s: System)
    requires s.consumer.PatchedPut?
    ensures var (h, place) := (s.consumer.hash, s.consumer.place);
            HashView(Fire(s, RemovePending).st, h) == HashView(s.st, h).WithWaiting(place, None)
  {
    match s.consumer.place
    case Source =>
    case Destination =>
    case Both =>
  }

  lemma {:induction false} RemovalUnderInv(s: System, bothSides: bool)
    requires s.consumer.PatchedPut? && Inv(s, s.consumer.hash, bothSides)
    ensures s.consumer.hash in s.st.Pending(s.consumer.place)
    ensures var w := s.st.Pending(s.consumer.place)[s.consumer.hash];
            RemovalLosesNothing(s) <==> if InPlace(s) then w == s.consumer.n else w == NO_NOTIFICATION
  {
    var (h, place, n) := (s.consumer.hash, s.consumer.place, s.consumer.n);
    var (v, md) := (HashView(s.st, h), Base(s, h).value);
    var w := s.st.Pending(place)[h];
    RemovalOnView(s);
    assert Base(Fire(s, RemovePending), h) == Base(s, h);
    ForgettingIsSafe(md, v, place, w);
    if InPlace(s) {
      ShownOnce(md, place, n, w);
    } else {
      assert Patch(md, place, NO_NOTIFICATION) == md;
      ShownOnce(md, place, NO_NOTIFICATION, w);
    }
  }

  /**
   * In every reachable system the removal of a consumed notification loses nothing if and only if what waits is still
   * the notification that was taken and the record it was put into is still the one that lookups give. (Where another
   * record has taken its place, only a notification that says nothing can be forgotten.)
   */
  lemma {:induction false} RemovalLosesNothingIff(steps: seq<Step>, bothSides: bool)
    requires After(steps).Some? && After(steps).value.consumer.PatchedPut?
    requires SteadyRun(steps, After(steps).value.consumer.hash, bothSides)
    ensures var s := After(steps).value;
            var waiting := Find(s.st.Pending(s.consumer.place), s.consumer.hash);
            RemovalLosesNothing(s) <==> waiting == Some(if InPlace(s) then s.consumer.n else NO_NOTIFICATION)
  {
    var s := After(steps).value;
    SteadyRunKeepsInv(steps, s.consumer.hash, bothSides);
    RemovalUnderInv(s, bothSides);
  }

  // ---------- the same, told from the steps since the notification was taken ----------

  /** What has happened to the notification being consumed: a newer one, and an epoch saved since the epoch was read. */
  datatype Watch = Watch(newer: Option<Notification>, moved: bool)

  function Watched(steps: seq<Step>): Watch {
    if steps == [] then Watch(None, false)
    else
      var (init, last) := (steps[..|steps| - 1], steps[|steps| - 1]);
      var before := After(init);
      if before.None? then Watched(init) else WatchStep(Watched(init), before.value, last)
  }

  function WatchStep(w: Watch, s: System, step: Step): Watch {
    match step
    case Take(_, _) => Watch(None, false)
    case ReadEpoch => w.(moved := false)
    case Notify(note) => if Handles(s.consumer, note.place, note.hash) then w.(newer := Some(note.notification)) else w
    case SaveEpoch => if SavesFor(s.recorder, s.consumer) then w.(moved := true) else w
    case _ => w
  }

  predicate SavesFor(r: Recorder, c: Consumer) {
    r.Checked? && !c.NotConsuming? && r.mb.hash == c.hash
  }

  function Latest(w: Watch, n: Notification): Notification {
    if w.newer.Some? then w.newer.value else n
  }

  /** What waits is the last notification since the one taken. */
  ghost predicate WaitsLatest(s: System, w: Watch) {
    var c := s.consumer;
    c.NotConsuming? || Find(s.st.Pending(c.place), c.hash) == Some(Latest(w, c.n))
  }

  lemma {:induction false} StepKeepsLatest(s: System, w: Watch, step: Step)
    requires WaitsLatest(s, w) && Enabled(s, step)
    ensures WaitsLatest(Fire(s, step), WatchStep(w, s, step))
  {
    if step.Notify? {
      EnqueuedAt(s.st, step.note);
    }
  }

  lemma {:induction false} EnqueuedAt(st: State, note: Note)
    ensures forall place :: Enqueue(st, note).Pending(place) ==
              if place == note.place then st.Pending(place)[note.hash := note.notification] else st.Pending(place)
  {
    match note.place
    case Source =>
    case Destination =>
    case Both =>
  }

  lemma {:induction false} RunWaitsLatest(steps: seq<Step>)
    requires After(steps).Some?
    ensures WaitsLatest(After(steps).value, Watched(steps))
  {
    if steps != [] {
      var (init, last) := (steps[..|steps| - 1], steps[|steps| - 1]);
      RunWaitsLatest(init);
      StepKeepsLatest(After(init).value, Watched(init), last);
    }
  }

  /** No key of the miniblock is evicted, whatever its epoch. */
  ghost predicate KeysKept(step: Step, h: Slice) {
    step.MarkInserted? ==> forall e: uint32 {:trigger Key(e, h)} :: DedupKey(Key(e, h)) !in step.evicted
  }

  ghost predicate KeysKeptInRun(steps: seq<Step>, h: Slice) {
    forall i :: 0 <= i < |steps| ==> KeysKept(steps[i], h)
  }

  predicate Recording(r: Recorder, h: Slice, e: uint32) {
    (r.Checked? || r.EpochSaved? || r.RecordPut?) && r.mb.hash == h && r.hdr.epoch == e
  }

  /** Then a record is put once in an epoch: its key is cached, or the recorder is about to mark it. */
  ghost predicate PutOnce(s: System, h: Slice) {
    && (forall e: uint32 {:trigger Key(e, h)} :: Key(e, h) in s.st.records ==>
          DedupKey(Key(e, h)) in s.st.dedup || (s.recorder.RecordPut? && Recording(s.recorder, h, e)))
    && ((s.recorder.Checked? || s.recorder.EpochSaved?) && s.recorder.mb.hash == h ==> Key(s.recorder.hdr.epoch, h) !in s.st.records)
    && (h in s.st.epochs ==> Key(s.st.epochs[h], h) in s.st.records || (AboutToPut(s, h) && s.recorder.hdr.epoch == s.st.epochs[h]))
  }

  /** The record the consumer has read is stored as it was read, and the epoch has moved if one was saved since. */
  ghost predicate ConsumerHolds(s: System, w: Watch, h: Slice) {
    var c := s.consumer;
    c.NotConsuming? || c.hash != h ||
    match c
    case EpochRead(_, _, _, e) =>
      && (w.moved <==> Find(s.st.epochs, h) != Some(e))
      && (Key(e, h) in s.st.records || (AboutToPut(s, h) && s.recorder.hdr.epoch == e))
    case RecordRead(_, _, _, md) => (w.moved <==> Find(s.st.epochs, h) != Some(md.epoch)) && Find(s.st.records, Key(md.epoch, h)) == Some(md)
    case PatchedPut(_, _, _, md) => (w.moved <==> Find(s.st.epochs, h) != Some(md.epoch)) && Find(s.st.records, Key(md.epoch, h)) == Some(md)
    case _ => true
  }

  lemma {:induction false} RecorderKeepsPutOnce(s: System, step: Step, h: Slice, bothSides: bool)
    requires PutOnce(s, h) && Enabled(s, step) && Steady(s, step, h, bothSides)
    requires step.SaveHeader? || step.CheckCache? || step.SaveEpoch? || step.PutFresh? || step.PutTx? || step.DoneIndexing? || step.RecorderFails?
    ensures PutOnce(Fire(s, step), h)
  {
  }

  lemma {:induction false} MarkKeepsPutOnce(s: System, evicted: set<string>, h: Slice)
    requires PutOnce(s, h) && Enabled(s, MarkInserted(evicted)) && KeysKept(MarkInserted(evicted), h)
    ensures PutOnce(Fire(s, MarkInserted(evicted)), h)
  {
  }

  lemma {:induction false} ConsumerKeepsPutOnce(s: System, step: Step, h: Slice, bothSides: bool)
    requires PutOnce(s, h) && Enabled(s, step) && Steady(s, step, h, bothSides)
    requires step.Take? || step.ReadEpoch? || step.ReadRecord? || step.ConsumerFails? || step.RemovePending? || step.Notify?
    ensures PutOnce(Fire(s, step), h)
  {
    if step.Notify? {
      EnqueuedPending(s.st, step.note, h, bothSides);
    } else if step.RemovePending? {
      RemovedPending(s.st, s.consumer.place, s.consumer.hash, h, bothSides);
    }
    SameStores(s, Fire(s, step), h);
  }

  lemma {:induction false} SameStores(s: System, s': System, h: Slice)
    requires PutOnce(s, h) && s'.recorder == s.recorder
    requires s'.st.records == s.st.records && s'.st.epochs == s.st.epochs && s'.st.dedup == s.st.dedup
    ensures PutOnce(s', h)
  {
  }

  lemma {:induction false} PutPatchedKeepsPutOnce(s: System, h: Slice)
    requires PutOnce(s, h) && Enabled(s, PutPatched)
    requires s.consumer.hash == h ==> Key(s.consumer.md.epoch, h) in s.st.records
    ensures PutOnce(Fire(s, PutPatched), h)
  {
    var s' := Fire(s, PutPatched);
    assert forall e: uint32 {:trigger Key(e, h)} :: Key(e, h) in s'.st.records <==> Key(e, h) in s.st.records;
  }

  lemma {:induction false} StepKeepsPutOnce(s: System, step: Step, h: Slice, bothSides: bool)
    requires PutOnce(s, h) && Enabled(s, step) && Steady(s, step, h, bothSides) && KeysKept(step, h)
    requires s.consumer.RecordRead? && s.consumer.hash == h ==> Key(s.consumer.md.epoch, h) in s.st.records
    ensures PutOnce(Fire(s, step), h)
  {
    match step
    case MarkInserted(evicted) => MarkKeepsPutOnce(s, evicted, h);
    case PutPatched => PutPatchedKeepsPutOnce(s, h);
    case SaveHeader(_) => RecorderKeepsPutOnce(s, step, h, bothSides);
    case CheckCache(_, _) => RecorderKeepsPutOnce(s, step, h, bothSides);
    case SaveEpoch => RecorderKeepsPutOnce(s, step, h, bothSides);
    case PutFresh => RecorderKeepsPutOnce(s, step, h, bothSides);
    case PutTx(_) => RecorderKeepsPutOnce(s, step, h, bothSides);
    case DoneIndexing => RecorderKeepsPutOnce(s, step, h, bothSides);
    case RecorderFails => RecorderKeepsPutOnce(s, step, h, bothSides);
    case _ => ConsumerKeepsPutOnce(s, step, h, bothSides);
  }

  lemma {:induction false} StepKeepsHolds(s: System, w: Watch, step: Step, h: Slice, bothSides: bool)
    requires ConsumerHolds(s, w, h) && PutOnce(s, h) && RecordsOf(s.st, h)
    requires Enabled(s, step) && Steady(s, step, h, bothSides)
    ensures ConsumerHolds(Fire(s, step), WatchStep(w, s, step), h)
  {
  }

  lemma {:induction false} RunHolds(steps: seq<Step>, h: Slice, bothSides: bool)
    requires After(steps).Some? && SteadyRun(steps, h, bothSides) && KeysKeptInRun(steps, h)
    ensures PutOnce(After(steps).value, h) && ConsumerHolds(After(steps).value, Watched(steps), h)
  {
    if steps != [] {
      var (init, last) := (steps[..|steps| - 1], steps[|steps| - 1]);
      RunHolds(init, h, bothSides);
      SteadyRunKeepsInv(init, h, bothSides);
      var s := After(init).value;
      StepKeepsPutOnce(s, last, h, bothSides);
      StepKeepsHolds(s, Watched(init), last, h, bothSides);
    }
  }

  /**
   * While no key of the miniblock is evicted, a consume loses nothing if and only if, since it took the notification, no
   * other one came for the same place and miniblock as the last, and, since it read the epoch, none was saved for it.
   */
  lemma {:induction false} ConsumeLosesNothingIff(steps: seq<Step>, bothSides: bool)
    requires After(steps).Some? && After(steps).value.consumer.PatchedPut?
    requires SteadyRun(steps, After(steps).value.consumer.hash, bothSides)
    requires KeysKeptInRun(steps, After(steps).value.consumer.hash)
    ensures var (s, w) := (After(steps).value, Watched(steps));
            RemovalLosesNothing(s) <==> Latest(w, s.consumer.n) == if w.moved then NO_NOTIFICATION else s.consumer.n
  {
    var s := After(steps).value;
    RemovalLosesNothingIff(steps, bothSides);
    RunWaitsLatest(steps);
    RunHolds(steps, s.consumer.hash, bothSides);
    SteadyRunKeepsInv(steps, s.consumer.hash, bothSides);
    InPlaceUnlessMoved(s, Watched(steps), bothSides);
  }

  lemma {:induction false} InPlaceUnlessMoved(s: System, w: Watch, bothSides: bool)
    requires s.consumer.PatchedPut? && PutOnce(s, s.consumer.hash) && ConsumerHolds(s, w, s.consumer.hash)
    requires Inv(s, s.consumer.hash, bothSides)
    ensures InPlace(s) <==> !w.moved
  {
  }

  // ---------- two runs that lose a notification ----------

  function RecordSteps(hdr: Header, mb: Miniblock): seq<Step> {
    [CheckCache(hdr, mb), SaveEpoch, PutFresh, MarkInserted({}), DoneIndexing]
  }

  /** The consumer reads the epoch, the miniblock is recorded in another one, the consumer patches the older record. */
  function AcrossEpochsRun(prior: Header, next: Header, mb: Miniblock, n: Notification): seq<Step> {
    RecordSteps(prior, mb) + [Notify(Note(Both, mb.hash, n)), Take(Both, mb.hash), ReadEpoch] +
    RecordSteps(next, mb) + [ReadRecord, PutPatched, RemovePending]
  }

  /** A newer notification comes between the consumer's read and its write. */
  function RenotifiedRun(hdr: Header, mb: Miniblock, n: Notification, newer: Notification): seq<Step> {
    RecordSteps(hdr, mb) + [Notify(Note(Both, mb.hash, n)), Take(Both, mb.hash), ReadEpoch] +
    [ReadRecord, Notify(Note(Both, mb.hash, newer)), PutPatched, RemovePending]
  }

  lemma {:induction false} AfterJoined(steps: seq<Step>, step: Step)
    requires After(steps).Some? && Enabled(After(steps).value, step)
    ensures After(steps + [step]) == Some(Fire(After(steps).value, step))
  {
    assert (steps + [step])[..|steps|] == steps;
  }

  /** What the steps of one recording leave behind. */
  function Recorded(s: System, hdr: Header, mb: Miniblock): System {
    s.(st := RecordMiniblock(s.st, hdr, mb, CALM), log := s.log + [Event.Recording(hdr, mb)])
  }

  lemma {:induction false} AfterRecording(steps: seq<Step>, s: System, hdr: Header, mb: Miniblock)
    requires After(steps) == Some(s) && s.recorder.NotRecording? && mb.txHashes == []
    requires DedupKey(Key(hdr.epoch, mb.hash)) !in s.st.dedup
    ensures After(steps + RecordSteps(hdr, mb)) == Some(Recorded(s, hdr, mb))
  {
    var t1 := steps + [CheckCache(hdr, mb)];
    AfterJoined(steps, CheckCache(hdr, mb));
    var t2 := t1 + [SaveEpoch];
    AfterJoined(t1, SaveEpoch);
    var t3 := t2 + [PutFresh];
    AfterJoined(t2, PutFresh);
    var t4 := t3 + [MarkInserted({})];
    AfterJoined(t3, MarkInserted({}));
    AfterJoined(t4, DoneIndexing);
    assert t4 + [DoneIndexing] == steps + RecordSteps(hdr, mb);
    StepsInARowRecord(s, hdr, mb, CALM);
  }

  /** The consumer has read the epoch of a miniblock that has just been recorded and notified. */
  lemma {:induction false} AfterTaking(hdr: Header, mb: Miniblock, n: Notification) returns (s: System)
    requires mb.txHashes == []
    ensures After(RecordSteps(hdr, mb) + [Notify(Note(Both, mb.hash, n)), Take(Both, mb.hash), ReadEpoch]) == Some(s)
    ensures s.recorder.NotRecording? && s.consumer == EpochRead(Both, mb.hash, n, hdr.epoch)
    ensures s.st.epochs == map[mb.hash := hdr.epoch]
    ensures s.st.both == map[mb.hash := n] && s.st.source == map[] && s.st.destination == map[]
    ensures s.st.records == map[Key(hdr.epoch, mb.hash) := FreshRecord(hdr, mb)]
    ensures s.st.dedup == {DedupKey(Key(hdr.epoch, mb.hash))}
  {
    var (h, note) := (mb.hash, Note(Both, mb.hash, n));
    AfterRecording([], START, hdr, mb);
    var t1 := RecordSteps(hdr, mb);
    assert [] + t1 == t1;
    AfterJoined(t1, Notify(note));
    var t2 := t1 + [Notify(note)];
    AfterJoined(t2, Take(Both, h));
    var t3 := t2 + [Take(Both, h)];
    AfterJoined(t3, ReadEpoch);
    assert t3 + [ReadEpoch] == t1 + [Notify(note), Take(Both, h), ReadEpoch];
    s := After(t3 + [ReadEpoch]).value;
  }

  lemma {:induction false} AfterPutting(steps: seq<Step>, s: System) returns (s': System)
    requires After(steps) == Some(s) && s.consumer.RecordRead? && s.consumer.place == Both
    ensures After(steps + [PutPatched, RemovePending]) == Some(s')
    ensures var c := s.consumer;
            && s'.st.records == s.st.records[Key(c.md.epoch, c.hash) := Patch(c.md, Both, c.n)]
            && s'.st.both == s.st.both - {c.hash} && s'.st.epochs == s.st.epochs
  {
    AfterJoined(steps, PutPatched);
    AfterJoined(steps + [PutPatched], RemovePending);
    assert steps + [PutPatched] + [RemovePending] == steps + [PutPatched, RemovePending];
    s' := After(steps + [PutPatched, RemovePending]).value;
  }

  /** The older record is patched, the notification is gone, and lookups give the newer record without it. */
  lemma {:induction false} LostAcrossEpochs(prior: Header, next: Header, mb: Miniblock, n: Notification)
    requires mb.txHashes == [] && prior.epoch != next.epoch
    ensures var end := After(AcrossEpochsRun(prior, next, mb, n));
            && end.Some? && mb.hash !in end.value.st.both
            && LookupByHash(end.value.st, mb.hash) == Some(FreshRecord(next, mb))
  {
    var s := AfterTaking(prior, mb, n);
    var t := RecordSteps(prior, mb) + [Notify(Note(Both, mb.hash, n)), Take(Both, mb.hash), ReadEpoch];
    var (k, l) := (Key(prior.epoch, mb.hash), Key(next.epoch, mb.hash));
    if DedupKey(k) == DedupKey(l) {
      DedupKeyIsInjective(k, l);
    }
    AfterRecording(t, s, next, mb);
    var t1 := t + RecordSteps(next, mb);
    AfterJoined(t1, ReadRecord);
    var end := AfterPutting(t1 + [ReadRecord], After(t1 + [ReadRecord]).value);
    assert t1 + [ReadRecord] + [PutPatched, RemovePending] == AcrossEpochsRun(prior, next, mb, n);
  }

  /** The newer notification is removed with the one that was taken, and the record shows the older one. */
  lemma {:induction false} LostWhenRenotified(hdr: Header, mb: Miniblock, n: Notification, newer: Notification)
    requires mb.txHashes == []
    ensures var end := After(RenotifiedRun(hdr, mb, n, newer));
            && end.Some? && mb.hash !in end.value.st.both
            && LookupByHash(end.value.st, mb.hash) == Some(Patch(FreshRecord(hdr, mb), Both, n))
  {
    var s := AfterTaking(hdr, mb, n);
    var t := RecordSteps(hdr, mb) + [Notify(Note(Both, mb.hash, n)), Take(Both, mb.hash), ReadEpoch];
    var again := Notify(Note(Both, mb.hash, newer));
    AfterJoined(t, ReadRecord);
    AfterJoined(t + [ReadRecord], again);
    var t1 := t + [ReadRecord] + [again];
    var end := AfterPutting(t1, After(t1).value);
    assert t1 + [PutPatched, RemovePending] == RenotifiedRun(hdr, mb, n, newer);
  }
}
