/**
 * Recording and consuming as two goroutines, and notifications arriving at any time. Blocks are recorded under one
 * mutex and notifications consumed under another, so there is one recorder and one consumer, but their single steps
 * on the shared stores interleave freely.
 */
module Interleaving {
  import opened Words
  import opened Schemas
  import opened History
  import opened HistoryRuns

  /** How far the recorder is with a miniblock. */
  datatype Recorder =
    | NotRecording
    | Checked(hdr: Header, mb: Miniblock)
    | EpochSaved(hdr: Header, mb: Miniblock)
    | RecordPut(hdr: Header, mb: Miniblock)
    | Indexing(mb: Miniblock, done: nat)

  /** How far the consumer is with a notification. */
  datatype Consumer =
    | NotConsuming
    | Taken(place: Place, hash: Slice, n: Notification)
    | EpochRead(place: Place, hash: Slice, n: Notification, epoch: uint32)
    | RecordRead(place: Place, hash: Slice, n: Notification, md: MiniblockMetadata)
    | PatchedPut(place: Place, hash: Slice, n: Notification, md: MiniblockMetadata)

  datatype System = System(st: State, recorder: Recorder, consumer: Consumer, log: seq<Event>)

  datatype Step =
    | SaveHeader(hdr: Header)
    | CheckCache(hdr: Header, mb: Miniblock)
    | SaveEpoch
    | PutFresh
    | MarkInserted(evicted: set<string>)
    | PutTx(accepted: bool)
    | DoneIndexing
    | RecorderFails
    | Notify(note: Note)
    | Take(place: Place, hash: Slice)
    | ReadEpoch
    | ReadRecord
    | PutPatched
    | ConsumerFails
    | RemovePending

  const START := System(INITIAL, NotRecording, NotConsuming, [])

  predicate Enabled(s: System, step: Step) {
    match step
    case SaveHeader(_) => s.recorder.NotRecording?
    case CheckCache(_, _) => s.recorder.NotRecording?
    case SaveEpoch => s.recorder.Checked?
    case PutFresh => s.recorder.EpochSaved?
    case MarkInserted(_) => s.recorder.RecordPut?
    case PutTx(_) => s.recorder.Indexing? && s.recorder.done < |s.recorder.mb.txHashes|
    case DoneIndexing => s.recorder.Indexing? && s.recorder.done >= |s.recorder.mb.txHashes|
    case RecorderFails => s.recorder.Checked? || s.recorder.EpochSaved?
    case Notify(_) => true
    case Take(place, h) => s.consumer.NotConsuming? && h in s.st.Pending(place)
    case ReadEpoch => s.consumer.Taken?
    case ReadRecord => s.consumer.EpochRead?
    case PutPatched => s.consumer.RecordRead?
    case ConsumerFails => s.consumer.RecordRead?
    case RemovePending => s.consumer.PatchedPut?
  }

  function Fire(s: System, step: Step): System
    requires Enabled(s, step)
  {
    var (st, r, c) := (s.st, s.recorder, s.consumer);
    match step
    case SaveHeader(hdr) =>
      s.(st := st.(epochs := st.epochs[hdr.hash := hdr.epoch]))
    case CheckCache(hdr, mb) =>
      if DedupKey(Key(hdr.epoch, mb.hash)) in st.dedup then s else s.(recorder := Checked(hdr, mb))
    case SaveEpoch =>
      s.(st := st.(epochs := st.epochs[r.mb.hash := r.hdr.epoch]), recorder := EpochSaved(r.hdr, r.mb))
    case PutFresh =>
      s.(st := st.(records := st.records[Key(r.hdr.epoch, r.mb.hash) := FreshRecord(r.hdr, r.mb)]),
         recorder := RecordPut(r.hdr, r.mb), log := s.log + [Recording(r.hdr, r.mb)])
    case MarkInserted(evicted) =>
      s.(st := st.(dedup := st.dedup - evicted + {DedupKey(Key(r.hdr.epoch, r.mb.hash))}), recorder := Indexing(r.mb, 0))
    case PutTx(accepted) =>
      s.(st := if accepted then st.(txs := st.txs[r.mb.txHashes[r.done] := r.mb.hash]) else st,
         recorder := Indexing(r.mb, r.done + 1))
    case DoneIndexing =>
      s.(recorder := NotRecording)
    case RecorderFails =>
      s.(recorder := NotRecording)
    case Notify(note) =>
      s.(st := Enqueue(st, note), log := s.log + [Notified(note)])
    case Take(place, h) =>
      s.(consumer := Taken(place, h, st.Pending(place)[h]))
    case ReadEpoch =>
      if c.hash in st.epochs then s.(consumer := EpochRead(c.place, c.hash, c.n, st.epochs[c.hash]))
      else s.(consumer := NotConsuming)
    case ReadRecord =>
      if Key(c.epoch, c.hash) in st.records then s.(consumer := RecordRead(c.place, c.hash, c.n, st.records[Key(c.epoch, c.hash)]))
      else s.(consumer := NotConsuming)
    case PutPatched =>
      s.(st := st.(records := st.records[Key(c.md.epoch, c.hash) := Patch(c.md, c.place, c.n)]),
         consumer := PatchedPut(c.place, c.hash, c.n, Patch(c.md, c.place, c.n)))
    case ConsumerFails =>
      s.(consumer := NotConsuming)
    case RemovePending =>
      s.(st := st.WithPending(c.place, st.Pending(c.place) - {c.hash}), consumer := NotConsuming)
  }

  /** The state after a sequence of steps, if each could be taken. */
  function After(steps: seq<Step>): Option<System> {
    if steps == [] then Some(START)
    else
      var before := After(steps[..|steps| - 1]);
      if before.Some? && Enabled(before.value, steps[|steps| - 1]) then Some(Fire(before.value, steps[|steps| - 1])) else None
  }

  // ---------- the steps of one operation in a row are the operation ----------

  /** The recorder's steps on the transaction index. */
  function IndexAtOnce(s: System, fails: set<Slice>): System
    requires s.recorder.Indexing?
    decreases |s.recorder.mb.txHashes| - s.recorder.done
  {
    if s.recorder.done >= |s.recorder.mb.txHashes| then Fire(s, DoneIndexing)
    else IndexAtOnce(Fire(s, PutTx(s.recorder.mb.txHashes[s.recorder.done] !in fails)), fails)
  }

  /** The recorder's steps on one miniblock, as far as they get, with nothing in between. */
  function RecordAtOnce(s: System, hdr: Header, mb: Miniblock, env: Env): System
    requires s.recorder.NotRecording?
  {
    var s1 := Fire(s, CheckCache(hdr, mb));
    if s1.recorder.NotRecording? then s1
    else if mb.hash in env.epochPutFails then Fire(s1, RecorderFails)
    else
      var s2 := Fire(s1, SaveEpoch);
      if mb.hash in env.recordPutFails then Fire(s2, RecorderFails)
      else IndexAtOnce(Fire(Fire(s2, PutFresh), MarkInserted(env.evicted)), env.txPutFails)
  }

  /** The consumer's steps on one notification, as far as they get, with nothing in between. */
  function ConsumeAtOnce(s: System, place: Place, h: Slice, env: Env): System
    requires s.consumer.NotConsuming? && h in s.st.Pending(place)
  {
    var s1 := Fire(Fire(s, Take(place, h)), ReadEpoch);
    if s1.consumer.NotConsuming? then s1
    else
      var s2 := Fire(s1, ReadRecord);
      if s2.consumer.NotConsuming? then s2
      else if h in env.recordPutFails then Fire(s2, ConsumerFails)
      else Fire(Fire(s2, PutPatched), RemovePending)
  }

  lemma {:induction false} IndexingInARow(s: System, txs: map<Slice, Slice>, fails: set<Slice>)
    requires s.recorder.Indexing? && s.recorder.done <= |s.recorder.mb.txHashes|
    requires s.st.txs == IndexTxs(txs, s.recorder.mb.txHashes[..s.recorder.done], s.recorder.mb.hash, fails)
    ensures IndexAtOnce(s, fails) ==
            s.(st := s.st.(txs := IndexTxs(txs, s.recorder.mb.txHashes, s.recorder.mb.hash, fails)), recorder := NotRecording)
    decreases |s.recorder.mb.txHashes| - s.recorder.done
  {
    var (mb, i) := (s.recorder.mb, s.recorder.done);
    if i == |mb.txHashes| {
      assert mb.txHashes[..i] == mb.txHashes;
    } else {
      assert mb.txHashes[..i + 1][..i] == mb.txHashes[..i];
      IndexingInARow(Fire(s, PutTx(mb.txHashes[i] !in fails)), txs, fails);
    }
  }

  /** The recorder's steps in a row are recording the miniblock, whatever writes fail. */
  lemma {:induction false} StepsInARowRecord(s: System, hdr: Header, mb: Miniblock, env: Env)
    requires s.recorder.NotRecording?
    ensures var put := DedupKey(Key(hdr.epoch, mb.hash)) !in s.st.dedup && mb.hash !in env.epochPutFails + env.recordPutFails;
            RecordAtOnce(s, hdr, mb, env) ==
            s.(st := RecordMiniblock(s.st, hdr, mb, env), log := s.log + if put then [Recording(hdr, mb)] else [])
  {
    assert s.log + [] == s.log;
    if DedupKey(Key(hdr.epoch, mb.hash)) !in s.st.dedup && mb.hash !in env.epochPutFails + env.recordPutFails {
      var s2 := Fire(Fire(s, CheckCache(hdr, mb)), SaveEpoch);
      var s4 := Fire(Fire(s2, PutFresh), MarkInserted(env.evicted));
      assert mb.txHashes[..0] == [];
      IndexingInARow(s4, s.st.txs, env.txPutFails);
    }
  }

  /** The consumer's steps in a row are one turn of the consuming loop, whatever writes fail. */
  lemma {:induction false} StepsInARowConsume(s: System, place: Place, h: Slice, env: Env)
    requires s.consumer.NotConsuming? && h in s.st.Pending(place)
    ensures ConsumeAtOnce(s, place, h, env) == s.(st := ConsumeOne(s.st, place, h, env))
  {
    if s.st.Readable(h) && h !in env.recordPutFails {
      var md := s.st.records[Key(s.st.epochs[h], h)];
      PatchInARow(s.(consumer := RecordRead(place, h, s.st.Pending(place)[h], md)));
    }
  }

  lemma {:induction false} PatchInARow(s: System)
    requires s.consumer.RecordRead?
    ensures var c := s.consumer;
            var records := s.st.records[Key(c.md.epoch, c.hash) := Patch(c.md, c.place, c.n)];
            Fire(Fire(s, PutPatched), RemovePending) ==
            s.(st := s.st.(records := records).WithPending(c.place, s.st.Pending(c.place) - {c.hash}), consumer := NotConsuming)
  {
    match s.consumer.place
    case Source =>
    case Destination =>
    case Both =>
  }

  // ---------- what is asked of the surroundings ----------

  predicate Handles(c: Consumer, place: Place, h: Slice) {
    !c.NotConsuming? && c.place == place && c.hash == h
  }

  /**
   * For one miniblock: it is recorded in one epoch, no header has its hash, its key is not evicted, its notifications
   * are all for both sides at once or none is, and none replaces the one that is just being consumed.
   */
  ghost predicate Calm(s: System, step: Step, k: Key, bothSides: bool) {
    match step
    case SaveHeader(hdr) => hdr.hash != k.hash
    case CheckCache(hdr, mb) => mb.hash == k.hash ==> hdr.epoch == k.epoch
    case MarkInserted(evicted) => DedupKey(k) !in evicted
    case Notify(note) => note.hash == k.hash ==> (note.place == Both <==> bothSides) && !Handles(s.consumer, note.place, k.hash)
    case _ => true
  }

  ghost predicate CalmRun(steps: seq<Step>, k: Key, bothSides: bool) {
    steps == [] ||
    var (init, last) := (steps[..|steps| - 1], steps[|steps| - 1]);
    CalmRun(init, k, bothSides) && (After(init).Some? ==> Calm(After(init).value, last, k, bothSides))
  }

  // ---------- the invariant ----------

  /** The recorder is between its check and its put only while there is no record, and until it marks the key it is the one who put it. */
  ghost predicate RecorderInv(v: View, r: Recorder, k: Key) {
    && (v.epoch.Some? ==> v.epoch == Some(k.epoch))
    && (v.record.Some? ==> v.epoch.Some? && v.record.value.epoch == k.epoch)
    && (v.cached ==> v.record.Some?)
    && if r.NotRecording? || r.mb.hash != k.hash then v.record.Some? ==> v.cached
       else if r.Indexing? then v.record.Some? && v.cached
       else
         && r.hdr.epoch == k.epoch
         && (r.RecordPut? <==> v.record.Some?)
         && (!r.Checked? ==> v.epoch.Some?)
         && !v.cached
  }

  /** What the consumer holds is what is stored. */
  ghost predicate ConsumerInv(v: View, c: Consumer, k: Key) {
    c.NotConsuming? || c.hash != k.hash ||
    match c
    case Taken(place, _, n) => v.Waiting(place) == Some(n)
    case EpochRead(place, _, n, epoch) => v.Waiting(place) == Some(n) && epoch == k.epoch
    case RecordRead(place, _, n, md) => v.Waiting(place) == Some(n) && v.record == Some(md)
    case PatchedPut(place, _, _, _) =>
      v.Waiting(place).Some? && v.record.Some? && Patch(v.record.value, place, v.Waiting(place).value) == v.record.value
  }

  /** The record with what waits for it is what the log says. */
  ghost predicate LogInv(v: View, log: seq<Event>, k: Key, bothSides: bool) {
    && OneFamily(v, bothSides)
    && match FirstRecording(log, k.hash)
       case None =>
         && v.record.None?
         && WaitingFor(v, Source) == LastNote(log, k.hash, Source)
         && WaitingFor(v, Destination) == LastNote(log, k.hash, Destination)
       case Some(first) =>
         && v.record.Some?
         && Settled(v.record.value, v) == Expected(log, k.hash, first)
  }

  ghost predicate Inv(s: System, k: Key, bothSides: bool) {
    && RecorderInv(ViewOf(s.st, k), s.recorder, k)
    && ConsumerInv(ViewOf(s.st, k), s.consumer, k)
    && LogInv(ViewOf(s.st, k), s.log, k, bothSides)
  }

  lemma {:induction false} RecorderStepKeepsInv(s: System, step: Step, k: Key, bothSides: bool)
    requires Inv(s, k, bothSides) && Enabled(s, step) && Calm(s, step, k, bothSides)
    requires step.SaveHeader? || step.CheckCache? || step.SaveEpoch? || step.PutTx? || step.DoneIndexing? || step.RecorderFails?
    ensures Inv(Fire(s, step), k, bothSides)
  {
  }

  lemma {:induction false} PutFreshKeepsInv(s: System, k: Key, bothSides: bool)
    requires Inv(s, k, bothSides) && Enabled(s, PutFresh)
    ensures Inv(Fire(s, PutFresh), k, bothSides)
  {
    var (r, v, s') := (s.recorder, ViewOf(s.st, k), Fire(s, PutFresh));
    if r.mb.hash == k.hash {
      assert ViewOf(s'.st, k) == v.(record := Some(FreshRecord(r.hdr, r.mb)));
      FirstPutKeepsLogInv(v, s.log, r.hdr, r.mb, k, bothSides);
    } else {
      assert ViewOf(s'.st, k) == v;
      LogStep(s.log, Recording(r.hdr, r.mb), k.hash);
    }
  }

  /** What waited for the miniblock before its first record waits for that record. */
  lemma {:induction false} FirstPutKeepsLogInv(v: View, log: seq<Event>, hdr: Header, mb: Miniblock, k: Key, bothSides: bool)
    requires LogInv(v, log, k, bothSides) && v.record.None? && mb.hash == k.hash
    ensures LogInv(v.(record := Some(FreshRecord(hdr, mb))), log + [Recording(hdr, mb)], k, bothSides)
  {
    LogStep(log, Recording(hdr, mb), k.hash);
  }

  lemma {:induction false} MarkKeepsInv(s: System, evicted: set<string>, k: Key, bothSides: bool)
    requires Inv(s, k, bothSides) && Enabled(s, MarkInserted(evicted)) && Calm(s, MarkInserted(evicted), k, bothSides)
    ensures Inv(Fire(s, MarkInserted(evicted)), k, bothSides)
  {
    var own := Key(s.recorder.hdr.epoch, s.recorder.mb.hash);
    if DedupKey(own) == DedupKey(k) {
      DedupKeyIsInjective(own, k);
    }
  }

  lemma {:induction false} NotifyKeepsInv(s: System, note: Note, k: Key, bothSides: bool)
    requires Inv(s, k, bothSides) && Calm(s, Notify(note), k, bothSides)
    ensures Inv(Fire(s, Notify(note)), k, bothSides)
  {
    EnqueueOnView(s.st, note, k);
    if note.hash == k.hash {
      NotifiedView(ViewOf(s.st, k), s.log, note, k, bothSides);
      NotifiedConsumer(ViewOf(s.st, k), s.consumer, note, k);
    } else {
      LogStep(s.log, Notified(note), k.hash);
    }
  }

  lemma {:induction false} NotifiedConsumer(v: View, c: Consumer, note: Note, k: Key)
    requires ConsumerInv(v, c, k) && note.hash == k.hash && !Handles(c, note.place, k.hash)
    ensures ConsumerInv(v.WithWaiting(note.place, Some(note.notification)), c, k)
  {
  }

  lemma {:induction false} NotifiedView(v: View, log: seq<Event>, note: Note, k: Key, bothSides: bool)
    requires LogInv(v, log, k, bothSides) && note.hash == k.hash && (note.place == Both <==> bothSides)
    ensures LogInv(v.WithWaiting(note.place, Some(note.notification)), log + [Notified(note)], k, bothSides)
  {
    LogStep(log, Notified(note), k.hash);
    if v.record.Some? {
      NotifiedRecord(v, note.place, note.notification, v.record.value);
      SettledAgain(FirstRecording(log, k.hash).value, note, LastNote(log, k.hash, Source), LastNote(log, k.hash, Destination));
    }
  }

  /** The settled record after a newer notification is the settled record patched with it. */
  lemma {:induction false} NotifiedRecord(v: View, place: Place, n: Notification, md: MiniblockMetadata)
    requires OneFamily(v, place == Both)
    ensures Settled(md, v.WithWaiting(place, Some(n))) == Patch(Settled(md, v), place, n)
  {
    match place
    case Source =>
    case Destination =>
    case Both =>
  }

  lemma {:induction false} SettledAgain(md: MiniblockMetadata, note: Note, s: Option<Notification>, d: Option<Notification>)
    ensures var n := Some(note.notification);
            Patch(PatchWith(PatchWith(md, Source, s), Destination, d), note.place, note.notification) ==
            PatchWith(PatchWith(md, Source, if Covers(note.place, Source) then n else s), Destination, if Covers(note.place, Destination) then n else d)
  {
    match note.place
    case Source =>
    case Destination =>
    case Both =>
  }

  lemma {:induction false} ReadingKeepsInv(s: System, step: Step, k: Key, bothSides: bool)
    requires Inv(s, k, bothSides) && Enabled(s, step)
    requires step.Take? || step.ReadEpoch? || step.ReadRecord? || step.ConsumerFails?
    ensures Inv(Fire(s, step), k, bothSides)
  {
  }

  lemma {:induction false} PutPatchedKeepsInv(s: System, k: Key, bothSides: bool)
    requires Inv(s, k, bothSides) && Enabled(s, PutPatched)
    ensures Inv(Fire(s, PutPatched), k, bothSides)
  {
  }

  lemma {:induction false} RemoveKeepsInv(s: System, k: Key, bothSides: bool)
    requires Inv(s, k, bothSides) && Enabled(s, RemovePending)
    ensures Inv(Fire(s, RemovePending), k, bothSides)
  {
    var (v, c) := (ViewOf(s.st, k), s.consumer);
    RemoveOnView(s.st, c.place, c.hash, k);
    if c.hash == k.hash {
      RemovedView(v, s.log, c.place, k, bothSides);
    }
  }

  lemma {:induction false} RemoveOnView(st: State, place: Place, h: Slice, k: Key)
    ensures ViewOf(st.WithPending(place, st.Pending(place) - {h}), k) ==
            if h == k.hash then ViewOf(st, k).WithWaiting(place, None) else ViewOf(st, k)
  {
    match place
    case Source =>
    case Destination =>
    case Both =>
  }

  lemma {:induction false} RemovedView(v: View, log: seq<Event>, place: Place, k: Key, bothSides: bool)
    requires LogInv(v, log, k, bothSides) && v.record.Some? && v.Waiting(place).Some?
    requires Patch(v.record.value, place, v.Waiting(place).value) == v.record.value
    ensures LogInv(v.WithWaiting(place, None), log, k, bothSides)
  {
    match place
    case Source =>
    case Destination =>
    case Both =>
  }

  lemma {:induction false} StepKeepsInv(s: System, step: Step, k: Key, bothSides: bool)
    requires Inv(s, k, bothSides) && Enabled(s, step) && Calm(s, step, k, bothSides)
    ensures Inv(Fire(s, step), k, bothSides)
  {
    match step
    case PutFresh => PutFreshKeepsInv(s, k, bothSides);
    case MarkInserted(evicted) => MarkKeepsInv(s, evicted, k, bothSides);
    case Notify(note) => NotifyKeepsInv(s, note, k, bothSides);
    case PutPatched => PutPatchedKeepsInv(s, k, bothSides);
    case RemovePending => RemoveKeepsInv(s, k, bothSides);
    case SaveHeader(_) => RecorderStepKeepsInv(s, step, k, bothSides);
    case CheckCache(_, _) => RecorderStepKeepsInv(s, step, k, bothSides);
    case SaveEpoch => RecorderStepKeepsInv(s, step, k, bothSides);
    case PutTx(_) => RecorderStepKeepsInv(s, step, k, bothSides);
    case DoneIndexing => RecorderStepKeepsInv(s, step, k, bothSides);
    case RecorderFails => RecorderStepKeepsInv(s, step, k, bothSides);
    case _ => ReadingKeepsInv(s, step, k, bothSides);
  }

  lemma {:induction false} CalmRunKeepsInv(steps: seq<Step>, k: Key, bothSides: bool)
    requires After(steps).Some? && CalmRun(steps, k, bothSides)
    ensures Inv(After(steps).value, k, bothSides)
  {
    if steps != [] {
      var (init, last) := (steps[..|steps| - 1], steps[|steps| - 1]);
      CalmRunKeepsInv(init, k, bothSides);
      StepKeepsInv(After(init).value, last, k, bothSides);
    }
  }

  // ---------- the theorems ----------

  /** However the steps interleave, a fresh record is only ever put where there is none: no patch is overwritten. */
  lemma {:induction false} FreshNeverOverwrites(steps: seq<Step>, k: Key, bothSides: bool)
    requires After(steps).Some? && CalmRun(steps, k, bothSides)
    requires var r := After(steps).value.recorder; r.EpochSaved? && Key(r.hdr.epoch, r.mb.hash) == k
    ensures k !in After(steps).value.st.records
  {
    CalmRunKeepsInv(steps, k, bothSides);
  }

  /**
   * However the steps interleave, no notification is lost: for a recorded miniblock, the record together with what
   * still waits for it shows on each side the last matching notification; before that, the last ones wait.
   */
  lemma {:induction false} NoNotificationIsLost(steps: seq<Step>, k: Key, bothSides: bool)
    requires After(steps).Some? && CalmRun(steps, k, bothSides)
    ensures var s := After(steps).value;
            var v := ViewOf(s.st, k);
            match FirstRecording(s.log, k.hash)
            case Some(first) =>
              && LookupByHash(s.st, k.hash).Some?
              && Settled(LookupByHash(s.st, k.hash).value, v) == Expected(s.log, k.hash, first)
              && (v.source.None? && v.destination.None? && v.both.None? ==>
                    LookupByHash(s.st, k.hash) == Some(Expected(s.log, k.hash, first)))
            case None =>
              && WaitingFor(v, Source) == LastNote(s.log, k.hash, Source)
              && WaitingFor(v, Destination) == LastNote(s.log, k.hash, Destination)
  {
    CalmRunKeepsInv(steps, k, bothSides);
  }

  /** A transaction index entry is written only after the record of its miniblock. */
  ghost predicate TxInv(s: System, k: Key) {
    forall tx :: tx in s.st.txs && s.st.txs[tx] == k.hash ==> k in s.st.records
  }

  lemma {:induction false} CalmRunKeepsTxInv(steps: seq<Step>, k: Key, bothSides: bool)
    requires After(steps).Some? && CalmRun(steps, k, bothSides)
    ensures TxInv(After(steps).value, k)
  {
    if steps != [] {
      var (init, last) := (steps[..|steps| - 1], steps[|steps| - 1]);
      CalmRunKeepsTxInv(init, k, bothSides);
      CalmRunKeepsInv(init, k, bothSides);
      StepKeepsTxInv(After(init).value, last, k);
    }
  }

  lemma {:induction false} StepKeepsTxInv(s: System, step: Step, k: Key)
    requires TxInv(s, k) && RecorderInv(ViewOf(s.st, k), s.recorder, k) && Enabled(s, step)
    ensures TxInv(Fire(s, step), k)
  {
    if step.PutTx? {
      assert s.recorder.mb.hash == k.hash ==> ViewOf(s.st, k).record.Some?;
    } else {
      OtherStepsKeepTxs(s, step, k);
    }
  }

  lemma {:induction false} OtherStepsKeepTxs(s: System, step: Step, k: Key)
    requires Enabled(s, step) && !step.PutTx?
    ensures Fire(s, step).st.txs == s.st.txs
    ensures k in s.st.records ==> k in Fire(s, step).st.records
  {
    match step
    case Notify(note) =>
      PendingOnly(s.st, note.place, s.st.Pending(note.place)[note.hash := note.notification]);
    case RemovePending =>
      PendingOnly(s.st, s.consumer.place, s.st.Pending(s.consumer.place) - {s.consumer.hash});
    case _ =>
  }

  lemma {:induction false} PendingOnly(st: State, place: Place, pending: map<Slice, Notification>)
    ensures var st' := st.WithPending(place, pending);
            st'.txs == st.txs && st'.records == st.records
  {
    match place
    case Source =>
    case Destination =>
    case Both =>
  }

  /** However the steps interleave, and whatever writes fail, a lookup by an indexed transaction finds the record. */
  lemma {:induction false} TxLookupSucceeds(steps: seq<Step>, k: Key, bothSides: bool, tx: Slice)
    requires After(steps).Some? && CalmRun(steps, k, bothSides)
    requires var txs := After(steps).value.st.txs; tx in txs && txs[tx] == k.hash
    ensures var found := LookupByTx(After(steps).value.st, tx);
            found.Some? && found == Find(After(steps).value.st.records, k) && found.value.epoch == k.epoch
  {
    CalmRunKeepsInv(steps, k, bothSides);
    CalmRunKeepsTxInv(steps, k, bothSides);
  }
}
