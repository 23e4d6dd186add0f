/**
 * What becomes of the notifications of one miniblock over a whole interleaving, with keys evicted at will. Four kinds of
 * steps decide it: a notification arrives, the consumer forgets one, the recorder saves an epoch for the miniblock, which
 * takes lookups to a record without coordinates, and the consumer puts the record it read over a newer one. Everything
 * else leaves the record that lookups will give, and what waits for it, as they are.
 */
module InterleavingOutcomes {
  import opened Words
  import opened Schemas
  import opened History
  import opened HistoryRuns
  import opened HistoryEvictions
  import opened Interleaving
  import opened InterleavingLosses

  // ---------- the steps that decide ----------

  predicate SavesEpochOf(s: System, step: Step, h: Slice) {
    step.SaveEpoch? && s.recorder.Checked? && s.recorder.mb.hash == h
  }

  predicate NotifiesOf(step: Step, h: Slice, side: Place) {
    step.Notify? && step.note.hash == h && Covers(step.note.place, side)
  }

  predicate ForgetsOf(s: System, step: Step, h: Slice, side: Place) {
    step.RemovePending? && s.consumer.PatchedPut? && s.consumer.hash == h && Covers(s.consumer.place, side)
  }

  /** The consumer puts the record it read over one that was put in the same epoch since, after an eviction. */
  predicate OverwritesOf(s: System, step: Step, h: Slice) {
    && step.PutPatched? && s.consumer.RecordRead? && s.consumer.hash == h
    && !AboutToPut(s, h) && Find(s.st.epochs, h) == Some(s.consumer.md.epoch) && LookupByHash(s.st, h) != Some(s.consumer.md)
  }

  /** A record without its coordinates: as it was when it was recorded. */
  function Bare(md: MiniblockMetadata): MiniblockMetadata {
    WithCoordinates(md, NO_NOTIFICATION, NO_NOTIFICATION)
  }

  /** The recording that lookups will give: the last one that saved its epoch, or the one whose record was put over it. */
  function LastSaved(steps: seq<Step>, h: Slice): Option<MiniblockMetadata> {
    if steps == [] then None
    else
      var (init, last) := (steps[..|steps| - 1], steps[|steps| - 1]);
      match After(init)
      case None => None
      case Some(s) => SavedStep(LastSaved(init, h), s, last, h)
  }

  function SavedStep(saved: Option<MiniblockMetadata>, s: System, step: Step, h: Slice): Option<MiniblockMetadata> {
    if SavesEpochOf(s, step, h) then Some(FreshRecord(s.recorder.hdr, s.recorder.mb))
    else if OverwritesOf(s, step, h) then Some(Bare(s.consumer.md))
    else saved
  }

  function NoteOrNothing(n: Option<Notification>): Notification {
    if n.Some? then n.value else NO_NOTIFICATION
  }

  /** What the consumer leaves in lookups when it forgets what waits: its own notification, or a record without any. */
  function LeftBehind(s: System): Notification
    requires s.consumer.PatchedPut?
  {
    if InPlace(s) then s.consumer.n else NO_NOTIFICATION
  }

  /**
   * The last notification of the side is lost. Of the steps that decide on the side the last one was a losing one: the
   * consumer forgot another notification than the one it leaves in lookups; or, when nothing waited, an epoch was saved,
   * or a record was put over a newer one that does not show the notification.
   */
  function Lost(steps: seq<Step>, h: Slice, side: Place): bool {
    if steps == [] then false
    else
      var (init, last) := (steps[..|steps| - 1], steps[|steps| - 1]);
      match After(init)
      case None => false
      case Some(s) =>
        if NotifiesOf(last, h, side) then false
        else if ForgetsOf(s, last, h, side) then WaitingFor(HashView(s.st, h), side) != Some(LeftBehind(s))
        else if SavesEpochOf(s, last, h) && WaitingFor(HashView(s.st, h), side).None?
        then NoteOrNothing(LastNote(s.log, h, side)) != NO_NOTIFICATION
        else if OverwritesOf(s, last, h) && WaitingFor(HashView(s.st, h), side).None?
        then Patch(s.consumer.md, side, NoteOrNothing(LastNote(s.log, h, side))) != s.consumer.md
        else Lost(init, h, side)
  }

  // ---------- the coordinates a run leads to ----------

  /** The coordinates of the side that lookups will show. */
  function Outcome(steps: seq<Step>, h: Slice, side: Place): Notification {
    if steps == [] then NO_NOTIFICATION
    else
      var (init, last) := (steps[..|steps| - 1], steps[|steps| - 1]);
      match After(init)
      case None => NO_NOTIFICATION
      case Some(s) => OutcomeStep(Outcome(init, h, side), s, last, h, side)
  }

  function OutcomeStep(n: Notification, s: System, step: Step, h: Slice, side: Place): Notification {
    if NotifiesOf(step, h, side) then step.note.notification
    else if ForgetsOf(s, step, h, side) then LeftBehind(s)
    else if SavesEpochOf(s, step, h) && WaitingFor(HashView(s.st, h), side).None? then NO_NOTIFICATION
    else if OverwritesOf(s, step, h) && WaitingFor(HashView(s.st, h), side).None? then Shown(s.consumer.md, side)
    else n
  }

  /** The coordinates a record has. */
  function Shown(md: MiniblockMetadata, side: Place): Notification {
    if !md.InMemory() then NO_NOTIFICATION
    else if side == Source then Notification(md.notarizedAtSourceInMetaNonce, md.notarizedAtSourceInMetaHash)
    else Notification(md.notarizedAtDestinationInMetaNonce, md.notarizedAtDestinationInMetaHash)
  }

  function WithCoordinates(md: MiniblockMetadata, source: Notification, destination: Notification): MiniblockMetadata {
    Patch(Patch(md, Source, source), Destination, destination)
  }

  /** What waits for a side is its last notification and its outcome. */
  ghost predicate Waiting(s: System, h: Slice, side: Place, outcome: Notification) {
    var w := WaitingFor(HashView(s.st, h), side);
    w.Some? ==> w.value == outcome && LastNote(s.log, h, side) == w
  }

  ghost predicate Leads(s: System, h: Slice, saved: Option<MiniblockMetadata>, source: Notification, destination: Notification) {
    && Waiting(s, h, Source, source) && Waiting(s, h, Destination, destination)
    && match saved
       case None =>
         && Base(s, h).None? && h !in s.st.epochs
         && WaitingFor(HashView(s.st, h), Source) == LastNote(s.log, h, Source)
         && WaitingFor(HashView(s.st, h), Destination) == LastNote(s.log, h, Destination)
       case Some(md) =>
         && Blank(md, Source) && Blank(md, Destination)
         && Prospect(s, h) == Some(WithCoordinates(md, source, destination))
  }

  // ---------- single steps ----------

  predicate Decides(s: System, step: Step, h: Slice) {
    SavesEpochOf(s, step, h) || (step.Notify? && step.note.hash == h) || (step.RemovePending? && s.consumer.PatchedPut? && s.consumer.hash == h)
    || OverwritesOf(s, step, h)
  }

  /** The waiting notifications of the miniblock, and the record that lookups will give, are as they were. */
  ghost predicate Same(s: System, s': System, h: Slice) {
    && Find(s'.st.source, h) == Find(s.st.source, h) && Find(s'.st.destination, h) == Find(s.st.destination, h)
    && Find(s'.st.both, h) == Find(s.st.both, h)
    && Base(s', h) == Base(s, h)
  }

  lemma {:induction false} RecorderStepIsSame(s: System, step: Step, h: Slice, bothSides: bool)
    requires InterleavingLosses.Inv(s, h, bothSides) && Enabled(s, step) && Steady(s, step, h, bothSides) && !Decides(s, step, h)
    requires step.SaveHeader? || step.CheckCache? || step.SaveEpoch? || step.PutFresh? || step.MarkInserted? || step.PutTx? || step.DoneIndexing? || step.RecorderFails?
    ensures Same(s, Fire(s, step), h)
  {
  }

  lemma {:induction false} PendingStepIsSame(s: System, step: Step, h: Slice)
    requires Enabled(s, step) && !Decides(s, step, h)
    requires step.Notify? || step.RemovePending? || step.Take? || step.ReadEpoch? || step.ReadRecord? || step.ConsumerFails?
    ensures Same(s, Fire(s, step), h)
  {
    match step
    case Notify(note) =>
      match note.place {
        case Source =>
        case Destination =>
        case Both =>
      }
    case RemovePending =>
      match s.consumer.place {
        case Source =>
        case Destination =>
        case Both =>
      }
    case _ =>
  }

  /** Patching the record that lookups give is what consuming the waiting notification would do to it. */
  lemma {:induction false} PutPatchedKeepsProspect(s: System, h: Slice, bothSides: bool)
    requires InterleavingLosses.Inv(s, h, bothSides) && Enabled(s, PutPatched) && !OverwritesOf(s, PutPatched, h)
    ensures Prospect(Fire(s, PutPatched), h) == Prospect(s, h)
  {
    var (c, s') := (s.consumer, Fire(s, PutPatched));
    if c.hash == h && !AboutToPut(s, h) && Find(s.st.epochs, h) == Some(c.md.epoch) {
      assert Base(s, h) == Some(c.md) && Base(s', h) == Some(Patch(c.md, c.place, c.n));
      WaitingCovers(c.md, HashView(s.st, h), c.place, c.n);
    } else {
      assert Base(s', h) == Base(s, h);
    }
  }

  /** Where a notification waits, it hides what is in the record. */
  lemma {:induction false} WaitingCovers(md: MiniblockMetadata, v: View, place: Place, n: Notification)
    requires OneFamily(v, place == Both) && v.Waiting(place).Some?
    ensures Settled(Patch(md, place, n), v) == Settled(md, v)
  {
    match place
    case Source =>
    case Destination =>
    case Both =>
  }

  /** No other step changes the record that lookups will give once all that waits is consumed. */
  lemma {:induction false} OtherStepsKeepProspect(s: System, step: Step, h: Slice, bothSides: bool)
    requires InterleavingLosses.Inv(s, h, bothSides)
    requires Enabled(s, step) && Steady(s, step, h, bothSides) && !Decides(s, step, h)
    ensures Prospect(Fire(s, step), h) == Prospect(s, h)
  {
    if step.PutPatched? {
      PutPatchedKeepsProspect(s, h, bothSides);
    } else if step.Notify? || step.RemovePending? || step.Take? || step.ReadEpoch? || step.ReadRecord? || step.ConsumerFails? {
      PendingStepIsSame(s, step, h);
    } else {
      RecorderStepIsSame(s, step, h, bothSides);
    }
  }

  lemma {:induction false} OtherStepsLead(s: System, step: Step, h: Slice, bothSides: bool,
                                          saved: Option<MiniblockMetadata>, source: Notification, destination: Notification)
    requires InterleavingLosses.Inv(s, h, bothSides)
    requires Enabled(s, step) && Steady(s, step, h, bothSides) && !Decides(s, step, h)
    requires Leads(s, h, saved, source, destination)
    ensures Leads(Fire(s, step), h, saved, source, destination)
  {
    OtherStepsKeepProspect(s, step, h, bothSides);
    OtherStepsKeepWaiting(s, step, h, bothSides);
    OtherStepsKeepNotes(s, step, h);
    if saved.None? {
      UnsavedStays(s, step, h, bothSides);
    }
  }

  lemma {:induction false} OtherStepsKeepWaiting(s: System, step: Step, h: Slice, bothSides: bool)
    requires InterleavingLosses.Inv(s, h, bothSides)
    requires Enabled(s, step) && Steady(s, step, h, bothSides) && !Decides(s, step, h)
    ensures var (v, v') := (HashView(s.st, h), HashView(Fire(s, step).st, h));
            WaitingFor(v', Source) == WaitingFor(v, Source) && WaitingFor(v', Destination) == WaitingFor(v, Destination)
  {
    if step.PutPatched? {
    } else if step.Notify? || step.RemovePending? || step.Take? || step.ReadEpoch? || step.ReadRecord? || step.ConsumerFails? {
      PendingStepIsSame(s, step, h);
    } else {
      RecorderStepIsSame(s, step, h, bothSides);
    }
  }

  lemma {:induction false} OtherStepsKeepNotes(s: System, step: Step, h: Slice)
    requires Enabled(s, step) && !(step.Notify? && step.note.hash == h)
    ensures LastNote(Fire(s, step).log, h, Source) == LastNote(s.log, h, Source)
    ensures LastNote(Fire(s, step).log, h, Destination) == LastNote(s.log, h, Destination)
  {
    match step
    case Notify(note) => LogStep(s.log, Notified(note), h);
    case PutFresh => LogStep(s.log, Event.Recording(s.recorder.hdr, s.recorder.mb), h);
    case _ =>
  }

  lemma {:induction false} UnsavedStays(s: System, step: Step, h: Slice, bothSides: bool)
    requires Enabled(s, step) && Steady(s, step, h, bothSides) && !SavesEpochOf(s, step, h)
    requires Base(s, h).None? && h !in s.st.epochs
    ensures Base(Fire(s, step), h).None? && h !in Fire(s, step).st.epochs
  {
    match step
    case Notify(note) => EnqueuedAt(s.st, note);
    case RemovePending =>
      match s.consumer.place {
        case Source =>
        case Destination =>
        case Both =>
      }
    case _ =>
  }

  // ---------- the deciding steps ----------

  lemma {:induction false} PatchOver(md: MiniblockMetadata, s: Notification, d: Notification, place: Place, n: Notification)
    ensures Patch(WithCoordinates(md, s, d), place, n) ==
            WithCoordinates(md, if Covers(place, Source) then n else s, if Covers(place, Destination) then n else d)
  {
    match place
    case Source =>
    case Destination =>
    case Both =>
  }

  lemma {:induction false} NotifyLeads(s: System, note: Note, h: Slice, bothSides: bool,
                                       saved: Option<MiniblockMetadata>, source: Notification, destination: Notification)
    requires InterleavingLosses.Inv(s, h, bothSides) && Leads(s, h, saved, source, destination)
    requires note.hash == h && (note.place == Both <==> bothSides)
    ensures Leads(Fire(s, Notify(note)), h, saved, OutcomeStep(source, s, Notify(note), h, Source),
                  OutcomeStep(destination, s, Notify(note), h, Destination))
  {
    var (v, s', n) := (HashView(s.st, h), Fire(s, Notify(note)), note.notification);
    EnqueueOnHashView(s.st, note, h);
    EnqueuedPending(s.st, note, h, bothSides);
    LogStep(s.log, Notified(note), h);
    assert Base(s', h) == Base(s, h);
    NewestWaits(v, note.place, n);
    if saved.Some? {
      NotifiedRecord(v, note.place, n, Base(s, h).value);
      PatchOver(saved.value, source, destination, note.place, n);
    }
  }

  lemma {:induction false} NewestWaits(v: View, place: Place, n: Notification)
    requires OneFamily(v, place == Both)
    ensures var v' := v.WithWaiting(place, Some(n));
            && WaitingFor(v', Source) == (if Covers(place, Source) then Some(n) else WaitingFor(v, Source))
            && WaitingFor(v', Destination) == (if Covers(place, Destination) then Some(n) else WaitingFor(v, Destination))
  {
    match place
    case Source =>
    case Destination =>
    case Both =>
  }

  lemma {:induction false} SaveLeads(s: System, h: Slice, saved: Option<MiniblockMetadata>, source: Notification, destination: Notification)
    requires Leads(s, h, saved, source, destination) && SavesEpochOf(s, SaveEpoch, h)
    ensures Leads(Fire(s, SaveEpoch), h, Some(FreshRecord(s.recorder.hdr, s.recorder.mb)),
                  OutcomeStep(source, s, SaveEpoch, h, Source), OutcomeStep(destination, s, SaveEpoch, h, Destination))
  {
    FreshIsBlank(s.recorder.hdr, s.recorder.mb);
  }

  /** Forgetting what waits leaves the coordinates that the record has itself. */
  lemma {:induction false} ForgottenRecord(md: MiniblockMetadata, v: View, place: Place, n: Notification)
    requires OneFamily(v, place == Both) && Patch(md, place, n) == md
    ensures Settled(md, v.WithWaiting(place, None)) == Patch(Settled(md, v), place, n)
  {
    match place
    case Source =>
    case Destination =>
    case Both =>
  }

  lemma {:induction false} NothingWaits(v: View, place: Place)
    requires OneFamily(v, place == Both)
    ensures var v' := v.WithWaiting(place, None);
            && WaitingFor(v', Source) == (if Covers(place, Source) then None else WaitingFor(v, Source))
            && WaitingFor(v', Destination) == (if Covers(place, Destination) then None else WaitingFor(v, Destination))
  {
    match place
    case Source =>
    case Destination =>
    case Both =>
  }

  lemma {:induction false} RemoveLeads(s: System, h: Slice, bothSides: bool, saved: Option<MiniblockMetadata>, source: Notification, destination: Notification)
    requires InterleavingLosses.Inv(s, h, bothSides) && Leads(s, h, saved, source, destination)
    requires s.consumer.PatchedPut? && s.consumer.hash == h
    ensures Leads(Fire(s, RemovePending), h, saved, OutcomeStep(source, s, RemovePending, h, Source),
                  OutcomeStep(destination, s, RemovePending, h, Destination))
  {
    var (c, v, s', md) := (s.consumer, HashView(s.st, h), Fire(s, RemovePending), Base(s, h).value);
    RemovalOnView(s);
    RemovedPending(s.st, c.place, h, h, bothSides);
    NothingWaits(v, c.place);
    assert Base(s', h) == Base(s, h);
    assert Patch(md, c.place, LeftBehind(s)) == md;
    ForgottenRecord(md, v, c.place, LeftBehind(s));
    PatchOver(saved.value, source, destination, c.place, LeftBehind(s));
  }

  // ---------- putting over a newer record ----------

  /** The records of the miniblock have been in memory. */
  ghost predicate Memory(s: System, h: Slice) {
    && (forall e: uint32 :: Key(e, h) in s.st.records ==> s.st.records[Key(e, h)].InMemory())
    && ((s.consumer.RecordRead? || s.consumer.PatchedPut?) && s.consumer.hash == h ==> s.consumer.md.InMemory())
  }

  lemma {:induction false} StepKeepsMemory(s: System, step: Step, h: Slice)
    requires Memory(s, h) && Enabled(s, step)
    ensures Memory(Fire(s, step), h)
  {
    match step
    case Notify(note) => PendingOnly(s.st, note.place, s.st.Pending(note.place)[note.hash := note.notification]);
    case RemovePending => PendingOnly(s.st, s.consumer.place, s.st.Pending(s.consumer.place) - {s.consumer.hash});
    case PutPatched => PatchInMemory(s.consumer.md, s.consumer.place, s.consumer.n);
    case _ =>
  }

  lemma {:induction false} PatchInMemory(md: MiniblockMetadata, place: Place, n: Notification)
    ensures md.InMemory() ==> Patch(md, place, n).InMemory()
  {
    match place
    case Source =>
    case Destination =>
    case Both =>
  }

  lemma {:induction false} RunKeepsMemory(steps: seq<Step>, h: Slice)
    requires After(steps).Some?
    ensures Memory(After(steps).value, h)
  {
    if steps != [] {
      RunKeepsMemory(steps[..|steps| - 1], h);
      StepKeepsMemory(After(steps[..|steps| - 1]).value, steps[|steps| - 1], h);
    }
  }

  lemma {:induction false} ShownIsPatched(md: MiniblockMetadata, side: Place, n: Notification)
    requires md.InMemory() && side != Both
    ensures Shown(md, side) == n <==> Patch(md, side, n) == md
  {
  }

  lemma {:induction false} OverwriteLeads(s: System, h: Slice, bothSides: bool, saved: Option<MiniblockMetadata>, source: Notification, destination: Notification)
    requires InterleavingLosses.Inv(s, h, bothSides) && Memory(s, h) && Leads(s, h, saved, source, destination)
    requires OverwritesOf(s, PutPatched, h)
    ensures Leads(Fire(s, PutPatched), h, Some(Bare(s.consumer.md)), OutcomeStep(source, s, PutPatched, h, Source),
                  OutcomeStep(destination, s, PutPatched, h, Destination))
  {
    var (c, v, s') := (s.consumer, HashView(s.st, h), Fire(s, PutPatched));
    assert Base(s', h) == Some(Patch(c.md, c.place, c.n));
    WaitingCovers(c.md, v, c.place, c.n);
    SettledBare(c.md, v);
  }

  lemma {:induction false} SettledBare(md: MiniblockMetadata, v: View)
    requires md.InMemory()
    ensures var (s, d) := (WaitingFor(v, Source), WaitingFor(v, Destination));
            Settled(md, v) == WithCoordinates(Bare(md), if s.Some? then s.value else Shown(md, Source), if d.Some? then d.value else Shown(md, Destination))
    ensures Blank(Bare(md), Source) && Blank(Bare(md), Destination)
  {
  }

  // ---------- runs ----------

  lemma {:induction false} StepLeads(s: System, step: Step, h: Slice, bothSides: bool,
                                     saved: Option<MiniblockMetadata>, source: Notification, destination: Notification)
    requires InterleavingLosses.Inv(s, h, bothSides) && Memory(s, h) && Leads(s, h, saved, source, destination)
    requires Enabled(s, step) && Steady(s, step, h, bothSides)
    ensures Leads(Fire(s, step), h, SavedStep(saved, s, step, h),
                  OutcomeStep(source, s, step, h, Source), OutcomeStep(destination, s, step, h, Destination))
  {
    if !Decides(s, step, h) {
      OtherStepsLead(s, step, h, bothSides, saved, source, destination);
    } else {
      match step
      case Notify(note) => NotifyLeads(s, note, h, bothSides, saved, source, destination);
      case SaveEpoch => SaveLeads(s, h, saved, source, destination);
      case RemovePending => RemoveLeads(s, h, bothSides, saved, source, destination);
      case PutPatched => OverwriteLeads(s, h, bothSides, saved, source, destination);
    }
  }

  lemma {:induction false} RunLeads(steps: seq<Step>, h: Slice, bothSides: bool)
    requires After(steps).Some? && SteadyRun(steps, h, bothSides)
    ensures Leads(After(steps).value, h, LastSaved(steps, h), Outcome(steps, h, Source), Outcome(steps, h, Destination))
  {
    if steps != [] {
      var (init, last) := (steps[..|steps| - 1], steps[|steps| - 1]);
      RunLeads(init, h, bothSides);
      SteadyRunKeepsInv(init, h, bothSides);
      RunKeepsMemory(init, h);
      StepLeads(After(init).value, last, h, bothSides, LastSaved(init, h), Outcome(init, h, Source), Outcome(init, h, Destination));
    }
  }

  /** A side is lost exactly when its outcome is another one than its last notification. */
  lemma {:induction false} LostIsAnotherOutcome(steps: seq<Step>, h: Slice, bothSides: bool, side: Place)
    requires After(steps).Some? && SteadyRun(steps, h, bothSides) && side != Both
    ensures Lost(steps, h, side) <==> Outcome(steps, h, side) != NoteOrNothing(LastNote(After(steps).value.log, h, side))
  {
    if steps != [] {
      var (init, last) := (steps[..|steps| - 1], steps[|steps| - 1]);
      var s := After(init).value;
      LostIsAnotherOutcome(init, h, bothSides, side);
      RunLeads(init, h, bothSides);
      if NotifiesOf(last, h, side) {
        LogStep(s.log, Notified(last.note), h);
      } else {
        SideKeepsNote(s, last, h, side);
      }
      if ForgetsOf(s, last, h, side) {
        SteadyRunKeepsInv(init, h, bothSides);
        ConsumedWaits(s, bothSides, side);
      } else if OverwritesOf(s, last, h) {
        RunKeepsMemory(init, h);
        ShownIsPatched(s.consumer.md, side, NoteOrNothing(LastNote(s.log, h, side)));
      }
    }
  }

  lemma {:induction false} SideKeepsNote(s: System, step: Step, h: Slice, side: Place)
    requires Enabled(s, step) && !NotifiesOf(step, h, side)
    ensures LastNote(Fire(s, step).log, h, side) == LastNote(s.log, h, side)
  {
    match step
    case Notify(note) => LogStep(s.log, Notified(note), h);
    case PutFresh => LogStep(s.log, Event.Recording(s.recorder.hdr, s.recorder.mb), h);
    case _ =>
  }

  lemma {:induction false} ConsumedWaits(s: System, bothSides: bool, side: Place)
    requires s.consumer.PatchedPut? && InterleavingLosses.Inv(s, s.consumer.hash, bothSides)
    requires side != Both && Covers(s.consumer.place, side)
    ensures WaitingFor(HashView(s.st, s.consumer.hash), side).Some?
  {
  }

  // ---------- the theorems ----------

  lemma {:induction false} CoordinatesDecide(md: MiniblockMetadata, s: Notification, d: Notification, s': Option<Notification>, d': Option<Notification>)
    requires Blank(md, Source) && Blank(md, Destination)
    ensures WithCoordinates(md, s, d) == PatchWith(PatchWith(md, Source, s'), Destination, d') <==>
            s == NoteOrNothing(s') && d == NoteOrNothing(d')
  {
  }

  /**
   * After any interleaving, whatever keys are evicted, in however many epochs the miniblock is recorded and however its
   * notifications fall: the record that lookups will give once the recorder has put what it has saved an epoch for and
   * all that waits is consumed is what the log says, the last notification of each side in its recording, if and only if
   * no side is lost. Before any epoch is saved there is no record and the last notifications wait.
   */
  lemma {:induction false} SettledIsExpectedIff(steps: seq<Step>, h: Slice, bothSides: bool)
    requires After(steps).Some? && SteadyRun(steps, h, bothSides)
    ensures var s := After(steps).value;
            match LastSaved(steps, h)
            case Some(md) =>
              && Prospect(s, h).Some?
              && (Prospect(s, h) == Some(Expected(s.log, h, md)) <==> !Lost(steps, h, Source) && !Lost(steps, h, Destination))
            case None =>
              && Prospect(s, h).None?
              && WaitingFor(HashView(s.st, h), Source) == LastNote(s.log, h, Source)
              && WaitingFor(HashView(s.st, h), Destination) == LastNote(s.log, h, Destination)
  {
    var log := After(steps).value.log;
    RunLeads(steps, h, bothSides);
    LostIsAnotherOutcome(steps, h, bothSides, Source);
    LostIsAnotherOutcome(steps, h, bothSides, Destination);
    if LastSaved(steps, h).Some? {
      CoordinatesDecide(LastSaved(steps, h).value, Outcome(steps, h, Source), Outcome(steps, h, Destination),
                        LastNote(log, h, Source), LastNote(log, h, Destination));
    }
  }

  /** At rest, with the recorder not about to put and nothing waiting, that record is what lookups give. */
  lemma {:induction false} AtRest(s: System, h: Slice)
    requires !AboutToPut(s, h) && h !in s.st.source && h !in s.st.destination && h !in s.st.both
    ensures Prospect(s, h) == LookupByHash(s.st, h)
  {
  }

  predicate SameSide(md: MiniblockMetadata, md': MiniblockMetadata, side: Place) {
    if side == Source then
      && md.notarizedAtSourceInMetaNonce == md'.notarizedAtSourceInMetaNonce
      && md.notarizedAtSourceInMetaHash == md'.notarizedAtSourceInMetaHash
    else
      && md.notarizedAtDestinationInMetaNonce == md'.notarizedAtDestinationInMetaNonce
      && md.notarizedAtDestinationInMetaHash == md'.notarizedAtDestinationInMetaHash
  }

  /** In any system: saving another epoch keeps a side if and only if something waits for it or the record shows nothing. */
  lemma {:induction false} SavedEpochKeepsSideIff(s: System, h: Slice, side: Place)
    requires SavesEpochOf(s, SaveEpoch, h) && Base(s, h).Some? && side != Both
    ensures SameSide(Prospect(Fire(s, SaveEpoch), h).value, Prospect(s, h).value, side) <==>
            WaitingFor(HashView(s.st, h), side).Some? || Blank(Base(s, h).value, side)
  {
    FreshIsBlank(s.recorder.hdr, s.recorder.mb);
  }

  // ---------- a loss that the removal does not show ----------

  /** The recorder finds the new epoch's key uncached, and the consumer patches the record of the older one. */
  function PatchedMeanwhile(prior: Header, next: Header, mb: Miniblock, n: Notification): seq<Step> {
    RecordSteps(prior, mb) + [Notify(Note(Both, mb.hash, n)), Take(Both, mb.hash), ReadEpoch] +
    [CheckCache(next, mb), ReadRecord, PutPatched]
  }

  /** Then the consumer forgets the notification, and the recorder goes on. */
  function LaterRecordingRun(prior: Header, next: Header, mb: Miniblock, n: Notification): seq<Step> {
    PatchedMeanwhile(prior, next, mb, n) + [RemovePending, SaveEpoch, PutFresh]
  }

  lemma {:induction false} AfterChecking(prior: Header, next: Header, mb: Miniblock, n: Notification, t: seq<Step>) returns (s: System)
    requires mb.txHashes == [] && prior.epoch != next.epoch
    requires t == RecordSteps(prior, mb) + [Notify(Note(Both, mb.hash, n)), Take(Both, mb.hash), ReadEpoch] + [CheckCache(next, mb)]
    ensures After(t) == Some(s)
    ensures s.recorder == Checked(next, mb) && s.consumer == EpochRead(Both, mb.hash, n, prior.epoch)
    ensures s.st.epochs == map[mb.hash := prior.epoch]
    ensures s.st.both == map[mb.hash := n] && s.st.source == map[] && s.st.destination == map[]
    ensures s.st.records == map[Key(prior.epoch, mb.hash) := FreshRecord(prior, mb)]
  {
    var (k, l) := (Key(prior.epoch, mb.hash), Key(next.epoch, mb.hash));
    if DedupKey(k) == DedupKey(l) {
      DedupKeyIsInjective(k, l);
    }
    var s0 := AfterTaking(prior, mb, n);
    AfterJoined(t[..|t| - 1], CheckCache(next, mb));
    s := After(t).value;
  }

  lemma {:induction false} AfterPatching(prior: Header, next: Header, mb: Miniblock, n: Notification) returns (s: System)
    requires mb.txHashes == [] && prior.epoch != next.epoch
    ensures After(PatchedMeanwhile(prior, next, mb, n)) == Some(s)
    ensures s.recorder == Checked(next, mb) && s.consumer == PatchedPut(Both, mb.hash, n, Patch(FreshRecord(prior, mb), Both, n))
    ensures s.st.epochs == map[mb.hash := prior.epoch]
    ensures s.st.both == map[mb.hash := n] && s.st.source == map[] && s.st.destination == map[]
    ensures s.st.records == map[Key(prior.epoch, mb.hash) := Patch(FreshRecord(prior, mb), Both, n)]
  {
    var t := RecordSteps(prior, mb) + [Notify(Note(Both, mb.hash, n)), Take(Both, mb.hash), ReadEpoch] + [CheckCache(next, mb)];
    s := AfterChecking(prior, next, mb, n, t);
    AfterJoined(t, ReadRecord);
    AfterJoined(t + [ReadRecord], PutPatched);
    assert t + [ReadRecord] + [PutPatched] == PatchedMeanwhile(prior, next, mb, n);
    s := After(PatchedMeanwhile(prior, next, mb, n)).value;
  }

  /** The removal loses nothing, no newer notification comes and no epoch is saved before it, and yet the notification is lost. */
  lemma {:induction false} LostToLaterRecording(prior: Header, next: Header, mb: Miniblock, n: Notification)
    requires mb.txHashes == [] && prior.epoch != next.epoch
    ensures var removing := After(PatchedMeanwhile(prior, next, mb, n));
            removing.Some? && removing.value.consumer.PatchedPut? && RemovalLosesNothing(removing.value)
    ensures var end := After(LaterRecordingRun(prior, next, mb, n));
            && end.Some? && mb.hash !in end.value.st.both
            && LookupByHash(end.value.st, mb.hash) == Some(FreshRecord(next, mb))
  {
    var t := PatchedMeanwhile(prior, next, mb, n);
    var s := AfterPatching(prior, next, mb, n);
    RemovingPatched(s);
    AfterJoined(t, RemovePending);
    AfterJoined(t + [RemovePending], SaveEpoch);
    AfterJoined(t + [RemovePending] + [SaveEpoch], PutFresh);
    assert t + [RemovePending] + [SaveEpoch] + [PutFresh] == LaterRecordingRun(prior, next, mb, n);
  }

  lemma {:induction false} RemovingPatched(s: System)
    requires s.consumer.PatchedPut? && s.consumer.place == Both && InPlace(s)
    requires Patch(s.consumer.md, Both, s.consumer.n) == s.consumer.md
    requires Find(s.st.both, s.consumer.hash) == Some(s.consumer.n)
    requires s.consumer.hash !in s.st.source && s.consumer.hash !in s.st.destination
    ensures RemovalLosesNothing(s)
  {
    var h := s.consumer.hash;
    RemovalOnView(s);
    assert Base(Fire(s, RemovePending), h) == Base(s, h);
    ForgettingIsSafe(s.consumer.md, HashView(s.st, h), Both, s.consumer.n);
  }
}
