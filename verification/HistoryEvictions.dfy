/**
 * Whole runs without any promise about the deduplication cache or the epochs: keys may be evicted at any put, and a
 * miniblock may be recorded in several epochs. The record is then that of the last recording that found its key
 * uncached, and a notification is lost exactly when such a recording comes after it was consumed.
 */
module HistoryEvictions {
  import opened Words
  import opened Schemas
  import opened History
  import opened HistoryRuns

  // ---------- what happened in a run ----------

  /** The recordings of a block that find their key uncached. */
  function Uncached(st: State, hdr: Header, mbs: seq<Miniblock>, env: Env): seq<Event> {
    if mbs == [] then []
    else
      var (init, last) := (mbs[..|mbs| - 1], mbs[|mbs| - 1]);
      Uncached(st, hdr, init, env) +
      if DedupKey(Key(hdr.epoch, last.hash)) in RecordAll(st, hdr, init, env).dedup then [] else [Recording(hdr, last)]
  }

  function TraceOf(self: uint32, st: State, op: Op): seq<Event>
    requires op.WellFormed()
  {
    match op
    case RecordOp(hdr, body, intraShard, env) =>
      Uncached(st.(epochs := st.epochs[hdr.hash := hdr.epoch]), hdr, Recorded(body, intraShard), env)
    case NotarizeOp(headers, hashes, _) => Notifieds(NotesOf(self, headers, hashes)) + [Consumed]
  }

  /** The log of a run without the recordings that found their key cached, and with the passes over the pending maps. */
  function Trace(self: uint32, ops: seq<Op>): seq<Event>
    requires WellFormedRun(ops)
  {
    if ops == [] then []
    else
      var (init, op) := (ops[..|ops| - 1], ops[|ops| - 1]);
      Trace(self, init) + TraceOf(self, Run(self, init), op)
  }

  predicate Records(e: Event, h: Slice) {
    e.Recording? && e.mb.hash == h
  }

  function LastRecording(trace: seq<Event>, h: Slice): Option<MiniblockMetadata> {
    if trace == [] then None
    else
      var (before, last) := (trace[..|trace| - 1], trace[|trace| - 1]);
      if Records(last, h) then Some(FreshRecord(last.hdr, last.mb)) else LastRecording(before, h)
  }

  /** The notification that still waits: none once a pass has come after a recording. */
  function Waits(trace: seq<Event>, h: Slice, side: Place): Option<Notification> {
    if trace == [] then None
    else
      var (before, last) := (trace[..|trace| - 1], trace[|trace| - 1]);
      if Matches(last, h, side) then Some(last.note.notification)
      else if last.Consumed? && LastRecording(before, h).Some? then None
      else Waits(before, h, side)
  }

  /** The last notification of the side has been consumed. */
  predicate Applied(trace: seq<Event>, h: Slice, side: Place) {
    LastNote(trace, h, side).Some? && Waits(trace, h, side).None?
  }

  /** A recording that finds its key uncached comes after the side's last notification was consumed. */
  ghost predicate Lost(trace: seq<Event>, h: Slice, side: Place) {
    exists r :: LostAt(trace, h, side, r)
  }

  ghost predicate LostAt(trace: seq<Event>, h: Slice, side: Place, r: nat) {
    && r < |trace| && Records(trace[r], h) && Applied(trace[..r], h, side)
    && forall j :: r <= j < |trace| ==> !Matches(trace[j], h, side)
  }

  ghost function Kept(trace: seq<Event>, h: Slice, side: Place): Option<Notification> {
    if Lost(trace, h, side) then None else LastNote(trace, h, side)
  }

  // ---------- one miniblock's share, by its hash alone ----------

  /** The record that lookups give, in whatever epoch, and what waits for it. */
  function HashView(st: State, h: Slice): View {
    View(Find(st.epochs, h), LookupByHash(st, h), false, Find(st.source, h), Find(st.destination, h), Find(st.both, h))
  }

  function ConsumeHashView(v: View, place: Place): View {
    if v.Waiting(place).None? || v.record.None? then v
    else v.(record := Some(Patch(v.record.value, place, v.Waiting(place).value))).WithWaiting(place, None)
  }

  lemma {:induction false} RecordMiniblockOnHashView(st: State, hdr: Header, mb: Miniblock, env: Env, h: Slice)
    requires Quiet(env)
    ensures HashView(RecordMiniblock(st, hdr, mb, env), h) ==
            if mb.hash == h && DedupKey(Key(hdr.epoch, h)) !in st.dedup
            then HashView(st, h).(epoch := Some(hdr.epoch), record := Some(FreshRecord(hdr, mb))) else HashView(st, h)
  {
  }

  lemma {:induction false} EnqueueOnHashView(st: State, note: Note, h: Slice)
    ensures HashView(Enqueue(st, note), h) ==
            if note.hash == h then HashView(st, h).WithWaiting(note.place, Some(note.notification)) else HashView(st, h)
  {
    FindUpdated(st.Pending(note.place), note.hash, note.notification, h);
    match note.place
    case Source =>
    case Destination =>
    case Both =>
  }

  lemma {:induction false} ConsumePlaceOnHashView(st: State, place: Place, env: Env, h: Slice)
    requires Quiet(env)
    ensures HashView(ConsumePlace(st, place, env), h) == ConsumeHashView(HashView(st, h), place)
  {
    ConsumedLookup(st, place, env, h);
    ConsumedWaiting(st, place, env, h);
    match place
    case Source =>
    case Destination =>
    case Both =>
  }

  lemma {:induction false} ConsumedLookup(st: State, place: Place, env: Env, h: Slice)
    requires Quiet(env)
    ensures LookupByHash(ConsumePlace(st, place, env), h) ==
            if h in st.Pending(place) && st.Readable(h)
            then Some(Patch(LookupByHash(st, h).value, place, st.Pending(place)[h])) else LookupByHash(st, h)
  {
    var records := ConsumedRecords(st, place, st.Pending(place).Keys, env);
    var st' := ConsumePlace(st, place, env);
    assert st'.epochs == st.epochs && st'.records == records && records.Keys == st.records.Keys;
  }

  lemma {:induction false} ConsumedWaiting(st: State, place: Place, env: Env, h: Slice)
    requires Quiet(env)
    ensures Find(ConsumePlace(st, place, env).Pending(place), h) ==
            if st.Readable(h) then None else Find(st.Pending(place), h)
  {
    assert ConsumePlace(st, place, env).Pending(place) == ConsumedPending(st, place, st.Pending(place).Keys, env);
  }

  // ---------- the invariant ----------

  /** The coordinates that passes have brought into the record since it was last recorded. */
  function Shows(trace: seq<Event>, h: Slice, side: Place): Option<Notification> {
    if trace == [] then None
    else
      var (before, last) := (trace[..|trace| - 1], trace[|trace| - 1]);
      if Records(last, h) then None
      else if last.Consumed? && LastRecording(before, h).Some? && Waits(before, h, side).Some? then Waits(before, h, side)
      else Shows(before, h, side)
  }

  ghost predicate Tracks(v: View, trace: seq<Event>, h: Slice, bothSides: bool) {
    && OneFamily(v, bothSides)
    && WaitingFor(v, Source) == Waits(trace, h, Source)
    && WaitingFor(v, Destination) == Waits(trace, h, Destination)
    && match LastRecording(trace, h)
       case None => v.epoch.None? && v.record.None?
       case Some(recorded) =>
         v.record == Some(PatchWith(PatchWith(recorded, Source, Shows(trace, h, Source)), Destination, Shows(trace, h, Destination)))
  }

  lemma {:induction false} TraceStep(trace: seq<Event>, e: Event, h: Slice, side: Place)
    ensures LastRecording(trace + [e], h) == if Records(e, h) then Some(FreshRecord(e.hdr, e.mb)) else LastRecording(trace, h)
    ensures Waits(trace + [e], h, side) ==
            if Matches(e, h, side) then Some(e.note.notification)
            else if e.Consumed? && LastRecording(trace, h).Some? then None
            else Waits(trace, h, side)
    ensures Shows(trace + [e], h, side) ==
            if Records(e, h) then None
            else if e.Consumed? && LastRecording(trace, h).Some? && Waits(trace, h, side).Some? then Waits(trace, h, side)
            else Shows(trace, h, side)
    ensures LastNote(trace + [e], h, side) == if Matches(e, h, side) then Some(e.note.notification) else LastNote(trace, h, side)
  {
    assert (trace + [e])[..|trace|] == trace;
  }

  lemma {:induction false} RecordingTracks(v: View, trace: seq<Event>, hdr: Header, mb: Miniblock, h: Slice, bothSides: bool)
    requires Tracks(v, trace, h, bothSides)
    ensures Tracks(if mb.hash == h then v.(epoch := Some(hdr.epoch), record := Some(FreshRecord(hdr, mb))) else v,
                   trace + [Recording(hdr, mb)], h, bothSides)
  {
    TraceStep(trace, Recording(hdr, mb), h, Source);
    TraceStep(trace, Recording(hdr, mb), h, Destination);
  }

  lemma {:induction false} NotifyingTracks(v: View, trace: seq<Event>, note: Note, h: Slice, bothSides: bool)
    requires Tracks(v, trace, h, bothSides) && (note.hash == h ==> (note.place == Both <==> bothSides))
    ensures Tracks(if note.hash == h then v.WithWaiting(note.place, Some(note.notification)) else v,
                   trace + [Notified(note)], h, bothSides)
  {
    TraceStep(trace, Notified(note), h, Source);
    TraceStep(trace, Notified(note), h, Destination);
  }

  lemma {:induction false} PassTracks(v: View, trace: seq<Event>, h: Slice, bothSides: bool)
    requires Tracks(v, trace, h, bothSides)
    ensures Tracks(ConsumeHashView(ConsumeHashView(ConsumeHashView(v, Source), Destination), Both),
                   trace + [Consumed], h, bothSides)
  {
    TraceStep(trace, Consumed, h, Source);
    TraceStep(trace, Consumed, h, Destination);
  }

  // ---------- runs ----------

  lemma {:induction false} RecordAllTracks(st: State, trace: seq<Event>, hdr: Header, mbs: seq<Miniblock>, env: Env, h: Slice, bothSides: bool)
    requires Tracks(HashView(st, h), trace, h, bothSides) && Quiet(env)
    ensures Tracks(HashView(RecordAll(st, hdr, mbs, env), h), trace + Uncached(st, hdr, mbs, env), h, bothSides)
  {
    if mbs == [] {
      assert trace + [] == trace;
    } else {
      var (init, mb) := (mbs[..|mbs| - 1], mbs[|mbs| - 1]);
      RecordAllTracks(st, trace, hdr, init, env, h, bothSides);
      var (st1, t1) := (RecordAll(st, hdr, init, env), trace + Uncached(st, hdr, init, env));
      RecordMiniblockOnHashView(st1, hdr, mb, env, h);
      if DedupKey(Key(hdr.epoch, mb.hash)) in st1.dedup {
        assert trace + Uncached(st, hdr, mbs, env) == t1;
      } else {
        RecordingTracks(HashView(st1, h), t1, hdr, mb, h, bothSides);
        assert trace + Uncached(st, hdr, mbs, env) == t1 + [Recording(hdr, mb)];
      }
    }
  }

  lemma {:induction false} EnqueueAllTracks(self: uint32, st: State, trace: seq<Event>, notes: seq<Note>, h: Slice, shape: Slice -> Shape)
    requires Tracks(HashView(st, h), trace, h, shape(h).BothSides()) && NotesFit(self, notes, shape)
    ensures Tracks(HashView(EnqueueAll(st, notes), h), trace + Notifieds(notes), h, shape(h).BothSides())
  {
    if notes == [] {
      assert trace + Notifieds(notes) == trace;
    } else {
      var (init, note) := (notes[..|notes| - 1], notes[|notes| - 1]);
      EnqueueAllTracks(self, st, trace, init, h, shape);
      assert PlaceFits(self, note.place, shape(note.hash));
      var st1 := EnqueueAll(st, init);
      EnqueueOnHashView(st1, note, h);
      NotifyingTracks(HashView(st1, h), trace + Notifieds(init), note, h, shape(h).BothSides());
      assert trace + Notifieds(notes) == trace + Notifieds(init) + [Notified(note)];
    }
  }

  lemma {:induction false} ConsumeTracks(st: State, trace: seq<Event>, env: Env, h: Slice, bothSides: bool)
    requires Tracks(HashView(st, h), trace, h, bothSides) && Quiet(env)
    ensures Tracks(HashView(Consume(st, env), h), trace + [Consumed], h, bothSides)
  {
    var st1 := ConsumePlace(st, Source, env);
    var st2 := ConsumePlace(st1, Destination, env);
    ConsumePlaceOnHashView(st, Source, env, h);
    ConsumePlaceOnHashView(st1, Destination, env, h);
    ConsumePlaceOnHashView(st2, Both, env, h);
    PassTracks(HashView(st, h), trace, h, bothSides);
  }

  /** Writes succeed and no block header has the miniblock's hash; nothing is asked of the cache or the epochs. */
  ghost predicate Accepting(op: Op, h: Slice) {
    Quiet(op.env) && (op.RecordOp? ==> op.hdr.hash != h)
  }

  lemma {:induction false} RunTracks(self: uint32, ops: seq<Op>, h: Slice, shape: Slice -> Shape)
    requires WellFormedRun(ops) && forall i :: 0 <= i < |ops| ==> OpFits(ops[i], shape) && Accepting(ops[i], h)
    ensures Tracks(HashView(Run(self, ops), h), Trace(self, ops), h, shape(h).BothSides())
  {
    if ops != [] {
      var (init, op) := (ops[..|ops| - 1], ops[|ops| - 1]);
      RunTracks(self, init, h, shape);
      assert OpFits(op, shape) && Accepting(op, h);
      OpTracks(self, Run(self, init), Trace(self, init), op, h, shape);
    }
  }

  lemma {:induction false} OpTracks(self: uint32, st: State, trace: seq<Event>, op: Op, h: Slice, shape: Slice -> Shape)
    requires Tracks(HashView(st, h), trace, h, shape(h).BothSides())
    requires op.WellFormed() && OpFits(op, shape) && Accepting(op, h)
    ensures Tracks(HashView(Apply(st, self, op), h), trace + TraceOf(self, st, op), h, shape(h).BothSides())
  {
    match op
    case RecordOp(hdr, body, intraShard, env) =>
      var st1 := st.(epochs := st.epochs[hdr.hash := hdr.epoch]);
      assert HashView(st1, h) == HashView(st, h);
      RecordAllTracks(st1, trace, hdr, Recorded(body, intraShard), env, h, shape(h).BothSides());
    case NotarizeOp(headers, hashes, env) =>
      var notes := NotesOf(self, headers, hashes);
      HeaderNotesFit(self, headers, hashes, shape);
      EnqueueAllTracks(self, st, trace, notes, h, shape);
      ConsumeTracks(EnqueueAll(st, notes), trace + Notifieds(notes), env, h, shape(h).BothSides());
      assert trace + (Notifieds(notes) + [Consumed]) == trace + Notifieds(notes) + [Consumed];
  }

  // ---------- what is lost ----------

  lemma {:induction false} LostStep(trace: seq<Event>, e: Event, h: Slice, side: Place)
    ensures Lost(trace + [e], h, side) <==>
            !Matches(e, h, side) && (Lost(trace, h, side) || (Records(e, h) && Applied(trace, h, side)))
  {
    var t := trace + [e];
    assert t[..|trace|] == trace;
    if Lost(t, h, side) {
      var r: nat :| LostAt(t, h, side, r);
      assert !Matches(t[|trace|], h, side);
      if r < |trace| {
        assert t[..r] == trace[..r];
        assert LostAt(trace, h, side, r);
      }
    }
    if !Matches(e, h, side) && Lost(trace, h, side) {
      var r: nat :| LostAt(trace, h, side, r);
      assert t[..r] == trace[..r];
      assert LostAt(t, h, side, r);
    }
    if !Matches(e, h, side) && Records(e, h) && Applied(trace, h, side) {
      assert LostAt(t, h, side, |trace|);
    }
  }

  /** What waits is the last notification; when nothing waits, the record shows the last one unless it was lost. */
  lemma {:induction false} ShowsUnlessLost(trace: seq<Event>, h: Slice, side: Place)
    ensures Waits(trace, h, side).Some? ==> Waits(trace, h, side) == LastNote(trace, h, side) && !Lost(trace, h, side)
    ensures Waits(trace, h, side).None? ==> Shows(trace, h, side) == Kept(trace, h, side)
    ensures LastNote(trace, h, side).None? ==> !Lost(trace, h, side)
  {
    if trace != [] {
      var (before, e) := (trace[..|trace| - 1], trace[|trace| - 1]);
      ShowsUnlessLost(before, h, side);
      assert before + [e] == trace;
      TraceStep(before, e, h, side);
      LostStep(before, e, h, side);
    }
  }

  lemma {:induction false} FreshHasNoCoordinates(trace: seq<Event>, h: Slice)
    ensures LastRecording(trace, h).Some? ==> Blank(LastRecording(trace, h).value, Source) && Blank(LastRecording(trace, h).value, Destination)
  {
    if trace != [] {
      FreshHasNoCoordinates(trace[..|trace| - 1], h);
    }
  }

  lemma {:induction false} SameCoordinates(recorded: MiniblockMetadata, s: Option<Notification>, d: Option<Notification>, s': Option<Notification>, d': Option<Notification>)
    requires Blank(recorded, Source) && Blank(recorded, Destination)
    requires (s == s' || s.None?) && (d == d' || d.None?)
    ensures PatchWith(PatchWith(recorded, Source, s), Destination, d) == PatchWith(PatchWith(recorded, Source, s'), Destination, d')
            <==> (s == s' || s' == Some(NO_NOTIFICATION)) && (d == d' || d' == Some(NO_NOTIFICATION))
  {
  }

  // ---------- the trace and the log ----------

  lemma {:induction false} LastNoteOfJoined(a: seq<Event>, b: seq<Event>, h: Slice, side: Place)
    ensures LastNote(a + b, h, side) == if LastNote(b, h, side).Some? then LastNote(b, h, side) else LastNote(a, h, side)
  {
    if b == [] {
      assert a + b == a;
    } else {
      var k := |b| - 1;
      LastNoteOfJoined(a, b[..k], h, side);
      assert (a + b)[..|a + b| - 1] == a + b[..k];
    }
  }

  lemma {:induction false} NoNotes(events: seq<Event>, h: Slice, side: Place)
    requires forall i :: 0 <= i < |events| ==> events[i].Recording?
    ensures LastNote(events, h, side).None?
  {
    if events != [] {
      NoNotes(events[..|events| - 1], h, side);
    }
  }

  lemma {:induction false} UncachedAreRecordings(st: State, hdr: Header, mbs: seq<Miniblock>, env: Env)
    ensures forall i :: 0 <= i < |Uncached(st, hdr, mbs, env)| ==> Uncached(st, hdr, mbs, env)[i].Recording?
  {
    if mbs != [] {
      UncachedAreRecordings(st, hdr, mbs[..|mbs| - 1], env);
    }
  }

  /** The trace has the notifications of the log. */
  lemma {:induction false} SameLastNote(self: uint32, ops: seq<Op>, h: Slice, side: Place)
    requires WellFormedRun(ops)
    ensures LastNote(Trace(self, ops), h, side) == LastNote(Log(self, ops), h, side)
  {
    if ops != [] {
      var (init, op) := (ops[..|ops| - 1], ops[|ops| - 1]);
      SameLastNote(self, init, h, side);
      LastNoteOfJoined(Trace(self, init), TraceOf(self, Run(self, init), op), h, side);
      LastNoteOfJoined(Log(self, init), EventsOf(self, op), h, side);
      SameNotesOfOp(self, Run(self, init), op, h, side);
    }
  }

  lemma {:induction false} SameNotesOfOp(self: uint32, st: State, op: Op, h: Slice, side: Place)
    requires op.WellFormed()
    ensures LastNote(TraceOf(self, st, op), h, side) == LastNote(EventsOf(self, op), h, side)
  {
    match op
    case RecordOp(hdr, body, intraShard, env) =>
      UncachedAreRecordings(st.(epochs := st.epochs[hdr.hash := hdr.epoch]), hdr, Recorded(body, intraShard), env);
      NoNotes(TraceOf(self, st, op), h, side);
      NoNotes(EventsOf(self, op), h, side);
    case NotarizeOp(headers, hashes, _) =>
      LastNoteOfJoined(EventsOf(self, op), [Consumed], h, side);
      assert [Consumed][..0] == [];
  }

  // ---------- the theorems ----------

  /**
   * After every `OnNotarizedBlocks`, lookups give a miniblock as it was last recorded with its key uncached, in
   * whatever epoch, with the last notification of each side unless that one is lost.
   */
  lemma {:induction false} RunRefinesTrace(self: uint32, ops: seq<Op>, h: Slice, shape: Slice -> Shape)
    requires WellFormedRun(ops) && ops != [] && ops[|ops| - 1].NotarizeOp?
    requires forall i :: 0 <= i < |ops| ==> OpFits(ops[i], shape) && Accepting(ops[i], h)
    ensures var (st, trace) := (Run(self, ops), Trace(self, ops));
            match LastRecording(trace, h)
            case Some(recorded) =>
              && LookupByHash(st, h) ==
                 Some(PatchWith(PatchWith(recorded, Source, Kept(trace, h, Source)), Destination, Kept(trace, h, Destination)))
              && h !in st.source && h !in st.destination && h !in st.both
            case None =>
              && LookupByHash(st, h) == None
              && WaitingFor(HashView(st, h), Source) == LastNote(trace, h, Source)
              && WaitingFor(HashView(st, h), Destination) == LastNote(trace, h, Destination)
  {
    var trace := Trace(self, ops);
    RunTracks(self, ops, h, shape);
    ShowsUnlessLost(trace, h, Source);
    ShowsUnlessLost(trace, h, Destination);
    EndsWithPass(self, ops, h);
    if LastRecording(trace, h).None? {
      NothingAppliedUnrecorded(trace, h, Source);
      NothingAppliedUnrecorded(trace, h, Destination);
    }
  }

  lemma {:induction false} EndsWithPass(self: uint32, ops: seq<Op>, h: Slice)
    requires WellFormedRun(ops) && ops != [] && ops[|ops| - 1].NotarizeOp?
    ensures var trace := Trace(self, ops);
            LastRecording(trace, h).Some? ==> Waits(trace, h, Source).None? && Waits(trace, h, Destination).None?
  {
    var (init, op) := (ops[..|ops| - 1], ops[|ops| - 1]);
    var before := Trace(self, init) + Notifieds(NotesOf(self, op.headers, op.hashes));
    assert Trace(self, ops) == before + [Consumed];
    TraceStep(before, Consumed, h, Source);
    TraceStep(before, Consumed, h, Destination);
  }

  lemma {:induction false} NothingAppliedUnrecorded(trace: seq<Event>, h: Slice, side: Place)
    requires LastRecording(trace, h).None?
    ensures Waits(trace, h, side) == LastNote(trace, h, side)
  {
    if trace != [] {
      NothingAppliedUnrecorded(trace[..|trace| - 1], h, side);
    }
  }

  /** What the record is once all that waits for it is consumed. */
  lemma {:induction false} SettledIsKept(v: View, trace: seq<Event>, h: Slice, bothSides: bool)
    requires Tracks(v, trace, h, bothSides) && LastRecording(trace, h).Some?
    ensures v.record.Some?
    ensures Settled(v.record.value, v) ==
            PatchWith(PatchWith(LastRecording(trace, h).value, Source, Kept(trace, h, Source)), Destination, Kept(trace, h, Destination))
  {
    ShowsUnlessLost(trace, h, Source);
    ShowsUnlessLost(trace, h, Destination);
  }

  /**
   * So after any run the record, once what waits is consumed, is what the log says, with every last notification in it,
   * if and only if no recording found its key uncached after the last notification of a side was consumed (or what was
   * lost is no different from nothing). After an `OnNotarizedBlocks` that record is what lookups give.
   */
  lemma {:induction false} RecordIsExpectedUnlessLost(self: uint32, ops: seq<Op>, h: Slice, shape: Slice -> Shape)
    requires WellFormedRun(ops)
    requires forall i :: 0 <= i < |ops| ==> OpFits(ops[i], shape) && Accepting(ops[i], h)
    requires LastRecording(Trace(self, ops), h).Some?
    ensures var (trace, log, v) := (Trace(self, ops), Log(self, ops), HashView(Run(self, ops), h));
            && v.record == LookupByHash(Run(self, ops), h) && v.record.Some?
            && (Settled(v.record.value, v) == Expected(log, h, LastRecording(trace, h).value) <==>
                  && (Lost(trace, h, Source) ==> LastNote(log, h, Source) == Some(NO_NOTIFICATION))
                  && (Lost(trace, h, Destination) ==> LastNote(log, h, Destination) == Some(NO_NOTIFICATION)))
            && (ops != [] && ops[|ops| - 1].NotarizeOp? ==> v.record == Some(Settled(v.record.value, v)))
  {
    var trace := Trace(self, ops);
    RunTracks(self, ops, h, shape);
    SettledIsKept(HashView(Run(self, ops), h), trace, h, shape(h).BothSides());
    SameLastNote(self, ops, h, Source);
    SameLastNote(self, ops, h, Destination);
    FreshHasNoCoordinates(trace, h);
    ShowsUnlessLost(trace, h, Source);
    ShowsUnlessLost(trace, h, Destination);
    SameCoordinates(LastRecording(trace, h).value, Kept(trace, h, Source), Kept(trace, h, Destination),
                    LastNote(trace, h, Source), LastNote(trace, h, Destination));
    if ops != [] && ops[|ops| - 1].NotarizeOp? {
      EndsWithPass(self, ops, h);
    }
  }

  // ---------- a run that loses coordinates ----------

  const CALM := Env({}, {}, {}, {})

  function NotarizedIntra(mb: Miniblock, n: Notification): Op {
    NotarizeOp([MetaBlock(n.metaNonce, [MiniblockHeader(mb.hash, mb.blockType, mb.sender, mb.receiver)], [])], [n.metaHash], CALM)
  }

  /** A miniblock is recorded, its key gives way to that of another one, and it is notarized. */
  function NotarizedRun(hdr: Header, mb: Miniblock, other: Miniblock, n: Notification): (ops: seq<Op>)
    ensures |ops| == 3 && WellFormedRun(ops)
  {
    [RecordOp(hdr, [mb], [], CALM),
     RecordOp(hdr, [other], [], CALM.(evicted := {DedupKey(Key(hdr.epoch, mb.hash))})),
     NotarizedIntra(mb, n)]
  }

  /** Then it is recorded again. */
  function EvictingRun(hdr: Header, mb: Miniblock, other: Miniblock, n: Notification): (ops: seq<Op>)
    ensures |ops| == 4 && WellFormedRun(ops)
  {
    NotarizedRun(hdr, mb, other, n) + [RecordOp(hdr, [mb], [], CALM)]
  }

  lemma {:induction false} RunJoined(self: uint32, ops: seq<Op>, op: Op)
    requires WellFormedRun(ops) && op.WellFormed()
    ensures Run(self, ops + [op]) == Apply(Run(self, ops), self, op)
  {
    assert (ops + [op])[..|ops|] == ops;
  }

  lemma {:induction false} RecordOne(st: State, self: uint32, hdr: Header, mb: Miniblock, env: Env)
    requires mb.blockType != PEER_BLOCK && Quiet(env)
    ensures Apply(st, self, RecordOp(hdr, [mb], [], env)) ==
            RecordMiniblock(st.(epochs := st.epochs[hdr.hash := hdr.epoch]), hdr, mb, env)
  {
    assert [mb][..0] == [] && NonPeer([mb][..0]) == [];
    assert NonPeer([mb]) == [mb] && Recorded([mb], []) == [mb];
    var st1 := st.(epochs := st.epochs[hdr.hash := hdr.epoch]);
    assert RecordAll(st1, hdr, [mb], env) == RecordMiniblock(RecordAll(st1, hdr, [mb][..0], env), hdr, mb, env);
  }

  lemma {:induction false} NotarizeOne(st: State, self: uint32, mb: Miniblock, n: Notification)
    requires mb.blockType != PEER_BLOCK && mb.sender == self && mb.receiver == self
    ensures Apply(st, self, NotarizedIntra(mb, n)) == Consume(Enqueue(st, Note(Both, mb.hash, n)), CALM)
  {
    var note := Note(Both, mb.hash, n);
    OneNotarized(self, mb, n);
    EnqueueSingle(st, note);
    var op := NotarizedIntra(mb, n);
    assert EnqueueAll(st, NotesOf(self, op.headers, op.hashes)) == Enqueue(st, note);
  }

  lemma {:induction false} EnqueueSingle(st: State, note: Note)
    ensures EnqueueAll(st, [note]) == Enqueue(st, note)
  {
    assert [note][..0] == [];
  }

  lemma {:induction false} OneNotarized(self: uint32, mb: Miniblock, n: Notification)
    requires mb.blockType != PEER_BLOCK && mb.sender == self && mb.receiver == self
    ensures var op := NotarizedIntra(mb, n);
            NotesOf(self, op.headers, op.hashes) == [Note(Both, mb.hash, n)]
  {
    var (op, note) := (NotarizedIntra(mb, n), Note(Both, mb.hash, n));
    OneHeaderOneNote(self, op.headers[0], n.metaHash, op.headers[0].miniblocks[0], note);
    assert op.headers[..0] == [];
    assert NotesOf(self, op.headers, op.hashes) == NotesOf(self, op.headers[..0], op.hashes) + [note];
  }

  lemma {:induction false} OneHeaderOneNote(self: uint32, header: NotarizedHeader, hash: Slice, m: MiniblockHeader, note: Note)
    requires header.MetaBlock? && header.miniblocks == [m] && header.shardInfo == []
    requires m.blockType != PEER_BLOCK && m.sender == self && m.receiver == self
    requires note == Note(Both, m.hash, Notification(header.nonce, hash))
    ensures NotesOfHeader(self, header, hash) == [note]
  {
    assert [m][..0] == [];
    assert NotesOfMiniblocks(self, note.notification, METACHAIN, [m]) == NotesOfMiniblocks(self, note.notification, METACHAIN, [m][..0]) + [note];
  }

  lemma {:induction false} ConsumeOneNote(st: State, h: Slice, n: Notification)
    requires HashView(st, h).record.Some? && st.source == map[] && st.destination == map[] && st.both == map[]
    ensures var st' := Consume(Enqueue(st, Note(Both, h, n)), CALM);
            && LookupByHash(st', h) == Some(Patch(LookupByHash(st, h).value, Both, n))
            && h !in st'.source && h !in st'.destination && h !in st'.both && st'.dedup == st.dedup
  {
    var st1 := Enqueue(st, Note(Both, h, n));
    EnqueueOnHashView(st, Note(Both, h, n), h);
    var st2 := ConsumePlace(st1, Source, CALM);
    var st3 := ConsumePlace(st2, Destination, CALM);
    ConsumePlaceOnHashView(st1, Source, CALM, h);
    ConsumePlaceOnHashView(st2, Destination, CALM, h);
    ConsumePlaceOnHashView(st3, Both, CALM, h);
    var v := HashView(ConsumePlace(st3, Both, CALM), h);
    assert v.record == Some(Patch(LookupByHash(st, h).value, Both, n));
    assert v.source.None? && v.destination.None? && v.both.None?;
  }

  /** Every such run takes the coordinates from a record that had them, and nothing waits to bring them back. */
  lemma {:induction false} EvictionLosesCoordinates(self: uint32, hdr: Header, mb: Miniblock, other: Miniblock, n: Notification)
    requires mb.blockType != PEER_BLOCK && mb.sender == self && mb.receiver == self && other.blockType != PEER_BLOCK
    requires other.hash != mb.hash && hdr.hash != mb.hash
    ensures LookupByHash(Run(self, NotarizedRun(hdr, mb, other, n)), mb.hash) == Some(Patch(FreshRecord(hdr, mb), Both, n))
    ensures var st := Run(self, EvictingRun(hdr, mb, other, n));
            && LookupByHash(st, mb.hash) == Some(FreshRecord(hdr, mb))
            && mb.hash !in st.source && mb.hash !in st.destination && mb.hash !in st.both
  {
    var ops := NotarizedRun(hdr, mb, other, n);
    BeforeNotarizing(self, hdr, mb, other, n);
    assert ops == ops[..2] + [ops[2]];
    RunJoined(self, ops[..2], ops[2]);
    var st2 := Run(self, ops[..2]);
    NotarizeOne(st2, self, mb, n);
    ConsumeOneNote(st2, mb.hash, n);
    RunJoined(self, ops, RecordOp(hdr, [mb], [], CALM));
    RecordedUncached(Run(self, ops), self, hdr, mb, CALM);
  }

  lemma {:induction false} RecordedUncached(st: State, self: uint32, hdr: Header, mb: Miniblock, env: Env)
    requires mb.blockType != PEER_BLOCK && Quiet(env) && DedupKey(Key(hdr.epoch, mb.hash)) !in st.dedup
    ensures var st' := Apply(st, self, RecordOp(hdr, [mb], [], env));
            && LookupByHash(st', mb.hash) == Some(FreshRecord(hdr, mb))
            && st'.dedup == st.dedup - env.evicted + {DedupKey(Key(hdr.epoch, mb.hash))}
            && st'.source == st.source && st'.destination == st.destination && st'.both == st.both
  {
    RecordOne(st, self, hdr, mb, env);
  }

  /** After the first two blocks the miniblock has its fresh record, and the other one has the cache. */
  lemma {:induction false} BeforeNotarizing(self: uint32, hdr: Header, mb: Miniblock, other: Miniblock, n: Notification)
    requires mb.blockType != PEER_BLOCK && other.blockType != PEER_BLOCK && other.hash != mb.hash && hdr.hash != mb.hash
    ensures var st := Run(self, NotarizedRun(hdr, mb, other, n)[..2]);
            && LookupByHash(st, mb.hash) == Some(FreshRecord(hdr, mb))
            && DedupKey(Key(hdr.epoch, mb.hash)) !in st.dedup
            && st.source == map[] && st.destination == map[] && st.both == map[]
  {
    var ops := NotarizedRun(hdr, mb, other, n);
    var (k, l) := (Key(hdr.epoch, mb.hash), Key(hdr.epoch, other.hash));
    if DedupKey(k) == DedupKey(l) {
      DedupKeyIsInjective(k, l);
    }
    assert ops[..0] == [] && ops[..1] == ops[..0] + [ops[0]] && ops[..2] == ops[..1] + [ops[1]];
    RunJoined(self, ops[..0], ops[0]);
    RecordedUncached(INITIAL, self, hdr, mb, CALM);
    var st := Run(self, ops[..1]);
    RunJoined(self, ops[..1], ops[1]);
    RecordedUncached(st, self, hdr, other, ops[1].env);
    RecordOne(st, self, hdr, other, ops[1].env);
    RecordMiniblockOnHashView(st.(epochs := st.epochs[hdr.hash := hdr.epoch]), hdr, other, ops[1].env, mb.hash);
  }
}
