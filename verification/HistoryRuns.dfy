/** Whole runs of the history repository: any sequence of recorded blocks and notarization notifications. */
module HistoryRuns {
  import opened Words
  import opened Schemas
  import opened History

  datatype Op =
    | RecordOp(hdr: Header, body: seq<Miniblock>, intraShard: seq<Miniblock>, env: Env)
    | NotarizeOp(headers: seq<NotarizedHeader>, hashes: seq<Slice>, env: Env)
  {
    /** Every notarized header comes with its hash. */
    predicate WellFormed() {
      NotarizeOp? ==> |headers| <= |hashes|
    }
  }

  function Apply(st: State, self: uint32, op: Op): State
    requires op.WellFormed()
  {
    match op
    case RecordOp(hdr, body, intraShard, env) => RecordBlock(st, hdr, body, intraShard, env)
    case NotarizeOp(headers, hashes, env) => OnNotarizedBlocks(st, self, headers, hashes, env)
  }

  ghost predicate WellFormedRun(ops: seq<Op>) {
    forall i :: 0 <= i < |ops| ==> ops[i].WellFormed()
  }

  function Run(self: uint32, ops: seq<Op>): State
    requires WellFormedRun(ops)
  {
    if ops == [] then INITIAL
    else Apply(Run(self, ops[..|ops| - 1]), self, ops[|ops| - 1])
  }

  // ---------- the event log ----------

  /** A recording, a notification, or a pass over the pending maps. */
  datatype Event = Recording(hdr: Header, mb: Miniblock) | Notified(note: Note) | Consumed

  function Recordings(hdr: Header, mbs: seq<Miniblock>): seq<Event> {
    seq(|mbs|, i requires 0 <= i < |mbs| => Recording(hdr, mbs[i]))
  }

  function Notifieds(notes: seq<Note>): seq<Event> {
    seq(|notes|, i requires 0 <= i < |notes| => Notified(notes[i]))
  }

  function EventsOf(self: uint32, op: Op): seq<Event>
    requires op.WellFormed()
  {
    match op
    case RecordOp(hdr, body, intraShard, _) => Recordings(hdr, Recorded(body, intraShard))
    case NotarizeOp(headers, hashes, _) => Notifieds(NotesOf(self, headers, hashes))
  }

  function Log(self: uint32, ops: seq<Op>): seq<Event>
    requires WellFormedRun(ops)
  {
    if ops == [] then []
    else Log(self, ops[..|ops| - 1]) + EventsOf(self, ops[|ops| - 1])
  }

  /** The first time the miniblock was recorded. */
  function FirstRecording(log: seq<Event>, h: Slice): Option<MiniblockMetadata> {
    if log == [] then None
    else
      var last := log[|log| - 1];
      var before := FirstRecording(log[..|log| - 1], h);
      if before.None? && last.Recording? && last.mb.hash == h then Some(FreshRecord(last.hdr, last.mb)) else before
  }

  /** A notification for both shards is one for each. */
  predicate Covers(place: Place, side: Place) {
    place == Both || place == side
  }

  predicate Matches(e: Event, h: Slice, side: Place) {
    e.Notified? && e.note.hash == h && Covers(e.note.place, side)
  }

  /** The last notification for the miniblock that matches the side. */
  function LastNote(log: seq<Event>, h: Slice, side: Place): Option<Notification> {
    if log == [] then None
    else
      var last := log[|log| - 1];
      if Matches(last, h, side) then Some(last.note.notification)
      else LastNote(log[..|log| - 1], h, side)
  }

  function PatchWith(md: MiniblockMetadata, side: Place, n: Option<Notification>): MiniblockMetadata {
    if n.None? then md else Patch(md, side, n.value)
  }

  /** The coordinates of a fresh record, which no metablock with a hash brings. */
  const NO_NOTIFICATION := Notification(0, [])

  /** The coordinates of a side are those of a fresh record. */
  predicate Blank(md: MiniblockMetadata, side: Place) {
    Patch(md, side, NO_NOTIFICATION) == md
  }

  /** What the log says the record must be. */
  function Expected(log: seq<Event>, h: Slice, first: MiniblockMetadata): MiniblockMetadata {
    PatchWith(PatchWith(first, Source, LastNote(log, h, Source)), Destination, LastNote(log, h, Destination))
  }

  // ---------- one miniblock's share of the state ----------

  datatype View = View(
    epoch: Option<uint32>,
    record: Option<MiniblockMetadata>,
    cached: bool,
    source: Option<Notification>,
    destination: Option<Notification>,
    both: Option<Notification>)
  {
    function Waiting(place: Place): Option<Notification> {
      match place
      case Source => source
      case Destination => destination
      case Both => both
    }

    function WithWaiting(place: Place, n: Option<Notification>): View {
      match place
      case Source => this.(source := n)
      case Destination => this.(destination := n)
      case Both => this.(both := n)
    }
  }

  function Find<K, V>(m: map<K, V>, k: K): Option<V> {
    if k in m then Some(m[k]) else None
  }

  function ViewOf(st: State, k: Key): View {
    View(Find(st.epochs, k.hash), Find(st.records, k), DedupKey(k) in st.dedup,
         Find(st.source, k.hash), Find(st.destination, k.hash), Find(st.both, k.hash))
  }

  function RecordView(v: View, k: Key, md: MiniblockMetadata): View {
    if v.cached then v else v.(epoch := Some(k.epoch), record := Some(md), cached := true)
  }

  function ConsumeView(v: View, k: Key, place: Place): View {
    if v.Waiting(place).None? || v.epoch != Some(k.epoch) || v.record.None? then v
    else v.(record := Some(Patch(v.record.value, place, v.Waiting(place).value))).WithWaiting(place, None)
  }

  predicate Quiet(env: Env) {
    env.epochPutFails == {} && env.recordPutFails == {}
  }

  lemma {:induction false} RecordMiniblockOnView(st: State, hdr: Header, mb: Miniblock, env: Env, k: Key)
    requires Quiet(env) && DedupKey(k) !in env.evicted && (mb.hash == k.hash ==> hdr.epoch == k.epoch)
    ensures ViewOf(RecordMiniblock(st, hdr, mb, env), k) ==
            if mb.hash == k.hash then RecordView(ViewOf(st, k), k, FreshRecord(hdr, mb)) else ViewOf(st, k)
  {
    if mb.hash != k.hash && DedupKey(Key(hdr.epoch, mb.hash)) == DedupKey(k) {
      DedupKeyIsInjective(Key(hdr.epoch, mb.hash), k);
    }
  }

  lemma FindUpdated<V>(m: map<Slice, V>, h: Slice, v: V, x: Slice)
    ensures Find(m[h := v], x) == if x == h then Some(v) else Find(m, x)
  {
  }

  lemma {:induction false} EnqueueOnView(st: State, note: Note, k: Key)
    ensures ViewOf(Enqueue(st, note), k) ==
            if note.hash == k.hash then ViewOf(st, k).WithWaiting(note.place, Some(note.notification)) else ViewOf(st, k)
  {
    FindUpdated(st.Pending(note.place), note.hash, note.notification, k.hash);
    match note.place
    case Source =>
    case Destination =>
    case Both =>
  }

  lemma {:induction false} ConsumePlaceOnView(st: State, place: Place, env: Env, k: Key)
    requires Quiet(env) && (k.hash in st.epochs ==> st.epochs[k.hash] == k.epoch)
    ensures ViewOf(ConsumePlace(st, place, env), k) == ConsumeView(ViewOf(st, k), k, place)
  {
    ConsumedRecord(st, place, env, k);
    ConsumedNotification(st, place, env, k);
    match place
    case Source =>
    case Destination =>
    case Both =>
  }

  lemma {:induction false} ConsumedRecord(st: State, place: Place, env: Env, k: Key)
    requires Quiet(env) && (k.hash in st.epochs ==> st.epochs[k.hash] == k.epoch)
    ensures Find(ConsumePlace(st, place, env).records, k) ==
            if k.hash in st.Pending(place) && st.Readable(k.hash) && k in st.records
            then Some(Patch(st.records[k], place, st.Pending(place)[k.hash])) else Find(st.records, k)
  {
    assert ConsumePlace(st, place, env).records == ConsumedRecords(st, place, st.Pending(place).Keys, env);
  }

  lemma {:induction false} ConsumedNotification(st: State, place: Place, env: Env, k: Key)
    requires Quiet(env)
    ensures Find(ConsumePlace(st, place, env).Pending(place), k.hash) ==
            if st.Readable(k.hash) then None else Find(st.Pending(place), k.hash)
  {
    assert ConsumePlace(st, place, env).Pending(place) == ConsumedPending(st, place, st.Pending(place).Keys, env);
  }

  // ---------- the invariant of one miniblock ----------

  /** What waits for a side. */
  function WaitingFor(v: View, side: Place): Option<Notification> {
    if v.Waiting(side).Some? then v.Waiting(side) else v.both
  }

  /** The notifications of one miniblock are all for both sides at once, or none is. */
  predicate OneFamily(v: View, bothSides: bool) {
    if bothSides then v.source.None? && v.destination.None? else v.both.None?
  }

  /** The record shows for each side the last matching notification, except where that one still waits. */
  ghost predicate Follows(v: View, log: seq<Event>, k: Key, bothSides: bool) {
    && OneFamily(v, bothSides)
    && match FirstRecording(log, k.hash)
       case None =>
         && v.epoch.None? && v.record.None? && !v.cached
         && WaitingFor(v, Source) == LastNote(log, k.hash, Source)
         && WaitingFor(v, Destination) == LastNote(log, k.hash, Destination)
       case Some(first) =>
         && v.epoch == Some(k.epoch) && v.record.Some? && v.cached
         && Settled(v.record.value, v) == Expected(log, k.hash, first)
  }

  /** The record once everything waiting for it has been consumed. */
  function Settled(md: MiniblockMetadata, v: View): MiniblockMetadata {
    PatchWith(PatchWith(md, Source, WaitingFor(v, Source)), Destination, WaitingFor(v, Destination))
  }

  lemma StartFollows(k: Key, bothSides: bool)
    ensures Follows(ViewOf(INITIAL, k), [], k, bothSides)
  {
  }

  lemma LogStep(log: seq<Event>, e: Event, h: Slice)
    ensures FirstRecording(log + [e], h) ==
            if FirstRecording(log, h).None? && e.Recording? && e.mb.hash == h then Some(FreshRecord(e.hdr, e.mb)) else FirstRecording(log, h)
    ensures forall side :: LastNote(log + [e], h, side) == (if Matches(e, h, side) then Some(e.note.notification) else LastNote(log, h, side))
  {
    assert (log + [e])[..|log|] == log;
  }

  lemma RecordingFollows(v: View, log: seq<Event>, hdr: Header, mb: Miniblock, k: Key, bothSides: bool)
    requires Follows(v, log, k, bothSides) && (mb.hash == k.hash ==> hdr.epoch == k.epoch)
    ensures Follows(if mb.hash == k.hash then RecordView(v, k, FreshRecord(hdr, mb)) else v,
                    log + [Recording(hdr, mb)], k, bothSides)
  {
    LogStep(log, Recording(hdr, mb), k.hash);
  }

  lemma NotifyingFollows(v: View, log: seq<Event>, note: Note, k: Key, bothSides: bool)
    requires Follows(v, log, k, bothSides) && (note.hash == k.hash ==> (note.place == Both <==> bothSides))
    ensures Follows(if note.hash == k.hash then v.WithWaiting(note.place, Some(note.notification)) else v,
                    log + [Notified(note)], k, bothSides)
  {
    LogStep(log, Notified(note), k.hash);
  }

  lemma {:induction false} ConsumingFollows(v: View, log: seq<Event>, place: Place, k: Key, bothSides: bool)
    requires Follows(v, log, k, bothSides)
    ensures Follows(ConsumeView(v, k, place), log, k, bothSides)
    ensures v.record.Some? ==> ConsumeView(v, k, place).Waiting(place).None?
    ensures forall other :: v.Waiting(other).None? ==> ConsumeView(v, k, place).Waiting(other).None?
  {
  }

  // ---------- the shape of a miniblock ----------

  /** What a miniblock hash fixes. */
  datatype Shape = Shape(sender: uint32, receiver: uint32, blockType: int32) {
    predicate BothSides() {
      sender == receiver || receiver == METACHAIN
    }
  }

  predicate MiniblockFits(mb: MiniblockHeader, shape: Slice -> Shape) {
    shape(mb.hash) == Shape(mb.sender, mb.receiver, mb.blockType)
  }

  predicate MiniblocksFit(mbs: seq<MiniblockHeader>, shape: Slice -> Shape) {
    forall i :: 0 <= i < |mbs| ==> MiniblockFits(mbs[i], shape)
  }

  predicate HeaderFits(header: NotarizedHeader, shape: Slice -> Shape) {
    header.MetaBlock? ==>
      && MiniblocksFit(header.miniblocks, shape)
      && forall i :: 0 <= i < |header.shardInfo| ==> MiniblocksFit(header.shardInfo[i].miniblocks, shape)
  }

  predicate OpFits(op: Op, shape: Slice -> Shape) {
    op.NotarizeOp? ==> forall i :: 0 <= i < |op.headers| ==> HeaderFits(op.headers[i], shape)
  }

  /** A place a notification for a miniblock of this shape may wait in, on a node of shard `self`. */
  predicate PlaceFits(self: uint32, place: Place, s: Shape) {
    && s.blockType != PEER_BLOCK
    && (s.sender == self || s.receiver == self)
    && (place == Both <==> s.BothSides())
  }

  predicate NotesFit(self: uint32, notes: seq<Note>, shape: Slice -> Shape) {
    forall i :: 0 <= i < |notes| ==> PlaceFits(self, notes[i].place, shape(notes[i].hash))
  }

  lemma {:induction false} MiniblockNotesFit(self: uint32, n: Notification, shard: uint32, mbs: seq<MiniblockHeader>, shape: Slice -> Shape)
    requires MiniblocksFit(mbs, shape)
    ensures NotesFit(self, NotesOfMiniblocks(self, n, shard, mbs), shape)
  {
    if mbs != [] {
      MiniblockNotesFit(self, n, shard, mbs[..|mbs| - 1], shape);
      assert MiniblockFits(mbs[|mbs| - 1], shape);
    }
  }

  lemma {:induction false} ShardNotesFit(self: uint32, n: Notification, shards: seq<ShardData>, shape: Slice -> Shape)
    requires forall i :: 0 <= i < |shards| ==> MiniblocksFit(shards[i].miniblocks, shape)
    ensures NotesFit(self, NotesOfShards(self, n, shards), shape)
  {
    if shards != [] {
      var last := shards[|shards| - 1];
      ShardNotesFit(self, n, shards[..|shards| - 1], shape);
      MiniblockNotesFit(self, n, last.shardID, last.miniblocks, shape);
    }
  }

  lemma {:induction false} HeaderNotesFit(self: uint32, headers: seq<NotarizedHeader>, hashes: seq<Slice>, shape: Slice -> Shape)
    requires |headers| <= |hashes| && forall i :: 0 <= i < |headers| ==> HeaderFits(headers[i], shape)
    ensures NotesFit(self, NotesOf(self, headers, hashes), shape)
  {
    if headers != [] {
      var k := |headers| - 1;
      HeaderNotesFit(self, headers[..k], hashes, shape);
      assert HeaderFits(headers[k], shape);
      OneHeaderNotesFit(self, headers[k], hashes[k], shape);
    }
  }

  lemma OneHeaderNotesFit(self: uint32, header: NotarizedHeader, hash: Slice, shape: Slice -> Shape)
    requires HeaderFits(header, shape)
    ensures NotesFit(self, NotesOfHeader(self, header, hash), shape)
  {
    if header.MetaBlock? {
      var n := Notification(header.nonce, hash);
      MiniblockNotesFit(self, n, METACHAIN, header.miniblocks, shape);
      ShardNotesFit(self, n, header.shardInfo, shape);
    }
  }

  // ---------- pending maps stay separate ----------

  ghost predicate AllFit(self: uint32, place: Place, pending: map<Slice, Notification>, shape: Slice -> Shape) {
    forall h :: h in pending ==> PlaceFits(self, place, shape(h))
  }

  ghost predicate PendingFits(self: uint32, st: State, shape: Slice -> Shape) {
    AllFit(self, Source, st.source, shape) && AllFit(self, Destination, st.destination, shape) && AllFit(self, Both, st.both, shape)
  }

  lemma {:induction false} EnqueuedFit(self: uint32, st: State, notes: seq<Note>, shape: Slice -> Shape)
    requires PendingFits(self, st, shape) && NotesFit(self, notes, shape)
    ensures PendingFits(self, EnqueueAll(st, notes), shape)
  {
    if notes != [] {
      var k := |notes| - 1;
      EnqueuedFit(self, st, notes[..k], shape);
      assert PlaceFits(self, notes[k].place, shape(notes[k].hash));
    }
  }

  lemma ConsumedFit(self: uint32, st: State, place: Place, env: Env, shape: Slice -> Shape)
    requires PendingFits(self, st, shape)
    ensures PendingFits(self, ConsumePlace(st, place, env), shape)
  {
  }

  lemma {:induction false} RecordAllKeepsPending(st: State, hdr: Header, mbs: seq<Miniblock>, env: Env)
    ensures var st' := RecordAll(st, hdr, mbs, env);
            st'.source == st.source && st'.destination == st.destination && st'.both == st.both
  {
    if mbs != [] {
      RecordAllKeepsPending(st, hdr, mbs[..|mbs| - 1], env);
    }
  }

  lemma {:induction false} RunPendingFits(self: uint32, ops: seq<Op>, shape: Slice -> Shape)
    requires WellFormedRun(ops) && forall i :: 0 <= i < |ops| ==> OpFits(ops[i], shape)
    ensures PendingFits(self, Run(self, ops), shape)
  {
    if ops != [] {
      var (st, op) := (Run(self, ops[..|ops| - 1]), ops[|ops| - 1]);
      RunPendingFits(self, ops[..|ops| - 1], shape);
      assert OpFits(op, shape);
      match op
      case RecordOp(hdr, body, intraShard, env) =>
        RecordAllKeepsPending(st.(epochs := st.epochs[hdr.hash := hdr.epoch]), hdr, Recorded(body, intraShard), env);
      case NotarizeOp(headers, hashes, env) =>
        HeaderNotesFit(self, headers, hashes, shape);
        var st1 := EnqueueAll(st, NotesOf(self, headers, hashes));
        EnqueuedFit(self, st, NotesOf(self, headers, hashes), shape);
        ConsumedFit(self, st1, Source, env, shape);
        ConsumedFit(self, ConsumePlace(st1, Source, env), Destination, env, shape);
        ConsumedFit(self, ConsumePlace(ConsumePlace(st1, Source, env), Destination, env), Both, env, shape);
    }
  }

  /**
   * If a miniblock hash fixes its sender, receiver and type, then after any run, whatever writes fail, no hash
   * waits for both sides and for one, and everything waiting is a non-peer miniblock from or to the own shard.
   */
  lemma PendingMapsAreSeparate(self: uint32, ops: seq<Op>, shape: Slice -> Shape, h: Slice)
    requires WellFormedRun(ops) && forall i :: 0 <= i < |ops| ==> OpFits(ops[i], shape)
    ensures var st := Run(self, ops);
            && (h in st.both ==> h !in st.source && h !in st.destination && shape(h).BothSides())
            && (h in st.source || h in st.destination ==> !shape(h).BothSides())
            && (h in st.source || h in st.destination || h in st.both ==>
                  shape(h).blockType != PEER_BLOCK && (shape(h).sender == self || shape(h).receiver == self))
  {
    RunPendingFits(self, ops, shape);
  }

  // ---------- the run refines the event log ----------

  /**
   * The surroundings leave miniblock `k.hash` alone: writes succeed, its deduplication key is not dropped, no block
   * header has its hash, and it is recorded in one epoch only.
   */
  ghost predicate Undisturbed(op: Op, k: Key) {
    && Quiet(op.env)
    && (op.RecordOp? ==>
          && DedupKey(k) !in op.env.evicted
          && op.hdr.hash != k.hash
          && OneEpoch(op.hdr, Recorded(op.body, op.intraShard), k))
  }

  predicate OneEpoch(hdr: Header, mbs: seq<Miniblock>, k: Key) {
    forall i :: 0 <= i < |mbs| && mbs[i].hash == k.hash ==> hdr.epoch == k.epoch
  }

  lemma {:induction false} RecordAllFollows(st: State, log: seq<Event>, hdr: Header, mbs: seq<Miniblock>, env: Env, k: Key, bothSides: bool)
    requires Follows(ViewOf(st, k), log, k, bothSides)
    requires Quiet(env) && DedupKey(k) !in env.evicted && OneEpoch(hdr, mbs, k)
    ensures Follows(ViewOf(RecordAll(st, hdr, mbs, env), k), log + Recordings(hdr, mbs), k, bothSides)
  {
    if mbs == [] {
      assert log + Recordings(hdr, mbs) == log;
    } else {
      var (init, last) := (mbs[..|mbs| - 1], mbs[|mbs| - 1]);
      RecordAllFollows(st, log, hdr, init, env, k, bothSides);
      var st' := RecordAll(st, hdr, init, env);
      RecordMiniblockOnView(st', hdr, last, env, k);
      RecordingFollows(ViewOf(st', k), log + Recordings(hdr, init), hdr, last, k, bothSides);
      assert log + Recordings(hdr, mbs) == log + Recordings(hdr, init) + [Recording(hdr, last)];
    }
  }

  lemma {:induction false} EnqueueAllFollows(st: State, log: seq<Event>, notes: seq<Note>, self: uint32, k: Key, shape: Slice -> Shape)
    requires Follows(ViewOf(st, k), log, k, shape(k.hash).BothSides()) && NotesFit(self, notes, shape)
    ensures Follows(ViewOf(EnqueueAll(st, notes), k), log + Notifieds(notes), k, shape(k.hash).BothSides())
  {
    if notes == [] {
      assert log + Notifieds(notes) == log;
    } else {
      var (init, last) := (notes[..|notes| - 1], notes[|notes| - 1]);
      EnqueueAllFollows(st, log, init, self, k, shape);
      assert PlaceFits(self, last.place, shape(last.hash));
      EnqueueOnView(EnqueueAll(st, init), last, k);
      NotifyingFollows(ViewOf(EnqueueAll(st, init), k), log + Notifieds(init), last, k, shape(k.hash).BothSides());
      assert log + Notifieds(notes) == log + Notifieds(init) + [Notified(last)];
    }
  }

  lemma {:induction false} ConsumePlaceFollows(st: State, log: seq<Event>, place: Place, env: Env, k: Key, bothSides: bool)
    requires Follows(ViewOf(st, k), log, k, bothSides) && Quiet(env)
    ensures var v, v' := ViewOf(st, k), ViewOf(ConsumePlace(st, place, env), k);
            && Follows(v', log, k, bothSides)
            && (v.record.Some? ==> v'.Waiting(place).None?)
            && (v.record.Some? <==> v'.record.Some?)
            && forall other :: v.Waiting(other).None? ==> v'.Waiting(other).None?
  {
    ConsumePlaceOnView(st, place, env, k);
    ConsumingFollows(ViewOf(st, k), log, place, k, bothSides);
  }

  /** Nothing waits for a recorded miniblock. */
  predicate Served(v: View) {
    v.record.Some? ==> v.source.None? && v.destination.None? && v.both.None?
  }

  lemma {:induction false} ConsumeFollows(st: State, log: seq<Event>, env: Env, k: Key, bothSides: bool)
    requires Follows(ViewOf(st, k), log, k, bothSides) && Quiet(env)
    ensures Follows(ViewOf(Consume(st, env), k), log, k, bothSides)
    ensures Served(ViewOf(Consume(st, env), k))
  {
    ConsumePlaceFollows(st, log, Source, env, k, bothSides);
    var st1 := ConsumePlace(st, Source, env);
    ConsumePlaceFollows(st1, log, Destination, env, k, bothSides);
    var st2 := ConsumePlace(st1, Destination, env);
    ConsumePlaceFollows(st2, log, Both, env, k, bothSides);
    var v, v1, v2, v3 := ViewOf(st, k), ViewOf(st1, k), ViewOf(st2, k), ViewOf(Consume(st, env), k);
    assert v1.record.Some? ==> v1.Waiting(Source).None? && v2.Waiting(Source).None? && v3.Waiting(Source).None?;
    assert v2.record.Some? ==> v2.Waiting(Destination).None? && v3.Waiting(Destination).None?;
    assert v3.record.Some? ==> v3.Waiting(Both).None?;
  }

  lemma {:induction false} RunFollows(self: uint32, ops: seq<Op>, k: Key, shape: Slice -> Shape)
    requires WellFormedRun(ops) && forall i :: 0 <= i < |ops| ==> OpFits(ops[i], shape) && Undisturbed(ops[i], k)
    ensures Follows(ViewOf(Run(self, ops), k), Log(self, ops), k, shape(k.hash).BothSides())
    ensures ops != [] && ops[|ops| - 1].NotarizeOp? ==> Served(ViewOf(Run(self, ops), k))
  {
    var bothSides := shape(k.hash).BothSides();
    if ops == [] {
      StartFollows(k, bothSides);
    } else {
      var (init, op) := (ops[..|ops| - 1], ops[|ops| - 1]);
      RunFollows(self, init, k, shape);
      var (st, log) := (Run(self, init), Log(self, init));
      assert OpFits(op, shape) && Undisturbed(op, k);
      match op
      case RecordOp(hdr, body, intraShard, env) =>
        var st1 := st.(epochs := st.epochs[hdr.hash := hdr.epoch]);
        assert ViewOf(st1, k) == ViewOf(st, k);
        RecordAllFollows(st1, log, hdr, Recorded(body, intraShard), env, k, bothSides);
      case NotarizeOp(headers, hashes, env) =>
        var notes := NotesOf(self, headers, hashes);
        HeaderNotesFit(self, headers, hashes, shape);
        EnqueueAllFollows(st, log, notes, self, k, shape);
        ConsumeFollows(EnqueueAll(st, notes), log + Notifieds(notes), env, k, bothSides);
    }
  }

  /**
   * After every `OnNotarizedBlocks` a recorded miniblock's record is what the event log says: as first recorded, with
   * the coordinates of the last matching notification on each side, whichever came first; and a miniblock that has
   * not been recorded has no record, while its last notifications wait.
   */
  lemma {:induction false} RunRefinesLog(self: uint32, ops: seq<Op>, k: Key, shape: Slice -> Shape)
    requires WellFormedRun(ops) && ops != [] && ops[|ops| - 1].NotarizeOp?
    requires forall i :: 0 <= i < |ops| ==> OpFits(ops[i], shape) && Undisturbed(ops[i], k)
    ensures var (st, log) := (Run(self, ops), Log(self, ops));
            match FirstRecording(log, k.hash)
            case Some(first) =>
              && LookupByHash(st, k.hash) == Some(Expected(log, k.hash, first))
              && k.hash !in st.source && k.hash !in st.destination && k.hash !in st.both
            case None =>
              && LookupByHash(st, k.hash) == None
              && WaitingFor(ViewOf(st, k), Source) == LastNote(log, k.hash, Source)
              && WaitingFor(ViewOf(st, k), Destination) == LastNote(log, k.hash, Destination)
  {
    RunFollows(self, ops, k, shape);
  }
}
