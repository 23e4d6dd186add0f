/**
 * What recording and notarizing do, field by field and miniblock by miniblock: what a lookup shows of the miniblock and
 * the header it was recorded with, and of the metablocks that notarized it.
 */
module HistoryFields {
  import opened Words
  import opened Schemas
  import opened History
  import opened HistoryRuns
  import opened HistoryEvictions
  import opened HistoryIndexes

  // ---------- recording ----------

  /** The record is about this miniblock, as recorded with this header. */
  predicate Describes(md: MiniblockMetadata, hdr: Header, mb: Miniblock) {
    && md.sourceShardID == mb.sender
    && md.destinationShardID == mb.receiver
    && md.blockType == mb.blockType
    && md.miniblockHash == mb.hash
    && md.round == hdr.round
    && md.headerNonce == hdr.nonce
    && md.headerHash == hdr.hash
    && md.epoch == hdr.epoch
    && md.deprecatedStatus == []
  }

  predicate NotNotarized(md: MiniblockMetadata) {
    && md.notarizedAtSourceInMetaNonce == 0 && md.notarizedAtSourceInMetaHash == []
    && md.notarizedAtDestinationInMetaNonce == 0 && md.notarizedAtDestinationInMetaHash == []
  }

  lemma {:induction false} FreshDescribes(hdr: Header, mb: Miniblock)
    ensures Describes(FreshRecord(hdr, mb), hdr, mb) && NotNotarized(FreshRecord(hdr, mb))
  {
  }

  /**
   * A recorded miniblock is found by its hash and by each of its transactions that the index accepts, as it is and not
   * notarized; its key is cached; every other miniblock and transaction is found as before.
   */
  lemma {:induction false} RecordedIsFound(st: State, hdr: Header, mb: Miniblock, env: Env)
    requires DedupKey(Key(hdr.epoch, mb.hash)) !in st.dedup
    requires mb.hash !in env.epochPutFails && mb.hash !in env.recordPutFails
    ensures var st' := RecordMiniblock(st, hdr, mb, env);
            var found := LookupByHash(st', mb.hash);
            && found.Some? && Describes(found.value, hdr, mb) && NotNotarized(found.value)
            && DedupKey(Key(hdr.epoch, mb.hash)) in st'.dedup
            && (forall i :: 0 <= i < |mb.txHashes| && mb.txHashes[i] !in env.txPutFails ==> LookupByTx(st', mb.txHashes[i]) == found)
            && (forall h :: h != mb.hash ==> LookupByHash(st', h) == LookupByHash(st, h))
            && (forall tx :: tx !in mb.txHashes ==> Find(st'.txs, tx) == Find(st.txs, tx))
  {
    FreshDescribes(hdr, mb);
    IndexedExactly(st.txs, mb.txHashes, mb.hash, env.txPutFails);
  }

  /** A cached key, or an epoch that cannot be saved, changes nothing; a record that cannot be put leaves its epoch behind. */
  lemma {:induction false} UnrecordedIsAsBefore(st: State, hdr: Header, mb: Miniblock, env: Env)
    ensures var st' := RecordMiniblock(st, hdr, mb, env);
            && (DedupKey(Key(hdr.epoch, mb.hash)) in st.dedup || mb.hash in env.epochPutFails ==> st' == st)
            && (DedupKey(Key(hdr.epoch, mb.hash)) !in st.dedup && mb.hash !in env.epochPutFails && mb.hash in env.recordPutFails ==>
                  st' == st.(epochs := st.epochs[mb.hash := hdr.epoch]))
  {
  }

  lemma {:induction false} IndexedExactly(txs: map<Slice, Slice>, txHashes: seq<Slice>, h: Slice, fails: set<Slice>)
    ensures var txs' := IndexTxs(txs, txHashes, h, fails);
            && (forall i :: 0 <= i < |txHashes| && txHashes[i] !in fails ==> Find(txs', txHashes[i]) == Some(h))
            && (forall tx :: tx !in txHashes || tx in fails ==> Find(txs', tx) == Find(txs, tx))
  {
    if txHashes != [] {
      IndexedExactly(txs, txHashes[..|txHashes| - 1], h, fails);
    }
  }

  // ---------- blocks ----------

  /** The miniblock is created intra-shard, or in the body and not a peer miniblock. */
  predicate Commits(body: seq<Miniblock>, intraShard: seq<Miniblock>, mb: Miniblock) {
    mb in intraShard || (mb in body && mb.blockType != PEER_BLOCK)
  }

  lemma {:induction false} NonPeerMembers(body: seq<Miniblock>, mb: Miniblock)
    ensures mb in NonPeer(body) <==> mb in body && mb.blockType != PEER_BLOCK
  {
    if body != [] {
      NonPeerMembers(body[..|body| - 1], mb);
    }
  }

  lemma {:induction false} RecordedMembers(body: seq<Miniblock>, intraShard: seq<Miniblock>, mb: Miniblock)
    ensures mb in Recorded(body, intraShard) <==> Commits(body, intraShard, mb)
  {
    NonPeerMembers(body, mb);
  }

  ghost predicate FoundAmong(st: State, hdr: Header, mbs: seq<Miniblock>, h: Slice) {
    exists mb :: mb in mbs && mb.hash == h && LookupByHash(st, h).Some?
      && Describes(LookupByHash(st, h).value, hdr, mb) && NotNotarized(LookupByHash(st, h).value)
  }

  predicate Mentions(mbs: seq<Miniblock>, h: Slice) {
    exists i :: 0 <= i < |mbs| && mbs[i].hash == h
  }

  /** Of a list of miniblocks, those with an uncached key are found afterwards, and the others are as before. */
  lemma {:induction false} RecordAllFinds(st: State, hdr: Header, mbs: seq<Miniblock>, env: Env, h: Slice)
    requires Quiet(env) && DedupKey(Key(hdr.epoch, h)) !in st.dedup
    ensures var st' := RecordAll(st, hdr, mbs, env);
            if Mentions(mbs, h) then FoundAmong(st', hdr, mbs, h)
            else LookupByHash(st', h) == LookupByHash(st, h) && DedupKey(Key(hdr.epoch, h)) !in st'.dedup
  {
    if mbs != [] {
      var (init, last) := (mbs[..|mbs| - 1], mbs[|mbs| - 1]);
      var st1 := RecordAll(st, hdr, init, env);
      RecordAllFinds(st, hdr, init, env, h);
      if last.hash == h {
        assert Mentions(mbs, h);
        if DedupKey(Key(hdr.epoch, h)) in st1.dedup {
          assert Mentions(init, h);
          StillAmong(st1, hdr, init, mbs, h);
        } else {
          RecordedIsFound(st1, hdr, last, env);
          assert last in mbs;
        }
      } else {
        OtherIsRecorded(st1, hdr, last, env, h);
        if Mentions(init, h) {
          assert Mentions(mbs, h);
          StillAmong(RecordAll(st, hdr, mbs, env), hdr, init, mbs, h);
        } else {
          assert !Mentions(mbs, h);
        }
      }
    }
  }

  lemma {:induction false} StillAmong(st: State, hdr: Header, init: seq<Miniblock>, mbs: seq<Miniblock>, h: Slice)
    requires FoundAmong(st, hdr, init, h) && init <= mbs
    ensures FoundAmong(st, hdr, mbs, h)
  {
    var mb :| mb in init && mb.hash == h && Describes(LookupByHash(st, h).value, hdr, mb);
    assert mb in mbs;
  }

  lemma {:induction false} OtherIsRecorded(st: State, hdr: Header, mb: Miniblock, env: Env, h: Slice)
    requires Quiet(env) && mb.hash != h
    ensures var st' := RecordMiniblock(st, hdr, mb, env);
            && LookupByHash(st', h) == LookupByHash(st, h)
            && (DedupKey(Key(hdr.epoch, h)) in st'.dedup ==> DedupKey(Key(hdr.epoch, h)) in st.dedup)
  {
    if DedupKey(Key(hdr.epoch, h)) == DedupKey(Key(hdr.epoch, mb.hash)) {
      DedupKeyIsInjective(Key(hdr.epoch, h), Key(hdr.epoch, mb.hash));
    }
  }

  /**
   * After a block is recorded, by stores that accept writes, every miniblock of it that is committed and not cached is
   * found, described by this header and a miniblock of this block; and nothing else is recorded.
   */
  lemma {:induction false} BlockIsFound(st: State, hdr: Header, body: seq<Miniblock>, intraShard: seq<Miniblock>, env: Env, h: Slice)
    requires Quiet(env) && hdr.hash != h && DedupKey(Key(hdr.epoch, h)) !in st.dedup
    ensures var found := LookupByHash(RecordBlock(st, hdr, body, intraShard, env), h);
            if exists mb :: Commits(body, intraShard, mb) && mb.hash == h
            then found.Some? && NotNotarized(found.value)
                 && exists mb :: Commits(body, intraShard, mb) && mb.hash == h && Describes(found.value, hdr, mb)
            else found == LookupByHash(st, h)
  {
    var mbs := Recorded(body, intraShard);
    var st1 := st.(epochs := st.epochs[hdr.hash := hdr.epoch]);
    assert LookupByHash(st1, h) == LookupByHash(st, h);
    RecordAllFinds(st1, hdr, mbs, env, h);
    forall mb
      ensures mb in mbs <==> Commits(body, intraShard, mb)
    {
      RecordedMembers(body, intraShard, mb);
    }
    if exists mb :: Commits(body, intraShard, mb) && mb.hash == h {
      var mb :| Commits(body, intraShard, mb) && mb.hash == h;
      assert mb in mbs;
      assert Mentions(mbs, h);
      var mb' :| mb' in mbs && mb'.hash == h && Describes(LookupByHash(RecordAll(st1, hdr, mbs, env), h).value, hdr, mb');
      assert Commits(body, intraShard, mb');
    }
  }

  lemma {:induction false} EpochStays(st: State, hdr: Header, mbs: seq<Miniblock>, env: Env)
    ensures Find(st.epochs, hdr.hash) == Some(hdr.epoch) ==> Find(RecordAll(st, hdr, mbs, env).epochs, hdr.hash) == Some(hdr.epoch)
  {
    if mbs != [] {
      var k := |mbs| - 1;
      EpochStays(st, hdr, mbs[..k], env);
      OneEpochStays(RecordAll(st, hdr, mbs[..k], env), hdr, mbs[k], env);
    }
  }

  lemma {:induction false} OneEpochStays(st: State, hdr: Header, mb: Miniblock, env: Env)
    ensures Find(st.epochs, hdr.hash) == Some(hdr.epoch) ==> Find(RecordMiniblock(st, hdr, mb, env).epochs, hdr.hash) == Some(hdr.epoch)
  {
  }

  /** The epoch of a recorded block is found by its hash, whatever writes of miniblocks fail. */
  lemma {:induction false} BlockEpochIsFound(st: State, hdr: Header, body: seq<Miniblock>, intraShard: seq<Miniblock>, env: Env)
    requires hdr.hash !in env.epochPutFails
    ensures Find(RecordBlock(st, hdr, body, intraShard, env).epochs, hdr.hash) == Some(hdr.epoch)
  {
    EpochStays(st.(epochs := st.epochs[hdr.hash := hdr.epoch]), hdr, Recorded(body, intraShard), env);
  }

  lemma {:induction false} RecordedStaysReadable(st: State, hdr: Header, mb: Miniblock, env: Env, headers: set<Slice>)
    requires IndexAgrees(st, headers) && Quiet(env)
    ensures var st' := RecordMiniblock(st, hdr, mb, env);
            st'.Readable(mb.hash) && forall h :: st.Readable(h) ==> st'.Readable(h)
  {
    if DedupKey(Key(hdr.epoch, mb.hash)) in st.dedup {
      assert Key(hdr.epoch, mb.hash) in st.records;
    } else {
      RecordingKeepsReadability(st, hdr, mb, env);
    }
  }

  lemma {:induction false} AllAreReadable(st: State, hdr: Header, mbs: seq<Miniblock>, env: Env, headers: set<Slice>)
    requires IndexAgrees(st, headers) && Quiet(env) && forall i :: 0 <= i < |mbs| ==> mbs[i].hash !in headers
    ensures forall i :: 0 <= i < |mbs| ==> RecordAll(st, hdr, mbs, env).Readable(mbs[i].hash)
  {
    if mbs != [] {
      var k := |mbs| - 1;
      AllAreReadable(st, hdr, mbs[..k], env, headers);
      RecordAllKeepsIndexes(st, hdr, mbs[..k], env, headers);
      RecordedStaysReadable(RecordAll(st, hdr, mbs[..k], env), hdr, mbs[k], env, headers);
    }
  }

  /** In every run, each miniblock that the last block commits is found, cached before or not. */
  lemma {:induction false} CommittedIsFound(self: uint32, ops: seq<Op>, headers: set<Slice>, mb: Miniblock)
    requires WellFormedRun(ops) && forall i :: 0 <= i < |ops| ==> Orderly(ops[i], headers)
    requires ops != [] && ops[|ops| - 1].RecordOp? && Commits(ops[|ops| - 1].body, ops[|ops| - 1].intraShard, mb)
    ensures var found := LookupByHash(Run(self, ops), mb.hash);
            found.Some? && found.value.miniblockHash == mb.hash
  {
    var (init, op) := (ops[..|ops| - 1], ops[|ops| - 1]);
    assert Orderly(op, headers);
    RunKeepsIndexes(self, init, headers);
    RunKeepsIndexes(self, ops, headers);
    var st := Run(self, init);
    HeaderKeepsIndexes(st, op.hdr, headers);
    var mbs := Recorded(op.body, op.intraShard);
    RecordedMembers(op.body, op.intraShard, mb);
    AllAreReadable(st.(epochs := st.epochs[op.hdr.hash := op.hdr.epoch]), op.hdr, mbs, op.env, headers);
    var st' := Run(self, ops);
    assert st'.Readable(mb.hash);
    assert AgreesWith(st'.records[Key(st'.epochs[mb.hash], mb.hash)], Key(st'.epochs[mb.hash], mb.hash));
  }

  // ---------- notarizing ----------

  /**
   * A miniblock header in a block of `shard` bears on a side of the miniblock `h`: it is no peer miniblock and is from or
   * to the node's shard, and either it stays in its shard or goes to the metachain, or the block is of the side's shard.
   */
  predicate Bears(self: uint32, shard: uint32, mb: MiniblockHeader, h: Slice, side: Place) {
    && mb.hash == h && mb.blockType != PEER_BLOCK && (mb.sender == self || mb.receiver == self)
    && (mb.sender == mb.receiver || mb.receiver == METACHAIN || (if side == Source then mb.sender == shard else mb.receiver == shard))
  }

  predicate SomeBears(self: uint32, shard: uint32, mbs: seq<MiniblockHeader>, h: Slice, side: Place) {
    exists i :: 0 <= i < |mbs| && Bears(self, shard, mbs[i], h, side)
  }

  predicate SomeShardBears(self: uint32, shards: seq<ShardData>, h: Slice, side: Place) {
    exists i :: 0 <= i < |shards| && SomeBears(self, shards[i].shardID, shards[i].miniblocks, h, side)
  }

  /** A metablock bears on a side by its own miniblocks, and but for the genesis one by those of the shard blocks in it. */
  predicate Notarizes(self: uint32, header: NotarizedHeader, h: Slice, side: Place) {
    header.MetaBlock? &&
    (|| SomeBears(self, METACHAIN, header.miniblocks, h, side)
     || (header.nonce >= 1 && SomeShardBears(self, header.shardInfo, h, side)))
  }

  function NoteIf(b: bool, n: Notification): Option<Notification> {
    if b then Some(n) else None
  }

  lemma {:induction false} JoinedNotes(a: seq<Note>, b: seq<Note>, h: Slice, side: Place)
    ensures LastNote(Notifieds(a + b), h, side) ==
            if LastNote(Notifieds(b), h, side).Some? then LastNote(Notifieds(b), h, side) else LastNote(Notifieds(a), h, side)
  {
    assert Notifieds(a + b) == Notifieds(a) + Notifieds(b);
    LastNoteOfJoined(Notifieds(a), Notifieds(b), h, side);
  }

  lemma {:induction false} NoteOfOne(self: uint32, n: Notification, shard: uint32, mb: MiniblockHeader, h: Slice, side: Place)
    requires side != Both
    ensures LastNote(Notifieds(NoteOf(self, n, shard, mb)), h, side) == NoteIf(Bears(self, shard, mb, h, side), n)
  {
    var notes := NoteOf(self, n, shard, mb);
    if notes != [] {
      assert Notifieds(notes) == [Notified(notes[0])] && [Notified(notes[0])][..0] == [];
    }
  }

  lemma {:induction false} NotesOfList(self: uint32, n: Notification, shard: uint32, mbs: seq<MiniblockHeader>, h: Slice, side: Place)
    requires side != Both
    ensures LastNote(Notifieds(NotesOfMiniblocks(self, n, shard, mbs)), h, side) == NoteIf(SomeBears(self, shard, mbs, h, side), n)
  {
    if mbs != [] {
      var (init, last) := (mbs[..|mbs| - 1], mbs[|mbs| - 1]);
      NotesOfList(self, n, shard, init, h, side);
      NoteOfOne(self, n, shard, last, h, side);
      JoinedNotes(NotesOfMiniblocks(self, n, shard, init), NoteOf(self, n, shard, last), h, side);
      SomeOfLonger(self, shard, mbs, h, side);
    }
  }

  lemma {:induction false} SomeOfLonger(self: uint32, shard: uint32, mbs: seq<MiniblockHeader>, h: Slice, side: Place)
    requires mbs != []
    ensures SomeBears(self, shard, mbs, h, side) <==>
            SomeBears(self, shard, mbs[..|mbs| - 1], h, side) || Bears(self, shard, mbs[|mbs| - 1], h, side)
  {
    if SomeBears(self, shard, mbs[..|mbs| - 1], h, side) {
      var i :| 0 <= i < |mbs| - 1 && Bears(self, shard, mbs[..|mbs| - 1][i], h, side);
      assert Bears(self, shard, mbs[i], h, side);
    }
    if SomeBears(self, shard, mbs, h, side) {
      var i :| 0 <= i < |mbs| && Bears(self, shard, mbs[i], h, side);
      if i < |mbs| - 1 {
        assert Bears(self, shard, mbs[..|mbs| - 1][i], h, side);
      }
    }
  }

  lemma {:induction false} NotesOfShardList(self: uint32, n: Notification, shards: seq<ShardData>, h: Slice, side: Place)
    requires side != Both
    ensures LastNote(Notifieds(NotesOfShards(self, n, shards)), h, side) == NoteIf(n.metaNonce >= 1 && SomeShardBears(self, shards, h, side), n)
  {
    if shards != [] {
      var (init, last) := (shards[..|shards| - 1], shards[|shards| - 1]);
      NotesOfShardList(self, n, init, h, side);
      var notes := if n.metaNonce < 1 then [] else NotesOfMiniblocks(self, n, last.shardID, last.miniblocks);
      JoinedNotes(NotesOfShards(self, n, init), notes, h, side);
      NotesOfList(self, n, last.shardID, last.miniblocks, h, side);
      SomeShardOfLonger(self, shards, h, side);
    }
  }

  lemma {:induction false} SomeShardOfLonger(self: uint32, shards: seq<ShardData>, h: Slice, side: Place)
    requires shards != []
    ensures var (init, last) := (shards[..|shards| - 1], shards[|shards| - 1]);
            SomeShardBears(self, shards, h, side) <==>
            SomeShardBears(self, init, h, side) || SomeBears(self, last.shardID, last.miniblocks, h, side)
  {
    var init := shards[..|shards| - 1];
    if SomeShardBears(self, init, h, side) {
      var i :| 0 <= i < |init| && SomeBears(self, init[i].shardID, init[i].miniblocks, h, side);
      assert SomeBears(self, shards[i].shardID, shards[i].miniblocks, h, side);
    }
    if SomeShardBears(self, shards, h, side) {
      var i :| 0 <= i < |shards| && SomeBears(self, shards[i].shardID, shards[i].miniblocks, h, side);
      if i < |shards| - 1 {
        assert SomeBears(self, init[i].shardID, init[i].miniblocks, h, side);
      }
    }
  }

  /** The last notification a header gives a side is its own coordinates if it notarizes the miniblock there, and none else. */
  lemma {:induction false} NotesOfOneHeader(self: uint32, header: NotarizedHeader, hash: Slice, h: Slice, side: Place)
    requires side != Both
    ensures LastNote(Notifieds(NotesOfHeader(self, header, hash)), h, side) ==
            if Notarizes(self, header, h, side) then Some(Notification(header.nonce, hash)) else None
  {
    if header.MetaBlock? {
      var n := Notification(header.nonce, hash);
      NotesOfList(self, n, METACHAIN, header.miniblocks, h, side);
      NotesOfShardList(self, n, header.shardInfo, h, side);
      JoinedNotes(NotesOfMiniblocks(self, n, METACHAIN, header.miniblocks), NotesOfShards(self, n, header.shardInfo), h, side);
    }
  }

  /** The coordinates of the last of the metablocks that notarizes the miniblock on the side. */
  function LastNotarizing(self: uint32, headers: seq<NotarizedHeader>, hashes: seq<Slice>, h: Slice, side: Place): Option<Notification>
    requires |headers| <= |hashes|
  {
    if headers == [] then None
    else
      var k := |headers| - 1;
      if Notarizes(self, headers[k], h, side) then Some(Notification(headers[k].nonce, hashes[k]))
      else LastNotarizing(self, headers[..k], hashes, h, side)
  }

  lemma {:induction false} NotesAreNotarizings(self: uint32, headers: seq<NotarizedHeader>, hashes: seq<Slice>, h: Slice, side: Place)
    requires side != Both && |headers| <= |hashes|
    ensures LastNote(Notifieds(NotesOf(self, headers, hashes)), h, side) == LastNotarizing(self, headers, hashes, h, side)
  {
    if headers != [] {
      var k := |headers| - 1;
      NotesAreNotarizings(self, headers[..k], hashes, h, side);
      NotesOfOneHeader(self, headers[k], hashes[k], h, side);
      JoinedNotes(NotesOf(self, headers[..k], hashes), NotesOfHeader(self, headers[k], hashes[k]), h, side);
    }
  }

  // ---------- what a call of OnNotarizedBlocks does to a record ----------

  /** The coordinates of a side in the record are these. */
  predicate SideIs(md: MiniblockMetadata, side: Place, nonce: uint64, hash: bytes) {
    if side == Source then md.notarizedAtSourceInMetaNonce == nonce && md.notarizedAtSourceInMetaHash == hash
    else md.notarizedAtDestinationInMetaNonce == nonce && md.notarizedAtDestinationInMetaHash == hash
  }

  /** Nothing but the coordinates is different. */
  predicate SameButCoordinates(md: MiniblockMetadata, md': MiniblockMetadata) {
    && md.sourceShardID == md'.sourceShardID && md.destinationShardID == md'.destinationShardID
    && md.round == md'.round && md.headerNonce == md'.headerNonce && md.headerHash == md'.headerHash
    && md.miniblockHash == md'.miniblockHash && md.deprecatedStatus == md'.deprecatedStatus
    && md.epoch == md'.epoch && md.blockType == md'.blockType
  }

  /** What waits for the miniblock is the one notification, and it waits for the sides it is for. */
  ghost predicate WaitsFor(v: View, notes: seq<Note>, h: Slice, n: Notification) {
    && (v.source.Some? ==> v.source.value == n) && (v.destination.Some? ==> v.destination.value == n) && (v.both.Some? ==> v.both.value == n)
    && (v.source.Some? || v.both.Some? <==> LastNote(Notifieds(notes), h, Source).Some?)
    && (v.destination.Some? || v.both.Some? <==> LastNote(Notifieds(notes), h, Destination).Some?)
  }

  lemma {:induction false} EnqueuedWaits(st: State, notes: seq<Note>, h: Slice, n: Notification)
    requires h !in st.source && h !in st.destination && h !in st.both
    requires forall i :: 0 <= i < |notes| ==> notes[i].notification == n
    ensures WaitsFor(HashView(EnqueueAll(st, notes), h), notes, h, n)
    ensures LookupByHash(EnqueueAll(st, notes), h) == LookupByHash(st, h)
  {
    EnqueueAllKeepsStores(st, notes);
    if notes != [] {
      var (init, note) := (notes[..|notes| - 1], notes[|notes| - 1]);
      EnqueuedWaits(st, init, h, n);
      EnqueueOnHashView(EnqueueAll(st, init), note, h);
      assert Notifieds(notes) == Notifieds(init) + [Notified(note)];
      OneMoreWaits(HashView(EnqueueAll(st, init), h), HashView(EnqueueAll(st, notes), h), init, notes, note, h, n);
    }
  }

  lemma {:induction false} OneMoreWaits(v: View, v': View, init: seq<Note>, notes: seq<Note>, note: Note, h: Slice, n: Notification)
    requires WaitsFor(v, init, h, n) && note.notification == n && Notifieds(notes) == Notifieds(init) + [Notified(note)]
    requires v' == if note.hash == h then v.WithWaiting(note.place, Some(n)) else v
    ensures WaitsFor(v', notes, h, n)
  {
    LogStep(Notifieds(init), Notified(note), h);
    match note.place
    case Source =>
    case Destination =>
    case Both =>
  }

  lemma {:induction false} NotesOfListAgree(self: uint32, n: Notification, shard: uint32, mbs: seq<MiniblockHeader>)
    ensures forall i :: 0 <= i < |NotesOfMiniblocks(self, n, shard, mbs)| ==> NotesOfMiniblocks(self, n, shard, mbs)[i].notification == n
  {
    if mbs != [] {
      NotesOfListAgree(self, n, shard, mbs[..|mbs| - 1]);
    }
  }

  lemma {:induction false} NotesOfShardsAgree(self: uint32, n: Notification, shards: seq<ShardData>)
    ensures forall i :: 0 <= i < |NotesOfShards(self, n, shards)| ==> NotesOfShards(self, n, shards)[i].notification == n
  {
    if shards != [] {
      var last := shards[|shards| - 1];
      NotesOfShardsAgree(self, n, shards[..|shards| - 1]);
      NotesOfListAgree(self, n, last.shardID, last.miniblocks);
    }
  }

  /** The three passes put the notification on every side it waits for. */
  lemma {:induction false} PassesNotarize(st: State, env: Env, h: Slice, notes: seq<Note>, n: Notification)
    requires Quiet(env) && st.Readable(h) && WaitsFor(HashView(st, h), notes, h, n)
    ensures var (md, st') := (LookupByHash(st, h).value, Consume(st, env));
            && st'.Readable(h) && h !in st'.source && h !in st'.destination && h !in st'.both
            && Notarized(md, LookupByHash(st', h).value, LastNote(Notifieds(notes), h, Source).Some?, LastNote(Notifieds(notes), h, Destination).Some?, n)
  {
    ConsumedSides(st, env, h);
  }

  /** Which coordinates a side gets from what waits: what waits for both sides is put last. */
  function Newest(both: Option<Notification>, own: Option<Notification>): Option<Notification> {
    if both.Some? then both else own
  }

  predicate SideBecomes(md: MiniblockMetadata, md': MiniblockMetadata, side: Place, n: Option<Notification>) {
    if n.Some? then SideIs(md', side, n.value.metaNonce, n.value.metaHash)
    else if side == Source then SideIs(md', side, md.notarizedAtSourceInMetaNonce, md.notarizedAtSourceInMetaHash)
    else SideIs(md', side, md.notarizedAtDestinationInMetaNonce, md.notarizedAtDestinationInMetaHash)
  }

  /** Consuming, for one miniblock with a readable record and whatever waits for it: the sides, and nothing waits any more. */
  lemma {:induction false} ConsumedSides(st: State, env: Env, h: Slice)
    requires Quiet(env) && st.Readable(h)
    ensures var (md, st') := (LookupByHash(st, h).value, Consume(st, env));
            && st'.Readable(h) && h !in st'.source && h !in st'.destination && h !in st'.both
            && SameButCoordinates(md, LookupByHash(st', h).value)
            && SideBecomes(md, LookupByHash(st', h).value, Source, Newest(Find(st.both, h), Find(st.source, h)))
            && SideBecomes(md, LookupByHash(st', h).value, Destination, Newest(Find(st.both, h), Find(st.destination, h)))
  {
    ThreePasses(st, env, h);
    PassesOnView(HashView(st, h));
  }

  function AfterPasses(v: View): View {
    ConsumeHashView(ConsumeHashView(ConsumeHashView(v, Source), Destination), Both)
  }

  lemma {:induction false} ThreePasses(st: State, env: Env, h: Slice)
    requires Quiet(env)
    ensures HashView(Consume(st, env), h) == AfterPasses(HashView(st, h))
  {
    var st1 := ConsumePlace(st, Source, env);
    var st2 := ConsumePlace(st1, Destination, env);
    ConsumePlaceOnHashView(st, Source, env, h);
    ConsumePlaceOnHashView(st1, Destination, env, h);
    ConsumePlaceOnHashView(st2, Both, env, h);
  }

  lemma {:induction false} PassesOnView(v: View)
    requires v.record.Some?
    ensures var v' := AfterPasses(v);
            && v'.record.Some? && v'.source.None? && v'.destination.None? && v'.both.None?
            && SameButCoordinates(v.record.value, v'.record.value)
            && SideBecomes(v.record.value, v'.record.value, Source, Newest(v.both, v.source))
            && SideBecomes(v.record.value, v'.record.value, Destination, Newest(v.both, v.destination))
  {
  }

  /** A write of the record that fails leaves the record, and what waits. */
  lemma {:induction false} FailedWriteKeeps(st: State, place: Place, h: Slice, env: Env)
    requires h in env.recordPutFails
    ensures ConsumeOne(st, place, h, env) == st
  {
  }

  /** The sides that are notarized have the coordinates, the others what they had, and everything else is unchanged. */
  predicate Notarized(md: MiniblockMetadata, md': MiniblockMetadata, source: bool, destination: bool, n: Notification) {
    && SameButCoordinates(md, md')
    && (if source then SideIs(md', Source, n.metaNonce, n.metaHash)
        else SideIs(md', Source, md.notarizedAtSourceInMetaNonce, md.notarizedAtSourceInMetaHash))
    && (if destination then SideIs(md', Destination, n.metaNonce, n.metaHash)
        else SideIs(md', Destination, md.notarizedAtDestinationInMetaNonce, md.notarizedAtDestinationInMetaHash))
  }

  /**
   * One metablock, and a miniblock that is recorded and waits for nothing: on the sides where the metablock notarizes it
   * the record has the metablock's nonce and hash afterwards, and nothing else of the record is different.
   */
  lemma {:induction false} MetablockNotarizes(st: State, self: uint32, header: NotarizedHeader, hash: Slice, env: Env, h: Slice)
    requires Quiet(env) && header.MetaBlock? && st.Readable(h)
    requires h !in st.source && h !in st.destination && h !in st.both
    ensures var st' := OnNotarizedBlocks(st, self, [header], [hash], env);
            && st'.Readable(h) && h !in st'.source && h !in st'.destination && h !in st'.both
            && Notarized(LookupByHash(st, h).value, LookupByHash(st', h).value, Notarizes(self, header, h, Source),
                         Notarizes(self, header, h, Destination), Notification(header.nonce, hash))
  {
    var n := Notification(header.nonce, hash);
    var notes := NotesOfHeader(self, header, hash);
    NotesOfListAgree(self, n, METACHAIN, header.miniblocks);
    NotesOfShardsAgree(self, n, header.shardInfo);
    NotesOfOneHeader(self, header, hash, h, Source);
    NotesOfOneHeader(self, header, hash, h, Destination);
    OneHeader(self, header, hash);
    EnqueuedWaits(st, notes, h, n);
    PassesNotarize(EnqueueAll(st, notes), env, h, notes, n);
  }

  lemma {:induction false} OneHeader(self: uint32, header: NotarizedHeader, hash: Slice)
    ensures NotesOf(self, [header], [hash]) == NotesOfHeader(self, header, hash)
  {
    assert [header][..0] == [];
    assert NotesOf(self, [header], [hash]) == NotesOf(self, [header][..0], [hash]) + NotesOfHeader(self, header, hash);
  }

  /** A miniblock in a shard block of a metablock: by its sender's it is notarized at the source, by its receiver's at the destination. */
  lemma {:induction false} ShardBlockNotarizes(self: uint32, nonce: uint64, shard: uint32, mb: MiniblockHeader)
    requires nonce >= 1 && mb.blockType != PEER_BLOCK && (mb.sender == self || mb.receiver == self)
    ensures var header := MetaBlock(nonce, [], [ShardData(shard, [mb])]);
            && (mb.sender == mb.receiver || mb.receiver == METACHAIN ==> Notarizes(self, header, mb.hash, Source) && Notarizes(self, header, mb.hash, Destination))
            && (mb.sender != mb.receiver && mb.receiver != METACHAIN ==>
                  && (Notarizes(self, header, mb.hash, Source) <==> shard == mb.sender)
                  && (Notarizes(self, header, mb.hash, Destination) <==> shard == mb.receiver))
  {
    var shards := [ShardData(shard, [mb])];
    assert forall side :: Bears(self, shard, mb, mb.hash, side) ==> SomeBears(self, shards[0].shardID, shards[0].miniblocks, mb.hash, side) by {
      assert shards[0].miniblocks[0] == mb;
    }
    assert forall side :: SomeBears(self, shard, [mb], mb.hash, side) ==> Bears(self, shard, mb, mb.hash, side);
  }

  /** A miniblock of the metablock itself: from the metachain it is notarized at the source. */
  lemma {:induction false} OwnMiniblockNotarizes(self: uint32, nonce: uint64, mb: MiniblockHeader)
    requires mb.blockType != PEER_BLOCK && (mb.sender == self || mb.receiver == self)
    ensures var header := MetaBlock(nonce, [mb], []);
            && (mb.sender == mb.receiver || mb.receiver == METACHAIN ==> Notarizes(self, header, mb.hash, Source) && Notarizes(self, header, mb.hash, Destination))
            && (mb.sender != mb.receiver && mb.receiver != METACHAIN ==>
                  && (Notarizes(self, header, mb.hash, Source) <==> mb.sender == METACHAIN)
                  && !Notarizes(self, header, mb.hash, Destination))
  {
    assert [mb][0] == mb;
    assert forall side :: Bears(self, METACHAIN, mb, mb.hash, side) ==> SomeBears(self, METACHAIN, [mb], mb.hash, side);
    assert forall side :: SomeBears(self, METACHAIN, [mb], mb.hash, side) ==> Bears(self, METACHAIN, mb, mb.hash, side);
  }

  // ---------- whole runs ----------

  /** The block of the operation commits a miniblock with this hash. */
  predicate Brings(op: Op, h: Slice, mb: Miniblock) {
    op.RecordOp? && mb.hash == h && Commits(op.body, op.intraShard, mb)
  }

  /** The coordinates of the last metablock of the run that notarizes the miniblock on the side. */
  function LastInRun(self: uint32, ops: seq<Op>, h: Slice, side: Place): Option<Notification>
    requires WellFormedRun(ops)
  {
    if ops == [] then None
    else
      var (init, op) := (ops[..|ops| - 1], ops[|ops| - 1]);
      var last := if op.NotarizeOp? then LastNotarizing(self, op.headers, op.hashes, h, side) else None;
      if last.Some? then last else LastInRun(self, init, h, side)
  }

  lemma {:induction false} LogNotesAreOfRun(self: uint32, ops: seq<Op>, h: Slice, side: Place)
    requires WellFormedRun(ops) && side != Both
    ensures LastNote(Log(self, ops), h, side) == LastInRun(self, ops, h, side)
  {
    if ops != [] {
      var (init, op) := (ops[..|ops| - 1], ops[|ops| - 1]);
      LogNotesAreOfRun(self, init, h, side);
      LastNoteOfJoined(Log(self, init), EventsOf(self, op), h, side);
      match op
      case RecordOp(_, _, _, _) => NoNotes(EventsOf(self, op), h, side);
      case NotarizeOp(headers, hashes, _) => NotesAreNotarizings(self, headers, hashes, h, side);
    }
  }

  lemma {:induction false} FirstOfJoined(a: seq<Event>, b: seq<Event>, h: Slice)
    ensures FirstRecording(a + b, h) == if FirstRecording(a, h).Some? then FirstRecording(a, h) else FirstRecording(b, h)
  {
    if b == [] {
      assert a + b == a;
    } else {
      var k := |b| - 1;
      FirstOfJoined(a, b[..k], h);
      assert (a + b)[..|a + b| - 1] == a + b[..k];
    }
  }

  ghost predicate FirstAmong(md: Option<MiniblockMetadata>, hdr: Header, mbs: seq<Miniblock>, h: Slice) {
    if md.None? then forall mb :: mb in mbs ==> mb.hash != h
    else NotNotarized(md.value) && exists mb :: mb in mbs && mb.hash == h && Describes(md.value, hdr, mb)
  }

  lemma {:induction false} FirstOfBlock(hdr: Header, mbs: seq<Miniblock>, h: Slice)
    ensures FirstAmong(FirstRecording(Recordings(hdr, mbs), h), hdr, mbs, h)
  {
    if mbs != [] {
      var (init, last) := (mbs[..|mbs| - 1], mbs[|mbs| - 1]);
      FirstOfBlock(hdr, init, h);
      assert Recordings(hdr, mbs) == Recordings(hdr, init) + [Event.Recording(hdr, last)];
      LogStep(Recordings(hdr, init), Event.Recording(hdr, last), h);
      var first := FirstRecording(Recordings(hdr, init), h);
      if first.Some? {
        var mb :| mb in init && mb.hash == h && Describes(first.value, hdr, mb);
        assert mb in mbs;
      } else if last.hash == h {
        FreshDescribes(hdr, last);
        assert last in mbs;
      }
    }
  }

  lemma {:induction false} NothingRecorded(notes: seq<Note>, h: Slice)
    ensures FirstRecording(Notifieds(notes), h).None?
  {
    if notes != [] {
      var k := |notes| - 1;
      NothingRecorded(notes[..k], h);
      assert Notifieds(notes)[..k] == Notifieds(notes[..k]);
    }
  }

  /** The operation brings the miniblock first, and the record is about it as brought. */
  ghost predicate BroughtFirst(ops: seq<Op>, h: Slice, i: nat, mb: Miniblock, md: MiniblockMetadata) {
    && i < |ops| && Brings(ops[i], h, mb) && Describes(md, ops[i].hdr, mb) && NotNotarized(md)
    && forall j, other :: 0 <= j < i ==> !Brings(ops[j], h, other)
  }

  ghost predicate NotBrought(ops: seq<Op>, h: Slice) {
    forall i, mb :: 0 <= i < |ops| ==> !Brings(ops[i], h, mb)
  }

  ghost predicate IsFirst(ops: seq<Op>, h: Slice, first: Option<MiniblockMetadata>) {
    match first
    case None => NotBrought(ops, h)
    case Some(md) => exists i: nat, mb :: BroughtFirst(ops, h, i, mb, md)
  }

  lemma {:induction false} FirstIsBrought(self: uint32, ops: seq<Op>, h: Slice)
    requires WellFormedRun(ops)
    ensures IsFirst(ops, h, FirstRecording(Log(self, ops), h))
  {
    if ops != [] {
      var (init, op) := (ops[..|ops| - 1], ops[|ops| - 1]);
      FirstIsBrought(self, init, h);
      FirstOfJoined(Log(self, init), EventsOf(self, op), h);
      var before := FirstRecording(Log(self, init), h);
      if before.Some? {
        FirstStays(init, op, h, before.value);
        assert init + [op] == ops;
      } else {
        FirstOfOp(self, init, op, h);
        assert init + [op] == ops;
      }
    }
  }

  lemma {:induction false} FirstStays(init: seq<Op>, op: Op, h: Slice, md: MiniblockMetadata)
    requires IsFirst(init, h, Some(md))
    ensures IsFirst(init + [op], h, Some(md))
  {
    var i: nat, mb :| BroughtFirst(init, h, i, mb, md);
    assert BroughtFirst(init + [op], h, i, mb, md);
  }

  lemma {:induction false} FirstOfOp(self: uint32, init: seq<Op>, op: Op, h: Slice)
    requires op.WellFormed() && NotBrought(init, h)
    ensures IsFirst(init + [op], h, FirstRecording(EventsOf(self, op), h))
  {
    var ops := init + [op];
    match op
    case NotarizeOp(headers, hashes, _) =>
      NothingRecorded(NotesOf(self, headers, hashes), h);
    case RecordOp(hdr, body, intraShard, _) =>
      var mbs := Recorded(body, intraShard);
      FirstOfBlock(hdr, mbs, h);
      forall mb
        ensures mb in mbs <==> Commits(body, intraShard, mb)
      {
        RecordedMembers(body, intraShard, mb);
      }
      var first := FirstRecording(Recordings(hdr, mbs), h);
      if first.Some? {
        var mb :| mb in mbs && mb.hash == h && Describes(first.value, hdr, mb);
        assert Brings(op, h, mb) && ops[|init|] == op;
        assert BroughtFirst(ops, h, |init|, mb, first.value);
      }
  }

  predicate SideIsLast(md: MiniblockMetadata, side: Place, n: Option<Notification>) {
    if n.Some? then SideIs(md, side, n.value.metaNonce, n.value.metaHash) else SideIs(md, side, 0, [])
  }

  lemma {:induction false} ExpectedFields(log: seq<Event>, h: Slice, first: MiniblockMetadata)
    requires NotNotarized(first)
    ensures var md := Expected(log, h, first);
            && SameButCoordinates(first, md)
            && SideIsLast(md, Source, LastNote(log, h, Source)) && SideIsLast(md, Destination, LastNote(log, h, Destination))
  {
  }

  /**
   * After every `OnNotarizedBlocks`, in terms of the blocks and metablocks alone: a miniblock is found if and only if a
   * block of the run brought it; the record is about it and the header that brought it first, and has on each side the
   * nonce and hash of the last metablock that notarizes it there, or none.
   */
  lemma {:induction false} RunShowsBlocks(self: uint32, ops: seq<Op>, k: Key, shape: Slice -> Shape)
    requires WellFormedRun(ops) && ops != [] && ops[|ops| - 1].NotarizeOp?
    requires forall i :: 0 <= i < |ops| ==> OpFits(ops[i], shape) && Undisturbed(ops[i], k)
    ensures var found := LookupByHash(Run(self, ops), k.hash);
            if found.None? then NotBrought(ops, k.hash)
            else
              && SideIsLast(found.value, Source, LastInRun(self, ops, k.hash, Source))
              && SideIsLast(found.value, Destination, LastInRun(self, ops, k.hash, Destination))
              && exists i: nat, mb, first :: BroughtFirst(ops, k.hash, i, mb, first) && SameButCoordinates(first, found.value)
  {
    var log := Log(self, ops);
    RunRefinesLog(self, ops, k, shape);
    FirstIsBrought(self, ops, k.hash);
    LogNotesAreOfRun(self, ops, k.hash, Source);
    LogNotesAreOfRun(self, ops, k.hash, Destination);
    match FirstRecording(log, k.hash)
    case None =>
    case Some(first) =>
      ExpectedFields(log, k.hash, first);
  }
}
