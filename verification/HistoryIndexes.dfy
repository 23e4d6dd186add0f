/** How the indexes of the history repository agree with each other, and what a second recording of a miniblock does. */
module HistoryIndexes {
  import opened Words
  import opened Schemas
  import opened History
  import opened HistoryRuns

  /** Every stored record's miniblock is found by its hash, in some epoch; the other indexes name only such miniblocks. */
  ghost predicate IndexAgrees(st: State, headers: set<Slice>) {
    && RecordsAgree(st)
    && (forall k :: k in st.records ==> st.Readable(k.hash) && k.hash !in headers)
    && (forall k: Key {:trigger DedupKey(k)} :: DedupKey(k) in st.dedup ==> k in st.records)
    && (forall tx :: tx in st.txs ==> st.Readable(st.txs[tx]))
  }

  lemma {:induction false} IndexedTxs(txs: map<Slice, Slice>, txHashes: seq<Slice>, h: Slice, fails: set<Slice>)
    ensures var txs' := IndexTxs(txs, txHashes, h, fails);
            && (forall tx :: tx in txs' ==> txs'[tx] == h || (tx in txs && txs'[tx] == txs[tx]))
            && (forall tx :: tx in txs ==> tx in txs')
            && (forall i :: 0 <= i < |txHashes| && txHashes[i] !in fails ==> txHashes[i] in txs' && txs'[txHashes[i]] == h)
  {
    if txHashes != [] {
      IndexedTxs(txs, txHashes[..|txHashes| - 1], h, fails);
    }
  }

  lemma {:induction false} RecordMiniblockKeepsIndexes(st: State, hdr: Header, mb: Miniblock, env: Env, headers: set<Slice>)
    requires IndexAgrees(st, headers) && Quiet(env) && mb.hash !in headers
    ensures IndexAgrees(RecordMiniblock(st, hdr, mb, env), headers)
  {
    var key := Key(hdr.epoch, mb.hash);
    var st' := RecordMiniblock(st, hdr, mb, env);
    if DedupKey(key) !in st.dedup {
      RecordMiniblockAgrees(st, hdr, mb, env);
      RecordingKeepsReadability(st, hdr, mb, env);
      RecordingMarksOwnKey(st, hdr, mb, env);
      RecordingKeepsTxs(st, hdr, mb, env);
    }
  }

  lemma {:induction false} RecordingKeepsTxs(st: State, hdr: Header, mb: Miniblock, env: Env)
    requires Quiet(env) && DedupKey(Key(hdr.epoch, mb.hash)) !in st.dedup
    requires forall tx :: tx in st.txs ==> st.Readable(st.txs[tx])
    ensures var st' := RecordMiniblock(st, hdr, mb, env);
            forall tx :: tx in st'.txs ==> st'.Readable(st'.txs[tx])
  {
    RecordingKeepsReadability(st, hdr, mb, env);
    IndexedTxs(st.txs, mb.txHashes, mb.hash, env.txPutFails);
  }

  lemma {:induction false} RecordingKeepsReadability(st: State, hdr: Header, mb: Miniblock, env: Env)
    requires Quiet(env) && DedupKey(Key(hdr.epoch, mb.hash)) !in st.dedup
    ensures var st' := RecordMiniblock(st, hdr, mb, env);
            && st'.Readable(mb.hash)
            && (forall h :: st.Readable(h) ==> st'.Readable(h))
            && (forall k :: k in st'.records ==> k in st.records || k.hash == mb.hash)
            && (forall k :: k in st.records ==> k in st'.records)
  {
  }

  lemma {:induction false} RecordingMarksOwnKey(st: State, hdr: Header, mb: Miniblock, env: Env)
    requires Quiet(env) && DedupKey(Key(hdr.epoch, mb.hash)) !in st.dedup
    ensures var st' := RecordMiniblock(st, hdr, mb, env);
            forall k: Key {:trigger DedupKey(k)} :: DedupKey(k) in st'.dedup ==> DedupKey(k) in st.dedup || (k == Key(hdr.epoch, mb.hash) && k in st'.records)
  {
    var st' := RecordMiniblock(st, hdr, mb, env);
    forall k: Key {:trigger DedupKey(k)} | DedupKey(k) in st'.dedup && DedupKey(k) !in st.dedup
      ensures k == Key(hdr.epoch, mb.hash)
    {
      DedupKeyIsInjective(k, Key(hdr.epoch, mb.hash));
    }
  }

  lemma {:induction false} RecordAllKeepsIndexes(st: State, hdr: Header, mbs: seq<Miniblock>, env: Env, headers: set<Slice>)
    requires IndexAgrees(st, headers) && Quiet(env) && forall i :: 0 <= i < |mbs| ==> mbs[i].hash !in headers
    ensures IndexAgrees(RecordAll(st, hdr, mbs, env), headers)
  {
    if mbs != [] {
      var k := |mbs| - 1;
      RecordAllKeepsIndexes(st, hdr, mbs[..k], env, headers);
      RecordMiniblockKeepsIndexes(RecordAll(st, hdr, mbs[..k], env), hdr, mbs[k], env, headers);
    }
  }

  lemma {:induction false} ConsumePlaceKeepsIndexes(st: State, place: Place, env: Env, headers: set<Slice>)
    requires IndexAgrees(st, headers)
    ensures IndexAgrees(ConsumePlace(st, place, env), headers)
  {
    var keys := st.Pending(place).Keys;
    var st' := ConsumePlace(st, place, env);
    ConsumeKeysAgrees(st, place, keys, env);
    assert st'.records.Keys == st.records.Keys;
    forall h
      ensures st'.Readable(h) <==> st.Readable(h)
    {
      ConsumingKeepsReadability(st, place, keys, env, h);
    }
  }

  lemma {:induction false} EnqueueAllKeepsIndexes(st: State, notes: seq<Note>, headers: set<Slice>)
    requires IndexAgrees(st, headers)
    ensures IndexAgrees(EnqueueAll(st, notes), headers)
  {
    EnqueueAllKeepsStores(st, notes);
    var st' := EnqueueAll(st, notes);
    assert forall h :: st'.Readable(h) <==> st.Readable(h);
  }

  /** Blocks are recorded by stores that accept writes (transaction hashes may be refused), and header hashes are no miniblock hashes. */
  ghost predicate Orderly(op: Op, headers: set<Slice>) {
    op.RecordOp? ==>
      && Quiet(op.env) && op.hdr.hash in headers
      && var mbs := Recorded(op.body, op.intraShard);
         forall i :: 0 <= i < |mbs| ==> mbs[i].hash !in headers
  }

  lemma {:induction false} RunKeepsIndexes(self: uint32, ops: seq<Op>, headers: set<Slice>)
    requires WellFormedRun(ops) && forall i :: 0 <= i < |ops| ==> Orderly(ops[i], headers)
    ensures IndexAgrees(Run(self, ops), headers)
  {
    if ops != [] {
      var (st, op) := (Run(self, ops[..|ops| - 1]), ops[|ops| - 1]);
      RunKeepsIndexes(self, ops[..|ops| - 1], headers);
      assert Orderly(op, headers);
      match op
      case RecordOp(hdr, body, intraShard, env) =>
        var st1 := st.(epochs := st.epochs[hdr.hash := hdr.epoch]);
        HeaderKeepsIndexes(st, hdr, headers);
        RecordAllKeepsIndexes(st1, hdr, Recorded(body, intraShard), env, headers);
      case NotarizeOp(headers', hashes, env) =>
        var st1 := EnqueueAll(st, NotesOf(self, headers', hashes));
        EnqueueAllKeepsIndexes(st, NotesOf(self, headers', hashes), headers);
        ConsumePlaceKeepsIndexes(st1, Source, env, headers);
        var st2 := ConsumePlace(st1, Source, env);
        ConsumePlaceKeepsIndexes(st2, Destination, env, headers);
        ConsumePlaceKeepsIndexes(ConsumePlace(st2, Destination, env), Both, env, headers);
    }
  }

  lemma HeaderKeepsIndexes(st: State, hdr: Header, headers: set<Slice>)
    requires IndexAgrees(st, headers) && hdr.hash in headers
    ensures IndexAgrees(st.(epochs := st.epochs[hdr.hash := hdr.epoch]), headers)
  {
    var st' := st.(epochs := st.epochs[hdr.hash := hdr.epoch]);
    forall h | st.Readable(h)
      ensures st'.Readable(h)
    {
      assert Key(st.epochs[h], h) in st.records;
    }
  }

  /**
   * In every reachable state: records lie under their own epoch and hash, the deduplication cache names stored records
   * only, and a lookup by transaction hash succeeds for every indexed transaction, giving the record of the miniblock it
   * is indexed under, in the epoch that the epoch index has for that miniblock.
   */
  lemma {:induction false} IndexesAgreeInEveryRun(self: uint32, ops: seq<Op>, headers: set<Slice>)
    requires WellFormedRun(ops) && forall i :: 0 <= i < |ops| ==> Orderly(ops[i], headers)
    ensures var st := Run(self, ops);
            && (forall k :: k in st.records ==> st.records[k].epoch == k.epoch && st.records[k].miniblockHash == k.hash)
            && (forall k: Key {:trigger DedupKey(k)} :: DedupKey(k) in st.dedup ==> k in st.records)
            && (forall tx :: tx in st.txs ==>
                  var found := LookupByTx(st, tx);
                  found.Some? && found.value.miniblockHash == st.txs[tx] && st.epochs[st.txs[tx]] == found.value.epoch)
  {
    RunKeepsIndexes(self, ops, headers);
    var st := Run(self, ops);
    forall tx | tx in st.txs
      ensures var found := LookupByTx(st, tx);
              found.Some? && found.value.miniblockHash == st.txs[tx] && st.epochs[st.txs[tx]] == found.value.epoch
    {
      var h := st.txs[tx];
      assert st.Readable(h);
      assert AgreesWith(st.records[Key(st.epochs[h], h)], Key(st.epochs[h], h));
    }
  }

  // ---------- recording the same miniblock again ----------

  /**
   * A miniblock recorded in one epoch, then first recorded in another: lookups give the newer record, the older one stays
   * as it was, and recording it again in the older epoch, while its key is cached, changes nothing at all.
   */
  lemma {:induction false} ForkAcrossEpochs(st: State, prior: Header, next: Header, again: Header, mb: Miniblock, env: Env)
    requires Quiet(env) && prior.epoch != next.epoch && again.epoch == prior.epoch
    requires DedupKey(Key(next.epoch, mb.hash)) !in st.dedup && DedupKey(Key(prior.epoch, mb.hash)) !in env.evicted
    ensures var st1 := RecordMiniblock(st, prior, mb, env);
            var st2 := RecordMiniblock(st1, next, mb, env);
            && LookupByHash(st2, mb.hash) == Some(FreshRecord(next, mb))
            && (forall k :: k != Key(next.epoch, mb.hash) ==> Find(st2.records, k) == Find(st1.records, k))
            && RecordMiniblock(st2, again, mb, env) == st2
            && (forall tx :: tx in mb.txHashes && tx !in env.txPutFails ==> LookupByTx(st2, tx) == Some(FreshRecord(next, mb)))
  {
    var st1 := RecordMiniblock(st, prior, mb, env);
    var st2 := RecordMiniblock(st1, next, mb, env);
    if DedupKey(Key(next.epoch, mb.hash)) == DedupKey(Key(prior.epoch, mb.hash)) {
      DedupKeyIsInjective(Key(next.epoch, mb.hash), Key(prior.epoch, mb.hash));
    }
    assert DedupKey(Key(prior.epoch, mb.hash)) in st1.dedup;
    assert DedupKey(Key(prior.epoch, mb.hash)) in st2.dedup;
    IndexedTxs(st1.txs, mb.txHashes, mb.hash, env.txPutFails);
  }
}
