/** The result log of each transaction: smart contract results and receipts, grouped by batch and appended to what is stored. */
module EventsIndex {
  import opened Words
  import opened Skipping
  import opened Wire
  import opened Schemas
  import Printer
  import Parser

  /** A transaction handler from a pool. */
  datatype Handler = SmartContractResult(originalTxHash: Slice) | Receipt(txHash: Slice) | OtherTransaction

  type Pool = map<Slice, Handler>
  type Results = map<Slice, ResultsHashesByTxHash>

  // ---------- what a batch must be ----------

  /** The smart contract results of a transaction among the hashes `done`. */
  function HashesAmong(scrs: Pool, done: set<Slice>, tx: Slice): set<bytes> {
    set h: Slice | h in done && h in scrs && scrs[h] == SmartContractResult(tx) :: h
  }

  function HashesFor(scrs: Pool, tx: Slice): set<bytes> {
    HashesAmong(scrs, scrs.Keys, tx)
  }

  function ReceiptsAmong(receipts: Pool, done: set<Slice>, tx: Slice): set<bytes> {
    set h: Slice | h in done && h in receipts && receipts[h] == Receipt(tx) :: h
  }

  function ReceiptsFor(receipts: Pool, tx: Slice): set<bytes> {
    ReceiptsAmong(receipts, receipts.Keys, tx)
  }

  /** `s` holds each of `hashes` exactly once. */
  ghost predicate Lists(s: seq<bytes>, hashes: set<bytes>) {
    && (forall i, j :: 0 <= i < j < |s| ==> s[i] != s[j])
    && (forall h :: h in s <==> h in hashes)
  }

  /** One entry, for the epoch, listing the results once each. */
  ghost predicate OneEntry(r: ResultsHashesByTxHash, epoch: uint32, hashes: set<bytes>) {
    && r.receiptsHash == []
    && |r.scResults| == 1 && r.scResults[0].epoch == epoch
    && Lists(r.scResults[0].scResultsHashes, hashes)
  }

  ghost predicate Grouped(out: Results, epoch: uint32, scrs: Pool, done: set<Slice>) {
    && (forall tx :: tx in out <==> HashesAmong(scrs, done, tx) != {})
    && (forall tx :: tx in out ==> OneEntry(out[tx], epoch, HashesAmong(scrs, done, tx)))
  }

  /** A receipt takes the place of whatever the batch has for its transaction. */
  ghost predicate WithReceipts(out: Results, grouped: Results, receipts: Pool, done: set<Slice>) {
    && (forall tx :: tx in out <==> tx in grouped || ReceiptsAmong(receipts, done, tx) != {})
    && (forall tx :: tx in out ==>
          var rs := ReceiptsAmong(receipts, done, tx);
          if rs == {} then tx in grouped && out[tx] == grouped[tx]
          else out[tx].receiptsHash in rs && out[tx].scResults == [])
  }

  /** The outcome of a batch for one transaction. */
  ghost predicate EntryFor(r: ResultsHashesByTxHash, epoch: uint32, scrs: Pool, receipts: Pool, tx: Slice) {
    if ReceiptsFor(receipts, tx) != {} then r.receiptsHash in ReceiptsFor(receipts, tx) && r.scResults == []
    else OneEntry(r, epoch, HashesFor(scrs, tx))
  }

  ghost predicate BatchOf(batch: Results, epoch: uint32, scrs: Pool, receipts: Pool) {
    && (forall tx :: tx in batch <==> HashesFor(scrs, tx) != {} || ReceiptsFor(receipts, tx) != {})
    && (forall tx :: tx in batch ==> EntryFor(batch[tx], epoch, scrs, receipts, tx))
  }

  lemma GroupedWithReceiptsIsBatch(batch: Results, grouped: Results, epoch: uint32, scrs: Pool, receipts: Pool)
    requires Grouped(grouped, epoch, scrs, scrs.Keys) && WithReceipts(batch, grouped, receipts, receipts.Keys)
    ensures BatchOf(batch, epoch, scrs, receipts)
  {
  }

  // ---------- saving ----------

  function Merged(store: Results, tx: Slice, r: ResultsHashesByTxHash): ResultsHashesByTxHash {
    if tx in store then r.(scResults := store[tx].scResults + r.scResults) else r
  }

  /** The merged record is longer than any slice, which no marshalled record can be. */
  predicate TooLong(store: Results, tx: Slice, r: ResultsHashesByTxHash) {
    |MarshalResults(Merged(store, tx, r))| > MAX_INT
  }

  /** The store after a batch; `refused` are the transactions whose write fails. */
  function AfterSave(store: Results, batch: Results, refused: set<Slice>): Results {
    map tx | tx in store.Keys + batch.Keys && (tx in store || tx !in refused) ::
      if tx in batch && tx !in refused then Merged(store, tx, batch[tx]) else store[tx]
  }

  // ---------- steps of the grouping loop ----------

  lemma OneMoreHash(scrs: Pool, done: set<Slice>, h: Slice, tx: Slice)
    requires h in scrs && h !in done
    ensures HashesAmong(scrs, done + {h}, tx) == HashesAmong(scrs, done, tx) + if scrs[h] == SmartContractResult(tx) then {h} else {}
    ensures h !in HashesAmong(scrs, done, tx)
  {
  }

  lemma OneMoreReceipt(receipts: Pool, done: set<Slice>, h: Slice, tx: Slice)
    requires h in receipts && h !in done
    ensures ReceiptsAmong(receipts, done + {h}, tx) == ReceiptsAmong(receipts, done, tx) + if receipts[h] == Receipt(tx) then {h} else {}
  {
  }

  lemma ListsOneMore(s: seq<bytes>, hashes: set<bytes>, h: bytes)
    requires Lists(s, hashes) && h !in hashes
    ensures Lists(s + [h], hashes + {h})
  {
  }

  /** What one turn of the grouping loop does with a smart contract result. */
  function AppendHash(out: Results, epoch: uint32, tx: Slice, h: Slice): Results {
    if tx in out && out[tx].scResults != [] then
      var entry := out[tx].scResults[0];
      var entry' := entry.(scResultsHashes := entry.scResultsHashes + [h]);
      out[tx := out[tx].(scResults := out[tx].scResults[0 := entry'])]
    else out[tx := ResultsHashesByTxHash([], [ScResultsHashesAndEpoch(epoch, [h])])]
  }

  lemma SkippedHashKeepsGroups(out: Results, epoch: uint32, scrs: Pool, done: set<Slice>, h: Slice)
    requires Grouped(out, epoch, scrs, done) && h in scrs && h !in done && !scrs[h].SmartContractResult?
    ensures Grouped(out, epoch, scrs, done + {h})
  {
    forall tx
      ensures HashesAmong(scrs, done + {h}, tx) == HashesAmong(scrs, done, tx)
    {
      OneMoreHash(scrs, done, h, tx);
    }
  }

  lemma {:induction false} AppendedHashKeepsGroups(out: Results, epoch: uint32, scrs: Pool, done: set<Slice>, h: Slice)
    requires Grouped(out, epoch, scrs, done) && h in scrs && h !in done && scrs[h].SmartContractResult?
    ensures Grouped(AppendHash(out, epoch, scrs[h].originalTxHash, h), epoch, scrs, done + {h})
  {
    var t := scrs[h].originalTxHash;
    var out' := AppendHash(out, epoch, t, h);
    forall tx
      ensures tx in out' <==> HashesAmong(scrs, done + {h}, tx) != {}
      ensures tx in out' ==> OneEntry(out'[tx], epoch, HashesAmong(scrs, done + {h}, tx))
    {
      OneMoreHash(scrs, done, h, tx);
      if tx == t {
        AppendedEntry(out, epoch, t, h, HashesAmong(scrs, done, t));
      }
    }
  }

  lemma AppendedEntry(out: Results, epoch: uint32, tx: Slice, h: Slice, hashes: set<bytes>)
    requires (tx in out <==> hashes != {}) && (tx in out ==> OneEntry(out[tx], epoch, hashes)) && h !in hashes
    ensures OneEntry(AppendHash(out, epoch, tx, h)[tx], epoch, hashes + {h})
  {
    if tx in out {
      ListsOneMore(out[tx].scResults[0].scResultsHashes, hashes, h);
    }
  }

  lemma OneReceiptKeepsOutcomes(out: Results, grouped: Results, receipts: Pool, done: set<Slice>, h: Slice)
    requires WithReceipts(out, grouped, receipts, done) && h in receipts && h !in done
    ensures var out' := if receipts[h].Receipt? then out[receipts[h].txHash := ResultsHashesByTxHash(h, [])] else out;
            WithReceipts(out', grouped, receipts, done + {h})
  {
    forall tx
      ensures ReceiptsAmong(receipts, done + {h}, tx) == ReceiptsAmong(receipts, done, tx) + if receipts[h] == Receipt(tx) then {h} else {}
    {
      OneMoreReceipt(receipts, done, h, tx);
    }
  }

  // ---------- the index ----------

  class EventsHashesByTxHash {
    var storer: map<Slice, bytes>
    ghost var contents: Results

    ghost predicate Valid()
      reads this
    {
      && storer.Keys == contents.Keys
      && forall tx :: tx in storer ==> |storer[tx]| <= MAX_INT && UnmarshalResults(storer[tx]) == Ok(contents[tx])
    }

    constructor ()
      ensures Valid() && contents == map[]
    {
      storer, contents := map[], map[];
    }

    /** The pool is a map, read in any order; handlers of another type are passed over. */
    method GroupSmartContractResults(epoch: uint32, scrs: Pool) returns (out: Results)
      ensures Grouped(out, epoch, scrs, scrs.Keys)
    {
      out := map[];
      var rest := scrs.Keys;
      ghost var done: set<Slice> := {};
      while rest != {}
        invariant Splits(scrs.Keys, done, rest)
        invariant Grouped(out, epoch, scrs, done)
        decreases |rest|
      {
        var h :| h in rest;
        OneMoreDone(scrs.Keys, done, rest, h);
        rest := rest - {h};
        if scrs[h].SmartContractResult? {
          AppendedHashKeepsGroups(out, epoch, scrs, done, h);
          out := AppendHash(out, epoch, scrs[h].originalTxHash, h);
        } else {
          SkippedHashKeepsGroups(out, epoch, scrs, done, h);
        }
        done := done + {h};
      }
      assert done == scrs.Keys;
    }

    method GroupTransactionOutcomes(epoch: uint32, scrs: Pool, receipts: Pool) returns (out: Results)
      ensures BatchOf(out, epoch, scrs, receipts)
    {
      var grouped := GroupSmartContractResults(epoch, scrs);
      out := PutReceipts(grouped, receipts);
      GroupedWithReceiptsIsBatch(out, grouped, epoch, scrs, receipts);
    }

    method PutReceipts(grouped: Results, receipts: Pool) returns (out: Results)
      ensures WithReceipts(out, grouped, receipts, receipts.Keys)
    {
      out := grouped;
      var rest := receipts.Keys;
      ghost var done: set<Slice> := {};
      while rest != {}
        invariant Splits(receipts.Keys, done, rest)
        invariant WithReceipts(out, grouped, receipts, done)
        decreases |rest|
      {
        var h :| h in rest;
        OneMoreDone(receipts.Keys, done, rest, h);
        rest := rest - {h};
        OneReceiptKeepsOutcomes(out, grouped, receipts, done, h);
        if receipts[h].Receipt? {
          out := out[receipts[h].txHash := ResultsHashesByTxHash(h, [])];
        }
        done := done + {h};
      }
      assert done == receipts.Keys;
    }

    /** What is stored is put in front of the new entries. */
    method MergeRecordsFromStorage(records: Results) returns (merged: Results)
      requires Valid()
      ensures merged.Keys == records.Keys
      ensures forall tx :: tx in records ==> merged[tx] == Merged(contents, tx, records[tx])
    {
      merged := records;
      var rest := records.Keys;
      while rest != {}
        invariant rest <= records.Keys == merged.Keys
        invariant forall tx :: tx in records ==>
          merged[tx] == if tx in rest then records[tx] else Merged(contents, tx, records[tx])
        decreases |rest|
      {
        var tx :| tx in rest;
        rest := rest - {tx};
        if tx !in storer {
          continue;
        }
        var stored := UnmarshalResultsRecord(storer[tx]);
        match stored
        case Err(_) => continue;
        case Ok(record) =>
          merged := merged[tx := merged[tx].(scResults := record.scResults + merged[tx].scResults)];
      }
    }

    /**
     * Saves a batch. A write is refused when the storer fails, or when the record is too long.
     */
    method SaveResultsHashes(epoch: uint32, scrs: Pool, receipts: Pool, fails: set<Slice>) returns (ghost batch: Results, ghost refused: set<Slice>)
      requires Valid()
      modifies this
      ensures Valid() && BatchOf(batch, epoch, scrs, receipts)
      ensures contents == AfterSave(old(contents), batch, refused)
      ensures forall tx :: tx in batch ==>
        (tx in refused <==> tx in fails || TooLong(old(contents), tx, batch[tx]))
    {
      var records := GroupTransactionOutcomes(epoch, scrs, receipts);
      var results := MergeRecordsFromStorage(records);
      batch := records;
      refused := RefusedAmong(results, fails, results.Keys);
      PutAll(results, batch, fails);
    }

    /** Puts every merged record; a failed write is skipped over. */
    method PutAll(results: Results, ghost batch: Results, fails: set<Slice>)
      requires Valid() && AllMerged(contents, results, batch)
      modifies this
      ensures Valid() && contents == AfterSave(old(contents), batch, RefusedAmong(results, fails, results.Keys))
    {
      ghost var before := contents;
      ghost var done: set<Slice> := {};
      var rest := results.Keys;
      NothingSaved(before, results, batch, fails);
      while rest != {}
        invariant Valid() && Splits(results.Keys, done, rest)
        invariant contents == Saved(before, results, batch, fails, done)
        decreases |rest|
      {
        var tx :| tx in rest;
        OneMoreDone(results.Keys, done, rest, tx);
        rest := rest - {tx};
        PutNext(before, results, batch, fails, done, tx);
        done := done + {tx};
      }
      AllSaved(before, results, batch, fails);
    }

    /** One turn of the saving loop, after the transactions `done`. */
    method PutNext(ghost before: Results, results: Results, ghost batch: Results, fails: set<Slice>, ghost done: set<Slice>, tx: Slice)
      requires Valid() && contents == Saved(before, results, batch, fails, done)
      requires AllMerged(before, results, batch) && tx in results && tx !in done && done <= batch.Keys
      modifies this
      ensures Valid() && contents == Saved(before, results, batch, fails, done + {tx})
    {
      SaveOneMore(before, results, batch, fails, done, tx);
      if tx !in fails && |MarshalResults(results[tx])| <= MAX_INT {
        Put(tx, results[tx]);
      }
    }

    method Put(tx: Slice, r: ResultsHashesByTxHash)
      requires Valid() && |MarshalResults(r)| <= MAX_INT
      modifies this
      ensures Valid() && contents == old(contents)[tx := r]
    {
      var buffer := Printer.Marshal(RESULTS, r.ToMsg());
      ResultsRoundTrip(r);
      storer, contents := storer[tx := buffer[..]], contents[tx := r];
    }
  }

  method UnmarshalResultsRecord(raw: bytes) returns (r: Result<ResultsHashesByTxHash, Error>)
    requires |raw| <= MAX_INT
    ensures r == UnmarshalResults(raw)
  {
    var record := new Parser.Message(RESULTS);
    var err := record.Unmarshal(raw);
    if err.Some? {
      return Err(err.value);
    }
    return Ok(ResultsOf(Msg(record.fields)));
  }

  /** The part of a batch that is for the transactions `done`. */
  function Part(batch: Results, done: set<Slice>): Results {
    map tx | tx in batch && tx in done :: batch[tx]
  }

  function RefusedAmong(results: Results, fails: set<Slice>, done: set<Slice>): set<Slice> {
    set tx | tx in done && tx in results && (tx in fails || |MarshalResults(results[tx])| > MAX_INT)
  }

  function Saved(store: Results, results: Results, batch: Results, fails: set<Slice>, done: set<Slice>): Results {
    AfterSave(store, Part(batch, done), RefusedAmong(results, fails, done))
  }

  ghost predicate AllMerged(store: Results, results: Results, batch: Results) {
    && results.Keys == batch.Keys
    && forall tx :: tx in batch ==> results[tx] == Merged(store, tx, batch[tx])
  }

  lemma AllSaved(store: Results, results: Results, batch: Results, fails: set<Slice>)
    ensures Saved(store, results, batch, fails, batch.Keys) == AfterSave(store, batch, RefusedAmong(results, fails, batch.Keys))
  {
    assert Part(batch, batch.Keys) == batch;
  }

  lemma NothingSaved(store: Results, results: Results, batch: Results, fails: set<Slice>)
    ensures Saved(store, results, batch, fails, {}) == store
  {
    assert Part(batch, {}) == map[];
  }

  lemma {:induction false} SaveOneMore(store: Results, results: Results, batch: Results, fails: set<Slice>, done: set<Slice>, tx: Slice)
    requires AllMerged(store, results, batch) && tx in batch && tx !in done && done <= batch.Keys
    ensures var now := Saved(store, results, batch, fails, done);
            Saved(store, results, batch, fails, done + {tx}) ==
            if tx in fails || |MarshalResults(results[tx])| > MAX_INT then now else now[tx := results[tx]]
  {
    var (refused, refused') := (RefusedAmong(results, fails, done), RefusedAmong(results, fails, done + {tx}));
    assert refused' == refused + if tx in fails || |MarshalResults(results[tx])| > MAX_INT then {tx} else {};
    assert Part(batch, done + {tx}) == Part(batch, done)[tx := batch[tx]];
    AfterSaveOneMore(store, Part(batch, done), refused, tx, batch[tx]);
  }

  lemma {:induction false} AfterSaveOneMore(store: Results, done: Results, refused: set<Slice>, tx: Slice, r: ResultsHashesByTxHash)
    requires tx !in done && refused <= done.Keys
    ensures AfterSave(store, done[tx := r], refused) == AfterSave(store, done, refused)[tx := Merged(store, tx, r)]
    ensures AfterSave(store, done[tx := r], refused + {tx}) == AfterSave(store, done, refused)
  {
  }

  // ---------- runs ----------

  /** One save: its inputs, the batch grouped from them and the refused writes. */
  datatype Save = Save(epoch: uint32, scrs: Pool, receipts: Pool, batch: Results, refused: set<Slice>) {
    ghost predicate Valid() {
      BatchOf(batch, epoch, scrs, receipts)
    }
  }

  function RunSaves(saves: seq<Save>): Results {
    if saves == [] then map[]
    else AfterSave(RunSaves(saves[..|saves| - 1]), saves[|saves| - 1].batch, saves[|saves| - 1].refused)
  }

  /** The entries a save adds for a transaction. */
  function AddedBy(save: Save, tx: Slice): seq<ScResultsHashesAndEpoch> {
    if tx in save.batch && tx !in save.refused then save.batch[tx].scResults else []
  }

  function Added(saves: seq<Save>, tx: Slice): seq<ScResultsHashesAndEpoch> {
    if saves == [] then [] else Added(saves[..|saves| - 1], tx) + AddedBy(saves[|saves| - 1], tx)
  }

  function LogOf(store: Results, tx: Slice): seq<ScResultsHashesAndEpoch> {
    if tx in store then store[tx].scResults else []
  }

  lemma SaveAppends(store: Results, save: Save, tx: Slice)
    ensures LogOf(AfterSave(store, save.batch, save.refused), tx) == LogOf(store, tx) + AddedBy(save, tx)
    ensures tx in store ==> tx in AfterSave(store, save.batch, save.refused)
  {
    assert [] + AddedBy(save, tx) == AddedBy(save, tx);
  }

  /** The stored list of a transaction is what the saves added for it, in their order. */
  lemma {:induction false} LogIsConcatenation(saves: seq<Save>, tx: Slice)
    ensures LogOf(RunSaves(saves), tx) == Added(saves, tx)
  {
    if saves != [] {
      LogIsConcatenation(saves[..|saves| - 1], tx);
      SaveAppends(RunSaves(saves[..|saves| - 1]), saves[|saves| - 1], tx);
    }
  }

  /** The log only grows at its end: at any time the list stored is a prefix of any list stored later. */
  lemma {:induction false} LogIsAppendOnly(saves: seq<Save>, i: nat, tx: Slice)
    requires i <= |saves|
    ensures LogOf(RunSaves(saves[..i]), tx) <= LogOf(RunSaves(saves), tx)
    ensures tx in RunSaves(saves[..i]) ==> tx in RunSaves(saves)
  {
    if i == |saves| {
      assert saves[..i] == saves;
    } else {
      var init := saves[..|saves| - 1];
      assert init[..i] == saves[..i];
      LogIsAppendOnly(init, i, tx);
      SaveAppends(RunSaves(init), saves[|saves| - 1], tx);
    }
  }

  /**
   * What an accepted save adds for a transaction with results in the batch: without a receipt, one entry of the batch's
   * epoch that lists each of its results once; with a receipt, nothing.
   */
  lemma SaveAddsOneEntry(save: Save, tx: Slice)
    requires save.Valid() && tx !in save.refused && HashesFor(save.scrs, tx) != {}
    ensures var added := AddedBy(save, tx);
            if ReceiptsFor(save.receipts, tx) == {} then
              && |added| == 1 && added[0].epoch == save.epoch
              && Lists(added[0].scResultsHashes, HashesFor(save.scrs, tx))
            else added == []
  {
    assert tx in save.batch;
    assert EntryFor(save.batch[tx], save.epoch, save.scrs, save.receipts, tx);
  }

  /** So a result of the batch reaches the log exactly when its transaction has no receipt in the same batch. */
  lemma ResultIsLoggedUnlessReceipt(store: Results, save: Save, h: Slice)
    requires save.Valid() && h in save.scrs && save.scrs[h].SmartContractResult?
    requires save.scrs[h].originalTxHash !in save.refused
    ensures var tx := save.scrs[h].originalTxHash;
            var before, after := LogOf(store, tx), LogOf(AfterSave(store, save.batch, save.refused), tx);
            && before <= after
            && ((exists i :: |before| <= i < |after| && h in after[i].scResultsHashes) <==> ReceiptsFor(save.receipts, tx) == {})
  {
    var tx := save.scrs[h].originalTxHash;
    var before, after := LogOf(store, tx), LogOf(AfterSave(store, save.batch, save.refused), tx);
    assert h in HashesFor(save.scrs, tx);
    SaveAppends(store, save, tx);
    SaveAddsOneEntry(save, tx);
    if ReceiptsFor(save.receipts, tx) == {} {
      assert after[|before|] == AddedBy(save, tx)[0];
      assert h in after[|before|].scResultsHashes;
    } else {
      assert after == before;
    }
  }

  /** The receipt hash an accepted save leaves is the batch's own. */
  lemma ReceiptHashIsTheBatchs(store: Results, save: Save, tx: Slice)
    requires save.Valid() && tx in save.batch && tx !in save.refused
    ensures var after := AfterSave(store, save.batch, save.refused);
            && tx in after
            && if ReceiptsFor(save.receipts, tx) == {} then after[tx].receiptsHash == []
               else after[tx].receiptsHash in ReceiptsFor(save.receipts, tx)
  {
    assert EntryFor(save.batch[tx], save.epoch, save.scrs, save.receipts, tx);
  }

  /**
   * A stored receipt hash is kept exactly when the batch has nothing for the transaction, its write fails, or the batch
   * brings the same hash again: a batch with results but no receipt brings the empty one.
   */
  lemma ReceiptHashIsKept(store: Results, save: Save, tx: Slice)
    requires tx in store
    ensures var after := AfterSave(store, save.batch, save.refused);
            tx in after &&
            (after[tx].receiptsHash == store[tx].receiptsHash <==>
              || tx !in save.batch || tx in save.refused
              || save.batch[tx].receiptsHash == store[tx].receiptsHash)
  {
  }

  /** A transaction has one receipt in a batch, or none. */
  predicate AtMostOneReceipt(receipts: Pool, tx: Slice) {
    forall h, h' :: h in receipts && h' in receipts && receipts[h] == Receipt(tx) && receipts[h'] == Receipt(tx) ==> h == h'
  }

  /** The same, told from the pools before the save. */
  lemma ReceiptHashIsKeptByPools(store: Results, save: Save, tx: Slice)
    requires save.Valid() && tx in store && AtMostOneReceipt(save.receipts, tx)
    ensures var (after, receipts) := (AfterSave(store, save.batch, save.refused), ReceiptsFor(save.receipts, tx));
            tx in after &&
            (after[tx].receiptsHash == store[tx].receiptsHash <==>
              || (receipts == {} && HashesFor(save.scrs, tx) == {}) || tx in save.refused
              || (if receipts == {} then store[tx].receiptsHash == [] else receipts == {store[tx].receiptsHash}))
  {
    ReceiptHashIsKept(store, save, tx);
    if tx in save.batch {
      var (h, receipts) := (save.batch[tx].receiptsHash, ReceiptsFor(save.receipts, tx));
      assert EntryFor(save.batch[tx], save.epoch, save.scrs, save.receipts, tx);
      assert receipts != {} ==> receipts == {h};
    }
  }

  // ---------- two runs of saves ----------

  lemma OneResult(scrs: Pool, tx: Slice, h: Slice, other: Slice)
    requires scrs == map[h := SmartContractResult(tx)]
    ensures HashesFor(scrs, other) == if other == tx then {h} else {}
  {
    OneMoreHash(scrs, {}, h, other);
    assert scrs.Keys == {} + {h};
  }

  lemma OneReceipt(receipts: Pool, tx: Slice, h: Slice, other: Slice)
    requires receipts == map[h := Receipt(tx)]
    ensures ReceiptsFor(receipts, other) == if other == tx then {h} else {}
  {
    OneMoreReceipt(receipts, {}, h, other);
    assert receipts.Keys == {} + {h};
  }

  lemma NoHandlers(tx: Slice)
    ensures HashesFor(map[], tx) == {} && ReceiptsFor(map[], tx) == {}
  {
  }

  /** A batch with a result and a receipt for one transaction. */
  function BothInOneBatch(epoch: uint32, tx: Slice, result: Slice, receipt: Slice): Save {
    Save(epoch, map[result := SmartContractResult(tx)], map[receipt := Receipt(tx)], map[tx := ResultsHashesByTxHash(receipt, [])], {})
  }

  /** From the empty store: the receipt is saved, and the result is in no entry. */
  lemma ReceiptDropsResults(epoch: uint32, tx: Slice, result: Slice, receipt: Slice)
    ensures var save := BothInOneBatch(epoch, tx, result, receipt);
            && save.Valid() && result in HashesFor(save.scrs, tx)
            && RunSaves([save]) == map[tx := ResultsHashesByTxHash(receipt, [])]
  {
    var save := BothInOneBatch(epoch, tx, result, receipt);
    forall other
      ensures HashesFor(save.scrs, other) == if other == tx then {result} else {}
      ensures ReceiptsFor(save.receipts, other) == if other == tx then {receipt} else {}
    {
      OneResult(save.scrs, tx, result, other);
      OneReceipt(save.receipts, tx, receipt, other);
    }
    assert [save][..0] == [];
  }

  function ReceiptOnly(epoch: uint32, tx: Slice, receipt: Slice): Save {
    Save(epoch, map[], map[receipt := Receipt(tx)], map[tx := ResultsHashesByTxHash(receipt, [])], {})
  }

  function ResultOnly(epoch: uint32, tx: Slice, result: Slice): Save {
    Save(epoch, map[result := SmartContractResult(tx)], map[],
         map[tx := ResultsHashesByTxHash([], [ScResultsHashesAndEpoch(epoch, [result])])], {})
  }

  lemma ReceiptOnlyIsValid(epoch: uint32, tx: Slice, receipt: Slice)
    ensures ReceiptOnly(epoch, tx, receipt).Valid()
  {
    var save := ReceiptOnly(epoch, tx, receipt);
    forall other
      ensures HashesFor(save.scrs, other) == {}
      ensures ReceiptsFor(save.receipts, other) == if other == tx then {receipt} else {}
    {
      NoHandlers(other);
      OneReceipt(save.receipts, tx, receipt, other);
    }
  }

  lemma ResultOnlyIsValid(epoch: uint32, tx: Slice, result: Slice)
    ensures ResultOnly(epoch, tx, result).Valid()
  {
    var save := ResultOnly(epoch, tx, result);
    forall other
      ensures ReceiptsFor(save.receipts, other) == {}
      ensures HashesFor(save.scrs, other) == if other == tx then {result} else {}
    {
      NoHandlers(other);
      OneResult(save.scrs, tx, result, other);
    }
  }

  /** From the empty store: the receipt hash is stored, and a later batch with a result only takes it away. */
  lemma LaterBatchDropsReceipt(epoch: uint32, tx: Slice, result: Slice, receipt: Slice)
    ensures var first, second := ReceiptOnly(epoch, tx, receipt), ResultOnly(epoch, tx, result);
            && first.Valid() && second.Valid()
            && RunSaves([first]) == map[tx := ResultsHashesByTxHash(receipt, [])]
            && RunSaves([first, second]) == map[tx := ResultsHashesByTxHash([], [ScResultsHashesAndEpoch(epoch, [result])])]
  {
    var first, second := ReceiptOnly(epoch, tx, receipt), ResultOnly(epoch, tx, result);
    ReceiptOnlyIsValid(epoch, tx, receipt);
    ResultOnlyIsValid(epoch, tx, result);
    assert [first][..0] == [] && [first, second][..1] == [first];
    var entry := ScResultsHashesAndEpoch(epoch, [result]);
    assert [] + [entry] == [entry];
  }
}
