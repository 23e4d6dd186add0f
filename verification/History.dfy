/**
 * The history repository as a function of its state: hash to epoch, (epoch, hash) to record, transaction to
 * miniblock, the deduplication cache, and the three maps of notarization notifications still to be applied.
 */
module History {
  import opened Words
  import opened Schemas

  /** `core.MetachainShardId` and `block.PeerBlock`, constants of mx-chain-core-go. */
  const METACHAIN: uint32 := 0xFFFF_FFFF
  const PEER_BLOCK: int32 := 60

  datatype Header = Header(hash: Slice, epoch: uint32, round: uint64, nonce: uint64)

  /** A miniblock of a recorded block, with the hash computed from it. */
  datatype Miniblock = Miniblock(hash: Slice, blockType: int32, sender: uint32, receiver: uint32, txHashes: seq<Slice>)

  datatype MiniblockHeader = MiniblockHeader(hash: Slice, blockType: int32, sender: uint32, receiver: uint32)
  datatype ShardData = ShardData(shardID: uint32, miniblocks: seq<MiniblockHeader>)
  datatype NotarizedHeader = MetaBlock(nonce: uint64, miniblocks: seq<MiniblockHeader>, shardInfo: seq<ShardData>) | OtherHeader

  datatype Notification = Notification(metaNonce: uint64, metaHash: Slice)

  /** Which pending map a notification waits in. */
  datatype Place = Source | Destination | Both

  /** One notification for one miniblock. */
  datatype Note = Note(place: Place, hash: Slice, notification: Notification)

  datatype Key = Key(epoch: uint32, hash: Slice)

  datatype State = State(
    epochs: map<Slice, uint32>,
    records: map<Key, MiniblockMetadata>,
    txs: map<Slice, Slice>,
    dedup: set<string>,
    source: map<Slice, Notification>,
    destination: map<Slice, Notification>,
    both: map<Slice, Notification>)
  {
    function Pending(place: Place): map<Slice, Notification> {
      match place
      case Source => source
      case Destination => destination
      case Both => both
    }

    function WithPending(place: Place, pending: map<Slice, Notification>): State {
      match place
      case Source => this.(source := pending)
      case Destination => this.(destination := pending)
      case Both => this.(both := pending)
    }

    /** `getMiniblockMetadataByMiniblockHash(h)` succeeds. */
    predicate Readable(h: Slice) {
      h in epochs && Key(epochs[h], h) in records
    }
  }

  const INITIAL := State(map[], map[], map[], {}, map[], map[], map[])

  /** What the surroundings do during one call: writes that fail, and keys the LRU cache drops when one is put in. */
  datatype Env = Env(epochPutFails: set<Slice>, recordPutFails: set<Slice>, txPutFails: set<Slice>, evicted: set<string>)

  // ---------- the deduplication key ----------

  function Digit(n: nat): char
    requires n < 16
  {
    "0123456789abcdef"[n]
  }

  function Decimal(n: nat): string {
    if n < 10 then [Digit(n)] else Decimal(n / 10) + [Digit(n % 10)]
  }

  function Hex(b: bytes): string {
    if b == [] then [] else [Digit(b[0] / 16), Digit(b[0] % 16)] + Hex(b[1..])
  }

  /** `fmt.Sprintf("%d_%x", epoch, miniblockHash)`. */
  function DedupKey(k: Key): string {
    Decimal(k.epoch) + "_" + Hex(k.hash)
  }

  lemma {:induction false} DecimalHasNoUnderscore(n: nat)
    ensures '_' !in Decimal(n) && |Decimal(n)| >= 1
  {
    if n >= 10 {
      DecimalHasNoUnderscore(n / 10);
    }
  }

  lemma DigitIsInjective(m: nat, n: nat)
    requires m < 16 && n < 16 && Digit(m) == Digit(n)
    ensures m == n
  {
  }

  lemma {:induction false} DecimalIsInjective(m: nat, n: nat)
    requires Decimal(m) == Decimal(n)
    ensures m == n
    decreases m
  {
    var d := Decimal(m);
    DecimalEnds(m);
    DecimalEnds(n);
    DigitIsInjective(m % 10, n % 10);
    if |d| > 1 {
      DecimalIsInjective(m / 10, n / 10);
    }
  }

  lemma DecimalEnds(n: nat)
    ensures var d := Decimal(n);
            && |d| >= 1 && d[|d| - 1] == Digit(n % 10)
            && (|d| == 1 <==> n < 10)
            && (|d| > 1 ==> d[..|d| - 1] == Decimal(n / 10))
  {
    DecimalHasNoUnderscore(n / 10);
  }

  lemma {:induction false} HexIsInjective(a: bytes, b: bytes)
    requires Hex(a) == Hex(b)
    ensures a == b
  {
    if a != [] && b != [] {
      HexStarts(a);
      HexStarts(b);
      DigitIsInjective(a[0] / 16, b[0] / 16);
      DigitIsInjective(a[0] % 16, b[0] % 16);
      HexIsInjective(a[1..], b[1..]);
      assert a == [a[0]] + a[1..] && b == [b[0]] + b[1..];
    }
  }

  lemma HexStarts(a: bytes)
    requires a != []
    ensures |Hex(a)| >= 2 && Hex(a)[0] == Digit(a[0] / 16) && Hex(a)[1] == Digit(a[0] % 16) && Hex(a)[2..] == Hex(a[1..])
  {
  }

  lemma SplitAtUnderscore(d: string, x: string, e: string, y: string)
    requires '_' !in d && '_' !in e && d + "_" + x == e + "_" + y
    ensures d == e && x == y
  {
    var s := d + "_" + x;
    assert s == d + ("_" + x) && s == e + ("_" + y);
    assert s[|d|] == '_' && s[|e|] == '_';
    assert |d| == |e|;
    assert d == s[..|d|] == e;
    assert x == s[|d| + 1..] == y;
  }

  /** No two (epoch, hash) pairs share a deduplication key. */
  lemma DedupKeyIsInjective(k: Key, l: Key)
    requires DedupKey(k) == DedupKey(l)
    ensures k == l
  {
    DecimalHasNoUnderscore(k.epoch);
    DecimalHasNoUnderscore(l.epoch);
    SplitAtUnderscore(Decimal(k.epoch), Hex(k.hash), Decimal(l.epoch), Hex(l.hash));
    DecimalIsInjective(k.epoch, l.epoch);
    HexIsInjective(k.hash, l.hash);
  }

  /** Decimal epoch, underscore, lower-case hexadecimal hash. */
  lemma DedupKeyExample()
    ensures DedupKey(Key(120, [0xAB, 0x01])) == "120_ab01"
  {
    assert Decimal(12) == Decimal(1) + [Digit(2)];
    var b: bytes := [0xAB, 0x01];
    assert b[1..] == [0x01] && b[1..][1..] == [];
    assert Hex(b[1..]) == "01";
  }

  // ---------- recording blocks ----------

  /** The record of a miniblock that has not been notarized. */
  function FreshRecord(hdr: Header, mb: Miniblock): MiniblockMetadata {
    MiniblockMetadata(mb.sender, mb.receiver, hdr.round, hdr.nonce, hdr.hash, mb.hash, [], hdr.epoch, 0, 0, [], [], mb.blockType)
  }

  function IndexTxs(txs: map<Slice, Slice>, txHashes: seq<Slice>, h: Slice, fails: set<Slice>): map<Slice, Slice> {
    if txHashes == [] then txs
    else
      var (init, last) := (txHashes[..|txHashes| - 1], txHashes[|txHashes| - 1]);
      var txs' := IndexTxs(txs, init, h, fails);
      if last in fails then txs' else txs'[last := h]
  }

  function RecordMiniblock(st: State, hdr: Header, mb: Miniblock, env: Env): State {
    var key := Key(hdr.epoch, mb.hash);
    if DedupKey(key) in st.dedup || mb.hash in env.epochPutFails then st
    else
      var st1 := st.(epochs := st.epochs[mb.hash := hdr.epoch]);
      if mb.hash in env.recordPutFails then st1
      else
        st1.(records := st1.records[key := FreshRecord(hdr, mb)],
             dedup := st1.dedup - env.evicted + {DedupKey(key)},
             txs := IndexTxs(st1.txs, mb.txHashes, mb.hash, env.txPutFails))
  }

  function RecordAll(st: State, hdr: Header, mbs: seq<Miniblock>, env: Env): State {
    if mbs == [] then st
    else RecordMiniblock(RecordAll(st, hdr, mbs[..|mbs| - 1], env), hdr, mbs[|mbs| - 1], env)
  }

  /** The body's miniblocks that are recorded: peer miniblocks are not. */
  function NonPeer(mbs: seq<Miniblock>): seq<Miniblock> {
    if mbs == [] then []
    else
      var last := mbs[|mbs| - 1];
      NonPeer(mbs[..|mbs| - 1]) + if last.blockType == PEER_BLOCK then [] else [last]
  }

  /** The miniblocks of a block in the order they are recorded; those created intra-shard are not filtered. */
  function Recorded(body: seq<Miniblock>, intraShard: seq<Miniblock>): seq<Miniblock> {
    NonPeer(body) + intraShard
  }

  function RecordBlock(st: State, hdr: Header, body: seq<Miniblock>, intraShard: seq<Miniblock>, env: Env): State {
    if hdr.hash in env.epochPutFails then st
    else RecordAll(st.(epochs := st.epochs[hdr.hash := hdr.epoch]), hdr, Recorded(body, intraShard), env)
  }

  // ---------- notifications ----------

  /** Where the notification of a miniblock in a block of `shard` goes, if the node's shard is concerned at all. */
  function Classify(self: uint32, shard: uint32, mb: MiniblockHeader): Option<Place> {
    var iDontCare := (mb.sender != self && mb.receiver != self) || mb.blockType == PEER_BLOCK;
    if iDontCare then None
    else if mb.sender == mb.receiver || mb.receiver == METACHAIN then Some(Both)
    else if mb.sender == shard then Some(Source)
    else if mb.receiver == shard then Some(Destination)
    else None
  }

  function NoteOf(self: uint32, n: Notification, shard: uint32, mb: MiniblockHeader): seq<Note> {
    match Classify(self, shard, mb)
    case None => []
    case Some(place) => [Note(place, mb.hash, n)]
  }

  function NotesOfMiniblocks(self: uint32, n: Notification, shard: uint32, mbs: seq<MiniblockHeader>): seq<Note> {
    if mbs == [] then []
    else NotesOfMiniblocks(self, n, shard, mbs[..|mbs| - 1]) + NoteOf(self, n, shard, mbs[|mbs| - 1])
  }

  /** The shard blocks of a metablock; the genesis metablock notarizes none. */
  function NotesOfShards(self: uint32, n: Notification, shards: seq<ShardData>): seq<Note> {
    if shards == [] then []
    else
      var last := shards[|shards| - 1];
      NotesOfShards(self, n, shards[..|shards| - 1]) +
      if n.metaNonce < 1 then [] else NotesOfMiniblocks(self, n, last.shardID, last.miniblocks)
  }

  function NotesOfHeader(self: uint32, header: NotarizedHeader, hash: Slice): seq<Note> {
    match header
    case OtherHeader => []
    case MetaBlock(nonce, miniblocks, shardInfo) =>
      var n := Notification(nonce, hash);
      NotesOfMiniblocks(self, n, METACHAIN, miniblocks) + NotesOfShards(self, n, shardInfo)
  }

  function NotesOf(self: uint32, headers: seq<NotarizedHeader>, hashes: seq<Slice>): seq<Note>
    requires |headers| <= |hashes|
  {
    if headers == [] then []
    else
      var k := |headers| - 1;
      NotesOf(self, headers[..k], hashes) + NotesOfHeader(self, headers[k], hashes[k])
  }

  /** A newer notification for the same map and miniblock replaces the one waiting. */
  function Enqueue(st: State, note: Note): State {
    st.WithPending(note.place, st.Pending(note.place)[note.hash := note.notification])
  }

  function EnqueueAll(st: State, notes: seq<Note>): State {
    if notes == [] then st
    else Enqueue(EnqueueAll(st, notes[..|notes| - 1]), notes[|notes| - 1])
  }

  // ---------- consuming ----------

  function Patch(md: MiniblockMetadata, place: Place, n: Notification): MiniblockMetadata {
    match place
    case Source => md.(notarizedAtSourceInMetaNonce := n.metaNonce, notarizedAtSourceInMetaHash := n.metaHash)
    case Destination => md.(notarizedAtDestinationInMetaNonce := n.metaNonce, notarizedAtDestinationInMetaHash := n.metaHash)
    case Both => md.(notarizedAtSourceInMetaNonce := n.metaNonce, notarizedAtSourceInMetaHash := n.metaHash,
                     notarizedAtDestinationInMetaNonce := n.metaNonce, notarizedAtDestinationInMetaHash := n.metaHash)
  }

  /** One turn of the consuming loop. */
  function ConsumeOne(st: State, place: Place, h: Slice, env: Env): State {
    var pending := st.Pending(place);
    if h !in pending || !st.Readable(h) || h in env.recordPutFails then st
    else
      var md := Patch(st.records[Key(st.epochs[h], h)], place, pending[h]);
      st.(records := st.records[Key(md.epoch, h) := md]).WithPending(place, pending - {h})
  }

  /** The loop over a snapshot of the map's keys, in the order they come. */
  function ConsumeInOrder(st: State, place: Place, keys: seq<Slice>, env: Env): State {
    if keys == [] then st
    else ConsumeOne(ConsumeInOrder(st, place, keys[..|keys| - 1], env), place, keys[|keys| - 1], env)
  }

  predicate Consumable(st: State, place: Place, h: Slice, env: Env) {
    h in st.Pending(place) && st.Readable(h) && h !in env.recordPutFails
  }

  function ConsumedRecords(st: State, place: Place, keys: set<Slice>, env: Env): map<Key, MiniblockMetadata> {
    map k | k in st.records ::
      if k.hash in keys && Consumable(st, place, k.hash, env) && st.epochs[k.hash] == k.epoch
      then Patch(st.records[k], place, st.Pending(place)[k.hash]) else st.records[k]
  }

  function ConsumedPending(st: State, place: Place, keys: set<Slice>, env: Env): map<Slice, Notification> {
    map h | h in st.Pending(place) && !(h in keys && Consumable(st, place, h, env)) :: st.Pending(place)[h]
  }

  /** The same without an order: every waiting notification among `keys` with a readable record is applied to it and leaves. */
  function ConsumeKeys(st: State, place: Place, keys: set<Slice>, env: Env): State {
    st.(records := ConsumedRecords(st, place, keys, env)).WithPending(place, ConsumedPending(st, place, keys, env))
  }

  function ConsumePlace(st: State, place: Place, env: Env): State {
    ConsumeKeys(st, place, st.Pending(place).Keys, env)
  }

  /** The source map first, then the destination map, then the map for both. */
  function Consume(st: State, env: Env): State {
    ConsumePlace(ConsumePlace(ConsumePlace(st, Source, env), Destination, env), Both, env)
  }

  function OnNotarizedBlocks(st: State, self: uint32, headers: seq<NotarizedHeader>, hashes: seq<Slice>, env: Env): State
    requires |headers| <= |hashes|
  {
    Consume(EnqueueAll(st, NotesOf(self, headers, hashes)), env)
  }

  // ---------- lookups ----------

  function LookupByHash(st: State, h: Slice): Option<MiniblockMetadata> {
    if st.Readable(h) then Some(st.records[Key(st.epochs[h], h)]) else None
  }

  function LookupByTx(st: State, tx: Slice): Option<MiniblockMetadata> {
    if tx in st.txs then LookupByHash(st, st.txs[tx]) else None
  }

  // ---------- what every operation keeps, whatever fails ----------

  /** A record is stored under its own epoch and hash. */
  ghost predicate AgreesWith(md: MiniblockMetadata, k: Key) {
    md.epoch == k.epoch && md.miniblockHash == k.hash && md.InMemory()
  }

  ghost predicate RecordsAgree(st: State) {
    forall k :: k in st.records ==> AgreesWith(st.records[k], k)
  }

  lemma RecordMiniblockAgrees(st: State, hdr: Header, mb: Miniblock, env: Env)
    requires RecordsAgree(st)
    ensures RecordsAgree(RecordMiniblock(st, hdr, mb, env))
  {
    var key := Key(hdr.epoch, mb.hash);
    assert AgreesWith(FreshRecord(hdr, mb), key);
    var st' := RecordMiniblock(st, hdr, mb, env);
    assert st'.records == st.records || st'.records == st.records[key := FreshRecord(hdr, mb)];
  }

  lemma {:induction false} RecordAllAgrees(st: State, hdr: Header, mbs: seq<Miniblock>, env: Env)
    requires RecordsAgree(st)
    ensures RecordsAgree(RecordAll(st, hdr, mbs, env))
  {
    if mbs != [] {
      RecordAllAgrees(st, hdr, mbs[..|mbs| - 1], env);
      RecordMiniblockAgrees(RecordAll(st, hdr, mbs[..|mbs| - 1], env), hdr, mbs[|mbs| - 1], env);
    }
  }

  lemma ConsumeKeysAgrees(st: State, place: Place, keys: set<Slice>, env: Env)
    requires RecordsAgree(st)
    ensures RecordsAgree(ConsumeKeys(st, place, keys, env))
  {
  }

  lemma {:induction false} EnqueueAllKeepsStores(st: State, notes: seq<Note>)
    ensures var st' := EnqueueAll(st, notes);
            st'.epochs == st.epochs && st'.records == st.records && st'.txs == st.txs && st'.dedup == st.dedup
  {
    if notes != [] {
      EnqueueAllKeepsStores(st, notes[..|notes| - 1]);
    }
  }

  // ---------- consuming in any order ----------

  /** Taking one more key after a set of others is taking them all together. */
  lemma OneMoreKey(st: State, place: Place, keys: set<Slice>, h: Slice, env: Env)
    requires RecordsAgree(st) && h !in keys
    ensures ConsumeOne(ConsumeKeys(st, place, keys, env), place, h, env) == ConsumeKeys(st, place, keys + {h}, env)
  {
    OneMoreRecord(st, place, keys, h, env);
    OneLessPending(st, place, keys, h, env);
    var some := ConsumeKeys(st, place, keys, env);
    assert Consumable(some, place, h, env) <==> Consumable(st, place, h, env);
  }

  lemma OneMoreRecord(st: State, place: Place, keys: set<Slice>, h: Slice, env: Env)
    requires RecordsAgree(st) && h !in keys
    ensures ConsumedRecords(st, place, keys + {h}, env) ==
            var records := ConsumedRecords(st, place, keys, env);
            if !Consumable(st, place, h, env) then records
            else
              var key := Key(st.epochs[h], h);
              records[key := Patch(records[key], place, st.Pending(place)[h])]
    ensures Consumable(st, place, h, env) ==>
            var key := Key(st.epochs[h], h);
            ConsumedRecords(st, place, keys, env)[key].epoch == key.epoch
  {
  }

  lemma OneLessPending(st: State, place: Place, keys: set<Slice>, h: Slice, env: Env)
    requires h !in keys
    ensures ConsumedPending(st, place, keys + {h}, env) ==
            if Consumable(st, place, h, env) then ConsumedPending(st, place, keys, env) - {h} else ConsumedPending(st, place, keys, env)
  {
  }

  lemma NoKeys(st: State, place: Place, env: Env)
    ensures ConsumeKeys(st, place, {}, env) == st
  {
    var st' := ConsumeKeys(st, place, {}, env);
    assert st'.records == st.records;
    assert st'.Pending(place) == st.Pending(place);
  }

  ghost predicate NoDuplicates(keys: seq<Slice>) {
    forall i, j :: 0 <= i < j < |keys| ==> keys[i] != keys[j]
  }

  function SetOf(keys: seq<Slice>): set<Slice> {
    set h | h in keys
  }

  /** The loop's result depends on the keys only, not on their order. */
  lemma {:induction false} ConsumingIgnoresOrder(st: State, place: Place, keys: seq<Slice>, env: Env)
    requires RecordsAgree(st) && NoDuplicates(keys)
    ensures ConsumeInOrder(st, place, keys, env) == ConsumeKeys(st, place, SetOf(keys), env)
  {
    if keys == [] {
      NoKeys(st, place, env);
    } else {
      var k := |keys| - 1;
      ConsumingIgnoresOrder(st, place, keys[..k], env);
      OneMoreKey(st, place, SetOf(keys[..k]), keys[k], env);
      assert SetOf(keys) == SetOf(keys[..k]) + {keys[k]};
    }
  }

  lemma NothingToConsume(st: State, place: Place, keys: set<Slice>, env: Env)
    requires forall h :: h in keys ==> !Consumable(st, place, h, env)
    ensures ConsumeKeys(st, place, keys, env) == st
  {
    assert ConsumedRecords(st, place, keys, env) == st.records;
    assert ConsumedPending(st, place, keys, env) == st.Pending(place);
  }

  lemma ConsumingKeepsReadability(st: State, place: Place, keys: set<Slice>, env: Env, h: Slice)
    ensures ConsumeKeys(st, place, keys, env).Readable(h) <==> st.Readable(h)
  {
    assert ConsumedRecords(st, place, keys, env).Keys == st.records.Keys;
  }

  /** After a pass the keys left are exactly those without a readable record or whose write failed, and another pass changes nothing. */
  lemma ConsumingIsExact(st: State, place: Place, env: Env)
    ensures var st' := ConsumePlace(st, place, env);
            && (forall h :: h in st'.Pending(place) <==> h in st.Pending(place) && (!st.Readable(h) || h in env.recordPutFails))
            && (forall h :: h in st'.Pending(place) ==> st'.Pending(place)[h] == st.Pending(place)[h])
            && ConsumePlace(st', place, env) == st'
  {
    var st' := ConsumePlace(st, place, env);
    forall h | h in st'.Pending(place)
      ensures !Consumable(st', place, h, env)
    {
      ConsumingKeepsReadability(st, place, st.Pending(place).Keys, env, h);
    }
    NothingToConsume(st', place, st'.Pending(place).Keys, env);
  }
}
