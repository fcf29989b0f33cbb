/** Flat block and undo files: append-only records, preallocation, rotation, and recovery by scanning. */
module BlockFiles {
  import opened Bytes
  import opened Wire
  import opened Transaction
  import opened Coins

  const MAX_BLOCK_FILE_SIZE: nat := 0x800_0000
  const BLOCK_FILE_CHUNK: nat := 0x100_0000
  const UNDO_FILE_CHUNK: nat := 0x10_0000
  const U32_LIMIT: nat := 0x1_0000_0000

  type Magic = m: seq<byte> | |m| == 4 witness Zeros(4)
  type Files = map<nat, seq<byte>>

  datatype Outcome = Data(data: seq<byte>) | Unavailable | BadOffset

  /** The two families of files, and what the manager remembers between calls. */
  datatype Disk = Disk(
    magic: Magic, blk: Files, rev: Files, file: nat, size: nat, undoSizes: map<nat, nat>)

  // ------------------------------------------------------------- file operations

  function Contents(files: Files, n: nat): seq<byte> { if n in files then files[n] else [] }

  /** The first chunk boundary past `needed`. */
  function Boundary(needed: nat, chunk: nat): (b: nat)
    requires chunk > 0
    ensures needed < b <= needed + chunk && b % chunk == 0
  {
    BoundaryAbove(needed, chunk);
    (needed / chunk + 1) * chunk
  }

  lemma BoundaryAbove(needed: nat, chunk: nat)
    requires chunk > 0
    ensures needed < (needed / chunk + 1) * chunk <= needed + chunk && (needed / chunk + 1) * chunk % chunk == 0
  {
    assert needed == needed / chunk * chunk + needed % chunk;
    DistributeOne(needed / chunk, chunk);
    ModUnique((needed / chunk + 1) * chunk, chunk, needed / chunk + 1, 0);
  }

  lemma DistributeOne(q: nat, chunk: nat)
    ensures (q + 1) * chunk == q * chunk + chunk
  {
  }

  /** `preallocate`: one zero byte at the boundary, and the hole before it reads as zeros. */
  function Preallocated(s: seq<byte>, needed: nat, chunk: nat): (r: seq<byte>)
    requires chunk > 0
    ensures s <= r && |r| > needed && forall i :: |s| <= i < |r| ==> r[i] == 0
  {
    if needed >= |s| then
      var boundary := Boundary(needed, chunk);
      ZerosAreZero(boundary - 1 - |s|);
      s + Zeros(boundary - 1 - |s|) + [0]
    else s
  }

  lemma {:induction false} ZerosAreZero(n: nat)
    ensures forall i :: 0 <= i < n ==> Zeros(n)[i] == 0
  {
    if n > 0 { ZerosAreZero(n - 1); }
  }

  function Overwritten(s: seq<byte>, at: nat, data: seq<byte>): seq<byte>
    requires at + |data| <= |s|
  {
    s[..at] + data + s[at + |data|..]
  }

  /** Magic, little-endian size, payload. */
  function Record(magic: Magic, data: seq<byte>): (r: seq<byte>)
    ensures |r| == 8 + |data|
  {
    magic + LeBytes(4, |data| % U32_LIMIT) + data
  }

  function Written(files: Files, n: nat, at: nat, data: seq<byte>, magic: Magic, chunk: nat): Files
    requires chunk > 0
  {
    files[n := Overwritten(Preallocated(Contents(files, n), at + 8 + |data|, chunk), at, Record(magic, data))]
  }

  /** `set_len`. */
  function Resized(s: seq<byte>, len: nat): seq<byte> { if len <= |s| then s[..len] else s + Zeros(len - |s|) }

  function ReadRecord(files: Files, pos: Pos): Outcome {
    if pos.file !in files then Unavailable
    else
      var s := files[pos.file];
      if pos.offset < 4 then BadOffset
      else if pos.offset > |s| then Unavailable
      else
        var size := LeValue(s[pos.offset - 4..pos.offset]);
        if pos.offset + size > |s| then Unavailable else Data(s[pos.offset..pos.offset + size])
  }

  /** `read_record`: the size in front of the position, then that many bytes. */
  method ReadFrom(files: Files, pos: Pos) returns (r: Outcome)
    ensures r == ReadRecord(files, pos)
  {
    if pos.file !in files { return Unavailable; }
    var file := files[pos.file];
    if pos.offset < 4 { return BadOffset; }
    var sizeAt := pos.offset - 4;
    if sizeAt + 4 > |file| { return Unavailable; }
    var size := LeValue(file[sizeAt..sizeAt + 4]);
    if sizeAt + 4 + size > |file| { return Unavailable; }
    return Data(file[pos.offset..pos.offset + size]);
  }

  // ------------------------------------------------------------------ undo data

  /** A coin on disk: height, coinbase flag, output. */
  function EncodeCoin(c: Coin): seq<byte> { U32(c.height) + ([if c.isCoinbase then 1 else 0] + EncodeOut(c.output)) }

  function ReadCoin(s: seq<byte>): Read<Coin> {
    var (height, s) :- ReadU32(s);
    var (flag, s) :- ReadU8(s);
    var (output, s) :- ReadOut(s);
    Read(Coin(output, height, flag != 0), s)
  }

  /** `BlockUndo`: the coins a block spent, in order. */
  function EncodeUndo(undo: seq<Coin>): seq<byte> { VarList(EncodeCoin, undo) }

  function ReadUndo(s: seq<byte>): Read<seq<Coin>> { ReadVarList(ReadCoin, s) }

  /** Even the undo data of a block that spends nothing has its count byte. */
  lemma UndoIsNotEmpty(undo: seq<Coin>)
    ensures EncodeUndo(undo) != []
  {
    VarIntLength(|undo|);
  }

  ghost predicate FitsUndo(undo: seq<Coin>) {
    && |undo| <= MAX_WIRE_ALLOCATION
    && forall i :: 0 <= i < |undo| ==> |undo[i].output.scriptPubkey| <= MAX_WIRE_ALLOCATION
  }

  lemma CoinRoundTrip(c: Coin)
    requires |c.output.scriptPubkey| <= MAX_WIRE_ALLOCATION
    ensures RoundTrips(EncodeCoin, ReadCoin, c, c)
  {
    hide EncodeOut, ReadOut, ReadU32, U32;
    OutRoundTrip(c.output);
    forall rest: seq<byte> ensures ReadCoin(EncodeCoin(c) + rest) == Read(c, rest) {
      var s2 := EncodeOut(c.output) + rest;
      var s1 := [if c.isCoinbase then 1 else 0] + s2;
      assert EncodeCoin(c) + rest == U32(c.height) + s1;
      U32RoundTrip(c.height, s1);
      assert s1[1..] == s2;
    }
  }

  /** Four bytes of height, one of flag, then the output. */
  lemma CoinLayout(c: Coin)
    ensures var s := EncodeCoin(c);
      && |s| > 5 && LeValue(s[0..4]) == c.height
      && s[4] == (if c.isCoinbase then 1 else 0) && s[5..] == EncodeOut(c.output)
  {
    hide LeValue, LeBytes, Pow, VarBytes;
    SmallPowers();
    LeBytesValue(4, c.height);
    var s := EncodeCoin(c);
    assert s[0..4] == LeBytes(4, c.height) && s[5..] == EncodeOut(c.output);
  }

  lemma UndoRoundTrip(undo: seq<Coin>)
    requires FitsUndo(undo)
    ensures ReadUndo(EncodeUndo(undo)) == Read(undo, [])
  {
    hide EncodeCoin, ReadCoin, VarList, ReadVarList;
    forall i | 0 <= i < |undo| ensures RoundTrips(EncodeCoin, ReadCoin, undo[i], undo[i]) { CoinRoundTrip(undo[i]); }
    ListRoundTrip(EncodeCoin, ReadCoin, undo, undo, []);
    assert VarList(EncodeCoin, undo) + [] == VarList(EncodeCoin, undo);
  }

  // ------------------------------------------------------------------ operations

  /** Rotate if the record would not fit: the old file keeps exactly its used bytes. */
  function Rotated(d: Disk, len: nat): Disk {
    if d.size + len > MAX_BLOCK_FILE_SIZE && d.size > 0
    then d.(blk := d.blk[d.file := Resized(Contents(d.blk, d.file), d.size)], file := d.file + 1, size := 0)
    else d
  }

  function WroteBlock(d: Disk, data: seq<byte>): (Disk, Pos) {
    var r := Rotated(d, 8 + |data|);
    (r.(blk := Written(r.blk, r.file, r.size, data, r.magic, BLOCK_FILE_CHUNK), size := r.size + 8 + |data|),
     Pos(r.file, (r.size + 8) % U32_LIMIT))
  }

  /** Where the records of an undo file end, as the scan on startup finds it. */
  function UsedFrom(s: seq<byte>, magic: Magic, at: nat): nat
    decreases |s| - at
  {
    if at + 8 > |s| || s[at..at + 4] != magic then at
    else
      var size := LeValue(s[at + 4..at + 8]);
      if size == 0 || at + 8 + size > |s| then at else UsedFrom(s, magic, at + 8 + size)
  }

  function UndoEnd(d: Disk, n: nat): nat {
    if n in d.undoSizes then d.undoSizes[n] else UsedFrom(Contents(d.rev, n), d.magic, 0)
  }

  function StoredUndo(d: Disk, n: nat, data: seq<byte>): (Disk, Pos) {
    var at := UndoEnd(d, n);
    (d.(rev := Written(d.rev, n, at, data, d.magic, UNDO_FILE_CHUNK), undoSizes := d.undoSizes[n := at + 8 + |data|]),
     Pos(n, (at + 8) % U32_LIMIT))
  }

  /** A restart at the current file: the preallocated tail now counts as used, and undo sizes are forgotten. */
  function Reopened(d: Disk): Disk { d.(size := |Contents(d.blk, d.file)|, undoSizes := map[]) }

  // -------------------------------------------------------------------- the class

  class BlockFileManager {
    const magic: Magic
    var blk: Files
    var rev: Files
    var currentFile: nat
    var currentSize: nat
    var undoSizes: map<nat, nat>

    ghost function View(): Disk
      reads this
    {
      Disk(magic, blk, rev, currentFile, currentSize, undoSizes)
    }

    /** Open the files found on disk, resuming at `lastFile`. */
    constructor (magic: Magic, blk: Files, rev: Files, lastFile: nat)
      ensures View() == Reopened(Disk(magic, blk, rev, lastFile, 0, map[]))
    {
      this.magic, this.blk, this.rev, currentFile := magic, blk, rev, lastFile;
      currentSize := if lastFile in blk then |blk[lastFile]| else 0;
      undoSizes := map[];
    }

    /** `write_block`. */
    method WriteBlock(raw: seq<byte>) returns (pos: Pos)
      modifies this`blk, this`currentFile, this`currentSize
      ensures (View(), pos) == WroteBlock(old(View()), raw)
    {
      var recordLen := 8 + |raw|;
      if currentSize + recordLen > MAX_BLOCK_FILE_SIZE && currentSize > 0 {
        blk := blk[currentFile := Resized(Contents(blk, currentFile), currentSize)];
        currentFile := currentFile + 1;
        currentSize := 0;
      }
      var writeAt := currentSize;
      var file := Preallocated(Contents(blk, currentFile), writeAt + recordLen, BLOCK_FILE_CHUNK);
      blk := blk[currentFile := Overwritten(file, writeAt, Record(magic, raw))];
      currentSize := currentSize + recordLen;
      pos := Pos(currentFile, (writeAt + 8) % U32_LIMIT);
    }

    /** `used_size`. */
    method UsedSize(n: nat) returns (offset: nat)
      ensures offset == UsedFrom(Contents(rev, n), magic, 0)
    {
      if n !in rev { return 0; }
      var file := rev[n];
      offset := 0;
      while offset + 8 <= |file|
        invariant UsedFrom(file, magic, 0) == UsedFrom(file, magic, offset)
        decreases |file| - offset
      {
        var header := file[offset..offset + 8];
        assert header[..4] == file[offset..offset + 4] && header[4..8] == file[offset + 4..offset + 8];
        if header[..4] != magic { break; }
        var size := LeValue(header[4..8]);
        if size == 0 || offset + 8 + size > |file| { break; }
        offset := offset + 8 + size;
      }
    }

    /** `write_undo`. */
    method WriteUndo(n: nat, data: seq<byte>, undoSize: nat) returns (pos: Pos, newSize: nat)
      modifies this`rev
      ensures rev == Written(old(rev), n, undoSize, data, magic, UNDO_FILE_CHUNK)
      ensures pos == Pos(n, (undoSize + 8) % U32_LIMIT) && newSize == undoSize + 8 + |data|
    {
      var file := Preallocated(Contents(rev, n), undoSize + 8 + |data|, UNDO_FILE_CHUNK);
      rev := rev[n := Overwritten(file, undoSize, Record(magic, data))];
      pos, newSize := Pos(n, (undoSize + 8) % U32_LIMIT), undoSize + 8 + |data|;
    }

    /** Append undo data at the tracked size of its file or, when that is unknown, at the scanned one. */
    method AppendUndo(n: nat, data: seq<byte>) returns (pos: Pos)
      modifies this`rev, this`undoSizes
      ensures (View(), pos) == StoredUndo(old(View()), n, data)
    {
      hide Written, UsedFrom;
      var size;
      if n in undoSizes { size := undoSizes[n]; } else { size := UsedSize(n); }
      var newSize;
      pos, newSize := WriteUndo(n, data, size);
      undoSizes := undoSizes[n := newSize];
    }

    /**
     * `handle_store_undo`: encode the coins, append them to the undo file of the block's own file, and note the
     * position in the index entry that the next flush writes.
     */
    method StoreUndo(store: Store, hash: Hash, undo: seq<Coin>) returns (ok: bool)
      modifies this`rev, this`undoSizes, store`pendingUndo
      ensures var entry := EntryOf(old(store.pendingUndo), store.index, hash);
        && ok == (entry.Some? && entry.value.filePos.Some?)
        && (!ok ==> View() == old(View()) && store.pendingUndo == old(store.pendingUndo))
        && (ok ==>
          var (after, pos) := StoredUndo(old(View()), entry.value.filePos.value.file, EncodeUndo(undo));
          && View() == after
          && store.pendingUndo == old(store.pendingUndo)[hash := entry.value.(undoPos := Some(pos))])
    {
      hide StoredUndo, EncodeUndo;
      var entry := if hash in store.pendingUndo then Some(store.pendingUndo[hash])
                   else if hash in store.index then Some(store.index[hash]) else None;
      if entry.None? || entry.value.filePos.None? { return false; }
      var pos := AppendUndo(entry.value.filePos.value.file, EncodeUndo(undo));
      store.pendingUndo := store.pendingUndo[hash := entry.value.(undoPos := Some(pos))];
      return true;
    }
  }

  /** What the manager knows of a block: an entry that waits for the next flush, or the stored one. */
  function EntryOf(pending: map<Hash, IndexEntry>, index: map<Hash, IndexEntry>, hash: Hash): Option<IndexEntry> {
    if hash in pending then Some(pending[hash]) else if hash in index then Some(index[hash]) else None
  }

  // ------------------------------------------------------------------- single writes

  /** A record lying in its file below `limit`, header included. */
  ghost predicate Lies(files: Files, pos: Pos, data: seq<byte>, magic: Magic, limit: nat) {
    && pos.file in files && pos.offset >= 8 && pos.offset + |data| <= limit <= |files[pos.file]|
    && files[pos.file][pos.offset - 8..pos.offset + |data|] == Record(magic, data)
  }

  lemma LyingReadsBack(files: Files, pos: Pos, data: seq<byte>, magic: Magic, limit: nat)
    requires Lies(files, pos, data, magic, limit) && |data| < U32_LIMIT
    ensures ReadRecord(files, pos) == Data(data)
  {
    hide LeValue, Record;
    var s, at := files[pos.file], pos.offset - 8;
    var r := Record(magic, data);
    assert s[..at] + r <= s by { assert s[..at] + s[at..pos.offset + |data|] == s[..pos.offset + |data|]; }
    RecordHeader(magic, data);
    InPlace(s, s[..at], r, 4, 8);
    InPlace(s, s[..at], r, 8, |r|);
  }

  lemma SamePart(s: seq<byte>, t: seq<byte>, limit: nat, i: nat, j: nat)
    requires i <= j <= limit <= |s| && limit <= |t| && s[..limit] == t[..limit]
    ensures s[i..j] == t[i..j]
  {
    assert forall k :: 0 <= k < limit ==> s[k] == s[..limit][k] && t[k] == t[..limit][k];
  }

  /** A write beyond a record, or into another file, leaves the record alone. */
  lemma WriteKeeps(
    files: Files, n: nat, at: nat, data: seq<byte>, magic: Magic, chunk: nat, pos: Pos, kept: seq<byte>, limit: nat)
    requires chunk > 0 && Lies(files, pos, kept, magic, limit) && (pos.file == n ==> limit <= at)
    ensures Lies(Written(files, n, at, data, magic, chunk), pos, kept, magic, limit)
  {
    hide Preallocated, Record;
    if pos.file == n {
      var s := files[n];
      var p := Preallocated(s, at + 8 + |data|, chunk);
      var t := Overwritten(p, at, Record(magic, data));
      assert t[..limit] == p[..limit] == s[..limit];
      SamePart(s, t, limit, pos.offset - 8, pos.offset + |kept|);
    }
  }

  lemma WriteLies(files: Files, n: nat, at: nat, data: seq<byte>, magic: Magic, chunk: nat)
    requires chunk > 0
    ensures Lies(Written(files, n, at, data, magic, chunk), Pos(n, at + 8), data, magic, at + 8 + |data|)
    ensures at + 8 + |data| <= |Contents(Written(files, n, at, data, magic, chunk), n)|
  {
    hide Preallocated, Record;
  }

  lemma ResizeKeeps(files: Files, n: nat, len: nat, pos: Pos, kept: seq<byte>, magic: Magic, limit: nat)
    requires Lies(files, pos, kept, magic, limit) && n in files && (pos.file == n ==> limit <= len)
    ensures Lies(files[n := Resized(files[n], len)], pos, kept, magic, limit)
  {
    hide Record;
    var s := files[n];
    if pos.file == n {
      var t := Resized(s, len);
      assert t[..limit] == s[..limit];
      SamePart(s, t, limit, pos.offset - 8, pos.offset + |kept|);
    }
  }

  // --------------------------------------------------------- what the scan recovers

  /** Records laid end to end. */
  function Laid(magic: Magic, payloads: seq<seq<byte>>): seq<byte> {
    if payloads == [] then [] else Laid(magic, payloads[..|payloads| - 1]) + Record(magic, payloads[|payloads| - 1])
  }

  ghost predicate ZeroFrom(s: seq<byte>, at: nat) { forall i :: at <= i < |s| ==> s[i] == 0 }

  ghost predicate SmallPayloads(payloads: seq<seq<byte>>) { forall p :: p in payloads ==> |p| < U32_LIMIT }

  /** The payloads before the first empty one. */
  function BeforeEmpty(payloads: seq<seq<byte>>): (r: seq<seq<byte>>)
    ensures r <= payloads && [] !in r
  {
    if payloads == [] || payloads[0] == [] then [] else [payloads[0]] + BeforeEmpty(payloads[1..])
  }

  lemma {:induction false} LaidPrefix(magic: Magic, payloads: seq<seq<byte>>, k: nat)
    requires k <= |payloads|
    ensures Laid(magic, payloads[..k]) <= Laid(magic, payloads)
  {
    if k < |payloads| {
      var init := payloads[..|payloads| - 1];
      assert init[..k] == payloads[..k];
      LaidPrefix(magic, init, k);
    } else {
      assert payloads[..k] == payloads;
    }
  }

  lemma LaidNext(magic: Magic, payloads: seq<seq<byte>>, k: nat)
    requires k < |payloads|
    ensures Laid(magic, payloads[..k + 1]) == Laid(magic, payloads[..k]) + Record(magic, payloads[k])
  {
    assert payloads[..k + 1][..k] == payloads[..k];
  }

  lemma RecordHeader(magic: Magic, data: seq<byte>)
    requires |data| < U32_LIMIT
    ensures Record(magic, data)[0..4] == magic && LeValue(Record(magic, data)[4..8]) == |data|
    ensures Record(magic, data)[8..|Record(magic, data)|] == data
  {
    hide LeValue, LeBytes, Pow;
    SmallPowers();
    LeBytesValue(4, |data|);
    assert Record(magic, data)[4..8] == LeBytes(4, |data|);
  }

  lemma ZeroHeader(s: seq<byte>, at: nat)
    requires at + 8 <= |s| && ZeroFrom(s, at)
    ensures LeValue(s[at + 4..at + 8]) == 0
  {
    ValueZeros(256, s[at + 4..at + 8]);
  }

  lemma UsedStep(s: seq<byte>, magic: Magic, at: nat, size: nat)
    requires at + 8 + size <= |s| && s[at..at + 4] == magic && LeValue(s[at + 4..at + 8]) == size
    ensures UsedFrom(s, magic, at) == if size == 0 then at else UsedFrom(s, magic, at + 8 + size)
  {
    hide LeValue;
  }

  lemma InPlace(s: seq<byte>, done: seq<byte>, r: seq<byte>, i: nat, j: nat)
    requires done + r <= s && i <= j <= |r|
    ensures s[|done| + i..|done| + j] == r[i..j]
  {
    var both := done + r;
    assert both[|done| + i..|done| + j] == r[i..j];
    assert s[..|both|] == both;
  }

  lemma HeaderAt(s: seq<byte>, magic: Magic, done: seq<byte>, data: seq<byte>)
    requires done + Record(magic, data) <= s && |data| < U32_LIMIT
    ensures var at := |done|;
      at + 8 + |data| <= |s| && s[at..at + 4] == magic && LeValue(s[at + 4..at + 8]) == |data|
  {
    hide *;
    RecordHeader(magic, data);
    InPlace(s, done, Record(magic, data), 0, 4);
    InPlace(s, done, Record(magic, data), 4, 8);
  }

  lemma ScanStops(s: seq<byte>, magic: Magic, at: nat)
    requires ZeroFrom(s, at) && at <= |s|
    ensures UsedFrom(s, magic, at) == at
  {
    hide LeValue;
    if at + 8 <= |s| { ZeroHeader(s, at); }
  }

  lemma {:induction false} ScanFrom(s: seq<byte>, magic: Magic, payloads: seq<seq<byte>>, k: nat)
    requires SmallPayloads(payloads) && k <= |payloads|
    requires Laid(magic, payloads) <= s && ZeroFrom(s, |Laid(magic, payloads)|)
    ensures UsedFrom(s, magic, |Laid(magic, payloads[..k])|)
      == |Laid(magic, payloads[..k + |BeforeEmpty(payloads[k..])|])|
    decreases |payloads| - k
  {
    hide Laid, UsedFrom, Record, LeValue;
    if k == |payloads| {
      assert payloads[..k] == payloads;
      ScanStops(s, magic, |Laid(magic, payloads)|);
    } else {
      var done := Laid(magic, payloads[..k]);
      LaidNext(magic, payloads, k);
      LaidPrefix(magic, payloads, k + 1);
      assert payloads[k] in payloads;
      HeaderAt(s, magic, done, payloads[k]);
      UsedStep(s, magic, |done|, |payloads[k]|);
      if payloads[k] != [] {
        ScanFrom(s, magic, payloads, k + 1);
        assert payloads[k..][1..] == payloads[k + 1..];
      }
    }
  }

  lemma {:induction false} BeforeEmptyAll(payloads: seq<seq<byte>>)
    ensures |BeforeEmpty(payloads)| == |payloads| <==> [] !in payloads
  {
    if payloads != [] { BeforeEmptyAll(payloads[1..]); }
  }

  /**
   * The scan over a file of records with a zero tail ends at the first empty payload, so it recovers the
   * tracked length exactly when no payload is empty. This needs nothing of the magic: a zero header stops the
   * scan by its size.
   */
  lemma UsedSizeIsExact(s: seq<byte>, magic: Magic, payloads: seq<seq<byte>>)
    requires SmallPayloads(payloads) && Laid(magic, payloads) <= s && ZeroFrom(s, |Laid(magic, payloads)|)
    ensures UsedFrom(s, magic, 0) == |Laid(magic, BeforeEmpty(payloads))|
    ensures UsedFrom(s, magic, 0) == |Laid(magic, payloads)| <==> [] !in payloads
  {
    hide UsedFrom, Record;
    ScanFrom(s, magic, payloads, 0);
    assert payloads[0..] == payloads;
    assert payloads[..0] == [];
    BeforeEmptyAll(payloads);
    var n := |BeforeEmpty(payloads)|;
    assert payloads[..n] == BeforeEmpty(payloads);
    if n < |payloads| {
      LaidNext(magic, payloads, n);
      LaidPrefix(magic, payloads, n + 1);
    } else {
      assert payloads[..n] == payloads;
    }
  }

  // ------------------------------------------------------------------------ runs

  datatype Op = WriteBlock(data: seq<byte>) | StoreUndo(file: nat, undo: seq<Coin>) | Reopen

  /** A position handed out, and the bytes it was handed out for. */
  datatype Receipt = Receipt(undo: bool, pos: Pos, data: seq<byte>)

  function Apply(d: Disk, op: Op): Disk {
    match op
    case WriteBlock(data) => WroteBlock(d, data).0
    case StoreUndo(n, undo) => StoredUndo(d, n, EncodeUndo(undo)).0
    case Reopen => Reopened(d)
  }

  function ReceiptsOf(d: Disk, op: Op): seq<Receipt> {
    match op
    case WriteBlock(data) => [Receipt(false, WroteBlock(d, data).1, data)]
    case StoreUndo(n, undo) => [Receipt(true, StoredUndo(d, n, EncodeUndo(undo)).1, EncodeUndo(undo))]
    case Reopen => []
  }

  function Fresh(magic: Magic): Disk { Disk(magic, map[], map[], 0, 0, map[]) }

  function After(magic: Magic, ops: seq<Op>): Disk {
    if ops == [] then Fresh(magic) else Apply(After(magic, ops[..|ops| - 1]), ops[|ops| - 1])
  }

  function Receipts(magic: Magic, ops: seq<Op>): seq<Receipt> {
    if ops == [] then []
    else Receipts(magic, ops[..|ops| - 1]) + ReceiptsOf(After(magic, ops[..|ops| - 1]), ops[|ops| - 1])
  }

  /** The undo payloads a run puts in file `n`, in order. */
  function UndoPayloads(ops: seq<Op>, n: nat): seq<seq<byte>> {
    if ops == [] then []
    else
      var last := ops[|ops| - 1];
      UndoPayloads(ops[..|ops| - 1], n) + if last.StoreUndo? && last.file == n then [EncodeUndo(last.undo)] else []
  }

  /** The length of what an operation writes. */
  function PayloadLength(op: Op): nat {
    match op
    case WriteBlock(data) => |data|
    case StoreUndo(_, undo) => |EncodeUndo(undo)|
    case Reopen => 0
  }

  /** Payload lengths fit a u32, and no undo file outgrows u32 offsets. */
  ghost predicate Reasonable(magic: Magic, ops: seq<Op>) {
    && (forall i :: 0 <= i < |ops| ==> PayloadLength(ops[i]) < U32_LIMIT)
    && (forall n :: |Laid(magic, UndoPayloads(ops, n))| < U32_LIMIT)
  }

  ghost predicate BlkOk(d: Disk) {
    && (forall n :: n > d.file ==> n !in d.blk)
    && d.size <= |Contents(d.blk, d.file)|
  }

  /** An undo file is exactly its records, then zeros. */
  ghost predicate UndoFileOk(d: Disk, n: nat, payloads: seq<seq<byte>>) {
    && Laid(d.magic, payloads) <= Contents(d.rev, n) && ZeroFrom(Contents(d.rev, n), |Laid(d.magic, payloads)|)
    && (n in d.undoSizes ==> d.undoSizes[n] == |Laid(d.magic, payloads)|)
    && SmallPayloads(payloads) && [] !in payloads
  }

  ghost predicate RevOk(d: Disk, ops: seq<Op>) { forall n :: UndoFileOk(d, n, UndoPayloads(ops, n)) }

  /** A block record lies below the point where writing goes on, or anywhere in a finished file. */
  ghost predicate BlockKept(d: Disk, pos: Pos, data: seq<byte>) {
    && |data| < U32_LIMIT && pos.file <= d.file
    && Lies(d.blk, pos, data, d.magic, if pos.file == d.file then d.size else |Contents(d.blk, pos.file)|)
  }

  ghost predicate UndoKept(d: Disk, pos: Pos, data: seq<byte>, end: nat) {
    |data| < U32_LIMIT && Lies(d.rev, pos, data, d.magic, end)
  }

  lemma RotatedOk(d: Disk, len: nat)
    requires BlkOk(d)
    ensures var r := Rotated(d, len);
      && BlkOk(r) && (r.size == 0 || r.size + len <= MAX_BLOCK_FILE_SIZE)
      && r == d.(blk := r.blk, file := r.file, size := r.size)
  {
  }

  /** It rotates exactly when the record would overflow a file that is not empty, and cuts that to its used part. */
  lemma RotatesExactly(d: Disk, len: nat)
    requires BlkOk(d)
    ensures var r := Rotated(d, len);
      && (r == d <==> d.size == 0 || d.size + len <= MAX_BLOCK_FILE_SIZE)
      && (r != d ==>
        && r.file == d.file + 1 && r.size == 0
        && Contents(r.blk, d.file) == Contents(d.blk, d.file)[..d.size])
  {
  }

  lemma RotatedKeeps(d: Disk, len: nat, pos: Pos, data: seq<byte>)
    requires BlkOk(d) && BlockKept(d, pos, data)
    ensures BlockKept(Rotated(d, len), pos, data)
  {
    hide Record, Lies;
    if d.size + len > MAX_BLOCK_FILE_SIZE && d.size > 0 {
      ResizeKeeps(d.blk, d.file, d.size, pos, data, d.magic,
                  if pos.file == d.file then d.size else |Contents(d.blk, pos.file)|);
    }
  }

  lemma WroteBlockOk(d: Disk, data: seq<byte>)
    requires BlkOk(d) && |data| < U32_LIMIT
    ensures var (e, pos) := WroteBlock(d, data);
      && BlkOk(e) && e == d.(blk := e.blk, file := e.file, size := e.size)
      && BlockKept(e, pos, data)
  {
    hide Preallocated, Record, Rotated, Lies;
    RotatedOk(d, 8 + |data|);
    var r := Rotated(d, 8 + |data|);
    WriteLies(r.blk, r.file, r.size, data, r.magic, BLOCK_FILE_CHUNK);
    ModSmall(r.size + 8, U32_LIMIT);
  }

  lemma WroteBlockKeeps(d: Disk, data: seq<byte>, pos: Pos, kept: seq<byte>)
    requires BlkOk(d) && BlockKept(d, pos, kept)
    ensures BlockKept(WroteBlock(d, data).0, pos, kept)
  {
    hide Preallocated, Record, Rotated, Lies, Written;
    RotatedOk(d, 8 + |data|);
    RotatedKeeps(d, 8 + |data|, pos, kept);
    var r := Rotated(d, 8 + |data|);
    var limit := if pos.file == r.file then r.size else |Contents(r.blk, pos.file)|;
    WriteKeeps(r.blk, r.file, r.size, data, r.magic, BLOCK_FILE_CHUNK, pos, kept, limit);
    var e := WroteBlock(d, data).0;
    WriteLies(r.blk, r.file, r.size, data, r.magic, BLOCK_FILE_CHUNK);
    if pos.file == r.file {
      Higher(e.blk, pos, kept, e.magic, r.size, e.size);
    } else {
      OtherFiles(r.blk, r.file, r.size, data, r.magic, BLOCK_FILE_CHUNK, pos.file);
    }
  }

  lemma OtherFiles(files: Files, n: nat, at: nat, data: seq<byte>, magic: Magic, chunk: nat, m: nat)
    requires chunk > 0 && m != n
    ensures Contents(Written(files, n, at, data, magic, chunk), m) == Contents(files, m)
  {
  }

  /** Records stay where they are when the limit moves up, as long as it stays within the file. */
  lemma Higher(files: Files, pos: Pos, data: seq<byte>, magic: Magic, limit: nat, higher: nat)
    requires Lies(files, pos, data, magic, limit) && limit <= higher
    ensures higher <= |Contents(files, pos.file)| ==> Lies(files, pos, data, magic, higher)
  {
    hide Record;
  }

  lemma ReopenedOk(d: Disk, pos: Pos, data: seq<byte>)
    requires BlkOk(d)
    ensures BlkOk(Reopened(d)) && (BlockKept(d, pos, data) ==> BlockKept(Reopened(d), pos, data))
  {
    hide Record, Lies;
    if BlockKept(d, pos, data) && pos.file == d.file {
      Higher(d.blk, pos, data, d.magic, d.size, |Contents(d.blk, d.file)|);
    }
  }

  /** The tracked size, or the scan after a restart: either way the end of the records. */
  lemma UndoEndIsExact(d: Disk, n: nat, payloads: seq<seq<byte>>)
    requires UndoFileOk(d, n, payloads)
    ensures UndoEnd(d, n) == |Laid(d.magic, payloads)|
  {
    hide Laid, UsedFrom, SmallPayloads;
    if n !in d.undoSizes { UsedSizeIsExact(Contents(d.rev, n), d.magic, payloads); }
  }

  /** Appending at the end of the records, in front of the zeros, appends a record. */
  lemma AppendRecord(s: seq<byte>, laid: seq<byte>, r: seq<byte>, chunk: nat)
    requires chunk > 0 && laid <= s && ZeroFrom(s, |laid|)
    ensures var t := Overwritten(Preallocated(s, |laid| + |r|, chunk), |laid|, r);
      laid + r <= t && ZeroFrom(t, |laid| + |r|)
  {
    hide Preallocated;
    var p := Preallocated(s, |laid| + |r|, chunk);
    assert p[..|laid|] == laid;
    assert forall i :: |laid| <= i < |p| ==> p[i] == 0;
  }

  lemma StoredUndoOk(d: Disk, n: nat, data: seq<byte>, payloads: seq<seq<byte>>)
    requires UndoFileOk(d, n, payloads) && 0 < |data| < U32_LIMIT
    ensures UndoFileOk(StoredUndo(d, n, data).0, n, payloads + [data])
  {
    hide UsedFrom, Record, Preallocated, Overwritten;
    UndoEndIsExact(d, n, payloads);
    var laid := Laid(d.magic, payloads);
    assert (payloads + [data])[..|payloads|] == payloads;
    assert Laid(d.magic, payloads + [data]) == laid + Record(d.magic, data);
    AppendRecord(Contents(d.rev, n), laid, Record(d.magic, data), UNDO_FILE_CHUNK);
  }

  lemma StoredUndoElsewhere(d: Disk, n: nat, data: seq<byte>, m: nat, payloads: seq<seq<byte>>)
    requires m != n && UndoFileOk(d, m, payloads)
    ensures UndoFileOk(StoredUndo(d, n, data).0, m, payloads)
  {
    hide UsedFrom, Record, Preallocated, Overwritten, Laid;
  }

  lemma StoredUndoReceipt(d: Disk, n: nat, data: seq<byte>, payloads: seq<seq<byte>>)
    requires UndoFileOk(d, n, payloads) && 0 < |data| < U32_LIMIT
    requires |Laid(d.magic, payloads + [data])| < U32_LIMIT
    ensures var (e, pos) := StoredUndo(d, n, data); UndoKept(e, pos, data, |Laid(d.magic, payloads + [data])|)
  {
    hide UsedFrom, Record, Written, Lies;
    UndoEndIsExact(d, n, payloads);
    var laid := Laid(d.magic, payloads);
    assert (payloads + [data])[..|payloads|] == payloads;
    WriteLies(d.rev, n, |laid|, data, d.magic, UNDO_FILE_CHUNK);
    ModSmall(|laid| + 8, U32_LIMIT);
  }

  lemma StoredUndoKeeps(d: Disk, n: nat, data: seq<byte>, payloads: seq<seq<byte>>, pos: Pos, kept: seq<byte>, end: nat)
    requires UndoFileOk(d, n, payloads) && UndoKept(d, pos, kept, end)
    requires pos.file == n ==> end == |Laid(d.magic, payloads)|
    ensures pos.file != n ==> UndoKept(StoredUndo(d, n, data).0, pos, kept, end)
    ensures pos.file == n ==> UndoKept(StoredUndo(d, n, data).0, pos, kept, |Laid(d.magic, payloads + [data])|)
  {
    hide UsedFrom, Record, Written, Lies;
    UndoEndIsExact(d, n, payloads);
    assert (payloads + [data])[..|payloads|] == payloads;
    var at := |Laid(d.magic, payloads)|;
    WriteKeeps(d.rev, n, at, data, d.magic, UNDO_FILE_CHUNK, pos, kept, end);
    WriteLies(d.rev, n, at, data, d.magic, UNDO_FILE_CHUNK);
    if pos.file == n { Higher(StoredUndo(d, n, data).0.rev, pos, kept, d.magic, end, at + 8 + |data|); }
  }

  /** What every run keeps: both families well formed, and every receipt still good. */
  ghost predicate ReceiptOk(d: Disk, ops: seq<Op>, r: Receipt) {
    if r.undo then UndoKept(d, r.pos, r.data, |Laid(d.magic, UndoPayloads(ops, r.pos.file))|)
    else BlockKept(d, r.pos, r.data)
  }

  ghost predicate AllOk(magic: Magic, ops: seq<Op>) {
    var d := After(magic, ops);
    && d.magic == magic && BlkOk(d) && RevOk(d, ops)
    && forall r :: r in Receipts(magic, ops) ==> ReceiptOk(d, ops, r)
  }

  lemma StepBlock(d: Disk, ops: seq<Op>, data: seq<byte>, r: Receipt)
    requires BlkOk(d) && |data| < U32_LIMIT
    requires ReceiptOk(d, ops, r) || r == Receipt(false, WroteBlock(d, data).1, data)
    ensures ReceiptOk(WroteBlock(d, data).0, ops + [WriteBlock(data)], r)
  {
    hide BlkOk, BlockKept, WroteBlock, Laid, Lies;
    WroteBlockOk(d, data);
    assert (ops + [WriteBlock(data)])[..|ops|] == ops;
    if r.undo {
      assert UndoPayloads(ops + [WriteBlock(data)], r.pos.file) == UndoPayloads(ops, r.pos.file);
    } else if ReceiptOk(d, ops, r) {
      WroteBlockKeeps(d, data, r.pos, r.data);
    }
  }

  lemma StepUndo(d: Disk, ops: seq<Op>, n: nat, undo: seq<Coin>, r: Receipt)
    requires UndoFileOk(d, n, UndoPayloads(ops, n)) && |EncodeUndo(undo)| < U32_LIMIT
    requires |Laid(d.magic, UndoPayloads(ops + [StoreUndo(n, undo)], n))| < U32_LIMIT
    requires ReceiptOk(d, ops, r) || r == Receipt(true, StoredUndo(d, n, EncodeUndo(undo)).1, EncodeUndo(undo))
    ensures ReceiptOk(StoredUndo(d, n, EncodeUndo(undo)).0, ops + [StoreUndo(n, undo)], r)
  {
    hide UndoFileOk, UndoKept, Laid, UndoEnd, Written, Lies, EncodeUndo;
    var data := EncodeUndo(undo);
    UndoIsNotEmpty(undo);
    var more := ops + [StoreUndo(n, undo)];
    assert more[..|ops|] == ops;
    var before := UndoPayloads(ops, n);
    assert UndoPayloads(more, n) == before + [data];
    StoredUndoReceipt(d, n, data, before);
    if ReceiptOk(d, ops, r) && r.undo {
      StoredUndoKeeps(d, n, data, before, r.pos, r.data, |Laid(d.magic, UndoPayloads(ops, r.pos.file))|);
      if r.pos.file != n { assert UndoPayloads(more, r.pos.file) == UndoPayloads(ops, r.pos.file); }
    }
  }

  lemma StepReopen(d: Disk, ops: seq<Op>, r: Receipt)
    requires BlkOk(d) && ReceiptOk(d, ops, r)
    ensures ReceiptOk(Reopened(d), ops + [Reopen], r)
  {
    hide BlkOk, BlockKept, Laid, Lies;
    ReopenedOk(d, r.pos, r.data);
    assert (ops + [Reopen])[..|ops|] == ops;
    assert UndoPayloads(ops + [Reopen], r.pos.file) == UndoPayloads(ops, r.pos.file);
  }

  /** Both families stay well formed. */
  lemma StepFiles(d: Disk, ops: seq<Op>, op: Op)
    requires BlkOk(d) && RevOk(d, ops)
    requires PayloadLength(op) < U32_LIMIT
    ensures var e := Apply(d, op); e.magic == d.magic && BlkOk(e) && RevOk(e, ops + [op])
  {
    hide BlkOk, WroteBlock, Laid, UndoEnd, Written, ZeroFrom, SmallPayloads, Reopened, EncodeUndo;
    var e := Apply(d, op);
    var more := ops + [op];
    assert more[..|ops|] == ops;
    match op {
      case WriteBlock(data) => WroteBlockOk(d, data);
      case Reopen => ReopenShape(d);
      case StoreUndo(n, undo) =>
        SameBlocks(d, e);
        UndoIsNotEmpty(undo);
    }
    forall m ensures UndoFileOk(e, m, UndoPayloads(more, m)) {
      assert UndoFileOk(d, m, UndoPayloads(ops, m));
      match op {
        case WriteBlock(data) => assert UndoPayloads(more, m) == UndoPayloads(ops, m);
        case Reopen => assert UndoPayloads(more, m) == UndoPayloads(ops, m);
        case StoreUndo(n, undo) =>
          if m == n { StoredUndoOk(d, n, EncodeUndo(undo), UndoPayloads(ops, n)); }
          else {
            StoredUndoElsewhere(d, n, EncodeUndo(undo), m, UndoPayloads(ops, m));
            assert UndoPayloads(more, m) == UndoPayloads(ops, m);
          }
      }
    }
  }

  lemma ReopenShape(d: Disk)
    requires BlkOk(d)
    ensures BlkOk(Reopened(d)) && Reopened(d) == d.(size := Reopened(d).size, undoSizes := map[])
  {
  }

  lemma SameBlocks(d: Disk, e: Disk)
    requires e.blk == d.blk && e.file == d.file && e.size == d.size
    ensures BlkOk(e) == BlkOk(d)
  {
  }

  lemma UndoGrows(magic: Magic, ops: seq<Op>, n: nat)
    requires ops != []
    ensures |Laid(magic, UndoPayloads(ops[..|ops| - 1], n))| <= |Laid(magic, UndoPayloads(ops, n))|
  {
    var before, after := UndoPayloads(ops[..|ops| - 1], n), UndoPayloads(ops, n);
    assert after[..|before|] == before;
    LaidPrefix(magic, after, |before|);
  }

  lemma ReasonablePrefix(magic: Magic, ops: seq<Op>)
    requires ops != [] && Reasonable(magic, ops)
    ensures Reasonable(magic, ops[..|ops| - 1])
  {
    hide Laid, UndoPayloads;
    var before := ops[..|ops| - 1];
    forall n ensures |Laid(magic, UndoPayloads(before, n))| < U32_LIMIT {
      UndoGrows(magic, ops, n);
      assert |Laid(magic, UndoPayloads(ops, n))| < U32_LIMIT;
    }
  }

  lemma StepReceipt(d: Disk, ops: seq<Op>, op: Op, r: Receipt)
    requires BlkOk(d) && RevOk(d, ops) && (ReceiptOk(d, ops, r) || r in ReceiptsOf(d, op))
    requires PayloadLength(op) < U32_LIMIT
    requires forall n :: |Laid(d.magic, UndoPayloads(ops + [op], n))| < U32_LIMIT
    ensures ReceiptOk(Apply(d, op), ops + [op], r)
  {
    hide BlkOk, ReceiptOk, WroteBlock, StoredUndo, Reopened, Laid, UndoPayloads, UndoFileOk, EncodeUndo;
    match op
    case WriteBlock(data) => StepBlock(d, ops, data, r);
    case StoreUndo(n, undo) => StepUndo(d, ops, n, undo, r);
    case Reopen => StepReopen(d, ops, r);
  }

  lemma FreshOk(magic: Magic)
    ensures AllOk(magic, [])
  {
    assert forall n :: UndoPayloads([], n) == [];
  }

  lemma {:induction false} EveryRunIsOk(magic: Magic, ops: seq<Op>)
    requires Reasonable(magic, ops)
    ensures AllOk(magic, ops)
  {
    hide Reasonable, BlkOk, RevOk, ReceiptOk, Apply, ReceiptsOf, Laid, UndoPayloads;
    if ops == [] {
      FreshOk(magic);
    } else {
      var before, op := ops[..|ops| - 1], ops[|ops| - 1];
      ReasonablePrefix(magic, ops);
      EveryRunIsOk(magic, before);
      var d := After(magic, before);
      assert before + [op] == ops;
      OpOk(magic, ops);
      StepFiles(d, before, op);
      forall r | r in Receipts(magic, ops) ensures ReceiptOk(Apply(d, op), ops, r) {
        StepReceipt(d, before, op, r);
      }
    }
  }

  lemma OpOk(magic: Magic, ops: seq<Op>)
    requires ops != [] && Reasonable(magic, ops)
    ensures PayloadLength(ops[|ops| - 1]) < U32_LIMIT
    ensures forall n :: |Laid(magic, UndoPayloads(ops, n))| < U32_LIMIT
  {
    hide Laid, UndoPayloads;
  }

  /** Every position a run hands out, whenever it did, reads back its own bytes at the end. */
  lemma EveryReceiptReadsBack(magic: Magic, ops: seq<Op>, r: Receipt)
    requires Reasonable(magic, ops) && r in Receipts(magic, ops)
    ensures var d := After(magic, ops); ReadRecord(if r.undo then d.rev else d.blk, r.pos) == Data(r.data)
  {
    hide Reasonable, After, Receipts, ReadRecord, Lies, BlkOk, RevOk;
    EveryRunIsOk(magic, ops);
    var d := After(magic, ops);
    assert ReceiptOk(d, ops, r);
    var limit := if r.undo then |Laid(d.magic, UndoPayloads(ops, r.pos.file))|
                 else if r.pos.file == d.file then d.size else |Contents(d.blk, r.pos.file)|;
    LyingReadsBack(if r.undo then d.rev else d.blk, r.pos, r.data, d.magic, limit);
  }

  /** And each undo file is the run's records in order, then zeros, with its end known or found by the scan. */
  lemma UndoFilesAreRecords(magic: Magic, ops: seq<Op>, n: nat)
    requires Reasonable(magic, ops)
    ensures var d := After(magic, ops); var laid := Laid(magic, UndoPayloads(ops, n));
      laid <= Contents(d.rev, n) && ZeroFrom(Contents(d.rev, n), |laid|) && UndoEnd(d, n) == |laid|
  {
    hide Reasonable, After, Receipts, UndoEnd, BlkOk, ReceiptOk, Laid, UndoPayloads;
    EveryRunIsOk(magic, ops);
    var d := After(magic, ops);
    assert UndoFileOk(d, n, UndoPayloads(ops, n));
    UndoEndIsExact(d, n, UndoPayloads(ops, n));
  }

  /** Undo coins written at any time in a run decode to themselves at its end. */
  lemma UndoReadsBack(magic: Magic, ops: seq<Op>, r: Receipt, undo: seq<Coin>)
    requires Reasonable(magic, ops) && r in Receipts(magic, ops)
    requires r.undo && r.data == EncodeUndo(undo) && FitsUndo(undo)
    ensures var read := ReadRecord(After(magic, ops).rev, r.pos); read.Data? && ReadUndo(read.data) == Read(undo, [])
  {
    hide Reasonable, After, Receipts, ReadRecord, EncodeUndo, ReadUndo;
    EveryReceiptReadsBack(magic, ops, r);
    UndoRoundTrip(undo);
  }

  /**
   * `write_undo` and `used_size` alone promise less: an empty payload, which no encoded undo is, would be written
   * over by the next record after a restart, at the very position it was given.
   */
  lemma EmptyPayloadIsLost(magic: Magic, data: seq<byte>)
    requires 0 < |data| < U32_LIMIT
    ensures var once := Written(map[], 0, 0, [], magic, UNDO_FILE_CHUNK);
      var at := UsedFrom(once[0], magic, 0);
      && ReadRecord(once, Pos(0, 8)) == Data([])
      && at == 0 && ReadRecord(Written(once, 0, at, data, magic, UNDO_FILE_CHUNK), Pos(0, at + 8)) == Data(data)
  {
    hide UsedFrom, Written, ReadRecord, Lies;
    LostScan([], magic);
    var once := Written(map[], 0, 0, [], magic, UNDO_FILE_CHUNK);
    WriteLies(map[], 0, 0, [], magic, UNDO_FILE_CHUNK);
    LyingReadsBack(once, Pos(0, 8), [], magic, 8);
    WriteLies(once, 0, 0, data, magic, UNDO_FILE_CHUNK);
    LyingReadsBack(Written(once, 0, 0, data, magic, UNDO_FILE_CHUNK), Pos(0, 8), data, magic, 8 + |data|);
  }

  lemma LostScan(none: seq<byte>, magic: Magic)
    requires none == []
    ensures 0 in Written(map[], 0, 0, none, magic, UNDO_FILE_CHUNK)
    ensures UsedFrom(Written(map[], 0, 0, none, magic, UNDO_FILE_CHUNK)[0], magic, 0) == 0
  {
    hide Record, Preallocated, UsedFrom, Overwritten;
    assert [none][..0] == [];
    assert Laid(magic, [none]) == Record(magic, none);
    AppendRecord([], [], Record(magic, none), UNDO_FILE_CHUNK);
    assert [] + Record(magic, none) == Record(magic, none);
    UsedSizeIsExact(Written(map[], 0, 0, none, magic, UNDO_FILE_CHUNK)[0], magic, [none]);
    assert BeforeEmpty([none]) == [];
  }
}
