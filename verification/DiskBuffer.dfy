/**
 The disk buffer as the program runs it: a directory holding the log file and
 the cursor file, an append handle, a look-ahead reader opened on demand, and
 positions in memory. Every method is proved against the byte-level operation
 of module `Log`, together with the durable effects it performs.
 */
module DiskBuffers {
  import opened Wrappers
  import opened Bytes
  import opened Frames
  import L = Log

  /** The contents of a file, independent of the name it currently has. */
  class WalFile {
    var data: seq<byte>

    constructor (data: seq<byte>)
      ensures this.data == data
    {
      this.data := data;
    }
  }

  datatype CursorFile = Missing | Unparsable | Position(pos: nat)

  /** An open append handle; after a truncating open it writes at its own offset. */
  datatype Handle = Handle(file: WalFile, append: bool, offset: nat)

  /**
   The buffer directory. A log file that does not exist yet is an empty one.
   Every method changes the disk as exactly the effect it records does.
   */
  class Directory {
    var wal: WalFile
    var cursor: CursorFile
    ghost var effects: seq<L.Effect>

    ghost function Durable(): L.Disk
      reads this, wal
    {
      L.Disk(wal.data, if cursor.Position? then cursor.pos else 0)
    }

    constructor (data: seq<byte>, cursor: CursorFile)
      ensures fresh(wal) && wal.data == data && this.cursor == cursor && effects == []
    {
      wal := new WalFile(data);
      this.cursor := cursor;
      effects := [];
    }

    method WriteAll(h: Handle, s: seq<byte>) returns (h': Handle)
      requires h.file == wal && (h.append || h.offset == |wal.data|)
      modifies this`effects, wal
      ensures wal.data == old(wal.data) + s && h' == h.(offset := h.offset + |s|)
      ensures effects == old(effects) + L.Puts(s)
    {
      wal.data := wal.data + s;
      effects := effects + L.Puts(s);
      h' := h.(offset := h.offset + |s|);
    }

    method SyncData()
      modifies this`effects
      ensures effects == old(effects) + [L.Sync]
      ensures Durable() == L.Apply(old(Durable()), L.Sync)
    {
      effects := effects + [L.Sync];
    }

    /** Write the cursor value aside, sync it, and rename it into place. */
    method WriteCursor(pos: nat)
      modifies this`effects, this`cursor
      ensures cursor == Position(pos)
      ensures effects == old(effects) + [L.SetCursor(pos)]
      ensures Durable() == L.Apply(old(Durable()), L.SetCursor(pos))
    {
      cursor := Position(pos);
      effects := effects + [L.SetCursor(pos)];
    }

    /** Replace the log file by `tmp`: open handles keep the old contents. */
    method RenameOverWal(tmp: WalFile)
      modifies this`effects, this`wal
      ensures wal == tmp
      ensures effects == old(effects) + [L.Rename(tmp.data)]
      ensures Durable() == L.Apply(old(Durable()), L.Rename(tmp.data))
    {
      wal := tmp;
      effects := effects + [L.Rename(tmp.data)];
    }

    method TruncateWal()
      modifies this`effects, wal
      ensures wal.data == []
      ensures effects == old(effects) + [L.Truncate]
      ensures Durable() == L.Apply(old(Durable()), L.Truncate)
    {
      wal.data := [];
      effects := effects + [L.Truncate];
    }
  }

  lemma SliceSplit(s: seq<byte>, a: nat, b: nat, n: nat)
    requires a + n <= b <= |s|
    ensures s[a..b][..n] == s[a..a + n] && s[a..b][n..] == s[a + n..b]
  {
  }

  lemma SliceJoin(s: seq<byte>, a: nat, b: nat, c: nat)
    requires a <= b <= c <= |s|
    ensures s[a..b] + s[b..c] == s[a..c]
  {
  }

  /** A buffered reader: `ahead` holds bytes already read from the file but not yet consumed. */
  class BufReader {
    const file: WalFile
    var offset: nat
    var ahead: seq<byte>

    ghost predicate Valid()
      reads this, file
    {
      && |ahead| <= offset
      && (ahead != [] ==> offset <= |file.data| && ahead == file.data[offset - |ahead|..offset])
    }

    /** The file position of the next byte to be consumed. */
    ghost function At(): int
      reads this
    {
      offset - |ahead|
    }

    constructor (file: WalFile, offset: nat)
      ensures Valid() && this.file == file && At() == offset
    {
      this.file := file;
      this.offset := offset;
      ahead := [];
    }

    /** Read ahead; how far is up to the system. */
    method Refill()
      requires Valid() && offset < |file.data|
      modifies this
      ensures Valid() && At() == old(At()) && ahead != []
    {
      if ahead == [] {
        var k :| 1 <= k <= |file.data| - offset;
        ahead := file.data[offset..offset + k];
        offset := offset + k;
      }
    }

    /** Some of the next bytes, none only at the end of the file. */
    method Read(max: nat) returns (chunk: seq<byte>)
      requires Valid() && max > 0
      modifies this
      ensures Valid() && At() == old(At()) + |chunk| && |chunk| <= max
      ensures chunk == [] <==> old(At()) >= |file.data|
      ensures chunk != [] ==> At() <= |file.data| && chunk == file.data[old(At())..At()]
    {
      if ahead == [] {
        if offset >= |file.data| {
          return [];
        }
        Refill();
      }
      var take := if max <= |ahead| then max else |ahead|;
      SliceSplit(file.data, At(), offset, take);
      chunk := ahead[..take];
      ahead := ahead[take..];
    }

    /** All `n` bytes or, at the end of the file, `None`. */
    method ReadExact(n: nat) returns (r: Option<seq<byte>>)
      requires Valid()
      modifies this
      ensures Valid()
      ensures old(At()) + n <= |file.data| ==> r.Some? && At() == old(At()) + n
      ensures old(At()) + n <= |file.data| ==> r.value == file.data[old(At())..old(At()) + n]
      ensures old(At()) + n > |file.data| && n > 0 ==> r == None
    {
      ghost var p: nat := At();
      var got := [];
      while |got| < n
        invariant Valid() && |got| <= n && At() == p + |got|
        invariant got != [] ==> p + |got| <= |file.data|
        invariant p + |got| <= |file.data| ==> got == file.data[p..p + |got|]
      {
        var chunk := Read(n - |got|);
        if chunk == [] {
          return None;
        }
        SliceJoin(file.data, p, p + |got|, At());
        got := got + chunk;
      }
      r := Some(got);
    }

    /** Skip relative to the logical position; the look-ahead is discarded. */
    method SeekForward(n: nat)
      requires Valid()
      modifies this
      ensures Valid() && At() == old(At()) + n
    {
      offset := offset - |ahead| + n;
      ahead := [];
    }
  }

  /** A frame header, or `None` when fewer than four bytes are left. */
  method ReadFrameHeader(reader: BufReader) returns (len: Option<nat>)
    requires reader.Valid()
    modifies reader
    ensures reader.Valid()
    ensures var p := old(reader.At());
      if p + FRAME_HEADER_LEN <= |reader.file.data|
      then len == Some(Header(reader.file.data[p..])) && reader.At() == p + FRAME_HEADER_LEN
      else len == None
  {
    ghost var p := reader.At();
    var header := reader.ReadExact(FRAME_HEADER_LEN);
    if header.None? {
      return None;
    }
    len := Some(U32At(header.value, 0));
  }

  lemma FromFrom(s: seq<byte>, i: nat, n: nat)
    ensures From(s, i + n) == From(From(s, i), n)
  {
    if i + n <= |s| {
      assert s[i..][n..] == s[i + n..];
    }
  }

  /** Step over one frame without reading its body; `None` at the end or on a corrupt header. */
  method SkipFrame(r: BufReader) returns (n: Option<nat>)
    requires r.Valid()
    modifies r
    ensures r.Valid()
    ensures var rest := From(r.file.data, old(r.At()));
      if |rest| >= FRAME_HEADER_LEN && Header(rest) <= MAX_FRAME_LEN
      then n == Some(FRAME_HEADER_LEN + Header(rest)) && r.At() == old(r.At()) + n.value
      else n == None
  {
    var header := ReadFrameHeader(r);
    if header.None? || header.value > MAX_FRAME_LEN {
      return None;
    }
    r.SeekForward(header.value);
    n := Some(FRAME_HEADER_LEN + header.value);
  }

  datatype OpenError = CursorUnparsable

  lemma FrameParts(data: seq<byte>, effects: seq<L.Effect>, batch: seq<byte>)
    ensures var len := LE32(AsU32(|batch|));
      && (data + len) + batch == data + Encode(batch)
      && (effects + L.Puts(len)) + L.Puts(batch) == effects + L.Puts(Encode(batch))
  {
    var len := LE32(AsU32(|batch|));
    assert L.Puts(len) + L.Puts(batch) == L.Puts(len + batch);
    Assoc(effects, L.Puts(len), L.Puts(batch));
    Assoc(data, len, batch);
  }

  lemma ReadAheadStays(data: seq<byte>, more: seq<byte>, a: nat, b: nat)
    ensures a <= b <= |data| ==> (data + more)[a..b] == data[a..b]
  {
  }

  lemma FromSlice(s: seq<byte>, p: nat, h: nat, n: nat)
    requires p + h + n <= |s|
    ensures s[p..][h..h + n] == s[p + h..p + h + n]
  {
  }

  class DiskBuffer {
    const dir: Directory
    const maxBytes: nat
    var writePos: nat
    var readPos: nat
    var persistedPos: nat
    var walFile: Option<Handle>
    var reader: BufReader?

    /** Positions, cursor and append handle agree with the disk. */
    ghost predicate Placed()
      reads this, dir, dir.wal
    {
      && writePos == |dir.wal.data|
      && persistedPos <= readPos <= writePos
      && persistedPos == dir.Durable().cursor
      && (walFile.Some? ==>
            walFile.value.file == dir.wal && (walFile.value.append || walFile.value.offset == writePos))
    }

    /** ... and the look-ahead reader, when open, stands at the read position of the current file. */
    ghost predicate Valid()
      reads this, dir, dir.wal, reader
    {
      && Placed()
      && (reader != null ==> reader.file == dir.wal && reader.Valid() && reader.At() == readPos)
    }

    /** The buffer as module `Log` sees it: no handles and no look-ahead. */
    ghost function State(): L.Log
      reads this, dir, dir.wal
    {
      L.Log(dir.wal.data, persistedPos, readPos, maxBytes)
    }

    ghost function Repr(): set<object>
      reads this, dir
    {
      {this, dir, dir.wal} + (if reader != null then {reader as object} else {})
    }

    constructor (dir: Directory, maxBytes: nat, cursor: nat)
      requires cursor == dir.Durable().cursor <= |dir.wal.data|
      ensures Valid() && this.dir == dir && reader == null
      ensures State() == L.Log(dir.wal.data, cursor, cursor, maxBytes)
    {
      this.dir := dir;
      this.maxBytes := maxBytes;
      writePos := |dir.wal.data|;
      readPos := cursor;
      persistedPos := cursor;
      walFile := Some(Handle(dir.wal, true, 0));
      reader := null;
    }

    method PersistCursor()
      modifies this`persistedPos, dir`cursor, dir`effects
      ensures persistedPos == readPos == dir.Durable().cursor
      ensures dir.effects == old(dir.effects) + [L.SetCursor(readPos)]
    {
      dir.WriteCursor(readPos);
      persistedPos := readPos;
    }

    method TruncateAll()
      requires Valid()
      modifies Repr()
      ensures Valid() && Repr() <= old(Repr())
      ensures State() == L.Log([], 0, 0, maxBytes)
      ensures dir.effects == old(dir.effects) + [L.Truncate, L.SetCursor(0)]
    {
      walFile := None;
      reader := null;
      dir.TruncateWal();
      walFile := Some(Handle(dir.wal, false, 0));
      writePos := 0;
      readPos := 0;
      PersistCursor();
    }

    /** Copy the unread bytes to a new file and put it in place, then reset the cursor. */
    method RewriteTail()
      requires Valid() && 0 < readPos < writePos
      modifies Repr()
      ensures Valid() && fresh(Repr() - old(Repr()))
      ensures State() == L.Log(old(dir.wal.data[readPos..]), 0, 0, maxBytes)
      ensures dir.effects == old(dir.effects) + [L.Rename(old(dir.wal.data[readPos..])), L.SetCursor(0)]
    {
      hide U32At, LE32;
      var remaining := writePos - readPos;
      var tmp := new WalFile(dir.wal.data[readPos..readPos + remaining]);
      assert tmp.data == dir.wal.data[readPos..];
      walFile := None;
      reader := null;
      dir.RenameOverWal(tmp);
      walFile := Some(Handle(dir.wal, true, 0));
      writePos := remaining;
      readPos := 0;
      PersistCursor();
    }

    method Compact()
      requires Valid()
      modifies Repr()
      ensures Valid() && fresh(Repr() - old(Repr()))
      ensures State() == L.Compact(old(State()))
      ensures dir.effects == old(dir.effects) + L.CompactEffects(old(State()))
    {
      hide U32At, LE32;
      if readPos == 0 {
        return;
      }
      var remaining := writePos - readPos;
      if remaining == 0 {
        TruncateAll();
        return;
      }
      RewriteTail();
    }

    method MaybeCompact()
      requires Valid()
      modifies Repr()
      ensures Valid() && fresh(Repr() - old(Repr()))
      ensures State() == L.MaybeCompact(old(State()))
      ensures dir.effects == old(dir.effects) + L.MaybeCompactEffects(old(State()))
    {
      hide U32At, LE32;
      if writePos == 0 {
        return;
      }
      if 2 * readPos > writePos {
        Compact();
      }
    }

    /** Skip everything that is left: the tail is truncated or corrupt. */
    method ResetToEnd()
      requires Placed()
      modifies this`readPos, this`reader, this`persistedPos, dir`cursor, dir`effects
      ensures Valid() && reader == null
      ensures State() == old(State()).(read := writePos, cursor := writePos)
      ensures dir.effects == old(dir.effects) + [L.SetCursor(writePos)]
    {
      readPos := writePos;
      reader := null;
      PersistCursor();
    }

    /** Open the reader at the read position unless it is still there. */
    method OpenReader() returns (r: BufReader)
      requires Valid()
      modifies this`reader
      ensures Valid() && r == reader && fresh(Repr() - old(Repr()))
      ensures old(reader) != null ==> r == old(reader)
    {
      if reader == null {
        reader := new BufReader(dir.wal, readPos);
      }
      r := reader;
    }

    /** The loop that advances over whole frames until enough is freed. */
    method ScanForward(mustFree: nat) returns (freed: nat)
      requires Valid()
      ensures freed == L.Scan(dir.wal.data[readPos..], mustFree)
    {
      hide U32At, LE32;
      freed := 0;
      var r := new BufReader(dir.wal, readPos);
      ghost var rest := dir.wal.data[readPos..];
      ghost var total := L.Scan(rest, mustFree);
      while freed < mustFree
        invariant r.Valid() && r.file == dir.wal && fresh(r)
        invariant r.At() == readPos + freed && rest == From(dir.wal.data, readPos + freed)
        invariant total == freed + L.Scan(rest, mustFree - freed)
        decreases mustFree - freed
      {
        var skipped := SkipFrame(r);
        if skipped.None? {
          break;
        }
        FromFrom(dir.wal.data, readPos + freed, skipped.value);
        rest := From(rest, skipped.value);
        freed := freed + skipped.value;
      }
    }

    /** Make room for `needed` bytes by advancing over the oldest frames. */
    method EvictIfNeeded(needed: nat) returns (freed: nat)
      requires Valid()
      modifies Repr()
      ensures Valid() && fresh(Repr() - old(Repr()))
      ensures State() == L.Evict(old(State()), needed)
      ensures freed == L.Freed(old(State()), needed)
      ensures dir.effects == old(dir.effects) + L.EvictEffects(old(State()), needed)
    {
      hide U32At, LE32;
      var currentSize := writePos - readPos;
      if currentSize + needed <= maxBytes {
        return 0;
      }
      freed := ScanForward(currentSize + needed - maxBytes);
      readPos := if readPos + freed <= writePos then readPos + freed else writePos;
      reader := null;
      PersistCursor();
      assert State() == L.Skipped(old(State()), needed);
      MaybeCompact();
      Assoc(old(dir.effects), [L.SetCursor(L.Skipped(old(State()), needed).read)],
            L.MaybeCompactEffects(L.Skipped(old(State()), needed)));
    }

    method WriteFrame(batch: seq<byte>)
      requires Valid()
      modifies this`writePos, this`walFile, dir`effects, dir.wal
      ensures Valid()
      ensures State() == old(State()).(wal := old(dir.wal.data) + Encode(batch))
      ensures dir.effects == old(dir.effects) + L.Puts(Encode(batch)) + [L.Sync]
    {
      hide Encode, L.Puts, LE32;
      ghost var data, effects := dir.wal.data, dir.effects;
      if walFile.None? {
        walFile := Some(Handle(dir.wal, true, 0));
      }
      var len := LE32(AsU32(|batch|));
      var h := dir.WriteAll(walFile.value, len);
      h := dir.WriteAll(h, batch);
      dir.SyncData();
      FrameParts(data, effects, batch);
      writePos := writePos + FRAME_HEADER_LEN + |batch|;
      walFile := Some(h);
      if reader != null {
        ReadAheadStays(data, Encode(batch), reader.offset - |reader.ahead|, reader.offset);
      }
    }

    /** Append a frame and sync it, evicting the oldest frames to stay within `maxBytes`. */
    method Append(batch: seq<byte>) returns (evicted: nat)
      requires Valid()
      modifies Repr()
      ensures Valid() && fresh(Repr() - old(Repr()))
      ensures State() == L.Append(old(State()), batch)
      ensures evicted == L.Freed(old(State()), FRAME_HEADER_LEN + |batch|)
      ensures dir.effects == old(dir.effects) + L.AppendEffects(old(State()), batch)
    {
      hide Encode, L.Puts, L.Evict, L.EvictEffects, L.Freed;
      ghost var before, l := dir.effects, State();
      var frameSize := FRAME_HEADER_LEN + |batch|;
      evicted := EvictIfNeeded(frameSize);
      WriteFrame(batch);
      Assoc(before, L.EvictEffects(l, frameSize), L.Puts(Encode(batch)));
      Assoc(before, L.EvictEffects(l, frameSize) + L.Puts(Encode(batch)), [L.Sync]);
    }

    /** The header at the read position; the look-ahead reader moves past it. */
    method ReadHeader() returns (header: Option<nat>)
      requires Valid()
      modifies this`reader, reader
      ensures Placed() && reader != null && reader.file == dir.wal && reader.Valid()
      ensures fresh(Repr() - old(Repr()))
      ensures if |State().Unread()| < FRAME_HEADER_LEN then header == None
              else header == Some(Header(State().Unread())) && reader.At() == readPos + FRAME_HEADER_LEN
    {
      hide U32At, LE32;
      var r := OpenReader();
      header := ReadFrameHeader(r);
    }

    /** The body behind a header just read; the read position moves to the next frame. */
    method ReadBody(len: nat) returns (frame: seq<byte>)
      requires Placed() && reader != null && reader.file == dir.wal && reader.Valid()
      requires reader.At() == readPos + FRAME_HEADER_LEN && readPos + FRAME_HEADER_LEN + len <= writePos
      modifies this`readPos, reader
      ensures Valid() && reader == old(reader)
      ensures State() == old(State()).(read := old(readPos) + FRAME_HEADER_LEN + len)
      ensures frame == old(State().Unread()[FRAME_HEADER_LEN..FRAME_HEADER_LEN + len])
    {
      hide U32At, LE32;
      var body := reader.ReadExact(len);
      FromSlice(dir.wal.data, readPos, FRAME_HEADER_LEN, len);
      readPos := readPos + FRAME_HEADER_LEN + len;
      frame := body.value;
    }

    /** The next frame, `Empty` at the end or on a torn tail, `Corrupt` on an impossible header. */
    method DrainNext() returns (d: L.Drained)
      requires Valid()
      modifies Repr()
      ensures Valid() && fresh(Repr() - old(Repr()))
      ensures State() == L.DrainNext(old(State()))
      ensures d == L.DrainResult(old(State()))
      ensures var u := old(State().Unread());
        && (d.Corrupt? <==> |u| >= 4 && U32At(u, 0) > 0x1000_0000)
        && (d.Got? <==> |u| >= 4 && U32At(u, 0) <= 0x1000_0000 && 4 + U32At(u, 0) <= |u|)
        && (d.Got? ==> d.frame == u[4..4 + U32At(u, 0)])
      ensures dir.effects == old(dir.effects) + L.DrainNextEffects(old(State()))
    {
      hide U32At, LE32;
      if readPos >= writePos {
        return L.Empty;
      }
      var remaining := writePos - readPos;
      var header := ReadHeader();
      if header.None? {
        ResetToEnd();
        return L.Empty;
      }
      var frameLen := header.value;
      if frameLen > MAX_FRAME_LEN {
        ResetToEnd();
        return L.Corrupt;
      }
      if frameLen + FRAME_HEADER_LEN > remaining {
        ResetToEnd();
        return L.Empty;
      }
      var frame := ReadBody(frameLen);
      d := L.Got(frame);
    }

    /** Persist the cursor if it moved, and compact when worthwhile. */
    method Commit()
      requires Valid()
      modifies Repr()
      ensures Valid() && fresh(Repr() - old(Repr()))
      ensures State() == L.Commit(old(State()))
      ensures dir.effects == old(dir.effects) + L.CommitEffects(old(State()))
    {
      hide U32At, LE32;
      if readPos != persistedPos {
        PersistCursor();
      }
      assert State() == L.Persist(old(State()));
      MaybeCompact();
      Assoc(old(dir.effects), L.PersistEffects(old(State())), L.MaybeCompactEffects(L.Persist(old(State()))));
    }

    method IsEmpty() returns (b: bool)
      requires Valid()
      ensures b <==> State().Unread() == []
    {
      b := readPos >= writePos;
    }

    /** Best effort on drop: a clean exit does not send frames again. */
    method Drop()
      requires Valid()
      modifies dir`cursor, dir`effects
      ensures dir.Durable() == L.Persist(old(State())).Durable()
      ensures dir.effects == old(dir.effects) + L.PersistEffects(old(State()))
    {
      if readPos != persistedPos {
        dir.WriteCursor(readPos);
      }
    }
  }

  /** Open or create a buffer in `dir`, recovering both positions. */
  method Open(dir: Directory, maxBytes: nat) returns (r: Result<DiskBuffer, OpenError>)
    modifies dir
    ensures dir.wal == old(dir.wal)
    ensures r.Failure? <==> old(dir.cursor).Unparsable?
    ensures r.Failure? ==> dir.effects == old(dir.effects)
    ensures r.Success? ==>
      && fresh(r.value) && r.value.Valid() && r.value.dir == dir && r.value.reader == null
      && r.value.State() == L.Open(old(dir.Durable()), maxBytes)
      && dir.effects == old(dir.effects) + L.OpenEffects(old(dir.Durable()))
  {
    var cursor := 0;
    match dir.cursor {
      case Missing =>
      case Unparsable => return Failure(CursorUnparsable);
      case Position(pos) => cursor := pos;
    }
    var writePos := |dir.wal.data|;
    if cursor > writePos {
      cursor := writePos;
      dir.WriteCursor(cursor);
    }
    var buf := new DiskBuffer(dir, maxBytes, cursor);
    r := Success(buf);
  }
}
