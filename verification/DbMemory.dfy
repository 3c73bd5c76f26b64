/** Memory kept in a database row: every change is written through to the stored blob
    (simpleworld/dbmemory.cpp over simpleworld/db/blob.cpp), on a little-endian host. */
module DbMemoryModel {
  import opened Words
  import opened MemoryModel

  /** Where a blob is stored, and the sizes the table takes. */
  datatype Table = Codes | RegisterFiles

  predicate Takes(table: Table, size: nat) {
    match table case Codes => size > 0 && size % 4 == 0 case RegisterFiles => size == 544
  }

  /** A blob column of one row. */
  class Blob {
    const table: Table
    var data: Bytes

    ghost predicate Stored()
      reads this
    {
      Takes(table, |data|)
    }

    constructor (table: Table, data: Bytes)
      requires Takes(table, |data|)
      ensures Stored() && this.table == table && this.data == data
    {
      this.table, this.data := table, data;
    }

    /** Replace the whole blob, unless the table refuses the size. */
    method Write(data: Bytes) returns (ok: bool)
      modifies this
      ensures ok <==> Takes(table, |data|)
      ensures this.data == if ok then data else old(this.data)
    {
      ok := Takes(table, |data|);
      if ok {
        this.data := data;
      }
    }

    /** Replace `|part|` bytes from `offset`; the size of a blob cannot change this way. */
    method WriteAt(part: Bytes, offset: Word) returns (ok: bool)
      modifies this
      ensures ok <==> offset + |part| <= |old(data)|
      ensures data == if ok then old(data)[..offset] + part + old(data)[offset + |part|..] else old(data)
    {
      ok := offset + |part| <= |data|;
      if ok {
        data := data[..offset] + part + data[offset + |part|..];
      }
    }
  }

  /** The bytes of a word as the host stores them. */
  function NativeBytes(w: Word): Bytes {
    [ByteOf(w, 3), ByteOf(w, 2), ByteOf(w, 1), ByteOf(w, 0)]
  }

  function NativeHalfBytes(h: HalfWord): Bytes {
    [h % 0x100, h / 0x100]
  }

  /** What a word write stores, and what is written to the blob beside it, are the same bytes. */
  lemma WrittenWord(m: Bytes, a: Word, value: Word)
    requires InRange(m, a, 4)
    ensures PutWord(m, a, value) == m[..a] + NativeBytes(Swap(value)) + m[a + 4..]
    ensures PutWord(m, a, Swap(value)) == m[..a] + NativeBytes(value) + m[a + 4..]
  {
    JoinSplit(ByteOf(value, 3), ByteOf(value, 2), ByteOf(value, 1), ByteOf(value, 0));
    NativeIsSwapped(m, a, value);
    assert PutNative(m, a, value) == m[..a] + NativeBytes(value) + m[a + 4..];
    assert PutNative(m, a, Swap(value)) == m[..a] + NativeBytes(Swap(value)) + m[a + 4..];
  }

  lemma WrittenHalf(m: Bytes, a: Word, value: HalfWord)
    requires InRange(m, a, 2)
    ensures PutHalf(m, a, value) == m[..a] + NativeHalfBytes(SwapHalf(value)) + m[a + 2..]
    ensures PutHalf(m, a, SwapHalf(value)) == m[..a] + NativeHalfBytes(value) + m[a + 2..]
  {
    SwapJoinedHalf(value / 0x100, value % 0x100);
  }

  class DbMemory {
    const memory: Memory
    const blob: Blob

    /** The stored blob is the memory, byte for byte. */
    ghost predicate Valid()
      reads memory, blob
    {
      blob.Stored() && blob.data == memory.bytes
    }

    constructor (blob: Blob)
      requires blob.Stored()
      ensures this.blob == blob && fresh(memory)
      ensures Valid() && memory.bytes == old(blob.data)
    {
      this.memory := new Memory(0);
      this.blob := blob;
      new;
      Update();
    }

    /** Forget the memory and read the blob again. */
    method Update()
      requires blob.Stored()
      modifies memory
      ensures Valid()
    {
      var data := blob.data;
      memory.Resize(|data|);
      memory.bytes := data;
    }

    /** The memory has its new size before the table can refuse it: then the blob is as it was, and the
        two copies differ until they are read or written again. */
    method Resize(size: Word) returns (ok: bool)
      requires blob.Stored()
      modifies memory, blob
      ensures memory.bytes == Resized(old(memory.bytes), size)
      ensures ok <==> Takes(blob.table, size)
      ensures Valid() <==> ok
      ensures blob.Stored() && (!ok ==> blob.data == old(blob.data))
    {
      memory.Resize(size);
      ok := blob.Write(memory.bytes);
    }

    /** A write that is out of range reaches neither copy, and one that is in range never fails
        in the database. */
    method SetWord(address: Word, value: Word, systemEndian: bool) returns (r: Access<()>, stored: bool)
      requires Valid()
      modifies memory, blob
      ensures Valid() && stored
      ensures r == if InRange(old(memory.bytes), address, 4) then Value(()) else OutOfRange(address)
      ensures memory.bytes == if r.OutOfRange? then old(memory.bytes)
                              else PutWord(old(memory.bytes), address, if systemEndian then value else Swap(value))
    {
      stored := true;
      r := memory.SetWord(address, value, systemEndian);
      if r.OutOfRange? { return; }
      WrittenWord(blob.data, address, value);
      var raw := if systemEndian then Swap(value) else value;
      stored := blob.WriteAt(NativeBytes(raw), address);
    }

    method SetHalfWord(address: Word, value: HalfWord, systemEndian: bool) returns (r: Access<()>, stored: bool)
      requires Valid()
      modifies memory, blob
      ensures Valid() && stored
      ensures r == if InRange(old(memory.bytes), address, 2) then Value(()) else OutOfRange(address)
      ensures memory.bytes == if r.OutOfRange? then old(memory.bytes)
                              else PutHalf(old(memory.bytes), address, if systemEndian then value else SwapHalf(value))
    {
      stored := true;
      r := memory.SetHalfWord(address, value, systemEndian);
      if r.OutOfRange? { return; }
      WrittenHalf(blob.data, address, value);
      var raw := if systemEndian then SwapHalf(value) else value;
      stored := blob.WriteAt(NativeHalfBytes(raw), address);
    }

    method SetQuarterWord(address: Word, value: Byte) returns (r: Access<()>, stored: bool)
      requires Valid()
      modifies memory, blob
      ensures Valid() && stored
      ensures r == if InRange(old(memory.bytes), address, 1) then Value(()) else OutOfRange(address)
      ensures memory.bytes == if r.OutOfRange? then old(memory.bytes) else old(memory.bytes)[address := value]
    {
      stored := true;
      r := memory.SetQuarterWord(address, value);
      if r.OutOfRange? { return; }
      stored := blob.WriteAt([value], address);
    }

    /** The inherited copy resizes through this class, so the blob is written twice; when the table
        refuses the size nothing has been copied yet. */
    method Assign(other: Memory) returns (ok: bool)
      requires blob.Stored()
      modifies memory, blob
      ensures ok <==> Takes(blob.table, |old(other.bytes)|)
      ensures memory.bytes == if ok then old(other.bytes) else Resized(old(memory.bytes), |old(other.bytes)|)
      ensures Valid() <==> ok
      ensures blob.Stored() && (!ok ==> blob.data == old(blob.data))
    {
      var source := other.bytes;
      ok := Resize(|source|);
      if !ok { return; }
      memory.bytes := source;
      ok := blob.Write(memory.bytes);
    }
  }
}
