/** Gathering writes: the vector is imported from guest memory, checked, clipped and staged
    before anything is written. */
module Writev {
  import opened Common

  type Word = n: int | 0 <= n < 0x1_0000_0000_0000_0000

  /** Readable bytes of the guest. */
  type Memory = int -> Option<Byte>

  datatype Iovec = Iovec(base: Word, len: Word)

  /** The descriptor as far as it matters; `usable` stands for a connected TCP socket, or for
      a file that is not mapped. */
  datatype Descriptor =
    Closed | Epoll | File(readOnly: bool, usable: bool) | Pipe(readOnly: bool) | Socket(usable: bool)

  /** An error number for the guest, an exception, or the bytes handed on to be written. */
  datatype Outcome = Errno(code: int) | Throws | Commit(payload: seq<Byte>)

  const MAX_SEGMENTS: int := 1024
  const MAX_RW_COUNT: int := 0x7fff_f000
  const STAGING_LIMIT: int := 64 * 1024 * 1024
  const SSIZE_MAX: int := 0x7fff_ffff_ffff_ffff
  const LOW_USER_LIMIT: int := 0x8000_0000_0000 - 4096
  const IOVEC_SIZE: int := 16

  function Min(a: int, b: int): int {
    if a <= b then a else b
  }

  // ---- Guest memory ----------------------------------------------------------------

  predicate Missing(mem: Memory, address: int, k: int) {
    mem(address + k).None?
  }

  /** All bytes of a range, or nothing if one cannot be read. */
  function ReadExact(mem: Memory, address: int, n: nat): (r: Option<seq<Byte>>)
    ensures r.Some? ==> |r.value| == n && forall k :: 0 <= k < n ==> mem(address + k) == Some(r.value[k])
    ensures r.None? ==> exists k :: 0 <= k < n && Missing(mem, address, k)
  {
    if n == 0 then Some([])
    else
      var front := ReadExact(mem, address, n - 1);
      if front.None? then None
      else if Missing(mem, address, n - 1) then None
      else Some(front.value + [mem(address + n - 1).value])
  }

  function ReadWord(mem: Memory, address: int): Option<Word> {
    var bytes := ReadExact(mem, address, 8);
    if bytes.None? then None else assert Scale(8) == 0x1_0000_0000_0000_0000; Some(LittleEndian(bytes.value))
  }

  /** In range, out of range, or in the part of the address space that is not modelled. */
  datatype Range = InRange | OutOfRange | Unsupported

  function RangeOf(address: Word, length: int): Range {
    if address > SSIZE_MAX || length > SSIZE_MAX - address then OutOfRange
    else if address >= LOW_USER_LIMIT || length > LOW_USER_LIMIT - address then Unsupported
    else InRange
  }

  // ---- Specification ---------------------------------------------------------------

  datatype Item = Bad(code: int) | Good(entry: Iovec)

  /** Item `i` of the vector. */
  function ItemAt(mem: Memory, metadata: int, i: nat): Item {
    ItemOf(ReadWord(mem, metadata + i * IOVEC_SIZE + 8), ReadWord(mem, metadata + i * IOVEC_SIZE))
  }

  /** A negative length is refused after both words were read. */
  function ItemOf(len: Option<Word>, base: Option<Word>): Item {
    if len.None? || base.None? then Bad(EFAULT)
    else if len.value > SSIZE_MAX then Bad(EINVAL)
    else Good(Iovec(base.value, len.value))
  }

  datatype Imported = Rejected(code: int) | Vector(entries: seq<Iovec>)

  /** The vector from item `i` on; the first bad item decides the error. */
  function Import(mem: Memory, metadata: int, i: nat, count: nat): Imported
    requires i <= count
    decreases count - i
  {
    if i == count then Vector([])
    else match ItemAt(mem, metadata, i)
    case Bad(code) => Rejected(code)
    case Good(entry) =>
      match Import(mem, metadata, i + 1, count)
      case Rejected(code) => Rejected(code)
      case Vector(rest) => Vector([entry] + rest)
  }

  /** The first segment that is not in range decides. */
  function RangesOf(v: seq<Iovec>): Range {
    if v == [] then InRange
    else if RangeOf(v[0].base, v[0].len) == InRange then RangesOf(v[1..])
    else RangeOf(v[0].base, v[0].len)
  }

  function Total(v: seq<Iovec>): (r: nat) {
    if v == [] then 0 else v[0].len + Total(v[1..])
  }

  function Clipped(v: seq<Iovec>, room: nat): (r: seq<Iovec>)
    ensures |r| == |v|
  {
    if v == [] then []
    else
      var n := Min(v[0].len, room);
      [v[0].(len := n)] + Clipped(v[1..], room - n)
  }

  /** A single segment is clipped before its range is checked. */
  function PreClipped(v: seq<Iovec>): seq<Iovec> {
    if |v| == 1 then [v[0].(len := Min(v[0].len, MAX_RW_COUNT))] else v
  }

  /** The bytes of all segments, one after the other. */
  function Gather(mem: Memory, v: seq<Iovec>): Option<seq<Byte>> {
    if v == [] then Some([])
    else
      var front := ReadExact(mem, v[0].base, v[0].len);
      if front.None? then None
      else
        var rest := Gather(mem, v[1..]);
        if rest.None? then None else Some(front.value + rest.value)
  }

  /** Where byte `k` of the segments lies. */
  function AddressOf(v: seq<Iovec>, k: nat): int
    requires k < Total(v)
  {
    if k < v[0].len then v[0].base + k else AddressOf(v[1..], k - v[0].len)
  }

  predicate Writable(d: Descriptor) {
    (d.File? || d.Socket?) && d.usable
  }

  function Writev(d: Descriptor, mem: Memory, metadata: Word, rawCount: Word): Outcome {
    var count := rawCount % 0x1_0000_0000;
    if d.Closed? then Errno(EBADF)
    else if d.Epoll? then Errno(EINVAL)
    else if (d.File? || d.Pipe?) && d.readOnly then Errno(EBADF)
    else if count > MAX_SEGMENTS then Errno(EINVAL)
    else if count > 0 && RangeOf(metadata, count * IOVEC_SIZE) == OutOfRange then Errno(EFAULT)
    else if count > 0 && RangeOf(metadata, count * IOVEC_SIZE) == Unsupported then Throws
    else match Import(mem, metadata, 0, count)
    case Rejected(code) => Errno(code)
    case Vector(v) => WriteVector(d, mem, v)
  }

  function WriteVector(d: Descriptor, mem: Memory, v: seq<Iovec>): Outcome {
    var v := PreClipped(v);
    if RangesOf(v) == OutOfRange then Errno(EFAULT)
    else if RangesOf(v) == Unsupported then Throws
    else
      var v := Clipped(v, MAX_RW_COUNT);
      if Total(v) > STAGING_LIMIT then Throws
      else if d.Socket? && !d.usable then Throws
      else if d.File? && !d.usable && Total(v) > 0 then Throws
      else if !d.Socket? && !d.File? then Throws
      else
        var payload := Gather(mem, v);
        if payload.None? then Throws else Commit(payload.value)
  }

  // ---- Clipping --------------------------------------------------------------------

  lemma {:induction false} ClippedTotal(v: seq<Iovec>, room: nat)
    ensures Total(Clipped(v, room)) == Min(Total(v), room)
    decreases |v|
  {
    if v != [] {
      ClippedTotal(v[1..], room - Min(v[0].len, room));
    }
  }

  /** Clipping keeps the first bytes, each where it was. */
  lemma {:induction false} ClippedIsPrefix(v: seq<Iovec>, room: nat, k: nat)
    requires k < Min(Total(v), room)
    ensures k < Total(Clipped(v, room)) && AddressOf(Clipped(v, room), k) == AddressOf(v, k)
    decreases |v|
  {
    ClippedTotal(v, room);
    if k >= v[0].len {
      ClippedIsPrefix(v[1..], room - v[0].len, k - v[0].len);
    }
  }

  /** Where everything has room nothing is clipped. */
  lemma {:induction false} ClippedFits(v: seq<Iovec>, room: nat)
    requires Total(v) <= room
    ensures Clipped(v, room) == v
    decreases |v|
  {
    if v != [] {
      ClippedFits(v[1..], room - v[0].len);
    }
  }

  /** Clipping a single segment early agrees with clipping it in turn. */
  lemma PreClippedAgrees(v: seq<Iovec>)
    ensures Clipped(PreClipped(v), MAX_RW_COUNT) == Clipped(v, MAX_RW_COUNT)
  {
    if |v| == 1 {
      assert v[1..] == [] && PreClipped(v)[1..] == [];
    }
  }

  /** Gathered bytes are the bytes at their addresses. */
  lemma {:induction false} GatherReads(mem: Memory, v: seq<Iovec>)
    requires Gather(mem, v).Some?
    ensures var p := Gather(mem, v).value;
            |p| == Total(v) && forall k :: 0 <= k < |p| ==> mem(AddressOf(v, k)) == Some(p[k])
    decreases |v|
  {
    if v != [] {
      GatherReads(mem, v[1..]);
      var p := Gather(mem, v).value;
      var rest := Gather(mem, v[1..]).value;
      forall k | 0 <= k < |p| ensures mem(AddressOf(v, k)) == Some(p[k]) {
        if k >= v[0].len {
          assert p[k] == rest[k - v[0].len];
        }
      }
    }
  }

  /** The eight bytes at an address are the digits of a word, least significant first. */
  ghost predicate WordAt(mem: Memory, address: int, value: Word) {
    forall i: nat {:trigger Scale(i)} :: i < 8 ==> Scale(i) > 0 && mem(address + i) == Some(value / Scale(i) % 256)
  }

  predicate Readable(mem: Memory, address: int, n: nat) {
    forall k :: 0 <= k < n ==> !Missing(mem, address, k)
  }

  ghost predicate WordIs(mem: Memory, address: int, word: Option<Word>) {
    if Readable(mem, address, 8) then word.Some? && WordAt(mem, address, word.value) else word.None?
  }

  lemma ReadWordExact(mem: Memory, address: int)
    ensures WordIs(mem, address, ReadWord(mem, address))
  {
    var bytes := ReadExact(mem, address, 8);
    if bytes.Some? {
      forall i: nat | i < 8
        ensures Scale(i) > 0 && mem(address + i) == Some(ReadWord(mem, address).value / Scale(i) % 256)
      {
        LittleEndianDigits(bytes.value, i);
      }
    }
  }

  ghost predicate HugeAt(mem: Memory, address: int) {
    exists len: Word :: WordAt(mem, address, len) && len > 0x7fff_ffff_ffff_ffff
  }

  /** What is at item `j`: its sixteen bytes are the digits of the base and of the length; they
      can all be read, or the item is refused with 14; a length beyond 2^63 - 1 with 22. */
  ghost predicate ItemIs(mem: Memory, address: int, item: Item) {
    if !Readable(mem, address, 16) then item == Bad(14)
    else
      match item
      case Good(entry) =>
        WordAt(mem, address, entry.base) && WordAt(mem, address + 8, entry.len) && entry.len <= 0x7fff_ffff_ffff_ffff
      case Bad(code) => code == 22 && HugeAt(mem, address + 8)
  }

  lemma ItemExact(mem: Memory, metadata: int, j: nat)
    ensures ItemIs(mem, metadata + 16 * j, ItemAt(mem, metadata, j))
  {
    ReadWordExact(mem, metadata + 16 * j);
    ReadWordExact(mem, metadata + 16 * j + 8);
    ItemOfWords(mem, metadata + 16 * j, metadata + 16 * j + 8, ReadWord(mem, metadata + 16 * j + 8),
                ReadWord(mem, metadata + 16 * j));
  }

  lemma ItemOfWords(mem: Memory, low: int, high: int, len: Option<Word>, base: Option<Word>)
    requires high == low + 8 && WordIs(mem, low, base) && WordIs(mem, high, len)
    ensures ItemIs(mem, low, ItemOf(len, base))
  {
    ReadableHalves(mem, low, high);
  }

  lemma ReadableHalves(mem: Memory, low: int, high: int)
    requires high == low + 8
    ensures Readable(mem, low, 16) <==> Readable(mem, low, 8) && Readable(mem, high, 8)
  {
    if Readable(mem, low, 8) && Readable(mem, high, 8) {
      forall k | 0 <= k < 16 ensures !Missing(mem, low, k) {
        assert k >= 8 ==> !Missing(mem, high, k - 8);
      }
    }
    if Readable(mem, low, 16) {
      forall k | 0 <= k < 8 ensures !Missing(mem, high, k) {
        assert !Missing(mem, low, k + 8);
      }
    }
  }

  /** The first bad item decides the error, and without one there is none. */
  lemma {:induction false} ImportRejects(mem: Memory, metadata: int, i: nat, count: nat) returns (j: nat)
    requires i <= count && Import(mem, metadata, i, count).Rejected?
    ensures i <= j < count && ItemAt(mem, metadata, j) == Bad(Import(mem, metadata, i, count).code)
    ensures forall k :: i <= k < j ==> ItemAt(mem, metadata, k).Good?
    decreases count - i
  {
    var item := ItemAt(mem, metadata, i);
    if item.Bad? {
      j := i;
    } else {
      j := ImportRejects(mem, metadata, i + 1, count);
      forall k | i <= k < j ensures ItemAt(mem, metadata, k).Good? {
        assert k == i ==> ItemAt(mem, metadata, k) == item;
      }
    }
  }

  /** A range is out of range beyond 2^63 - 1, and not supported beyond the last page below
      2^47 where user memory ends. */
  lemma RangeMeans(address: Word, length: nat)
    ensures RangeOf(address, length) == OutOfRange <==> address + length > 0x7fff_ffff_ffff_ffff
    ensures RangeOf(address, length) == InRange <==>
              address < 0x7fff_ffff_f000 && address + length <= 0x7fff_ffff_f000
  {
  }

  lemma {:induction false} RangesFirst(v: seq<Iovec>) returns (j: nat)
    ensures j <= |v| && forall k :: 0 <= k < j ==> RangeOf(v[k].base, v[k].len) == InRange
    ensures RangesOf(v) == if j == |v| then InRange else RangeOf(v[j].base, v[j].len)
    ensures j < |v| ==> RangesOf(v) != InRange
    decreases |v|
  {
    j := 0;
    if v != [] && RangeOf(v[0].base, v[0].len) == InRange {
      var i := RangesFirst(v[1..]);
      j := i + 1;
      assert v == [v[0]] + v[1..];
    }
  }

  /** Each entry of an imported vector is its item in guest memory. */
  lemma {:induction false} ImportedItems(mem: Memory, metadata: int, i: nat, count: nat)
    requires i <= count && Import(mem, metadata, i, count).Vector?
    ensures var v := Import(mem, metadata, i, count).entries;
            |v| == count - i && forall j :: i <= j < count ==> ItemAt(mem, metadata, j) == Good(v[j - i])
    decreases count - i
  {
    if i < count {
      ImportedItems(mem, metadata, i + 1, count);
    }
  }

  /** What is staged is exactly the first `MAX_RW_COUNT` bytes of the segments. */
  lemma StagedBytes(mem: Memory, v: seq<Iovec>)
    requires Gather(mem, Clipped(PreClipped(v), MAX_RW_COUNT)).Some?
    ensures var p := Gather(mem, Clipped(PreClipped(v), MAX_RW_COUNT)).value;
            |p| == Min(Total(v), MAX_RW_COUNT) && forall k :: 0 <= k < |p| ==> mem(AddressOf(v, k)) == Some(p[k])
  {
    PreClippedAgrees(v);
    var c := Clipped(v, MAX_RW_COUNT);
    var p := Gather(mem, c).value;
    GatherReads(mem, c);
    ClippedTotal(v, MAX_RW_COUNT);
    forall k | 0 <= k < |p| ensures mem(AddressOf(v, k)) == Some(p[k]) {
      ClippedIsPrefix(v, MAX_RW_COUNT, k);
    }
  }

  /** Since staging is limited far below the clip, a write that is committed is never cut:
      it hands on every byte of every segment, in order.  The limit is hit exactly by vectors
      whose segments together exceed it. */
  lemma CommitIsWhole(d: Descriptor, mem: Memory, v: seq<Iovec>)
    ensures var r := WriteVector(d, mem, v);
            && (RangesOf(PreClipped(v)) == InRange && Total(v) > STAGING_LIMIT ==> r == Throws)
            && (r.Commit? <==>
                  && RangesOf(PreClipped(v)) == InRange && Total(v) <= STAGING_LIMIT
                  && (Writable(d) || (d.File? && Total(v) == 0)) && Gather(mem, v).Some?)
            && (r.Commit? ==> Gather(mem, v) == Some(r.payload) && |r.payload| == Total(v))
  {
    PreClippedAgrees(v);
    ClippedTotal(v, MAX_RW_COUNT);
    if Total(v) <= STAGING_LIMIT {
      ClippedFits(v, MAX_RW_COUNT);
      if Gather(mem, v).Some? {
        GatherReads(mem, v);
      }
    }
  }

  /** A committed call writes, byte for byte, what the items of its vector point to. */
  lemma CommittedBytes(d: Descriptor, mem: Memory, metadata: Word, rawCount: Word)
    requires Writev(d, mem, metadata, rawCount).Commit?
    ensures var p, count := Writev(d, mem, metadata, rawCount).payload, rawCount % 0x1_0000_0000;
            var imported := Import(mem, metadata, 0, count);
            && imported.Vector? && count <= MAX_SEGMENTS && |imported.entries| == count
            && (forall j :: 0 <= j < count ==> ItemIs(mem, metadata + 16 * j, Good(imported.entries[j])))
            && (forall j :: 0 <= j < count ==>
                  && WordAt(mem, metadata + 16 * j, imported.entries[j].base)
                  && WordAt(mem, metadata + 16 * j + 8, imported.entries[j].len))
            && |p| == Total(imported.entries) <= STAGING_LIMIT
            && forall k :: 0 <= k < |p| ==> mem(AddressOf(imported.entries, k)) == Some(p[k])
  {
    var count := rawCount % 0x1_0000_0000;
    var v := Import(mem, metadata, 0, count).entries;
    ImportedItems(mem, metadata, 0, count);
    forall j | 0 <= j < count
      ensures ItemIs(mem, metadata + 16 * j, Good(v[j]))
      ensures WordAt(mem, metadata + 16 * j, v[j].base) && WordAt(mem, metadata + 16 * j + 8, v[j].len)
    {
      assert ItemAt(mem, metadata, j) == Good(v[j]);
      ItemExact(mem, metadata, j);
    }
    CommitIsWhole(d, mem, v);
    GatherReads(mem, v);
  }

  /** Memory holds the vector at `metadata`, and the payload is what its segments hold, one
      after another. */
  ghost predicate Wrote(mem: Memory, metadata: int, v: seq<Iovec>, payload: seq<Byte>) {
    && (forall j :: 0 <= j < |v| ==>
          WordAt(mem, metadata + 16 * j, v[j].base) && WordAt(mem, metadata + 16 * j + 8, v[j].len))
    && |payload| == Total(v) && forall k :: 0 <= k < |payload| ==> mem(AddressOf(v, k)) == Some(payload[k])
  }

  /** The descriptor lets a write go ahead: it is open, not an epoll one, and where it has an
      access mode that is not read only. */
  predicate Admits(d: Descriptor) {
    !d.Closed? && !d.Epoll? && ((d.File? || d.Pipe?) ==> !d.readOnly)
  }

  /** What comes of a call before its vector is looked at: a bad descriptor is refused with 9,
      or 22 for epoll, more than 1024 segments with 22, and a vector beyond the address space
      with 14; a count of zero does not look at the address. */
  lemma RefusedBeforeImport(d: Descriptor, mem: Memory, metadata: Word, rawCount: Word)
    ensures var r, count := Writev(d, mem, metadata, rawCount), rawCount % 0x1_0000_0000;
            var end := metadata + 16 * count;
            && (!Admits(d) ==> r == Errno(if d.Epoll? then 22 else 9))
            && (Admits(d) && count > 1024 ==> r == Errno(22))
            && (Admits(d) && 0 < count <= 1024 && end > 0x7fff_ffff_ffff_ffff ==> r == Errno(14))
            && (Admits(d) && 0 < count <= 1024 && 0x7fff_ffff_f000 < end <= 0x7fff_ffff_ffff_ffff ==> r == Throws)
            && (Admits(d) && count == 0 ==> r == WriteVector(d, mem, []))
  {
    var count := rawCount % 0x1_0000_0000;
    RangeMeans(metadata, count * IOVEC_SIZE);
  }

  /** What comes of the vector: the first bad item decides; then the first segment that is not
      in range, a single segment counting only as far as a write goes; the rest is
      `CommitIsWhole`. */
  lemma RefusedAfterImport(d: Descriptor, mem: Memory, metadata: Word, rawCount: Word)
    requires Admits(d) && rawCount % 0x1_0000_0000 <= 1024
    requires rawCount % 0x1_0000_0000 > 0 ==> metadata + 16 * (rawCount % 0x1_0000_0000) <= 0x7fff_ffff_f000
    ensures var r, imported := Writev(d, mem, metadata, rawCount), Import(mem, metadata, 0, rawCount % 0x1_0000_0000);
            && (imported.Rejected? ==> r == Errno(imported.code))
            && (imported.Vector? ==>
                  && (RangesOf(PreClipped(imported.entries)) == OutOfRange ==> r == Errno(14))
                  && (RangesOf(PreClipped(imported.entries)) == Unsupported ==> r == Throws)
                  && (RangesOf(PreClipped(imported.entries)) == InRange ==> r.Commit? || r.Throws?))
  {
    var count := rawCount % 0x1_0000_0000;
    RangeMeans(metadata, count * IOVEC_SIZE);
  }

  // ---- In place --------------------------------------------------------------------

  method ImportItem(mem: Memory, metadata: int, i: nat) returns (item: Item)
    ensures item == ItemAt(mem, metadata, i)
  {
    var len := ReadWord(mem, metadata + i * IOVEC_SIZE + 8);
    if len.None? {
      return Bad(EFAULT);
    }
    var base := ReadWord(mem, metadata + i * IOVEC_SIZE);
    if base.None? {
      return Bad(EFAULT);
    }
    if len.value > SSIZE_MAX {
      return Bad(EINVAL);
    }
    item := Good(Iovec(base.value, len.value));
  }

  function Prepend(front: seq<Iovec>, rest: Imported): Imported {
    if rest.Rejected? then rest else Vector(front + rest.entries)
  }

  method ImportVector(mem: Memory, metadata: int, count: nat) returns (code: int, entries: array<Iovec>)
    ensures fresh(entries)
    ensures Import(mem, metadata, 0, count) == if code == 0 then Vector(entries[..]) else Rejected(code)
  {
    entries := new Iovec[count](_ => Iovec(0, 0));
    code := 0;
    var i := 0;
    while i < count
      invariant 0 <= i <= count
      invariant Import(mem, metadata, 0, count) == Prepend(entries[..i], Import(mem, metadata, i, count))
    {
      var item := ImportItem(mem, metadata, i);
      if item.Bad? {
        return item.code, entries;
      }
      entries[i] := item.entry;
      PrependOne(mem, metadata, i, count, entries[..i], entries[..i + 1]);
      i := i + 1;
    }
    assert entries[..] == entries[..count] + [];
  }

  lemma PrependOne(mem: Memory, metadata: int, i: nat, count: nat, front: seq<Iovec>, more: seq<Iovec>)
    requires i < count && ItemAt(mem, metadata, i).Good? && more == front + [ItemAt(mem, metadata, i).entry]
    ensures Prepend(front, Import(mem, metadata, i, count)) == Prepend(more, Import(mem, metadata, i + 1, count))
  {
    var rest := Import(mem, metadata, i + 1, count);
    if rest.Vector? {
      assert front + ([ItemAt(mem, metadata, i).entry] + rest.entries) == more + rest.entries;
    }
  }

  method CheckRanges(entries: array<Iovec>) returns (r: Range)
    ensures r == RangesOf(entries[..])
  {
    var i := 0;
    assert entries[0..] == entries[..];
    while i < entries.Length
      invariant 0 <= i <= entries.Length && RangesOf(entries[i..]) == RangesOf(entries[..])
    {
      assert entries[i..][1..] == entries[i + 1..];
      r := RangeOf(entries[i].base, entries[i].len);
      if r != InRange {
        return;
      }
      i := i + 1;
    }
    r := InRange;
  }

  /** The segments before `i` are clipped to `done`, which uses `total` bytes. */
  predicate ClippedTo(v: seq<Iovec>, i: nat, done: seq<Iovec>, total: nat) {
    && i <= |v| && total <= MAX_RW_COUNT && total == Total(done)
    && done + Clipped(v[i..], MAX_RW_COUNT - total) == Clipped(v, MAX_RW_COUNT)
  }

  lemma ClipStep(v: seq<Iovec>, i: nat, done: seq<Iovec>, total: nat)
    requires i < |v| && ClippedTo(v, i, done, total)
    ensures var n := Min(v[i].len, MAX_RW_COUNT - total);
            ClippedTo(v, i + 1, done + [v[i].(len := n)], total + n)
  {
    var n := Min(v[i].len, MAX_RW_COUNT - total);
    var e := v[i].(len := n);
    assert v[i..][1..] == v[i + 1..];
    TotalAppend(done, e);
    var rest := Clipped(v[i + 1..], MAX_RW_COUNT - total - n);
    assert done + ([e] + rest) == done + [e] + rest;
  }

  /** The subtraction that clips a segment never goes below zero. */
  method ClipVector(entries: array<Iovec>) returns (total: nat)
    modifies entries
    ensures entries[..] == Clipped(old(entries[..]), MAX_RW_COUNT) && total == Total(entries[..])
  {
    total := 0;
    var i := 0;
    ghost var v, done := entries[..], [];
    assert v[0..] == v;
    while i < entries.Length
      invariant 0 <= i <= entries.Length == |v| && entries[..i] == done && ClippedTo(v, i, done, total)
      invariant forall j :: i <= j < entries.Length ==> entries[j] == v[j]
    {
      ClipStep(v, i, done, total);
      var room: nat := MAX_RW_COUNT - total;
      entries[i] := entries[i].(len := Min(entries[i].len, room));
      total := total + entries[i].len;
      done := done + [entries[i]];
      i := i + 1;
    }
    ClipEnd(v, done, total);
    assert entries[..] == entries[..i];
  }

  lemma ClipEnd(v: seq<Iovec>, done: seq<Iovec>, total: nat)
    requires ClippedTo(v, |v|, done, total)
    ensures done == Clipped(v, MAX_RW_COUNT)
  {
    assert done + [] == done;
  }

  lemma {:induction false} TotalAppend(v: seq<Iovec>, e: Iovec)
    ensures Total(v + [e]) == Total(v) + e.len
    decreases |v|
  {
    if v != [] {
      assert (v + [e])[1..] == v[1..] + [e];
      TotalAppend(v[1..], e);
    }
  }

  method Copy(buffer: array<Byte>, offset: nat, bytes: seq<Byte>)
    requires offset + |bytes| <= buffer.Length
    modifies buffer
    ensures buffer[..offset + |bytes|] == old(buffer[..offset]) + bytes
  {
    var i := 0;
    while i < |bytes|
      invariant 0 <= i <= |bytes| && buffer[..offset + i] == old(buffer[..offset]) + bytes[..i]
    {
      buffer[offset + i] := bytes[i];
      i := i + 1;
    }
  }

  /** `front` holds the bytes of the segments before `i`. */
  predicate Gathered(mem: Memory, v: seq<Iovec>, i: nat, front: seq<Byte>)
    requires i <= |v|
  {
    var rest := Gather(mem, v[i..]);
    Gather(mem, v) == if rest.None? then None else Some(front + rest.value)
  }

  lemma StageStart(mem: Memory, v: seq<Iovec>)
    ensures v[0..] == v && Gathered(mem, v, 0, [])
  {
    var all := Gather(mem, v);
    if all.Some? {
      assert [] + all.value == all.value;
    }
  }

  lemma StageStep(mem: Memory, v: seq<Iovec>, i: nat, front: seq<Byte>)
    requires i < |v| && Gathered(mem, v, i, front)
    ensures Total(v[i..]) == v[i].len + Total(v[i + 1..])
    ensures var bytes := ReadExact(mem, v[i].base, v[i].len);
            if bytes.None? then Gather(mem, v).None? else Gathered(mem, v, i + 1, front + bytes.value)
  {
    assert v[i..][1..] == v[i + 1..];
    var bytes, rest := ReadExact(mem, v[i].base, v[i].len), Gather(mem, v[i + 1..]);
    if bytes.Some? && rest.Some? {
      assert front + (bytes.value + rest.value) == front + bytes.value + rest.value;
    }
  }

  method StageSegment(mem: Memory, entry: Iovec, buffer: array<Byte>, offset: nat) returns (ok: bool)
    requires offset + entry.len <= buffer.Length
    modifies buffer
    ensures ok == ReadExact(mem, entry.base, entry.len).Some?
    ensures ok ==> buffer[..offset + entry.len] == old(buffer[..offset]) + ReadExact(mem, entry.base, entry.len).value
  {
    if entry.len > 0 {
      var bytes := ReadExact(mem, entry.base, entry.len);
      if bytes.None? {
        return false;
      }
      Copy(buffer, offset, bytes.value);
    }
    ok := true;
  }

  /** The segments before `i` are in `front`; the others fit behind it. */
  predicate StagedTo(mem: Memory, v: seq<Iovec>, i: nat, front: seq<Byte>, total: nat) {
    i <= |v| && |front| + Total(v[i..]) == total && Gathered(mem, v, i, front)
  }

  /** Copy the segments behind each other into a buffer of the right size. */
  method Stage(mem: Memory, entries: array<Iovec>, total: nat) returns (payload: Option<seq<Byte>>)
    requires total == Total(entries[..])
    ensures payload == Gather(mem, entries[..])
  {
    var buffer := new Byte[total](_ => 0);
    var offset: nat := 0;
    var i := 0;
    ghost var v := entries[..];
    StageStart(mem, v);
    assert buffer[..0] == [];
    while i < entries.Length
      invariant 0 <= i <= entries.Length && entries[..] == v
      invariant offset <= total && StagedTo(mem, v, i, buffer[..offset], total)
    {
      StageStep(mem, v, i, buffer[..offset]);
      var entry := entries[i];
      var ok := StageSegment(mem, entry, buffer, offset);
      if !ok {
        return None;
      }
      offset := offset + entry.len;
      i := i + 1;
    }
    assert buffer[..] == buffer[..offset] + [];
    payload := Some(buffer[..]);
  }

  method EmuWritev(d: Descriptor, mem: Memory, metadata: Word, rawCount: Word) returns (r: Outcome)
    ensures r == Writev(d, mem, metadata, rawCount)
    ensures r.Commit? ==>
              exists v :: |v| == rawCount % 0x1_0000_0000 <= 1024 && Wrote(mem, metadata, v, r.payload)
  {
    if d.Closed? {
      return Errno(EBADF);
    }
    if d.Epoll? {
      return Errno(EINVAL);
    }
    if (d.File? || d.Pipe?) && d.readOnly {
      return Errno(EBADF);
    }
    var count := rawCount % 0x1_0000_0000;
    if count > MAX_SEGMENTS {
      return Errno(EINVAL);
    }
    if count > 0 {
      var range := RangeOf(metadata, count * IOVEC_SIZE);
      if range != InRange {
        return if range == OutOfRange then Errno(EFAULT) else Throws;
      }
    }
    var code, entries := ImportVector(mem, metadata, count);
    if code != 0 {
      return Errno(code);
    }
    r := WriteImported(d, mem, entries);
    if r.Commit? {
      CommittedBytes(d, mem, metadata, rawCount);
      assert Wrote(mem, metadata, Import(mem, metadata, 0, count).entries, r.payload);
    }
  }

  method WriteImported(d: Descriptor, mem: Memory, entries: array<Iovec>) returns (r: Outcome)
    modifies entries
    ensures r == WriteVector(d, mem, old(entries[..]))
  {
    if entries.Length == 1 {
      entries[0] := entries[0].(len := Min(entries[0].len, MAX_RW_COUNT));
    }
    assert entries[..] == PreClipped(old(entries[..]));
    var range := CheckRanges(entries);
    if range != InRange {
      return if range == OutOfRange then Errno(EFAULT) else Throws;
    }
    var total := ClipVector(entries);
    if total > STAGING_LIMIT || (d.Socket? && !d.usable) || (d.File? && !d.usable && total > 0) ||
      !(d.Socket? || d.File?) {
      return Throws;
    }
    var payload := Stage(mem, entries, total);
    r := if payload.None? then Throws else Commit(payload.value);
  }
}
