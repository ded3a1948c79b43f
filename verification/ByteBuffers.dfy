/**
 * The two fixed-size buffers of an output window. Both keep their bytes in a
 * circular array; each is proved against plain sequences.
 */
module ByteBuffers {
  import opened Bytes
  import opened Utf8

  datatype Mode = Head | Tail

  datatype DroppedBytes = DroppedBytes(bytes: nat, newlines: nat)

  // ---- the circular array, on values ----

  function Slot(start: nat, i: nat, capacity: nat): nat
  {
    if start + i < capacity then start + i else start + i - capacity
  }

  predicate RingShape(capacity: nat, start: nat, length: nat)
  {
    length <= capacity && (start < capacity || start == 0)
  }

  /** The bytes a ring holds, oldest first. */
  function Ring(s: seq<byte>, start: nat, length: nat): (r: seq<byte>)
    requires RingShape(|s|, start, length)
    ensures |r| == length
  {
    seq(length, i requires 0 <= i < length => s[Slot(start, i, |s|)])
  }

  /** `s` with `source` written from `at` on, wrapping at the end. */
  function Overwrite(s: seq<byte>, at: nat, source: seq<byte>): (r: seq<byte>)
    requires |source| <= |s| && (at < |s| || at == 0)
    ensures |r| == |s|
  {
    seq(|s|, j requires 0 <= j < |s| =>
      if at <= j < at + |source| then source[j - at]
      else if j + |s| < at + |source| then source[j + |s| - at]
      else s[j])
  }

  lemma RingAppend(s: seq<byte>, start: nat, length: nat, source: seq<byte>)
    requires RingShape(|s|, start, length) && length + |source| <= |s| && 0 < |s|
    ensures Slot(start, length, |s|) < |s| || length == |s|
    ensures source != [] ==>
              Ring(Overwrite(s, Slot(start, length, |s|), source), start, length + |source|)
                == Ring(s, start, length) + source
  {
    if source != [] {
      var at := Slot(start, length, |s|);
      var t := Overwrite(s, at, source);
      var r := Ring(t, start, length + |source|);
      forall i | 0 <= i < length + |source|
        ensures r[i] == (Ring(s, start, length) + source)[i]
      {
        var j := Slot(start, i, |s|);
        assert r[i] == t[j];
      }
    }
  }

  lemma RingDrop(s: seq<byte>, start: nat, length: nat, count: nat)
    requires RingShape(|s|, start, length) && count <= length && 0 < |s|
    ensures (start + count) % |s| == Slot(start, count, |s|) || count == |s|
    ensures count == |s| ==> (start + count) % |s| == start
    ensures RingShape(|s|, (start + count) % |s|, length - count)
    ensures Ring(s, (start + count) % |s|, length - count) == Ring(s, start, length)[count..]
  {
    WrapOnce(start + count, |s|);
  }

  /** `Buffer.copy` in at most two pieces. */
  method WriteWrapped(storage: array<byte>, at: nat, source: seq<byte>)
    requires |source| <= storage.Length && (at < storage.Length || at == 0)
    modifies storage
    ensures storage[..] == Overwrite(old(storage[..]), at, source)
  {
    var first := Min(|source|, storage.Length - at);
    forall i | 0 <= i < first { storage[at + i] := source[i]; }
    if first < |source| {
      forall i | 0 <= i < |source| - first { storage[i] := source[first + i]; }
    }
  }

  /** Write `chunk` behind the bytes a ring already holds; there must be room for it. */
  method PlaceBehind(storage: array<byte>, start: nat, length: nat, chunk: seq<byte>)
    requires RingShape(storage.Length, start, length) && chunk != [] && length + |chunk| <= storage.Length
    modifies storage
    ensures Ring(storage[..], start, length + |chunk|) == old(Ring(storage[..], start, length)) + chunk
  {
    WrapOnce(start + length, storage.Length);
    RingAppend(storage[..], start, length, chunk);
    WriteWrapped(storage, (start + length) % storage.Length, chunk);
  }

  /** A chunk that fills the whole ring replaces it. */
  method Refill(storage: array<byte>, chunk: seq<byte>)
    requires storage.Length <= |chunk|
    modifies storage
    ensures Ring(storage[..], 0, storage.Length) == Last(chunk, storage.Length)
  {
    WriteWrapped(storage, 0, chunk[|chunk| - storage.Length..]);
  }

  method ReadWrapped(storage: array<byte>, start: nat, length: nat) returns (out: seq<byte>)
    requires RingShape(storage.Length, start, length)
    ensures out == Ring(storage[..], start, length)
  {
    if length == 0 { return []; }
    var first := Min(length, storage.Length - start);
    out := storage[start..start + first];
    if first < length { out := out + storage[..length - first]; }
  }

  /** What a bounded view of everything pushed so far should hold. */
  function Kept(mode: Mode, all: seq<byte>, capacity: nat): seq<byte>
  {
    if mode == Head then First(all, capacity) else Last(all, capacity)
  }

  lemma KeptFits(mode: Mode, all: seq<byte>, capacity: nat)
    ensures |Kept(mode, all, capacity)| <= capacity
  {
  }

  lemma HeadAppend(all: seq<byte>, chunk: seq<byte>, capacity: nat)
    ensures First(all + chunk, capacity) ==
            First(all, capacity) + First(chunk, capacity - |First(all, capacity)|)
  {
  }

  lemma TailAppend(all: seq<byte>, chunk: seq<byte>, capacity: nat)
    ensures Last(all + chunk, capacity) == Last(Last(all, capacity) + chunk, capacity)
  {
  }

  /** Where a ring starts and ends once `chunk` has pushed the oldest bytes out. */
  method AppendLatest(storage: array<byte>, start: nat, length: nat, chunk: seq<byte>)
    returns (start': nat, length': nat)
    requires RingShape(storage.Length, start, length) && chunk != []
    modifies storage
    ensures RingShape(storage.Length, start', length')
    ensures Ring(storage[..], start', length') ==
            Last(old(Ring(storage[..], start, length)) + chunk, storage.Length)
  {
    var capacity := storage.Length;
    ghost var held := Ring(storage[..], start, length);
    if |chunk| >= capacity {
      Refill(storage, chunk);
      return 0, capacity;
    }
    var overflow := Max(0, length + |chunk| - capacity);
    RingDrop(storage[..], start, length, overflow);
    start' := (start + overflow) % capacity;
    length' := length - overflow;
    PlaceBehind(storage, start', length', chunk);
    length' := length' + |chunk|;
    assert held[overflow..] + chunk == Last(held + chunk, capacity);
  }

  /** The first or the last `capacity` bytes of everything fed, whichever the mode asks for. */
  class BoundedByteBuffer {
    const capacity: nat
    const mode: Mode
    const storage: array<byte>
    var start: nat
    var length: nat
    var totalBytes: nat
    /** Everything pushed since the last reset. */
    ghost var fed: seq<byte>

    ghost predicate Valid()
      reads this, storage
    {
      && storage.Length == capacity && RingShape(capacity, start, length)
      && (mode == Head ==> start == 0)
      && totalBytes == |fed|
      && Ring(storage[..], start, length) == Kept(mode, fed, capacity)
    }

    constructor (capacity: nat, mode: Mode)
      ensures Valid() && fresh(storage) && fed == []
      ensures this.capacity == capacity && this.mode == mode
    {
      this.capacity, this.mode := capacity, mode;
      storage := new byte[capacity];
      start, length, totalBytes, fed := 0, 0, 0, [];
    }

    method push(chunk: seq<byte>)
      requires Valid()
      modifies this, storage
      ensures Valid() && fed == old(fed) + chunk
    {
      if |chunk| == 0 {
        assert fed + chunk == fed;
        return;
      }
      totalBytes := totalBytes + |chunk|;
      fed := fed + chunk;
      if mode == Head {
        var copy := Min(|chunk|, capacity - length);
        HeadAppend(old(fed), chunk, capacity);
        if copy > 0 { PlaceBehind(storage, 0, length, chunk[..copy]); }
        length := length + copy;
        return;
      }
      TailAppend(old(fed), chunk, capacity);
      start, length := AppendLatest(storage, start, length, chunk);
    }

    method bytes() returns (out: seq<byte>)
      requires Valid()
      ensures out == Kept(mode, fed, capacity)
    {
      out := ReadWrapped(storage, start, length);
    }

    method reset()
      requires Valid()
      modifies this
      ensures Valid() && fed == []
    {
      start, length, totalBytes, fed := 0, 0, 0, [];
    }
  }

  /** Bytes through the first newline, or all of them. */
  function FirstLineLength(s: seq<byte>): (n: nat)
    ensures n <= |s| && (s != [] ==> 0 < n)
    ensures forall i :: 0 <= i < n - 1 ==> s[i] != NEWLINE
    ensures n < |s| ==> s[n - 1] == NEWLINE
    ensures NEWLINE in s ==> 0 < n && s[n - 1] == NEWLINE
  {
    if s == [] then 0 else if s[0] == NEWLINE then 1 else 1 + FirstLineLength(s[1..])
  }

  /** A sequence of at most `capacity` bytes that grows at the end and shrinks at the front, with no copying. */
  class ByteRing {
    const capacity: nat
    const storage: array<byte>
    var start: nat
    var length: nat

    ghost predicate Valid()
      reads this, storage
    {
      storage.Length == capacity && RingShape(capacity, start, length)
    }

    ghost function Contents(): (s: seq<byte>)
      requires Valid()
      reads this, storage
    {
      Ring(storage[..], start, length)
    }

    constructor (capacity: nat)
      ensures Valid() && fresh(storage) && Contents() == [] && this.capacity == capacity
    {
      this.capacity := capacity;
      storage := new byte[capacity];
      start, length := 0, 0;
    }

    /**
     * Keeps the latest bytes. What it reports as dropped is what it held, so a
     * chunk longer than the whole ring loses a prefix nobody is told about.
     */
    method append(chunk: seq<byte>) returns (dropped: DroppedBytes)
      requires Valid()
      modifies this, storage
      ensures Valid() && Contents() == Last(old(Contents()) + chunk, capacity)
      ensures dropped.bytes <= |old(Contents())|
      ensures dropped.newlines == Newlines(old(Contents())[..dropped.bytes])
      ensures |chunk| <= capacity <==>
              |old(Contents())| + |chunk| == dropped.bytes + |Contents()|
    {
      if |chunk| == 0 { return DroppedBytes(0, 0); }
      var overflow := if |chunk| >= capacity then length else Max(0, length + |chunk| - capacity);
      dropped := countPrefix(overflow);
      start, length := AppendLatest(storage, start, length, chunk);
    }

    /** The contents lose everything up to and including their first newline, or all if there is none. */
    method dropFirstLine() returns (dropped: DroppedBytes)
      requires Valid()
      modifies this
      ensures Valid() && dropped.bytes == FirstLineLength(old(Contents()))
      ensures Contents() == old(Contents())[dropped.bytes..]
      ensures dropped.newlines == Newlines(old(Contents())[..dropped.bytes])
    {
      var newline := indexOf(NEWLINE);
      dropped := dropPrefix(if newline == -1 then length else newline + 1);
    }

    /** Bytes left of a code point whose lead is gone leave the front, three at the most. */
    method trimLeadingContinuation() returns (dropped: nat)
      requires Valid()
      modifies this
      ensures Valid() && dropped == Min(3, LeadingContinuations(old(Contents())))
      ensures Contents() == old(Contents())[dropped..]
    {
      dropped := 0;
      ghost var all := Contents();
      while dropped < 3 && length > 0 && IsContinuation(byteAt(0))
        invariant Valid() && dropped <= 3 && dropped <= LeadingContinuations(all)
        invariant Contents() == all[dropped..]
      {
        assert Contents()[0] == all[dropped];
        var one := dropPrefix(1);
        dropped := dropped + 1;
      }
    }

    method bytes() returns (out: seq<byte>)
      requires Valid()
      ensures out == Contents()
    {
      out := ReadWrapped(storage, start, length);
    }

    function byteLength(): (n: nat)
      requires Valid()
      reads this, storage
      ensures n == |Contents()|
    {
      length
    }

    method countPrefix(count: nat) returns (dropped: DroppedBytes)
      requires Valid() && count <= length
      ensures dropped == DroppedBytes(count, Newlines(Contents()[..count]))
    {
      var newlines := 0;
      for index := 0 to count
        invariant newlines == Newlines(Contents()[..index])
      {
        assert Contents()[..index + 1][..index] == Contents()[..index];
        if byteAt(index) == NEWLINE { newlines := newlines + 1; }
      }
      dropped := DroppedBytes(count, newlines);
    }

    method dropPrefix(requested: int) returns (dropped: DroppedBytes)
      requires Valid()
      modifies this
      ensures Valid() && dropped.bytes == Min(Max(0, requested), |old(Contents())|)
      ensures Contents() == old(Contents())[dropped.bytes..]
      ensures dropped.newlines == Newlines(old(Contents())[..dropped.bytes])
    {
      var count := Min(Max(0, requested), length);
      dropped := countPrefix(count);
      if capacity > 0 { RingDrop(storage[..], start, length, count); }
      start := if capacity == 0 then 0 else (start + count) % capacity;
      length := length - count;
    }

    method indexOf(needle: byte) returns (index: int)
      requires Valid()
      ensures index == -1 ==> needle !in Contents()
      ensures index != -1 ==> 0 <= index < |Contents()| && Contents()[index] == needle
                              && needle !in Contents()[..index]
    {
      for i := 0 to length
        invariant needle !in Contents()[..i]
      {
        if byteAt(i) == needle { return i; }
      }
      index := -1;
    }

    function byteAt(index: nat): (b: byte)
      requires Valid() && index < length
      reads this, storage
      ensures b == Contents()[index]
    {
      WrapOnce(start + index, capacity);
      storage[(start + index) % capacity]
    }
  }
}
