/** Scatter/gather layout of a frame (driver/gc573_capture.c, cap_layout, cap_copy and
    cap_guard): a frame lies in 64 KiB chunks, the DMA engine follows 4 KiB descriptors.

    Memory is a function from DMA address to byte.  The chunks are what the DMA API hands
    out: `addresses[bank * CHUNKS + i]`, 64 KiB each, no two overlapping, below 2^64.
 */
module FrameLayout {

  import opened Bytes

  const CHUNK := 65536
  const PAGE := 4096
  const MAX_FRAME := 11059200
  const CHUNKS := 169
  const BANKS := 4
  const BANK_ENTRIES := 4096
  const WORD32 := 4294967296
  const GUARD: byte := 0xa5
  const CONTROL := 0x80008000

  type Memory = nat -> byte

  datatype Descriptor = Descriptor(low: nat, high: nat, words: nat, control: nat)

  function Address(d: Descriptor): nat {
    d.high * WORD32 + d.low
  }

  // ------------------------------------------------------------- the chunks

  ghost predicate Chunked(addresses: seq<nat>) {
    && |addresses| == CHUNKS * BANKS
    && (forall i: nat :: i < |addresses| ==> addresses[i] + CHUNK <= WORD32 * WORD32)
    && (forall i: nat, j: nat :: i < |addresses| && j < |addresses| && i != j ==>
          addresses[i] + CHUNK <= addresses[j] || addresses[j] + CHUNK <= addresses[i])
  }

  predicate FrameSize(bytes: nat) {
    bytes % 4 == 0 && bytes <= MAX_FRAME
  }

  /** The address of byte p of a bank's chunks. */
  function At(addresses: seq<nat>, bank: nat, p: nat): nat
    requires |addresses| == CHUNKS * BANKS && bank < BANKS && p < CHUNKS * CHUNK
  {
    addresses[bank * CHUNKS + p / CHUNK] + p % CHUNK
  }

  lemma ChunkIndex(bank: nat, p: nat)
    requires bank < BANKS && p < CHUNKS * CHUNK
    ensures p / CHUNK < CHUNKS && bank * CHUNKS + p / CHUNK < CHUNKS * BANKS
    ensures p == p / CHUNK * CHUNK + p % CHUNK && p % CHUNK < CHUNK
  {
  }

  /** Different bytes of the banks have different addresses. */
  lemma AtIsInjective(addresses: seq<nat>, bank: nat, p: nat, bank': nat, q: nat)
    requires Chunked(addresses) && bank < BANKS && bank' < BANKS
    requires p < CHUNKS * CHUNK && q < CHUNKS * CHUNK && (bank != bank' || p != q)
    ensures At(addresses, bank, p) != At(addresses, bank', q)
  {
    ChunkIndex(bank, p);
    ChunkIndex(bank', q);
  }

  /** Two bytes of one page lie as far apart in memory as in the frame. */
  lemma PageIsFlat(addresses: seq<nat>, bank: nat, j: nat, i: nat)
    requires |addresses| == CHUNKS * BANKS && bank < BANKS && i < PAGE && PAGE * j + i < CHUNKS * CHUNK
    ensures PAGE * j < CHUNKS * CHUNK
    ensures At(addresses, bank, PAGE * j + i) == At(addresses, bank, PAGE * j) + i
    ensures (PAGE * j) % CHUNK + PAGE <= CHUNK
  {
    var k, m := j / 16, j % 16;
    assert PAGE * j == CHUNK * k + PAGE * m;
    assert (PAGE * j + i) / CHUNK == k && (PAGE * j) / CHUNK == k;
  }

  // -------------------------------------------------------- the descriptors

  function Count(bytes: nat): (n: nat)
    ensures PAGE * n >= bytes && (n > 0 ==> PAGE * (n - 1) < bytes)
  {
    (bytes + PAGE - 1) / PAGE
  }

  function Size(bytes: nat, j: nat): (n: nat)
    requires j < Count(bytes)
    ensures 0 < n <= PAGE && PAGE * j + n <= bytes
  {
    if bytes - PAGE * j < PAGE then bytes - PAGE * j else PAGE
  }

  function DescriptorOf(addresses: seq<nat>, bank: nat, bytes: nat, j: nat): Descriptor
    requires |addresses| == CHUNKS * BANKS && bank < BANKS && bytes <= MAX_FRAME && j < Count(bytes)
  {
    var address := At(addresses, bank, PAGE * j);
    Descriptor(address % WORD32, address / WORD32, Size(bytes, j) / 4, CONTROL)
  }

  /** The descriptors of a bank from number j on. */
  function ListFrom(addresses: seq<nat>, bank: nat, bytes: nat, j: nat): (s: seq<Descriptor>)
    requires |addresses| == CHUNKS * BANKS && bank < BANKS && bytes <= MAX_FRAME && j <= Count(bytes)
    ensures |s| == Count(bytes) - j
    ensures forall i: nat :: i < |s| ==> s[i] == DescriptorOf(addresses, bank, bytes, j + i)
    decreases Count(bytes) - j
  {
    if j == Count(bytes) then []
    else [DescriptorOf(addresses, bank, bytes, j)] + ListFrom(addresses, bank, bytes, j + 1)
  }

  // -------------------------------------------------------- the DMA engine

  function Store(m: Memory, a: nat, data: seq<byte>): Memory {
    (x: nat) => if a <= x < a + |data| then data[x - a] else m(x)
  }

  /** The engine takes the frame's bytes in order and writes each descriptor's words. */
  function Engine(m: Memory, list: seq<Descriptor>, data: seq<byte>): Memory
  {
    if list == [] then m
    else
      var n := if 4 * list[0].words < |data| then 4 * list[0].words else |data|;
      Engine(Store(m, Address(list[0]), data[..n]), list[1..], data[n..])
  }

  // ------------------------------------------------------- the driver's view

  /** The frame as cap_copy reads it. */
  function FrameIn(m: Memory, addresses: seq<nat>, bank: nat, bytes: nat): (s: seq<byte>)
    requires |addresses| == CHUNKS * BANKS && bank < BANKS && bytes <= MAX_FRAME
    ensures |s| == bytes
  {
    seq<byte>(bytes, (p: nat) requires p < bytes => m(At(addresses, bank, p)))
  }

  /** The bytes behind the frame in its last chunk, if that chunk is not full. */
  ghost predicate InGuard(bytes: nat, p: nat) {
    bytes % 65536 != 0 && bytes <= p < 65536 * (bytes / 65536 + 1)
  }

  ghost predicate GuardIntact(m: Memory, addresses: seq<nat>, bank: nat, bytes: nat)
    requires |addresses| == CHUNKS * BANKS && bank < BANKS && bytes <= MAX_FRAME
  {
    forall p: nat :: InGuard(bytes, p) && p < CHUNKS * CHUNK ==> m(At(addresses, bank, p)) == 0xa5
  }

  // ------------------------------------------------------------ the theorems

  /** Every list fits its 64 KiB bank, every descriptor is a positive number of words
      inside one chunk, and its two halves give the address of its first byte. */
  lemma DescriptorsFit(addresses: seq<nat>, bank: nat, bytes: nat, j: nat)
    requires Chunked(addresses) && bank < BANKS && FrameSize(bytes) && j < Count(bytes)
    ensures Count(bytes) == (bytes + 4095) / 4096 <= 4096
    ensures var d := DescriptorOf(addresses, bank, bytes, j);
      && d.low < 0x1_0000_0000 && d.high < 0x1_0000_0000 && d.control == 0x8000_8000 && d.words > 0
      && Address(d) == At(addresses, bank, 4096 * j)
      && 4 * d.words == (if bytes - 4096 * j < 4096 then bytes - 4096 * j else 4096)
      && var chunk := addresses[bank * 169 + 4096 * j / 65536];
         chunk <= Address(d) && Address(d) + 4 * d.words <= chunk + 65536
  {
    ChunkIndex(bank, PAGE * j);
    PageIsFlat(addresses, bank, j, 0);
    var address := At(addresses, bank, PAGE * j);
    HalfWord(address);
    assert Size(bytes, j) % 4 == 0;
  }

  lemma HalfWord(a: nat)
    requires a < WORD32 * WORD32
    ensures a / WORD32 * WORD32 + a % WORD32 == a && a / WORD32 < WORD32 && a % WORD32 < WORD32
  {
  }

  /** Memory after the engine followed the descriptors from number j on. */
  ghost predicate Written(before: Memory, after: Memory, addresses: seq<nat>, bank: nat, data: seq<byte>, j: nat)
    requires |addresses| == CHUNKS * BANKS && bank < BANKS && |data| <= MAX_FRAME
  {
    && (forall p: nat :: PAGE * j <= p < |data| ==> after(At(addresses, bank, p)) == data[p])
    && (forall x: nat :: after(x) == before(x)
                         || exists p: nat :: PAGE * j <= p < |data| && x == At(addresses, bank, p))
  }

  lemma StorePage(m: Memory, addresses: seq<nat>, bank: nat, data: seq<byte>, j: nat)
    requires |addresses| == CHUNKS * BANKS
    requires Chunked(addresses) && bank < BANKS && FrameSize(|data|) && j < Count(|data|)
    ensures var n := Size(|data|, j);
      var m' := Store(m, At(addresses, bank, PAGE * j), data[PAGE * j..PAGE * j + n]);
      && (forall p: nat :: PAGE * j <= p < PAGE * j + n ==> m'(At(addresses, bank, p)) == data[p])
      && (forall x: nat :: m'(x) == m(x)
                           || exists p: nat :: PAGE * j <= p < PAGE * j + n && x == At(addresses, bank, p))
  {
    hide At, Chunked;
    var n := Size(|data|, j);
    var a := At(addresses, bank, PAGE * j);
    var m' := Store(m, a, data[PAGE * j..PAGE * j + n]);
    forall p: nat | PAGE * j <= p < PAGE * j + n ensures At(addresses, bank, p) == a + (p - PAGE * j) {
      PageIsFlat(addresses, bank, j, p - PAGE * j);
    }
    forall x: nat | m'(x) != m(x)
      ensures exists p: nat :: PAGE * j <= p < PAGE * j + n && x == At(addresses, bank, p)
    {
      assert At(addresses, bank, PAGE * j + (x - a)) == x;
    }
  }

  function Start(bytes: nat, j: nat): (p: nat)
    ensures p <= bytes
  {
    if PAGE * j < bytes then PAGE * j else bytes
  }

  /** One descriptor of the engine's run. */
  lemma EngineStep(m: Memory, addresses: seq<nat>, bank: nat, data: seq<byte>, j: nat)
    requires |addresses| == CHUNKS * BANKS
    requires Chunked(addresses) && bank < BANKS && FrameSize(|data|) && j < Count(|data|)
    ensures var n := Size(|data|, j);
      var m' := Store(m, At(addresses, bank, PAGE * j), data[PAGE * j..PAGE * j + n]);
      Engine(m, ListFrom(addresses, bank, |data|, j), data[Start(|data|, j)..])
      == Engine(m', ListFrom(addresses, bank, |data|, j + 1), data[Start(|data|, j + 1)..])
  {
    hide At, Chunked, Store;
    var n, list := Size(|data|, j), ListFrom(addresses, bank, |data|, j);
    DescriptorsFit(addresses, bank, |data|, j);
    var rest := data[PAGE * j..];
    assert rest[..n] == data[PAGE * j..PAGE * j + n];
    assert rest[n..] == data[Start(|data|, j + 1)..];
    assert list[1..] == ListFrom(addresses, bank, |data|, j + 1);
  }

  lemma {:induction false} EngineWrites(m: Memory, addresses: seq<nat>, bank: nat, data: seq<byte>, j: nat)
    requires |addresses| == CHUNKS * BANKS
    requires Chunked(addresses) && bank < BANKS && FrameSize(|data|) && j <= Count(|data|)
    ensures Written(m, Engine(m, ListFrom(addresses, bank, |data|, j), data[Start(|data|, j)..]), addresses, bank, data, j)
    decreases Count(|data|) - j
  {
    hide At, Chunked, Store, Engine, ListFrom, Count, Start;
    if j < Count(|data|) {
      var n := Size(|data|, j);
      var m' := Store(m, At(addresses, bank, PAGE * j), data[PAGE * j..PAGE * j + n]);
      EngineStep(m, addresses, bank, data, j);
      StorePage(m, addresses, bank, data, j);
      EngineWrites(m', addresses, bank, data, j + 1);
      forall p: nat, q: nat | PAGE * j <= p < PAGE * j + n && PAGE * (j + 1) <= q < |data|
        ensures At(addresses, bank, p) != At(addresses, bank, q)
      {
        AtIsInjective(addresses, bank, p, bank, q);
      }
    } else {
      EngineStops(m, addresses, bank, data);
    }
  }

  lemma EngineStops(m: Memory, addresses: seq<nat>, bank: nat, data: seq<byte>)
    requires Chunked(addresses) && bank < BANKS && FrameSize(|data|)
    ensures Engine(m, ListFrom(addresses, bank, |data|, Count(|data|)), []) == m
    ensures data[Start(|data|, Count(|data|))..] == []
  {
  }

  /** A frame written through a bank's descriptors is the frame cap_copy reads, and the
      engine leaves the guard bytes and all other banks alone. */
  lemma WrittenFrameIsRead(m: Memory, addresses: seq<nat>, bank: nat, data: seq<byte>)
    requires |addresses| == CHUNKS * BANKS
    requires Chunked(addresses) && bank < BANKS && FrameSize(|data|)
    ensures var m' := Engine(m, ListFrom(addresses, bank, |data|, 0), data);
      && FrameIn(m', addresses, bank, |data|) == data
      && (GuardIntact(m, addresses, bank, |data|) ==> GuardIntact(m', addresses, bank, |data|))
      && (forall other: nat, bytes: nat :: other < BANKS && other != bank && bytes <= MAX_FRAME ==>
            && FrameIn(m', addresses, other, bytes) == FrameIn(m, addresses, other, bytes)
            && (GuardIntact(m, addresses, other, bytes) ==> GuardIntact(m', addresses, other, bytes)))
  {
    hide At, Chunked, Store, Engine, ListFrom, Count;
    var m' := Engine(m, ListFrom(addresses, bank, |data|, 0), data);
    EngineWrites(m, addresses, bank, data, 0);
    assert data[Start(|data|, 0)..] == data;
    forall other: nat, q: nat | other < BANKS && q < CHUNKS * CHUNK && (other != bank || q >= |data|)
      ensures m'(At(addresses, other, q)) == m(At(addresses, other, q))
    {
      forall p: nat | p < |data| ensures At(addresses, other, q) != At(addresses, bank, p) {
        AtIsInjective(addresses, other, q, bank, p);
      }
    }
  }

  // -------------------------------------------------------- the capture state

  /** The chunks, the descriptor memory shared by the four banks, and the frame size. */
  class Frames {
    const addresses: seq<nat>
    const desc: array<Descriptor>
    var memory: Memory
    var frameBytes: nat
    var descriptors: nat
    var completedBank: nat

    ghost predicate Valid()
      reads this
    {
      && Chunked(addresses) && |addresses| == CHUNKS * BANKS
      && desc.Length == BANKS * BANK_ENTRIES
      && frameBytes <= MAX_FRAME && completedBank < BANKS
    }

    /** The descriptor memory holds every bank's list for the current frame size. */
    ghost predicate LaidOut()
      requires Valid()
      reads this, desc
    {
      && FrameSize(frameBytes) && Count(frameBytes) <= BANK_ENTRIES && descriptors == Count(frameBytes)
      && forall bank: nat :: bank < BANKS ==>
           desc[bank * BANK_ENTRIES..bank * BANK_ENTRIES + Count(frameBytes)]
           == ListFrom(addresses, bank, frameBytes, 0)
    }

    constructor (addresses: seq<nat>)
      requires Chunked(addresses)
      ensures Valid() && fresh(desc) && this.addresses == addresses
    {
      this.addresses := addresses;
      desc := new Descriptor[BANKS * BANK_ENTRIES](_ => Descriptor(0, 0, 0, 0));
      memory := (_: nat) => 0;
      frameBytes, descriptors, completedBank := 0, 0, 0;
    }

    method FillChunks()
      requires Valid()
      modifies this`memory
      ensures Filled(memory, addresses, |addresses|)
    {
      var i := 0;
      while i < |addresses|
        invariant i <= |addresses| && Filled(memory, addresses, i)
      {
        memory := Store(memory, addresses[i], seq<byte>(CHUNK, _ => GUARD));
        i := i + 1;
      }
    }

    /** Writes one bank's list and returns its length. */
    method WriteList(bank: nat) returns (n: nat)
      requires Valid() && FrameSize(frameBytes) && bank < BANKS
      modifies desc
      ensures n == Count(frameBytes) <= BANK_ENTRIES
      ensures desc[bank * BANK_ENTRIES..bank * BANK_ENTRIES + n] == ListFrom(addresses, bank, frameBytes, 0)
      ensures desc[..bank * BANK_ENTRIES] == old(desc[..bank * BANK_ENTRIES])
      ensures desc[(bank + 1) * BANK_ENTRIES..] == old(desc[(bank + 1) * BANK_ENTRIES..])
    {
      hide Chunked, At, DescriptorOf, Count, ListFrom, FrameSize;
      var base := bank * BANK_ENTRIES;
      var off := 0;
      n := 0;
      DescriptorsInBank(frameBytes);
      while off < frameBytes
        invariant n <= Count(frameBytes) <= BANK_ENTRIES && (off < frameBytes ==> off == PAGE * n)
        invariant off <= frameBytes && (off == frameBytes ==> n == Count(frameBytes))
        invariant forall j: nat :: j < n ==> desc[base + j] == DescriptorOf(addresses, bank, frameBytes, j)
        invariant desc[..base] == old(desc[..base])
        invariant desc[base + BANK_ENTRIES..] == old(desc[base + BANK_ENTRIES..])
      {
        var address := addresses[bank * CHUNKS + off / CHUNK] + off % CHUNK;
        var size := if frameBytes - off < PAGE then frameBytes - off else PAGE;
        EntryIs(addresses, bank, frameBytes, n);
        desc[base + n] := Descriptor(address % WORD32, address / WORD32, size / 4, CONTROL);
        n := n + 1;
        off := off + size;
      }
    }

    /** Lays out the four banks: all chunks filled with the guard byte, then one list of
        descriptors a bank. */
    method Layout(bytes: nat)
      requires Valid() && FrameSize(bytes)
      modifies this`memory, this`frameBytes, this`descriptors, this`completedBank, desc
      ensures Valid() && frameBytes == bytes && LaidOut() && completedBank == 0
      ensures forall bank: nat, p: nat :: bank < BANKS && p < CHUNKS * CHUNK ==>
                memory(At(addresses, bank, p)) == 0xa5
    {
      hide Chunked, At, DescriptorOf, Count, ListFrom, Filled;
      frameBytes := bytes;
      FillChunks();
      FilledEverywhere(memory, addresses);
      var bank := 0;
      DescriptorsInBank(bytes);
      while bank < BANKS
        modifies desc, this`descriptors
        invariant bank <= BANKS && (bank > 0 ==> descriptors == Count(bytes))
        invariant forall b: nat :: b < bank ==>
                    desc[b * BANK_ENTRIES..b * BANK_ENTRIES + Count(bytes)] == ListFrom(addresses, b, bytes, 0)
      {
        ghost var was := desc[..];
        descriptors := WriteList(bank);
        forall b: nat | b < bank
          ensures desc[b * BANK_ENTRIES..b * BANK_ENTRIES + Count(bytes)] == ListFrom(addresses, b, bytes, 0)
        {
          SliceOfPrefix(was, desc[..], bank * BANK_ENTRIES, b * BANK_ENTRIES, b * BANK_ENTRIES + Count(bytes));
        }
        bank := bank + 1;
      }
      completedBank := 0;
    }

    /** Copies the completed bank's frame out, chunk by chunk. */
    method Copy(dest: array<byte>)
      requires Valid() && dest.Length >= frameBytes
      modifies dest
      ensures dest[..frameBytes] == FrameIn(memory, addresses, completedBank, frameBytes)
      ensures dest[frameBytes..] == old(dest[frameBytes..])
    {
      var off := 0;
      while off < frameBytes
        invariant off <= frameBytes && (off < frameBytes ==> off % CHUNK == 0)
        invariant forall p: nat :: p < off ==> dest[p] == memory(At(addresses, completedBank, p))
        invariant dest[frameBytes..] == old(dest[frameBytes..])
      {
        var size := if frameBytes - off < CHUNK then frameBytes - off else CHUNK;
        ChunkIndex(completedBank, off);
        var chunk := addresses[completedBank * CHUNKS + off / CHUNK];
        forall k: nat | k < size {
          dest[off + k] := memory(chunk + k);
        }
        forall p: nat | off <= p < off + size
          ensures dest[p] == memory(At(addresses, completedBank, p))
        {
          var k := p - off;
          SameChunk(off, k);
          assert dest[off + k] == memory(chunk + k);
        }
        off := off + size;
      }
    }

    /** Checks the bytes behind the completed bank's frame. */
    method Guard() returns (ok: bool)
      requires Valid()
      ensures ok <==> GuardIntact(memory, addresses, completedBank, frameBytes)
    {
      ok := true;
      var start, i := frameBytes % CHUNK, frameBytes % CHUNK;
      var full := frameBytes - start;
      assert full == CHUNK * (frameBytes / CHUNK);
      while i != 0 && i < CHUNK
        invariant start <= i <= CHUNK && (start == 0 ==> i == 0)
        invariant ok <==> forall p: nat :: full + start <= p < full + i ==>
                            memory(At(addresses, completedBank, p)) == GUARD
        decreases CHUNK - i
      {
        SameChunk(full, i);
        ChunkIndex(completedBank, full);
        if memory(addresses[completedBank * CHUNKS + frameBytes / CHUNK] + i) != GUARD {
          ok := false;
        }
        assert At(addresses, completedBank, full + i)
            == addresses[completedBank * CHUNKS + frameBytes / CHUNK] + i;
        i := i + 1;
      }
    }
  }

  /** The list entry the loop writes at offset PAGE * j, and how far the list then is. */
  lemma EntryIs(addresses: seq<nat>, bank: nat, bytes: nat, j: nat)
    requires |addresses| == CHUNKS * BANKS && bank < BANKS && bytes <= MAX_FRAME && PAGE * j < bytes
    ensures j < Count(bytes) && (PAGE * (j + 1) >= bytes <==> j + 1 == Count(bytes))
    ensures bank * CHUNKS + PAGE * j / CHUNK < |addresses|
    ensures var off := PAGE * j;
      var address := addresses[bank * CHUNKS + off / CHUNK] + off % CHUNK;
      var size := if bytes - off < PAGE then bytes - off else PAGE;
      DescriptorOf(addresses, bank, bytes, j) == Descriptor(address % WORD32, address / WORD32, size / 4, CONTROL)
  {
  }

  ghost predicate Filled(m: Memory, addresses: seq<nat>, count: nat) {
    forall k: nat, a: nat :: k < count && k < |addresses| && addresses[k] <= a < addresses[k] + CHUNK ==>
      m(a) == GUARD
  }

  lemma FilledEverywhere(m: Memory, addresses: seq<nat>)
    requires Chunked(addresses) && Filled(m, addresses, |addresses|)
    ensures forall bank: nat, p: nat :: bank < BANKS && p < CHUNKS * CHUNK ==> m(At(addresses, bank, p)) == 0xa5
  {
    forall bank: nat, p: nat | bank < BANKS && p < CHUNKS * CHUNK ensures m(At(addresses, bank, p)) == GUARD {
      ChunkIndex(bank, p);
    }
  }

  lemma SliceOfPrefix<T>(s: seq<T>, t: seq<T>, n: nat, from: nat, to: nat)
    requires n <= |s| && n <= |t| && s[..n] == t[..n] && from <= to <= n
    ensures s[from..to] == t[from..to]
  {
    forall i: nat | i < to - from ensures s[from..to][i] == t[from..to][i] {
      assert s[..n][from + i] == s[from + i] && t[..n][from + i] == t[from + i];
    }
  }

  lemma SameChunk(off: nat, k: nat)
    requires off % CHUNK == 0 && k < CHUNK
    ensures (off + k) / CHUNK == off / CHUNK && (off + k) % CHUNK == k
  {
  }

  lemma DescriptorsInBank(bytes: nat)
    requires bytes <= MAX_FRAME
    ensures Count(bytes) <= BANK_ENTRIES
  {
  }
}
