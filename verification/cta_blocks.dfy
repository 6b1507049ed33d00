/** The data block collection of a CTA-861 extension (CTA-861-G, section 7.5): a
    sequence of blocks, each a header byte (three tag bits, five length bits) and
    that many payload bytes.
 */
module CtaBlocks {
  import opened Bytes

  datatype Block = Block(tag: nat, payload: seq<byte>) {
    ghost predicate Valid() {
      tag < 8 && |payload| < 32
    }
  }

  function Header(b: Block): byte
    requires b.tag < 8 && |b.payload| < 32
  {
    b.tag * 32 + |b.payload|
  }

  ghost predicate AllValid(blocks: seq<Block>) {
    forall i :: 0 <= i < |blocks| ==> blocks[i].Valid()
  }

  function Encode(blocks: seq<Block>): (s: seq<byte>)
    requires AllValid(blocks)
  {
    if blocks == [] then []
    else [Header(blocks[0])] + blocks[0].payload + Encode(blocks[1..])
  }

  /** The blocks of a collection, or None when a length runs past its end. */
  function Parse(s: seq<byte>): (r: Option<seq<Block>>)
    ensures r.Some? ==> AllValid(r.value)
    decreases |s|
  {
    if s == [] then Some([])
    else
      var length := s[0] % 32;
      if 1 + length > |s| then None
      else
        match Parse(s[1 + length..])
        case None => None
        case Some(rest) => Some([Block(s[0] / 32, s[1..1 + length])] + rest)
  }

  // ------------------------------------------------------------- one block

  lemma EmptyCollection()
    ensures Encode([]) == [] && Parse([]) == Some([])
  {
  }

  lemma EncodeHead(blocks: seq<Block>)
    requires AllValid(blocks) && blocks != []
    ensures Encode(blocks) == ([Header(blocks[0])] + blocks[0].payload) + Encode(blocks[1..])
  {
  }

  lemma HeaderSplits(b: Block)
    requires b.Valid()
    ensures Header(b) % 32 == |b.payload| && Header(b) / 32 == b.tag
  {
  }

  lemma HeaderJoins(h: byte, payload: seq<byte>)
    requires |payload| == h % 32
    ensures Block(h / 32, payload).Valid() && Header(Block(h / 32, payload)) == h
  {
  }

  /** A printed block in front of a collection is parsed as that block. */
  lemma ParseHead(b: Block, rest: seq<byte>, blocks: seq<Block>)
    requires b.Valid() && Parse(rest) == Some(blocks)
    ensures Parse(([Header(b)] + b.payload) + rest) == Some([b] + blocks)
  {
    hide Header;
    HeaderSplits(b);
    var s := ([Header(b)] + b.payload) + rest;
    assert s[0] == Header(b);
    assert s[1..1 + |b.payload|] == b.payload;
    assert s[1 + |b.payload|..] == rest;
  }

  /** A parsed collection begins with the block its first bytes say. */
  lemma ParseTail(s: seq<byte>)
    requires s != [] && Parse(s).Some?
    ensures var n := 1 + s[0] % 32;
      && n <= |s| && Parse(s[n..]).Some?
      && Parse(s).value == [Block(s[0] / 32, s[1..n])] + Parse(s[n..]).value
  {
  }

  // ------------------------------------------------------------ round trips

  /** Parsing finds exactly the blocks that were written. */
  lemma {:induction false} ParseEncode(blocks: seq<Block>)
    requires AllValid(blocks)
    ensures Parse(Encode(blocks)) == Some(blocks)
  {
    hide Encode, Parse, Header;
    if blocks == [] {
      EmptyCollection();
    } else {
      ParseEncode(blocks[1..]);
      EncodeHead(blocks);
      ParseHead(blocks[0], Encode(blocks[1..]), blocks[1..]);
      assert [blocks[0]] + blocks[1..] == blocks;
    }
  }

  /** Parsed blocks tile the collection: nothing is skipped and nothing left over. */
  lemma {:induction false} EncodeParse(s: seq<byte>)
    requires Parse(s).Some?
    ensures Encode(Parse(s).value) == s
    decreases |s|
  {
    hide Encode, Parse, Header;
    if s == [] {
      EmptyCollection();
    } else {
      ParseTail(s);
      var n := 1 + s[0] % 32;
      EncodeParse(s[n..]);
      HeaderJoins(s[0], s[1..n]);
      EncodeHead(Parse(s).value);
      assert Parse(s).value[1..] == Parse(s[n..]).value;
      assert ([s[0]] + s[1..n]) + s[n..] == s;
    }
  }

  lemma {:induction false} EncodeConcat(a: seq<Block>, b: seq<Block>)
    requires AllValid(a) && AllValid(b)
    ensures AllValid(a + b) && Encode(a + b) == Encode(a) + Encode(b)
  {
    if a == [] {
      assert a + b == b;
    } else {
      EncodeConcat(a[1..], b);
      assert (a + b)[1..] == a[1..] + b;
      assert (a + b)[0] == a[0];
    }
  }
}
