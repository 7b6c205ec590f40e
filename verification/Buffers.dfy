/** The growing writer and the list of blocks that messages are packed into. */
module Buffers {
  import opened ByteOrders

  /** The values as words of `width` bytes each. */
  function Words(order: ByteOrder, width: nat, values: seq<int>): seq<seq<Byte>> {
    seq(|values|, i requires 0 <= i < |values| => Put(order, values[i], width))
  }

  function Concat(blocks: seq<seq<Byte>>): seq<Byte> {
    if blocks == [] then [] else Concat(blocks[..|blocks| - 1]) + blocks[|blocks| - 1]
  }

  lemma NextWord(words: seq<seq<Byte>>, i: nat)
    requires i < |words|
    ensures Concat(words[..i + 1]) == Concat(words[..i]) + words[i]
  {
    assert words[..i + 1][..i] == words[..i];
  }

  /** The bytes that `n` values of `width` bytes take. */
  function Room(width: nat, n: nat): nat {
    if n == 0 then 0 else width + Room(width, n - 1)
  }

  lemma {:induction false} RoomIsProduct(width: nat, n: nat)
    ensures Room(width, n) == width * n
  {
    if n > 0 {
      RoomIsProduct(width, n - 1);
    }
  }

  class Writer {
    var buf: array<Byte>
    var off: nat

    ghost predicate Valid()
      reads this
    {
      off <= buf.Length
    }

    function Contents(): seq<Byte>
      requires Valid()
      reads this, buf
    {
      buf[..off]
    }

    constructor (capacity: nat)
      ensures Valid() && Contents() == [] && fresh(buf)
    {
      buf := new Byte[capacity](_ => 0);
      off := 0;
    }

    method GrowSlice(n: nat)
      requires Valid()
      modifies this
      ensures Valid() && Contents() == old(Contents()) && off == old(off) && fresh(buf)
      ensures buf.Length == if old(buf.Length) + n < 2 * old(buf.Length) then 2 * old(buf.Length) else old(buf.Length) + n
    {
      var c := buf.Length + n;
      if c < 2 * buf.Length {
        c := 2 * buf.Length;
      }
      var bigger := new Byte[c](_ => 0);
      for i := 0 to off
        invariant bigger[..i] == buf[..i]
        modifies bigger
      {
        bigger[i] := buf[i];
      }
      buf := bigger;
    }

    /** Makes room for `n` more bytes; nothing written so far is lost. */
    method Grow(n: nat)
      requires Valid()
      modifies this
      ensures Valid() && Contents() == old(Contents()) && off == old(off)
      ensures off + n <= buf.Length
      ensures buf == old(buf) || fresh(buf)
    {
      if off + n < buf.Length {
        return;
      }
      GrowSlice(n);
    }

    /** Copies bytes that there is room for. */
    method Append(bytes: seq<Byte>)
      requires Valid() && off + |bytes| <= buf.Length
      modifies this`off, buf
      ensures Valid() && Contents() == old(Contents()) + bytes
    {
      var start := off;
      for i := 0 to |bytes|
        invariant off == start + i && buf[..off] == old(buf[..start]) + bytes[..i]
      {
        buf[off] := bytes[i];
        off := off + 1;
      }
      assert bytes[..|bytes|] == bytes;
    }

    /** Writes words one by one into room that is already there. */
    method WriteWords(width: nat, words: seq<seq<Byte>>)
      requires Valid() && off + Room(width, |words|) <= buf.Length
      requires forall i | 0 <= i < |words| :: |words[i]| == width
      modifies this`off, buf
      ensures Valid() && Contents() == old(Contents()) + Concat(words)
    {
      ghost var before := Contents();
      for i := 0 to |words|
        invariant Valid() && off + Room(width, |words| - i) <= buf.Length
        invariant Contents() == before + Concat(words[..i])
      {
        NextWord(words, i);
        ghost var done := Concat(words[..i]);
        Append(words[i]);
        assert Contents() == before + (done + words[i]);
      }
      assert words[..|words|] == words;
    }

    /** `WriteInt8s`, `WriteInt16s` and `WriteInt32s`, which differ in the width only. */
    method WriteInts(order: ByteOrder, width: nat, values: seq<int>)
      requires Valid()
      modifies this, buf
      ensures Valid() && Contents() == old(Contents()) + Concat(Words(order, width, values))
      ensures buf == old(buf) || fresh(buf)
    {
      RoomIsProduct(width, |values|);
      Grow(width * |values|);
      WriteWords(width, Words(order, width, values));
    }

    method WriteInt(order: ByteOrder, width: nat, value: int)
      requires Valid()
      modifies this, buf
      ensures Valid() && Contents() == old(Contents()) + Put(order, value, width)
      ensures buf == old(buf) || fresh(buf)
    {
      WriteInts(order, width, [value]);
      OneWord(order, width, value);
    }
  }

  lemma OneWord(order: ByteOrder, width: nat, value: int)
    ensures Concat(Words(order, width, [value])) == Put(order, value, width)
  {
    var words := Words(order, width, [value]);
    assert words[..0] == [] && [] + words[0] == words[0];
  }

  // --- The list of blocks ---

  datatype Block = Raw(bytes: seq<Byte>) | Written(writer: Writer)

  ghost function Writers(blocks: seq<Block>): set<Writer> {
    set i | 0 <= i < |blocks| && blocks[i].Written? :: blocks[i].writer
  }

  ghost function Arrays(blocks: seq<Block>): set<array<Byte>>
    reads Writers(blocks)
  {
    set w | w in Writers(blocks) :: w.buf
  }

  ghost predicate BlocksValid(blocks: seq<Block>)
    reads Writers(blocks)
  {
    forall w | w in Writers(blocks) :: w.Valid()
  }

  /** What a node answers for its block; its length is what it answers for `Len`. */
  function BlockBytes(b: Block): seq<Byte>
    requires b.Written? ==> b.writer.Valid()
    reads if b.Written? then {b.writer} else {}
    reads if b.Written? then {b.writer.buf} else {}
  {
    match b
    case Raw(bytes) => bytes
    case Written(w) => w.Contents()
  }

  /** The bytes of the blocks, in order. */
  ghost function BytesOf(blocks: seq<Block>): seq<Byte>
    requires BlocksValid(blocks)
    reads Writers(blocks), Arrays(blocks)
  {
    if blocks == [] then [] else
      assert forall i | 0 <= i < |blocks[1..]| :: blocks[1..][i] == blocks[i + 1];
      assert blocks[0].Written? ==> blocks[0].writer in Writers(blocks);
      BlockBytes(blocks[0]) + BytesOf(blocks[1..])
  }

  class NocopyNode {
    const block: Block
    var prev: NocopyNode?
    var next: NocopyNode?

    constructor (block: Block)
      ensures this.block == block && prev == null && next == null
    {
      this.block := block;
      prev, next := null, null;
    }
  }

  class NocopyBuffer {
    /** The cached length, or -1. */
    var len: int
    var num: nat
    var head: NocopyNode?
    var tail: NocopyNode?
    ghost var nodes: seq<NocopyNode>
    ghost var blocks: seq<Block>

    ghost predicate Linked()
      reads this, nodes
    {
      && num == |nodes| == |blocks|
      && (if nodes == [] then head == null && tail == null else head == nodes[0] && tail == nodes[|nodes| - 1])
      && (forall i | 0 <= i < |nodes| :: nodes[i].block == blocks[i])
      && (forall i | 0 <= i < |nodes| - 1 :: nodes[i].next == nodes[i + 1])
      && (forall i | 0 < i < |nodes| :: nodes[i].prev == nodes[i - 1])
      && (nodes != [] ==> nodes[0].prev == null && nodes[|nodes| - 1].next == null)
      && (forall i, j | 0 <= i < j < |nodes| :: nodes[i] != nodes[j])
    }

    ghost predicate Valid()
      reads this, nodes, Writers(blocks), Arrays(blocks)
    {
      && Linked()
      && BlocksValid(blocks)
      && (len == -1 || len == |BytesOf(blocks)|)
    }

    constructor ()
      ensures Valid() && blocks == [] && nodes == []
    {
      len, num := -1, 0;
      head, tail := null, null;
      nodes, blocks := [], [];
    }

    method AddToTail(node: NocopyNode)
      requires Linked() && node !in nodes && node.prev == null && node.next == null
      modifies this, nodes, node
      ensures Linked() && nodes == old(nodes) + [node] && blocks == old(blocks) + [node.block] && len == -1
    {
      if tail == null {
        head, tail := node, node;
      } else {
        node.prev := tail;
        tail.next := node;
        tail := node;
      }
      len := -1;
      num := num + 1;
      nodes := nodes + [node];
      blocks := blocks + [node.block];
    }

    method Mount(block: Block)
      requires Valid() && (block.Written? ==> block.writer.Valid())
      modifies this, nodes
      ensures Valid() && blocks == old(blocks) + [block]
      ensures |nodes| == |old(nodes)| + 1 && nodes[..|old(nodes)|] == old(nodes) && fresh(nodes[|old(nodes)|])
    {
      var node := new NocopyNode(block);
      AddToTail(node);
      assert forall w | w in Writers(blocks) :: w in Writers(old(blocks)) || block == Written(w);
    }

    method Measure() returns (n: nat)
      requires Valid()
      ensures n == |BytesOf(blocks)|
    {
      n := 0;
      var node := head;
      ghost var i := 0;
      while node != null
        invariant 0 <= i <= |nodes|
        invariant node == if i < |nodes| then nodes[i] else null
        invariant n + |BytesOf(blocks[i..])| == |BytesOf(blocks)|
        decreases |nodes| - i
      {
        NextBlock(blocks, i);
        n := n + |BlockBytes(node.block)|;
        node := node.next;
        i := i + 1;
      }
    }

    method Remember(n: nat)
      requires Valid() && n == |BytesOf(blocks)|
      modifies this`len
      ensures Valid() && |BytesOf(blocks)| == n
    {
      ghost var all := BytesOf(blocks);
      ghost var cells: set<object> := Writers(blocks) + Arrays(blocks);
      assert this !in cells;
      len := n;
      assert BlocksValid(blocks) && BytesOf(blocks) == all;
    }

    /** The length of all blocks, summed up once and remembered until the next mount. */
    method Len() returns (n: nat)
      requires Valid()
      modifies this`len
      ensures Valid() && n == |BytesOf(blocks)|
    {
      if len >= 0 {
        return len;
      }
      n := Measure();
      Remember(n);
    }

    /** The blocks' bytes, in order. */
    method Bytes() returns (bs: seq<Byte>)
      requires Valid()
      ensures bs == BytesOf(blocks)
    {
      bs := [];
      if num == 0 {
        return;
      }
      if num == 1 {
        NextBlock(blocks, 0);
        bs := BlockBytes(head.block);
        return;
      }
      var node := head;
      ghost var i := 0;
      while node != null
        invariant 0 <= i <= |nodes|
        invariant node == if i < |nodes| then nodes[i] else null
        invariant bs + BytesOf(blocks[i..]) == BytesOf(blocks)
        decreases |nodes| - i
      {
        NextBlock(blocks, i);
        bs := bs + BlockBytes(node.block);
        node := node.next;
        i := i + 1;
      }
    }
  }

  lemma NextBlock(blocks: seq<Block>, i: nat)
    requires BlocksValid(blocks) && i < |blocks|
    ensures BlocksValid(blocks[i..]) && BlocksValid(blocks[i + 1..])
    ensures blocks[i].Written? ==> blocks[i].writer.Valid()
    ensures BytesOf(blocks[i..]) == BlockBytes(blocks[i]) + BytesOf(blocks[i + 1..])
  {
  }
}
