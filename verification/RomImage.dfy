/** The binary image of a ROM file system (tools/mkromfs.py), and reading it back.

    The image is a tree of directory entries of four 32-bit words (type, name, data, size),
    written in the byte order of the machines concerned, which is little-endian.
 */
module RomImage {

  newtype byte = x: int | 0 <= x < 256
  type Bytes = seq<byte>

  datatype Node = File(name: Bytes, data: Bytes) | Folder(name: Bytes, children: seq<Node>)

  datatype Result<T> = Ok(value: T) | StructError
  datatype Option<T> = None | Some(value: T)

  const WORD := 0x1_0000_0000
  const DIRENT := 16           // struct.Struct('IIII').size
  const FILE := 0              // ROMFS_DIRENT_FILE
  const DIR := 1               // ROMFS_DIRENT_DIR

  // ---- The writer -------------------------------------------------------------------------

  function Zeros(n: nat): (r: Bytes)
    ensures |r| == n
  {
    seq(n, _ => 0)
  }

  /** bin_name: padded to a multiple of four with at least one NUL. */
  function BinName(name: Bytes): (r: Bytes)
    ensures |r| % 4 == 0 && |name| < |r|
  {
    name + Zeros(4 - |name| % 4)
  }

  function Padded(data: Bytes): (r: Bytes)
    ensures |r| % 4 == 0 && |data| <= |r|
  {
    if |data| % 4 != 0 then data + Zeros(4 - |data| % 4) else data
  }

  function Low(n: nat): byte {
    (n % 256) as byte
  }

  /** One 'I' of the struct module. */
  function Word(n: nat): (r: Bytes)
    ensures |r| == 4
  {
    [Low(n), Low(n / 0x100), Low(n / 0x1_0000), Low(n / 0x100_0000)]
  }

  function Kind(n: Node): nat {
    if n.File? then FILE else DIR
  }

  function EntrySize(n: Node): nat {
    match n
    case File(_, data) => |data|
    case Folder(_, children) => |children|
  }

  function Dirent(kind: nat, name: nat, data: nat, size: nat): (r: Bytes)
    ensures |r| == DIRENT
  {
    Word(kind) + Word(name) + Word(data) + Word(size)
  }

  /** pack raises struct.error when a field does not fit. */
  predicate Fits(name: nat, data: nat, size: nat) {
    name < WORD && data < WORD && size < WORD
  }

  /** bin_data of a file or folder at an address. */
  function NodeData(n: Node, base: nat): Bytes
    decreases n, 1
  {
    match n
    case File(_, data) => data
    case Folder(_, children) =>
      var v := base + DIRENT * |children|;
      Dirents(children, v) + Payload(children, v)
  }

  /** Names and data of the children from address `v` on. */
  function Payload(cs: seq<Node>, v: nat): Bytes
    decreases cs, 1
  {
    if cs == [] then []
    else BinName(cs[0].name) + Padded(NodeData(cs[0], DataAt(cs, v))) + Payload(cs[1..], NextAt(cs, v))
  }

  /** Where the data of the first child goes, and where the second child starts. */
  function DataAt(cs: seq<Node>, v: nat): nat
    requires cs != []
  {
    v + |BinName(cs[0].name)|
  }

  function NextAt(cs: seq<Node>, v: nat): nat
    requires cs != []
    decreases cs, 0
  {
    DataAt(cs, v) + |Padded(NodeData(cs[0], DataAt(cs, v)))|
  }

  function Dirents(cs: seq<Node>, v: nat): (r: Bytes)
    ensures |r| == DIRENT * |cs|
    decreases cs, 1
  {
    if cs == [] then []
    else Dirent(Kind(cs[0]), v, DataAt(cs, v), EntrySize(cs[0])) + Dirents(cs[1..], NextAt(cs, v))
  }

  /** Every field of every entry below fits. */
  predicate AllFit(cs: seq<Node>, v: nat)
    decreases cs
  {
    cs == [] || (
      && Fits(v, DataAt(cs, v), EntrySize(cs[0]))
      && (cs[0].Folder? ==> AllFit(cs[0].children, DataAt(cs, v) + DIRENT * |cs[0].children|))
      && AllFit(cs[1..], NextAt(cs, v)))
  }

  /** One child of a folder. */
  lemma OneChild(cs: seq<Node>, v: nat)
    requires cs != []
    ensures Dirents(cs, v) == Dirent(Kind(cs[0]), v, DataAt(cs, v), EntrySize(cs[0])) + Dirents(cs[1..], NextAt(cs, v))
    ensures Payload(cs, v) ==
      BinName(cs[0].name) + Padded(NodeData(cs[0], DataAt(cs, v))) + Payload(cs[1..], NextAt(cs, v))
  {
    hide Dirent, BinName, Padded, NodeData, Fits, DataAt, NextAt, Kind, EntrySize;
  }

  predicate ChildFits(c: Node, base: nat) {
    c.Folder? ==> AllFit(c.children, base + DIRENT * |c.children|)
  }

  lemma OneFits(cs: seq<Node>, v: nat)
    requires cs != []
    ensures AllFit(cs, v) <==>
      && Fits(v, DataAt(cs, v), EntrySize(cs[0])) && ChildFits(cs[0], DataAt(cs, v)) && AllFit(cs[1..], NextAt(cs, v))
  {
    hide Fits, DataAt, NextAt, EntrySize;
  }

  lemma Regroup(a: Bytes, b: Bytes, c: Bytes)
    ensures a + (b + c) == (a + b) + c
  {
  }

  /** Folder.bin_data, with its loop. */
  method FolderData(children: seq<Node>, base: nat) returns (r: Result<Bytes>)
    ensures r == if AllFit(children, base + DIRENT * |children|)
      then Ok(Dirents(children, base + DIRENT * |children|) + Payload(children, base + DIRENT * |children|))
      else StructError
    decreases children, 1
  {
    hide Dirents, Payload, AllFit, Dirent, BinName, Padded, NodeData, Fits, ChildFits;
    var d, p: Bytes := [], [];
    var v: nat := base + DIRENT * |children|;
    ghost var start := v;
    var i := 0;
    assert children[0..] == children;
    while i < |children|
      invariant i <= |children|
      invariant d + Dirents(children[i..], v) == Dirents(children, start)
      invariant p + Payload(children[i..], v) == Payload(children, start)
      invariant AllFit(children[i..], v) <==> AllFit(children, start)
    {
      var c := children[i];
      assert children[i..][0] == c && children[i..][1..] == children[i + 1..];
      OneChild(children[i..], v);
      OneFits(children[i..], v);
      var name := BinName(c.name);
      var nameAddr := v;
      v := v + |name|;
      var data := ChildData(c, v);
      if data.StructError? {
        return StructError;
      }
      var dataAddr := v;
      var padded := Padded(data.value);
      v := v + |padded|;
      if !Fits(nameAddr, dataAddr, EntrySize(c)) {
        return StructError;
      }
      Regroup(d, Dirent(Kind(c), nameAddr, dataAddr, EntrySize(c)), Dirents(children[i + 1..], v));
      Regroup(p, name + padded, Payload(children[i + 1..], v));
      d := d + Dirent(Kind(c), nameAddr, dataAddr, EntrySize(c));
      p := p + (name + padded);
      i := i + 1;
    }
    NoMore(children[i..], v);
    assert d + [] == d && p + [] == p;
    r := Ok(d + p);
  }

  lemma NoMore(cs: seq<Node>, v: nat)
    requires cs == []
    ensures Dirents(cs, v) == [] && Payload(cs, v) == [] && AllFit(cs, v)
  {
  }

  /** bin_data of a child, which is a file or again a folder. */
  method ChildData(c: Node, base: nat) returns (r: Result<Bytes>)
    ensures r == if ChildFits(c, base) then Ok(NodeData(c, base)) else StructError
    decreases c, 0
  {
    hide Dirents, Payload, AllFit;
    match c {
      case File(_, data) => r := Ok(data);
      case Folder(_, children) => r := FolderData(children, base);
    }
  }

  /** get_bin_data: the entry of the root, its name, and the tree below. */
  method Image(children: seq<Node>, base: nat) returns (r: Result<Bytes>)
    ensures r == if ImageFits(children, base) then Ok(ImageBytes(children, base)) else StructError
  {
    hide Dirents, Payload, AllFit, Dirent, Fits;
    var nameAddr := base + DIRENT;
    var dataAddr := nameAddr + |ROOT_NAME|;
    if !Fits(nameAddr, dataAddr, |children|) {
      return StructError;
    }
    var data := Dirent(DIR, nameAddr, dataAddr, |children|);
    var below := FolderData(children, dataAddr);
    if below.StructError? {
      return StructError;
    }
    r := Ok(data + ROOT_NAME + below.value);
  }

  const ROOT_NAME: Bytes := [0x2F, 0, 0, 0]   // "/" and its padding

  predicate ImageFits(children: seq<Node>, base: nat) {
    && Fits(base + DIRENT, base + DIRENT + |ROOT_NAME|, |children|)
    && AllFit(children, base + DIRENT + |ROOT_NAME| + DIRENT * |children|)
  }

  function ImageBytes(children: seq<Node>, base: nat): Bytes {
    var v := base + DIRENT + |ROOT_NAME|;
    Dirent(DIR, base + DIRENT, v, |children|) + ROOT_NAME + NodeData(Folder([], children), v)
  }

  // ---- The reader -------------------------------------------------------------------------

  /** The bytes of the image from offset `off` on begin with `b`. */
  ghost predicate At(mem: Bytes, off: nat, b: Bytes) {
    off + |b| <= |mem| && mem[off..off + |b|] == b
  }

  function ReadWord(mem: Bytes, off: nat): (n: nat)
    requires off + 4 <= |mem|
    ensures n < WORD
  {
    mem[off] as nat + mem[off + 1] as nat * 0x100 + mem[off + 2] as nat * 0x1_0000 + mem[off + 3] as nat * 0x100_0000
  }

  /** The bytes up to the next NUL. */
  function ReadName(mem: Bytes, off: nat): Option<Bytes>
    decreases |mem| - off
  {
    if off >= |mem| then None
    else if mem[off] == 0 then Some([])
    else
      match ReadName(mem, off + 1)
      case None => None
      case Some(rest) => Some([mem[off]] + rest)
  }

  /** Where an address lies in an image that was placed at `base`; a field is usable only if it
      is aligned to four bytes. */
  function Offset(mem: Bytes, base: nat, addr: nat): Option<nat> {
    if addr % 4 != 0 || addr < base || |mem| < addr - base then None else Some(addr - base)
  }

  /** Reads the entry at an address: its name, and its bytes or, at most `levels` deep, the
      entries below. */
  function ReadNode(mem: Bytes, base: nat, addr: nat, levels: nat): Option<Node>
    decreases levels, 1, 0
  {
    match Offset(mem, base, addr)
    case None => None
    case Some(off) =>
      if |mem| < off + DIRENT then None
      else
        var kind, size := ReadWord(mem, off), ReadWord(mem, off + 12);
        var nameOff, dataOff := Offset(mem, base, ReadWord(mem, off + 4)), Offset(mem, base, ReadWord(mem, off + 8));
        if nameOff.None? || dataOff.None? then None
        else
          match ReadName(mem, nameOff.value)
          case None => None
          case Some(name) =>
            if kind == FILE then
              if |mem| < dataOff.value + size then None
              else Some(File(name, mem[dataOff.value..dataOff.value + size]))
            else if kind == DIR && 0 < levels then
              match ReadNodes(mem, base, ReadWord(mem, off + 8), size, levels - 1)
              case None => None
              case Some(children) => Some(Folder(name, children))
            else None
  }

  /** Reads `count` entries, one after the other. */
  function ReadNodes(mem: Bytes, base: nat, addr: nat, count: nat, levels: nat): Option<seq<Node>>
    decreases levels, 2, count
  {
    if count == 0 then Some([])
    else
      match ReadNode(mem, base, addr, levels)
      case None => None
      case Some(n) =>
        match ReadNodes(mem, base, addr + DIRENT, count - 1, levels)
        case None => None
        case Some(rest) => Some([n] + rest)
  }

  // ---- Round trip -------------------------------------------------------------------------

  predicate NulFree(name: Bytes) {
    0 !in name
  }

  predicate Named(cs: seq<Node>)
    decreases cs
  {
    cs == [] || (NulFree(cs[0].name) && (cs[0].Folder? ==> Named(cs[0].children)) && Named(cs[1..]))
  }

  function Depth(cs: seq<Node>): nat
    decreases cs
  {
    if cs == [] then 0
    else
      var d := if cs[0].Folder? then 1 + Depth(cs[0].children) else 0;
      var rest := Depth(cs[1..]);
      if d < rest then rest else d
  }

  lemma AtSplit(mem: Bytes, off: nat, a: Bytes, b: Bytes)
    requires At(mem, off, a + b)
    ensures At(mem, off, a) && At(mem, off + |a|, b)
  {
    var c := mem[off..off + |a + b|];
    assert mem[off..off + |a|] == c[..|a|] == (a + b)[..|a|] == a;
    assert mem[off + |a|..off + |a| + |b|] == c[|a|..] == (a + b)[|a|..] == b;
  }

  lemma WordBytes(n: nat)
    requires n < WORD
    ensures n % 256 + n / 0x100 % 256 * 0x100 + n / 0x1_0000 % 256 * 0x1_0000 + n / 0x100_0000 % 256 * 0x100_0000 == n
  {
  }

  /** A word that was packed is read back. */
  lemma ReadPacked(mem: Bytes, off: nat, n: nat)
    requires n < WORD && At(mem, off, Word(n))
    ensures ReadWord(mem, off) == n
  {
    var b := mem[off..off + 4];
    assert b == Word(n);
    assert mem[off] == b[0] && mem[off + 1] == b[1] && mem[off + 2] == b[2] && mem[off + 3] == b[3];
    WordBytes(n);
  }

  lemma ReadDirent(mem: Bytes, off: nat, kind: nat, name: nat, data: nat, size: nat)
    requires At(mem, off, Dirent(kind, name, data, size)) && kind < WORD && Fits(name, data, size)
    ensures off + DIRENT <= |mem|
    ensures ReadWord(mem, off) == kind && ReadWord(mem, off + 4) == name
    ensures ReadWord(mem, off + 8) == data && ReadWord(mem, off + 12) == size
  {
    hide Word, At, ReadWord;
    AtSplit(mem, off, Word(kind) + Word(name) + Word(data), Word(size));
    AtSplit(mem, off, Word(kind) + Word(name), Word(data));
    AtSplit(mem, off, Word(kind), Word(name));
    AtInside(mem, off, Dirent(kind, name, data, size));
    ReadPacked(mem, off, kind);
    ReadPacked(mem, off + 4, name);
    ReadPacked(mem, off + 8, data);
    ReadPacked(mem, off + 12, size);
  }

  lemma AtInside(mem: Bytes, off: nat, b: Bytes)
    requires At(mem, off, b)
    ensures off + |b| <= |mem| && mem[off..off + |b|] == b
  {
  }

  /** A padded name is read back. */
  lemma {:induction false} ReadPadded(mem: Bytes, off: nat, name: Bytes, pad: nat)
    requires At(mem, off, name + Zeros(pad)) && 0 < pad && NulFree(name)
    ensures ReadName(mem, off) == Some(name)
    decreases |name|
  {
    AtInside(mem, off, name + Zeros(pad));
    var b := mem[off..off + |name| + pad];
    assert mem[off] == b[0];
    if name != [] {
      assert b[0] == name[0];
      assert name == [name[0]] + name[1..];
      assert name + Zeros(pad) == [name[0]] + (name[1..] + Zeros(pad));
      AtSplit(mem, off, [name[0]], name[1..] + Zeros(pad));
      ReadPadded(mem, off + 1, name[1..], pad);
    }
  }

  lemma AtPadded(mem: Bytes, off: nat, data: Bytes)
    requires At(mem, off, Padded(data))
    ensures At(mem, off, data)
  {
    if |data| % 4 != 0 {
      AtSplit(mem, off, data, Zeros(4 - |data| % 4));
    }
  }

  lemma OffsetIs(mem: Bytes, base: nat, addr: nat, b: Bytes)
    requires base <= addr && addr % 4 == 0 && At(mem, addr - base, b)
    ensures Offset(mem, base, addr) == Some(addr - base)
  {
    AtInside(mem, addr - base, b);
  }

  /** What the writer leaves for one child: its entry at `at`, its name at `v`, and its data. */
  ghost predicate Written(mem: Bytes, base: nat, at: nat, v: nat, c: Node) {
    var data := v + |BinName(c.name)|;
    && base <= at && at % 4 == 0 && base <= v && v % 4 == 0
    && At(mem, at - base, Dirent(Kind(c), v, data, EntrySize(c)))
    && At(mem, v - base, BinName(c.name))
    && At(mem, data - base, Padded(NodeData(c, data)))
    && Fits(v, data, EntrySize(c)) && ChildFits(c, data)
  }

  /** What the writer leaves for a row of children. */
  ghost predicate AllWritten(mem: Bytes, base: nat, at: nat, v: nat, cs: seq<Node>) {
    && base <= at && at % 4 == 0 && base <= v && v % 4 == 0
    && At(mem, at - base, Dirents(cs, v)) && At(mem, v - base, Payload(cs, v)) && AllFit(cs, v)
  }

  lemma FirstWritten(mem: Bytes, base: nat, at: nat, v: nat, cs: seq<Node>)
    requires AllWritten(mem, base, at, v, cs) && cs != []
    ensures Written(mem, base, at, v, cs[0]) && AllWritten(mem, base, at + DIRENT, NextAt(cs, v), cs[1..])
  {
    hide At, Dirent, Dirents, Payload, AllFit, Fits, ChildFits, NodeData, Kind, EntrySize, BinName, Padded;
    var c, data := cs[0], DataAt(cs, v);
    OneChild(cs, v);
    OneFits(cs, v);
    AtSplit(mem, at - base, Dirent(Kind(c), v, data, EntrySize(c)), Dirents(cs[1..], NextAt(cs, v)));
    AtSplit(mem, v - base, BinName(c.name) + Padded(NodeData(c, data)), Payload(cs[1..], NextAt(cs, v)));
    AtSplit(mem, v - base, BinName(c.name), Padded(NodeData(c, data)));
  }

  lemma FolderWritten(mem: Bytes, base: nat, v: nat, children: seq<Node>, name: Bytes)
    requires base <= v && v % 4 == 0 && At(mem, v - base, Padded(NodeData(Folder(name, children), v)))
    requires ChildFits(Folder(name, children), v)
    ensures AllWritten(mem, base, v, v + DIRENT * |children|, children)
  {
    hide At, Dirents, Payload, AllFit, Padded;
    var w := v + DIRENT * |children|;
    AtPadded(mem, v - base, NodeData(Folder(name, children), v));
    AtSplit(mem, v - base, Dirents(children, w), Payload(children, w));
  }

  /** Reading the entry of a child gives its four words, and the name it leads to. */
  lemma ReadEntry(mem: Bytes, base: nat, at: nat, v: nat, c: Node)
    requires Written(mem, base, at, v, c) && NulFree(c.name)
    ensures var data := v + |BinName(c.name)|;
      && Offset(mem, base, at) == Some(at - base) && at - base + DIRENT <= |mem|
      && ReadWord(mem, at - base) == Kind(c) && ReadWord(mem, at - base + 4) == v
      && ReadWord(mem, at - base + 8) == data && ReadWord(mem, at - base + 12) == EntrySize(c)
      && Offset(mem, base, v) == Some(v - base) && Offset(mem, base, data) == Some(data - base)
      && ReadName(mem, v - base) == Some(c.name)
      && At(mem, data - base, Padded(NodeData(c, data))) && ChildFits(c, data) && base <= data && data % 4 == 0
  {
    hide At, Dirent, ReadWord, AllFit, NodeData, NulFree, Offset, ReadName, ChildFits;
    var data := v + |BinName(c.name)|;
    ReadDirent(mem, at - base, Kind(c), v, data, EntrySize(c));
    OffsetIs(mem, base, at, Dirent(Kind(c), v, data, EntrySize(c)));
    OffsetIs(mem, base, v, BinName(c.name));
    OffsetIs(mem, base, data, Padded(NodeData(c, data)));
    ReadPadded(mem, v - base, c.name, 4 - |c.name| % 4);
  }

  lemma {:induction false} ReadNodeIs(mem: Bytes, base: nat, at: nat, v: nat, c: Node, levels: nat)
    requires Written(mem, base, at, v, c) && NulFree(c.name)
    requires c.Folder? ==> Named(c.children) && Depth(c.children) < levels
    ensures ReadNode(mem, base, at, levels) == Some(c)
    decreases c, 0
  {
    hide At, Written, BinName, ReadWord, AllFit, NodeData, ReadNodes, ReadName, Offset, Padded, Named, Depth, NulFree;
    var data := v + |BinName(c.name)|;
    ReadEntry(mem, base, at, v, c);
    match c
    case File(_, bytes) => FileWritten(mem, data - base, c, data);
    case Folder(name, children) =>
      FolderWritten(mem, base, data, children, name);
      ReadNodesIs(mem, base, data, data + DIRENT * |children|, children, levels - 1);
  }

  lemma FileWritten(mem: Bytes, off: nat, c: Node, addr: nat)
    requires c.File? && At(mem, off, Padded(NodeData(c, addr)))
    ensures off + |c.data| <= |mem| && mem[off..off + |c.data|] == c.data
  {
    AtPadded(mem, off, c.data);
  }

  /** Reading the entries of a folder gives back its children, however deep they are. */
  lemma {:induction false} ReadNodesIs(mem: Bytes, base: nat, at: nat, v: nat, cs: seq<Node>, levels: nat)
    requires AllWritten(mem, base, at, v, cs) && Named(cs) && Depth(cs) <= levels
    ensures ReadNodes(mem, base, at, |cs|, levels) == Some(cs)
    decreases cs, 1
  {
    hide AllWritten, Written, ReadNode, NulFree, NextAt;
    if cs != [] {
      FirstWritten(mem, base, at, v, cs);
      ReadNodeIs(mem, base, at, v, cs[0], levels);
      ReadNodesIs(mem, base, at + DIRENT, NextAt(cs, v), cs[1..], levels);
      assert cs == [cs[0]] + cs[1..];
    }
  }

  /** Main result: for every tree of files and folders with NUL-free names and every aligned base
      address for which the writer returns an image, following the fields of the image, all of
      them aligned, gives back the tree, its names and the bytes of its files. */
  lemma RoundTrip(children: seq<Node>, base: nat, levels: nat)
    requires base % 4 == 0 && ImageFits(children, base) && Named(children) && Depth(children) < levels
    ensures ReadNode(ImageBytes(children, base), base, base, levels) == Some(Folder([0x2F], children))
  {
    hide At, Dirent, Dirents, Payload, AllFit, ReadNode, Fits, Named, Depth;
    var mem, v := ImageBytes(children, base), base + DIRENT + |ROOT_NAME|;
    var root := Folder([0x2F], children);
    var d, n := Dirent(DIR, base + DIRENT, v, |children|), NodeData(Folder([], children), v);
    AtWhole(mem);
    AtSplit(mem, 0, d + ROOT_NAME, n);
    AtSplit(mem, 0, d, ROOT_NAME);
    RootName();
    DataMultiple(children, v);
    assert NodeData(root, v) == n;
    assert Written(mem, base, base, base + DIRENT, root);
    ReadNodeIs(mem, base, base, base + DIRENT, root, levels);
  }

  lemma AtWhole(mem: Bytes)
    ensures At(mem, 0, mem)
  {
  }

  lemma RootName()
    ensures BinName([0x2F]) == ROOT_NAME && NulFree([0x2F])
  {
  }

  /** The data of a folder needs no padding. */
  lemma {:induction false} PayloadMultiple(cs: seq<Node>, v: nat)
    ensures |Payload(cs, v)| % 4 == 0
    decreases |cs|
  {
    hide BinName, Padded, NodeData;
    if cs != [] {
      PayloadMultiple(cs[1..], NextAt(cs, v));
    }
  }

  lemma DataMultiple(cs: seq<Node>, v: nat)
    ensures Padded(NodeData(Folder([], cs), v)) == NodeData(Folder([], cs), v)
  {
    hide Dirents, Payload;
    PayloadMultiple(cs, v + DIRENT * |cs|);
  }

  /** When the image ends below 2^32 every field fits. */
  lemma {:induction false} SmallFits(cs: seq<Node>, v: nat)
    requires v + |Payload(cs, v)| < WORD && SizesFit(cs)
    ensures AllFit(cs, v)
    decreases cs
  {
    hide BinName, Padded, Dirents;
    if cs != [] {
      var c, data := cs[0], DataAt(cs, v);
      OneChild(cs, v);
      SmallFits(cs[1..], NextAt(cs, v));
      if c.Folder? {
        PaddedLonger(NodeData(c, data));
        SmallFits(c.children, data + DIRENT * |c.children|);
      }
    }
  }

  lemma PaddedLonger(data: Bytes)
    ensures |data| <= |Padded(data)|
  {
  }

  /** The numbers of entries and of bytes are 32-bit numbers. */
  predicate SizesFit(cs: seq<Node>)
    decreases cs
  {
    cs == [] || (EntrySize(cs[0]) < WORD && (cs[0].Folder? ==> SizesFit(cs[0].children)) && SizesFit(cs[1..]))
  }
}
