/** ROM file system images: the writer (tools/mkromfs.py) and a reader that follows the directory
    entries of the image. */
module RomFs {
  import opened Words

  datatype Node =
    | File(name: seq<Byte>, data: seq<Byte>)
    | Folder(name: seq<Byte>, children: seq<Node>)

  const ENTRY := 16    // four 32-bit fields

  datatype Option<T> = Some(value: T) | None

  ghost function Size(n: Node): nat {
    match n
    case File(_, _) => 1
    case Folder(_, cs) => 1 + SizeAll(cs)
  }

  ghost function SizeAll(cs: seq<Node>): nat {
    if cs == [] then 0 else Size(cs[0]) + SizeAll(cs[1..])
  }

  // ---- the writer ---------------------------------------------------------------------------

  function Zeros(n: nat): (r: seq<Byte>)
    ensures |r| == n && forall i :: 0 <= i < n ==> r[i] == 0
  {
    if n == 0 then [] else [0] + Zeros(n - 1)
  }

  /** bin_name: one to four zero bytes, up to a multiple of four. */
  function BinName(name: seq<Byte>): seq<Byte> {
    name + Zeros(4 - |name| % 4)
  }

  /** Data padded to a multiple of four. */
  function Pad(data: seq<Byte>): seq<Byte> {
    if |data| % 4 != 0 then data + Zeros(4 - |data| % 4) else data
  }

  /** One directory entry, unless a field does not fit its 32 bits. */
  function Entry(type_: nat, name: nat, data: nat, size: nat): Option<seq<Byte>> {
    if type_ < WORD && name < WORD && data < WORD && size < WORD
    then Some(Bytes4(type_) + Bytes4(name) + Bytes4(data) + Bytes4(size)) else None
  }

  function EntrySize(n: Node): nat {
    match n
    case File(_, d) => |d|
    case Folder(_, cs) => |cs|
  }

  function TypeOf(n: Node): nat {
    if n.File? then 0 else 1
  }

  /** Entries and payload of a list of nodes whose payload starts at `v`. */
  datatype Parts = Parts(entries: seq<Byte>, payload: seq<Byte>)

  function Emit(cs: seq<Node>, v: nat): Option<Parts>
    decreases SizeAll(cs), 2
  {
    if cs == [] then Some(Parts([], []))
    else
      var name := BinName(cs[0].name);
      var dataAddr := v + |name|;
      var raw := Data(cs[0], dataAddr);
      if raw.None? then None
      else
        var data := Pad(raw.value);
        var e, rest := Entry(TypeOf(cs[0]), v, dataAddr, EntrySize(cs[0])), Emit(cs[1..], dataAddr + |data|);
        if e.None? || rest.None? then None
        else Some(Parts(e.value + rest.value.entries, name + data + rest.value.payload))
  }

  /** bin_data at address `base`. */
  function Data(n: Node, base: nat): Option<seq<Byte>>
    decreases Size(n), 1
  {
    match n
    case File(_, d) => Some(d)
    case Folder(_, cs) =>
      var parts := Emit(cs, base + ENTRY * |cs|);
      if parts.None? then None else Some(parts.value.entries + parts.value.payload)
  }

  const ROOT: seq<Byte> := [47, 0, 0, 0]    // "/"

  /** get_bin_data. */
  function Image(children: seq<Node>, base: nat): Option<seq<Byte>> {
    var nameAddr := base + ENTRY;
    var dataAddr := nameAddr + 4;
    var e := Entry(1, nameAddr, dataAddr, |children|);
    var d := Data(Folder([], children), dataAddr);
    if e.None? || d.None? then None else Some(e.value + ROOT + d.value)
  }

  // ---- the reader ---------------------------------------------------------------------------

  /** The string that ends at the next zero byte. */
  function Text(img: seq<Byte>, p: nat): seq<Byte>
    decreases |img| - p
  {
    if p >= |img| || img[p] == 0 then [] else [img[p]] + Text(img, p + 1)
  }

  /** The node described by the entry at offset `p` of an image that starts at address `base`. */
  function Read(img: seq<Byte>, base: nat, p: nat): Option<Node>
    decreases |img| - p, 0
  {
    if p + ENTRY > |img| then None
    else
      var type_, name := Word4(img[p..p + 4]), Word4(img[p + 4..p + 8]) - base;
      var data, size := Word4(img[p + 8..p + 12]) - base, Word4(img[p + 12..p + 16]);
      if name < 0 || data < 0 then None
      else if type_ == 0 then
        if data + size > |img| then None else Some(File(Text(img, name), img[data..data + size]))
      else if data <= p then None
      else
        var cs := ReadAll(img, base, data, size);
        if cs.None? then None else Some(Folder(Text(img, name), cs.value))
  }

  function ReadAll(img: seq<Byte>, base: nat, p: nat, n: nat): Option<seq<Node>>
    decreases |img| - p, 1
  {
    if n == 0 then Some([])
    else
      var c := Read(img, base, p);
      if c.None? || p + ENTRY > |img| then None
      else
        var rest := ReadAll(img, base, p + ENTRY, n - 1);
        if rest.None? then None else Some([c.value] + rest.value)
  }

  // ---- the reader undoes the writer ------------------------------------------------------------

  ghost predicate Holds(img: seq<Byte>, p: nat, bs: seq<Byte>) {
    p + |bs| <= |img| && img[p..p + |bs|] == bs
  }

  lemma HoldsBoth(img: seq<Byte>, p: nat, a: seq<Byte>, b: seq<Byte>)
    requires Holds(img, p, a + b)
    ensures Holds(img, p, a) && Holds(img, p + |a|, b)
  {
    var s := img[p..p + |a + b|];
    assert img[p..p + |a|] == s[..|a|] == a;
    assert img[p + |a|..p + |a| + |b|] == s[|a|..] == b;
  }

  lemma EntryRead(img: seq<Byte>, p: nat, t: nat, n: nat, d: nat, s: nat)
    requires Entry(t, n, d, s).Some? && Holds(img, p, Entry(t, n, d, s).value)
    ensures p + ENTRY <= |img|
    ensures Word4(img[p..p + 4]) == t && Word4(img[p + 4..p + 8]) == n
    ensures Word4(img[p + 8..p + 12]) == d && Word4(img[p + 12..p + 16]) == s
  {
    hide Bytes4; hide Word4;
    HoldsBoth(img, p, Bytes4(t) + Bytes4(n) + Bytes4(d), Bytes4(s));
    HoldsBoth(img, p, Bytes4(t) + Bytes4(n), Bytes4(d));
    HoldsBoth(img, p, Bytes4(t), Bytes4(n));
    Word4RoundTrip(t);
    Word4RoundTrip(n);
    Word4RoundTrip(d);
    Word4RoundTrip(s);
  }

  lemma {:induction false} TextRead(img: seq<Byte>, p: nat, name: seq<Byte>)
    requires p + |name| < |img| && img[p..p + |name|] == name && img[p + |name|] == 0 && 0 !in name
    ensures Text(img, p) == name
    decreases |name|
  {
    if name != [] {
      assert name[0] in name && img[p] == img[p..p + |name|][0];
      assert img[p + 1..p + 1 + |name[1..]|] == img[p..p + |name|][1..];
      assert forall x :: x in name[1..] ==> x in name;
      TextRead(img, p + 1, name[1..]);
    }
  }

  lemma NameRead(img: seq<Byte>, p: nat, name: seq<Byte>)
    requires Holds(img, p, BinName(name)) && 0 !in name
    ensures Text(img, p) == name
  {
    var z := Zeros(4 - |name| % 4);
    HoldsBoth(img, p, name, z);
    assert img[p + |name|] == img[p + |name|..p + |name| + |z|][0] == z[0];
    TextRead(img, p, name);
  }

  lemma PadHolds(img: seq<Byte>, p: nat, data: seq<Byte>)
    requires Holds(img, p, Pad(data))
    ensures Holds(img, p, data)
  {
    if |data| % 4 != 0 { HoldsBoth(img, p, data, Zeros(4 - |data| % 4)); }
  }

  lemma {:induction false} EntriesLength(cs: seq<Node>, v: nat)
    requires Emit(cs, v).Some?
    ensures |Emit(cs, v).value.entries| == ENTRY * |cs|
    decreases |cs|
  {
    if cs != [] {
      var dataAddr := v + |BinName(cs[0].name)|;
      EntriesLength(cs[1..], dataAddr + |Pad(Data(cs[0], dataAddr).value)|);
    }
  }

  /** File names hold no zero byte. */
  ghost predicate Clean(n: Node)
    decreases Size(n), 1
  {
    0 !in n.name && (n.Folder? ==> CleanAll(n.children))
  }

  ghost predicate CleanAll(cs: seq<Node>)
    decreases SizeAll(cs), 2
  {
    cs == [] || (Clean(cs[0]) && CleanAll(cs[1..]))
  }

  /** An entry at offset `p`, with its name at address `v` and its data behind the name, reads back
      as the node. */
  lemma {:induction false} ReadNode(img: seq<Byte>, base: nat, c: Node, p: nat, v: nat)
    requires Clean(c) && base <= v
    requires var d := v + |BinName(c.name)|;
      && Entry(TypeOf(c), v, d, EntrySize(c)).Some? && Data(c, d).Some? && p < d - base
      && Holds(img, p, Entry(TypeOf(c), v, d, EntrySize(c)).value)
      && Holds(img, v - base, BinName(c.name)) && Holds(img, d - base, Data(c, d).value)
    ensures Read(img, base, p) == Some(c)
    decreases Size(c), 1
  {
    hide Word4; hide BinName; hide Text; hide Entry; hide Emit; hide ReadAll; hide Size; hide SizeAll;
    var d := v + |BinName(c.name)|;
    EntryRead(img, p, TypeOf(c), v, d, EntrySize(c));
    NameRead(img, v - base, c.name);
    match c
    case File(_, _) =>
    case Folder(_, cs) =>
      FolderSize(c);
      FolderRead(img, base, cs, d);
  }

  lemma FolderSize(n: Node)
    requires n.Folder?
    ensures SizeAll(n.children) < Size(n)
  {}

  lemma {:induction false} FolderRead(img: seq<Byte>, base: nat, cs: seq<Node>, d: nat)
    requires CleanAll(cs) && base <= d && Emit(cs, d + ENTRY * |cs|).Some?
    requires var parts := Emit(cs, d + ENTRY * |cs|).value; Holds(img, d - base, parts.entries + parts.payload)
    ensures ReadAll(img, base, d - base, |cs|) == Some(cs)
    decreases SizeAll(cs), 3
  {
    hide Emit; hide ReadAll; hide CleanAll;
    var v := d + ENTRY * |cs|;
    var parts := Emit(cs, v).value;
    EntriesLength(cs, v);
    HoldsBoth(img, d - base, parts.entries, parts.payload);
    ReadList(img, base, cs, d - base, v);
  }

  lemma {:induction false} ReadList(img: seq<Byte>, base: nat, cs: seq<Node>, p: nat, v: nat)
    requires CleanAll(cs) && base <= v && Emit(cs, v).Some? && p + ENTRY * |cs| <= v - base
    requires Holds(img, p, Emit(cs, v).value.entries) && Holds(img, v - base, Emit(cs, v).value.payload)
    ensures ReadAll(img, base, p, |cs|) == Some(cs)
    decreases SizeAll(cs), 2
  {
    hide Entry; hide BinName; hide Pad; hide Read; hide Data; hide Clean; hide Holds; hide Emit; hide Size; hide SizeAll;
    if cs != [] {
      var c := cs[0];
      var name, d := BinName(c.name), v + |BinName(c.name)|;
      EmitParts(cs, v);
      SizeParts(cs);
      var data := Pad(Data(c, d).value);
      var e, rest := Entry(TypeOf(c), v, d, EntrySize(c)).value, Emit(cs[1..], d + |data|).value;
      EntryLength(TypeOf(c), v, d, EntrySize(c));
      HoldsBoth(img, p, e, rest.entries);
      HoldsBoth(img, v - base, name + data, rest.payload);
      HoldsBoth(img, v - base, name, data);
      PadHolds(img, d - base, Data(c, d).value);
      ReadNode(img, base, c, p, v);
      ReadList(img, base, cs[1..], p + ENTRY, d + |data|);
      HoldsEnd(img, p, e);
      assert [c] + cs[1..] == cs;
    }
  }

  lemma HoldsEnd(img: seq<Byte>, p: nat, a: seq<Byte>)
    requires Holds(img, p, a)
    ensures p + |a| <= |img|
  {}

  lemma EmitParts(cs: seq<Node>, v: nat)
    requires cs != [] && Emit(cs, v).Some?
    ensures var c := cs[0]; var d := v + |BinName(c.name)|;
      && Data(c, d).Some? && Entry(TypeOf(c), v, d, EntrySize(c)).Some?
      && var data := Pad(Data(c, d).value); var rest := Emit(cs[1..], d + |data|);
         && rest.Some?
         && Emit(cs, v).value.entries == Entry(TypeOf(c), v, d, EntrySize(c)).value + rest.value.entries
         && Emit(cs, v).value.payload == BinName(c.name) + data + rest.value.payload
  {
    hide BinName; hide Entry; hide Data; hide Pad;
  }

  lemma SizeParts(cs: seq<Node>)
    requires cs != []
    ensures Size(cs[0]) <= SizeAll(cs) && SizeAll(cs[1..]) < SizeAll(cs)
  {}

  lemma EntryLength(t: nat, n: nat, d: nat, s: nat)
    requires Entry(t, n, d, s).Some?
    ensures |Entry(t, n, d, s).value| == ENTRY
  {}

  lemma RootName()
    ensures BinName([47]) == ROOT
  {
    assert Zeros(3) == [0] + Zeros(2) && Zeros(2) == [0] + Zeros(1) && Zeros(1) == [0] + Zeros(0);
  }

  lemma HoldsSelf(a: seq<Byte>)
    ensures Holds(a, 0, a)
  {
    assert a[0..|a|] == a;
  }

  /** Reading the image from its first entry gives back the tree: names, order, contents and sizes. */
  lemma ImageReadsBack(children: seq<Node>, base: nat)
    requires CleanAll(children) && Image(children, base).Some?
    ensures Read(Image(children, base).value, base, 0) == Some(Folder([47], children))
  {
    hide Entry; hide BinName; hide Read; hide Emit; hide CleanAll; hide Holds;
    RootName();
    var root, v := Folder([47], children), base + ENTRY;
    var d := v + 4;
    var e, data := Entry(1, v, d, |children|).value, Data(root, d).value;
    EntryLength(1, v, d, |children|);
    var img := Image(children, base).value;
    HoldsSelf(img);
    HoldsBoth(img, 0, e + ROOT, data);
    HoldsBoth(img, 0, e, ROOT);
    ReadNode(img, base, root, 0, v);
  }

  // ---- when the image can be written -----------------------------------------------------------

  /** The length of the payload and the entries does not depend on the address. */
  ghost function Length(n: Node): nat
    decreases Size(n), 1
  {
    match n
    case File(_, d) => |d|
    case Folder(_, cs) => ENTRY * |cs| + PayloadLength(cs)
  }

  ghost function PayloadLength(cs: seq<Node>): nat
    decreases SizeAll(cs), 2
  {
    if cs == [] then 0
    else |BinName(cs[0].name)| + PadLength(Length(cs[0])) + PayloadLength(cs[1..])
  }

  ghost function PadLength(n: nat): nat {
    if n % 4 != 0 then n + (4 - n % 4) else n
  }

  lemma {:induction false} DataLength(n: Node, base: nat)
    requires base + Length(n) < WORD
    ensures Data(n, base).Some? && |Data(n, base).value| == Length(n) && EntrySize(n) <= Length(n)
    decreases Size(n), 1
  {
    hide BinName; hide Entry;
    match n
    case File(_, _) =>
    case Folder(_, cs) =>
      EmitLength(cs, base + ENTRY * |cs|);
      EntriesLength(cs, base + ENTRY * |cs|);
  }

  lemma {:induction false} EmitLength(cs: seq<Node>, v: nat)
    requires v + PayloadLength(cs) < WORD
    ensures Emit(cs, v).Some? && |Emit(cs, v).value.payload| == PayloadLength(cs)
    decreases SizeAll(cs), 2
  {
    hide BinName; hide Data; hide Length; hide EntrySize;
    if cs != [] {
      var d := v + |BinName(cs[0].name)|;
      DataLength(cs[0], d);
      EmitLength(cs[1..], d + PadLength(Length(cs[0])));
    }
  }

  /** Whatever is written has that length. */
  lemma {:induction false} WrittenLength(n: Node, base: nat)
    requires Data(n, base).Some?
    ensures |Data(n, base).value| == Length(n)
    decreases Size(n), 1
  {
    hide BinName; hide Entry;
    match n
    case File(_, _) =>
    case Folder(_, cs) =>
      EmittedLength(cs, base + ENTRY * |cs|);
      EntriesLength(cs, base + ENTRY * |cs|);
  }

  lemma {:induction false} EmittedLength(cs: seq<Node>, v: nat)
    requires Emit(cs, v).Some?
    ensures |Emit(cs, v).value.payload| == PayloadLength(cs)
    decreases SizeAll(cs), 2
  {
    hide BinName; hide Data; hide Length; hide EntrySize;
    if cs != [] {
      var d := v + |BinName(cs[0].name)|;
      WrittenLength(cs[0], d);
      EmittedLength(cs[1..], d + PadLength(Length(cs[0])));
    }
  }

  lemma SizeSteps(cs: seq<Node>)
    requires cs != []
    ensures SizeAll(cs[1..]) < SizeAll(cs)
    ensures cs[0].Folder? ==> SizeAll(cs[0].children) < SizeAll(cs)
  {
    assert SizeAll(cs) == Size(cs[0]) + SizeAll(cs[1..]);
  }

  /** The data address in the entry of the last node of a non-empty list, or of the last node below it. */
  ghost function LastAddr(cs: seq<Node>, v: nat): nat
    requires cs != []
    decreases SizeAll(cs), 2
  {
    SizeSteps(cs);
    var d := v + |BinName(cs[0].name)|;
    if |cs| > 1 then LastAddr(cs[1..], d + PadLength(Length(cs[0])))
    else if cs[0].Folder? && cs[0].children != [] then LastAddr(cs[0].children, d + ENTRY * |cs[0].children|)
    else d
  }

  /** The size in that entry. */
  ghost function LastSize(cs: seq<Node>): nat
    requires cs != []
    decreases SizeAll(cs), 2
  {
    SizeSteps(cs);
    if |cs| > 1 then LastSize(cs[1..])
    else if cs[0].Folder? && cs[0].children != [] then LastSize(cs[0].children)
    else EntrySize(cs[0])
  }

  lemma {:induction false} LastAbove(cs: seq<Node>, v: nat)
    requires cs != []
    ensures LastAddr(cs, v) >= v + |BinName(cs[0].name)|
    decreases SizeAll(cs), 2
  {
    hide BinName; hide Length; hide SizeAll;
    SizeSteps(cs);
    var d := v + |BinName(cs[0].name)|;
    if |cs| > 1 {
      LastAbove(cs[1..], d + PadLength(Length(cs[0])));
    } else if cs[0].Folder? && cs[0].children != [] {
      LastAbove(cs[0].children, d + ENTRY * |cs[0].children|);
    }
  }

  lemma EmitFirst(cs: seq<Node>, v: nat)
    requires cs != []
    ensures var d := v + |BinName(cs[0].name)|;
      Emit(cs, v).Some? <==>
        d < WORD && EntrySize(cs[0]) < WORD && Data(cs[0], d).Some? && Emit(cs[1..], d + PadLength(Length(cs[0]))).Some?
  {
    hide BinName; hide Data; hide Length; hide EntrySize;
    var d := v + |BinName(cs[0].name)|;
    if Data(cs[0], d).Some? { WrittenLength(cs[0], d); }
  }

  /** The same for a node that is the last one. */
  lemma EmitOne(cs: seq<Node>, v: nat)
    requires |cs| == 1
    ensures var d := v + |BinName(cs[0].name)|;
      Emit(cs, v).Some? <==> d < WORD && EntrySize(cs[0]) < WORD && Data(cs[0], d).Some?
  {
    hide Emit; hide BinName; hide Data; hide EntrySize;
    EmitFirst(cs, v);
    assert cs[1..] == [];
    EmitNothing(v + |BinName(cs[0].name)| + PadLength(Length(cs[0])));
  }

  /** ... and for one that is not. */
  lemma EmitMore(cs: seq<Node>, v: nat)
    requires |cs| > 1
    ensures LastAddr(cs, v) == LastAddr(cs[1..], v + |BinName(cs[0].name)| + PadLength(Length(cs[0])))
    ensures LastAddr(cs, v) < WORD ==>
      (Emit(cs, v).Some? <==> Emit(cs[1..], v + |BinName(cs[0].name)| + PadLength(Length(cs[0]))).Some?)
  {
    hide Emit; hide BinName; hide Data; hide EntrySize; hide Length; hide PadLength;
    var d := v + |BinName(cs[0].name)|;
    EmitFirst(cs, v);
    PadAbove(Length(cs[0]));
    LastAbove(cs[1..], d + PadLength(Length(cs[0])));
    if LastAddr(cs, v) < WORD { DataLength(cs[0], d); }
  }

  lemma FolderData(n: Node, base: nat)
    requires n.Folder?
    ensures Data(n, base).Some? <==> Emit(n.children, base + ENTRY * |n.children|).Some?
    ensures EntrySize(n) == |n.children|
  {
    hide Emit;
  }

  lemma FileData(n: Node, base: nat)
    requires n.File?
    ensures Data(n, base).Some?
  {}

  /** All fields fit their 32 bits exactly if the last data address and the last size do. */
  lemma {:induction false} EmitIff(cs: seq<Node>, v: nat)
    requires cs != []
    ensures Emit(cs, v).Some? <==> LastAddr(cs, v) < WORD && LastSize(cs) < WORD
    decreases SizeAll(cs), 2
  {
    hide BinName; hide Emit; hide Length; hide SizeAll; hide PadLength; hide Data; hide EntrySize;
    SizeSteps(cs);
    var d := v + |BinName(cs[0].name)|;
    if |cs| > 1 {
      EmitIff(cs[1..], d + PadLength(Length(cs[0])));
      EmitMore(cs, v);
      LastFirst(cs, v);
    } else if cs[0].Folder? {
      var c, w := cs[0].children, d + ENTRY * |cs[0].children|;
      EmitOne(cs, v);
      FolderData(cs[0], d);
      if c != [] { EmitIff(c, w); LastAbove(c, w); } else { EmitNothing(w); }
    } else {
      EmitOne(cs, v);
      FileData(cs[0], d);
    }
  }

  /** If the list can be written, so can the rest of it. */
  lemma LastFirst(cs: seq<Node>, v: nat)
    requires |cs| > 1
    ensures Emit(cs, v).Some? ==> Emit(cs[1..], v + |BinName(cs[0].name)| + PadLength(Length(cs[0]))).Some?
  {
    hide Emit; hide BinName; hide Data; hide EntrySize; hide Length; hide PadLength;
    EmitFirst(cs, v);
  }

  lemma PadAbove(n: nat)
    ensures PadLength(n) >= n
  {}

  lemma EmitNothing(v: nat)
    ensures Emit([], v).Some?
  {}

  /** The writer succeeds exactly on the trees whose last entry fits its fields: its data address (that
      of the root, if the root is empty) and its size are below 4 GiB. */
  lemma ImageFits(children: seq<Node>, base: nat)
    ensures var d := base + ENTRY + 4;
      Image(children, base).Some? <==>
        if children == [] then d < WORD
        else LastAddr(children, d + ENTRY * |children|) < WORD && LastSize(children) < WORD
    ensures Image(children, base).Some? ==> |Image(children, base).value| == ENTRY + 4 + Length(Folder([], children))
  {
    hide BinName; hide Length; hide Emit; hide Entry; hide LastAddr; hide LastSize;
    var d := base + ENTRY + 4;
    var w := d + ENTRY * |children|;
    if children != [] { EmitIff(children, w); LastAbove(children, w); } else { EmitNothing(w); }
    EntryFits(1, base + ENTRY, d, |children|);
    if Image(children, base).Some? {
      WrittenLength(Folder([], children), d);
      EntryLength(1, base + ENTRY, d, |children|);
    }
  }

  lemma EntryFits(type_: nat, name: nat, data: nat, size: nat)
    ensures Entry(type_, name, data, size).Some? <==> type_ < WORD && name < WORD && data < WORD && size < WORD
  {}

  // ---- the writer's loop -----------------------------------------------------------------------

  /** bin_data of files and folders. */
  method BinData(n: Node, base: nat) returns (r: Option<seq<Byte>>)
    ensures r == Data(n, base)
    decreases Size(n), 1
  {
    hide Emit;
    match n {
      case File(_, d) => return Some(d);
      case Folder(_, cs) =>
        var parts := BinChildren(cs, base + ENTRY * |cs|);
        return if parts.None? then None else Some(parts.value.entries + parts.value.payload);
    }
  }

  /** The loop of Folder.bin_data, which advances `v` and collects entries and payload. */
  method BinChildren(cs: seq<Node>, start: nat) returns (r: Option<Parts>)
    ensures r == Emit(cs, start)
    decreases SizeAll(cs), 2
  {
    hide Emit; hide BinName; hide Pad; hide Entry; hide Data; hide Whole; hide Size; hide SizeAll;
    var entries: seq<Byte>, payload: seq<Byte>, v: nat, i := [], [], start, 0;
    assert cs[0..] == cs;
    WholeStart(Emit(cs, start));
    while i < |cs|
      invariant 0 <= i <= |cs|
      invariant Whole(entries, payload, Emit(cs[i..], v)) == Emit(cs, start)
    {
      var c := cs[i];
      EmitNext(cs, i, v);
      SizeOf(cs, i);
      WholeNone(entries, payload);
      var name := BinName(c.name);
      var d := v + |name|;
      var raw := BinData(c, d);
      if raw.None? { return None; }
      var data := Pad(raw.value);
      var e := Entry(TypeOf(c), v, d, EntrySize(c));
      if e.None? { return None; }
      WholeNext(entries, payload, e.value, name + data, Emit(cs[i + 1..], d + |data|));
      entries, payload, v := entries + e.value, payload + (name + data), d + |data|;
      i := i + 1;
    }
    assert cs[i..] == [];
    WholeEnd(entries, payload, v);
    return Some(Parts(entries, payload));
  }

  lemma WholeStart(rest: Option<Parts>)
    ensures Whole([], [], rest) == rest
  {
    if rest.Some? { assert [] + rest.value.entries == rest.value.entries && [] + rest.value.payload == rest.value.payload; }
  }

  lemma WholeNone(entries: seq<Byte>, payload: seq<Byte>)
    ensures Whole(entries, payload, None) == None
  {}

  lemma WholeEnd(entries: seq<Byte>, payload: seq<Byte>, v: nat)
    ensures Whole(entries, payload, Emit([], v)) == Some(Parts(entries, payload))
  {
    assert entries + [] == entries && payload + [] == payload;
  }

  /** What has been collected, completed by the rest. */
  function Whole(entries: seq<Byte>, payload: seq<Byte>, rest: Option<Parts>): Option<Parts> {
    if rest.None? then None else Some(Parts(entries + rest.value.entries, payload + rest.value.payload))
  }

  lemma WholeNext(entries: seq<Byte>, payload: seq<Byte>, e: seq<Byte>, x: seq<Byte>, rest: Option<Parts>)
    ensures Whole(entries, payload, Whole(e, x, rest)) == Whole(entries + e, payload + x, rest)
  {
    if rest.Some? {
      assert entries + (e + rest.value.entries) == entries + e + rest.value.entries;
      assert payload + (x + rest.value.payload) == payload + x + rest.value.payload;
    }
  }

  lemma EmitNext(cs: seq<Node>, i: nat, v: nat)
    requires i < |cs|
    ensures var c := cs[i]; var name := BinName(c.name); var d := v + |name|; var raw := Data(c, d);
      Emit(cs[i..], v) ==
      if raw.None? then None
      else
        var data := Pad(raw.value);
        var e := Entry(TypeOf(c), v, d, EntrySize(c));
        if e.None? then None else Whole(e.value, name + data, Emit(cs[i + 1..], d + |data|))
  {
    hide BinName; hide Pad; hide Entry; hide Data;
    assert cs[i..][0] == cs[i] && cs[i..][1..] == cs[i + 1..];
  }

  lemma {:induction false} SizeOf(cs: seq<Node>, i: nat)
    requires i < |cs|
    ensures Size(cs[i]) <= SizeAll(cs)
    decreases |cs|
  {
    if i > 0 { SizeOf(cs[1..], i - 1); }
  }
}
