/** `allockpage`, `kallocHugeMemory` and the heap half of `kfree` from
    kernel/src/pmm.c as they run on memory, proved against HeapModel. */
module HeapCode {
  import opened Memory
  import opened Chains
  import opened Tilings
  import opened FreeLists
  import opened HeapModel

  const HEAP_MAGIC := 7654321

  // ---------------------------------------------------------- what memory holds

  ghost predicate SizesHeld(m: Mem, t: Tiling) {
    forall a {:trigger Is(t, a, Free)} :: Is(t, a, Free) ==> Read(m, a).size == t[a].len
  }

  ghost predicate HeadersHeld(m: Mem, t: Tiling) {
    forall a {:trigger Is(t, a, Huge)} :: Is(t, a, Huge) ==>
      Read(m, a).size == t[a].len - HEADER && Read(m, a).tag == HEAP_MAGIC
  }

  /** Memory and the global `head` represent the heap: the list is linked in order,
      every node knows its size and every huge block has its header. */
  ghost predicate Represents(m: Mem, head: int, h: Heap) {
    match h
    case Heap(_, _, tiles, list) =>
      Chain(m, list) && head == At(list, 0) && SizesHeld(m, tiles) && HeadersHeld(m, tiles)
  }

  /** Memory inside every block that is neither free nor b is as before. */
  ghost predicate KeptOutside(m: Mem, m': Mem, t: Tiling, b: int) {
    forall c, x {:trigger t[c], Read(m', x)} ::
      c in t && t[c].kind != Free && c != b && c <= x < c + t[c].len ==> Read(m', x) == Read(m, x)
  }

  /** Representation survives changes that stay inside pages and lost bytes. */
  lemma RepresentsFrame(m: Mem, m': Mem, head: int, h: Heap)
    requires Sound(h) && Represents(m, head, h)
    requires forall a :: Is(h.tiles, a, Free) || Is(h.tiles, a, Huge) ==> Read(m', a) == Read(m, a)
    ensures Represents(m', head, h)
  {
    forall a | a in h.list ensures Read(m', a).next == Read(m, a).next { assert Is(h.tiles, a, Free); }
    ChainFrame(m, m', h.list);
  }

  /** What the block at x asks of memory. */
  predicate BlockHeld(m: Mem, t: Tiling, x: int) {
    && (Is(t, x, Free) ==> Read(m, x).size == t[x].len)
    && (Is(t, x, Huge) ==> Read(m, x).size == t[x].len - HEADER && Read(m, x).tag == HEAP_MAGIC)
  }

  /** Blocks other than y and z keep their tile and their size and tag fields. */
  lemma HeldFrame(m: Mem, m': Mem, t: Tiling, t': Tiling, y: int, z: int)
    requires SizesHeld(m, t) && HeadersHeld(m, t)
    requires forall x {:trigger t'[x]} :: x in t' && x != y && x != z && (t'[x].kind == Free || t'[x].kind == Huge) ==>
               x in t && t[x] == t'[x] && Read(m', x).size == Read(m, x).size && Read(m', x).tag == Read(m, x).tag
    requires BlockHeld(m', t', y) && BlockHeld(m', t', z)
    ensures SizesHeld(m', t') && HeadersHeld(m', t')
  {
    forall x | Is(t', x, Free) ensures Read(m', x).size == t'[x].len {
      if x != y && x != z { assert Is(t, x, Free); }
    }
    forall x | Is(t', x, Huge) ensures Read(m', x).size == t'[x].len - HEADER && Read(m', x).tag == HEAP_MAGIC {
      if x != y && x != z { assert Is(t, x, Huge); }
    }
  }

  // ---------------------------------------------------------- allockpage

  /** i is the position of the first node whose size field, an int, holds a page. */
  ghost predicate FirstWithPage(m: Mem, list: seq<int>, i: int) {
    && 0 <= i <= |list| && (i < |list| ==> Read(m, list[i]).size >= PAGE)
    && forall j {:trigger list[j]} :: 0 <= j < i ==> Read(m, list[j]).size < PAGE
  }

  /** Lines 81-92: the first node with room for a page, and its predecessor. */
  method FindPage(m: Mem, head: int, ghost list: seq<int>) returns (node: int, pre: int, ghost i: int)
    requires Chain(m, list) && head == At(list, 0)
    ensures FirstWithPage(m, list, i) && node == At(list, i) && pre == At(list, i - 1) && (node == 0 <==> i == |list|)
  {
    ListMembers(list);
    node, pre, i := head, 0, 0;
    while node != 0
      invariant 0 <= i <= |list| && node == At(list, i) && pre == At(list, i - 1) && (node == 0 <==> i == |list|)
      invariant forall j {:trigger list[j]} :: 0 <= j < i ==> Read(m, list[j]).size < PAGE
      decreases |list| - i
    {
      if Read(m, node).size >= PAGE {
        return;
      }
      assert Read(m, list[i]).next == At(list, i + 1);
      pre := node;
      node, i := Read(m, node).next, i + 1;
    }
  }

  /** In memory that represents the heap this is the node of the model. */
  lemma FirstIsPageIndex(m: Mem, head: int, h: Heap, i: int)
    requires Sound(h) && Represents(m, head, h) && FirstWithPage(m, h.list, i)
    ensures i == PageIndex(h)
  {
    ListMembers(h.list);
    var k := PageIndex(h);
    forall j | 0 <= j < |h.list| ensures Read(m, h.list[j]).size == h.tiles[h.list[j]].len {
      assert h.list[j] in h.list && Is(h.tiles, h.list[j], Free);
    }
    if i < k { assert false; }
  }

  /** Two blocks that differ share no address. */
  lemma Apart(t: Tiling, lo: int, hi: int, a: int, c: int, p: int)
    requires IsTiling(t, lo, hi) && a in t && c in t && a != c && c <= p < End(t, c)
    ensures p < a || p >= End(t, a)
  {
    if a < c { assert a + t[a].len <= c; } else { assert c + t[c].len <= a; }
  }

  /** Writes inside the free blocks x and a leave every used block as it was. */
  lemma OnlyFreeTouched(m: Mem, m': Mem, h: Heap, x: int, a: int)
    requires Sound(h) && Is(h.tiles, x, Free) && Is(h.tiles, a, Free)
    requires forall c {:trigger Read(m', c)} :: c != x && !(a <= c < End(h.tiles, a)) ==> Read(m', c) == Read(m, c)
    ensures KeptOutside(m, m', h.tiles, 0)
  {
    var t := h.tiles;
    assert t[x].len > 0;
    forall c, p | c in t && t[c].kind != Free && c != 0 && c <= p < c + t[c].len ensures Read(m', p) == Read(m, p) {
      Apart(t, h.lo, h.hi, x, c, p);
      Apart(t, h.lo, h.hi, a, c, p);
    }
  }

  /** Clearing the record at a free block touches no other block's record. */
  lemma CleanElsewhere(m: Mem, h: Heap, a: int)
    requires Sound(h) && Is(h.tiles, a, Free) && h.tiles[a].len >= 16
    ensures forall x {:trigger Read(Clear(m, a, 16), x)} :: x != a && (x in h.tiles || x >= a + 16) ==>
        Read(Clear(m, a, 16), x) == Read(m, x)
  {
  }

  lemma ListedElsewhere(m: Mem, h: Heap, a: int, list: seq<int>)
    requires Sound(h) && Is(h.tiles, a, Free) && h.tiles[a].len >= 16 && Chain(m, list)
    requires forall x {:trigger x in list} :: x in list ==> x != a && (x in h.list || x >= a + 16)
    ensures Chain(Clear(m, a, 16), list)
  {
    CleanElsewhere(m, h, a);
    forall x | x in list ensures Read(Clear(m, a, 16), x).next == Read(m, x).next {
      if x in h.list { assert Is(h.tiles, x, Free); }
    }
    ChainFrame(m, Clear(m, a, 16), list);
  }

  /** Line 96: memory once the whole node has become the page. */
  ghost function TakeWrites(m: Mem, h: Heap): Mem
    requires Sound(h) && PageIndex(h) < |h.list|
  {
    var i := PageIndex(h);
    var a := h.list[i];
    Clear(if i == 0 then m else SetNext(m, h.list[i - 1], Read(m, a).next), a, 16)
  }

  lemma TakeRepresented(m: Mem, head: int, h: Heap)
    requires Sound(h) && Represents(m, head, h) && PageIndex(h) < |h.list|
    requires h.tiles[h.list[PageIndex(h)]].len == PAGE
    ensures var h' := CarvePage(h).0;
            Represents(TakeWrites(m, h), At(h'.list, 0), h') && KeptOutside(m, TakeWrites(m, h), h.tiles, 0)
    ensures At(CarvePage(h).0.list, 0) == if PageIndex(h) == 0 then Read(m, head).next else head
    ensures CarvePage(h).1 == h.list[PageIndex(h)]
  {
    var i := PageIndex(h);
    var a, list' := h.list[i], Drop(h.list, i);
    var m1 := if i == 0 then m else SetNext(m, h.list[i - 1], Read(m, a).next);
    var m' := Clear(m1, a, 16);
    var pre := if i == 0 then a else h.list[i - 1];
    assert pre in h.list;
    DropMembers(h.list, i);
    assert Read(m, h.list[i]).next == At(h.list, i + 1);
    if i == 0 { ChainSuffix(m, h.list, 1); assert list' == h.list[1..]; } else { ChainDrop(m, h.list, i); }
    ListedElsewhere(m1, h, a, list');
    OnlyFreeTouched(m, m', h, pre, a);
    CleanElsewhere(m1, h, a);
    HeldFrame(m, m', h.tiles, Retag(h.tiles, a, Page), a, a);
  }

  /** Line 114: memory once the front of the node has become the page and the rest a node in its place. */
  ghost function SplitWrites(m: Mem, h: Heap): Mem
    requires Sound(h) && PageIndex(h) < |h.list|
  {
    var i := PageIndex(h);
    var a := h.list[i];
    var m1 := SetSize(SetNext(m, a + PAGE, Read(m, a).next), a + PAGE, Read(m, a).size - PAGE);
    Clear(if i == 0 then m1 else SetNext(m1, h.list[i - 1], a + PAGE), a, 16)
  }

  /** An address inside a block is neither a block nor a listed node. */
  lemma FreshPlace(h: Heap, a: int, f: int)
    requires Sound(h) && a in h.tiles && a < f < End(h.tiles, a)
    ensures f !in h.tiles && f !in h.list && f != 0
  {
    NotInside(h.tiles, h.lo, h.hi, a, f);
    assert !Is(h.tiles, f, Free);
    assert h.tiles[a].len > 0;
  }

  lemma SplitChain(m: Mem, head: int, h: Heap)
    requires Sound(h) && Represents(m, head, h) && PageIndex(h) < |h.list|
    requires h.tiles[h.list[PageIndex(h)]].len > PAGE
    ensures Chain(SplitWrites(m, h), h.list[PageIndex(h) := h.list[PageIndex(h)] + PAGE])
  {
    var i := PageIndex(h);
    var a := h.list[i];
    var f := a + PAGE;
    var m1 := SetSize(SetNext(m, f, Read(m, a).next), f, Read(m, a).size - PAGE);
    FreshPlace(h, a, f);
    assert Read(m, h.list[i]).next == At(h.list, i + 1);
    ChainFrame(m, m1, h.list);
    ChainReplace(m1, h.list, i, f);
    ReplaceMembers(h.list, i, f);
    ListedElsewhere(if i == 0 then m1 else SetNext(m1, h.list[i - 1], f), h, a, h.list[i := f]);
  }

  lemma SplitRepresented(m: Mem, head: int, h: Heap)
    requires Sound(h) && Represents(m, head, h) && PageIndex(h) < |h.list|
    requires h.tiles[h.list[PageIndex(h)]].len > PAGE
    ensures var h' := CarvePage(h).0;
            Represents(SplitWrites(m, h), At(h'.list, 0), h') && KeptOutside(m, SplitWrites(m, h), h.tiles, 0)
    ensures At(CarvePage(h).0.list, 0) == if PageIndex(h) == 0 then head + PAGE else head
    ensures CarvePage(h).1 == h.list[PageIndex(h)]
  {
    var i := PageIndex(h);
    var a := h.list[i];
    var m' := SplitWrites(m, h);
    var pre := if i == 0 then a else h.list[i - 1];
    assert pre in h.list;
    SplitChain(m, head, h);
    OnlyFreeTouched(m, m', h, pre, a);
    SplitHeld(m, h, head);
  }

  lemma SplitHeld(m: Mem, h: Heap, head: int)
    requires Sound(h) && Represents(m, head, h) && PageIndex(h) < |h.list|
    requires h.tiles[h.list[PageIndex(h)]].len > PAGE
    ensures var t' := CarvePage(h).0.tiles; SizesHeld(SplitWrites(m, h), t') && HeadersHeld(SplitWrites(m, h), t')
  {
    var i := PageIndex(h);
    var a := h.list[i];
    var m' := SplitWrites(m, h);
    NotInside(h.tiles, h.lo, h.hi, a, a + PAGE);
    if i > 0 { assert h.list[i - 1] in h.list; }
    forall x | x in h.tiles && x != a ensures Read(m', x).size == Read(m, x).size && Read(m', x).tag == Read(m, x).tag {
      assert h.tiles[a].len > 0 && h.tiles[x].len > 0;
    }
    HeldFrame(m, m', h.tiles, Cut(h.tiles, a, PAGE, Page, Free), a, a + PAGE);
  }

  /** Lines 95-133: the node found gives up its first 64 KiB, or all it has. */
  method TakePage(m: Mem, head: int, node: int, pre: int, ghost h: Heap) returns (m': Mem, head': int)
    requires Sound(h) && Represents(m, head, h) && PageIndex(h) < |h.list| && node == h.list[PageIndex(h)]
    requires pre == At(h.list, PageIndex(h) - 1) && (pre == 0 <==> PageIndex(h) == 0)
    ensures node == CarvePage(h).1 && Sound(CarvePage(h).0) && Represents(m', head', CarvePage(h).0)
    ensures KeptOutside(m, m', h.tiles, 0)
  {
    m', head' := m, head;
    CarvePageSound(h);
    ghost var i := PageIndex(h);
    assert Read(m, h.list[i]).next == At(h.list, i + 1);
    assert pre != 0 ==> Read(m, h.list[i - 1]).next == node;
    assert Read(m, node).size == h.tiles[node].len;
    if Read(m, node).size == PAGE {
      TakeRepresented(m, head, h);
      if pre != 0 {
        m' := SetNext(m, pre, Read(m, node).next);
      } else {
        head' := Read(m, head).next;
      }
      m' := Clear(m', node, 16);
      assert m' == TakeWrites(m, h);
    } else {
      SplitRepresented(m, head, h);
      var free := node + PAGE;
      m' := SetSize(SetNext(m, free, Read(m, node).next), free, Read(m, node).size - PAGE);
      if pre == 0 {
        head' := free;
      } else {
        m' := SetNext(m', pre, free);
      }
      m' := Clear(m', node, 16);
      assert m' == SplitWrites(m, h);
    }
  }

  lemma NodeBefore(m: Mem, h: Heap, head: int, i: int)
    requires Sound(h) && Represents(m, head, h) && 0 <= i <= |h.list|
    ensures At(h.list, i - 1) == 0 <==> i == 0
    ensures At(h.list, i) == 0 <==> i == |h.list|
  {
    ListMembers(h.list);
  }

  /** Lines 76-141. */
  method AllocKPage(m: Mem, head: int, ghost h: Heap) returns (m': Mem, head': int, page: int, ghost h': Heap)
    requires Sound(h) && Represents(m, head, h)
    ensures (h', page) == CarvePage(h)
    ensures Sound(h') && Represents(m', head', h')
    ensures KeptOutside(m, m', h.tiles, 0)
  {
    m', head', h' := m, head, CarvePage(h).0;
    var pre;
    ghost var i;
    page, pre, i := FindPage(m, head, h.list);
    FirstIsPageIndex(m, head, h, i);
    NodeBefore(m, h, head, i);
    if page != 0 {
      m', head' := TakePage(m, head, page, pre, h);
    }
  }

  // ---------------------------------------------------------- kallocHugeMemory

  /** Lines 160-164: memory once node a has handed out its last `size` bytes. */
  function HugeWrites(m: Mem, a: int, size: int): Mem {
    var ret := a + Read(m, a).size - size;
    var header := ret - HEADER;
    var m1 := SetSize(m, a, header - a);
    SetTag(SetSize(m1, header, size), header, HEAP_MAGIC)
  }

  /** Lines 142-173.  The code asks only that the node hold `size` bytes; what it
      does to memory is stated without the further room that HugeFits asks for. */
  method KallocHuge(m: Mem, head: int, size: int, ghost h: Heap) returns (m': Mem, ret: int, ghost h': Heap)
    requires Sound(h) && Represents(m, head, h) && size > 0 && size % 16 == 0
    ensures var a := HugeNode(h, size);
            ret == (if a == 0 then 0 else End(h.tiles, a) - size) && m' == if a == 0 then m else HugeWrites(m, a, size)
    ensures HugeFits(h, size) ==> (h', ret) == CarveHuge(h, size) && Sound(h') && Represents(m', head, h')
    ensures HugeFits(h, size) ==> KeptOutside(m, m', h.tiles, 0)
  {
    var highnode := FindHighest(m, head, size, h.list);
    HighestIsHugeNode(m, head, size, h, highnode);
    h' := if HugeFits(h, size) then CarveHuge(h, size).0 else h;
    if highnode != 0 {
      m', ret := TakeTail(m, highnode, size);
    } else {
      ret, m' := 0, m;
    }
    if HugeFits(h, size) { HugeRepresented(m, head, size, h); }
  }

  /** Lines 160-164. */
  method TakeTail(m: Mem, highnode: int, size: int) returns (m': Mem, ret: int)
    ensures m' == HugeWrites(m, highnode, size) && ret == highnode + Read(m, highnode).size - size
  {
    ret := highnode + Read(m, highnode).size - size;
    var header := ret - HEADER;
    m' := SetSize(m, highnode, header - highnode);
    m' := SetTag(SetSize(m', header, size), header, HEAP_MAGIC);
  }

  /** r is the highest node whose size field, taken as a size_t, holds `size` bytes, NULL if there is none. */
  ghost predicate HighestWithSize(m: Mem, list: seq<int>, size: int, r: int) {
    && (r != 0 ==> r in list && AsSizeT(Read(m, r).size) >= size)
    && forall y {:trigger y in list} :: y in list && AsSizeT(Read(m, y).size) >= size ==> r != 0 && y <= r
  }

  /** Lines 145-157: the highest node that can hold `size` bytes. */
  method FindHighest(m: Mem, head: int, size: int, ghost list: seq<int>) returns (highnode: int)
    requires Chain(m, list) && head == At(list, 0)
    ensures HighestWithSize(m, list, size, highnode)
  {
    ListMembers(list);
    var p := head;
    highnode := 0;
    ghost var i := 0;
    while p != 0
      invariant 0 <= i <= |list| && p == At(list, i) && (p == 0 <==> i == |list|)
      invariant HighestWithSize(m, list[..i], size, highnode)
      decreases |list| - i
    {
      if AsSizeT(Read(m, p).size) >= size {
        if highnode == 0 {
          highnode := p;
        } else if p > highnode {
          highnode := p;
        }
      }
      assert list[..i + 1] == list[..i] + [p];
      assert Read(m, list[i]).next == At(list, i + 1);
      p, i := Read(m, p).next, i + 1;
    }
    assert list[..i] == list;
  }

  /** In memory that represents the heap this is the node of the model. */
  lemma HighestIsHugeNode(m: Mem, head: int, size: int, h: Heap, r: int)
    requires Sound(h) && Represents(m, head, h) && HighestWithSize(m, h.list, size, r)
    ensures r == HugeNode(h, size) && (r != 0 ==> Read(m, r).size == h.tiles[r].len)
  {
    var a := HugeNode(h, size);
    forall y | y in h.list ensures y in h.tiles && AsSizeT(Read(m, y).size) == h.tiles[y].len {
      assert Is(h.tiles, y, Free) && h.tiles[y].len > 0;
    }
    if a != 0 { assert a in h.list; }
  }

  lemma HugeRepresented(m: Mem, head: int, size: int, h: Heap)
    requires Sound(h) && Represents(m, head, h) && size > 0 && size % 16 == 0 && HugeFits(h, size)
    ensures var h' := CarveHuge(h, size).0;
            var a := HugeNode(h, size);
            var m' := if a == 0 then m else HugeWrites(m, a, size);
            Sound(h') && Represents(m', head, h') && KeptOutside(m, m', h.tiles, 0)
  {
    var a := HugeNode(h, size);
    CarveHugeSound(h, size);
    if a != 0 {
      var header := End(h.tiles, a) - size - HEADER;
      var m' := HugeWrites(m, a, size);
      FreshPlace(h, a, header);
      ChainFrame(m, m', h.list);
      assert CarveHuge(h, size).0.tiles == Cut(h.tiles, a, header - a, Free, Huge);
      HeldFrame(m, m', h.tiles, Cut(h.tiles, a, header - a, Free, Huge), a, header);
      OnlyFreeTouched(m, m', h, a, a);
    }
  }

  /** A chain is determined by where it starts. */
  lemma {:induction false} ChainUnique(m: Mem, s: seq<int>, t: seq<int>)
    requires Chain(m, s) && Chain(m, t) && At(s, 0) == At(t, 0)
    ensures s == t
    decreases |s|
  {
    assert forall i :: 0 <= i < |s| ==> s[i] in s;
    assert forall i :: 0 <= i < |t| ==> t[i] in t;
    if s != [] && t != [] {
      assert Read(m, s[0]).next == At(s, 1) && Read(m, t[0]).next == At(t, 1);
      ChainSuffix(m, s, 1);
      ChainSuffix(m, t, 1);
      ChainUnique(m, s[1..], t[1..]);
      assert s == [s[0]] + s[1..] && t == [t[0]] + t[1..];
    }
  }

  /** Memory represents some sound heap in which the block handed out at `ret` is a huge block of its own. */
  ghost predicate HugeOutcome(m: Mem, head: int, lo: int, hi: int, ret: int, size: int, h: Heap) {
    && Sound(h) && h.lo == lo && h.hi == hi && Represents(m, head, h)
    && Is(h.tiles, ret - HEADER, Huge) && h.tiles[ret - HEADER].len == size + HEADER
  }

  /** pmm.c:149 tests `h->size >= size` only.  A huge allocation leaves a sound heap,
      whatever one takes that heap to be, exactly when the chosen node is at least
      32 bytes larger than the block. */
  lemma HugeSoundIffFits(m: Mem, head: int, size: int, h: Heap)
    requires Sound(h) && Represents(m, head, h) && size > 0 && size % 16 == 0 && HugeNode(h, size) != 0
    ensures var a := HugeNode(h, size);
            var ret := End(h.tiles, a) - size;
            (exists h' :: HugeOutcome(HugeWrites(m, a, size), head, h.lo, h.hi, ret, size, h')) <==> HugeFits(h, size)
  {
    var a := HugeNode(h, size);
    var ret, m' := End(h.tiles, a) - size, HugeWrites(m, a, size);
    if HugeFits(h, size) { HugeFitsIsSound(m, head, size, h); }
    if h' :| HugeOutcome(m', head, h.lo, h.hi, ret, size, h') { RoomFollows(m, head, size, h, h'); }
  }

  lemma HugeFitsIsSound(m: Mem, head: int, size: int, h: Heap)
    requires Sound(h) && Represents(m, head, h) && size > 0 && size % 16 == 0 && HugeNode(h, size) != 0 &&
        HugeFits(h, size)
    ensures var a := HugeNode(h, size);
            HugeOutcome(HugeWrites(m, a, size), head, h.lo, h.hi, End(h.tiles, a) - size, size, CarveHuge(h, size).0)
  {
    HugeRepresented(m, head, size, h);
    CarveHugeSound(h, size);
  }

  /** A sound outcome forces the header to lie behind the node's own record: in front
      of it the node's size turns negative, on it the node is no longer free. */
  lemma RoomFollows(m: Mem, head: int, size: int, h: Heap, h': Heap)
    requires Sound(h) && Represents(m, head, h) && size > 0 && size % 16 == 0 && HugeNode(h, size) != 0
    requires var a := HugeNode(h, size);
             HugeOutcome(HugeWrites(m, a, size), head, h.lo, h.hi, End(h.tiles, a) - size, size, h')
    ensures HugeFits(h, size)
  {
    var a := HugeNode(h, size);
    var m' := HugeWrites(m, a, size);
    ChainFrame(m, m', h.list);
    ChainUnique(m', h.list, h'.list);
    assert TileSound(a, h.tiles[a]);
    assert Is(h'.tiles, a, Free);
    assert h'.tiles[a].len > 0;
  }

  // ---------------------------------------------------------- kfree, heap half

  /** Writes at listed nodes and inside block b leave every other used block as it was. */
  lemma OnlyListTouched(m: Mem, m': Mem, h: Heap, b: int)
    requires Sound(h) && b in h.tiles
    requires forall c {:trigger Read(m', c)} :: c !in h.list && !(b <= c < End(h.tiles, b)) ==>
        Read(m', c) == Read(m, c)
    ensures KeptOutside(m, m', h.tiles, b)
  {
    var t := h.tiles;
    forall c, p | c in t && t[c].kind != Free && c != b && c <= p < c + t[c].len ensures Read(m', p) == Read(m, p) {
      Apart(t, h.lo, h.hi, b, c, p);
      forall x | x in h.list ensures x != p {
        assert Is(t, x, Free) && t[x].len > 0;
        Apart(t, h.lo, h.hi, x, c, p);
      }
    }
  }

  /** Line 428 erases the block; the list and the other blocks are untouched. */
  lemma Erased(m: Mem, head: int, h: Heap, b: int)
    requires Sound(h) && Represents(m, head, h) && Is(h.tiles, b, Huge)
    ensures var m1 := Clear(m, b, h.tiles[b].len);
            Chain(m1, h.list) && SameBut(m, m1, h.tiles, b)
  {
    var m1 := Clear(m, b, h.tiles[b].len);
    forall x | x in h.tiles && x != b ensures Read(m1, x) == Read(m, x) {
      assert h.tiles[x].len > 0;
      Apart(h.tiles, h.lo, h.hi, b, x, x);
    }
    forall x | x in h.list ensures Read(m1, x).next == Read(m, x).next { assert Is(h.tiles, x, Free); }
    ChainFrame(m, m1, h.list);
  }

  /** What every branch below still knows of memory after the erasure. */
  ghost predicate AfterErasure(m: Mem, m1: Mem, head: int, h: Heap, b: int) {
    && Sound(h) && Represents(m, head, h) && Is(h.tiles, b, Huge)
    && m1 == Clear(m, b, h.tiles[b].len)
    && Chain(m1, h.list)
    && SameBut(m, m1, h.tiles, b)
  }

  /** Line 450: the block joins its predecessor. */
  function JoinBeforeWrites(m1: Mem, before: int, len: int): Mem {
    SetSize(m1, before, Read(m1, before).size + len)
  }

  lemma JoinBeforeRepresented(m: Mem, m1: Mem, head: int, h: Heap, b: int)
    requires AfterErasure(m, m1, head, h, b) && MergesBefore(h, b) && !MergesAfter(h, b)
    ensures var m2 := JoinBeforeWrites(m1, Below(h.list, b), h.tiles[b].len);
            Represents(m2, head, Release(h, b)) && KeptOutside(m, m2, h.tiles, b)
  {
    var before := Below(h.list, b);
    assert Is(h.tiles, before, Free);
    var m2 := JoinBeforeWrites(m1, before, h.tiles[b].len);
    ChainFrame(m1, m2, h.list);
    assert ReleaseTiles(h, b) == Join(h.tiles, before, Free);
    HeldFrame(m, m2, h.tiles, Join(h.tiles, before, Free), before, before);
    OnlyListTouched(m, m2, h, b);
  }

  /** Lines 450-453: predecessor, block and successor become one node. */
  function JoinBothWrites(m1: Mem, before: int, after: int, len: int): Mem {
    var m2 := JoinBeforeWrites(m1, before, len);
    SetSize(m2, before, Read(m2, before).size + Read(m2, after).size)
  }

  lemma JoinBothChain(m1: Mem, list: seq<int>, before: int, after: int, len: int)
    requires Chain(m1, list) && after in list
    ensures var m3 := JoinBothWrites(m1, before, after, len);
            Chain(m3, list) && Chain(Unlink(m3, list, after), Without(list, after))
  {
    var m3 := JoinBothWrites(m1, before, after, len);
    ChainFrame(m1, m3, list);
    UnlinkChain(m3, list, after);
  }

  lemma JoinBothOutside(m: Mem, h: Heap, b: int, before: int, after: int)
    requires Sound(h) && b in h.tiles && before in h.list && after in h.list
    ensures KeptOutside(m, Unlink(JoinBothWrites(Clear(m, b, h.tiles[b].len), before, after, h.tiles[b].len), h.list,
        after), h.tiles, b)
  {
    ListMembers(h.list);
    OnlyListTouched(m, Unlink(JoinBothWrites(Clear(m, b, h.tiles[b].len), before, after, h.tiles[b].len), h.list,
      after), h, b);
  }

  lemma JoinBothRepresented(m: Mem, m1: Mem, head: int, h: Heap, b: int, before: int, after: int)
    requires AfterErasure(m, m1, head, h, b) && MergesBefore(h, b) && MergesAfter(h, b)
    requires before == Below(h.list, b) && after == Above(h.list, b)
    ensures var m3 := JoinBothWrites(m1, before, after, h.tiles[b].len);
            var m4 := Unlink(m3, h.list, after);
            Chain(m3, h.list) && Represents(m4, At(Without(h.list, after), 0), Release(h, b)) &&
              KeptOutside(m, m4, h.tiles, b)
  {
    assert Is(h.tiles, before, Free) && Is(h.tiles, after, Free);
    assert h.tiles[b].len > 0;
    JoinBothChain(m1, h.list, before, after, h.tiles[b].len);
    JoinBothOutside(m, h, b, before, after);
    assert ReleaseTiles(h, b) == Join(Join(h.tiles, before, Free), before, Free);
    JoinBothHeld(m, m1, h.tiles, h.list, before, b, after);
  }

  /** Blocks other than b read the same in both memories. */
  ghost predicate SameBut(m: Mem, m1: Mem, t: Tiling, b: int) {
    forall x {:trigger Read(m1, x)} :: x in t && x != b ==> Read(m1, x) == Read(m, x)
  }

  lemma JoinBothHeld(m: Mem, m1: Mem, t: Tiling, list: seq<int>, before: int, b: int, after: int)
    requires SizesHeld(m, t) && HeadersHeld(m, t) && SameBut(m, m1, t, b) && after in list
    requires Is(t, before, Free) && Is(t, b, Huge) && Is(t, after, Free) && before != after
    requires End(t, before) == b && End(t, b) == after
    ensures var m4 := Unlink(JoinBothWrites(m1, before, after, t[b].len), list, after);
            var u := Join(t, before, Free);
            End(u, before) in u && SizesHeld(m4, Join(u, before, Free)) && HeadersHeld(m4, Join(u, before, Free))
  {
    var m4 := Unlink(JoinBothWrites(m1, before, after, t[b].len), list, after);
    HeldFrame(m, m4, t, Join(Join(t, before, Free), before, Free), before, before);
  }

  /** Lines 469-471: the block becomes a node at the head. */
  function NewHeadWrites(m1: Mem, b: int, head: int, size: int): Mem {
    SetNext(SetSize(m1, b, size), b, head)
  }

  lemma NewHeadChain(m1: Mem, list: seq<int>, b: int, size: int)
    requires Chain(m1, list) && b != 0 && b !in list
    ensures Chain(NewHeadWrites(m1, b, At(list, 0), size), [b] + list)
  {
    var m2 := NewHeadWrites(m1, b, At(list, 0), size);
    ChainFrame(m1, m2, list);
    ChainPrepend(m2, list, b);
  }

  lemma NotListed(h: Heap, b: int)
    requires Sound(h) && Is(h.tiles, b, Huge)
    ensures b !in h.list && b != 0
  {
    assert !Is(h.tiles, b, Free);
    assert h.tiles[b].len > 0;
  }

  lemma JoinAfterChain(m1: Mem, list: seq<int>, b: int, after: int, size: int)
    requires Chain(m1, list) && b != 0 && b !in list && after in list
    ensures var m2 := NewHeadWrites(m1, b, At(list, 0), size);
            Chain(m2, [b] + list) && after in [b] + list
            && Chain(Unlink(m2, [b] + list, after), [b] + Without(list, after))
  {
    var m2 := NewHeadWrites(m1, b, At(list, 0), size);
    NewHeadChain(m1, list, b, size);
    WithoutCons(list, b, after);
    UnlinkChain(m2, [b] + list, after);
  }

  lemma JoinAfterOutside(m: Mem, h: Heap, b: int, head: int, after: int, size: int)
    requires Sound(h) && Is(h.tiles, b, Huge) && after in h.list
    ensures KeptOutside(m, Unlink(NewHeadWrites(Clear(m, b, h.tiles[b].len), b, head, size), [b] + h.list, after),
        h.tiles, b)
  {
    assert h.tiles[b].len > 0;
    ListMembers(h.list);
    OnlyListTouched(m, Unlink(NewHeadWrites(Clear(m, b, h.tiles[b].len), b, head, size), [b] + h.list, after), h, b);
  }

  lemma JoinAfterRepresented(m: Mem, m1: Mem, head: int, h: Heap, b: int, after: int)
    requires AfterErasure(m, m1, head, h, b) && !MergesBefore(h, b) && MergesAfter(h, b) && after == Above(h.list, b)
    ensures var m2 := NewHeadWrites(m1, b, head, h.tiles[b].len - HEADER + Read(m1, after).size);
            Chain(m2, [b] + h.list) &&
            var m3 := Unlink(m2, [b] + h.list, after);
            Represents(m3, b, Release(h, b)) && KeptOutside(m, m3, h.tiles, b)
  {
    var size := h.tiles[b].len - HEADER + Read(m1, after).size;
    assert Is(h.tiles, after, Free) && h.tiles[after].len > 0;
    assert TileSound(b, h.tiles[b]);
    NotListed(h, b);
    JoinAfterChain(m1, h.list, b, after, size);
    JoinAfterOutside(m, h, b, head, after, size);
    JoinAfterHeld(m, m1, h.tiles, h.list, head, b, after);
    JoinAfterHeap(h, b);
  }

  lemma JoinAfterHeap(h: Heap, b: int)
    requires Sound(h) && Is(h.tiles, b, Huge) && !MergesBefore(h, b) && MergesAfter(h, b) && Above(h.list, b) in h.list
    requires End(h.tiles, b) in h.tiles && h.tiles[b].len > HEADER
    ensures var j := Join(h.tiles, b, Free);
            Release(h, b) == Heap(h.lo, h.hi, Cut(j, b, j[b].len - HEADER, Free, Lost),
              [b] + Without(h.list, Above(h.list, b)))
  {
  }

  lemma JoinAfterHeld(m: Mem, m1: Mem, t: Tiling, list: seq<int>, head: int, b: int, after: int)
    requires SizesHeld(m, t) && HeadersHeld(m, t) && SameBut(m, m1, t, b) && after in list
    requires Is(t, b, Huge) && Is(t, after, Free) && End(t, b) == after && t[b].len > HEADER && t[after].len > 0
    ensures var m3 := Unlink(NewHeadWrites(m1, b, head, t[b].len - HEADER + Read(m1, after).size), [b] + list, after);
            var j := Join(t, b, Free);
            var r := Cut(j, b, j[b].len - HEADER, Free, Lost);
            SizesHeld(m3, r) && HeadersHeld(m3, r)
  {
    var m3 := Unlink(NewHeadWrites(m1, b, head, t[b].len - HEADER + Read(m1, after).size), [b] + list, after);
    var j := Join(t, b, Free);
    HeldFrame(m, m3, t, Cut(j, b, j[b].len - HEADER, Free, Lost), b, b + j[b].len - HEADER);
  }

  /** Lines 483-485: a node of its own. */
  lemma AloneRepresented(m: Mem, m1: Mem, head: int, h: Heap, b: int)
    requires AfterErasure(m, m1, head, h, b) && !MergesBefore(h, b) && !MergesAfter(h, b)
    ensures var m2 := NewHeadWrites(m1, b, head, h.tiles[b].len - HEADER);
            Represents(m2, b, Release(h, b)) && KeptOutside(m, m2, h.tiles, b)
  {
    var t := h.tiles;
    var m2 := NewHeadWrites(m1, b, head, t[b].len - HEADER);
    NotListed(h, b);
    NewHeadChain(m1, h.list, b, t[b].len - HEADER);
    var r := Cut(t, b, t[b].len - HEADER, Free, Lost);
    assert ReleaseTiles(h, b) == r;
    HeldFrame(m, m2, t, r, b, b + t[b].len - HEADER);
    OnlyListTouched(m, m2, h, b);
  }

  /** Lines 448-466: the successor, when adjacent, is absorbed too and unlinked. */
  method MergeIntoBefore(m: Mem, ghost m0: Mem, head: int, ptr: int, size: int, before: int, after: int, ghost h: Heap)
    returns (m': Mem, head': int)
    requires AfterErasure(m0, m, head, h, ptr - HEADER) && MergesBefore(h, ptr - HEADER)
    requires before == Below(h.list, ptr - HEADER) && after == Above(h.list, ptr - HEADER)
    requires size == h.tiles[ptr - HEADER].len - HEADER
    ensures Represents(m', head', Release(h, ptr - HEADER)) && KeptOutside(m0, m', h.tiles, ptr - HEADER)
  {
    ghost var b := ptr - HEADER;
    head' := head;
    m' := SetSize(m, before, Read(m, before).size + size + HEADER);
    assert m' == JoinBeforeWrites(m, before, h.tiles[b].len);
    EndFacts(h, b);
    if ptr + size == after {
      m' := SetSize(m', before, Read(m', before).size + Read(m', after).size);
      JoinBothRepresented(m0, m, head, h, b, before, after);
      m', head' := Unhook(m', head, after, h.list);
    } else {
      JoinBeforeRepresented(m0, m, head, h, b);
    }
  }

  lemma EndFacts(h: Heap, b: int)
    requires Sound(h) && Is(h.tiles, b, Huge)
    ensures 0 < b < End(h.tiles, b)
    ensures MergesAfter(h, b) <==> Above(h.list, b) == End(h.tiles, b)
  {
    assert h.tiles[b].len > 0;
  }

  /** Lines 454-464 and 472-479: find the predecessor of x and take x out of the list. */
  method Unhook(m: Mem, head: int, x: int, ghost list: seq<int>) returns (m': Mem, head': int)
    requires Chain(m, list) && head == At(list, 0) && x in list
    ensures m' == Unlink(m, list, x) && head' == At(Without(list, x), 0)
  {
    m', head' := m, head;
    var pre := Predecessor(m, head, x, list);
    UnlinkChain(m, list, x);
    ListMembers(list);
    if pre != 0 {
      m' := SetNext(m', pre, Read(m', x).next);
    } else {
      head' := Read(m', head).next;
    }
  }

  /** Lines 467-486: the block becomes the new head, absorbing an adjacent successor. */
  method MergeAsHead(m: Mem, ghost m0: Mem, head: int, ptr: int, size: int, after: int, ghost h: Heap)
    returns (m': Mem, head': int)
    requires AfterErasure(m0, m, head, h, ptr - HEADER) && !MergesBefore(h, ptr - HEADER)
    requires after == Above(h.list, ptr - HEADER)
    requires size == h.tiles[ptr - HEADER].len - HEADER
    ensures Represents(m', head', Release(h, ptr - HEADER)) && KeptOutside(m0, m', h.tiles, ptr - HEADER)
  {
    var header := ptr - HEADER;
    head' := header;
    EndFacts(h, header);
    if ptr + size == after {
      m' := SetNext(SetSize(m, header, size + Read(m, after).size), header, head);
      assert m' == NewHeadWrites(m, header, head, h.tiles[header].len - HEADER + Read(m, after).size);
      JoinAfterRepresented(m0, m, head, h, header, after);
      m', head' := Unhook(m', header, after, [header] + h.list);
    } else {
      m' := SetNext(SetSize(m, header, size), header, head);
      assert m' == NewHeadWrites(m, header, head, h.tiles[header].len - HEADER);
      AloneRepresented(m0, m, head, h, header);
    }
  }

  /** Lines 420-488. */
  method FreeHuge(m: Mem, head: int, ptr: int, ghost h: Heap) returns (m': Mem, head': int, ghost h': Heap)
    requires Sound(h) && Represents(m, head, h) && Is(h.tiles, ptr - HEADER, Huge)
    ensures h' == Release(h, ptr - HEADER)
    ensures Sound(h') && Represents(m', head', h')
    ensures KeptOutside(m, m', h.tiles, ptr - HEADER)
  {
    var header := ptr - HEADER;
    h' := Release(h, header);
    ReleaseSound(h, header);
    assert Read(m, header).tag == HEAP_MAGIC;
    var size := Read(m, header).size;
    var m1 := Clear(m, header, size + HEADER);
    Erased(m, head, h, header);
    var before, after := Neighbours(m1, head, header, h.list);
    assert before != 0 ==> Is(h.tiles, before, Free);
    if before != 0 && before + Read(m1, before).size == header {
      m', head' := MergeIntoBefore(m1, m, head, ptr, size, before, after, h);
    } else {
      m', head' := MergeAsHead(m1, m, head, ptr, size, after, h);
    }
  }
}
