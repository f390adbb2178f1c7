/** The in-page halves of `kalloc` and `kfree` from kernel/src/pmm.c as they run on
    memory, proved against PageModel. */
module PageCode {
  import opened Words
  import opened Memory
  import opened Chains
  import opened Tilings
  import opened FreeLists
  import opened HeapModel
  import opened PageModel

  const PAGE_MAGIC := 1234567

  ghost predicate NodesHeld(m: Mem, t: Tiling) {
    forall a {:trigger Is(t, a, Free)} :: Is(t, a, Free) ==> Read(m, a).size == t[a].len && Read(m, a).tag == PAGE_MAGIC
  }

  /** `pagefreehead_index` locates the head of the free list; 0 stands for the empty list. */
  ghost predicate IndexHeld(index: int, base: int, cls: int, list: seq<int>) {
    base + index * cls == if list == [] then base else list[0]
  }

  /** Memory from `base` on represents the page. */
  ghost predicate PageHeld(m: Mem, p: SizedPage) {
    match p
    case SizedPage(base, cls, tiles, list, empty) =>
      && Chain(m, list)
      && NodesHeld(m, tiles)
      && Read(m, base).size == (if empty then 0 else cls)
      && IndexHeld(Read(m, base).tag, base, cls, list)
  }

  /** Only the page's own 64 KiB change, and not its link in the page list. */
  ghost predicate OnlyInPage(m: Mem, m': Mem, base: int) {
    && (forall x {:trigger Read(m', x)} :: !(base <= x < base + PAGE) ==> Read(m', x) == Read(m, x))
    && Read(m', base).next == Read(m, base).next
  }

  /** A page is represented by its own bytes alone. */
  lemma PageHeldFrame(m: Mem, m': Mem, p: SizedPage)
    requires PageSound(p) && PageHeld(m, p)
    requires forall x {:trigger Read(m', x)} :: p.base <= x < p.base + PAGE ==>
               Read(m', x).size == Read(m, x).size && Read(m', x).tag == Read(m, x).tag
    requires forall x {:trigger Read(m', x)} :: p.base < x < p.base + PAGE ==> Read(m', x) == Read(m, x)
    ensures PageHeld(m', p)
  {
    forall a | a in p.list ensures Read(m', a).next == Read(m, a).next { InsidePage(p, a); }
    ChainFrame(m, m', p.list);
    forall a | Is(p.tiles, a, Free) ensures Read(m', a).size == p.tiles[a].len && Read(m', a).tag == PAGE_MAGIC {
      InsidePage(p, a);
    }
    BaseInside(p);
  }

  lemma InsidePage(p: SizedPage, a: int)
    requires PageSound(p) && (a in p.list || Is(p.tiles, a, Free) || Is(p.tiles, a, Live))
    ensures p.base < a < p.base + PAGE && p.base + p.cls <= a && a in p.tiles && a + p.cls <= p.base + PAGE
    ensures (a - p.base) % p.cls == 0
  {
    if a in p.list { assert Is(p.tiles, a, Free); }
    assert PageTileSound(a, p.tiles[a], p.base, p.cls) && p.tiles[a].len > 0;
    MultipleAtLeast(a - p.base, p.cls);
    MultipleAtLeast(p.tiles[a].len, p.cls);
  }

  lemma BaseInside(p: SizedPage)
    requires PageSound(p)
    ensures p.base in p.tiles && p.base !in p.list && p.tiles[p.base] == Tile(p.cls, Header) && 0 < p.base
  {
    assert PageTileSound(p.base, p.tiles[p.base], p.base, p.cls);
    assert !Is(p.tiles, p.base, Free);
  }

  // ---------------------------------------------------------- index arithmetic

  /** A multiple of the class is addressed by its quotient: lines 243, 389 and 411. */
  lemma IndexOfBlock(base: int, cls: int, a: int)
    requires cls > 0 && (a - base) % cls == 0
    ensures base + (a - base) / cls * cls == a
  {
    DivEquation(a - base, cls);
  }

  /** Index 0 is the empty list. */
  lemma IndexZero(index: int, p: SizedPage)
    requires PageSound(p) && IndexHeld(index, p.base, p.cls, p.list)
    ensures index == 0 <==> p.list == []
    ensures index >= 0
  {
    if p.list != [] { InsidePage(p, p.list[0]); }
    if index > 0 { MulSign(index, p.cls); }
    if index < 0 { MulSign(index, p.cls); }
  }

  // ---------------------------------------------------------- kalloc, fast path

  /** Lines 234-246: the head node is used up. */
  ghost function UseUp(m: Mem, ph: int, fd: int, size: int, index: int): Mem {
    Clear(SetTag(SetSize(m, fd, 0), ph, index), fd, size)
  }

  /** Lines 249-254: the head node is moved up by one block. */
  ghost function MoveUp(m: Mem, ph: int, fd: int, size: int): Mem {
    var m1 := SetSize(m, fd, Read(m, fd).size - size);
    var m2 := SetSize(SetNext(SetTag(m1, fd + size, PAGE_MAGIC), fd + size, Read(m1, fd).next), fd + size,
      Read(m1, fd).size);
    Clear(SetTag(m2, ph, Read(m, ph).tag + 1), fd, size)
  }

  /** Clearing block fd touches no other block's record. */
  lemma ClearBlock(m: Mem, t: Tiling, lo: int, hi: int, fd: int, size: int)
    requires IsTiling(t, lo, hi) && fd in t && t[fd].len >= size
    ensures forall x {:trigger Read(Clear(m, fd, size), x)} :: x != fd && (x in t || x >= fd + size) ==>
        Read(Clear(m, fd, size), x) == Read(m, x)
  {
  }

  lemma UseUpHeld(m: Mem, p: SizedPage, index: int)
    requires PageSound(p) && PageHeld(m, p) && !p.empty && p.list != [] && p.list[0] in p.tiles &&
        p.tiles[p.list[0]].len == p.cls
    requires IndexHeld(index, p.base, p.cls, p.list[1..])
    ensures var m' := UseUp(m, p.base, p.list[0], p.cls, index);
            PageHeld(m', Take(p).0) && OnlyInPage(m, m', p.base)
  {
    var fd := p.list[0];
    var m' := UseUp(m, p.base, fd, p.cls, index);
    ListedAt(p.tiles, p.list, 0);
    InsidePage(p, fd);
    BaseInside(p);
    ClearBlock(SetTag(SetSize(m, fd, 0), p.base, index), p.tiles, p.base, p.base + PAGE, fd, p.cls);
    ChainSuffix(m, p.list, 1);
    RestOfList(p);
    forall a | a in p.list[1..] ensures Read(m', a).next == Read(m, a).next {}
    ChainFrame(m, m', p.list[1..]);
    var r := Retag(p.tiles, fd, Live);
    forall a | Is(r, a, Free) ensures Read(m', a).size == r[a].len && Read(m', a).tag == PAGE_MAGIC {
      assert Is(p.tiles, a, Free);
    }
    assert Take(p).0 == p.(tiles := r, list := p.list[1..], empty := false);
  }

  lemma RestOfList(p: SizedPage)
    requires PageSound(p) && p.list != []
    ensures forall a {:trigger a in p.list[1..]} :: a in p.list[1..] ==> a != p.list[0] && a in p.tiles && a != p.base
  {
    DistinctIndices(p.list);
    BaseInside(p);
    forall a | a in p.list[1..] ensures a != p.list[0] && a in p.tiles && a != p.base {
      var i :| 0 <= i < |p.list[1..]| && p.list[1..][i] == a;
      assert a == p.list[i + 1] && a in p.list && Is(p.tiles, a, Free);
    }
  }

  lemma MoveUpHeld(m: Mem, p: SizedPage)
    requires PageSound(p) && PageHeld(m, p) && !p.empty && p.list != [] && p.list[0] in p.tiles &&
        p.tiles[p.list[0]].len > p.cls
    ensures var m' := MoveUp(m, p.base, p.list[0], p.cls);
            PageHeld(m', Take(p).0) && OnlyInPage(m, m', p.base)
  {
    var fd, cls, base := p.list[0], p.cls, p.base;
    var m' := MoveUp(m, base, fd, cls);
    ListedAt(p.tiles, p.list, 0);
    InsidePage(p, fd);
    BaseInside(p);
    MoveUpChain(m, p);
    MoveUpNodes(m, p);
    MulStep(Read(m, base).tag, cls);
    assert p.tiles[fd].len > 0;
    assert Take(p).0 == p.(tiles := Cut(p.tiles, fd, cls, Live, Free), list := p.list[0 := fd + cls], empty := false);
  }

  lemma MulStep(i: int, d: int)
    ensures (i + 1) * d == i * d + d
  {
  }

  lemma MoveUpChain(m: Mem, p: SizedPage)
    requires PageSound(p) && PageHeld(m, p) && p.list != [] && p.list[0] in p.tiles && p.tiles[p.list[0]].len > p.cls
    ensures Chain(MoveUp(m, p.base, p.list[0], p.cls), p.list[0 := p.list[0] + p.cls])
  {
    var fd, f, base := p.list[0], p.list[0] + p.cls, p.base;
    var m' := MoveUp(m, base, fd, p.cls);
    InsidePage(p, fd);
    NotInside(p.tiles, base, base + PAGE, fd, f);
    assert f !in p.list by { assert !Is(p.tiles, f, Free); }
    assert Read(m, p.list[0]).next == At(p.list, 1);
    var m1 := SetNext(m, f, Read(m, fd).next);
    ChainFrame(m, m1, p.list);
    ChainReplace(m1, p.list, 0, f);
    ReplaceMembers(p.list, 0, f);
    forall x | x in p.list[0 := f] ensures Read(m', x).next == Read(m1, x).next {
      if x != f { InsidePage(p, x); assert Is(p.tiles, x, Free) && p.tiles[fd].len > 0 && p.tiles[x].len > 0; }
    }
    ChainFrame(m1, m', p.list[0 := f]);
  }

  lemma MoveUpNodes(m: Mem, p: SizedPage)
    requires PageSound(p) && PageHeld(m, p) && p.list != [] && Is(p.tiles, p.list[0], Free) &&
        p.tiles[p.list[0]].len > p.cls
    ensures NodesHeld(MoveUp(m, p.base, p.list[0], p.cls), Cut(p.tiles, p.list[0], p.cls, Live, Free))
  {
    var fd, base := p.list[0], p.base;
    var r, m' := Cut(p.tiles, fd, p.cls, Live, Free), MoveUp(m, base, fd, p.cls);
    InsidePage(p, fd);
    NotInside(p.tiles, base, base + PAGE, fd, fd + p.cls);
    forall a | Is(r, a, Free) ensures Read(m', a).size == r[a].len && Read(m', a).tag == PAGE_MAGIC {
      if a != fd + p.cls {
        assert Is(p.tiles, a, Free);
        InsidePage(p, a);
        assert p.tiles[fd].len > 0 && p.tiles[a].len > 0;
      }
    }
  }

  /** What the head node of a page with room looks like in memory. */
  lemma HeadNode(m: Mem, p: SizedPage)
    requires PageSound(p) && PageHeld(m, p) && p.list != []
    ensures var fd, next := p.list[0], Read(m, p.list[0]).next;
            && Is(p.tiles, fd, Free) && p.base < fd && fd + p.cls <= p.base + PAGE
            && Read(m, fd).size == p.tiles[fd].len >= p.cls && Read(m, fd).tag == PAGE_MAGIC
            && (next == 0 ==> p.list[1..] == [])
            && (next != 0 ==> |p.list| > 1 && next == p.list[1] && (next - p.base) % p.cls == 0)
  {
    var fd := p.list[0];
    ListedAt(p.tiles, p.list, 0);
    InsidePage(p, fd);
    assert Read(m, p.list[0]).next == At(p.list, 1);
    assert PageTileSound(fd, p.tiles[fd], p.base, p.cls) && p.tiles[fd].len > 0;
    MultipleAtLeast(p.tiles[fd].len, p.cls);
    if |p.list| > 1 { assert p.list[1] in p.list; InsidePage(p, p.list[1]); }
  }

  /** Lines 229-260; the caller has found the page by `size` and a nonzero index. */
  method AllocInPage(m: Mem, ph: int, size: int, ghost p: SizedPage) returns (m': Mem, fd: int, ghost p': SizedPage)
    requires PageSound(p) && PageHeld(m, p) && p.base == ph
    requires Read(m, ph).size == size && Read(m, ph).tag > 0 && !p.empty
    ensures p.list != [] && (p', fd) == Take(p)
    ensures PageSound(p') && PageHeld(m', p') && OnlyInPage(m, m', ph) && Zeroed(m', fd, size)
  {
    var index := Read(m, ph).tag;
    IndexZero(index, p);
    p' := Take(p).0;
    TakeSound(p);
    fd := ph + index * size;
    HeadNode(m, p);
    // the `else` of line 262 would need a node smaller than its class
    assert Read(m, fd).size >= size;
    m' := SetSize(m, fd, Read(m, fd).size - size);
    if Read(m', fd).size == 0 {
      assert Read(m', fd).tag == PAGE_MAGIC;
      index := NextIndex(m', ph, size, fd, p);
      UseUpHeld(m, p, index);
      m' := Clear(SetTag(m', ph, index), fd, size);
      assert m' == UseUp(m, ph, fd, size, index);
    } else {
      MoveUpHeld(m, p);
      m' := SplitHead(m, m', ph, fd, size, index);
    }
  }

  /** Lines 249-259: the rest of the head node becomes the head node. */
  method SplitHead(m: Mem, m1: Mem, ph: int, fd: int, size: int, index: int) returns (m': Mem)
    requires m1 == SetSize(m, fd, Read(m, fd).size - size) && ClassOk(size) && index == Read(m, ph).tag
    requires fd == ph + index * size && fd + size < ph + PAGE
    ensures m' == MoveUp(m, ph, fd, size) && Zeroed(m', fd, size)
  {
    var newnode := fd + size;
    m' := SetSize(SetNext(SetTag(m1, newnode, PAGE_MAGIC), newnode, Read(m1, fd).next), newnode, Read(m1, fd).size);
    m' := Clear(SetTag(m', ph, Read(m, ph).tag + 1), fd, size);
    MulStep(index, size);
    assert ph + (index + 1) * size == newnode;
    assert index + 1 < PAGE / size by { IndexBelow(index + 1, size); }
  }

  /** Lines 237-245: where the free list starts once its head is used up. */
  method NextIndex(m: Mem, ph: int, size: int, fd: int, ghost p: SizedPage) returns (index: int)
    requires size > 0 && ph == p.base && p.list != [] && fd == p.list[0]
    requires Read(m, fd).next == 0 ==> p.list[1..] == []
    requires Read(m, fd).next != 0 ==>
        |p.list| > 1 && Read(m, fd).next == p.list[1] && (Read(m, fd).next - ph) % size == 0
    ensures IndexHeld(index, ph, size, p.list[1..])
  {
    if Read(m, fd).next == 0 {
      index := 0;
    } else {
      index := (Read(m, fd).next - ph) / size;
      IndexOfBlock(ph, size, Read(m, fd).next);
      assert ph + index * size == Read(m, fd).next;
    }
  }

  /** The assertion of line 256. */
  lemma IndexBelow(i: int, s: int)
    requires ClassOk(s) && i * s < PAGE
    ensures i < PAGE / s
  {
    ClassFacts(s);
    DivEquation(PAGE, s);
    if i >= PAGE / s { MulMono(PAGE / s, i, s); }
  }

  // ---------------------------------------------------------- kalloc, new and re-typed pages

  /** Lines 207-214: a page from the heap, typed, with everything behind its header free. */
  method InitPage(m: Mem, ph: int, size: int) returns (m': Mem)
    requires 0 < ph && ClassOk(size)
    ensures PageSound(Fresh(ph, size)) && PageHeld(m', Fresh(ph, size))
    ensures Read(m', ph).next == 0
    ensures forall x {:trigger Read(m', x)} :: !(ph <= x < ph + PAGE) ==> Read(m', x) == Read(m, x)
  {
    FreshSound(ph, size);
    ClassFacts(size);
    m' := SetTag(SetSize(SetNext(m, ph, 0), ph, size), ph, 1);
    var pagefreend := ph + size;
    m' := SetSize(SetNext(SetTag(m', pagefreend, PAGE_MAGIC), pagefreend, 0), pagefreend, PAGE - size);
    OneNodeHeld(m', Fresh(ph, size), pagefreend);
  }

  /** A page whose list is a single node. */
  lemma OneNodeHeld(m: Mem, p: SizedPage, a: int)
    requires PageSound(p) && p.list == [a]
    requires a in p.tiles && Read(m, a) == Node(0, p.tiles[a].len, PAGE_MAGIC)
    requires Read(m, p.base).size == (if p.empty then 0 else p.cls) && p.base + Read(m, p.base).tag * p.cls == a
    ensures PageHeld(m, p)
  {
    InsidePage(p, a);
    assert Distinct(p.list);
    forall b | Is(p.tiles, b, Free) ensures b == a { assert b in p.list; }
  }

  /** The page as lines 297-304 leave it: block 1 handed out, the rest one node. */
  lemma RestartedPage(ph: int, size: int)
    requires 0 < ph && ClassOk(size)
    ensures PageSound(Fresh(ph, size)) && Fresh(ph, size).list != []
    ensures var (p, a) := Take(Fresh(ph, size));
            && PageSound(p) && a == ph + size && p.list == [ph + 2 * size] && !p.empty && p.cls == size && p.base == ph
            && Is(p.tiles, ph + 2 * size, Free) && p.tiles[ph + 2 * size].len == PAGE - 2 * size
  {
    FreshSound(ph, size);
    TakeSound(Fresh(ph, size));
    ClassFacts(size);
  }

  lemma StartHeld(m: Mem, ph: int, size: int)
    requires 0 < ph && ClassOk(size)
    requires Read(m, ph).size == size && Read(m, ph).tag == 2 &&
        Read(m, ph + 2 * size) == Node(0, PAGE - 2 * size, PAGE_MAGIC)
    ensures PageSound(Fresh(ph, size)) && Fresh(ph, size).list != []
    ensures PageSound(Take(Fresh(ph, size)).0) && PageHeld(m, Take(Fresh(ph, size)).0)
  {
    RestartedPage(ph, size);
    OneNodeHeld(m, Take(Fresh(ph, size)).0, ph + 2 * size);
  }

  /** Lines 297-304, for an empty page being re-typed or a page just carved: `size` and
      index 1 are set; whatever the page held before is overwritten. */
  method StartPage(m: Mem, ph: int, size: int) returns (m': Mem, ret: int)
    requires 0 < ph && ClassOk(size) && Read(m, ph).size == size && Read(m, ph).tag == 1
    ensures PageSound(Fresh(ph, size)) && Fresh(ph, size).list != [] && ret == Take(Fresh(ph, size)).1
    ensures PageSound(Take(Fresh(ph, size)).0) && PageHeld(m', Take(Fresh(ph, size)).0) && OnlyInPage(m, m', ph)
    ensures Zeroed(m', ret, size)
  {
    ClassFacts(size);
    ret := ph + Read(m, ph).tag * size;
    var newnode := ret + size;
    m' := SetNext(SetTag(m, newnode, PAGE_MAGIC), newnode, 0);
    m' := SetTag(m', ph, Read(m', ph).tag + 1);
    m' := SetSize(m', newnode, PAGE - Read(m', ph).tag * size);
    assert ph + Read(m', ph).tag * size == newnode;
    m' := Clear(m', ret, size);
    StartHeld(m', ph, size);
    RestartedPage(ph, size);
  }

  // ---------------------------------------------------------- kfree, page half

  /** What the page's other blocks still hold once line 338 has cleared block b. */
  ghost predicate BlockCleared(m: Mem, m1: Mem, p: SizedPage, b: int) {
    match p
    case SizedPage(base, cls, tiles, list, _) =>
      && PageSound(p) && PageHeld(m, p) && Is(tiles, b, Live)
      && m1 == Clear(m, b, cls)
      && Chain(m1, list) && NodesHeld(m1, tiles) && Read(m1, base) == Read(m, base)
  }

  lemma ClearKeeps(m: Mem, p: SizedPage, b: int)
    requires PageSound(p) && PageHeld(m, p) && Is(p.tiles, b, Live)
    ensures BlockCleared(m, Clear(m, b, p.cls), p, b)
    ensures p.tiles[b].len == p.cls && p.base < b && b + p.cls <= p.base + PAGE
  {
    var m1 := Clear(m, b, p.cls);
    assert PageTileSound(b, p.tiles[b], p.base, p.cls);
    InsidePage(p, b);
    BaseInside(p);
    ClearBlock(m, p.tiles, p.base, p.base + PAGE, b, p.cls);
    forall a | a in p.list ensures Read(m1, a).next == Read(m, a).next { assert Is(p.tiles, a, Free); }
    ChainFrame(m, m1, p.list);
  }

  /** Nodes other than y keep their block and their size and magic. */
  lemma NodesFrame(m: Mem, m': Mem, t: Tiling, t': Tiling, y: int)
    requires NodesHeld(m, t)
    requires forall x {:trigger t'[x]} :: x in t' && x != y && t'[x].kind == Free ==>
               x in t && t[x] == t'[x] && Read(m', x).size == Read(m, x).size && Read(m', x).tag == Read(m, x).tag
    requires Is(t', y, Free) ==> Read(m', y).size == t'[y].len && Read(m', y).tag == PAGE_MAGIC
    ensures NodesHeld(m', t')
  {
    forall x | Is(t', x, Free) ensures Read(m', x).size == t'[x].len && Read(m', x).tag == PAGE_MAGIC {
      if x != y { assert Is(t, x, Free); }
    }
  }

  /** Lines 378-381 and 399-402: mark the page empty. */
  function MarkEmpty(m: Mem, ph: int, whole: bool): Mem {
    if whole then SetSize(m, ph, 0) else m
  }

  /** Lines 361-381: `before` absorbs the block, and `after` too when the block ends there. */
  ghost function JoinWrites(m1: Mem, ph: int, ptr: int, before: int, after: int, walk: seq<int>): Mem
    requires after != 0 ==> after in walk
  {
    var m2 := SetSize(m1, before, Read(m1, before).size + Read(m1, ph).size);
    var m3 := if after != 0 && ptr + Read(m2, ph).size == after then FuseWrites(m2, ph, before, after, walk) else m2;
    MarkEmpty(m3, ph, Read(m3, before).size == PAGE - Read(m3, ph).size)
  }

  /** Lines 365-376: `after` leaves the list; when it was the head, `before` becomes the head. */
  ghost function FuseWrites(m2: Mem, ph: int, before: int, after: int, walk: seq<int>): Mem
    requires after in walk
  {
    var m3, k := SetSize(m2, before, Read(m2, before).size + Read(m2, after).size), IndexOf(walk, after);
    if k > 0 then SetNext(m3, walk[k - 1], Read(m3, after).next)
    else SetTag(m3, ph, if Read(m3, ph).size == 0 then 0 else (before - ph) / Read(m3, ph).size)
  }

  /** Lines 385-389 and 406-411: the block becomes the head node. */
  function HeadWrites(m1: Mem, ph: int, ptr: int, head: int, size: int): Mem {
    var m2 := SetNext(SetSize(SetTag(m1, ptr, PAGE_MAGIC), ptr, size), ptr, head);
    SetTag(m2, ph, if Read(m2, ph).size == 0 then 0 else (ptr - ph) / Read(m2, ph).size)
  }

  /** Lines 385-402: the block becomes the head node and absorbs `after`. */
  ghost function AfterWrites(m1: Mem, ph: int, ptr: int, head: int, after: int, walk: seq<int>): Mem
    requires after in [ptr] + walk
  {
    var m3 := Unlink(HeadWrites(m1, ph, ptr, head, Read(m1, ph).size + Read(m1, after).size), [ptr] + walk, after);
    MarkEmpty(m3, ph, Read(m3, ptr).size == PAGE - Read(m3, ph).size)
  }

  // ---- each shape of merge, in a page whose list is not empty

  lemma BeforeHeld(m: Mem, m1: Mem, p: SizedPage, b: int, before: int, after: int)
    requires BlockCleared(m, m1, p, b) && JoinsBefore(p, b) && !JoinsAfter(p, b) && !p.empty
    requires 0 !in p.list && before == Below(p.list, b) && after == Above(p.list, b)
    ensures PageHeld(JoinWrites(m1, p.base, b, before, after, p.list), GiveBack(p, b))
  {
    JoinsMeanAdjacency(p, b);
    BaseInside(p);
    assert PageTileSound(b, p.tiles[b], p.base, p.cls);
    var t' := Join(p.tiles, before, Free);
    var whole := t'[before].len == PAGE - p.cls;
    assert GiveBack(p, b) == SizedPage(p.base, p.cls, t', p.list, whole);
    var m2 := SetSize(m1, before, Read(m1, before).size + p.cls);
    NodesFrame(m1, m2, p.tiles, t', before);
    ChainFrame(m1, m2, p.list);
    assert JoinWrites(m1, p.base, b, before, after, p.list) == MarkEmpty(m2, p.base, whole);
    MarkHeld(m2, p.base, p.cls, t', p.list, whole);
  }

  /** GiveBack when both neighbours merge, spelled out. */
  lemma BothShape(p: SizedPage, b: int, before: int, after: int)
    requires PageSound(p) && Is(p.tiles, b, Live) && JoinsBefore(p, b) && JoinsAfter(p, b)
    requires 0 !in p.list && before == Below(p.list, b) && after == Above(p.list, b)
    ensures Is(p.tiles, before, Free) && End(p.tiles, before) == b && Is(p.tiles, after, Free) &&
        End(p.tiles, b) == after
    ensures before in p.list && after in p.list && before != after && p.tiles[b].len == p.cls
    ensures var u := Join(p.tiles, before, Free);
            && End(u, before) in u && before !in Skipped(p, b)
            && var r := Join(u, before, Free);
               var list := if p.list[0] == after then p.list[IndexOf(p.list, before)..] else Without(p.list, after);
               GiveBack(p, b) == SizedPage(p.base, p.cls, RetagAll(r, Skipped(p, b), Lost), list,
                 r[before].len == PAGE - p.cls)
  {
    JoinsMeanAdjacency(p, b);
    assert PageTileSound(b, p.tiles[b], p.base, p.cls) && p.tiles[b].len > 0;
    FuseBoth(p, b, before, after);
    SkippedIff(p, b);
  }

  lemma BothHeld(m: Mem, m1: Mem, p: SizedPage, b: int, before: int, after: int)
    requires BlockCleared(m, m1, p, b) && JoinsBefore(p, b) && JoinsAfter(p, b) && !p.empty
    requires 0 !in p.list && before == Below(p.list, b) && after == Above(p.list, b)
    ensures PageHeld(JoinWrites(m1, p.base, b, before, after, p.list), GiveBack(p, b))
  {
    BothShape(p, b, before, after);
    BaseInside(p);
    InsidePage(p, before);
    FusedHeld(m1, p.base, p.cls, p.tiles, p.list, b, before, after, Skipped(p, b));
  }

  lemma FusedWrites(m1: Mem, base: int, cls: int, b: int, before: int, after: int, list: seq<int>)
    requires after in list && after != 0 && before != base && base !in list && Read(m1, base).size == cls &&
        b + cls == after
    ensures var m3 := FuseWrites(SetSize(m1, before, Read(m1, before).size + cls), base, before, after, list);
            JoinWrites(m1, base, b, before, after, list) == MarkEmpty(m3, base, Read(m3, before).size == PAGE - cls)
  {
    ListMembers(list);
  }

  lemma FusedHeld(m1: Mem, base: int, cls: int, t: Tiling, list: seq<int>, b: int, before: int, after: int,
      skipped: seq<int>)
    requires cls > 0 && Chain(m1, list) && NodesHeld(m1, t) && Read(m1, base).size == cls
    requires IndexHeld(Read(m1, base).tag, base, cls, list) && base !in list && !Is(t, base, Free)
    requires Is(t, before, Free) && Is(t, b, Live) && Is(t, after, Free) && before != after
    requires before in list && after in list && before !in skipped && (before - base) % cls == 0
    requires End(t, before) == b && End(t, b) == after && t[b].len == cls
    requires End(Join(t, before, Free), before) in Join(t, before, Free)
    ensures var r := Join(Join(t, before, Free), before, Free);
            var list' := if list[0] == after then list[IndexOf(list, before)..] else Without(list, after);
            PageHeld(JoinWrites(m1, base, b, before, after, list),
                     SizedPage(base, cls, RetagAll(r, skipped, Lost), list', r[before].len == PAGE - cls))
  {
    var r := Join(Join(t, before, Free), before, Free);
    var list' := if list[0] == after then list[IndexOf(list, before)..] else Without(list, after);
    var whole := r[before].len == PAGE - cls;
    var m2 := SetSize(m1, before, Read(m1, before).size + cls);
    var m3 := FuseWrites(m2, base, before, after, list);
    FuseChain(m1, m2, base, cls, list, before, after);
    FuseNodes(m1, m2, base, t, list, r, before, b, after, skipped);
    FusedWrites(m1, base, cls, b, before, after, list);
    MarkHeld(m3, base, cls, RetagAll(r, skipped, Lost), list', whole);
  }

  /** Marking the page does not disturb its nodes. */
  lemma MarkHeld(m: Mem, base: int, cls: int, tiles: Tiling, list: seq<int>, whole: bool)
    requires Chain(m, list) && NodesHeld(m, tiles) && Read(m, base).size == cls
    requires IndexHeld(Read(m, base).tag, base, cls, list) && !Is(tiles, base, Free)
    ensures PageHeld(MarkEmpty(m, base, whole), SizedPage(base, cls, tiles, list, whole))
  {
    var m' := MarkEmpty(m, base, whole);
    ChainFrame(m, m', list);
    forall x | Is(tiles, x, Free) ensures Read(m', x) == Read(m, x) {}
  }

  lemma FuseChain(m1: Mem, m2: Mem, base: int, cls: int, list: seq<int>, before: int, after: int)
    requires cls > 0 && Chain(m1, list) && before in list && after in list && before != after && base !in list
    requires forall x {:trigger Read(m2, x)} ::
        Read(m2, x).next == Read(m1, x).next && Read(m2, x).tag == Read(m1, x).tag
    requires Read(m2, base).size == cls && IndexHeld(Read(m1, base).tag, base, cls, list) && (before - base) % cls == 0
    ensures var m3 := FuseWrites(m2, base, before, after, list);
            var list' := if list[0] == after then list[IndexOf(list, before)..] else Without(list, after);
            Chain(m3, list') && IndexHeld(Read(m3, base).tag, base, cls, list')
  {
    var m3 := FuseWrites(m2, base, before, after, list);
    var ms, k := SetSize(m2, before, Read(m2, before).size + Read(m2, after).size), IndexOf(list, after);
    ChainFrame(m1, ms, list);
    if list[0] == after {
      IndexOfAt(list, 0);
      var j := IndexOf(list, before);
      ChainSuffix(ms, list, j);
      IndexOfBlock(base, cls, before);
      assert forall x :: x in list[j..] ==> x in list;
      ChainFrame(ms, m3, list[j..]);
    } else {
      UnlinkChain(ms, list, after);
      ListMembers(list);
    }
  }

  lemma FuseNodes(m1: Mem, m2: Mem, base: int, t: Tiling, list: seq<int>, r: Tiling, before: int, b: int, after: int,
      skipped: seq<int>)
    requires NodesHeld(m1, t) && after in list && before !in skipped && base !in list && !Is(t, base, Free)
    requires Is(t, before, Free) && Is(t, b, Live) && Is(t, after, Free) && before != after
    requires End(t, before) == b && End(t, b) == after
    requires m2 == SetSize(m1, before, Read(m1, before).size + t[b].len)
    requires End(Join(t, before, Free), before) in Join(t, before, Free) &&
        r == Join(Join(t, before, Free), before, Free)
    ensures var m3 := FuseWrites(m2, base, before, after, list);
            && NodesHeld(m3, RetagAll(r, skipped, Lost)) && !Is(RetagAll(r, skipped, Lost), base, Free)
            && Read(m3, before).size == r[before].len && Read(m3, base).size == Read(m1, base).size
  {
    ListMembers(list);
    var m3 := FuseWrites(m2, base, before, after, list);
    NodesFrame(m1, m3, t, RetagAll(r, skipped, Lost), before);
  }

  lemma HeadChain(m1: Mem, base: int, cls: int, list: seq<int>, b: int, size: int)
    requires cls > 0 && Chain(m1, list) && list != [] && b != 0 && b !in list && b != base && base !in list
    requires Read(m1, base).size == cls && (b - base) % cls == 0
    ensures var m2 := HeadWrites(m1, base, b, list[0], size);
            && Chain(m2, [b] + list)
            && Read(m2, b) == Node(list[0], size, PAGE_MAGIC)
            && IndexHeld(Read(m2, base).tag, base, cls, [b] + list) && Read(m2, base).size == cls
            && (forall x {:trigger Read(m2, x)} :: x != b && x != base ==> Read(m2, x) == Read(m1, x))
  {
    var m2 := HeadWrites(m1, base, b, list[0], size);
    IndexOfBlock(base, cls, b);
    ChainFrame(m1, m2, list);
    ChainPrepend(m2, list, b);
  }

  lemma AloneHeld(m: Mem, m1: Mem, p: SizedPage, b: int)
    requires BlockCleared(m, m1, p, b) && !JoinsBefore(p, b) && !JoinsAfter(p, b) && !p.empty && p.list != []
    ensures PageHeld(HeadWrites(m1, p.base, b, p.list[0], p.cls), GiveBack(p, b))
  {
    BaseInside(p);
    assert PageTileSound(b, p.tiles[b], p.base, p.cls);
    InsidePage(p, b);
    assert b !in p.list by { assert !Is(p.tiles, b, Free); }
    HeadChain(m1, p.base, p.cls, p.list, b, p.cls);
    NodesFrame(m1, HeadWrites(m1, p.base, b, p.list[0], p.cls), p.tiles, Retag(p.tiles, b, Free), b);
  }

  lemma AfterHeld(m: Mem, m1: Mem, p: SizedPage, b: int, after: int)
    requires BlockCleared(m, m1, p, b) && !JoinsBefore(p, b) && JoinsAfter(p, b) && !p.empty && p.list != []
    requires 0 !in p.list && after == Above(p.list, b)
    ensures after in [b] + p.list && PageHeld(AfterWrites(m1, p.base, b, p.list[0], after, p.list), GiveBack(p, b))
  {
    JoinsMeanAdjacency(p, b);
    assert PageTileSound(b, p.tiles[b], p.base, p.cls) && p.tiles[b].len > 0;
    var t' := Join(p.tiles, b, Free);
    assert GiveBack(p, b) == SizedPage(p.base, p.cls, t', [b] + Without(p.list, after), t'[b].len == PAGE - p.cls);
    BaseInside(p);
    InsidePage(p, b);
    assert b !in p.list by { assert !Is(p.tiles, b, Free); }
    AbsorbedHeld(m1, p.base, p.cls, p.tiles, p.list, b, after);
  }

  lemma AbsorbedHeld(m1: Mem, base: int, cls: int, t: Tiling, list: seq<int>, b: int, after: int)
    requires cls > 0 && Chain(m1, list) && NodesHeld(m1, t) && Read(m1, base).size == cls && !Is(t, base, Free) &&
        base !in list
    requires Is(t, b, Live) && Is(t, after, Free) && after in list && t[b].len == cls && End(t, b) == after
    requires b !in list && b != 0 && b != base && (b - base) % cls == 0
    ensures after in [b] + list
    ensures var t' := Join(t, b, Free);
            PageHeld(AfterWrites(m1, base, b, list[0], after, list),
                     SizedPage(base, cls, t', [b] + Without(list, after), t'[b].len == PAGE - cls))
  {
    var t' := Join(t, b, Free);
    var size := Read(m1, base).size + Read(m1, after).size;
    var m2 := HeadWrites(m1, base, b, list[0], size);
    HeadChain(m1, base, cls, list, b, size);
    AfterChain(m2, list, b, after);
    var m3 := Unlink(m2, [b] + list, after);
    NodesFrame(m1, m3, t, t', b);
    assert AfterWrites(m1, base, b, list[0], after, list) == MarkEmpty(m3, base, t'[b].len == PAGE - cls);
    MarkHeld(m3, base, cls, t', [b] + Without(list, after), t'[b].len == PAGE - cls);
  }

  lemma AfterChain(m2: Mem, list: seq<int>, b: int, after: int)
    requires Chain(m2, [b] + list) && after in list && b !in list && Distinct(list)
    ensures after in [b] + list
    ensures var m3 := Unlink(m2, [b] + list, after);
            && Chain(m3, [b] + Without(list, after))
            && (forall x {:trigger Read(m3, x)} ::
               Read(m3, x).size == Read(m2, x).size && Read(m3, x).tag == Read(m2, x).tag)
            && (forall x {:trigger Read(m3, x)} :: x != b && x !in list ==> Read(m3, x) == Read(m2, x))
  {
    WithoutCons(list, b, after);
    UnlinkChain(m2, [b] + list, after);
    ListMembers([b] + list);
    assert forall x :: x in [b] + list ==> x == b || x in list;
  }

  // ---- the code, on the chain it walks: the free list, or for index 0 the page headers from this one on

  /** Lines 360-382. */
  method JoinIntoBefore(m: Mem, ph: int, ptr: int, before: int, after: int, ghost walk: seq<int>) returns (m': Mem)
    requires Chain(m, walk) && before in walk && (after != 0 ==> after in walk) && after != before
    requires walk[0] == ph + Read(m, ph).tag * Read(m, ph).size
    requires after != 0 && ptr + Read(SetSize(m, before, Read(m, before).size + Read(m, ph).size), ph).size == after ==>
        before != ph && Read(m, ph).size > 0
    ensures m' == JoinWrites(m, ph, ptr, before, after, walk)
  {
    m' := SetSize(m, before, Read(m, before).size + Read(m, ph).size);
    if after != 0 && ptr + Read(m', ph).size == after {
      ghost var m2 := m';
      m' := SetSize(m', before, Read(m', before).size + Read(m', after).size);
      ChainFrame(m, m', walk);
      var h := Predecessor(m', ph + Read(m', ph).tag * Read(m', ph).size, after, walk);
      ListMembers(walk);
      if h != 0 {
        m' := SetNext(m', h, Read(m', after).next);
      } else {
        m' := SetTag(m', ph, (before - ph) / Read(m', ph).size);
      }
      assert m' == FuseWrites(m2, ph, before, after, walk);
    }
    if Read(m', before).size == PAGE - Read(m', ph).size {
      m' := SetSize(m', ph, 0);
    }
  }

  /** Lines 385-390 and 406-412. */
  method BecomeHead(m: Mem, ph: int, ptr: int, size: int) returns (m': Mem)
    requires ptr != ph && Read(m, ph).size > 0 && ph + Read(m, ph).size <= ptr && (ptr - ph) % Read(m, ph).size == 0
    ensures m' == HeadWrites(m, ph, ptr, ph + Read(m, ph).tag * Read(m, ph).size, size)
    ensures Read(m', ph).size == Read(m, ph).size && Read(m', ph).tag > 0
    ensures ph + Read(m', ph).tag * Read(m', ph).size == ptr
  {
    m' := SetSize(SetTag(m, ptr, PAGE_MAGIC), ptr, size);
    m' := SetNext(m', ptr, ph + Read(m', ph).tag * Read(m', ph).size);
    m' := SetTag(m', ph, (ptr - ph) / Read(m', ph).size);
    QuotientPositive(ptr - ph, Read(m, ph).size);
    IndexOfBlock(ph, Read(m, ph).size, ptr);
  }

  lemma QuotientPositive(x: int, d: int)
    requires 0 < d <= x
    ensures x / d > 0
  {
    DivEquation(x, d);
    if x / d <= 0 { MulMono(x / d, 0, d); }
  }

  lemma HeadChained(m: Mem, ph: int, ptr: int, walk: seq<int>, size: int)
    requires Chain(m, walk) && walk != [] && ptr !in walk && ptr != 0 && ptr != ph
    ensures Chain(HeadWrites(m, ph, ptr, walk[0], size), [ptr] + walk)
  {
    var m' := HeadWrites(m, ph, ptr, walk[0], size);
    ChainFrame(m, m', walk);
    ChainPrepend(m', walk, ptr);
  }

  /** Lines 383-403. */
  method JoinAfter(m: Mem, ph: int, ptr: int, after: int, ghost walk: seq<int>) returns (m': Mem)
    requires Chain(m, walk) && after in walk && ptr !in walk && ptr != 0 && ptr != ph
    requires Read(m, ph).size > 0 && ph + Read(m, ph).size <= ptr && (ptr - ph) % Read(m, ph).size == 0
    requires walk[0] == ph + Read(m, ph).tag * Read(m, ph).size
    ensures after in [ptr] + walk && m' == AfterWrites(m, ph, ptr, walk[0], after, walk)
  {
    m' := BecomeHead(m, ph, ptr, Read(m, ph).size + Read(m, after).size);
    HeadChained(m, ph, ptr, walk, Read(m, ph).size + Read(m, after).size);
    m' := SkipAfter(m', ph, after, [ptr] + walk);
    if Read(m', ptr).size == PAGE - Read(m', ph).size {
      m' := SetSize(m', ph, 0);
    }
  }

  /** Lines 391-398; `after` is not the head, so the search finds its predecessor. */
  method SkipAfter(m: Mem, ph: int, after: int, ghost chain: seq<int>) returns (m': Mem)
    requires Chain(m, chain) && after in chain && chain[0] != after
    requires chain[0] == ph + Read(m, ph).tag * Read(m, ph).size
    ensures m' == Unlink(m, chain, after)
  {
    var h := Predecessor(m, ph + Read(m, ph).tag * Read(m, ph).size, after, chain);
    m' := SetNext(m, h, Read(m, after).next);
  }

  // ---- kfree of a small block

  /** The chain `kfree` walks from `ph + pagefreehead_index * size`: the free list, or, from a
      full page, this page's header and whatever pages follow it in its list. */
  ghost predicate WalkFrom(m: Mem, p: SizedPage, walk: seq<int>) {
    if p.list != [] then walk == p.list
    else
      && Chain(m, walk) && walk != [] && walk[0] == p.base
      && (forall q {:trigger q in walk} :: q in walk ==> q == p.base || q + PAGE <= p.base || p.base + PAGE <= q)
  }

  /** Memory after lines 360-413, the searches having found `before` and `after`. */
  ghost function FreeWrites(m1: Mem, ph: int, ptr: int, before: int, after: int, walk: seq<int>): Mem
    requires walk != [] && (after != 0 ==> after in walk)
  {
    if before != 0 && before + Read(m1, before).size == ptr then JoinWrites(m1, ph, ptr, before, after, walk)
    else if after != 0 && ptr + Read(m1, ph).size == after then AfterWrites(m1, ph, ptr, walk[0], after, walk)
    else HeadWrites(m1, ph, ptr, walk[0], Read(m1, ph).size)
  }

  /** Memory after `kfree` of block b of page p: lines 336-413. */
  ghost function FreedMemory(m: Mem, p: SizedPage, b: int, walk: seq<int>): Mem
    requires walk != [] && 0 !in walk
  {
    FreeWrites(Clear(m, b, p.cls), p.base, b, Below(walk, b), Above(walk, b), walk)
  }

  /** A page with a live block is not marked empty. */
  lemma LiveNotEmpty(p: SizedPage, b: int)
    requires PageSound(p) && Is(p.tiles, b, Live)
    ensures !p.empty
  {
    if p.empty { EmptyPageIsReusable(p); }
  }

  lemma WalkStart(m: Mem, p: SizedPage, walk: seq<int>)
    requires PageSound(p) && PageHeld(m, p) && WalkFrom(m, p, walk)
    ensures Chain(m, walk) && walk != [] && walk[0] == p.base + Read(m, p.base).tag * p.cls
  {
  }

  /** Line 338 clears the block; the chain to be walked is untouched. */
  lemma ClearWalk(m: Mem, p: SizedPage, b: int, walk: seq<int>)
    requires PageSound(p) && PageHeld(m, p) && Is(p.tiles, b, Live) && WalkFrom(m, p, walk)
    ensures BlockCleared(m, Clear(m, b, p.cls), p, b) && Chain(Clear(m, b, p.cls), walk) && b !in walk
  {
    var m1 := Clear(m, b, p.cls);
    ClearKeeps(m, p, b);
    InsidePage(p, b);
    assert !Is(p.tiles, b, Free);
    if p.list == [] { ChainFrame(m, m1, walk); }
  }

  lemma GoodFreeHeld(m: Mem, m1: Mem, p: SizedPage, b: int, before: int, after: int)
    requires BlockCleared(m, m1, p, b) && p.list != [] && !p.empty
    requires 0 !in p.list && before == Below(p.list, b) && after == Above(p.list, b)
    ensures PageHeld(FreeWrites(m1, p.base, b, before, after, p.list), GiveBack(p, b))
  {
    JoinsMeanAdjacency(p, b);
    BaseInside(p);
    assert PageTileSound(b, p.tiles[b], p.base, p.cls) && p.tiles[b].len > 0 && p.base < b;
    assert before != 0 ==> Is(p.tiles, before, Free);
    if JoinsBefore(p, b) {
      if JoinsAfter(p, b) { BothHeld(m, m1, p, b, before, after); } else { BeforeHeld(m, m1, p, b, before, after); }
    } else {
      if JoinsAfter(p, b) { AfterHeld(m, m1, p, b, after); } else { AloneHeld(m, m1, p, b); }
    }
  }

  /** FreeWrites writes only at the nodes it walks, at the block and in the header. */
  lemma JoinTouches(m1: Mem, ph: int, ptr: int, before: int, after: int, walk: seq<int>)
    requires before in walk && (after != 0 ==> after in walk)
    ensures var m' := JoinWrites(m1, ph, ptr, before, after, walk);
            && (forall x {:trigger Read(m', x)} :: x !in walk && x != ph ==> Read(m', x) == Read(m1, x))
            && (ph !in walk ==> Read(m', ph).next == Read(m1, ph).next)
  {
    ListMembers(walk);
  }

  lemma AfterTouches(m1: Mem, ph: int, ptr: int, head: int, after: int, walk: seq<int>)
    requires after in [ptr] + walk && ptr != ph
    ensures var m' := AfterWrites(m1, ph, ptr, head, after, walk);
            && (forall x {:trigger Read(m', x)} :: x !in walk && x != ph && x != ptr ==> Read(m', x) == Read(m1, x))
            && (ph !in walk ==> Read(m', ph).next == Read(m1, ph).next)
  {
    ListMembers([ptr] + walk);
    assert forall x :: x in [ptr] + walk ==> x == ptr || x in walk;
  }

  lemma FreeTouches(m1: Mem, ph: int, ptr: int, before: int, after: int, walk: seq<int>)
    requires walk != [] && (before != 0 ==> before in walk) && (after != 0 ==> after in walk) && ptr != ph
    ensures var m' := FreeWrites(m1, ph, ptr, before, after, walk);
            && (forall x {:trigger Read(m', x)} :: x !in walk && x != ph && x != ptr ==> Read(m', x) == Read(m1, x))
            && (ph !in walk ==> Read(m', ph).next == Read(m1, ph).next)
  {
    if before != 0 && before + Read(m1, before).size == ptr {
      JoinTouches(m1, ph, ptr, before, after, walk);
    } else if after != 0 && ptr + Read(m1, ph).size == after {
      AfterTouches(m1, ph, ptr, walk[0], after, walk);
    }
  }

  lemma GoodFreeInPage(m: Mem, p: SizedPage, b: int, before: int, after: int)
    requires PageSound(p) && PageHeld(m, p) && p.list != [] && Is(p.tiles, b, Live)
    requires 0 !in p.list && before == Below(p.list, b) && after == Above(p.list, b)
    ensures OnlyInPage(m, FreeWrites(Clear(m, b, p.cls), p.base, b, before, after, p.list), p.base)
  {
    BaseInside(p);
    InsidePage(p, b);
    forall x | x in p.list ensures p.base < x < p.base + PAGE { InsidePage(p, x); }
    FreeTouches(Clear(m, b, p.cls), p.base, b, before, after, p.list);
  }

  // ---- freeing into a full page

  /** Some sound page represented at the same place has block b inside a free node. */
  ghost predicate FreedOutcome(m: Mem, base: int, b: int, q: SizedPage, a: int) {
    PageSound(q) && PageHeld(m, q) && q.base == base && Is(q.tiles, a, Free) && a <= b < End(q.tiles, a)
  }

  /** Some sound page holds block b in its free space. */
  ghost predicate SomeOutcome(m: Mem, base: int, b: int) {
    exists q, a :: FreedOutcome(m, base, b, q, a)
  }

  /** No page is represented whose list reaches the page's own header, or which is not
      empty, yet has index 0 and a free node. */
  lemma HeaderNotListed(m: Mem, base: int, b: int, q: SizedPage, a: int)
    requires FreedOutcome(m, base, b, q, a)
    ensures Read(m, base).tag != 0
    ensures base + Read(m, base).tag * q.cls in q.list
    ensures Read(m, base).size != 0 ==> q.cls == Read(m, base).size
    ensures Read(m, base).size == 0 ==> Read(m, base).tag == 1
    ensures forall x :: x in q.list ==> Read(m, x).next != base
  {
    BaseInside(q);
    assert a in q.list;
    IndexZero(Read(m, base).tag, q);
    assert q.list[0] in q.list;
    if Read(m, base).size == 0 { TagOne(Read(m, base).tag, q.cls); }
    forall x | x in q.list ensures Read(m, x).next != base {
      var i :| 0 <= i < |q.list| && q.list[i] == x;
      assert Read(m, q.list[i]).next == At(q.list, i + 1);
      ListMembers(q.list);
    }
  }

  lemma TagOne(i: int, d: int)
    requires d > 0 && i * d == d
    ensures i == 1
  {
    Distribute(i, -1, d);
    MulSign(i - 1, d);
  }

  /** From a full page the walk meets this page's header first, so the header is `before`. */
  lemma FullWalk(m1: Mem, p: SizedPage, b: int, walk: seq<int>)
    requires PageSound(p) && Is(p.tiles, b, Live) && Chain(m1, walk) && p.base in walk
    requires forall q {:trigger q in walk} :: q in walk ==> q == p.base || q + PAGE <= p.base || p.base + PAGE <= q
    ensures Below(walk, b) == p.base && (Above(walk, b) != 0 ==> Above(walk, b) >= p.base + PAGE)
  {
    InsidePage(p, b);
  }

  /** Block 1 of a full page: the class in the page header is doubled, or cleared when that makes
      up the page, and its index stays 0. */
  lemma FullJoin(m1: Mem, p: SizedPage, b: int, after: int, walk: seq<int>)
    requires PageSound(p) && walk != [] && b == p.base + p.cls
    requires Read(m1, p.base).size == p.cls && Read(m1, p.base).tag == 0
    requires after != 0 ==> after in walk && after >= p.base + PAGE
    ensures Read(FreeWrites(m1, p.base, b, p.base, after, walk), p.base).tag == 0
    ensures Read(FreeWrites(m1, p.base, b, p.base, after, walk), p.base).size == Doubled(p.cls)
  {
    ClassFacts(p.cls);
    BaseInside(p);
  }

  /** What freeing block 1 of a full page makes of the class in the page header. */
  function Doubled(cls: int): int { if 4 * cls == PAGE then 0 else 2 * cls }

  /** All that is written when block 1 of a full page is freed: the block is cleared, and the class in
      the page header becomes another one. */
  lemma FullFirstFree(m: Mem, p: SizedPage, walk: seq<int>)
    requires PageSound(p) && PageHeld(m, p) && p.list == [] && Is(p.tiles, p.base + p.cls, Live) && WalkFrom(m, p, walk)
    ensures walk != [] && 0 !in walk
    ensures var m' := FreedMemory(m, p, p.base + p.cls, walk);
            forall x {:trigger Read(m', x)} ::
              Read(m', x) == if x == p.base then Read(m, x).(size := Doubled(p.cls))
                             else Read(Clear(m, p.base + p.cls, p.cls), x)
  {
    var b := p.base + p.cls;
    var m1 := Clear(m, b, p.cls);
    LiveNotEmpty(p, b);
    ClearWalk(m, p, b, walk);
    assert walk[0] in walk;
    FullWalk(m1, p, b, walk);
    ClassFacts(p.cls);
    BaseInside(p);
  }

  /** Any other block of a full page: it heads a list that continues with the page header. */
  lemma FullHead(m1: Mem, base: int, cls: int, b: int, after: int, walk: seq<int>)
    requires cls > 0 && base != 0 && walk != [] && walk[0] == base && Distinct(walk) && b !in walk
    requires base + cls < b && (b - base) % cls == 0
    requires Read(m1, base).size == cls && Read(m1, base).tag == 0
    requires after != 0 ==> after in walk && after != base
    ensures var m' := FreeWrites(m1, base, b, base, after, walk);
            && Read(m', b).next == base
            && base + Read(m', base).tag * cls == b && Read(m', base).tag != 1
            && (Read(m', base).size == cls || Read(m', base).size == 0)
  {
    IndexOfBlock(base, cls, b);
    if after != 0 && b + cls == after {
      WithoutCons(walk, b, after);
      IndexOfAt(walk, 0);
      ListMembers(walk);
    }
  }

  /** Freeing into a full page (index 0) leaves no sound page behind: the header itself is
      taken for the free node in front of the block. */
  lemma FullFreeBroken(m1: Mem, p: SizedPage, b: int, after: int, walk: seq<int>, q: SizedPage, a: int)
    requires PageSound(p) && Is(p.tiles, b, Live) && walk != [] && walk[0] == p.base && Distinct(walk) && b !in walk
    requires Read(m1, p.base).size == p.cls && Read(m1, p.base).tag == 0
    requires after != 0 ==> after in walk && after >= p.base + PAGE
    ensures !FreedOutcome(FreeWrites(m1, p.base, b, p.base, after, walk), p.base, b, q, a)
  {
    var m' := FreeWrites(m1, p.base, b, p.base, after, walk);
    InsidePage(p, b);
    BaseInside(p);
    if p.base + p.cls == b { FullJoin(m1, p, b, after, walk); } else { FullHead(m1, p.base, p.cls, b, after, walk); }
    if FreedOutcome(m', p.base, b, q, a) { HeaderNotListed(m', p.base, b, q, a); }
  }

  /** A good free puts the block inside a free node. */
  lemma GiveBackCovers(p: SizedPage, b: int) returns (a: int)
    requires PageSound(p) && Is(p.tiles, b, Live)
    ensures Is(GiveBack(p, b).tiles, a, Free) && a <= b < End(GiveBack(p, b).tiles, a)
  {
    JoinsMeanAdjacency(p, b);
    assert p.tiles[b].len > 0;
    if JoinsBefore(p, b) {
      a := Below(p.list, b);
      assert p.tiles[a].len > 0;
      if JoinsAfter(p, b) { BothShape(p, b, a, Above(p.list, b)); assert p.tiles[Above(p.list, b)].len > 0; }
    } else {
      a := b;
      if JoinsAfter(p, b) { assert p.tiles[Above(p.list, b)].len > 0; }
    }
  }

  /** Lines 336-413.  The page is sound afterwards, with the block in its free space,
      exactly when `pagefreehead_index` was not 0 before the call. */
  method FreeInPage(m: Mem, ph: int, ptr: int, ghost p: SizedPage, ghost walk: seq<int>) returns (m': Mem)
    requires PageSound(p) && PageHeld(m, p) && p.base == ph && Is(p.tiles, ptr, Live) && WalkFrom(m, p, walk)
    ensures walk != [] && 0 !in walk && m' == FreedMemory(m, p, ptr, walk)
    ensures SomeOutcome(m', ph, ptr) <==> Read(m, ph).tag != 0
    ensures Read(m, ph).tag == 0 && ptr == ph + p.cls ==> Read(m', ph).size == Doubled(p.cls)
    ensures Read(m, ph).tag != 0 ==>
        PageSound(GiveBack(p, ptr)) && PageHeld(m', GiveBack(p, ptr)) && OnlyInPage(m, m', ph)
  {
    LiveNotEmpty(p, ptr);
    IndexZero(Read(m, ph).tag, p);
    WalkStart(m, p, walk);
    ClearWalk(m, p, ptr, walk);
    InsidePage(p, ptr);
    BaseInside(p);
    ClassFacts(p.cls);
    var m1 := Clear(m, ptr, Read(m, ph).size);
    var before, after := Neighbours(m1, ph + Read(m1, ph).tag * Read(m1, ph).size, ptr, walk);
    if before != 0 && before + Read(m1, before).size == ptr {
      m' := JoinIntoBefore(m1, ph, ptr, before, after, walk);
    } else if ptr + Read(m1, ph).size == after {
      m' := JoinAfter(m1, ph, ptr, after, walk);
    } else {
      m' := BecomeHead(m1, ph, ptr, Read(m1, ph).size);
    }
    assert m' == FreeWrites(m1, ph, ptr, before, after, walk);
    FreeOutcome(m, p, ptr, before, after, walk);
  }

  lemma FreeOutcome(m: Mem, p: SizedPage, b: int, before: int, after: int, walk: seq<int>)
    requires PageSound(p) && PageHeld(m, p) && Is(p.tiles, b, Live) && WalkFrom(m, p, walk) && !p.empty
    requires walk != [] && 0 !in walk && before == Below(walk, b) && after == Above(walk, b)
    ensures var m' := FreeWrites(Clear(m, b, p.cls), p.base, b, before, after, walk);
            && (SomeOutcome(m', p.base, b) <==> p.list != [])
            && (p.list != [] ==> PageSound(GiveBack(p, b)) && PageHeld(m', GiveBack(p, b)) && OnlyInPage(m, m', p.base))
            && (p.list == [] && b == p.base + p.cls ==> Read(m', p.base).size == Doubled(p.cls))
  {
    var m1 := Clear(m, b, p.cls);
    var m' := FreeWrites(m1, p.base, b, before, after, walk);
    ClearWalk(m, p, b, walk);
    if p.list != [] {
      GiveBackSound(p, b);
      GoodFreeHeld(m, m1, p, b, before, after);
      GoodFreeInPage(m, p, b, before, after);
      var a := GiveBackCovers(p, b);
      assert FreedOutcome(m', p.base, b, GiveBack(p, b), a);
    } else {
      assert walk[0] in walk && p.base in walk;
      FullWalk(m1, p, b, walk);
      IndexZero(Read(m, p.base).tag, p);
      if b == p.base + p.cls { FullJoin(m1, p, b, after, walk); }
      forall q: SizedPage, a: int ensures !FreedOutcome(m', p.base, b, q, a) {
        FullFreeBroken(m1, p, b, after, walk, q, a);
      }
    }
  }
}
