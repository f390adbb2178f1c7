/** When `kallocHugeMemory` of kernel/src/pmm.c returns an address that is a multiple of the block's size. */
module HugeAlignment {
  import Words
  import opened Tilings
  import opened HeapModel

  /** A huge block is a multiple of its size from address 0 exactly when the node it is cut from ends on one. */
  lemma HugeBlockAligned(h: Heap, size: int)
    requires Sound(h) && size > 0 && HugeFits(h, size) && HugeNode(h, size) != 0
    ensures CarveHuge(h, size).1 % size == 0 <==> End(h.tiles, HugeNode(h, size)) % size == 0
  {
    var p := CarveHuge(h, size).1;
    Words.MultipleSelf(size);
    if p % size == 0 { Words.MultipleAdd(p, size, size); }
    if (p + size) % size == 0 { Words.MultipleAdd(p + size, size, size); }
  }

  /** Because of the header between them, two blocks of one size taken from the same node one after
      the other are never both aligned. */
  lemma SecondHugeBlockMisaligned(h: Heap, size: int)
    requires Sound(h) && size > HEADER && HugeFits(h, size) && HugeNode(h, size) != 0
    requires var h' := CarveHuge(h, size).0; Sound(h') && HugeFits(h', size) && HugeNode(h', size) == HugeNode(h, size)
    ensures var (h', p) := CarveHuge(h, size); p % size == 0 ==> CarveHuge(h', size).1 % size != 0
  {
    var (h', p) := CarveHuge(h, size);
    var q := CarveHuge(h', size).1;
    assert q + size + HEADER == p;
    if p % size == 0 {
      Words.MultipleSelf(size);
      Words.MultipleAdd(p, size, size);
      Words.SmallMod(HEADER, size);
      assert (p - size) - q == HEADER;
      if q % size == 0 { Words.MultipleAdd(p - size, q, size); }
    }
  }
}
