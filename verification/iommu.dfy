/**
 * The AMD-Vi page table of kernel/dev/amdvi.c (section 2.2.3 of the AMD I/O Virtualization Technology specification):
 * four levels of 512-entry tables allocated as they are needed, which together are a finite map from page to frame.
 */
module Iommu {
  import opened Words

  const PAGE: int := 4096
  const ENTRIES: nat := 512
  const LEVELS: nat := 4
  const P52: int := 0x10_0000_0000_0000
  const P40: int := 0x100_0000_0000
  const P36: int := 0x10_0000_0000

  // ---- entries --------------------------------------------------------------

  /** PTE_READ and PTE_WRITE, bits 61 and 62, among the top twelve. */
  function Perms(writable: bool): nat { if writable then 0x600 else 0x200 }

  /** The top twelve bits, the forty of the page frame and the low twelve. */
  function Compose(hi: nat, mid: nat, lo: nat): (e: u64)
    requires hi < 4096 && mid < P40 && lo < 4096
  {
    (hi * P40 + mid) * PAGE + lo
  }

  /** The top bits of phys, with the permissions ORed in. */
  function High(phys: u64, writable: bool): (h: nat)
    ensures h < 4096
  {
    Pow2Twelve();
    Bitwise(BitOr, phys / P52, Perms(writable), 12)
  }

  function Low(next: nat): (l: nat)
    requires next < 8
    ensures l < 4096 && l % 2 == 1
  {
    next * 512 + 1
  }

  /** phys | PTE_PRESENT | PTE_READ | PTE_WRITE? | next level << 9, for a page-aligned phys */
  function Pack(phys: u64, writable: bool, next: nat): u64
    requires next < 8
  {
    Compose(High(phys, writable), phys / PAGE % P40, Low(next))
  }

  lemma Pow2Twelve()
    ensures Pow2(12) == 4096
  {
    Pow2Plus4(0);
    Pow2Plus4(4);
    Pow2Plus4(8);
  }

  predicate Present(e: u64) { e % 2 == 1 }

  /** e & PTE_ADDR_MASK */
  function Addr(e: u64): u64 { (e / PAGE % P40) * PAGE }

  lemma Decomposed(hi: nat, mid: nat, lo: nat)
    requires hi < 4096 && mid < P40 && lo < 4096
    ensures Compose(hi, mid, lo) / PAGE % P40 == mid && Compose(hi, mid, lo) % 2 == lo % 2
  {
    var n := hi * P40 + mid;
    assert (n * PAGE + lo) / PAGE == n;
    assert n % P40 == mid;
  }

  /** Present, and pointing at the page frame, as far as the entry has room for it. */
  lemma PackUnpacks(phys: u64, writable: bool, next: nat)
    requires next < 8
    ensures Present(Pack(phys, writable, next))
    ensures Addr(Pack(phys, writable, next)) == (phys / PAGE % P40) * PAGE
  {
    Decomposed(High(phys, writable), phys / PAGE % P40, Low(next));
  }

  // ---- walking --------------------------------------------------------------

  type Table = seq<u64>

  function Shifted(p: nat, n: nat): nat { if n == 0 then p else Shifted(p / 512, n - 1) }

  /** Which entry of a table at `level` page `p` goes through. */
  function Index(p: nat, level: nat): (i: nat)
    requires level > 0
    ensures i < ENTRIES
  {
    Shifted(p, level - 1) % 512
  }

  function Child(e: u64): nat { Addr(e) / PAGE }

  function Entry(tables: map<nat, Table>, f: nat, i: nat): u64 {
    if f in tables && i < |tables[f]| then tables[f][i] else 0
  }

  /** The table at level `stop` page `p` comes to from table `f` at `level`, if every entry on the way is present. */
  function WalkTo(tables: map<nat, Table>, f: nat, level: nat, stop: nat, p: nat): Option<nat>
    requires 0 < stop <= level
    decreases level, p
  {
    if level == stop then Some(f)
    else
      var e := Entry(tables, f, Index(p, level));
      if Present(e) then WalkTo(tables, Child(e), level - 1, stop, p) else None
  }

  /** The lowest table page `p` comes to. */
  function Walk(tables: map<nat, Table>, f: nat, level: nat, p: nat): Option<nat>
    requires level > 0
  {
    WalkTo(tables, f, level, 1, p)
  }

  /** What the table maps page `p` to: its leaf entry, if there is one and it is present. */
  function Leaf(tables: map<nat, Table>, root: nat, p: nat): Option<u64> {
    match Walk(tables, root, LEVELS, p)
    case None => None
    case Some(g) => if Present(Entry(tables, g, Index(p, 1))) then Some(Entry(tables, g, Index(p, 1))) else None
  }

  // ---- the tree -------------------------------------------------------------

  /** An entry of a table that is not at the bottom and points at another. */
  predicate Points(tables: map<nat, Table>, level: map<nat, nat>, f: nat, i: nat, g: nat) {
    f in tables && f in level && level[f] > 1 && i < ENTRIES && Present(Entry(tables, f, i))
        && Child(Entry(tables, f, i)) == g
  }

  /** The tables are a tree: each stands one level below the one entry that points at it, the root below none. */
  ghost predicate Tree(tables: map<nat, Table>, level: map<nat, nat>, root: nat) {
    && root in tables && level.Keys == tables.Keys && level[root] == LEVELS
    && (forall f :: f in tables ==> |tables[f]| == ENTRIES && 1 <= level[f] <= LEVELS)
    && (forall f, i: nat, g :: Points(tables, level, f, i, g) ==> g in tables && level[g] == level[f] - 1 && g != root)
    && (forall f, i: nat, f', i': nat, g :: Points(tables, level, f, i, g) && Points(tables, level, f', i', g) ==>
        f == f' && i == i')
  }

  /** Two pages that come to the same lowest table went the same way. */
  lemma {:induction false} WaysMeet(tables: map<nat, Table>, level: map<nat, nat>, root: nat, f: nat, f': nat, l: nat,
                                    p: nat, q: nat)
    requires Tree(tables, level, root) && f in tables && f' in tables && level[f] == l == level[f'] && l > 0
    requires Walk(tables, f, l, p).Some? && Walk(tables, f, l, p) == Walk(tables, f', l, q)
    ensures f == f' && forall k :: 2 <= k <= l ==> Index(p, k) == Index(q, k)
    decreases l
  {
    if l > 1 {
      var e, e' := Entry(tables, f, Index(p, l)), Entry(tables, f', Index(q, l));
      assert Points(tables, level, f, Index(p, l), Child(e)) && Points(tables, level, f', Index(q, l), Child(e'));
      WaysMeet(tables, level, root, Child(e), Child(e'), l - 1, p, q);
    }
  }

  lemma {:induction false} WalkInTree(tables: map<nat, Table>, level: map<nat, nat>, root: nat, f: nat, l: nat, p: nat)
    requires Tree(tables, level, root) && f in tables && level[f] == l > 0 && Walk(tables, f, l, p).Some?
    ensures Walk(tables, f, l, p).value in tables && level[Walk(tables, f, l, p).value] == 1
    decreases l
  {
    if l > 1 {
      var e := Entry(tables, f, Index(p, l));
      assert Points(tables, level, f, Index(p, l), Child(e));
      WalkInTree(tables, level, root, Child(e), l - 1, p);
    }
  }

  /** Pages below 2^36 are told apart by their four indices. */
  lemma IndicesTell(p: nat, q: nat)
    requires p < P36 && q < P36 && forall k :: 1 <= k <= LEVELS ==> Index(p, k) == Index(q, k)
    ensures p == q
  {
    assert Index(p, 1) == Index(q, 1) && Index(p, 2) == Index(q, 2) && Index(p, 3) == Index(q, 3)
           && Index(p, 4) == Index(q, 4);
    ShiftedIs(p);
    ShiftedIs(q);
    SameDigits(p, q);
  }

  lemma ShiftedIs(p: nat)
    ensures Shifted(p, 0) == p && Shifted(p, 1) == p / 512 && Shifted(p, 2) == p / 512 / 512
    ensures Shifted(p, 3) == p / 512 / 512 / 512
  {
    assert Shifted(p, 2) == Shifted(p / 512, 1);
    assert Shifted(p, 3) == Shifted(p / 512, 2) && Shifted(p / 512, 2) == Shifted(p / 512 / 512, 1);
  }

  lemma SameDigits(p: nat, q: nat)
    requires p < P36 && q < P36 && p % 512 == q % 512 && p / 512 % 512 == q / 512 % 512
    requires p / 512 / 512 % 512 == q / 512 / 512 % 512 && p / 512 / 512 / 512 % 512 == q / 512 / 512 / 512 % 512
    ensures p == q
  {
    var p1, q1 := p / 512, q / 512;
    var p2, q2 := p1 / 512, q1 / 512;
    var p3, q3 := p2 / 512, q2 / 512;
    assert p3 < 512 && q3 < 512;
    assert p2 == 512 * p3 + p2 % 512 && q2 == 512 * q3 + q2 % 512;
    assert p1 == 512 * p2 + p1 % 512 && q1 == 512 * q2 + q1 % 512;
    assert p == 512 * p1 + p % 512 && q == 512 * q1 + q % 512;
  }

  // ---- writing a leaf -------------------------------------------------------

  /** Entry `i` of table `f` becomes `e`. */
  function Written(tables: map<nat, Table>, f: nat, i: nat, e: u64): map<nat, Table> {
    if f in tables && i < |tables[f]| then
      var t: Table := tables[f][i := e];
      tables[f := t]
    else tables
  }

  lemma WrittenEntry(tables: map<nat, Table>, f: nat, i: nat, e: u64, f': nat, i': nat)
    requires f in tables && i < |tables[f]|
    ensures Entry(Written(tables, f, i, e), f', i') == if f' == f && i' == i then e else Entry(tables, f', i')
  {
  }

  /** A leaf entry is on nobody's way down. */
  lemma {:induction false} LeafOffWalks(tables: map<nat, Table>, level: map<nat, nat>, root: nat, g: nat, i: nat,
                                        e: u64, f: nat, l: nat, p: nat)
    requires Tree(tables, level, root) && g in tables && level[g] == 1 && i < ENTRIES && f in tables
    requires level[f] == l > 0
    ensures Walk(Written(tables, g, i, e), f, l, p) == Walk(tables, f, l, p)
    decreases l
  {
    if l > 1 {
      WrittenEntry(tables, g, i, e, f, Index(p, l));
      var c := Entry(tables, f, Index(p, l));
      if Present(c) {
        assert Points(tables, level, f, Index(p, l), Child(c));
        LeafOffWalks(tables, level, root, g, i, e, Child(c), l - 1, p);
      }
    }
  }

  lemma LeafKeepsTree(tables: map<nat, Table>, level: map<nat, nat>, root: nat, g: nat, i: nat, e: u64)
    requires Tree(tables, level, root) && g in tables && level[g] == 1 && i < ENTRIES
    ensures Tree(Written(tables, g, i, e), level, root)
  {
    var t := Written(tables, g, i, e);
    forall f, j: nat, h | Points(t, level, f, j, h)
      ensures Points(tables, level, f, j, h)
    {
      WrittenEntry(tables, g, i, e, f, j);
    }
    forall f, j: nat, f', j': nat, h | Points(t, level, f, j, h) && Points(t, level, f', j', h)
      ensures f == f' && j == j'
    {
      assert Points(tables, level, f, j, h) && Points(tables, level, f', j', h);
    }
    forall f, j: nat, h | Points(t, level, f, j, h)
      ensures h in t && level[h] == level[f] - 1 && h != root
    {
      assert Points(tables, level, f, j, h);
    }
  }

  function LeafOf(e: u64): Option<u64> { if Present(e) then Some(e) else None }

  /** Writing page `p`'s leaf changes what `p` maps to, and no other page. */
  lemma LeafWritten(tables: map<nat, Table>, level: map<nat, nat>, root: nat, p: nat, e: u64, q: nat)
    requires Tree(tables, level, root) && p < P36 && q < P36 && Walk(tables, root, LEVELS, p).Some?
    ensures Leaf(Written(tables, Walk(tables, root, LEVELS, p).value, Index(p, 1), e), root, q) == if q == p
            then LeafOf(e) else Leaf(tables, root, q)
  {
    var g := Walk(tables, root, LEVELS, p).value;
    WalkInTree(tables, level, root, root, LEVELS, p);
    LeafOffWalks(tables, level, root, g, Index(p, 1), e, root, LEVELS, q);
    var w := Walk(tables, root, LEVELS, q);
    if w.Some? {
      WrittenEntry(tables, g, Index(p, 1), e, w.value, Index(q, 1));
      if w.value == g && Index(q, 1) == Index(p, 1) {
        WaysMeet(tables, level, root, root, root, LEVELS, p, q);
        IndicesTell(p, q);
      }
    }
  }

  // ---- making a table -------------------------------------------------------

  function Zeros(): Table { seq(ENTRIES, _ => 0) }

  /** Entry `i` of table `f`, at level `l`, points at the new empty table `g`. */
  function Created(tables: map<nat, Table>, f: nat, i: nat, l: nat, g: nat): map<nat, Table>
    requires 1 < l <= LEVELS && g < P40
  {
    Written(tables, f, i, Pack(g * PAGE, true, l - 1))[g := Zeros()]
  }

  lemma PackedChild(g: nat, l: nat)
    requires g < P40 && l < 8
    ensures Present(Pack(g * PAGE, true, l)) && Child(Pack(g * PAGE, true, l)) == g
  {
    PackUnpacks(g * PAGE, true, l);
    Frames(g);
  }

  lemma Frames(g: nat)
    ensures g * PAGE / PAGE == g
  {
  }

  lemma CreatedEntry(tables: map<nat, Table>, f: nat, i: nat, l: nat, g: nat, f': nat, i': nat)
    requires 1 < l <= LEVELS && g < P40 && f in tables && i < |tables[f]| && g !in tables
    ensures var e := Entry(Created(tables, f, i, l, g), f', i');
            e == if f' == f && i' == i then Pack(g * PAGE, true, l - 1) else Entry(tables, f', i')
  {
    WrittenEntry(tables, f, i, Pack(g * PAGE, true, l - 1), f', i');
  }

  lemma CreatedKeepsTree(tables: map<nat, Table>, level: map<nat, nat>, root: nat, f: nat, i: nat, l: nat, g: nat)
    requires Tree(tables, level, root) && f in tables && level[f] == l && 1 < l && i < ENTRIES && g < P40
    requires g !in tables
    requires !Present(Entry(tables, f, i))
    ensures Tree(Created(tables, f, i, l, g), level[g := l - 1], root)
  {
    var t, v := Created(tables, f, i, l, g), level[g := l - 1];
    PackedChild(g, l - 1);
    forall f', j: nat, h | Points(t, v, f', j, h)
      ensures (f' == f && j == i && h == g) || Points(tables, level, f', j, h)
    {
      CreatedEntry(tables, f, i, l, g, f', j);
    }
    forall f', j: nat, h | Points(t, v, f', j, h) ensures h in t && v[h] == v[f'] - 1 && h != root {
      assert (f' == f && j == i && h == g) || Points(tables, level, f', j, h);
    }
    forall f1, j1: nat, f2, j2: nat, h | Points(t, v, f1, j1, h) && Points(t, v, f2, j2, h)
      ensures f1 == f2 && j1 == j2
    {
      assert (f1 == f && j1 == i && h == g) || Points(tables, level, f1, j1, h);
      assert (f2 == f && j2 == i && h == g) || Points(tables, level, f2, j2, h);
    }
  }

  lemma IntoNew(tables: map<nat, Table>, f: nat, i: nat, l: nat, g: nat, q: nat)
    requires 1 < l <= LEVELS && g < P40 && f in tables && i < |tables[f]| && g !in tables
    ensures var w := WalkTo(Created(tables, f, i, l, g), g, l - 1, 1, q); w == None || w == Some(g)
  {
    if l > 2 { CreatedEntry(tables, f, i, l, g, g, Index(q, l - 1)); }
  }

  /**
   * From an old table, the new one changes a walk only if it had nowhere to go, and leads it nowhere but to the new
   * table.
   */
  lemma {:induction false} CreatedWalks(tables: map<nat, Table>, level: map<nat, nat>, root: nat, f: nat, i: nat,
                                        l: nat, g: nat, h: nat, m: nat, q: nat)
    requires Tree(tables, level, root) && f in tables && level[f] == l && 1 < l && i < ENTRIES && g < P40
    requires g !in tables
    requires !Present(Entry(tables, f, i)) && h in tables && level[h] == m > 0
    ensures var w := Walk(Created(tables, f, i, l, g), h, m, q);
            w == Walk(tables, h, m, q) || (Walk(tables, h, m, q).None? && (w == None || w == Some(g)))
    decreases m
  {
    if m > 1 {
      var t := Created(tables, f, i, l, g);
      CreatedEntry(tables, f, i, l, g, h, Index(q, m));
      PackedChild(g, l - 1);
      if h == f && Index(q, m) == i {
        IntoNew(tables, f, i, l, g, q);
      } else if Present(Entry(tables, h, Index(q, m))) {
        assert Points(tables, level, h, Index(q, m), Child(Entry(tables, h, Index(q, m))));
        CreatedWalks(tables, level, root, f, i, l, g, Child(Entry(tables, h, Index(q, m))), m - 1, q);
      }
    }
  }

  /** Making a table maps nothing and unmaps nothing. */
  lemma CreatedLeaves(tables: map<nat, Table>, level: map<nat, nat>, root: nat, f: nat, i: nat, l: nat, g: nat, q: nat)
    requires Tree(tables, level, root) && f in tables && level[f] == l && 1 < l && i < ENTRIES && g < P40
    requires g !in tables
    requires !Present(Entry(tables, f, i))
    ensures Leaf(Created(tables, f, i, l, g), root, q) == Leaf(tables, root, q)
  {
    CreatedWalks(tables, level, root, f, i, l, g, root, LEVELS, q);
    var t := Created(tables, f, i, l, g);
    var w := Walk(t, root, LEVELS, q);
    if w.Some? {
      CreatedEntry(tables, f, i, l, g, w.value, Index(q, 1));
      if Walk(tables, root, LEVELS, q).Some? { WalkInTree(tables, level, root, root, LEVELS, q); }
    }
  }

  /** The way down to level `stop` does not pass an entry of a table at that level. */
  lemma {:induction false} AboveUnmoved(tables: map<nat, Table>, level: map<nat, nat>, root: nat, f: nat, i: nat,
                                        l: nat, g: nat, h: nat, m: nat, p: nat)
    requires Tree(tables, level, root) && f in tables && level[f] == l && 1 < l && i < ENTRIES && g < P40
    requires g !in tables
    requires h in tables && level[h] == m >= l
    ensures WalkTo(Created(tables, f, i, l, g), h, m, l, p) == WalkTo(tables, h, m, l, p)
    decreases m
  {
    if m > l {
      CreatedEntry(tables, f, i, l, g, h, Index(p, m));
      var e := Entry(tables, h, Index(p, m));
      if Present(e) {
        assert Points(tables, level, h, Index(p, m), Child(e));
        AboveUnmoved(tables, level, root, f, i, l, g, Child(e), m - 1, p);
      }
    }
  }

  /** One level further down. */
  lemma {:induction false} StepDown(tables: map<nat, Table>, h: nat, m: nat, l: nat, p: nat)
    requires 1 < l <= m && WalkTo(tables, h, m, l, p).Some?
    ensures var e := Entry(tables, WalkTo(tables, h, m, l, p).value, Index(p, l));
            WalkTo(tables, h, m, l - 1, p) == if Present(e) then Some(Child(e)) else None
    decreases m
  {
    if m > l { StepDown(tables, Child(Entry(tables, h, Index(p, m))), m - 1, l, p); }
  }

  /** A walk that stops short stops for good. */
  lemma {:induction false} StopsShort(tables: map<nat, Table>, h: nat, m: nat, l: nat, p: nat)
    requires 0 < l <= m && WalkTo(tables, h, m, l, p).None?
    ensures Walk(tables, h, m, p).None?
    decreases m
  {
    if m > l && Present(Entry(tables, h, Index(p, m))) {
      StopsShort(tables, Child(Entry(tables, h, Index(p, m))), m - 1, l, p);
    }
  }

  // ---- mapping and unmapping ------------------------------------------------

  /** The page the `i`-th page of a request at `iova` goes through the table as. */
  function PageIndex(iova: u64, i: nat): (q: nat)
    ensures q < P36
  {
    Wrap64(iova + i * PAGE) / PAGE % P36
  }

  function Frame(phys: u64, i: nat): u64 { Wrap64(phys + i * PAGE) }

  /** How many pages a request covers. */
  function Pages(size: u64): nat { Wrap64(size + PAGE - 1) / PAGE }

  /** What page `q`, mapped to `was`, maps to once the first `n` pages of a request are mapped. */
  function AfterMap(was: Option<u64>, iova: u64, phys: u64, writable: bool, n: nat, q: nat): Option<u64>
    decreases n
  {
    if n == 0 then was
    else if PageIndex(iova, n - 1) == q then Some(Pack(Frame(phys, n - 1), writable, 0))
    else AfterMap(was, iova, phys, writable, n - 1, q)
  }

  function AfterUnmap(was: Option<u64>, iova: u64, n: nat, q: nat): Option<u64>
    decreases n
  {
    if n == 0 then was else if PageIndex(iova, n - 1) == q then None else AfterUnmap(was, iova, n - 1, q)
  }

  /** The address a leaf entry gives an access at `iova`; 0 where nothing is mapped. */
  function Translated(e: Option<u64>, iova: u64): u64 { if e.None? then 0 else Inside(Addr(e.value), iova) }

  /** A page address and an offset into the page. */
  function Inside(a: u64, iova: u64): (r: u64)
    ensures r == if a % PAGE == 0 then a + iova % PAGE else a
  {
    if a % PAGE == 0 then
      assert a + PAGE <= M64;
      a + iova % PAGE
    else a
  }

  /** What every page maps to is as `was` says. */
  ghost predicate Maps(tables: map<nat, Table>, root: nat, was: nat -> Option<u64>) {
    forall q :: 0 <= q < P36 ==> Leaf(tables, root, q) == was(q)
  }

  /** One unit: the tables of its domain, by page frame, and the frames it may take. */
  class Unit {
    var tables: map<nat, Table>
    var free: seq<nat>
    const root: nat
    ghost var level: map<nat, nat>

    ghost predicate Valid()
      reads this
    {
      && Tree(tables, level, root)
      && (forall i :: 0 <= i < |free| ==> free[i] < P40 && free[i] !in tables)
      && (forall i, j :: 0 <= i < j < |free| ==> free[i] != free[j])
    }

    /** An empty domain: a root with nothing in it. */
    constructor (top: nat, frames: seq<nat>)
      requires top < P40 && top !in frames && (forall i :: 0 <= i < |frames| ==> frames[i] < P40)
      requires forall i, j :: 0 <= i < j < |frames| ==> frames[i] != frames[j]
      ensures Valid() && root == top && free == frames && Maps(tables, root, (q: nat) => None)
    {
      tables := map[top := Zeros()];
      free := frames;
      root := top;
      level := map[top := LEVELS];
      new;
      forall q | 0 <= q < P36 ensures Leaf(tables, root, q) == None { EmptyRoot(tables, root, q); }
    }

    /** pt_next: the table an entry points at, made if need be and allowed. */
    method Next(f: nat, l: nat, p: nat, create: bool) returns (g: Option<nat>)
      requires Valid() && 1 < l <= LEVELS && WalkTo(tables, root, LEVELS, l, p) == Some(f) && f in tables
      requires level[f] == l
      modifies `tables, `free, `level
      ensures Valid() && forall q :: 0 <= q < P36 ==> Leaf(tables, root, q) == old(Leaf(tables, root, q))
      ensures !create ==> tables == old(tables)
      ensures g.Some? ==> WalkTo(tables, root, LEVELS, l - 1, p) == g && g.value in tables && level[g.value] == l - 1
      ensures g.None? ==>
              tables == old(tables) && WalkTo(tables, root, LEVELS, l - 1, p) == None && (create ==> free == [])
    {
      var i := Index(p, l);
      var e := Entry(tables, f, i);
      StepDown(tables, root, LEVELS, l, p);
      if Present(e) {
        assert Points(tables, level, f, i, Child(e));
        return Some(Child(e));
      }
      if !create || free == [] { return None; }
      var made := free[0];
      CreatedKeepsTree(tables, level, root, f, i, l, made);
      AboveUnmoved(tables, level, root, f, i, l, made, root, LEVELS, p);
      forall q | 0 <= q < P36 ensures Leaf(Created(tables, f, i, l, made), root, q) == Leaf(tables, root, q) {
        CreatedLeaves(tables, level, root, f, i, l, made, q);
      }
      CreatedEntry(tables, f, i, l, made, f, i);
      PackedChild(made, l - 1);
      tables := Created(tables, f, i, l, made);
      level := level[made := l - 1];
      free := free[1..];
      StepDown(tables, root, LEVELS, l, p);
      return Some(made);
    }

    /** pt_leaf: down from the root, level by level. */
    method LeafTable(p: nat, create: bool) returns (g: Option<nat>)
      requires Valid()
      modifies `tables, `free, `level
      ensures Valid() && forall q :: 0 <= q < P36 ==> Leaf(tables, root, q) == old(Leaf(tables, root, q))
      ensures !create ==> tables == old(tables)
      ensures g.Some? ==> Walk(tables, root, LEVELS, p) == g && g.value in tables && level[g.value] == 1
      ensures g.None? ==> Walk(tables, root, LEVELS, p) == None && (create ==> free == [])
    {
      var f, l := root, LEVELS;
      while l > 1
        invariant 1 <= l <= LEVELS && Valid() && WalkTo(tables, root, LEVELS, l, p) == Some(f) && f in tables
        invariant level[f] == l
        invariant forall q :: 0 <= q < P36 ==> Leaf(tables, root, q) == old(Leaf(tables, root, q))
        invariant !create ==> tables == old(tables)
      {
        var n := Next(f, l, p, create);
        if n.None? {
          StopsShort(tables, root, LEVELS, l - 1, p);
          return None;
        }
        f, l := n.value, l - 1;
      }
      return Some(f);
    }

    /** *pte = e */
    method Put(g: nat, p: nat, e: u64)
      requires Valid() && p < P36 && Walk(tables, root, LEVELS, p) == Some(g) && g in tables && level[g] == 1
      modifies `tables
      ensures Valid()
      ensures forall q :: 0 <= q < P36 ==>
              Leaf(tables, root, q) == if q == p then LeafOf(e) else old(Leaf(tables, root, q))
    {
      forall q | 0 <= q < P36
        ensures Leaf(Written(tables, g, Index(p, 1), e), root, q) == if q == p then LeafOf(e) else Leaf(tables, root, q)
      {
        LeafWritten(tables, level, root, p, e, q);
      }
      LeafKeepsTree(tables, level, root, g, Index(p, 1), e);
      tables := Written(tables, g, Index(p, 1), e);
    }

    /** amdvi_map: `n` pages were mapped, all of them if it succeeds. */
    method Map(iova: u64, phys: u64, size: u64, writable: bool) returns (ok: bool, ghost n: nat)
      requires Valid()
      modifies `tables, `free, `level
      ensures Valid() && n <= Pages(size)
      ensures forall q :: 0 <= q < P36 ==>
              Leaf(tables, root, q) == AfterMap(old(Leaf(tables, root, q)), iova, phys, writable, n, q)
      ensures ok <==> iova % PAGE == 0 && phys % PAGE == 0 && n == Pages(size)
      ensures !ok && iova % PAGE == 0 && phys % PAGE == 0 ==> free == []
    {
      n := 0;
      if iova % PAGE != 0 || phys % PAGE != 0 { return false, 0; }
      for i := 0 to Pages(size)
        invariant Valid() && n == i
        invariant forall q :: 0 <= q < P36 ==>
                  Leaf(tables, root, q) == AfterMap(old(Leaf(tables, root, q)), iova, phys, writable, i, q)
      {
        var p := PageIndex(iova, i);
        var g := LeafTable(p, true);
        if g.None? { return false, i; }
        PackUnpacks(Frame(phys, i), writable, 0);
        Put(g.value, p, Pack(Frame(phys, i), writable, 0));
        n := i + 1;
      }
      return true, n;
    }

    /** amdvi_unmap */
    method Unmap(iova: u64, size: u64)
      requires Valid()
      modifies `tables, `free, `level
      ensures Valid()
      ensures forall q :: 0 <= q < P36 ==>
              Leaf(tables, root, q) == AfterUnmap(old(Leaf(tables, root, q)), iova, Pages(size), q)
    {
      for i := 0 to Pages(size)
        invariant Valid()
        invariant forall q :: 0 <= q < P36 ==>
                  Leaf(tables, root, q) == AfterUnmap(old(Leaf(tables, root, q)), iova, i, q)
      {
        var p := PageIndex(iova, i);
        var g := LeafTable(p, false);
        if g.Some? { Put(g.value, p, 0); }
      }
    }

    /** amdvi_translate */
    method Translate(iova: u64) returns (out: u64)
      requires Valid()
      modifies `tables, `free, `level
      ensures Valid() && tables == old(tables) && out == Translated(Leaf(tables, root, PageIndex(iova, 0)), iova)
    {
      var p := PageIndex(iova, 0);
      var g := LeafTable(p, false);
      out := 0;
      if g.Some? {
        var e := Entry(tables, g.value, Index(p, 1));
        if Present(e) { out := Inside(Addr(e), iova); }
      }
    }
  }

  lemma EmptyRoot(tables: map<nat, Table>, root: nat, q: nat)
    requires tables == map[root := Zeros()]
    ensures Leaf(tables, root, q) == None
  {
    assert Entry(tables, root, Index(q, LEVELS)) == 0;
  }

  // ---- what the maps come to ------------------------------------------------

  const P48: int := 0x1_0000_0000_0000

  /** Below 2^48 pages are themselves. */
  lemma PageIndexIs(iova: u64, i: nat)
    requires iova % PAGE == 0 && iova + i * PAGE < P48
    ensures PageIndex(iova, i) == iova / PAGE + i
  {
    WrapSmall(iova + i * PAGE);
    assert iova == PAGE * (iova / PAGE);
    Frames(iova / PAGE + i);
  }

  /** A request below 2^48 maps its `i`-th page to its `i`-th frame. */
  lemma {:induction false} MappedInside(was: Option<u64>, iova: u64, phys: u64, writable: bool, n: nat, i: nat)
    requires iova % PAGE == 0 && iova + n * PAGE <= P48 && i < n
    ensures AfterMap(was, iova, phys, writable, n, iova / PAGE + i) == Some(Pack(Frame(phys, i), writable, 0))
    decreases n
  {
    PageIndexIs(iova, n - 1);
    if i < n - 1 { MappedInside(was, iova, phys, writable, n - 1, i); }
  }

  /** It leaves every other page as it was; so does unmapping, which unmaps its own. */
  lemma {:induction false} OthersUnmoved(was: Option<u64>, iova: u64, phys: u64, writable: bool, n: nat, q: nat)
    requires iova % PAGE == 0 && iova + n * PAGE <= P48
    ensures !(iova / PAGE <= q < iova / PAGE + n) ==> AfterMap(was, iova, phys, writable, n, q) == was
    ensures AfterUnmap(was, iova, n, q) == if iova / PAGE <= q < iova / PAGE + n then None else was
    decreases n
  {
    if n > 0 {
      PageIndexIs(iova, n - 1);
      OthersUnmoved(was, iova, phys, writable, n - 1, q);
    }
  }

  /** An entry gives back the frame it was made from exactly when the frame has at most 52 bits. */
  lemma GivesBack(frame: u64, writable: bool, x: u64)
    requires frame % PAGE == 0
    ensures Translated(Some(Pack(frame, writable, 0)), x) == frame + x % PAGE <==> frame < P52
  {
    PackUnpacks(frame, writable, 0);
    var f := frame / PAGE;
    assert frame == f * PAGE;
    var a := (f % P40) * PAGE;
    assert a % PAGE == 0 && Addr(Pack(frame, writable, 0)) == a;
    assert f < P40 <==> frame < P52;
    if f < P40 { assert f % P40 == f; } else { assert f % P40 < f; }
  }

  /** Mapped, an address in the request translates to the same place in the frames, as long as they have 52 bits. */
  lemma MapThenTranslate(was: Option<u64>, iova: u64, phys: u64, writable: bool, n: nat, x: u64)
    requires iova % PAGE == 0 && phys % PAGE == 0 && iova + n * PAGE <= P48 && iova <= x < iova + n * PAGE
    requires phys + n * PAGE <= P52
    ensures Translated(AfterMap(was, iova, phys, writable, n, PageIndex(x, 0)), x) == phys + (x - iova)
  {
    var i := Offset(iova, n, x);
    OwnPage(x);
    MappedInside(was, iova, phys, writable, n, i);
    FrameIs(phys, i, n);
    GivesBack(Frame(phys, i), writable, x);
  }

  lemma Offset(iova: u64, n: nat, x: u64) returns (i: nat)
    requires iova % PAGE == 0 && iova <= x < iova + n * PAGE
    ensures i < n && x / PAGE == iova / PAGE + i && x - iova == i * PAGE + x % PAGE
  {
    i := x / PAGE - iova / PAGE;
    assert iova == PAGE * (iova / PAGE) && x == PAGE * (x / PAGE) + x % PAGE;
  }

  lemma OwnPage(x: u64)
    requires x < P48
    ensures PageIndex(x, 0) == x / PAGE
  {
    WrapSmall(x);
  }

  lemma FrameIs(phys: u64, i: nat, n: nat)
    requires phys % PAGE == 0 && i < n && phys + n * PAGE <= P52
    ensures Frame(phys, i) == phys + i * PAGE < P52 && Frame(phys, i) % PAGE == 0
  {
    WrapSmall(phys + i * PAGE);
    assert phys == PAGE * (phys / PAGE);
    assert phys + i * PAGE == PAGE * (phys / PAGE + i);
  }
}
