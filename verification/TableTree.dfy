/** The three-level tables as a value: which entry points to which pool table, and what the leaves hold. */
module TableTree {
  import opened Words
  import opened AddressSpace

  /** A table: one of the two level-1 roots, or a table of the pool. */
  datatype Table = KernelRoot | UserRoot | Pool(t: nat)
  {
    predicate IsRoot() { !Pool? }
  }

  /** The three indices a page number is cut into. */
  datatype Path = Path(i1: nat, i2: nat, i3: nat)

  function PathOf(p: nat): Path { Path(p / 0x4_0000, p / 512 % 512, p % 512) }

  lemma PathDigits(p: nat)
    ensures p / 512 == 512 * PathOf(p).i1 + PathOf(p).i2
    ensures p == 512 * (p / 512) + PathOf(p).i3
  {
  }

  function Other(r: Table): Table { if r == KernelRoot then UserRoot else KernelRoot }

  datatype Entry = Entry(table: Table, index: nat)

  /**
   * `owner[t]` is the entry that points to pool table `t`, `child` is the same link read downwards, `mids`
   * are the pool tables that serve as level 2, and `leaf` holds the non-empty level-3 entries.
   */
  datatype Tree = Tree(owner: seq<Entry>, child: map<Entry, nat>, mids: set<nat>, leaf: map<Entry, u64>)
  {
    /** Roots and level-2 tables hold links. */
    predicate IsInner(b: Table) { b.IsRoot() || b.t in mids }

    predicate IsL3(b: Table) { b.Pool? && b.t < |owner| && b.t !in mids }

    /** Every drawn table has exactly one parent entry, one level up, and undrawn tables have none. */
    ghost predicate Forest() {
      Owned() && Links() && Leaves()
    }

    ghost predicate Owned() {
      && (forall t :: 0 <= t < |owner| ==>
            owner[t] in child && child[owner[t]] == t && (t in mids <==> owner[t].table.IsRoot()))
      && (forall t :: t in mids ==> t < |owner|)
    }

    ghost predicate Links() {
      forall e :: e in child ==>
        child[e] < |owner| && owner[child[e]] == e && e.index < 512 && IsInner(e.table)
    }

    /** Leaves sit in level-3 tables and are page descriptors or empty. */
    ghost predicate Leaves() {
      forall e :: e in leaf ==> IsL3(e.table) && (leaf[e] == 0 || leaf[e] % 4 == 3)
    }

    predicate HasL2(r: Table, x: Path) { L1Entry(r, x) in child }

    predicate HasL3(r: Table, x: Path) { HasL2(r, x) && L2Entry(r, x) in child }

    function L2Entry(r: Table, x: Path): Entry
      requires HasL2(r, x)
    {
      Entry(Pool(child[L1Entry(r, x)]), x.i2)
    }

    function LeafEntry(r: Table, x: Path): Entry
      requires HasL3(r, x)
    {
      Entry(Pool(child[L2Entry(r, x)]), x.i3)
    }

    /** The translation found along path `x` from root `r`; 0 when there is none. */
    function Walk(r: Table, x: Path): u64 {
      if HasL3(r, x) && LeafEntry(r, x) in leaf then leaf[LeafEntry(r, x)] else 0
    }

    ghost function View(r: Table): (v: View)
      ensures |v.flat| == PAGES
    {
      AddressSpace.View(
        seq(PAGES, (q: nat) => Walk(r, PathOf(q))),
        set i: nat | i < 4 && HasL2(r, Path(i, 0, 0)),
        set q: nat | q < 2048 && HasL3(r, Path(q / 512, q % 512, 0)))
    }

    /** Entry `e` points to a table, the next one of the pool if it did not point to one before. */
    function Linked(e: Entry): Tree {
      if e in child then this
      else Tree(owner + [e], child[e := |owner|], if e.table.IsRoot() then mids + {|owner|} else mids, leaf)
    }

    /** One level-3 entry is written. */
    function Stored(e: Entry, d: u64): Tree { Tree(owner, child, mids, leaf[e := d]) }

    /** Path `x` is given its level-2 and its level-3 table. */
    function LinkedBoth(r: Table, x: Path): (t: Tree)
      ensures t.HasL3(r, x)
    {
      var l1 := Linked(L1Entry(r, x));
      l1.Linked(l1.L2Entry(r, x))
    }

    /** The tree after `map_page` along path `x`. */
    function Mapped(r: Table, x: Path, d: u64): Tree {
      LinkedBoth(r, x).Stored(LinkedBoth(r, x).LeafEntry(r, x), d)
    }

    /** The tree after one step of `unmap_region`. */
    function Cleared(r: Table, x: Path): Tree {
      if HasL3(r, x) then Stored(LeafEntry(r, x), 0) else this
    }
  }

  ghost const EMPTY: Tree := Tree([], map[], {}, map[])

  type ForestTree = t: Tree | t.Forest() ghost witness EMPTY

  function L1Entry(r: Table, x: Path): Entry { Entry(r, x.i1) }

  /** Linking a fresh table of zeros keeps the forest and changes no translation. */
  lemma LinkedForest(t: Tree, e: Entry)
    requires t.Forest() && t.IsInner(e.table) && e.index < 512
    ensures t.Linked(e).Forest()
  {
    LinkedOwned(t, e);
    LinkedLinks(t, e);
    LinkedLeaves(t, e);
  }

  lemma LinkedOwned(t: Tree, e: Entry)
    requires t.Owned() && t.Links()
    ensures t.Linked(e).Owned()
  {
  }

  lemma LinkedLinks(t: Tree, e: Entry)
    requires t.Links() && t.IsInner(e.table) && e.index < 512
    ensures t.Linked(e).Links()
  {
  }

  lemma LinkedLeaves(t: Tree, e: Entry)
    requires t.Leaves()
    ensures t.Linked(e).Leaves()
  {
  }

  lemma LinkedKeeps(t: Tree, e: Entry, s: Table, y: Path)
    requires t.Forest() && t.IsInner(e.table) && e.index < 512 && s.IsRoot()
    ensures t.Linked(e).Walk(s, y) == t.Walk(s, y)
    ensures t.Linked(e).HasL2(s, y) <==> t.HasL2(s, y) || e == L1Entry(s, y)
    ensures t.Linked(e).HasL3(s, y) <==> t.HasL3(s, y) || (t.HasL2(s, y) && e == t.L2Entry(s, y))
  {
  }

  lemma StoredForest(t: Tree, e: Entry, d: u64)
    requires t.Forest() && t.IsL3(e.table) && (d == 0 || d % 4 == 3)
    ensures t.Stored(e, d).Forest()
  {
  }

  lemma StoredKeeps(t: Tree, e: Entry, d: u64, s: Table, y: Path)
    requires t.Forest() && t.IsL3(e.table)
    ensures t.Stored(e, d).HasL2(s, y) <==> t.HasL2(s, y)
    ensures t.Stored(e, d).HasL3(s, y) <==> t.HasL3(s, y)
    ensures t.Stored(e, d).Walk(s, y) == if t.HasL3(s, y) && t.LeafEntry(s, y) == e then d else t.Walk(s, y)
  {
  }

  /** Distinct paths, and paths from distinct roots, never share a leaf entry. */
  lemma LeafUnique(t: Tree, r: Table, x: Path, s: Table, y: Path)
    requires t.Forest() && t.HasL3(r, x) && t.HasL3(s, y)
    ensures t.LeafEntry(r, x) == t.LeafEntry(s, y) <==> r == s && x == y
  {
  }

  /** After both links page path `x` has its leaf entry, and at most two tables were drawn for it. */
  lemma BothLinked(t: Tree, r: Table, x: Path)
    requires t.Forest() && r.IsRoot() && x.i1 < 512 && x.i2 < 512
    ensures t.LinkedBoth(r, x).Forest() && t.LinkedBoth(r, x).HasL3(r, x)
    ensures t.LinkedBoth(r, x).IsL3(t.LinkedBoth(r, x).LeafEntry(r, x).table)
    ensures |t.LinkedBoth(r, x).owner|
      == |t.owner| + (if t.HasL2(r, x) then 0 else 1) + (if t.HasL3(r, x) then 0 else 1)
  {
    LinkedForest(t, L1Entry(r, x));
    LinkedKeeps(t, L1Entry(r, x), r, x);
    LinkedForest(t.Linked(L1Entry(r, x)), t.Linked(L1Entry(r, x)).L2Entry(r, x));
  }

  lemma BothLinkedKeep(t: Tree, r: Table, x: Path, s: Table, y: Path)
    requires t.Forest() && r.IsRoot() && s.IsRoot() && x.i1 < 512 && x.i2 < 512
    ensures t.LinkedBoth(r, x).Walk(s, y) == t.Walk(s, y)
    ensures t.LinkedBoth(r, x).HasL2(s, y) <==> t.HasL2(s, y) || (s == r && y.i1 == x.i1)
    ensures t.LinkedBoth(r, x).HasL3(s, y) <==> t.HasL3(s, y) || (s == r && y.i1 == x.i1 && y.i2 == x.i2)
  {
    var t1 := t.Linked(L1Entry(r, x));
    LinkedForest(t, L1Entry(r, x));
    LinkedKeeps(t, L1Entry(r, x), s, y);
    LinkedKeeps(t1, t1.L2Entry(r, x), s, y);
  }

  /** Mapping a page sets its translation and no other, under either root, and links at most its two tables. */
  lemma MappedWalk(t: Tree, r: Table, x: Path, d: u64, s: Table, y: Path)
    requires t.Forest() && d % 4 == 3
    requires r.IsRoot() && s.IsRoot() && x.i1 < 512 && x.i2 < 512
    ensures t.Mapped(r, x, d).Walk(s, y) == if s == r && y == x then d else t.Walk(s, y)
    ensures t.Mapped(r, x, d).HasL2(s, y) <==> t.HasL2(s, y) || (s == r && y.i1 == x.i1)
    ensures t.Mapped(r, x, d).HasL3(s, y) <==> t.HasL3(s, y) || (s == r && y.i1 == x.i1 && y.i2 == x.i2)
  {
    var t2 := t.LinkedBoth(r, x);
    BothLinked(t, r, x);
    BothLinkedKeep(t, r, x, s, y);
    StoredKeeps(t2, t2.LeafEntry(r, x), d, s, y);
    if t2.HasL3(s, y) { LeafUnique(t2, r, x, s, y); }
  }

  /** `map_page` draws a table for each of its two slots that has none. */
  lemma MappedForest(t: Tree, r: Table, p: Page, d: u64)
    requires t.Forest() && d % 4 == 3
    requires r.IsRoot()
    ensures t.Mapped(r, PathOf(p), d).Forest()
    ensures |t.Mapped(r, PathOf(p), d).owner| == |t.owner| + t.View(r).Cost(p)
  {
    var x := PathOf(p);
    BothLinked(t, r, x);
    StoredForest(t.LinkedBoth(r, x), t.LinkedBoth(r, x).LeafEntry(r, x), d);
    CostIs(t, r, p);
  }

  lemma CostIs(t: Tree, r: Table, p: Page)
    ensures t.View(r).Cost(p) == (if t.HasL2(r, PathOf(p)) then 0 else 1) + (if t.HasL3(r, PathOf(p)) then 0 else 1)
  {
  }

  /** It refines the flat view: one page set under its own root, nothing under the other. */
  lemma MappedView(t: Tree, r: Table, p: Page, d: u64, s: Table)
    requires t.Forest() && d % 4 == 3
    requires r.IsRoot() && s.IsRoot()
    ensures t.Mapped(r, PathOf(p), d).View(s) == if s == r then t.View(s).Mapped(p, d) else t.View(s)
  {
    forall y: Path
      ensures t.Mapped(r, PathOf(p), d).Walk(s, y) == if s == r && y == PathOf(p) then d else t.Walk(s, y)
      ensures t.Mapped(r, PathOf(p), d).HasL2(s, y) <==> t.HasL2(s, y) || (s == r && y.i1 == PathOf(p).i1)
      ensures t.Mapped(r, PathOf(p), d).HasL3(s, y)
        <==> t.HasL3(s, y) || (s == r && y.i1 == PathOf(p).i1 && y.i2 == PathOf(p).i2)
    {
      MappedWalk(t, r, PathOf(p), d, s, y);
    }
    ViewStep(t, t.Mapped(r, PathOf(p), d), r, p, d, s);
  }

  lemma ViewStep(t: Tree, m: Tree, r: Table, p: Page, d: u64, s: Table)
    requires forall y: Path :: m.Walk(s, y) == if s == r && y == PathOf(p) then d else t.Walk(s, y)
    requires forall y: Path :: m.HasL2(s, y) <==> t.HasL2(s, y) || (s == r && y.i1 == PathOf(p).i1)
    requires forall y: Path ::
      m.HasL3(s, y) <==> t.HasL3(s, y) || (s == r && y.i1 == PathOf(p).i1 && y.i2 == PathOf(p).i2)
    ensures m.View(s) == if s == r then t.View(s).Mapped(p, d) else t.View(s)
  {
  }

  /** One step of `unmap_region` clears its page and neither draws nor frees a table. */
  lemma ClearedForest(t: Tree, r: Table, p: Page)
    requires t.Forest() && r.IsRoot()
    ensures t.Cleared(r, PathOf(p)).Forest() && t.Cleared(r, PathOf(p)).owner == t.owner
  {
  }

  lemma ClearedView(t: Tree, r: Table, p: Page, s: Table)
    requires t.Forest() && r.IsRoot() && s.IsRoot()
    ensures t.Cleared(r, PathOf(p)).View(s)
      == if s == r then t.View(s).(flat := t.View(s).flat[p := 0]) else t.View(s)
  {
    var x := PathOf(p);
    forall q: nat ensures PathOf(q) == x <==> q == p { PathDigits(p); PathDigits(q); }
    if t.HasL3(r, x) {
      var e := t.LeafEntry(r, x);
      forall y: Path
        ensures t.Stored(e, 0).Walk(s, y) == if s == r && y == x then 0 else t.Walk(s, y)
      {
        StoredKeeps(t, e, 0, s, y);
        if t.HasL3(s, y) { LeafUnique(t, r, x, s, y); }
      }
    } else {
      assert t.View(r).flat[p := 0] == t.View(r).flat;
    }
  }
}
