/** Both address spaces after boot, page by page. */
module BootMap {
  import opened Words
  import opened AddressSpace
  import opened Bits
  import opened Boot

  /** A page mapped to itself with these attributes. */
  function Own(p: Page, attributes: nat): nat { 4096 * p + attributes + 3 }

  predicate InImage(l: Layout, p: Page) { l.start / 4096 <= p < l.stack / 4096 }

  /** Image pages below the data's first may be executed by the kernel; PXN is bit 53, UXN bit 54. */
  function ImageDesc(l: Layout, p: Page): nat {
    Own(p, if p < l.end / 4096 then 0x0040_0000_0000_0704 else 0x0060_0000_0000_0704)
  }

  /** The kernel root: UART, distributor, redistributors, ITS, virtio, the image; EL0 may only use the UART. */
  function KernelDesc(l: Layout, p: Page): nat {
    if p == 0x9000 then Own(p, 0x0060_0000_0000_0648)
    else if 0x8000 <= p < 0x8010 || 0x8080 <= p < 0x8120 || p == 0xA000 then Own(p, 0x0060_0000_0000_0600)
    else if InImage(l, p) then ImageDesc(l, p)
    else 0
  }

  /** The user root: the memory shared with the secure OS, and the image. */
  function UserDesc(l: Layout, p: Page): nat {
    if 0x4_0800 <= p < 0x4_0A00 then Own(p, 0x0060_0000_0000_070C)
    else if InImage(l, p) then ImageDesc(l, p)
    else 0
  }

  /** The call that maps page `p` of a root last, or -1. */
  function LastCall(l: Layout, user: bool, p: Page): int {
    if user then
      if 0x4_0800 <= p < 0x4_0A00 then 8
      else if !InImage(l, p) then -1 else if p < l.end / 4096 then 0 else 2
    else
      if p == 0xA000 then 9
      else if 0x8080 <= p < 0x80A0 then 7
      else if 0x80A0 <= p < 0x8120 then 6
      else if 0x8000 <= p < 0x8010 then 5
      else if p == 0x9000 then 4
      else if !InImage(l, p) then -1 else if p < l.end / 4096 then 1 else 3
  }

  lemma RootIs(l: Layout, i: nat)
    requires Placed(l) && i < 10
    ensures Calls(l)[i].user == (i == 0 || i == 2 || i == 8)
  {
  }

  /** A region of pages mapped to themselves. */
  predicate Itself(c: Call) { PageFloor(c.pa) == 4096 * c.Base() }

  lemma TextIs(l: Layout, i: nat)
    requires Placed(l) && i < 2
    ensures var c, a, e, z := Calls(l)[i], l.start / 4096, l.end / 4096, l.stack / 4096;
      Itself(c) && c.Base() == a && e <= a + c.Count() <= e + 1 && a + c.Count() <= z
  {
    ImagePages(l);
  }

  lemma DataIs(l: Layout, i: nat)
    requires Placed(l) && 2 <= i < 4
    ensures var c, e, z := Calls(l)[i], l.end / 4096, l.stack / 4096; Itself(c) && c.Base() == e && e + c.Count() == z
  {
    ImagePages(l);
  }

  lemma DeviceIs(l: Layout, i: nat)
    requires Placed(l) && 4 <= i < 10
    ensures var c := Calls(l)[i];
      && Itself(c)
      && c.Base() == (if i == 4 then 0x9000 else if i == 5 then 0x8000 else if i == 6 then 0x80A0
                      else if i == 7 then 0x8080 else if i == 8 then 0x4_0800 else 0xA000)
      && c.Count() == (if i == 4 || i == 9 then 1 else if i == 5 then 16 else if i == 6 then 128
                       else if i == 7 then 32 else 512)
  {
  }

  lemma CoversRange(c: Call, user: bool, p: Page)
    requires c.Base() + c.Count() <= PAGES
    ensures Covers(c, user, p) <==> c.user == user && c.Base() <= p < c.Base() + c.Count()
    ensures Covers(c, user, p) && Itself(c) ==>
      Add64(PageFloor(c.pa), 4096 * Offset(p, c.Base())) == 4096 * p
  {
  }

  lemma CoverOf(l: Layout, user: bool, p: Page, i: nat)
    requires Placed(l) && i < 10
    ensures i == LastCall(l, user, p) ==> Covers(Calls(l)[i], user, p)
    ensures i > LastCall(l, user, p) ==> !Covers(Calls(l)[i], user, p)
    ensures i == LastCall(l, user, p) ==>
      Add64(PageFloor(Calls(l)[i].pa), 4096 * Offset(p, Calls(l)[i].Base())) == 4096 * p
  {
    ImagePages(l);
    RootIs(l, i);
    if i < 2 { TextIs(l, i); } else if i < 4 { DataIs(l, i); } else { DeviceIs(l, i); }
    CoversRange(Calls(l)[i], user, p);
  }

  lemma AfterBoot(l: Layout, user: bool, p: Page)
    requires Placed(l)
    ensures var j := LastCall(l, user, p);
      At(Run(Empty(), Calls(l)), user, p) == if j == -1 then 0 else PageDesc(4096 * p, Calls(l)[j].flags)
  {
    var cs, j := Calls(l), LastCall(l, user, p);
    forall i | 0 <= i < |cs|
      ensures cs[i].Count() <= PAGES && (i > j ==> !Covers(cs[i], user, p))
    {
      SmallCalls(l, i);
      CoverOf(l, user, p, i);
    }
    if j == -1 {
      RunUncovered(Empty(), cs, user, p);
    } else {
      CoverOf(l, user, p, j);
      LastCover(Empty(), cs, j, user, p);
    }
  }

  lemma OwnDesc(p: Page, flags: u64)
    requires flags in {TEXT, DATA, DEVICE, UART, SHARED}
    ensures PageDesc(4096 * p, flags) == Own(p, flags)
  {
    DescSum(4096 * p, if flags == TEXT then 2 else 3, flags % 4096, flags);
  }

  /** Every translation of the kernel root when the scheduler starts. */
  lemma KernelAfterBoot(l: Layout, p: Page)
    requires Placed(l)
    ensures Run(Empty(), Calls(l)).kernel.flat[p] == KernelDesc(l, p)
  {
    AfterBoot(l, false, p);
    var j := LastCall(l, false, p);
    if j >= 0 { OwnDesc(p, Calls(l)[j].flags); }
  }

  /** Every translation of the user root then. */
  lemma UserAfterBoot(l: Layout, p: Page)
    requires Placed(l)
    ensures Run(Empty(), Calls(l)).user.flat[p] == UserDesc(l, p)
  {
    AfterBoot(l, true, p);
    var j := LastCall(l, true, p);
    if j >= 0 { OwnDesc(p, Calls(l)[j].flags); }
  }

  /** The kernel image is mapped to itself; only pages wholly below the data's end may be executed. */
  lemma ImageMapped(l: Layout, p: Page)
    requires Placed(l) && InImage(l, p)
    ensures Run(Empty(), Calls(l)).kernel.flat[p] == PageDesc(4096 * p, if p < l.end / 4096 then TEXT else DATA)
  {
    ImagePages(l);
    AfterBoot(l, false, p);
  }
}
