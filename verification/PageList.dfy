/** Runs of free pages: the canonical form of a set of pages, and first fit in it. */
module PageRuns {
  import opened Lists

  type Page = nat

  datatype Run = Run(start: Page, pages: nat)

  function End(r: Run): Page {
    r.start + r.pages
  }

  /** Address-sorted runs, none empty, none overlapping or touching the next. */
  ghost predicate Canonical(runs: seq<Run>) {
    && (forall i | 0 <= i < |runs| :: runs[i].pages > 0)
    && forall i, j | 0 <= i < j < |runs| :: End(runs[i]) < runs[j].start
  }

  ghost predicate InRun(r: Run, q: Page) {
    r.start <= q < End(r)
  }

  ghost predicate Covers(runs: seq<Run>, q: Page) {
    exists i :: 0 <= i < |runs| && InRun(runs[i], q)
  }

  ghost predicate SamePages(a: seq<Run>, b: seq<Run>) {
    forall q: Page :: Covers(a, q) <==> Covers(b, q)
  }

  // --- uniqueness ---

  lemma CoversTail(runs: seq<Run>, q: Page)
    requires runs != []
    ensures Covers(runs, q) <==> InRun(runs[0], q) || Covers(runs[1..], q)
  {
    if Covers(runs, q) {
      var i :| 0 <= i < |runs| && InRun(runs[i], q);
      if i > 0 {
        assert runs[1..][i - 1] == runs[i];
      }
    }
    if Covers(runs[1..], q) {
      var i :| 0 <= i < |runs| - 1 && InRun(runs[1..][i], q);
      assert runs[i + 1] == runs[1..][i];
    }
  }

  lemma FirstIsLeast(runs: seq<Run>, q: Page)
    requires Canonical(runs) && runs != []
    ensures Covers(runs, runs[0].start) && !Covers(runs, End(runs[0]))
    ensures Covers(runs, q) ==> runs[0].start <= q
    ensures Covers(runs[1..], q) ==> End(runs[0]) < q
  {
    assert InRun(runs[0], runs[0].start);
    assert forall i | 0 <= i < |runs[1..]| :: runs[1..][i] == runs[i + 1];
  }

  /** A set of pages has one canonical form. */
  lemma {:induction false} CanonicalUnique(a: seq<Run>, b: seq<Run>)
    requires Canonical(a) && Canonical(b) && SamePages(a, b)
    ensures a == b
    decreases |a|
  {
    if a == [] || b == [] {
      if a != [] {
        FirstIsLeast(a, 0);
      }
      if b != [] {
        FirstIsLeast(b, 0);
      }
    } else {
      FirstIsLeast(a, b[0].start);
      FirstIsLeast(b, a[0].start);
      FirstRunsAgree(a, b);
      forall q: Page
        ensures Covers(a[1..], q) <==> Covers(b[1..], q)
      {
        CoversTail(a, q);
        CoversTail(b, q);
        FirstIsLeast(a, q);
        FirstIsLeast(b, q);
      }
      CanonicalUnique(a[1..], b[1..]);
    }
  }

  lemma FirstRunsAgree(a: seq<Run>, b: seq<Run>)
    requires Canonical(a) && Canonical(b) && SamePages(a, b) && a != [] && b != [] && a[0].start == b[0].start
    ensures a[0] == b[0]
  {
    FirstIsLeast(a, 0);
    FirstIsLeast(b, 0);
    RunCovers(a, 0, End(b[0]));
    RunCovers(b, 0, End(a[0]));
  }

  lemma RunCovers(runs: seq<Run>, i: nat, q: Page)
    requires i < |runs|
    ensures InRun(runs[i], q) ==> Covers(runs, q)
  {
  }

  // --- first fit is lowest fit ---

  ghost predicate AllFree(runs: seq<Run>, p: Page, n: nat) {
    forall q: Page | p <= q < p + n :: Covers(runs, q)
  }

  // Consecutive free pages lie within one run.
  lemma {:induction false} WithinOneRun(runs: seq<Run>, p: Page, n: nat) returns (i: nat)
    requires Canonical(runs) && n > 0 && AllFree(runs, p, n)
    ensures i < |runs| && runs[i].start <= p && p + n <= End(runs[i])
    decreases n
  {
    if n == 1 {
      assert Covers(runs, p);
      i :| 0 <= i < |runs| && InRun(runs[i], p);
    } else {
      i := WithinOneRun(runs, p, n - 1);
      var q := p + n - 1;
      assert Covers(runs, q);
      var j :| 0 <= j < |runs| && InRun(runs[j], q);
    }
  }

  // The first run with n pages or more starts with the lowest n consecutive free pages there are.
  lemma FirstFitIsLowest(runs: seq<Run>, i: nat, n: nat, p: Page)
    requires Canonical(runs) && n > 0 && i < |runs| && runs[i].pages >= n && forall j | 0 <= j < i :: runs[j].pages < n
    ensures AllFree(runs, runs[i].start, n)
    ensures AllFree(runs, p, n) ==> runs[i].start <= p
  {
    forall q: Page | runs[i].start <= q < runs[i].start + n
      ensures Covers(runs, q)
    {
      assert InRun(runs[i], q);
    }
    if AllFree(runs, p, n) {
      var j := WithinOneRun(runs, p, n);
    }
  }

  lemma NoFit(runs: seq<Run>, n: nat, p: Page)
    requires Canonical(runs) && n > 0 && forall j | 0 <= j < |runs| :: runs[j].pages < n
    ensures !AllFree(runs, p, n)
  {
    if AllFree(runs, p, n) {
      var j := WithinOneRun(runs, p, n);
    }
  }

  // --- what allocating and freeing do to the runs ---

  // The first n pages of run i are taken.
  function Taken(runs: seq<Run>, i: nat, n: nat): seq<Run>
    requires i < |runs| && n <= runs[i].pages
  {
    if runs[i].pages == n then DropAt(runs, i) else runs[i := Run(runs[i].start + n, runs[i].pages - n)]
  }

  lemma TakenOk(runs: seq<Run>, i: nat, n: nat)
    requires Canonical(runs) && i < |runs| && 0 < n <= runs[i].pages
    ensures Canonical(Taken(runs, i, n))
    ensures forall q: Page :: Covers(Taken(runs, i, n), q) <==> Covers(runs, q) && !(runs[i].start <= q < runs[i].start + n)
  {
    var r := Taken(runs, i, n);
    if runs[i].pages == n {
      assert forall j | 0 <= j < |r| :: r[j] == runs[if j < i then j else j + 1];
    }
    forall q: Page
      ensures Covers(r, q) <==> Covers(runs, q) && !(runs[i].start <= q < runs[i].start + n)
    {
      if runs[i].pages == n {
        DropCovers(runs, i, q);
      } else {
        ShortenCovers(runs, i, n, q);
      }
    }
  }

  // Runs do not overlap.
  lemma OtherRun(runs: seq<Run>, i: nat, j: nat, q: Page)
    requires Canonical(runs) && i < |runs| && j < |runs| && i != j && InRun(runs[i], q)
    ensures !InRun(runs[j], q)
  {
    assert i < j ==> End(runs[i]) < runs[j].start;
    assert j < i ==> End(runs[j]) < runs[i].start;
  }

  lemma DropCovers(runs: seq<Run>, i: nat, q: Page)
    requires Canonical(runs) && i < |runs|
    ensures Covers(DropAt(runs, i), q) <==> Covers(runs, q) && !InRun(runs[i], q)
  {
    hide Canonical, InRun;
    var r := DropAt(runs, i);
    if Covers(r, q) {
      var j :| 0 <= j < |r| && InRun(r[j], q);
      var k := if j >= i then j + 1 else j;
      assert r[j] == runs[k];
      OtherRun(runs, k, i, q);
    }
    if Covers(runs, q) && !InRun(runs[i], q) {
      var k :| 0 <= k < |runs| && InRun(runs[k], q);
      assert r[if k > i then k - 1 else k] == runs[k];
    }
  }

  lemma ShortenCovers(runs: seq<Run>, i: nat, n: nat, q: Page)
    requires Canonical(runs) && i < |runs| && 0 < n < runs[i].pages
    ensures Covers(Taken(runs, i, n), q) <==> Covers(runs, q) && !(runs[i].start <= q < runs[i].start + n)
  {
    hide Canonical;
    var r := Taken(runs, i, n);
    assert r == runs[i := Run(runs[i].start + n, runs[i].pages - n)];
    if Covers(r, q) {
      var j :| 0 <= j < |r| && InRun(r[j], q);
      assert InRun(runs[j], q);
      if j != i {
        OtherRun(runs, j, i, q);
      }
    }
    if Covers(runs, q) && !(runs[i].start <= q < runs[i].start + n) {
      var k :| 0 <= k < |runs| && InRun(runs[k], q);
      assert InRun(r[k], q);
    }
  }

  // A freed run put at place i, merged with the neighbours it touches: it replaces the runs from Lo to Hi.
  function Lo(runs: seq<Run>, i: nat, s: Page): (lo: nat)
    requires i <= |runs|
    ensures lo <= i
  {
    if i > 0 && End(runs[i - 1]) == s then i - 1 else i
  }

  function Hi(runs: seq<Run>, i: nat, s: Page, n: nat): (hi: nat)
    requires i <= |runs|
    ensures i <= hi <= |runs|
  {
    if i < |runs| && s + n == runs[i].start then i + 1 else i
  }

  function Merged(runs: seq<Run>, i: nat, s: Page, n: nat): Run
    requires i <= |runs|
  {
    var left := if i > 0 && End(runs[i - 1]) == s then runs[i - 1].pages else 0;
    var right := if i < |runs| && s + n == runs[i].start then runs[i].pages else 0;
    Run(if i > 0 && End(runs[i - 1]) == s then runs[i - 1].start else s, left + n + right)
  }

  function Returned(runs: seq<Run>, i: nat, s: Page, n: nat): seq<Run>
    requires i <= |runs|
  {
    runs[..Lo(runs, i, s)] + [Merged(runs, i, s, n)] + runs[Hi(runs, i, s, n)..]
  }

  // Where the freed run belongs: behind the runs that end before it, and before those that start after it.
  ghost predicate Belongs(runs: seq<Run>, i: nat, s: Page, n: nat) {
    && i <= |runs|
    && (forall j | 0 <= j < i :: End(runs[j]) <= s) && (forall j | i <= j < |runs| :: s + n <= runs[j].start)
  }

  /** Freeing a run keeps the canonical form, and adds exactly the freed pages. */
  lemma ReturnedOk(runs: seq<Run>, i: nat, s: Page, n: nat)
    requires Canonical(runs) && n > 0 && Belongs(runs, i, s, n)
    ensures Canonical(Returned(runs, i, s, n))
    ensures forall q: Page :: Covers(Returned(runs, i, s, n), q) <==> Covers(runs, q) || s <= q < s + n
  {
    hide Covers, Merged, Lo, Hi;
    MergedSpace(runs, i, s, n);
    SpliceCanonical(runs, Lo(runs, i, s), Hi(runs, i, s, n), Merged(runs, i, s, n));
    forall q: Page
      ensures Covers(Returned(runs, i, s, n), q) <==> Covers(runs, q) || s <= q < s + n
    {
      MergedPages(runs, i, s, n, q);
      MergedCovers(runs, Lo(runs, i, s), Hi(runs, i, s, n), Merged(runs, i, s, n), s, n, q);
    }
  }

  lemma MergedSpace(runs: seq<Run>, i: nat, s: Page, n: nat)
    requires Canonical(runs) && n > 0 && Belongs(runs, i, s, n)
    ensures var m := Merged(runs, i, s, n);
      && m.pages > 0
      && (forall j | 0 <= j < Lo(runs, i, s) :: End(runs[j]) < m.start)
      && (forall j | Hi(runs, i, s, n) <= j < |runs| :: End(m) < runs[j].start)
  {
    forall j | 0 <= j < Lo(runs, i, s)
      ensures End(runs[j]) < Merged(runs, i, s, n).start
    {
      assert j < i - 1 ==> End(runs[j]) < runs[i - 1].start;
    }
  }

  lemma MergedPages(runs: seq<Run>, i: nat, s: Page, n: nat, q: Page)
    requires i <= |runs|
    ensures InRun(Merged(runs, i, s, n), q) <==> InSome(runs, Lo(runs, i, s), Hi(runs, i, s, n), q) || s <= q < s + n
  {
    var lo, hi := Lo(runs, i, s), Hi(runs, i, s, n);
    assert lo < i && InRun(runs[i - 1], q) ==> InSome(runs, lo, hi, q);
    assert hi > i && InRun(runs[i], q) ==> InSome(runs, lo, hi, q);
    if InSome(runs, lo, hi, q) {
      var k :| lo <= k < hi && k < |runs| && InRun(runs[k], q);
      assert k == i - 1 || k == i;
    }
  }

  lemma SpliceCanonical(runs: seq<Run>, lo: nat, hi: nat, m: Run)
    requires Canonical(runs) && lo <= hi <= |runs| && m.pages > 0
    requires forall j | 0 <= j < lo :: End(runs[j]) < m.start
    requires forall j | hi <= j < |runs| :: End(m) < runs[j].start
    ensures Canonical(runs[..lo] + [m] + runs[hi..])
  {
    var r := runs[..lo] + [m] + runs[hi..];
    assert forall j | 0 <= j < |r| :: r[j] == if j < lo then runs[j] else if j == lo then m else runs[j - lo - 1 + hi];
  }

  ghost predicate InSome(runs: seq<Run>, lo: nat, hi: nat, q: Page) {
    exists k :: lo <= k < hi && k < |runs| && InRun(runs[k], q)
  }

  // Replacing the runs from lo to hi by one that covers them and the freed pages, and nothing else.
  lemma MergedCovers(runs: seq<Run>, lo: nat, hi: nat, m: Run, s: Page, n: nat, q: Page)
    requires lo <= hi <= |runs|
    requires InRun(m, q) <==> InSome(runs, lo, hi, q) || s <= q < s + n
    ensures Covers(runs[..lo] + [m] + runs[hi..], q) <==> Covers(runs, q) || s <= q < s + n
  {
    hide InRun;
    var r := runs[..lo] + [m] + runs[hi..];
    assert forall j | 0 <= j < lo :: r[j] == runs[j];
    assert r[lo] == m;
    assert forall j | hi <= j < |runs| :: r[j - hi + lo + 1] == runs[j];
    if Covers(r, q) {
      var j :| 0 <= j < |r| && InRun(r[j], q);
      assert j > lo ==> r[j] == runs[j - lo - 1 + hi];
    }
    if s <= q < s + n {
      assert InRun(r[lo], q);
    }
    if Covers(runs, q) {
      var k :| 0 <= k < |runs| && InRun(runs[k], q);
      if lo <= k < hi {
        assert InSome(runs, lo, hi, q);
        assert InRun(r[lo], q);
      }
    }
  }

  // --- freeing in any order ---

  function Place(runs: seq<Run>, s: Page): (i: nat)
    ensures i <= |runs| && (forall j | 0 <= j < i :: runs[j].start <= s) && (i < |runs| ==> s < runs[i].start)
  {
    if runs == [] || s < runs[0].start then 0 else 1 + Place(runs[1..], s)
  }

  function FreeOne(runs: seq<Run>, r: Run): seq<Run> {
    Returned(runs, Place(runs, r.start), r.start, r.pages)
  }

  function FreeAll(runs: seq<Run>, list: seq<Run>): seq<Run>
    decreases |list|
  {
    if list == [] then runs else FreeAll(FreeOne(runs, list[0]), list[1..])
  }

  ghost predicate Apart(runs: seq<Run>, r: Run) {
    r.pages > 0 && forall q: Page | InRun(r, q) :: !Covers(runs, q)
  }

  // Each run freed is in use at that moment.
  ghost predicate Freeable(runs: seq<Run>, list: seq<Run>)
    decreases |list|
  {
    list == [] || (Apart(runs, list[0]) && Freeable(FreeOne(runs, list[0]), list[1..]))
  }

  lemma PlaceBelongs(runs: seq<Run>, r: Run, i: nat)
    requires Canonical(runs) && Apart(runs, r) && i <= |runs|
    requires (forall j | 0 <= j < i :: runs[j].start <= r.start) && (i < |runs| ==> r.start < runs[i].start)
    ensures Belongs(runs, i, r.start, r.pages)
  {
    forall j | 0 <= j < i
      ensures End(runs[j]) <= r.start
    {
      RunCovers(runs, j, r.start);
      assert InRun(r, r.start);
    }
    forall j | i <= j < |runs|
      ensures End(r) <= runs[j].start
    {
      assert i < j ==> End(runs[i]) < runs[j].start;
      RunCovers(runs, j, runs[j].start);
      assert InRun(runs[j], runs[j].start);
    }
  }

  lemma FreeOneOk(runs: seq<Run>, r: Run)
    requires Canonical(runs) && Apart(runs, r)
    ensures Canonical(FreeOne(runs, r)) && forall q: Page :: Covers(FreeOne(runs, r), q) <==> Covers(runs, q) || InRun(r, q)
  {
    hide Canonical, Covers, Returned;
    PlaceAscends(runs, r);
    ReturnedOk(runs, Place(runs, r.start), r.start, r.pages);
  }

  lemma PlaceAscends(runs: seq<Run>, r: Run)
    requires Canonical(runs) && Apart(runs, r)
    ensures Belongs(runs, Place(runs, r.start), r.start, r.pages)
  {
    PlaceBelongs(runs, r, Place(runs, r.start));
  }

  lemma {:induction false} FreeAllPages(runs: seq<Run>, list: seq<Run>)
    requires Canonical(runs) && Freeable(runs, list)
    ensures Canonical(FreeAll(runs, list))
    ensures forall q: Page :: Covers(FreeAll(runs, list), q) <==> Covers(runs, q) || Covers(list, q)
    decreases |list|
  {
    hide Canonical, Returned;
    if list != [] {
      FreeOneOk(runs, list[0]);
      FreeAllPages(FreeOne(runs, list[0]), list[1..]);
      hide Covers;
      forall q: Page
        ensures Covers(FreeAll(runs, list), q) <==> Covers(runs, q) || Covers(list, q)
      {
        CoversTail(list, q);
      }
    }
  }

  /** However a collection of runs is freed, split up and ordered, the free list ends up the same. */
  lemma OrderIrrelevant(runs: seq<Run>, list: seq<Run>, list': seq<Run>)
    requires Canonical(runs) && Freeable(runs, list) && Freeable(runs, list') && SamePages(list, list')
    ensures FreeAll(runs, list) == FreeAll(runs, list')
  {
    FreeAllPages(runs, list);
    FreeAllPages(runs, list');
    CanonicalUnique(FreeAll(runs, list), FreeAll(runs, list'));
  }

  /** Freeing what was just allocated restores the free list exactly. */
  lemma AllocateThenFree(runs: seq<Run>, i: nat, n: nat)
    requires Canonical(runs) && i < |runs| && 0 < n <= runs[i].pages
    ensures FreeOne(Taken(runs, i, n), Run(runs[i].start, n)) == runs
  {
    hide Canonical, Taken;
    var r := Run(runs[i].start, n);
    TakenOk(runs, i, n);
    FreeOneOk(Taken(runs, i, n), r);
    forall q: Page
      ensures Covers(FreeOne(Taken(runs, i, n), r), q) <==> Covers(runs, q)
    {
      RunCovers(runs, i, q);
    }
    CanonicalUnique(FreeOne(Taken(runs, i, n), r), runs);
  }
}

/** The page allocator: the runs linked through their first pages. */
module PageAllocators {
  import opened Lists
  import opened PageRuns

  const NULL: int := -1

  function StartAt(runs: seq<Run>, i: nat): int {
    if i < |runs| then runs[i].start else NULL
  }

  ghost predicate Linked(head: int, next: map<int, int>, pages: map<int, nat>, runs: seq<Run>) {
    && head == StartAt(runs, 0)
    && forall i | 0 <= i < |runs| ::
         runs[i].start in next && runs[i].start in pages && pages[runs[i].start] == runs[i].pages
         && next[runs[i].start] == StartAt(runs, i + 1)
  }

  // Where the link that leads to run i is kept: in the list head, or in the run before.
  function Holder(runs: seq<Run>, i: nat): int
    requires i <= |runs|
  {
    if i == 0 then NULL else runs[i - 1].start
  }

  class PageAllocator {
    var head: int                        // rt_page_list
    var next: map<int, int>              // struct rt_page_head, by address of the page
    var pages: map<int, nat>
    ghost var runs: seq<Run>

    ghost predicate Valid()
      reads this
    {
      Canonical(runs) && Linked(head, next, pages, runs)
    }

    // rt_page_init
    constructor (start: Page, npages: nat)
      requires npages > 0
      ensures Valid() && runs == [Run(start, npages)]
    {
      head, next, pages := start, map[start := NULL], map[start := npages];
      runs := [Run(start, npages)];
    }

    // *prev = n
    method SetLink(holder: int, n: int)
      modifies this`head, this`next
      ensures head == if holder == NULL then n else old(head)
      ensures next == if holder == NULL then old(next) else old(next)[holder := n]
    {
      if holder == NULL {
        head := n;
      } else {
        next := next[holder := n];
      }
    }

    // rt_page_alloc
    method PageAlloc(npages: nat) returns (b: int)
      requires Valid()
      modifies this
      ensures Valid()
      ensures b == NULL <==> npages == 0 || forall p: Page :: !AllFree(old(runs), p, npages)
      ensures b == NULL ==> runs == old(runs)
      ensures b != NULL ==> b >= 0 && AllFree(old(runs), b, npages) && forall p: Page :: AllFree(old(runs), p, npages) ==> b <= p
      ensures b != NULL ==> forall q: Page :: Covers(runs, q) <==> Covers(old(runs), q) && !(b <= q < b + npages)
      ensures b != NULL ==> exists i :: 0 <= i < |old(runs)| && old(runs)[i].start == b && 0 < npages <= old(runs)[i].pages
                                        && runs == Taken(old(runs), i, npages)
    {
      hide Canonical, Linked, AllFree, Covers, Taken;
      if npages == 0 {
        return NULL;
      }
      var holder := NULL;
      ghost var i := 0;
      LinkedAt(head, next, pages, runs, 0);
      b := head;
      while b != NULL
        invariant runs == old(runs) && Valid() && i <= |runs| && b == StartAt(runs, i) && holder == Holder(runs, i)
        invariant forall j | 0 <= j < i :: runs[j].pages < npages
        decreases |runs| - i
      {
        LinkedAt(head, next, pages, runs, i);
        if pages[b] >= npages {
          TakenOk(runs, i, npages);
          LinkedTaken(head, next, pages, runs, i, npages);
          Lowest(runs, i, npages);
          if pages[b] > npages {
            var n := b + npages;
            next := next[n := next[b]];
            pages := pages[n := pages[b] - npages];
            SetLink(holder, n);
          } else {
            SetLink(holder, next[b]);
          }
          runs := Taken(runs, i, npages);
          return b;
        }
        holder := b;
        b := next[b];
        i := i + 1;
      }
      forall p: Page
        ensures !AllFree(runs, p, npages)
      {
        NoFit(runs, npages, p);
      }
    }

    // The freed run is joined to run i before it, and to the one after it if it touches that too.
    method FreeLeft(b: int, n: Page, npages: nat, ghost i: nat)
      requires Valid() && Apart(runs, Run(n, npages)) && i < |runs| && b == runs[i].start && End(runs[i]) == n
      requires i <= Place(runs, n)
      modifies this
      ensures Valid() && runs == FreeOne(old(runs), Run(n, npages))
    {
      hide Canonical, Linked, Covers, Returned, Place;
      ghost var r, pages0 := Run(n, npages), pages;
      FreeOneOk(runs, r);
      LinkedAt(head, next, pages, runs, i);
      LinkedAt(head, next, pages, runs, i + 1);
      AtLeft(runs, i, r);
      LinkedLeft(head, next, pages, runs, i, r);
      pages := pages[b := pages[b] + npages];
      if b + pages[b] == next[b] {
        pages := pages[b := pages[b] + pages[next[b]]];
        next := next[b := next[next[b]]];
        assert pages == pages0[b := pages[b]];
      }
      runs := FreeOne(runs, r);
    }

    // The freed run is joined to run i after it.
    method FreeRight(b: int, n: Page, npages: nat, holder: int, ghost i: nat)
      requires Valid() && Apart(runs, Run(n, npages)) && i < |runs| && b == runs[i].start == n + npages
      requires i <= Place(runs, n) && holder == Holder(runs, i) && forall j | 0 <= j < i :: End(runs[j]) < n
      modifies this
      ensures Valid() && runs == FreeOne(old(runs), Run(n, npages))
    {
      hide Canonical, Linked, Covers, Returned, Place;
      ghost var r := Run(n, npages);
      FreeOneOk(runs, r);
      LinkedAt(head, next, pages, runs, i);
      AtRight(runs, i, r);
      LinkedRight(head, next, pages, runs, i, r);
      pages := pages[n := pages[b] + npages];
      next := next[n := next[b]];
      SetLink(holder, n);
      runs := FreeOne(runs, r);
    }

    // rt_page_free
    method PageFree(n: Page, npages: nat)
      requires Valid() && Apart(runs, Run(n, npages))
      modifies this
      ensures Valid() && runs == FreeOne(old(runs), Run(n, npages))
      ensures forall q: Page :: Covers(runs, q) <==> Covers(old(runs), q) || n <= q < n + npages
    {
      hide Canonical, Linked, Covers, Returned, Place;
      ghost var r := Run(n, npages);
      FreeOneOk(runs, r);
      var holder := NULL;
      ghost var i := 0;
      LinkedAt(head, next, pages, runs, 0);
      var b := head;
      while b != NULL && !(b > n + npages)
        invariant runs == old(runs) && Valid() && i <= Place(runs, n) && b == StartAt(runs, i) && holder == Holder(runs, i)
        invariant forall j | 0 <= j < i :: End(runs[j]) < n
        decreases |runs| - i
      {
        LinkedAt(head, next, pages, runs, i);
        if b + pages[b] == n {
          FreeLeft(b, n, npages, i);
          return;
        }
        if b == n + npages {
          FreeRight(b, n, npages, holder, i);
          return;
        }
        NotYet(runs, i, r);
        holder := b;
        b := next[b];
        i := i + 1;
      }
      AtGap(runs, i, r);
      LinkedGap(head, next, pages, runs, i, r);
      pages := pages[n := npages];
      next := next[n := b];
      SetLink(holder, n);
      runs := FreeOne(runs, r);
    }
  }

  lemma LinkedAt(head: int, next: map<int, int>, pages: map<int, nat>, runs: seq<Run>, i: nat)
    requires Linked(head, next, pages, runs)
    ensures head == StartAt(runs, 0)
    ensures i < |runs| ==> var b := runs[i].start;
              b in next && b in pages && pages[b] == runs[i].pages && next[b] == StartAt(runs, i + 1)
  {
  }

  lemma Lowest(runs: seq<Run>, i: nat, n: nat)
    requires Canonical(runs) && n > 0 && i < |runs| && runs[i].pages >= n && forall j | 0 <= j < i :: runs[j].pages < n
    ensures AllFree(runs, runs[i].start, n) && forall p: Page :: AllFree(runs, p, n) ==> runs[i].start <= p
  {
    hide AllFree, Canonical;
    forall p: Page
      ensures AllFree(runs, runs[i].start, n) && (AllFree(runs, p, n) ==> runs[i].start <= p)
    {
      FirstFitIsLowest(runs, i, n, p);
    }
  }

  lemma StartsDiffer(runs: seq<Run>, i: nat, j: nat)
    requires Canonical(runs) && i < j < |runs|
    ensures runs[i].start < End(runs[i]) < runs[j].start
  {
  }

  // The list after *holder has been made to lead to `start`, where a run of `n` pages leads on to `rest`.
  function LinkVia(next: map<int, int>, holder: int, start: int): map<int, int> {
    if holder == NULL then next else next[holder := start]
  }

  // From run `lo` on, the list leads to the run m, if there is one, and then to the runs from `hi` on.
  ghost predicate Relinked(head: int, next: map<int, int>, pages: map<int, nat>, runs: seq<Run>, lo: nat, hi: nat, first: int,
                           head': int, next': map<int, int>, pages': map<int, nat>)
    requires lo <= hi <= |runs|
  {
    && (if lo == 0 then head' == first
        else head' == head && runs[lo - 1].start in next' && next'[runs[lo - 1].start] == first)
    && (forall j | 0 <= j < |runs| && (j < lo || hi <= j) ::
          runs[j].start in pages' && pages'[runs[j].start] == runs[j].pages)
    && (forall j | 0 <= j < |runs| && (j + 1 < lo || hi <= j) ::
          runs[j].start in next' && next'[runs[j].start] == StartAt(runs, j + 1))
  }

  lemma LinkedSplice(head: int, next: map<int, int>, pages: map<int, nat>, runs: seq<Run>, lo: nat, hi: nat, m: Run,
                     head': int, next': map<int, int>, pages': map<int, nat>)
    requires lo <= hi <= |runs| && Relinked(head, next, pages, runs, lo, hi, m.start, head', next', pages')
    requires Linked(head, next, pages, runs)
    requires m.start in next' && next'[m.start] == StartAt(runs, hi) && m.start in pages' && pages'[m.start] == m.pages
    ensures Linked(head', next', pages', runs[..lo] + [m] + runs[hi..])
  {
    hide StartAt;
    var r := runs[..lo] + [m] + runs[hi..];
    SplicedAt(runs, lo, hi, m, 0);
    forall j | 0 <= j < |r|
      ensures r[j].start in next' && r[j].start in pages' && pages'[r[j].start] == r[j].pages
      ensures next'[r[j].start] == StartAt(r, j + 1)
    {
      SplicedAt(runs, lo, hi, m, j);
      SplicedAt(runs, lo, hi, m, j + 1);
    }
    FirstStart(runs);
  }

  lemma SplicedAt(runs: seq<Run>, lo: nat, hi: nat, m: Run, j: nat)
    requires lo <= hi <= |runs|
    ensures var r := runs[..lo] + [m] + runs[hi..];
      && (j < |r| ==> r[j] == if j < lo then runs[j] else if j == lo then m else runs[j - lo - 1 + hi])
      && (j <= |r| ==> StartAt(r, j) == if j < lo then StartAt(runs, j) else if j == lo then m.start else StartAt(runs, j - lo - 1 + hi))
  {
  }

  lemma FirstStart(runs: seq<Run>)
    ensures StartAt(runs, 0) == if runs == [] then NULL else runs[0].start
  {
  }

  lemma LinkedCut(head: int, next: map<int, int>, pages: map<int, nat>, runs: seq<Run>, i: nat,
                  head': int, next': map<int, int>, pages': map<int, nat>)
    requires i < |runs| && Relinked(head, next, pages, runs, i, i + 1, StartAt(runs, i + 1), head', next', pages')
    requires Linked(head, next, pages, runs)
    ensures Linked(head', next', pages', DropAt(runs, i))
  {
    var r := DropAt(runs, i);
    assert forall j | 0 <= j < |r| :: r[j] == runs[if j < i then j else j + 1];
    forall j | 0 <= j < |r|
      ensures r[j].start in next' && r[j].start in pages' && pages'[r[j].start] == r[j].pages
      ensures next'[r[j].start] == StartAt(r, j + 1)
    {
      if j >= i {
        assert r[j] == runs[j + 1] && StartAt(r, j + 1) == StartAt(runs, j + 2);
      }
    }
  }

  // The link to run lo is changed, and a run at x is written: nothing else is touched, as x starts no other run.
  lemma RelinkedBy(head: int, next: map<int, int>, pages: map<int, nat>, runs: seq<Run>, lo: nat, hi: nat, first: int,
                   x: int, nx: int, px: nat)
    requires Canonical(runs) && Linked(head, next, pages, runs) && lo <= hi <= |runs|
    requires forall j | 0 <= j < |runs| && (j < lo || hi <= j) :: runs[j].start != x
    ensures var h := Holder(runs, lo);
      Relinked(head, next, pages, runs, lo, hi, first, if h == NULL then first else head, LinkVia(next[x := nx], h, first), pages[x := px])
  {
    forall j | 0 <= j < |runs| && (j + 1 < lo || hi <= j) && lo > 0
      ensures runs[j].start != runs[lo - 1].start
    {
      if j < lo - 1 {
        StartsDiffer(runs, j, lo - 1);
      } else {
        StartsDiffer(runs, lo - 1, j);
      }
    }
  }

  lemma LinkedTaken(head: int, next: map<int, int>, pages: map<int, nat>, runs: seq<Run>, i: nat, n: nat)
    requires Canonical(runs) && Linked(head, next, pages, runs) && i < |runs| && 0 < n <= runs[i].pages
    ensures var b, h := runs[i].start, Holder(runs, i);
      && b in next && b in pages
      && (n < runs[i].pages ==>
            Linked(if h == NULL then b + n else head, LinkVia(next[b + n := next[b]], h, b + n), pages[b + n := pages[b] - n], Taken(runs, i, n)))
      && (n == runs[i].pages ==>
            Linked(if h == NULL then next[b] else head, LinkVia(next, h, next[b]), pages, Taken(runs, i, n)))
  {
    hide Canonical, Linked, Relinked;
    var b, h := runs[i].start, Holder(runs, i);
    LinkedAt(head, next, pages, runs, i);
    forall j | 0 <= j < |runs| && (j < i || i + 1 <= j)
      ensures runs[j].start != b && runs[j].start != b + n
    {
      if j < i {
        StartsDiffer(runs, j, i);
      } else {
        StartsDiffer(runs, i, j);
      }
    }
    if n < runs[i].pages {
      var m := Run(b + n, runs[i].pages - n);
      RelinkedBy(head, next, pages, runs, i, i + 1, b + n, b + n, next[b], pages[b] - n);
      NotHolder(runs, i, b + n);
      LinkedSplice(head, next, pages, runs, i, i + 1, m, if h == NULL then b + n else head,
                   LinkVia(next[b + n := next[b]], h, b + n), pages[b + n := pages[b] - n]);
      assert Taken(runs, i, n) == runs[..i] + [m] + runs[i + 1..];
    } else {
      assert next[b := next[b]] == next && pages[b := pages[b]] == pages;
      RelinkedBy(head, next, pages, runs, i, i + 1, next[b], b, next[b], pages[b]);
      LinkedCut(head, next, pages, runs, i, if h == NULL then next[b] else head, LinkVia(next, h, next[b]), pages);
    }
  }

  lemma NotHolder(runs: seq<Run>, i: nat, x: int)
    requires i <= |runs| && x >= 0 && forall j | 0 <= j < i :: runs[j].start != x
    ensures Holder(runs, i) != x
  {
  }

  // --- which of the four ways of freeing applies ---

  lemma AtLeft(runs: seq<Run>, i: nat, r: Run)
    requires Canonical(runs) && Apart(runs, r) && i < |runs| && i <= Place(runs, r.start) && End(runs[i]) == r.start
    ensures Place(runs, r.start) == i + 1
  {
  }

  lemma AtRight(runs: seq<Run>, i: nat, r: Run)
    requires Canonical(runs) && Apart(runs, r) && i < |runs| && i <= Place(runs, r.start) && runs[i].start == End(r)
    requires forall j | 0 <= j < i :: End(runs[j]) < r.start
    ensures Place(runs, r.start) == i
  {
  }

  lemma NotYet(runs: seq<Run>, i: nat, r: Run)
    requires Canonical(runs) && Apart(runs, r) && i < |runs| && i <= Place(runs, r.start)
    requires runs[i].start <= End(r) && End(runs[i]) != r.start && runs[i].start != End(r)
    ensures i + 1 <= Place(runs, r.start) && End(runs[i]) < r.start
  {
    assert InRun(r, r.start) && InRun(runs[i], runs[i].start);
    RunCovers(runs, i, runs[i].start);
    RunCovers(runs, i, r.start);
  }

  lemma AtGap(runs: seq<Run>, i: nat, r: Run)
    requires Canonical(runs) && Apart(runs, r) && i <= |runs| && i <= Place(runs, r.start)
    requires i < |runs| ==> runs[i].start > End(r)
    ensures Place(runs, r.start) == i
  {
  }

  lemma LinkedLeft(head: int, next: map<int, int>, pages: map<int, nat>, runs: seq<Run>, i: nat, r: Run)
    requires Canonical(runs) && Apart(runs, r) && Linked(head, next, pages, runs)
    requires i < |runs| && End(runs[i]) == r.start && Place(runs, r.start) == i + 1
    ensures var b := runs[i].start;
      && b in next && b in pages
      && (if b + (pages[b] + r.pages) == next[b] then
            next[b] in pages && next[b] in next && next[b] != b
            && Linked(head, next[b := next[next[b]]], pages[b := pages[b] + r.pages + pages[next[b]]], FreeOne(runs, r))
          else Linked(head, next, pages[b := pages[b] + r.pages], FreeOne(runs, r)))
  {
    hide Canonical, Linked, Relinked, Place, Apart, Holder;
    var b := runs[i].start;
    var hi := Hi(runs, i + 1, r.start, r.pages);
    LinkedAt(head, next, pages, runs, i);
    LinkedAt(head, next, pages, runs, i + 1);
    if i + 1 < |runs| {
      StartsDiffer(runs, i, i + 1);
    }
    LinkedJoined(head, next, pages, runs, i, hi, Merged(runs, i + 1, r.start, r.pages));
    assert next[b := next[b]] == next;
  }

  // The runs from i up to hi become one, which starts where run i does.
  lemma LinkedJoined(head: int, next: map<int, int>, pages: map<int, nat>, runs: seq<Run>, i: nat, hi: nat, m: Run)
    requires Canonical(runs) && Linked(head, next, pages, runs) && i < hi <= |runs| && m.start == runs[i].start
    ensures Linked(head, next[m.start := StartAt(runs, hi)], pages[m.start := m.pages], runs[..i] + [m] + runs[hi..])
  {
    hide Canonical, Linked, Relinked, Holder;
    var b, h, nx := m.start, Holder(runs, i), StartAt(runs, hi);
    LinkedAt(head, next, pages, runs, i);
    OtherStarts(runs, i, hi, b);
    RelinkedBy(head, next, pages, runs, i, hi, b, b, nx, m.pages);
    LinkToSelf(head, next, pages, runs, i);
    HolderBefore(runs, i);
    LinkVia2(next, h, b, nx, head);
    LinkedSplice(head, next, pages, runs, i, hi, m, head, next[b := nx], pages[b := m.pages]);
  }

  // The link that leads to run i already leads there.
  lemma LinkToSelf(head: int, next: map<int, int>, pages: map<int, nat>, runs: seq<Run>, i: nat)
    requires Linked(head, next, pages, runs) && i < |runs|
    ensures var h := Holder(runs, i);
            if h == NULL then head == runs[i].start else h in next && next[h] == runs[i].start
  {
  }

  lemma HolderBefore(runs: seq<Run>, i: nat)
    requires Canonical(runs) && i < |runs|
    ensures Holder(runs, i) != runs[i].start
  {
    if i > 0 {
      StartsDiffer(runs, i - 1, i);
    }
  }

  lemma LinkVia2(next: map<int, int>, h: int, b: int, nx: int, head: int)
    requires h != b && if h == NULL then head == b else h in next && next[h] == b
    ensures LinkVia(next[b := nx], h, b) == next[b := nx] && (if h == NULL then b else head) == head
  {
  }

  // A run that starts between the runs before lo and those from hi on starts none of them.
  lemma OtherStarts(runs: seq<Run>, lo: nat, hi: nat, x: int)
    requires Canonical(runs) && lo < hi <= |runs| && x == runs[lo].start
    ensures forall j | 0 <= j < |runs| && (j < lo || hi <= j) :: runs[j].start != x
  {
    forall j | 0 <= j < |runs| && (j < lo || hi <= j)
      ensures runs[j].start != x
    {
      if j < lo {
        StartsDiffer(runs, j, lo);
      } else {
        StartsDiffer(runs, lo, j);
      }
    }
  }

  lemma FreshStart(runs: seq<Run>, i: nat, r: Run)
    requires Canonical(runs) && Apart(runs, r) && Place(runs, r.start) == i
    ensures forall j | 0 <= j < |runs| :: runs[j].start != r.start
  {
    forall j | 0 <= j < |runs|
      ensures runs[j].start != r.start
    {
      assert InRun(r, r.start) && InRun(runs[j], runs[j].start);
      RunCovers(runs, j, runs[j].start);
    }
  }

  lemma LinkedRight(head: int, next: map<int, int>, pages: map<int, nat>, runs: seq<Run>, i: nat, r: Run)
    requires Canonical(runs) && Apart(runs, r) && Linked(head, next, pages, runs)
    requires i < |runs| && runs[i].start == End(r) && Place(runs, r.start) == i && forall j | 0 <= j < i :: End(runs[j]) < r.start
    ensures var b, n, h := runs[i].start, r.start, Holder(runs, i);
      && b in next && b in pages
      && Linked(if h == NULL then n else head, LinkVia(next[n := next[b]], h, n), pages[n := pages[b] + r.pages], FreeOne(runs, r))
  {
    hide Canonical, Linked, Relinked, Place, Apart;
    var b, n, h := runs[i].start, r.start, Holder(runs, i);
    LinkedAt(head, next, pages, runs, i);
    FreshStart(runs, i, r);
    NotHolder(runs, i, n);
    RelinkedBy(head, next, pages, runs, i, i + 1, n, n, next[b], pages[b] + r.pages);
    LinkedSplice(head, next, pages, runs, i, i + 1, Merged(runs, i, r.start, r.pages),
                 if h == NULL then n else head, LinkVia(next[n := next[b]], h, n), pages[n := pages[b] + r.pages]);
  }

  lemma LinkedGap(head: int, next: map<int, int>, pages: map<int, nat>, runs: seq<Run>, i: nat, r: Run)
    requires Canonical(runs) && Apart(runs, r) && Linked(head, next, pages, runs)
    requires i <= |runs| && Place(runs, r.start) == i && forall j | 0 <= j < i :: End(runs[j]) < r.start
    requires i < |runs| ==> runs[i].start > End(r)
    ensures var n, h := r.start, Holder(runs, i);
      Linked(if h == NULL then n else head, LinkVia(next[n := StartAt(runs, i)], h, n), pages[n := r.pages], FreeOne(runs, r))
  {
    hide Canonical, Linked, Relinked, Place, Apart;
    var n, h := r.start, Holder(runs, i);
    FreshStart(runs, i, r);
    NotHolder(runs, i, n);
    RelinkedBy(head, next, pages, runs, i, i, n, n, StartAt(runs, i), r.pages);
    LinkedSplice(head, next, pages, runs, i, i, Merged(runs, i, r.start, r.pages),
                 if h == NULL then n else head, LinkVia(next[n := StartAt(runs, i)], h, n), pages[n := r.pages]);
  }
}
