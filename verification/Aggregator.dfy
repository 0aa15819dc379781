/**
 Merging checkpoints (util/checkpoint_aggregator.py, `aggregate`): the memory images are
 concatenated page by page and padded, and the configuration sections of each checkpoint's
 CPUs are renamed and have their physical addresses moved to where their pages went.
 */
module Aggregator {
  import opened Arithmetic
  import opened Results
  import opened Sequences
  import opened Text

  const PAGE := 4096

  /** The character '0', of which a padding page consists. */
  const FILL: byte := 0x30

  // ---------------------------------------------------------------- memory

  /** `pagePtr` and the physical memory image of one checkpoint. */
  datatype Memory = Memory(pages: nat, image: seq<byte>)

  /** The pages in front of checkpoint `i` in the merged image. */
  function Offset(ms: seq<Memory>, i: nat): nat
    requires i <= |ms|
  {
    if i == 0 then 0 else Offset(ms, i - 1) + ms[i - 1].pages
  }

  /** What reading `pages` pages from the image yields; a short image yields less. */
  function Taken(m: Memory): seq<byte> {
    if |m.image| < m.pages * PAGE then m.image else m.image[..m.pages * PAGE]
  }

  /** The image holds all the pages it is asked for. */
  predicate Full(m: Memory) {
    m.pages * PAGE <= |m.image|
  }

  function Merged(ms: seq<Memory>, n: nat): seq<byte>
    requires n <= |ms|
  {
    if n == 0 then [] else Merged(ms, n - 1) + Taken(ms[n - 1])
  }

  /** The number of pages after padding: enough for the merged pages and for `memorySize` bytes. */
  function PaddedPages(pages: nat, memorySize: int): nat {
    if pages * PAGE >= memorySize then pages else (memorySize + PAGE - 1) / PAGE
  }

  function Padding(n: nat): (s: seq<byte>)
    ensures |s| == n && forall i :: 0 <= i < n ==> s[i] == FILL
  {
    seq(n, _ => FILL)
  }

  /** A physical address of checkpoint `i`, after merging: `paddr + (page_ptr << 12)`. */
  function Relocated(ms: seq<Memory>, i: nat, paddr: int): int
    requires i <= |ms|
  {
    paddr + Offset(ms, i) * PAGE
  }

  lemma {:induction false} MergedLength(ms: seq<Memory>, n: nat)
    requires n <= |ms|
    ensures |Merged(ms, n)| <= Offset(ms, n) * PAGE
    ensures |Merged(ms, n)| == Offset(ms, n) * PAGE <==> forall j :: 0 <= j < n ==> Full(ms[j])
  {
    if n > 0 {
      MergedLength(ms, n - 1);
    }
  }

  lemma {:induction false} MergedExtends(ms: seq<Memory>, i: nat, n: nat)
    requires i <= n <= |ms|
    ensures Merged(ms, i) <= Merged(ms, n)
  {
    if i < n {
      MergedExtends(ms, i, n - 1);
    }
  }

  /**
   Merging preserves memory: whatever checkpoint `i` held at an address within its pages is in the
   merged image at the relocated address, if the images in front of it hold all their pages.
   */
  lemma {:induction false} MemoryPreserved(ms: seq<Memory>, i: nat, paddr: nat)
    requires i < |ms| && paddr < ms[i].pages * PAGE && paddr < |ms[i].image|
    requires forall j :: 0 <= j < i ==> Full(ms[j])
    ensures Relocated(ms, i, paddr) < |Merged(ms, |ms|)|
    ensures Merged(ms, |ms|)[Relocated(ms, i, paddr)] == ms[i].image[paddr]
  {
    MergedLength(ms, i);
    MergedExtends(ms, i + 1, |ms|);
    assert Merged(ms, i + 1)[Relocated(ms, i, paddr)] == Taken(ms[i])[paddr];
  }

  /** Every checkpoint starts at its offset exactly if no image but the last is short of pages. */
  lemma {:induction false} AlignedIff(ms: seq<Memory>)
    ensures (forall i :: 0 <= i < |ms| ==> |Merged(ms, i)| == Offset(ms, i) * PAGE)
       <==> forall j :: 0 <= j < |ms| - 1 ==> Full(ms[j])
  {
    if ms != [] {
      MergedLength(ms, |ms| - 1);
    }
    forall i | 0 <= i < |ms|
      ensures |Merged(ms, i)| == Offset(ms, i) * PAGE <==> forall j :: 0 <= j < i ==> Full(ms[j])
    {
      MergedLength(ms, i);
    }
  }

  /** A short first image: the second checkpoint starts a page before its offset. */
  lemma {:induction false} ShortImageMoves()
    ensures var ms := [Memory(1, []), Memory(0, [])];
            |Merged(ms, 1)| == 0 && Offset(ms, 1) * PAGE == PAGE
  {
    var ms := [Memory(1, []), Memory(0, [])];
    assert Merged(ms, 0) == [] && Taken(ms[0]) == [] && Offset(ms, 0) == 0;
  }

  lemma {:induction false} OffsetMonotone(ms: seq<Memory>, i: nat, j: nat)
    requires i < j <= |ms|
    ensures Offset(ms, i) + ms[i].pages <= Offset(ms, j)
  {
    if i < j - 1 {
      OffsetMonotone(ms, i, j - 1);
    }
  }

  /** The relocated regions do not overlap: an address of the merged memory has one origin. */
  lemma {:induction false} RelocationInjective(ms: seq<Memory>, i: nat, p: nat, j: nat, q: nat)
    requires i < |ms| && j < |ms| && p < ms[i].pages * PAGE && q < ms[j].pages * PAGE
    requires Relocated(ms, i, p) == Relocated(ms, j, q)
    ensures i == j && p == q
  {
    if i < j {
      OffsetMonotone(ms, i, j);
    } else if j < i {
      OffsetMonotone(ms, j, i);
    }
  }

  /** The recorded `range_size` is the least multiple of the page size that covers pages and memory size. */
  lemma {:induction false} RangeSizeIsLeast(pages: nat, memorySize: int, k: nat)
    ensures PaddedPages(pages, memorySize) >= pages && PaddedPages(pages, memorySize) * PAGE >= memorySize
    ensures k >= pages && k * PAGE >= memorySize ==> k >= PaddedPages(pages, memorySize)
  {
  }

  /** The page-by-page copy of one image. */
  method CopyPages(m: Memory) returns (out: seq<byte>)
    ensures out == Taken(m)
  {
    out := [];
    var pos := 0;
    var x := 0;
    while x < m.pages
      invariant 0 <= x <= m.pages
      invariant pos == (if x * PAGE <= |m.image| then x * PAGE else |m.image|)
      invariant out == m.image[..pos]
    {
      var n := if |m.image| - pos < PAGE then |m.image| - pos else PAGE;
      out := out + m.image[pos..pos + n];
      pos := pos + n;
      x := x + 1;
    }
  }

  /** The memory side of `aggregate`: the image, `pagePtr` before padding, and `range_size`. */
  method MergeMemory(ms: seq<Memory>, memorySize: int) returns (image: seq<byte>, pagePtr: nat, rangeSize: nat)
    ensures pagePtr == Offset(ms, |ms|)
    ensures rangeSize == PaddedPages(pagePtr, memorySize) * PAGE
    ensures image == Merged(ms, |ms|) + Padding((PaddedPages(pagePtr, memorySize) - pagePtr) * PAGE)
    ensures forall k :: |Merged(ms, |ms|)| <= k < |image| ==> image[k] == 0x30
  {
    image, pagePtr := [], 0;
    for i := 0 to |ms|
      invariant pagePtr == Offset(ms, i) && image == Merged(ms, i)
    {
      pagePtr := pagePtr + ms[i].pages;
      var copy := CopyPages(ms[i]);
      image := image + copy;
    }
    var ptr, fileSize := pagePtr, pagePtr * PAGE;
    ghost var goal := PaddedPages(pagePtr, memorySize);
    while fileSize < memorySize
      invariant pagePtr <= ptr <= goal && fileSize == ptr * PAGE
      invariant image == Merged(ms, |ms|) + Padding((ptr - pagePtr) * PAGE)
      decreases memorySize - fileSize
    {
      PaddingAppend((ptr - pagePtr) * PAGE, PAGE);
      ConcatAssociative(Merged(ms, |ms|), Padding((ptr - pagePtr) * PAGE), Padding(PAGE));
      image := image + Padding(PAGE);
      fileSize := fileSize + PAGE;
      ptr := ptr + 1;
    }
    rangeSize := ptr * PAGE;
  }

  lemma {:induction false} PaddingAppend(a: nat, b: nat)
    ensures Padding(a) + Padding(b) == Padding(a + b)
  {
  }

  /** With full images the file is exactly as long as the recorded range. */
  lemma {:induction false} FileMatchesRange(ms: seq<Memory>, memorySize: int)
    ensures var n := Offset(ms, |ms|);
            |Merged(ms, |ms|) + Padding((PaddedPages(n, memorySize) - n) * PAGE)| == PaddedPages(n, memorySize) * PAGE
            <==> forall j :: 0 <= j < |ms| ==> Full(ms[j])
  {
    MergedLength(ms, |ms|);
  }

  // ---------------------------------------------------------------- section names

  predicate StartsCpu(s: string) {
    |s| >= 3 && s[0] == 'c' && s[1] == 'p' && s[2] == 'u'
  }

  /** Whether "cpu" occurs in a section name. */
  predicate HasCpu(s: string) {
    s != [] && (StartsCpu(s) || HasCpu(s[1..]))
  }

  /** Every "cpu" followed by `d`, the padded number of the checkpoint. */
  function Rename(s: string, d: string): string {
    if s == [] then []
    else if StartsCpu(s) then "cpu" + d + Rename(s[3..], d)
    else [s[0]] + Rename(s[1..], d)
  }

  /** The inverse: drop `n` characters behind every "cpu". */
  function Unrename(t: string, n: nat): string
    decreases |t|
  {
    if t == [] then []
    else if StartsCpu(t) then "cpu" + (if |t| < 3 + n then [] else Unrename(t[3 + n..], n))
    else [t[0]] + Unrename(t[1..], n)
  }

  /** The `n` characters behind the first "cpu". */
  function FirstTag(t: string, n: nat): string {
    if t == [] then []
    else if StartsCpu(t) then (if |t| < 3 + n then [] else t[3..3 + n])
    else FirstTag(t[1..], n)
  }

  /** Characters other than 'c' are copied, so renaming makes no new "cpu" where there was none. */
  lemma {:induction false} NoNewCpu(s: string, d: string)
    requires s != [] && !StartsCpu(s)
    ensures !StartsCpu(Rename(s, d))
  {
    var t := Rename(s[1..], d);
    if s[0] == 'c' && |s| > 1 && s[1] == 'p' {
      assert !StartsCpu(s[1..]) && t == [s[1]] + Rename(s[2..], d);
      if |s| > 2 {
        assert !StartsCpu(s[2..]) || s[2] == 'c';
        assert Rename(s[2..], d)[0] == s[2];
      }
    } else if |s| > 1 {
      assert t[0] == s[1];
    }
  }

  lemma {:induction false} RenameInverse(s: string, d: string)
    ensures Unrename(Rename(s, d), |d|) == s
    ensures HasCpu(s) ==> FirstTag(Rename(s, d), |d|) == d
  {
    if s != [] {
      var t := Rename(s, d);
      if StartsCpu(s) {
        RenameInverse(s[3..], d);
        assert t[3..3 + |d|] == d && t[3 + |d|..] == Rename(s[3..], d);
        assert s == "cpu" + s[3..];
      } else {
        RenameInverse(s[1..], d);
        NoNewCpu(s, d);
        assert t[1..] == Rename(s[1..], d);
        assert s == [s[0]] + s[1..];
      }
    }
  }

  /** The number stands behind the first "cpu", and so on in what follows; without one the name stays. */
  lemma {:induction false} RenameFirst(a: string, b: string, d: string)
    requires !HasCpu(a + "cp")
    ensures Rename(a + ("cpu" + b), d) == a + ("cpu" + (d + Rename(b, d)))
  {
    if a == [] {
      assert ("cpu" + b)[3..] == b;
      assert [] + ("cpu" + b) == "cpu" + b;
      assert [] + ("cpu" + (d + Rename(b, d))) == "cpu" + d + Rename(b, d);
    } else {
      var s := a + ("cpu" + b);
      assert (a + "cp")[1..] == a[1..] + "cp";
      assert s[1..] == a[1..] + ("cpu" + b);
      assert StartsCpu(s) ==> StartsCpu(a + "cp");
      RenameFirst(a[1..], b, d);
      assert a + ("cpu" + (d + Rename(b, d))) == [a[0]] + (a[1..] + ("cpu" + (d + Rename(b, d))));
    }
  }

  lemma {:induction false} RenameNone(s: string, d: string)
    requires !HasCpu(s)
    ensures Rename(s, d) == s
  {
    if s != [] {
      RenameNone(s[1..], d);
    }
  }

  lemma {:induction false} RenameKeepsCpu(s: string, d: string)
    requires HasCpu(s)
    ensures HasCpu(Rename(s, d))
  {
    if !StartsCpu(s) {
      RenameKeepsCpu(s[1..], d);
      assert Rename(s, d)[1..] == Rename(s[1..], d);
    }
  }

  /** The number all checkpoints' tags are padded to: the digits of the last index. */
  function Width(count: nat): nat {
    if count == 0 then 0 else |Decimal(count - 1)|
  }

  lemma {:induction false} ZfillWidth(i: nat, count: nat)
    requires i < count
    ensures |Zfill(i, Width(count))| == Width(count)
  {
    DecimalLength(i, count - 1);
  }

  /**
   Renamed CPU sections never collide: two of them have the same name only if they are the same
   section of the same checkpoint.
   */
  lemma {:induction false} SectionNamesDistinct(count: nat, i: nat, s: string, j: nat, t: string)
    requires i < count && j < count && HasCpu(s) && HasCpu(t)
    requires Rename(s, Zfill(i, Width(count))) == Rename(t, Zfill(j, Width(count)))
    ensures i == j && s == t
  {
    ZfillWidth(i, count);
    ZfillWidth(j, count);
    RenameInverse(s, Zfill(i, Width(count)));
    RenameInverse(t, Zfill(j, Width(count)));
    ZfillInjective(i, j, Width(count));
  }

  // ---------------------------------------------------------------- sections

  /** A configuration item: `paddr`, `M5_pid`, or any other. */
  datatype Item = Paddr(addr: int) | Plain(key: string, value: string) | Pid(pid: nat)

  datatype Section = Section(name: string, items: seq<Item>)

  /** The items of a CPU section, with physical addresses moved up by `pages` pages. */
  function MoveItems(items: seq<Item>, pages: nat): (r: seq<Item>)
    ensures |r| == |items|
    ensures forall k :: 0 <= k < |items| ==>
              r[k] == if items[k].Paddr? then Paddr(items[k].addr + pages * PAGE) else items[k]
  {
    if items == [] then []
    else [if items[0].Paddr? then Paddr(items[0].addr + pages * PAGE) else items[0]] + MoveItems(items[1..], pages)
  }

  /** The name ends in "workload.FdMap256", with any character for the dot. */
  predicate IsFdMap(name: string) {
    |name| >= 17 && name[|name| - 17..][..8] == "workload" && name[|name| - 8..] == "FdMap256"
  }

  /** Sets `M5_pid`, in its place if there is one. */
  function SetPid(items: seq<Item>, pid: nat): (r: seq<Item>)
    ensures Pid(pid) in r
    ensures |items| <= |r| <= |items| + 1
    ensures forall k :: 0 <= k < |items| && !items[k].Pid? ==> r[k] == items[k]
    ensures |r| == |items| <==> exists k :: 0 <= k < |items| && items[k].Pid?
  {
    if items == [] then [Pid(pid)]
    else if items[0].Pid? then [Pid(pid)] + items[1..]
    else [items[0]] + SetPid(items[1..], pid)
  }

  function MoveSection(sec: Section, i: nat, count: nat, pages: nat): Section {
    Section(Rename(sec.name, Zfill(i, Width(count))),
            if IsFdMap(sec.name) then SetPid(MoveItems(sec.items, pages), i) else MoveItems(sec.items, pages))
  }

  /** The sections that checkpoint `i` contributes: its CPUs, and from the last one everything else. */
  function Contribution(secs: seq<Section>, i: nat, count: nat, pages: nat): seq<Section> {
    if secs == [] then []
    else
      var rest := Contribution(secs[1..], i, count, pages);
      var sec := secs[0];
      if HasCpu(sec.name) then [MoveSection(sec, i, count, pages)] + rest
      else if sec.name == "system" || sec.name == "Globals" then rest
      else if i == count - 1 then [sec] + rest
      else rest
  }

  lemma {:induction false} ContributionHolds(secs: seq<Section>, i: nat, count: nat, pages: nat, sec: Section)
    requires sec in secs && HasCpu(sec.name)
    ensures MoveSection(sec, i, count, pages) in Contribution(secs, i, count, pages)
  {
    if secs[0] != sec {
      ContributionHolds(secs[1..], i, count, pages, sec);
    }
  }

  /**
   Addresses keep their meaning: wherever a CPU section of checkpoint `i` pointed into its own
   pages, the moved section points at the byte with the same content in the merged image.
   */
  lemma {:induction false} PointersPreserved(ms: seq<Memory>, secs: seq<Section>, i: nat, sec: Section, k: nat)
    requires i < |ms| && sec in secs && HasCpu(sec.name) && k < |sec.items|
    requires sec.items[k].Paddr? && 0 <= sec.items[k].addr < ms[i].pages * PAGE
    requires sec.items[k].addr < |ms[i].image| && forall j :: 0 <= j < i ==> Full(ms[j])
    ensures var moved := MoveSection(sec, i, |ms|, Offset(ms, i));
            && moved in Contribution(secs, i, |ms|, Offset(ms, i))
            && k < |moved.items| && moved.items[k].Paddr? && 0 <= moved.items[k].addr < |Merged(ms, |ms|)|
            && Merged(ms, |ms|)[moved.items[k].addr] == ms[i].image[sec.items[k].addr]
  {
    ContributionHolds(secs, i, |ms|, Offset(ms, i), sec);
    MemoryPreserved(ms, i, sec.items[k].addr);
  }

  /** The section loop of one checkpoint. */
  method MergeSections(secs: seq<Section>, i: nat, count: nat, pages: nat) returns (out: seq<Section>)
    ensures out == Contribution(secs, i, count, pages)
  {
    out := [];
    var n := 0;
    assert secs[0..] == secs;
    while n < |secs|
      invariant 0 <= n <= |secs|
      invariant Contribution(secs, i, count, pages) == out + Contribution(secs[n..], i, count, pages)
    {
      var sec := secs[n];
      assert secs[n..][1..] == secs[n + 1..];
      ghost var rest := Contribution(secs[n + 1..], i, count, pages);
      if HasCpu(sec.name) {
        ConcatAssociative(out, [MoveSection(sec, i, count, pages)], rest);
        out := out + [MoveSection(sec, i, count, pages)];
      } else if sec.name != "system" && sec.name != "Globals" && i == count - 1 {
        ConcatAssociative(out, [sec], rest);
        out := out + [sec];
      }
      n := n + 1;
    }
  }

  // ---------------------------------------------------------------- the merged configuration

  /** The sections taken over from the first `n` checkpoints. */
  function Config(ms: seq<Memory>, cs: seq<seq<Section>>, n: nat): seq<Section>
    requires |ms| == |cs| && n <= |cs|
  {
    if n == 0 then []
    else Config(ms, cs, n - 1) + Contribution(cs[n - 1], n - 1, |cs|, Offset(ms, n - 1))
  }

  /** The loop over the checkpoints, with `page_ptr`. */
  method MergeConfigs(ms: seq<Memory>, cs: seq<seq<Section>>) returns (out: seq<Section>)
    requires |ms| == |cs|
    ensures out == Config(ms, cs, |cs|)
  {
    out := [];
    var pagePtr := 0;
    for i := 0 to |cs|
      invariant pagePtr == Offset(ms, i)
      invariant out == Config(ms, cs, i)
    {
      var secs := MergeSections(cs[i], i, |cs|, pagePtr);
      out := out + secs;
      pagePtr := pagePtr + ms[i].pages;
    }
  }

  /** `x` is a section with "cpu" of these, moved. */
  ghost predicate FromCpu(secs: seq<Section>, i: nat, count: nat, pages: nat, x: Section) {
    exists k :: 0 <= k < |secs| && HasCpu(secs[k].name) && x == MoveSection(secs[k], i, count, pages)
  }

  /** `x` is one of the sections that only the last checkpoint gives. */
  ghost predicate Shared(secs: seq<Section>, x: Section) {
    x in secs && !HasCpu(x.name) && x.name != "system" && x.name != "Globals"
  }

  lemma {:induction false} ContributionMembers(secs: seq<Section>, i: nat, count: nat, pages: nat, x: Section)
    ensures x in Contribution(secs, i, count, pages)
       <==> FromCpu(secs, i, count, pages, x) || (i == count - 1 && Shared(secs, x))
  {
    if secs != [] {
      ContributionMembers(secs[1..], i, count, pages, x);
      assert secs == [secs[0]] + secs[1..];
      if FromCpu(secs[1..], i, count, pages, x) {
        var k :| 0 <= k < |secs| - 1 && HasCpu(secs[1..][k].name) && x == MoveSection(secs[1..][k], i, count, pages);
        assert secs[k + 1] == secs[1..][k];
      }
      if FromCpu(secs, i, count, pages, x) && !(HasCpu(secs[0].name) && x == MoveSection(secs[0], i, count, pages)) {
        var k :| 0 <= k < |secs| && HasCpu(secs[k].name) && x == MoveSection(secs[k], i, count, pages);
        assert secs[1..][k - 1] == secs[k];
      }
    }
  }

  lemma {:induction false} ConfigMembers(ms: seq<Memory>, cs: seq<seq<Section>>, n: nat, x: Section)
    requires |ms| == |cs| && n <= |cs|
    ensures x in Config(ms, cs, n)
       <==> || (exists i :: 0 <= i < n && FromCpu(cs[i], i, |cs|, Offset(ms, i), x))
            || (0 < n == |cs| && Shared(cs[n - 1], x))
  {
    if n > 0 {
      ConfigMembers(ms, cs, n - 1, x);
      ContributionMembers(cs[n - 1], n - 1, |cs|, Offset(ms, n - 1), x);
    }
  }

  /**
   What the merged configuration holds. A section without "cpu" is there, unchanged, exactly if
   it is in the last checkpoint and is neither system nor Globals. A section with "cpu" is there
   exactly if it is one of some checkpoint, moved.
   */
  lemma {:induction false} ConfigHolds(ms: seq<Memory>, cs: seq<seq<Section>>, x: Section)
    requires |ms| == |cs| > 0
    ensures !HasCpu(x.name) ==>
              (x in Config(ms, cs, |cs|) <==> x in cs[|cs| - 1] && x.name != "system" && x.name != "Globals")
    ensures HasCpu(x.name) ==>
              (x in Config(ms, cs, |cs|) <==> exists i :: 0 <= i < |cs| && FromCpu(cs[i], i, |cs|, Offset(ms, i), x))
  {
    ConfigMembers(ms, cs, |cs|, x);
    forall i | 0 <= i < |cs| && FromCpu(cs[i], i, |cs|, Offset(ms, i), x) ensures HasCpu(x.name) {
      MovedHasCpu(cs[i], i, |cs|, Offset(ms, i), x);
    }
  }

  lemma {:induction false} MovedHasCpu(secs: seq<Section>, i: nat, count: nat, pages: nat, x: Section)
    requires FromCpu(secs, i, count, pages, x)
    ensures HasCpu(x.name)
  {
    var k :| 0 <= k < |secs| && HasCpu(secs[k].name) && x == MoveSection(secs[k], i, count, pages);
    RenameKeepsCpu(secs[k].name, Zfill(i, Width(count)));
  }

  /** A file descriptor map is given the number of its checkpoint as process id. */
  lemma {:induction false} FdMapHasPid(p: string, items: seq<Item>, i: nat, count: nat, pages: nat)
    ensures Pid(i) in MoveSection(Section(p + "workload.FdMap256", items), i, count, pages).items
  {
    var name := p + "workload.FdMap256";
    assert name[|name| - 17..] == "workload.FdMap256";
    assert "workload.FdMap256"[..8] == "workload" && name[|name| - 8..] == "FdMap256";
  }

  // ---------------------------------------------------------------- no section twice

  ghost predicate DistinctNames(secs: seq<Section>) {
    forall a, b :: 0 <= a < b < |secs| ==> secs[a].name != secs[b].name
  }

  ghost predicate NamesApart(xs: seq<Section>, ys: seq<Section>) {
    forall x, y :: x in xs && y in ys ==> x.name != y.name
  }

  lemma {:induction false} DistinctConcat(xs: seq<Section>, ys: seq<Section>)
    requires DistinctNames(xs) && DistinctNames(ys) && NamesApart(xs, ys)
    ensures DistinctNames(xs + ys)
  {
  }

  /** Two sections of one checkpoint are not taken over under the same name. */
  lemma {:induction false} NamesStayApart(sec: Section, rest: seq<Section>, i: nat, count: nat, pages: nat, y: Section)
    requires i < count && forall k :: 0 <= k < |rest| ==> rest[k].name != sec.name
    requires y in Contribution(rest, i, count, pages)
    ensures HasCpu(sec.name) ==> Rename(sec.name, Zfill(i, Width(count))) != y.name
    ensures !HasCpu(sec.name) ==> sec.name != y.name
  {
    ContributionMembers(rest, i, count, pages, y);
    if FromCpu(rest, i, count, pages, y) {
      var k :| 0 <= k < |rest| && HasCpu(rest[k].name) && y == MoveSection(rest[k], i, count, pages);
      RenameKeepsCpu(rest[k].name, Zfill(i, Width(count)));
      if HasCpu(sec.name) && Rename(sec.name, Zfill(i, Width(count))) == y.name {
        SectionNamesDistinct(count, i, sec.name, i, rest[k].name);
      }
    } else if HasCpu(sec.name) {
      RenameKeepsCpu(sec.name, Zfill(i, Width(count)));
    }
  }

  lemma {:induction false} ContributionDistinct(secs: seq<Section>, i: nat, count: nat, pages: nat)
    requires i < count && DistinctNames(secs)
    ensures DistinctNames(Contribution(secs, i, count, pages))
  {
    if secs != [] {
      var sec, rest := secs[0], secs[1..];
      var out := Contribution(rest, i, count, pages);
      ContributionDistinct(rest, i, count, pages);
      forall y | y in out
        ensures HasCpu(sec.name) ==> MoveSection(sec, i, count, pages).name != y.name
        ensures !HasCpu(sec.name) ==> sec.name != y.name
      {
        NamesStayApart(sec, rest, i, count, pages, y);
      }
      if HasCpu(sec.name) {
        DistinctConcat([MoveSection(sec, i, count, pages)], out);
      } else {
        DistinctConcat([sec], out);
      }
    }
  }

  /** Sections of two checkpoints are not taken over under the same name. */
  lemma {:induction false} CheckpointsApart(ms: seq<Memory>, cs: seq<seq<Section>>, n: nat, x: Section, y: Section)
    requires |ms| == |cs| && n < |cs|
    requires x in Config(ms, cs, n) && y in Contribution(cs[n], n, |cs|, Offset(ms, n))
    ensures x.name != y.name
  {
    ConfigMembers(ms, cs, n, x);
    ContributionMembers(cs[n], n, |cs|, Offset(ms, n), y);
    var i :| 0 <= i < n && FromCpu(cs[i], i, |cs|, Offset(ms, i), x);
    MovedHasCpu(cs[i], i, |cs|, Offset(ms, i), x);
    if FromCpu(cs[n], n, |cs|, Offset(ms, n), y) && x.name == y.name {
      var k :| 0 <= k < |cs[i]| && HasCpu(cs[i][k].name) && x == MoveSection(cs[i][k], i, |cs|, Offset(ms, i));
      var l :| 0 <= l < |cs[n]| && HasCpu(cs[n][l].name) && y == MoveSection(cs[n][l], n, |cs|, Offset(ms, n));
      SectionNamesDistinct(|cs|, i, cs[i][k].name, n, cs[n][l].name);
    }
  }

  /** The merged configuration has no section twice, if no checkpoint has. */
  lemma {:induction false} ConfigDistinct(ms: seq<Memory>, cs: seq<seq<Section>>, n: nat)
    requires |ms| == |cs| && n <= |cs| && forall i :: 0 <= i < |cs| ==> DistinctNames(cs[i])
    ensures DistinctNames(Config(ms, cs, n))
  {
    if n > 0 {
      ConfigDistinct(ms, cs, n - 1);
      ContributionDistinct(cs[n - 1], n - 1, |cs|, Offset(ms, n - 1));
      forall x, y | x in Config(ms, cs, n - 1) && y in Contribution(cs[n - 1], n - 1, |cs|, Offset(ms, n - 1))
        ensures x.name != y.name
      {
        CheckpointsApart(ms, cs, n - 1, x, y);
      }
      DistinctConcat(Config(ms, cs, n - 1), Contribution(cs[n - 1], n - 1, |cs|, Offset(ms, n - 1)));
    }
  }
}
