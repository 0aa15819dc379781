/**
 The timeline of one instruction in the O3 pipeline viewer (util/o3-pipeview.py,
 `print_inst`): stage ticks are wrapped into lines of `width` cells of `cycle` ticks,
 and a timeline shorter than one line is folded onto a single line.

 Colours and the labels after the closing bracket are not part of the model.
 */
module Timeline {
  import opened Arithmetic
  import opened Sequences
  import opened Sorting
  import opened PipeQueue
  import opened Results
  import opened Text

  /** Stage ticks in drawing order: fetch, decode, rename, dispatch, issue, complete, retire[, store]. */
  type Ticks = t: seq<int> | |t| == 7 || |t| == 8 witness [0, 0, 0, 0, 0, 0, 0]

  const FETCH := 0
  const DISPATCH := 3
  const ISSUE := 4
  const RETIRE := 6

  /** One shorthand per stage, by its position. */
  const SHORTHANDS := "fdnpicrs"

  /** The keys that drawing an instruction looks up; a missing one is a KeyError. */
  predicate Drawable(i: Inst, store: bool) {
    {Decode, Rename, Dispatch, Issue, Complete} + (if store then {Store} else {}) <= i.mids.Keys
  }

  function TicksOf(i: Inst, store: bool): Ticks
    requires Drawable(i, store)
  {
    [i.fetch, i.mids[Decode], i.mids[Rename], i.mids[Dispatch], i.mids[Issue], i.mids[Complete], i.retire]
    + (if store then [i.mids[Store]] else [])
  }

  datatype Event = Event(idx: nat, tick: int)

  // ---------------------------------------------------------------- window arithmetic

  function Largest(s: seq<int>): (m: int)
    requires s != []
    ensures m in s && forall i :: 0 <= i < |s| ==> s[i] <= m
  {
    if |s| == 1 then s[0]
    else
      var m := Largest(s[1..]);
      if s[0] >= m then s[0] else m
  }

  function Base(t: Ticks, tw: int): int
    requires tw > 0
  {
    t[FETCH] / tw * tw
  }

  function NumLines(t: Ticks, tw: int): int
    requires tw > 0
  {
    if Largest(t) - t[FETCH] < tw then 1 else (Largest(t) - Base(t, tw)) / tw + 1
  }

  predicate InWindow(t: Ticks, tw: int, line: int, tick: int)
    requires tw > 0
  {
    var start := Base(t, tw) + line * tw;
    var end := start + tw + (if NumLines(t, tw) == 1 then t[FETCH] - Base(t, tw) else 0);
    start <= tick < end
  }

  lemma {:induction false} BaseBelowFetch(t: Ticks, tw: int)
    requires tw > 0
    ensures Base(t, tw) <= t[FETCH] < Base(t, tw) + tw
  {
  }

  /** One line is used exactly when the whole timeline is shorter than a line. */
  lemma {:induction false} OneLineIffCompact(t: Ticks, tw: int)
    requires tw > 0
    ensures NumLines(t, tw) >= 1
    ensures NumLines(t, tw) == 1 <==> Largest(t) - t[FETCH] < tw
  {
    if Largest(t) - t[FETCH] >= tw {
      BaseBelowFetch(t, tw);
      DivMonotone(tw, Largest(t) - Base(t, tw), tw);
    }
  }

  /** The line that shows a tick. */
  function LineOf(t: Ticks, tw: int, tick: int): int
    requires tw > 0
  {
    if NumLines(t, tw) == 1 then 0 else (tick - Base(t, tw)) / tw
  }

  /** No tick from the fetch on is lost or shown twice: exactly one line's window holds it. */
  lemma {:induction false} ExactlyOneWindow(t: Ticks, tw: int, k: nat, line: int)
    requires tw > 0 && k < |t| && t[FETCH] <= t[k]
    requires 0 <= line < NumLines(t, tw)
    ensures 0 <= LineOf(t, tw, t[k]) < NumLines(t, tw)
    ensures InWindow(t, tw, line, t[k]) <==> line == LineOf(t, tw, t[k])
  {
    OneLineIffCompact(t, tw);
    BaseBelowFetch(t, tw);
    var d := t[k] - Base(t, tw);
    DivMonotone(0, d, tw);
    DivMonotone(d, Largest(t) - Base(t, tw), tw);
    DivIsTheOnly(d, tw, line);
  }

  // ---------------------------------------------------------------- one line

  /** The position of a stage name in alphabetical order, the tie-breaker of the event sort. */
  function NameRank(idx: nat): (r: nat)
    ensures r < 8
  {
    if idx < 8 then [3, 1, 5, 2, 4, 0, 6, 7][idx] else 0
  }

  /** The stage names, by their position. */
  const NAMES := ["fetch", "decode", "rename", "dispatch", "issue", "complete", "retire", "store"]

  lemma {:induction false} SharedInitials()
    ensures Less("decode", "dispatch") && Less("rename", "retire")
  {
    assert Less("ecode", "ispatch") && Less("name", "tire");
    assert "decode"[1..] == "ecode" && "dispatch"[1..] == "ispatch";
    assert "ename"[1..] == "name" && "etire"[1..] == "tire";
    assert "rename"[1..] == "ename" && "retire"[1..] == "etire";
  }

  /** The rank is the order of the names as strings. */
  lemma {:induction false} RankIsAlphabetical(i: nat, j: nat)
    requires i < 8 && j < 8 && NameRank(i) < NameRank(j)
    ensures Less(NAMES[i], NAMES[j])
  {
    SharedInitials();
    if (i == 1 && j == 3) || (i == 2 && j == 6) {
    } else {
      assert NAMES[i][0] < NAMES[j][0];
    }
  }

  /** Orders events like the tuples (tick modulo the line, stage name). */
  function EventKey(tw: int): (f: Event -> int)
    requires tw > 0
    ensures forall e :: f(e) == e.tick % tw * 8 + NameRank(e.idx)
  {
    (e: Event) => e.tick % tw * 8 + NameRank(e.idx)
  }

  /** The events of a line, from stage `k` on, in stage order. */
  function Gather(t: Ticks, tw: int, line: int, k: nat): (es: seq<Event>)
    requires tw > 0 && k <= |t|
    ensures forall e :: e in es <==> k <= e.idx < |t| && e.tick == t[e.idx] != 0 && InWindow(t, tw, line, e.tick)
    decreases |t| - k
  {
    if k == |t| then []
    else if t[k] != 0 && InWindow(t, tw, line, t[k]) then [Event(k, t[k])] + Gather(t, tw, line, k + 1)
    else Gather(t, tw, line, k + 1)
  }

  /** A dispatch that issued in the same tick is not drawn. */
  predicate Drawn(t: Ticks, e: Event) {
    !(e.idx == DISPATCH && t[DISPATCH] == t[ISSUE])
  }

  function DrawnOnly(t: Ticks, es: seq<Event>): (r: seq<Event>)
    ensures forall e :: e in r <==> e in es && Drawn(t, e)
  {
    if es == [] then []
    else if Drawn(t, es[0]) then [es[0]] + DrawnOnly(t, es[1..])
    else DrawnOnly(t, es[1..])
  }

  function Events(t: Ticks, tw: int, line: int): seq<Event>
    requires tw > 0
  {
    Sort(Gather(t, tw, line, 0), EventKey(tw))
  }

  function Column(e: Event, tw: int, cycle: int): int
    requires tw > 0 && cycle > 0
  {
    e.tick % tw / cycle
  }

  function Repeat(c: char, n: int): (s: string)
    ensures |s| == if n < 0 then 0 else n
    ensures forall i :: 0 <= i < |s| ==> s[i] == c
  {
    if n <= 0 then "" else [c] + Repeat(c, n - 1)
  }

  function Shorthand(e: Event): char {
    if e.idx < 8 then SHORTHANDS[e.idx] else '?'
  }

  /** The cells of a line from `pos` on: for each event, dots up to its column and its shorthand. */
  function Cells(es: seq<Event>, pos: int, width: int, cycle: int, tw: int, dot: char): string
    requires tw > 0 && cycle > 0
  {
    if es == [] then Repeat(dot, width - pos)
    else
      var col := Column(es[0], tw, cycle);
      Repeat(dot, col - pos) + [Shorthand(es[0])] + Cells(es[1..], col + 1, width, cycle, tw, dot)
  }

  /** The columns do not decrease and lie in `[from, width)`. */
  ghost predicate Ascending(es: seq<Event>, from: int, width: int, cycle: int, tw: int)
    requires tw > 0 && cycle > 0
  {
    && (forall i :: 0 <= i < |es| ==> from <= Column(es[i], tw, cycle) < width)
    && (forall i, j :: 0 <= i < j < |es| ==> Column(es[i], tw, cycle) <= Column(es[j], tw, cycle))
  }

  ghost predicate DistinctColumns(es: seq<Event>, cycle: int, tw: int)
    requires tw > 0 && cycle > 0
  {
    forall i, j :: 0 <= i < j < |es| ==> Column(es[i], tw, cycle) != Column(es[j], tw, cycle)
  }

  /** How many events repeat the column of the event in front of them. */
  function Crowding(es: seq<Event>, cycle: int, tw: int): nat
    requires tw > 0 && cycle > 0
  {
    if |es| <= 1 then 0
    else (if Column(es[0], tw, cycle) == Column(es[1], tw, cycle) then 1 else 0) + Crowding(es[1..], cycle, tw)
  }

  /** The first event takes the dots in front of it and one cell. */
  lemma {:induction false} CellsHead(es: seq<Event>, pos: int, width: int, cycle: int, tw: int, dot: char)
    requires tw > 0 && cycle > 0 && es != []
    ensures var col := Column(es[0], tw, cycle);
            |Cells(es, pos, width, cycle, tw, dot)|
            == (if col < pos then 0 else col - pos) + 1 + |Cells(es[1..], col + 1, width, cycle, tw, dot)|
  {
  }

  lemma {:induction false} AscendingRest(es: seq<Event>, from: int, rest: int, width: int, cycle: int, tw: int)
    requires tw > 0 && cycle > 0 && es != [] && Ascending(es, from, width, cycle, tw)
    requires |es| > 1 ==> rest <= Column(es[1], tw, cycle)
    ensures Ascending(es[1..], rest, width, cycle, tw)
  {
    var tail := es[1..];
    forall i | 0 <= i < |tail| ensures rest <= Column(tail[i], tw, cycle) < width {
      assert tail[i] == es[i + 1];
      assert i > 0 ==> Column(es[1], tw, cycle) <= Column(es[i + 1], tw, cycle);
    }
    forall i, j | 0 <= i < j < |tail| ensures Column(tail[i], tw, cycle) <= Column(tail[j], tw, cycle) {
      assert tail[i] == es[i + 1] && tail[j] == es[j + 1];
    }
  }

  lemma {:induction false} CellsLength(es: seq<Event>, pos: int, width: int, cycle: int, tw: int, dot: char)
    requires tw > 0 && cycle > 0 && pos <= width
    requires Ascending(es, pos, width, cycle, tw)
    ensures |Cells(es, pos, width, cycle, tw, dot)| == width - pos + Crowding(es, cycle, tw)
    decreases |es|, 1
  {
    if es != [] {
      CellsHead(es, pos, width, cycle, tw, dot);
      LengthBehind(es, pos, width, cycle, tw, dot);
    }
  }

  /** After an event in column `c` the position is `c + 1`; an event again in column `c` adds a cell. */
  lemma {:induction false} LengthBehind(es: seq<Event>, from: int, width: int, cycle: int, tw: int, dot: char)
    requires tw > 0 && cycle > 0 && es != [] && Ascending(es, from, width, cycle, tw)
    ensures var col := Column(es[0], tw, cycle);
            |Cells(es[1..], col + 1, width, cycle, tw, dot)| == width - (col + 1) + Crowding(es, cycle, tw)
    decreases |es|, 0
  {
    var col := Column(es[0], tw, cycle);
    if |es| == 1 || Column(es[1], tw, cycle) > col {
      AscendingRest(es, from, col + 1, width, cycle, tw);
      CellsLength(es[1..], col + 1, width, cycle, tw, dot);
    } else {
      AscendingRest(es, from, col, width, cycle, tw);
      CellsHead(es[1..], col + 1, width, cycle, tw, dot);
      LengthBehind(es[1..], col, width, cycle, tw, dot);
    }
  }

  lemma {:induction false} CrowdingZero(es: seq<Event>, from: int, width: int, cycle: int, tw: int)
    requires tw > 0 && cycle > 0
    requires Ascending(es, from, width, cycle, tw)
    ensures Crowding(es, cycle, tw) == 0 <==> DistinctColumns(es, cycle, tw)
  {
    if |es| > 1 {
      CrowdingZero(es[1..], from, width, cycle, tw);
      if DistinctColumns(es[1..], cycle, tw) && Column(es[0], tw, cycle) != Column(es[1], tw, cycle) {
        forall i, j | 0 <= i < j < |es| ensures Column(es[i], tw, cycle) != Column(es[j], tw, cycle) {
          if i > 0 {
            assert es[i] == es[1..][i - 1] && es[j] == es[1..][j - 1];
          }
        }
      }
      if DistinctColumns(es, cycle, tw) {
        forall i, j | 0 <= i < j < |es[1..]| ensures Column(es[1..][i], tw, cycle) != Column(es[1..][j], tw, cycle) {
          assert es[1..][i] == es[i + 1] && es[1..][j] == es[j + 1];
        }
      }
    }
  }

  lemma {:induction false} OnlyFirstAt(es: seq<Event>, c: int, from: int, width: int, cycle: int, tw: int)
    requires tw > 0 && cycle > 0 && es != []
    requires Ascending(es, from, width, cycle, tw) && DistinctColumns(es, cycle, tw)
    requires c <= Column(es[0], tw, cycle)
    ensures forall e :: e in es && Column(e, tw, cycle) == c ==> e == es[0]
  {
  }

  /** Behind the first event, column `c` of the line is decided by the remaining events. */
  lemma {:induction false} CellsBehind(es: seq<Event>, pos: int, width: int, cycle: int, tw: int, dot: char, c: int)
    requires tw > 0 && cycle > 0 && es != [] && pos <= Column(es[0], tw, cycle) < width && pos <= c < width
    ensures var col := Column(es[0], tw, cycle);
            var all, rest := Cells(es, pos, width, cycle, tw, dot), Cells(es[1..], col + 1, width, cycle, tw, dot);
            && |all| == col + 1 - pos + |rest|
            && (c < col ==> all[c - pos] == dot)
            && (c == col ==> all[c - pos] == Shorthand(es[0]))
            && (col < c < col + 1 + |rest| ==> all[c - pos] == rest[c - (col + 1)])
  {
  }

  /** With distinct columns every event is drawn at its own column and dots fill the rest. */
  lemma {:induction false} CellsPlaced(es: seq<Event>, pos: int, width: int, cycle: int, tw: int, dot: char, c: int)
    requires tw > 0 && cycle > 0 && pos <= c < width
    requires Ascending(es, pos, width, cycle, tw) && DistinctColumns(es, cycle, tw)
    ensures |Cells(es, pos, width, cycle, tw, dot)| == width - pos
    ensures forall e :: e in es && Column(e, tw, cycle) == c
                        ==> Cells(es, pos, width, cycle, tw, dot)[c - pos] == Shorthand(e)
    ensures (forall e :: e in es ==> Column(e, tw, cycle) != c) ==>
              Cells(es, pos, width, cycle, tw, dot)[c - pos] == dot
  {
    CrowdingZero(es, pos, width, cycle, tw);
    CellsLength(es, pos, width, cycle, tw, dot);
    if es != [] {
      var col := Column(es[0], tw, cycle);
      CellsBehind(es, pos, width, cycle, tw, dot, c);
      if c > col {
        CellsPlaced(es[1..], col + 1, width, cycle, tw, dot, c);
      } else {
        OnlyFirstAt(es, c, pos, width, cycle, tw);
      }
    }
  }

  lemma {:induction false} EventPlaced(es: seq<Event>, e: Event, width: int, cycle: int, tw: int, dot: char)
    requires tw > 0 && cycle > 0 && e in es
    requires Ascending(es, 0, width, cycle, tw) && DistinctColumns(es, cycle, tw)
    ensures 0 <= Column(e, tw, cycle) < width == |Cells(es, 0, width, cycle, tw, dot)|
    ensures Cells(es, 0, width, cycle, tw, dot)[Column(e, tw, cycle)] == Shorthand(e)
  {
    CellsPlaced(es, 0, width, cycle, tw, dot, Column(e, tw, cycle));
  }

  // ---------------------------------------------------------------- all lines

  /** The ticks that one line covers. */
  function LineTicks(width: int, cycle: int): (tw: int)
    requires width > 0 && cycle > 0
    ensures tw > 0
  {
    width * cycle
  }

  /** The events a line draws, in drawing order. */
  function DrawnIn(t: Ticks, tw: int, line: int): seq<Event>
    requires tw > 0
  {
    DrawnOnly(t, Events(t, tw, line))
  }

  /** Abandoned instructions, with no retire tick, are drawn with '='. */
  function Dot(t: Ticks): char {
    if t[RETIRE] == 0 then '=' else '.'
  }

  function Row(t: Ticks, line: int, width: int, cycle: int): string
    requires width > 0 && cycle > 0
  {
    Cells(DrawnIn(t, LineTicks(width, cycle), line), 0, width, cycle, LineTicks(width, cycle), Dot(t))
  }

  function RowAt(t: Ticks, width: int, cycle: int): int -> string
    requires width > 0 && cycle > 0
  {
    line => Row(t, line, width, cycle)
  }

  function Tabulate(f: int -> string, n: nat): (r: seq<string>)
    ensures |r| == n && forall i :: 0 <= i < n ==> r[i] == f(i)
  {
    if n == 0 then [] else Tabulate(f, n - 1) + [f(n - 1)]
  }

  function Rows(t: Ticks, n: nat, width: int, cycle: int): seq<string>
    requires width > 0 && cycle > 0
  {
    Tabulate(RowAt(t, width, cycle), n)
  }

  /** All rows, or None where the compact form finds no event to start from. */
  function Render(t: Ticks, width: int, cycle: int): Option<seq<string>>
    requires width > 0 && cycle > 0
  {
    var tw := LineTicks(width, cycle);
    if NumLines(t, tw) == 1 && Events(t, tw, 0) == [] then None
    else OneLineIffCompact(t, tw); Some(Rows(t, NumLines(t, tw), width, cycle))
  }

  lemma {:induction false} DrawnSorted(t: Ticks, es: seq<Event>, key: Event -> int)
    requires SortedBy(es, key)
    ensures SortedBy(DrawnOnly(t, es), key)
  {
    if es != [] {
      DrawnSorted(t, es[1..], key);
      var r := DrawnOnly(t, es[1..]);
      forall j | 0 <= j < |r| ensures key(es[0]) <= key(r[j]) {
        assert r[j] in es[1..];
      }
    }
  }

  lemma {:induction false} EventsMembers(t: Ticks, tw: int, line: int, e: Event)
    requires tw > 0
    ensures e in Events(t, tw, line) <==> e.idx < |t| && e.tick == t[e.idx] != 0 && InWindow(t, tw, line, e.tick)
    ensures e in DrawnIn(t, tw, line) <==> e in Events(t, tw, line) && Drawn(t, e)
  {
    var g := Gather(t, tw, line, 0);
    assert e in multiset(Sort(g, EventKey(tw))) <==> e in multiset(g);
  }

  lemma {:induction false} ColumnInLine(e: Event, width: int, cycle: int)
    requires width > 0 && cycle > 0
    ensures 0 <= Column(e, LineTicks(width, cycle), cycle) < width
  {
    DivBound(e.tick % LineTicks(width, cycle), width, cycle);
  }

  lemma {:induction false} ColumnsFollowKey(a: Event, b: Event, tw: int, cycle: int)
    requires tw > 0 && cycle > 0
    requires EventKey(tw)(a) <= EventKey(tw)(b)
    ensures Column(a, tw, cycle) <= Column(b, tw, cycle)
  {
    assert a.tick % tw <= b.tick % tw;
    DivMonotone(a.tick % tw, b.tick % tw, cycle);
  }

  lemma {:induction false} DrawnAscending(t: Ticks, line: int, width: int, cycle: int)
    requires width > 0 && cycle > 0
    ensures Ascending(DrawnIn(t, LineTicks(width, cycle), line), 0, width, cycle, LineTicks(width, cycle))
  {
    var tw := LineTicks(width, cycle);
    var es := DrawnIn(t, tw, line);
    var key := EventKey(tw);
    SortSorted(Gather(t, tw, line, 0), key);
    DrawnSorted(t, Events(t, tw, line), key);
    forall i | 0 <= i < |es| ensures 0 <= Column(es[i], tw, cycle) < width {
      ColumnInLine(es[i], width, cycle);
    }
    forall i, j | 0 <= i < j < |es| ensures Column(es[i], tw, cycle) <= Column(es[j], tw, cycle) {
      assert key(es[i]) <= key(es[j]);
      ColumnsFollowKey(es[i], es[j], tw, cycle);
    }
  }

  lemma {:induction false} KeyOrder(a: Event, b: Event, tw: int)
    requires tw > 0 && a.idx < 8 && b.idx < 8 && EventKey(tw)(a) <= EventKey(tw)(b)
    ensures || a.tick % tw < b.tick % tw
            || (a.tick % tw == b.tick % tw && (a.idx == b.idx || Less(NAMES[a.idx], NAMES[b.idx])))
  {
    if a.tick % tw >= b.tick % tw {
      assert NameRank(a.idx) <= NameRank(b.idx);
      if NameRank(a.idx) < NameRank(b.idx) {
        RankIsAlphabetical(a.idx, b.idx);
      }
    }
  }

  /** Events are drawn by their place in the line, and events in the same place by the names of their stages. */
  lemma {:induction false} DrawOrder(t: Ticks, tw: int, line: int, i: nat, j: nat)
    requires tw > 0 && i < j < |DrawnIn(t, tw, line)|
    ensures var a, b := DrawnIn(t, tw, line)[i], DrawnIn(t, tw, line)[j];
            && a.idx < |t| && b.idx < |t|
            && (|| a.tick % tw < b.tick % tw
                || (a.tick % tw == b.tick % tw && (a.idx == b.idx || Less(NAMES[a.idx], NAMES[b.idx]))))
  {
    var es, key := DrawnIn(t, tw, line), EventKey(tw);
    SortSorted(Gather(t, tw, line, 0), key);
    DrawnSorted(t, Events(t, tw, line), key);
    EventsMembers(t, tw, line, es[i]);
    EventsMembers(t, tw, line, es[j]);
    assert key(es[i]) <= key(es[j]);
    KeyOrder(es[i], es[j], tw);
  }

  /**
   A line has one cell more than `width` for every drawn event that shares the column of
   its neighbour, so it has exactly `width` cells if and only if the drawn columns differ.
   */
  lemma {:induction false} RowLength(t: Ticks, line: int, width: int, cycle: int)
    requires width > 0 && cycle > 0
    ensures var tw := LineTicks(width, cycle);
            |Row(t, line, width, cycle)| == width + Crowding(DrawnIn(t, tw, line), cycle, tw)
    ensures |Row(t, line, width, cycle)| == width
            <==> DistinctColumns(DrawnIn(t, LineTicks(width, cycle), line), cycle, LineTicks(width, cycle))
  {
    var tw := LineTicks(width, cycle);
    var es := DrawnIn(t, tw, line);
    DrawnAscending(t, line, width, cycle);
    CellsLength(es, 0, width, cycle, tw, Dot(t));
    CrowdingZero(es, 0, width, cycle, tw);
  }

  lemma {:induction false} StageIsDrawn(t: Ticks, k: nat, tw: int)
    requires tw > 0
    requires k < |t| && t[k] != 0 && t[FETCH] <= t[k] && Drawn(t, Event(k, t[k]))
    ensures 0 <= LineOf(t, tw, t[k]) < NumLines(t, tw)
    ensures Event(k, t[k]) in DrawnIn(t, tw, LineOf(t, tw, t[k]))
  {
    OneLineIffCompact(t, tw);
    ExactlyOneWindow(t, tw, k, 0);
    ExactlyOneWindow(t, tw, k, LineOf(t, tw, t[k]));
    EventsMembers(t, tw, LineOf(t, tw, t[k]), Event(k, t[k]));
  }

  /**
   Every stage from the fetch on can be read off the picture: on the one line whose window
   holds its tick, its shorthand stands in column (tick mod line) / cycle, provided the
   drawn columns of that line differ.
   */
  lemma {:induction false} StageIsShown(t: Ticks, k: nat, width: int, cycle: int)
    requires width > 0 && cycle > 0
    requires k < |t| && t[k] != 0 && t[FETCH] <= t[k] && Drawn(t, Event(k, t[k]))
    requires var tw := LineTicks(width, cycle);
             DistinctColumns(DrawnIn(t, tw, LineOf(t, tw, t[k])), cycle, tw)
    ensures var line := LineOf(t, LineTicks(width, cycle), t[k]);
            var col := t[k] % LineTicks(width, cycle) / cycle;
            && 0 <= line < NumLines(t, LineTicks(width, cycle))
            && 0 <= col < width == |Row(t, line, width, cycle)|
            && Row(t, line, width, cycle)[col] == SHORTHANDS[k]
  {
    var tw := LineTicks(width, cycle);
    var line, e := LineOf(t, tw, t[k]), Event(k, t[k]);
    StageIsDrawn(t, k, tw);
    DrawnAscending(t, line, width, cycle);
    EventPlaced(DrawnIn(t, tw, line), e, width, cycle, tw, Dot(t));
  }

  /** And nothing else is drawn: a cell that no drawn stage claims is a dot. */
  lemma {:induction false} RestIsDots(t: Ticks, line: int, c: int, width: int, cycle: int)
    requires width > 0 && cycle > 0 && 0 <= c < width
    requires DistinctColumns(DrawnIn(t, LineTicks(width, cycle), line), cycle, LineTicks(width, cycle))
    requires var tw := LineTicks(width, cycle);
             forall k :: 0 <= k < |t| && t[k] != 0 && InWindow(t, tw, line, t[k]) && Drawn(t, Event(k, t[k])) ==>
                           t[k] % tw / cycle != c
    ensures |Row(t, line, width, cycle)| == width && Row(t, line, width, cycle)[c] == Dot(t)
  {
    var tw := LineTicks(width, cycle);
    var es := DrawnIn(t, tw, line);
    DrawnAscending(t, line, width, cycle);
    forall e | e in es ensures Column(e, tw, cycle) != c {
      EventsMembers(t, tw, line, e);
    }
    CellsPlaced(es, 0, width, cycle, tw, Dot(t), c);
  }

  /**
   Drawing fails exactly on an instruction without a fetch tick and without a later one; as ticks
   are not negative, that is one that never reached any stage.
   */
  lemma {:induction false} RenderFailsIff(t: Ticks, width: int, cycle: int)
    requires width > 0 && cycle > 0
    ensures Render(t, width, cycle) == None <==> t[FETCH] == 0 && forall k :: 0 <= k < |t| ==> t[k] <= 0
    ensures (forall k :: 0 <= k < |t| ==> t[k] >= 0) ==>
              (Render(t, width, cycle) == None <==> forall k :: 0 <= k < |t| ==> t[k] == 0)
  {
    var tw := LineTicks(width, cycle);
    if t[FETCH] != 0 {
      StageIsEvent(t, tw, FETCH);
    } else if k :| 0 <= k < |t| && t[k] > 0 {
      StageIsEvent(t, tw, k);
    } else {
      NoStageNoEvent(t, tw);
    }
  }

  /** In the compact form every stage from the fetch on is on the only line. */
  lemma {:induction false} StageIsEvent(t: Ticks, tw: int, k: nat)
    requires tw > 0 && k < |t| && t[k] != 0 && t[FETCH] <= t[k]
    ensures NumLines(t, tw) == 1 ==> Events(t, tw, 0) != []
  {
    if NumLines(t, tw) == 1 {
      ExactlyOneWindow(t, tw, k, 0);
      EventsMembers(t, tw, 0, Event(k, t[k]));
    }
  }

  lemma {:induction false} WindowFromZero(t: Ticks, tw: int, tick: int)
    requires tw > 0 && t[FETCH] == 0 && tick < 0
    ensures !InWindow(t, tw, 0, tick)
  {
    BaseBelowFetch(t, tw);
    DivModOfSum(0, tw, 0);
  }

  lemma {:induction false} NotAnEvent(t: Ticks, tw: int, e: Event)
    requires tw > 0 && t[FETCH] == 0 && forall k :: 0 <= k < |t| ==> t[k] <= 0
    ensures e !in Events(t, tw, 0)
  {
    EventsMembers(t, tw, 0, e);
    if e.idx < |t| && e.tick == t[e.idx] != 0 {
      WindowFromZero(t, tw, e.tick);
    }
  }

  lemma {:induction false} NoStageNoEvent(t: Ticks, tw: int)
    requires tw > 0 && t[FETCH] == 0 && forall k :: 0 <= k < |t| ==> t[k] <= 0
    ensures NumLines(t, tw) == 1 && Events(t, tw, 0) == []
  {
    OneLineIffCompact(t, tw);
    forall e ensures e !in Events(t, tw, 0) {
      NotAnEvent(t, tw, e);
    }
    NoMembers(Events(t, tw, 0));
  }

  lemma {:induction false} NoMembers(es: seq<Event>)
    requires forall e :: e !in es
    ensures es == []
  {
    HasFirst(es);
  }

  lemma {:induction false} HasFirst(es: seq<Event>)
    ensures es == [] || es[0] in es
  {
  }

  // ---------------------------------------------------------------- reading the picture

  /** All ticks are within a line of the fetch. */
  ghost predicate Compact(t: Ticks, tw: int) {
    forall k :: 0 <= k < |t| ==> t[k] - t[FETCH] < tw
  }

  ghost predicate Reads(rows: seq<string>, line: int, col: int, letter: char) {
    0 <= line < |rows| && 0 <= col < |rows[line]| && rows[line][col] == letter
  }

  lemma {:induction false} CompactIs(t: Ticks, tw: int)
    requires tw > 0
    ensures NumLines(t, tw) == 1 <==> Compact(t, tw)
  {
    OneLineIffCompact(t, tw);
    if Largest(t) - t[FETCH] >= tw {
      var k :| 0 <= k < |t| && t[k] == Largest(t);
    }
  }

  lemma {:induction false} DivMinus(x: int, q: int, tw: int)
    requires tw > 0
    ensures (x - q * tw) / tw == x / tw - q
  {
    assert x - q * tw + q * tw == x;
    ModOfMultiple(x - q * tw, q, tw);
  }

  lemma {:induction false} DivFrom(x: int, f: int, tw: int)
    requires tw > 0
    ensures (x - f / tw * tw) / tw == x / tw - f / tw
  {
    DivMinus(x, f / tw, tw);
  }

  lemma {:induction false} LineIs(t: Ticks, tw: int, x: int)
    requires tw > 0
    ensures LineOf(t, tw, x) == if Compact(t, tw) then 0 else x / tw - t[FETCH] / tw
  {
    CompactIs(t, tw);
    DivFrom(x, t[FETCH], tw);
  }

  lemma {:induction false} RowReads(t: Ticks, width: int, cycle: int, line: int, col: int, letter: char)
    requires width > 0 && cycle > 0 && 0 <= line < NumLines(t, LineTicks(width, cycle))
    requires 0 <= col < |Row(t, line, width, cycle)| && Row(t, line, width, cycle)[col] == letter
    ensures Render(t, width, cycle).Some? ==> Reads(Render(t, width, cycle).value, line, col, letter)
  {
  }

  lemma {:induction false} ShownReads(t: Ticks, k: nat, width: int, cycle: int)
    requires width > 0 && cycle > 0
    requires k < |t| && t[k] != 0 && t[FETCH] <= t[k] && Drawn(t, Event(k, t[k]))
    requires var tw := LineTicks(width, cycle);
             DistinctColumns(DrawnIn(t, tw, LineOf(t, tw, t[k])), cycle, tw)
    ensures Render(t, width, cycle).Some?
    ensures var tw := LineTicks(width, cycle);
            Reads(Render(t, width, cycle).value, LineOf(t, tw, t[k]), t[k] % tw / cycle, "fdnpicrs"[k])
  {
    var tw := LineTicks(width, cycle);
    StageIsShown(t, k, width, cycle);
    RenderFailsIff(t, width, cycle);
    RowReads(t, width, cycle, LineOf(t, tw, t[k]), t[k] % tw / cycle, "fdnpicrs"[k]);
  }

  /** The tick is drawn: it is set, not before the fetch, and its row gives every drawn stage its own column. */
  ghost predicate HasColumn(t: Ticks, cycle: int, tw: int, x: int)
    requires cycle > 0 && tw > 0
  {
    x != 0 && t[FETCH] <= x && DistinctColumns(DrawnIn(t, tw, LineOf(t, tw, x)), cycle, tw)
  }

  /** The picture shows `letter` at the row and column of tick `x`. */
  ghost predicate ShowsAt(t: Ticks, width: int, cycle: int, tw: int, x: int, letter: char)
    requires width > 0 && cycle > 0 && tw > 0
  {
    && Render(t, width, cycle).Some?
    && Reads(Render(t, width, cycle).value,
             if Compact(t, tw) then 0 else x / tw - t[FETCH] / tw, x % tw / cycle, letter)
  }

  /** Where in the picture, and as which letter, a stage is found. */
  lemma {:induction false} StageReads(t: Ticks, k: nat, width: int, cycle: int, tw: int)
    requires width > 0 && cycle > 0 && 0 < tw == width * cycle
    requires k < |t| && HasColumn(t, cycle, tw, t[k]) && Drawn(t, Event(k, t[k]))
    ensures ShowsAt(t, width, cycle, tw, t[k], "fdnpicrs"[k])
  {
    assert LineTicks(width, cycle) == tw;
    ShownReads(t, k, width, cycle);
    LineIs(t, tw, t[k]);
  }

  // ---------------------------------------------------------------- drawing as written

  method DrawLine(t: Ticks, line: int, width: int, cycle: int) returns (row: Option<string>)
    requires width > 0 && cycle > 0
    ensures var tw := LineTicks(width, cycle);
            row == if NumLines(t, tw) == 1 && Events(t, tw, line) == [] then None else Some(Row(t, line, width, cycle))
  {
    var tw := LineTicks(width, cycle);
    var events := [];
    for k := 0 to |t|
      invariant events + Gather(t, tw, line, k) == Gather(t, tw, line, 0)
    {
      ConcatAssociative(events, [Event(k, t[k])], Gather(t, tw, line, k + 1));
      if t[k] != 0 && InWindow(t, tw, line, t[k]) {
        events := events + [Event(k, t[k])];
      }
    }
    assert events == Gather(t, tw, line, 0);
    events := Sort(events, EventKey(tw));
    if NumLines(t, tw) == 1 && events == [] {
      return None;
    }
    var cells := Draw(DrawnOnly(t, events), width, cycle, tw, Dot(t));
    return Some(cells);
  }

  /** The drawing loop over the events that are not skipped; `pos` is the first column not yet written. */
  method Draw(es: seq<Event>, width: int, cycle: int, tw: int, dot: char) returns (cells: string)
    requires cycle > 0 && tw > 0
    ensures cells == Cells(es, 0, width, cycle, tw, dot)
  {
    cells := "";
    var pos := 0;
    var i := 0;
    assert es[0..] == es;
    while i < |es|
      invariant 0 <= i <= |es|
      invariant cells + Cells(es[i..], pos, width, cycle, tw, dot) == Cells(es, 0, width, cycle, tw, dot)
    {
      cells, pos := DrawEvent(cells, es, i, pos, width, cycle, tw, dot);
      i := i + 1;
    }
    assert es[i..] == [];
    cells := cells + Repeat(dot, width - pos);
  }

  /** One event: dots up to its column, then its shorthand. */
  method DrawEvent(cells: string, es: seq<Event>, i: nat, pos: int, ghost width: int, cycle: int, tw: int, dot: char)
    returns (cells': string, pos': int)
    requires cycle > 0 && tw > 0 && i < |es|
    ensures cells' + Cells(es[i + 1..], pos', width, cycle, tw, dot)
         == cells + Cells(es[i..], pos, width, cycle, tw, dot)
  {
    CellsStep(cells, es, i, pos, width, cycle, tw, dot);
    var col := Column(es[i], tw, cycle);
    cells' := cells + (Repeat(dot, col - pos) + [Shorthand(es[i])]);
    pos' := col + 1;
  }

  lemma {:induction false} CellsStep(cells: string, es: seq<Event>, i: nat, pos: int,
                                     width: int, cycle: int, tw: int, dot: char)
    requires tw > 0 && cycle > 0 && i < |es|
    ensures var col := Column(es[i], tw, cycle);
            cells + Cells(es[i..], pos, width, cycle, tw, dot)
            == cells + (Repeat(dot, col - pos) + [Shorthand(es[i])])
               + Cells(es[i + 1..], col + 1, width, cycle, tw, dot)
  {
    var col := Column(es[i], tw, cycle);
    assert es[i..][0] == es[i] && es[i..][1..] == es[i + 1..];
    ConcatAssociative(cells, Repeat(dot, col - pos) + [Shorthand(es[i])],
                      Cells(es[i + 1..], col + 1, width, cycle, tw, dot));
  }

  method PrintInst(t: Ticks, width: int, cycle: int) returns (rows: Option<seq<string>>)
    requires width > 0 && cycle > 0
    ensures rows == Render(t, width, cycle)
  {
    var n := NumLines(t, LineTicks(width, cycle));
    OneLineIffCompact(t, LineTicks(width, cycle));
    var lines := [];
    for i := 0 to n
      invariant lines == Rows(t, i, width, cycle)
      invariant i > 0 ==> !(n == 1 && Events(t, LineTicks(width, cycle), 0) == [])
    {
      var row := DrawLine(t, i, width, cycle);
      if row == None {
        return None;
      }
      lines := lines + [row.value];
    }
    return Some(lines);
  }
}
