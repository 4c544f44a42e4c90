/**
  The daily market report: for every item traded in the last 24 hours it
  works out the price change since the day before, counts risers and
  fallers, tags notable chart patterns and record prices, keeps the items
  that moved a lot or carry a tag, orders them by the size of the move and
  turns the first eight into report fields.
 */
module DailyReport {
  import opened Wrappers
  import opened Stats
  import opened Text
  import opened Lists
  import opened Sorting
  import opened Preprocess
  import opened Patterns

  /** The look-back window: 24 hours, in seconds. */
  const Day: int := 24 * SecondsPerHour
  /** Items with fewer rows are skipped. */
  const MinRows: nat := 5
  /** A move of at least this many percent is a highlight by itself. */
  const BigMove: real := 10.0
  /** A pattern is tagged when its text contains one of these. */
  const TagKeywords: seq<string> := ["頭肩", "雙重", "三角", "通道"]
  /** The report shows at most this many highlights. */
  const MaxFields: nat := 8

  datatype Highlight = Highlight(item: string, price: real, changePct: real, tags: seq<string>)

  datatype MarketStats = MarketStats(up: nat, down: nat, total: nat)

  // ---------------------------------------------------------------------
  // Active items

  /** The rows traded at or after `now` minus one day. */
  function Recent(df: seq<Row>, now: Time): seq<Row>
  {
    Filter(df, (r: Row) => r.time >= now - Day)
  }

  /** The item column of a frame. */
  function Items(rows: seq<Row>): (r: seq<string>)
    ensures |r| == |rows| && forall i :: 0 <= i < |rows| ==> r[i] == rows[i].item
  {
    seq(|rows|, i requires 0 <= i < |rows| => rows[i].item)
  }

  /** The distinct items of the recent rows, in order of first appearance. */
  function ActiveItems(df: seq<Row>, now: Time): seq<string>
  {
    Unique(Items(Recent(df, now)))
  }

  /** An item is active exactly when some row of it is at most a day old, and it is listed once. */
  lemma {:induction false} ActiveItemsIff(df: seq<Row>, now: Time)
    ensures forall x :: x in ActiveItems(df, now) <==> exists r :: r in df && r.item == x && r.time >= now - Day
    ensures NoDuplicates(ActiveItems(df, now))
  {
    var recent := Recent(df, now);
    var items := Items(recent);
    UniqueMembers(items);
    forall x ensures x in items <==> exists r :: r in df && r.item == x && r.time >= now - Day {
      if x in items {
        var i :| 0 <= i < |items| && items[i] == x;
        assert recent[i] in df && recent[i].item == x;
      }
      if exists r :: r in df && r.item == x && r.time >= now - Day {
        var r :| r in df && r.item == x && r.time >= now - Day;
        var j :| 0 <= j < |df| && df[j] == r;
        var i :| 0 <= i < |recent| && recent[i] == r;
        assert items[i] == x;
      }
    }
  }

  // ---------------------------------------------------------------------
  // Price change

  /** The price column of a frame. */
  function Prices(rows: seq<Row>): (r: seq<real>)
    ensures |r| == |rows|
  {
    if |rows| == 0 then [] else Prices(rows[..|rows| - 1]) + [rows[|rows| - 1].price]
  }

  /** The price column holds each row's price at that row's position. */
  lemma {:induction false} PricesAt(rows: seq<Row>)
    ensures forall i :: 0 <= i < |rows| ==> Prices(rows)[i] == rows[i].price
  {
    if |rows| > 0 {
      var init := rows[..|rows| - 1];
      PricesAt(init);
      forall i | 0 <= i < |rows| ensures Prices(rows)[i] == rows[i].price {
        if i < |init| {
          assert Prices(rows)[i] == Prices(init)[i];
        }
      }
    }
  }

  /** The row test `時間 <= cutoff`. */
  function AtOrBefore(cutoff: Time): Row -> bool
  {
    (r: Row) => r.time <= cutoff
  }

  /** The price of the last row at or before `cutoff`, or of the first row when there is none. */
  function PrevPrice(rows: seq<Row>, cutoff: Time): real
    requires |rows| > 0
  {
    var before := Filter(rows, AtOrBefore(cutoff));
    if |before| > 0 then before[|before| - 1].price else rows[0].price
  }

  /** Row `k` is at or before the cutoff and every later row is after it. */
  predicate LastAtOrBefore(rows: seq<Row>, cutoff: Time, k: int)
  {
    0 <= k < |rows| && rows[k].time <= cutoff && forall j :: k < j < |rows| ==> rows[j].time > cutoff
  }

  /**
    The previous price is that of the last row at or before the cutoff; when
    every row is after the cutoff it is the first row's.
   */
  lemma {:induction false} PrevPriceIsLastBefore(rows: seq<Row>, cutoff: Time)
    requires |rows| > 0
    ensures (exists i :: 0 <= i < |rows| && rows[i].time <= cutoff) ==>
      exists k :: LastAtOrBefore(rows, cutoff, k) && PrevPrice(rows, cutoff) == rows[k].price
    ensures (forall i :: 0 <= i < |rows| ==> rows[i].time > cutoff) ==> PrevPrice(rows, cutoff) == rows[0].price
  {
    if exists i :: 0 <= i < |rows| && rows[i].time <= cutoff {
      var k := PrevRow(rows, cutoff);
      assert LastAtOrBefore(rows, cutoff, k) && PrevPrice(rows, cutoff) == rows[k].price;
    } else {
      NoRowBefore(rows, cutoff);
    }
  }

  /** When some row is at or before the cutoff, the previous price comes from the last such row. */
  lemma {:induction false} PrevRow(rows: seq<Row>, cutoff: Time) returns (k: int)
    requires exists i :: 0 <= i < |rows| && rows[i].time <= cutoff
    ensures LastAtOrBefore(rows, cutoff, k) && PrevPrice(rows, cutoff) == rows[k].price
  {
    var p := AtOrBefore(cutoff);
    var i :| 0 <= i < |rows| && rows[i].time <= cutoff;
    assert p(rows[i]);
    k := LastPassingExists(rows, p, i);
    FilterEndsAtLast(rows, p, k);
    LastPassingIsLastAtOrBefore(rows, cutoff, k);
  }

  /** When every row is after the cutoff, no row passes the test. */
  lemma {:induction false} NoRowBefore(rows: seq<Row>, cutoff: Time)
    requires |rows| > 0
    requires forall i :: 0 <= i < |rows| ==> rows[i].time > cutoff
    ensures PrevPrice(rows, cutoff) == rows[0].price
  {
    var p := AtOrBefore(cutoff);
    FilterNonEmpty(rows, p);
    assert forall i :: 0 <= i < |rows| ==> !p(rows[i]);
  }

  lemma {:induction false} LastPassingIsLastAtOrBefore(rows: seq<Row>, cutoff: Time, k: int)
    requires LastPassing(rows, AtOrBefore(cutoff), k)
    ensures LastAtOrBefore(rows, cutoff, k)
  {
    forall j | k < j < |rows| ensures rows[j].time > cutoff {
      assert !AtOrBefore(cutoff)(rows[j]);
    }
  }

  /** The percentage change from `prev` to `latest`, or 0 when `prev` is 0. */
  function ChangePct(latest: real, prev: real): real
  {
    if prev != 0.0 then (latest - prev) / prev * 100.0 else 0.0
  }

  /**
    From a positive previous price the change is positive exactly when the
    price rose and negative exactly when it fell; a zero previous price gives 0.
   */
  lemma {:induction false} ChangePctSign(latest: real, prev: real)
    ensures prev > 0.0 ==> (ChangePct(latest, prev) > 0.0 <==> latest > prev)
    ensures prev > 0.0 ==> (ChangePct(latest, prev) < 0.0 <==> latest < prev)
    ensures prev == 0.0 ==> ChangePct(latest, prev) == 0.0
  {
    if prev > 0.0 {
      var q := (latest - prev) / prev;
      assert q * prev == latest - prev;
      if latest > prev {
        assert q > 0.0;
      } else if latest < prev {
        assert q < 0.0;
      } else {
        assert q == 0.0;
      }
    }
  }

  // ---------------------------------------------------------------------
  // Tags

  /** A pattern text that names one of the tagged shapes. */
  predicate Tagged(text: string)
  {
    ContainsAny(text, TagKeywords)
  }

  /** An event text that announces a record price. */
  predicate Milestone(text: string)
  {
    Contains(text, "新高") || Contains(text, "新低")
  }

  /** The labels of the tagged patterns, in order, each once. */
  function PatternTags(ps: seq<Pattern>): (r: seq<string>)
    ensures |r| <= |ps|
  {
    if |ps| == 0 then []
    else
      var text := PatternLabel(ps[|ps| - 1].kind);
      PatternTags(ps[..|ps| - 1]) + (if Tagged(text) then [text] else [])
  }

  /** The labels of the record-price events, in order. */
  function EventTags(es: seq<Event>): (r: seq<string>)
    ensures |r| <= |es|
  {
    if |es| == 0 then []
    else
      var text := EventLabel(es[|es| - 1].kind);
      EventTags(es[..|es| - 1]) + (if Milestone(text) then [text] else [])
  }

  /** Row labels 0, 1, ..., n - 1: the item frame's index after `reset_index`. */
  function Positions(n: nat): (r: seq<int>)
    ensures |r| == n && forall i :: 0 <= i < n ==> r[i] == i
  {
    seq(n, i => i)
  }

  /** The tags of one item: its tagged patterns, then its record-price events. */
  function ItemTags(prices: seq<real>, changeStd: real): seq<string>
  {
    PatternTags(PatternsSpec(prices, DefaultWindow))
    + EventTags(EventsSpec(prices, Positions(|prices|), changeStd))
  }

  /** A two-character keyword found character by character at offset `i`. */
  lemma {:induction false} PairAt(text: string, kw: string, i: nat)
    requires |kw| == 2 && i + 2 <= |text| && text[i] == kw[0] && text[i + 1] == kw[1]
    ensures Contains(text, kw)
  {
    assert text[i..i + 2] == kw;
    ContainsAtOffset(text, kw, i);
  }

  /** Exactly the labels of the specific rules carry a tag keyword; the safety-net labels do not. */
  lemma {:induction false} TaggedIff(k: PatternKind)
    ensures Tagged(PatternLabel(k)) <==> !IsFallback(k)
  {
    if IsFallback(k) {
      FallbackUntagged(k);
    } else {
      MatchTagged(k);
    }
  }

  /** Each label of a specific rule holds its keyword. */
  lemma {:induction false} MatchTagged(k: PatternKind)
    requires !IsFallback(k)
    ensures Tagged(PatternLabel(k))
  {
    var text := PatternLabel(k);
    match k
    case HeadShouldersTop => PairAt(text, TagKeywords[0], 2);
    case HeadShouldersBottom => PairAt(text, TagKeywords[0], 2);
    case DoubleTop => PairAt(text, TagKeywords[1], 3);
    case DoubleBottom => PairAt(text, TagKeywords[1], 2);
    case Triangle => PairAt(text, TagKeywords[2], 2);
    case AscendingChannel => PairAt(text, TagKeywords[3], 5);
    case DescendingChannel => PairAt(text, TagKeywords[3], 4);
  }

  /** No safety-net label holds the first character of any keyword. */
  lemma {:induction false} FallbackUntagged(k: PatternKind)
    requires IsFallback(k)
    ensures !Tagged(PatternLabel(k))
  {
    var text := PatternLabel(k);
    forall j | 0 <= j < |TagKeywords| ensures TagKeywords[j][0] !in text {
      match k
      case Rally =>
      case SellOff =>
      case Consolidation =>
      case Featureless =>
    }
    forall j | 0 <= j < |TagKeywords| ensures !Contains(text, TagKeywords[j]) {
      NotContainsMissingHead(text, TagKeywords[j]);
    }
  }

  /** Exactly the new-high and new-low labels announce a record; the surge labels do not. */
  lemma {:induction false} MilestoneIff(k: EventKind)
    ensures Milestone(EventLabel(k)) <==> k == NewHigh || k == NewLow
  {
    var text := EventLabel(k);
    match k
    case NewHigh => PairAt(text, "新高", 5);
    case NewLow => PairAt(text, "新低", 5);
    case _ =>
      NotContainsMissingHead(text, "新高");
      NotContainsMissingHead(text, "新低");
  }

  /** The labels of a pattern list, in order. */
  function PatternLabels(ps: seq<Pattern>): (r: seq<string>)
    ensures |r| == |ps| && forall i :: 0 <= i < |ps| ==> r[i] == PatternLabel(ps[i].kind)
  {
    seq(|ps|, i requires 0 <= i < |ps| => PatternLabel(ps[i].kind))
  }

  /** A list of matches is tagged entirely, text by text. */
  lemma {:induction false} MatchesAllTagged(ps: seq<Pattern>)
    requires NoFallback(ps)
    ensures PatternTags(ps) == PatternLabels(ps)
  {
    if |ps| > 0 {
      var init := ps[..|ps| - 1];
      NoFallbackInit(ps);
      MatchesAllTagged(init);
      TagsOfMatch(ps);
      assert PatternLabels(ps) == PatternLabels(init) + [PatternLabel(ps[|ps| - 1].kind)];
    }
  }

  /** Dropping the last element of a list of matches leaves a list of matches. */
  lemma {:induction false} NoFallbackInit(ps: seq<Pattern>)
    requires |ps| > 0 && NoFallback(ps)
    ensures NoFallback(ps[..|ps| - 1]) && !IsFallback(ps[|ps| - 1].kind)
  {
    var init := ps[..|ps| - 1];
    assert ps[|ps| - 1] in ps;
    forall p | p in init ensures !IsFallback(p.kind) {
      var i :| 0 <= i < |init| && init[i] == p;
      assert ps[i] == p;
    }
  }

  /** A list ending in a match has that match's label as its last tag. */
  lemma {:induction false} TagsOfMatch(ps: seq<Pattern>)
    requires |ps| > 0 && !IsFallback(ps[|ps| - 1].kind)
    ensures PatternTags(ps) == PatternTags(ps[..|ps| - 1]) + [PatternLabel(ps[|ps| - 1].kind)]
  {
    TaggedIff(ps[|ps| - 1].kind);
  }

  /**
    The pattern tags of an item are the labels of everything the specific
    rules matched, and nothing when the safety net fired or the series is short.
   */
  lemma {:induction false} PatternTagsAreMatches(prices: seq<real>, w: nat, slopeRes: real, slopeSup: real)
    ensures PatternTags(PatternsFrom(prices, w, slopeRes, slopeSup))
         == if |prices| < MinSeries then [] else PatternLabels(Matched(prices, w, slopeRes, slopeSup))
  {
    var m := Matched(prices, w, slopeRes, slopeSup);
    MatchedShape(prices, w, slopeRes, slopeSup);
    if |prices| >= MinSeries {
      if m == [] {
        var only := [Pattern(FallbackKind(prices), 0, |prices| - 1, None)];
        assert only[..0] == [];
        TaggedIff(FallbackKind(prices));
        assert PatternTags(only) == [];
      } else {
        MatchesAllTagged(m);
      }
    }
  }

  /** The event tags of a frame are the new-high or new-low text, if any; a surge never tags. */
  lemma {:induction false} EventTagsAreRecords(prices: seq<real>, labels: seq<int>, changeStd: real)
    requires |labels| == |prices|
    ensures var r := EventTags(EventsSpec(prices, labels, changeStd));
      r == (if |prices| == 0 then [] else EventLabels(RecordEvent(prices, labels[|labels| - 1])))
  {
    if |prices| > 0 {
      var at := labels[|labels| - 1];
      var rec, surge := RecordEvent(prices, at), SurgeEvent(prices, at, changeStd);
      EventTagsConcat(rec, surge);
      EventTagsOfRecords(rec);
      EventTagsOfSurges(surge);
    }
  }

  /** The labels of an event list, in order. */
  function EventLabels(es: seq<Event>): (r: seq<string>)
    ensures |r| == |es| && forall i :: 0 <= i < |es| ==> r[i] == EventLabel(es[i].kind)
  {
    seq(|es|, i requires 0 <= i < |es| => EventLabel(es[i].kind))
  }

  lemma {:induction false} EventTagsConcat(a: seq<Event>, b: seq<Event>)
    ensures EventTags(a + b) == EventTags(a) + EventTags(b)
  {
    if |b| > 0 {
      var init := b[..|b| - 1];
      assert (a + b)[..|a + b| - 1] == a + init;
      EventTagsConcat(a, init);
    } else {
      assert a + b == a;
    }
  }

  lemma {:induction false} EventTagsOfRecords(es: seq<Event>)
    requires |es| <= 1 && forall ev :: ev in es ==> ev.kind == NewHigh || ev.kind == NewLow
    ensures EventTags(es) == EventLabels(es)
  {
    if |es| == 1 {
      assert es[0] in es;
      MilestoneIff(es[0].kind);
      assert es[..0] == [];
    }
  }

  lemma {:induction false} EventTagsOfSurges(es: seq<Event>)
    requires |es| <= 1 && forall ev :: ev in es ==> ev.kind == SurgeUp || ev.kind == SurgeDown
    ensures EventTags(es) == []
  {
    if |es| == 1 {
      assert es[0] in es;
      MilestoneIff(es[0].kind);
      assert es[..0] == [];
    }
  }

  /** The tag loop over the detected patterns: a pattern's label is added once, at its first matching keyword. */
  method PatternTagLoop(patterns: seq<Pattern>) returns (tags: seq<string>)
    ensures tags == PatternTags(patterns)
  {
    tags := [];
    for i := 0 to |patterns|
      invariant tags == PatternTags(patterns[..i])
    {
      var text := PatternLabel(patterns[i].kind);
      assert patterns[..i + 1][..i] == patterns[..i];
      var k := 0;
      while k < |TagKeywords|
        invariant 0 <= k <= |TagKeywords|
        invariant forall j :: 0 <= j < k ==> !Contains(text, TagKeywords[j])
        invariant tags == PatternTags(patterns[..i])
      {
        if Contains(text, TagKeywords[k]) {
          tags := tags + [text];
          break;
        }
        k := k + 1;
      }
    }
    assert patterns[..|patterns|] == patterns;
  }

  /** The tag loop over the detected events: new-high and new-low labels are added. */
  method EventTagLoop(events: seq<Event>) returns (tags: seq<string>)
    ensures tags == EventTags(events)
  {
    tags := [];
    for i := 0 to |events|
      invariant tags == EventTags(events[..i])
    {
      var text := EventLabel(events[i].kind);
      assert events[..i + 1][..i] == events[..i];
      if Contains(text, "新高") || Contains(text, "新低") {
        tags := tags + [text];
      }
    }
    assert events[..|events|] == events;
  }

  // ---------------------------------------------------------------------
  // One item

  /** The frame of one item, as the report reads it. */
  function ItemRows(df: seq<Row>, item: string): seq<Row>
  {
    FilterAndPrepare(df, item, None, None)
  }

  /** The change of a frame since the cutoff, or nothing when it has too few rows to assess. */
  function RowsChange(rows: seq<Row>, cutoff: Time): Option<real>
  {
    if |rows| < MinRows then None
    else Some(ChangePct(rows[|rows| - 1].price, PrevPrice(rows, cutoff)))
  }

  /** The change of an item since the cutoff. */
  function ItemChange(df: seq<Row>, item: string, cutoff: Time): Option<real>
  {
    RowsChange(ItemRows(df, item), cutoff)
  }

  /**
    The highlight of an item's frame: present when it is assessed and moved at
    least 10% or carries a tag. `stdOf` stands for the standard deviation of
    the price changes that `detect_events` computes.
   */
  function RowsHighlight(item: string, rows: seq<Row>, cutoff: Time, stdOf: seq<real> -> real): Option<Highlight>
  {
    if |rows| < MinRows then None
    else
      var prices := Prices(rows);
      var change := ChangePct(rows[|rows| - 1].price, PrevPrice(rows, cutoff));
      Earned(item, rows[|rows| - 1].price, change, ItemTags(prices, stdOf(prices)))
  }

  /** The highlight of an item. */
  function ItemHighlight(df: seq<Row>, item: string, cutoff: Time, stdOf: seq<real> -> real): Option<Highlight>
  {
    RowsHighlight(item, ItemRows(df, item), cutoff, stdOf)
  }

  /** The highlight criterion: a move of at least 10% or at least one tag. */
  function Earned(item: string, price: real, change: real, tags: seq<string>): (h: Option<Highlight>)
    ensures h.Some? <==> Abs(change) >= BigMove || |tags| > 0
    ensures h.Some? ==> h.value == Highlight(item, price, change, tags)
  {
    if Abs(change) >= BigMove || |tags| > 0 then Some(Highlight(item, price, change, tags)) else None
  }

  /** Runs both detectors on an item's prices and collects its tags. */
  method TagItem(prices: seq<real>, changeStd: real) returns (tags: seq<string>)
    requires changeStd >= 0.0
    ensures tags == ItemTags(prices, changeStd)
  {
    var patterns := DetectPatterns(prices, DefaultWindow);
    var events := DetectEvents(prices, Positions(|prices|), changeStd);
    tags := PatternTagLoop(patterns);
    var eventTags := EventTagLoop(events);
    tags := tags + eventTags;
  }

  /** The body of the per-item loop: the item's frame, then its change and its highlight. */
  method AnalyseItem(df: seq<Row>, item: string, cutoff: Time, stdOf: seq<real> -> real)
    returns (change: Option<real>, highlight: Option<Highlight>)
    requires forall s :: stdOf(s) >= 0.0
    ensures change == ItemChange(df, item, cutoff)
    ensures highlight == ItemHighlight(df, item, cutoff, stdOf)
  {
    var rows := FilterAndPrepare(df, item, None, None);
    change, highlight := AnalyseRows(item, rows, cutoff, stdOf);
  }

  /** The change and the highlight of one item's frame. */
  method AnalyseRows(item: string, rows: seq<Row>, cutoff: Time, stdOf: seq<real> -> real)
    returns (change: Option<real>, highlight: Option<Highlight>)
    requires forall s :: stdOf(s) >= 0.0
    ensures change == RowsChange(rows, cutoff)
    ensures highlight == RowsHighlight(item, rows, cutoff, stdOf)
  {
    if |rows| < MinRows {
      return None, None;
    }
    var latest := rows[|rows| - 1].price;
    var prev := PrevPrice(rows, cutoff);
    var pct := ChangePct(latest, prev);
    change := Some(pct);
    var prices := Prices(rows);
    var tags := TagItem(prices, stdOf(prices));
    var isHigh := Abs(pct) >= BigMove;
    if isHigh || |tags| > 0 {
      highlight := Some(Highlight(item, latest, pct, tags));
    } else {
      highlight := None;
    }
  }

  // ---------------------------------------------------------------------
  // The market loop

  /** One more assessed item: counted, and counted as up or down by the sign of its change. */
  function Tally(stats: MarketStats, change: real): MarketStats
  {
    MarketStats(
      if change > 0.0 then stats.up + 1 else stats.up,
      if change < 0.0 then stats.down + 1 else stats.down,
      stats.total + 1)
  }

  /** The counter updates of the loop body. */
  method Count(stats: MarketStats, change: real) returns (next: MarketStats)
    ensures next == Tally(stats, change)
  {
    next := stats.(total := stats.total + 1);
    if change > 0.0 {
      next := next.(up := next.up + 1);
    } else if change < 0.0 {
      next := next.(down := next.down + 1);
    }
  }

  /** The counters after the loop has visited `items`. */
  function StatsOver(df: seq<Row>, items: seq<string>, cutoff: Time): MarketStats
  {
    if |items| == 0 then MarketStats(0, 0, 0)
    else
      var stats := StatsOver(df, items[..|items| - 1], cutoff);
      match ItemChange(df, items[|items| - 1], cutoff)
      case None => stats
      case Some(c) => Tally(stats, c)
  }

  /** The present results of `assess` over `items`, in order. */
  function Collect(items: seq<string>, assess: string -> Option<Highlight>): seq<Highlight>
  {
    if |items| == 0 then []
    else
      var hs := Collect(items[..|items| - 1], assess);
      match assess(items[|items| - 1])
      case None => hs
      case Some(h) => hs + [h]
  }

  /** Every collected value is the result for one item, and every item's result is collected. */
  lemma {:induction false} CollectMembers(items: seq<string>, assess: string -> Option<Highlight>)
    ensures var hs := Collect(items, assess);
      |hs| <= |items|
      && forall h :: h in hs <==> exists i :: 0 <= i < |items| && assess(items[i]) == Some(h)
  {
    if |items| > 0 {
      var init := items[..|items| - 1];
      CollectMembers(init, assess);
      var hs := Collect(items, assess);
      forall h ensures h in hs <==> exists i :: 0 <= i < |items| && assess(items[i]) == Some(h) {
        if exists i :: 0 <= i < |items| && assess(items[i]) == Some(h) {
          var i :| 0 <= i < |items| && assess(items[i]) == Some(h);
          if i < |init| {
            assert init[i] == items[i];
          }
        }
        if h in Collect(init, assess) {
          var i :| 0 <= i < |init| && assess(init[i]) == Some(h);
          assert init[i] == items[i];
        }
      }
    }
  }

  /** The highlight of each item, as a function of the item. */
  function Assessor(df: seq<Row>, cutoff: Time, stdOf: seq<real> -> real): string -> Option<Highlight>
  {
    (x: string) => ItemHighlight(df, x, cutoff, stdOf)
  }

  /** The highlights after the loop has visited `items`, in visiting order. */
  function HighlightsOver(df: seq<Row>, items: seq<string>, cutoff: Time, stdOf: seq<real> -> real): seq<Highlight>
  {
    Collect(items, Assessor(df, cutoff, stdOf))
  }

  /** Visiting one more item extends the counters and the highlights by that item's results. */
  lemma {:induction false} SurveyStep(df: seq<Row>, items: seq<string>, i: nat, cutoff: Time, stdOf: seq<real> -> real)
    requires i < |items|
    ensures StatsOver(df, items[..i + 1], cutoff)
         == match ItemChange(df, items[i], cutoff)
            case None => StatsOver(df, items[..i], cutoff)
            case Some(c) => Tally(StatsOver(df, items[..i], cutoff), c)
    ensures HighlightsOver(df, items[..i + 1], cutoff, stdOf)
         == match ItemHighlight(df, items[i], cutoff, stdOf)
            case None => HighlightsOver(df, items[..i], cutoff, stdOf)
            case Some(h) => HighlightsOver(df, items[..i], cutoff, stdOf) + [h]
  {
    assert items[..i + 1][..i] == items[..i];
  }

  /** The per-item loop over the active items, with its counters. */
  method Survey(df: seq<Row>, now: Time, stdOf: seq<real> -> real) returns (stats: MarketStats, highlights: seq<Highlight>)
    requires forall s :: stdOf(s) >= 0.0
    ensures stats == StatsOver(df, ActiveItems(df, now), now - Day)
    ensures highlights == HighlightsOver(df, ActiveItems(df, now), now - Day, stdOf)
  {
    var items := ActiveItems(df, now);
    var yesterday := now - Day;
    stats := MarketStats(0, 0, 0);
    highlights := [];
    for i := 0 to |items|
      invariant stats == StatsOver(df, items[..i], yesterday)
      invariant highlights == HighlightsOver(df, items[..i], yesterday, stdOf)
    {
      SurveyStep(df, items, i, yesterday, stdOf);
      var change, highlight := AnalyseItem(df, items[i], yesterday, stdOf);
      if change.Some? {
        stats := Count(stats, change.value);
      }
      if highlight.Some? {
        highlights := highlights + [highlight.value];
      }
    }
    assert items[..|items|] == items;
  }

  /** The sort key: larger moves first, as `sort(key=abs(change_pct), reverse=True)`. */
  function Magnitude(h: Highlight): real
  {
    -Abs(h.changePct)
  }

  // ---------------------------------------------------------------------
  // Report fields

  /** One report field: the item, the sign emoji, the change, the price and the tag text. */
  datatype Field = Field(name: string, emoji: string, changePct: real, price: real, tagDisplay: string)

  /** Rocket for a rise, blood drop for a fall, a dash for no change. */
  function Emoji(change: real): string
  {
    if change > 0.0 then "🚀" else if change < 0.0 then "🩸" else "➖"
  }

  /** The tags in parentheses after a space, or nothing when there are none. */
  function TagDisplay(tags: seq<string>): (r: string)
  {
    if |tags| > 0 then " (" + Join(tags, ", ") + ")" else ""
  }

  /** The field of one highlight. */
  function ToField(h: Highlight): Field
  {
    Field(h.item, Emoji(h.changePct), h.changePct, h.price, TagDisplay(h.tags))
  }

  /** The field loop over the first eight highlights. */
  method BuildFields(highlights: seq<Highlight>) returns (fields: seq<Field>)
    ensures |fields| == if |highlights| < MaxFields then |highlights| else MaxFields
    ensures forall i :: 0 <= i < |fields| ==> fields[i] == ToField(highlights[i])
  {
    var shown := Take(highlights, MaxFields);
    fields := [];
    for i := 0 to |shown|
      invariant |fields| == i
      invariant forall j :: 0 <= j < i ==> fields[j] == ToField(highlights[j])
    {
      var h := shown[i];
      var emoji := if h.changePct > 0.0 then "🚀" else if h.changePct < 0.0 then "🩸" else "➖";
      var tagDisplay := "";
      if |h.tags| > 0 {
        tagDisplay := " (" + Join(h.tags, ", ") + ")";
      }
      fields := fields + [Field(h.item, emoji, h.changePct, h.price, tagDisplay)];
    }
  }

  /** The report: market counters, the ordered highlights and their fields. */
  datatype Report = Report(stats: MarketStats, highlights: seq<Highlight>, fields: seq<Field>)

  /**
    The whole run on a loaded frame: no report for an empty frame; otherwise
    the survey, the highlights sorted by the size of the move, and the fields
    of the first eight.
   */
  method BuildReport(df: seq<Row>, now: Time, stdOf: seq<real> -> real) returns (report: Option<Report>)
    requires forall s :: stdOf(s) >= 0.0
    ensures |df| == 0 <==> report.None?
    ensures report.Some? ==>
      var hs := SortBy(HighlightsOver(df, ActiveItems(df, now), now - Day, stdOf), Magnitude);
      report.value.stats == StatsOver(df, ActiveItems(df, now), now - Day)
      && report.value.highlights == hs
      && |report.value.fields| == (if |hs| < MaxFields then |hs| else MaxFields)
      && forall i :: 0 <= i < |report.value.fields| ==> report.value.fields[i] == ToField(hs[i])
  {
    if |df| == 0 {
      return None;
    }
    var stats, highlights := Survey(df, now, stdOf);
    highlights := SortBy(highlights, Magnitude);
    var fields := BuildFields(highlights);
    report := Some(Report(stats, highlights, fields));
  }

  // ---------------------------------------------------------------------
  // Properties of the report

  /** The last price is at least every price or at most every price. */
  predicate IsRecord(prices: seq<real>)
    requires |prices| > 0
  {
    (forall i :: 0 <= i < |prices| ==> prices[i] <= prices[|prices| - 1])
    || (forall i :: 0 <= i < |prices| ==> prices[|prices| - 1] <= prices[i])
  }

  /** An item's events yield a tag exactly when its last price is a record high or low. */
  lemma {:induction false} RecordTagsIff(prices: seq<real>, labels: seq<int>, changeStd: real)
    requires |labels| == |prices| > 0
    ensures |EventTags(EventsSpec(prices, labels, changeStd))| > 0 <==> IsRecord(prices)
  {
    var n := |prices|;
    EventTagsAreRecords(prices, labels, changeStd);
    var current := prices[n - 1];
    var a :| 0 <= a < n && prices[a] == Max(prices);
    var b :| 0 <= b < n && prices[b] == Min(prices);
    if current >= Max(prices) {
      assert forall i :: 0 <= i < n ==> prices[i] <= current;
    } else if current <= Min(prices) {
      assert forall i :: 0 <= i < n ==> current <= prices[i];
    } else {
      assert prices[a] > current && prices[b] < current;
    }
  }

  /** ItemTagsIff for any trend-line slopes. */
  lemma {:induction false} TagsFromIff(prices: seq<real>, slopeRes: real, slopeSup: real, changeStd: real)
    requires |prices| > 0
    ensures |PatternTags(PatternsFrom(prices, DefaultWindow, slopeRes, slopeSup))
             + EventTags(EventsSpec(prices, Positions(|prices|), changeStd))| > 0
      <==> (|prices| >= MinSeries && Matched(prices, DefaultWindow, slopeRes, slopeSup) != []) || IsRecord(prices)
  {
    PatternTagsAreMatches(prices, DefaultWindow, slopeRes, slopeSup);
    RecordTagsIff(prices, Positions(|prices|), changeStd);
  }

  /**
    An item carries a tag exactly when the specific pattern rules matched
    something on a long enough series, or its last price is a record high or low.
   */
  lemma {:induction false} ItemTagsIff(prices: seq<real>, changeStd: real)
    requires |prices| > 0
    ensures var peaks, troughs := Extrema(prices, DefaultWindow, Peak), Extrema(prices, DefaultWindow, Trough);
      |ItemTags(prices, changeStd)| > 0
      <==> ((|prices| >= MinSeries && Matched(prices, DefaultWindow, RecentSlope(prices, peaks), RecentSlope(prices, troughs)) != [])
            || IsRecord(prices))
  {
    var peaks, troughs := Extrema(prices, DefaultWindow, Peak), Extrema(prices, DefaultWindow, Trough);
    TagsFromIff(prices, RecentSlope(prices, peaks), RecentSlope(prices, troughs), changeStd);
  }

  /** The item test "assessed": at least five rows. */
  function Assessed(df: seq<Row>, cutoff: Time): string -> bool
  {
    (x: string) => ItemChange(df, x, cutoff).Some?
  }

  /** The item test "assessed and up". */
  function Rising(df: seq<Row>, cutoff: Time): string -> bool
  {
    (x: string) => ItemChange(df, x, cutoff).Some? && ItemChange(df, x, cutoff).value > 0.0
  }

  /** The item test "assessed and down". */
  function Falling(df: seq<Row>, cutoff: Time): string -> bool
  {
    (x: string) => ItemChange(df, x, cutoff).Some? && ItemChange(df, x, cutoff).value < 0.0
  }

  /**
    The counters count the assessed items, the risers among them and the
    fallers among them; risers and fallers together never exceed the total.
   */
  lemma {:induction false} StatsCounts(df: seq<Row>, items: seq<string>, cutoff: Time)
    ensures var stats := StatsOver(df, items, cutoff);
      stats.total == |Filter(items, Assessed(df, cutoff))|
      && stats.up == |Filter(items, Rising(df, cutoff))|
      && stats.down == |Filter(items, Falling(df, cutoff))|
      && stats.up + stats.down <= stats.total <= |items|
  {
    if |items| > 0 {
      var init, last := items[..|items| - 1], items[|items| - 1];
      assert items == init + [last];
      StatsCounts(df, init, cutoff);
      FilterConcat(init, [last], Assessed(df, cutoff));
      FilterConcat(init, [last], Rising(df, cutoff));
      FilterConcat(init, [last], Falling(df, cutoff));
    }
  }

  /** Each highlight is the highlight of one visited item, and every visited item's highlight is kept. */
  lemma {:induction false} HighlightsMembers(df: seq<Row>, items: seq<string>, cutoff: Time, stdOf: seq<real> -> real)
    ensures var hs := HighlightsOver(df, items, cutoff, stdOf);
      |hs| <= |items|
      && forall h :: h in hs <==> exists i :: 0 <= i < |items| && ItemHighlight(df, items[i], cutoff, stdOf) == Some(h)
  {
    CollectMembers(items, Assessor(df, cutoff, stdOf));
  }

  /**
    The reported highlights run from the largest move to the smallest, are
    exactly the collected highlights, and keep the visiting order among equal moves.
   */
  lemma {:induction false} ReportOrder(hs: seq<Highlight>)
    ensures var r := SortBy(hs, Magnitude);
      (forall i, j :: 0 <= i < j < |r| ==> Abs(r[i].changePct) >= Abs(r[j].changePct))
      && multiset(r) == multiset(hs)
      && forall k :: WithKey(r, Magnitude, k) == WithKey(hs, Magnitude, k)
  {
    var r := SortBy(hs, Magnitude);
    SortBySorted(hs, Magnitude);
    forall i, j | 0 <= i < j < |r| ensures Abs(r[i].changePct) >= Abs(r[j].changePct) {
      assert Magnitude(r[i]) <= Magnitude(r[j]);
    }
    forall k ensures WithKey(r, Magnitude, k) == WithKey(hs, Magnitude, k) {
      SortByStable(hs, Magnitude, k);
    }
  }

  /** The tag text is empty exactly when there are no tags, and shows every tag otherwise. */
  lemma {:induction false} TagDisplayShowsTags(tags: seq<string>)
    ensures TagDisplay(tags) == "" <==> |tags| == 0
    ensures forall i :: 0 <= i < |tags| ==> Contains(TagDisplay(tags), tags[i])
  {
    forall i | 0 <= i < |tags| ensures Contains(TagDisplay(tags), tags[i]) {
      var joined := Join(tags, ", ");
      JoinContainsParts(tags, ", ", i);
      ContainsConcat(" (", joined, tags[i]);
      ContainsConcat(" (" + joined, ")", tags[i]);
    }
    if |tags| > 0 {
      assert |TagDisplay(tags)| > 0;
    }
  }
}
