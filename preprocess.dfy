/**
  Row preparation for the price table: the Google-Forms time stamps with a
  12-hour marker, the item category read off the item name and attribute,
  the cleaning and time ordering of the raw rows, and the per-item filter
  with an optional inclusive time range.

  Reading the CSV and `pd.to_datetime` / `pd.to_numeric` are not modelled:
  the two converters come in as parameters that either yield a value or
  fail.
 */
module Preprocess {
  import opened Wrappers
  import opened Text
  import opened Lists
  import opened Sorting

  // ---------------------------------------------------------------------
  // parse_google_time

  /** A timestamp, in seconds. */
  type Time = int

  const SecondsPerHour: int := 3600
  const HalfDay: int := 12 * SecondsPerHour

  /** `dt.hour`: the hour of the day. */
  function Hour(t: Time): (h: nat)
    ensures h < 24
  {
    (t / SecondsPerHour) % 24
  }

  /** Moving by twelve hours either way moves the hour of the day by twelve, modulo 24. */
  lemma {:induction false} HourAcrossHalfDay(t: Time)
    ensures Hour(t + HalfDay) == (Hour(t) + 12) % 24
    ensures Hour(t - HalfDay) == (Hour(t) + 12) % 24
  {
    var q := t / SecondsPerHour;
    assert (t + HalfDay) / SecondsPerHour == q + 12;
    assert (t - HalfDay) / SecondsPerHour == q - 12;
    var m := q % 24;
    assert q == 24 * (q / 24) + m;
    assert q + 12 == 24 * (q / 24) + (m + 12);
    assert q - 12 == 24 * (q / 24 - 1) + (m + 12);
    if m + 12 >= 24 {
      assert q + 12 == 24 * (q / 24 + 1) + (m + 12 - 24);
      assert q - 12 == 24 * (q / 24) + (m + 12 - 24);
    }
  }

  const Afternoon: string := "下午"
  const Morning: string := "上午"

  /** The text handed to the date parser once both markers are removed. */
  function WithoutMarkers(t: string): string
  {
    Strip(Replace(Replace(t, Afternoon, ""), Morning, ""))
  }

  /**
    `parse_google_time`: a marked time is parsed without its marker and moved
    to the 24-hour clock (afternoon hours other than 12 gain twelve hours, a
    morning 12 o'clock loses twelve); an unmarked one is parsed with every
    `/` turned into `-`. A failed parse is `NaT`, here `None`.
   */
  function ParseGoogleTime(raw: string, toDatetime: string -> Option<Time>): Option<Time>
  {
    var t := Strip(raw);
    if Contains(t, Afternoon) || Contains(t, Morning) then
      var isPm := Contains(t, Afternoon);
      match toDatetime(WithoutMarkers(t))
      case None => None
      case Some(dt) =>
        if isPm && Hour(dt) != 12 then Some(dt + HalfDay)
        else if !isPm && Hour(dt) == 12 then Some(dt - HalfDay)
        else Some(dt)
    else
      toDatetime(Replace(t, "/", "-"))
  }

  /**
    With a marker, the result is the parsed time moved onto the 24-hour
    clock: an afternoon hour h becomes h + 12 (12 stays 12), a morning 12
    becomes 0 and other morning hours stay; the shift is never more than half
    a day. A failed parse gives `None`.
   */
  lemma {:induction false} TwelveHourClock(raw: string, toDatetime: string -> Option<Time>)
    requires var t := Strip(raw); Contains(t, Afternoon) || Contains(t, Morning)
    ensures var t, r := Strip(raw), ParseGoogleTime(raw, toDatetime);
      var parsed := toDatetime(WithoutMarkers(t));
      (parsed.None? ==> r.None?)
      && (parsed.Some? ==>
        var dt := parsed.value;
        r.Some? && (r.value == dt || r.value == dt + HalfDay || r.value == dt - HalfDay)
        && Hour(r.value) ==
          if Contains(t, Afternoon) then (if Hour(dt) == 12 then 12 else (Hour(dt) + 12) % 24)
          else (if Hour(dt) == 12 then 0 else Hour(dt)))
  {
    var parsed := toDatetime(WithoutMarkers(Strip(raw)));
    if parsed.Some? {
      HourAcrossHalfDay(parsed.value);
    }
  }

  /** An afternoon time read as 1 to 11 o'clock lands on 13 to 23 o'clock. */
  lemma {:induction false} AfternoonIsLate(raw: string, toDatetime: string -> Option<Time>)
    requires Contains(Strip(raw), Afternoon)
    requires var p := toDatetime(WithoutMarkers(Strip(raw))); p.Some? && 1 <= Hour(p.value) <= 11
    ensures var r := ParseGoogleTime(raw, toDatetime); r.Some? && 13 <= Hour(r.value) <= 23
  {
    TwelveHourClock(raw, toDatetime);
  }

  /** Without a marker the parser sees the stripped text with no `/` left in it. */
  lemma {:induction false} UnmarkedUsesDashes(raw: string, toDatetime: string -> Option<Time>)
    requires var t := Strip(raw); !Contains(t, Afternoon) && !Contains(t, Morning)
    ensures var s := Replace(Strip(raw), "/", "-");
      ParseGoogleTime(raw, toDatetime) == toDatetime(s) && !Contains(s, "/")
  {
    ReplaceCharRemoves(Strip(raw), '/', '-');
  }

  // ---------------------------------------------------------------------
  // get_category

  const WeaponStone: string := "⚔\U{FE0F} 武器王石"
  const ArmorStone: string := "🛡\U{FE0F} 防具王石"
  const AdditionalStone: string := "🎩 追加王石"
  const SpecialStone: string := "💍 特殊王石"
  const UniversalStone: string := "*\U{FE0F}\U{20E3} 通用王石"
  const Appearance: string := "👗 外觀"
  const Equipment: string := "⚔\U{FE0F} 裝備"
  const Miscellaneous: string := "📦 其他雜項"

  /** The eight category labels. */
  predicate IsCategory(c: string)
  {
    c == WeaponStone || c == ArmorStone || c == AdditionalStone || c == SpecialStone
    || c == UniversalStone || c == Appearance || c == Equipment || c == Miscellaneous
  }

  /** The hole keywords that mark equipment. */
  const Holes: seq<string> := ["雙洞", "單洞", "不限洞", "空洞"]

  /** `any(x in s for x in keywords)`. */
  predicate ContainsAny(s: string, keywords: seq<string>)
  {
    exists k :: 0 <= k < |keywords| && Contains(s, keywords[k])
  }

  /** The stripped name followed by the stripped attribute, a missing attribute read as empty. */
  function CheckString(name: string, attr: Option<string>): string
  {
    Strip(name) + (if attr.Some? then Strip(attr.value) else "")
  }

  /** The first-match chain of `get_category`, for a given list of hole keywords. */
  function Categorize(check: string, holes: seq<string>): string
  {
    if Contains(check, "武器") then WeaponStone
    else if Contains(check, "防具") then ArmorStone
    else if Contains(check, "追加") then AdditionalStone
    else if Contains(check, "特殊") then SpecialStone
    else if Contains(check, "通用") then UniversalStone
    else if Contains(check, "外觀") then Appearance
    else if ContainsAny(check, holes) then Equipment
    else Miscellaneous
  }

  function GetCategory(name: string, attr: Option<string>): (c: string)
    ensures IsCategory(c)
  {
    Categorize(CheckString(name, attr), Holes)
  }

  /** A rule: any of its keywords selects its label. */
  datatype Rule = Rule(keywords: seq<string>, category: string)

  /** The rules in the order they are tried. */
  function CategoryRules(holes: seq<string>): seq<Rule>
  {
    [ Rule(["武器"], WeaponStone), Rule(["防具"], ArmorStone), Rule(["追加"], AdditionalStone),
      Rule(["特殊"], SpecialStone), Rule(["通用"], UniversalStone), Rule(["外觀"], Appearance),
      Rule(holes, Equipment) ]
  }

  /** Reference first-match classifier: the label of the first rule that applies, else the default. */
  function FirstMatch(s: string, rules: seq<Rule>, otherwise: string): string
  {
    if |rules| == 0 then otherwise
    else if ContainsAny(s, rules[0].keywords) then rules[0].category
    else FirstMatch(s, rules[1..], otherwise)
  }

  /** Rule `i` applies and no earlier rule does. */
  predicate FirstApplicable(s: string, rules: seq<Rule>, i: nat)
    requires i < |rules|
  {
    ContainsAny(s, rules[i].keywords) && forall j :: 0 <= j < i ==> !ContainsAny(s, rules[j].keywords)
  }

  /** The first-match classifier returns the label of the earliest applicable rule, or the default when none applies. */
  lemma {:induction false} FirstMatchIsEarliest(s: string, rules: seq<Rule>, otherwise: string)
    ensures (forall i :: 0 <= i < |rules| ==> !ContainsAny(s, rules[i].keywords)) ==> FirstMatch(s, rules, otherwise) == otherwise
    ensures forall i :: 0 <= i < |rules| && FirstApplicable(s, rules, i) ==> FirstMatch(s, rules, otherwise) == rules[i].category
  {
    if |rules| > 0 {
      FirstMatchIsEarliest(s, rules[1..], otherwise);
      forall i | 0 <= i < |rules| && FirstApplicable(s, rules, i)
        ensures FirstMatch(s, rules, otherwise) == rules[i].category
      {
        if i > 0 {
          assert !ContainsAny(s, rules[0].keywords);
          assert rules[1..][i - 1] == rules[i];
          forall j | 0 <= j < i - 1 ensures !ContainsAny(s, rules[1..][j].keywords) {
            assert rules[1..][j] == rules[j + 1];
          }
        }
      }
      if forall i :: 0 <= i < |rules| ==> !ContainsAny(s, rules[i].keywords) {
        forall j | 0 <= j < |rules| - 1 ensures !ContainsAny(s, rules[1..][j].keywords) {
          assert rules[1..][j] == rules[j + 1];
        }
      }
    }
  }

  /** A single keyword is matched exactly when the text contains it. */
  lemma {:induction false} ContainsAnySingle(s: string, kw: string)
    ensures ContainsAny(s, [kw]) <==> Contains(s, kw)
  {
    if Contains(s, kw) {
      assert Contains(s, [kw][0]);
    }
  }

  /** The if-chain is the first-match classifier over the rule table, with the miscellaneous label as default. */
  lemma {:induction false} CategorizeIsFirstMatch(check: string, holes: seq<string>)
    ensures Categorize(check, holes) == FirstMatch(check, CategoryRules(holes), Miscellaneous)
  {
    var r0 := CategoryRules(holes);
    ContainsAnySingle(check, "武器");
    ContainsAnySingle(check, "防具");
    ContainsAnySingle(check, "追加");
    ContainsAnySingle(check, "特殊");
    ContainsAnySingle(check, "通用");
    ContainsAnySingle(check, "外觀");
    var r1 := [Rule(["防具"], ArmorStone), Rule(["追加"], AdditionalStone), Rule(["特殊"], SpecialStone),
      Rule(["通用"], UniversalStone), Rule(["外觀"], Appearance), Rule(holes, Equipment)];
    var r4 := [Rule(["通用"], UniversalStone), Rule(["外觀"], Appearance), Rule(holes, Equipment)];
    assert r0[1..] == r1;
    assert r1[1..][1..][1..] == r4;
    var r6 := [Rule(holes, Equipment)];
    assert r4[1..][1..] == r6;
    assert r6[1..] == [];
    assert FirstMatch(check, r6, Miscellaneous) == if ContainsAny(check, holes) then Equipment else Miscellaneous;
    assert FirstMatch(check, r4, Miscellaneous) == Categorize(check, holes) || Contains(check, "武器")
      || Contains(check, "防具") || Contains(check, "追加") || Contains(check, "特殊");
    var r3 := [Rule(["特殊"], SpecialStone)] + r4;
    var r2 := [Rule(["追加"], AdditionalStone)] + r3;
    assert r1 == [Rule(["防具"], ArmorStone)] + r2;
    assert FirstMatch(check, r3, Miscellaneous) == Categorize(check, holes) || Contains(check, "武器")
      || Contains(check, "防具") || Contains(check, "追加");
    assert FirstMatch(check, r2, Miscellaneous) == Categorize(check, holes) || Contains(check, "武器")
      || Contains(check, "防具");
    assert FirstMatch(check, r1, Miscellaneous) == Categorize(check, holes) || Contains(check, "武器");
  }

  // ---------------------------------------------------------------------
  // load_data: cleaning, categories and time order

  /** The first four columns of a CSV row; a missing cell is `None`. */
  datatype RawRow = RawRow(time: string, item: Option<string>, attr: Option<string>, price: Option<string>)

  /** A cleaned row: parsed time, item, attribute, numeric price, category and the unit volume. */
  datatype Row = Row(time: Time, item: string, attr: Option<string>, price: real, category: string, volume: int)

  const NotEnoughColumns: string := "欄位不足"

  /** The cleaned form of one raw row, or `None` when one of the drop steps removes it. */
  function CleanRow(r: RawRow, toDatetime: string -> Option<Time>, toNumeric: string -> Option<real>): Option<Row>
  {
    if r.item.None? || r.price.None? then None
    else
      match ParseGoogleTime(r.time, toDatetime)
      case None => None
      case Some(t) =>
        match toNumeric(r.price.value)
        case None => None
        case Some(p) => Some(Row(t, r.item.value, r.attr, p, GetCategory(r.item.value, r.attr), 1))
  }

  /** The rows that survive cleaning, in file order. */
  function Clean(rows: seq<RawRow>, toDatetime: string -> Option<Time>, toNumeric: string -> Option<real>): (r: seq<Row>)
    ensures |r| <= |rows|
  {
    if |rows| == 0 then []
    else
      var init := Clean(rows[..|rows| - 1], toDatetime, toNumeric);
      match CleanRow(rows[|rows| - 1], toDatetime, toNumeric)
      case None => init
      case Some(row) => init + [row]
  }

  function TimeKey(r: Row): real
  {
    r.time as real
  }

  /** The frame `load_data` returns for a table with enough columns. */
  function Loaded(rows: seq<RawRow>, toDatetime: string -> Option<Time>, toNumeric: string -> Option<real>): seq<Row>
  {
    SortBy(Clean(rows, toDatetime, toNumeric), TimeKey)
  }

  /**
    `load_data` after the CSV is read: with fewer than four columns an empty
    frame and the column error, otherwise the cleaned rows sorted by time.
   */
  method LoadData(columns: nat, rows: seq<RawRow>, toDatetime: string -> Option<Time>, toNumeric: string -> Option<real>)
      returns (frame: seq<Row>, err: Option<string>)
    ensures columns < 4 ==> frame == [] && err == Some(NotEnoughColumns)
    ensures columns >= 4 ==> err == None && frame == Loaded(rows, toDatetime, toNumeric)
  {
    if columns < 4 {
      return [], Some(NotEnoughColumns);
    }
    var kept: seq<Row> := [];
    for i := 0 to |rows|
      invariant kept == Clean(rows[..i], toDatetime, toNumeric)
    {
      assert rows[..i + 1][..i] == rows[..i];
      var r := rows[i];
      if r.item.Some? && r.price.Some? {
        var t := ParseGoogleTime(r.time, toDatetime);
        if t.Some? {
          var p := toNumeric(r.price.value);
          if p.Some? {
            var category := GetCategory(r.item.value, r.attr);
            kept := kept + [Row(t.value, r.item.value, r.attr, p.value, category, 1)];
          }
        }
      }
    }
    assert rows[..|rows|] == rows;
    frame := SortBy(kept, TimeKey);
    err := None;
  }

  /** A raw row survives cleaning exactly when its item and price are present and both converters succeed. */
  lemma {:induction false} CleanRowIff(r: RawRow, toDatetime: string -> Option<Time>, toNumeric: string -> Option<real>)
    ensures CleanRow(r, toDatetime, toNumeric).Some? <==>
      r.item.Some? && r.price.Some? && ParseGoogleTime(r.time, toDatetime).Some? && toNumeric(r.price.value).Some?
    ensures var c := CleanRow(r, toDatetime, toNumeric);
      c.Some? ==> (c.value.item == r.item.value && c.value.attr == r.attr
        && Some(c.value.time) == ParseGoogleTime(r.time, toDatetime) && Some(c.value.price) == toNumeric(r.price.value)
        && c.value.category == GetCategory(r.item.value, r.attr) && c.value.volume == 1)
  {
  }

  /** Cleaning keeps exactly the cleaned forms of the surviving rows, nothing else. */
  lemma {:induction false} CleanMembers(rows: seq<RawRow>, toDatetime: string -> Option<Time>, toNumeric: string -> Option<real>)
    ensures forall row :: row in Clean(rows, toDatetime, toNumeric) <==>
      exists i :: 0 <= i < |rows| && CleanRow(rows[i], toDatetime, toNumeric) == Some(row)
  {
    if |rows| > 0 {
      var init := rows[..|rows| - 1];
      CleanMembers(init, toDatetime, toNumeric);
      forall row ensures row in Clean(rows, toDatetime, toNumeric) <==>
        exists i :: 0 <= i < |rows| && CleanRow(rows[i], toDatetime, toNumeric) == Some(row)
      {
        if exists i :: 0 <= i < |rows| && CleanRow(rows[i], toDatetime, toNumeric) == Some(row) {
          var i :| 0 <= i < |rows| && CleanRow(rows[i], toDatetime, toNumeric) == Some(row);
          if i < |rows| - 1 {
            assert init[i] == rows[i];
          }
        }
        if row in Clean(init, toDatetime, toNumeric) {
          var i :| 0 <= i < |init| && CleanRow(init[i], toDatetime, toNumeric) == Some(row);
          assert rows[i] == init[i];
        }
      }
    }
  }

  /** Cleaning keeps the file order: cleaning two pieces and joining is cleaning the whole. */
  lemma {:induction false} CleanConcat(a: seq<RawRow>, b: seq<RawRow>, toDatetime: string -> Option<Time>, toNumeric: string -> Option<real>)
    ensures Clean(a + b, toDatetime, toNumeric) == Clean(a, toDatetime, toNumeric) + Clean(b, toDatetime, toNumeric)
  {
    if |b| == 0 {
      assert a + b == a;
    } else {
      var b' := b[..|b| - 1];
      CleanConcat(a, b', toDatetime, toNumeric);
      assert (a + b)[..|a + b| - 1] == a + b';
      assert (a + b)[|a + b| - 1] == b[|b| - 1];
    }
  }

  /**
    The loaded frame is ordered by time, holds exactly the surviving rows
    (as a multiset), keeps file order among equal times, and every row has
    unit volume and the category of its name and attribute.
   */
  lemma {:induction false} LoadedShape(rows: seq<RawRow>, toDatetime: string -> Option<Time>, toNumeric: string -> Option<real>, t: real)
    ensures var f, c := Loaded(rows, toDatetime, toNumeric), Clean(rows, toDatetime, toNumeric);
      SortedBy(f, TimeKey) && multiset(f) == multiset(c) && WithKey(f, TimeKey, t) == WithKey(c, TimeKey, t)
      && forall row :: row in f ==> row.volume == 1 && row.category == GetCategory(row.item, row.attr)
  {
    var f, c := Loaded(rows, toDatetime, toNumeric), Clean(rows, toDatetime, toNumeric);
    SortBySorted(c, TimeKey);
    SortByStable(c, TimeKey, t);
    CleanMembers(rows, toDatetime, toNumeric);
    forall row | row in f ensures row.volume == 1 && row.category == GetCategory(row.item, row.attr) {
      assert row in multiset(f);
      assert row in c;
      var i :| 0 <= i < |rows| && CleanRow(rows[i], toDatetime, toNumeric) == Some(row);
      CleanRowIff(rows[i], toDatetime, toNumeric);
    }
  }

  // ---------------------------------------------------------------------
  // filter_and_prepare_data

  /** The rows of one item, within `[start, end]` when both bounds are given. */
  function FilterAndPrepare(df: seq<Row>, itemName: string, start: Option<Time>, end: Option<Time>): seq<Row>
  {
    var target := Filter(df, (r: Row) => r.item == itemName);
    if start.Some? && end.Some? then Filter(target, (r: Row) => start.value <= r.time <= end.value) else target
  }

  /** The single condition a row must meet to be kept. */
  predicate Wanted(r: Row, itemName: string, start: Option<Time>, end: Option<Time>)
  {
    r.item == itemName && (start.Some? && end.Some? ==> start.value <= r.time <= end.value)
  }

  /** Filtering twice is filtering once on both conditions: the rows kept are exactly the wanted ones, in order. */
  lemma {:induction false} FilterAndPrepareIsOneFilter(df: seq<Row>, itemName: string, start: Option<Time>, end: Option<Time>)
    ensures FilterAndPrepare(df, itemName, start, end) == Filter(df, (r: Row) => Wanted(r, itemName, start, end))
  {
    if |df| > 0 {
      FilterAndPrepareIsOneFilter(df[1..], itemName, start, end);
      if start.Some? && end.Some? {
        var byItem := Filter(df, (r: Row) => r.item == itemName);
        if df[0].item == itemName {
          assert byItem == [df[0]] + Filter(df[1..], (r: Row) => r.item == itemName);
          assert ([df[0]] + Filter(df[1..], (r: Row) => r.item == itemName))[1..] == Filter(df[1..], (r: Row) => r.item == itemName);
        }
      }
    }
  }

  /** Every kept row is of the item and, when both bounds are given, inside them; every such row of the input is kept. */
  lemma {:induction false} FilterAndPrepareRows(df: seq<Row>, itemName: string, start: Option<Time>, end: Option<Time>)
    ensures var r := FilterAndPrepare(df, itemName, start, end);
      (forall row :: row in r ==> row.item == itemName && (start.Some? && end.Some? ==> start.value <= row.time <= end.value))
      && (forall row :: row in df && Wanted(row, itemName, start, end) ==> row in r)
      && |r| <= |df|
  {
    FilterAndPrepareIsOneFilter(df, itemName, start, end);
    var r := FilterAndPrepare(df, itemName, start, end);
    forall row | row in r ensures Wanted(row, itemName, start, end) {
      var k :| 0 <= k < |r| && r[k] == row;
    }
    forall row | row in df && Wanted(row, itemName, start, end) ensures row in r {
      var k :| 0 <= k < |df| && df[k] == row;
    }
  }

  /** Order is preserved: filtering two consecutive pieces and joining is filtering the whole. */
  lemma {:induction false} FilterAndPrepareConcat(a: seq<Row>, b: seq<Row>, itemName: string, start: Option<Time>, end: Option<Time>)
    ensures FilterAndPrepare(a + b, itemName, start, end)
      == FilterAndPrepare(a, itemName, start, end) + FilterAndPrepare(b, itemName, start, end)
  {
    FilterAndPrepareIsOneFilter(a + b, itemName, start, end);
    FilterAndPrepareIsOneFilter(a, itemName, start, end);
    FilterAndPrepareIsOneFilter(b, itemName, start, end);
    FilterConcat(a, b, (r: Row) => Wanted(r, itemName, start, end));
  }
}
