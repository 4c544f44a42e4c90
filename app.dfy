/**
  The price-tracking page: its own copy of the category rule, the order of
  the category choices, the price delta shown next to the latest price, and
  the above/below-average status column of the trade table.
 */
module App {
  import opened Wrappers
  import opened Stats
  import opened Text
  import opened Lists
  import opened Preprocess

  // ---------------------------------------------------------------------
  // get_category, page version

  /** The page's hole keywords: the loader's list without "空洞". */
  const AppHoles: seq<string> := ["雙洞", "單洞", "不限洞"]

  /** The page's category of a row. */
  function AppCategory(name: string, attr: Option<string>): string
  {
    Categorize(CheckString(name, attr), AppHoles)
  }

  /** Any of the loader's hole keywords is any of the page's, or "空洞". */
  lemma {:induction false} HolesSplit(check: string)
    ensures ContainsAny(check, Holes) <==> ContainsAny(check, AppHoles) || Contains(check, "空洞")
  {
    assert forall k :: 0 <= k < 3 ==> Holes[k] == AppHoles[k];
    assert Holes[3] == "空洞";
    if ContainsAny(check, Holes) {
      var k :| 0 <= k < |Holes| && Contains(check, Holes[k]);
      if k < 3 {
        assert Contains(check, AppHoles[k]);
      }
    }
    if ContainsAny(check, AppHoles) {
      var k :| 0 <= k < |AppHoles| && Contains(check, AppHoles[k]);
      assert Contains(check, Holes[k]);
    }
  }

  /**
    The page and the loader disagree on a row exactly when its text names no
    earlier category and no page hole keyword but contains "空洞": the loader
    then says equipment and the page says miscellaneous.
   */
  lemma {:induction false} CategoryVersionsDiffer(name: string, attr: Option<string>)
    ensures var check := CheckString(name, attr);
      AppCategory(name, attr) != GetCategory(name, attr)
      <==> (AppCategory(name, attr) == Miscellaneous && Contains(check, "空洞"))
    ensures AppCategory(name, attr) != GetCategory(name, attr)
      ==> GetCategory(name, attr) == Equipment && AppCategory(name, attr) == Miscellaneous
  {
    var check := CheckString(name, attr);
    HolesSplit(check);
    assert Signature(Equipment) != Signature(Miscellaneous);
    if Contains(check, "武器") || Contains(check, "防具") || Contains(check, "追加") || Contains(check, "特殊")
      || Contains(check, "通用") || Contains(check, "外觀") {
      assert AppCategory(name, attr) == GetCategory(name, attr);
      assert AppCategory(name, attr) != Miscellaneous;
    } else {
      assert GetCategory(name, attr) == if ContainsAny(check, Holes) then Equipment else Miscellaneous;
      assert AppCategory(name, attr) == if ContainsAny(check, AppHoles) then Equipment else Miscellaneous;
    }
  }

  // ---------------------------------------------------------------------
  // Category choices

  /** The fixed display order of the known categories. */
  const CustomOrder: seq<string> :=
    [WeaponStone, ArmorStone, AdditionalStone, SpecialStone, UniversalStone, Equipment, Appearance, Miscellaneous]

  /** The extra first choice that shows every category. */
  const ShowAll: string := "全部顯示"

  /** The category column of a frame. */
  function Categories(df: seq<Row>): (r: seq<string>)
    ensures |r| == |df| && forall i :: 0 <= i < |df| ==> r[i] == df[i].category
  {
    seq(|df|, i requires 0 <= i < |df| => df[i].category)
  }

  /** The categories present in the frame, each once, in order of first appearance. */
  function ExistingCategories(df: seq<Row>): seq<string>
  {
    Unique(Categories(df))
  }

  /** The present known categories in the fixed order, then the unknown ones in order of appearance. */
  function SortedCategories(existing: seq<string>): seq<string>
  {
    Filter(CustomOrder, (c: string) => c in existing) + Filter(existing, (c: string) => c !in CustomOrder)
  }

  /** The radio-button choices: show-all first, then the sorted categories. */
  function CategoryOptions(df: seq<Row>): seq<string>
  {
    [ShowAll] + SortedCategories(ExistingCategories(df))
  }

  /** The last and the third-last character, which tell the known categories apart. */
  function Signature(c: string): (char, char)
  {
    if |c| < 3 then (' ', ' ') else (c[|c| - 1], c[|c| - 3])
  }

  /** The eight known categories are distinct. */
  lemma {:induction false} CustomOrderDistinct()
    ensures NoDuplicates(CustomOrder)
  {
    var o := CustomOrder;
    forall i, j | 0 <= i < j < |o| ensures o[i] != o[j] {
      assert Signature(o[i]) != Signature(o[j]) by {
        assert Signature(o[0]) == ('石', '器') && Signature(o[1]) == ('石', '具');
        assert Signature(o[2]) == ('石', '加') && Signature(o[3]) == ('石', '殊');
        assert Signature(o[4]) == ('石', '用') && Signature(o[5]) == ('備', ' ');
        assert Signature(o[6]) == ('觀', ' ') && Signature(o[7]) == ('項', '他');
      }
    }
  }

  /** Two duplicate-free sequences with no common element concatenate without duplicates. */
  lemma {:induction false} DisjointConcat(a: seq<string>, b: seq<string>)
    requires NoDuplicates(a) && NoDuplicates(b)
    requires forall x :: x in a ==> x !in b
    ensures NoDuplicates(a + b)
  {
    var ab := a + b;
    forall i, j | 0 <= i < j < |ab| ensures ab[i] != ab[j] {
      if j < |a| {
        assert ab[i] == a[i] && ab[j] == a[j];
      } else if i >= |a| {
        assert ab[i] == b[i - |a|] && ab[j] == b[j - |a|];
      } else {
        assert ab[i] == a[i] && a[i] in a;
        assert ab[j] == b[j - |a|] && b[j - |a|] in b;
      }
    }
  }

  /**
    The sorted categories are a permutation of the existing ones, every known
    category comes before every unknown one, and the options add show-all in front.
   */
  lemma {:induction false} SortedCategoriesPermutation(df: seq<Row>)
    ensures var existing, sorted := ExistingCategories(df), SortedCategories(ExistingCategories(df));
      multiset(sorted) == multiset(existing)
      && (forall i, j :: 0 <= i < j < |sorted| && sorted[j] in CustomOrder ==> sorted[i] in CustomOrder)
      && CategoryOptions(df) == [ShowAll] + sorted
      && |CategoryOptions(df)| == |existing| + 1
  {
    var existing := ExistingCategories(df);
    UniqueMembers(Categories(df));
    var known := Filter(CustomOrder, (c: string) => c in existing);
    var unknown := Filter(existing, (c: string) => c !in CustomOrder);
    var sorted := known + unknown;
    CustomOrderDistinct();
    FilterNoDuplicates(CustomOrder, (c: string) => c in existing);
    FilterNoDuplicates(existing, (c: string) => c !in CustomOrder);
    DisjointConcat(known, unknown);
    forall x ensures x in sorted <==> x in existing {
      if x in existing && x in CustomOrder {
        var k :| 0 <= k < |CustomOrder| && CustomOrder[k] == x;
        assert x in known;
      }
      if x in existing && x !in CustomOrder {
        var k :| 0 <= k < |existing| && existing[k] == x;
        assert x in unknown;
      }
      if x in known {
        var k :| 0 <= k < |known| && known[k] == x;
      }
      if x in unknown {
        var k :| 0 <= k < |unknown| && unknown[k] == x;
      }
    }
    DistinctSameMembers(sorted, existing);
    assert |multiset(sorted)| == |multiset(existing)|;
    forall i, j | 0 <= i < j < |sorted| && sorted[j] in CustomOrder ensures sorted[i] in CustomOrder {
      if i >= |known| {
        assert false;
      }
      assert sorted[i] == known[i];
    }
  }

  // ---------------------------------------------------------------------
  // Latest-price delta

  /** The delta next to the latest price: the last change, shown only when there is one and it is not zero. */
  function Delta(prices: seq<real>): Option<real>
  {
    if |prices| >= 2 && prices[|prices| - 1] - prices[|prices| - 2] != 0.0 then
      Some(prices[|prices| - 1] - prices[|prices| - 2])
    else None
  }

  /**
    A delta is shown exactly when there are two prices and the last two
    differ, and adding it to the previous price gives the latest.
   */
  lemma {:induction false} DeltaIff(prices: seq<real>)
    ensures Delta(prices).Some? <==> |prices| >= 2 && prices[|prices| - 1] != prices[|prices| - 2]
    ensures Delta(prices).Some? ==>
      (prices[|prices| - 2] + Delta(prices).value == prices[|prices| - 1] && Delta(prices).value != 0.0)
  {
  }

  // ---------------------------------------------------------------------
  // Status column

  datatype Status = AboveAverage | BelowAverage

  /** The text of each status. */
  function StatusText(s: Status): string
  {
    match s
    case AboveAverage => "🔴 高於均價"
    case BelowAverage => "🟢 低於均價"
  }

  /** Above average when the difference from the average is positive; equal counts as below. */
  function StatusOf(price: real, avg: real): Status
  {
    if price - avg > 0.0 then AboveAverage else BelowAverage
  }

  /** The status of each row of the item's table, newest first, against the item's mean price. */
  function StatusColumn(prices: seq<real>): (r: seq<Status>)
    requires |prices| > 0
    ensures |r| == |prices|
    ensures forall i :: 0 <= i < |prices| ==>
      (r[i] == AboveAverage <==> prices[|prices| - 1 - i] > Mean(prices))
  {
    var avg := Mean(prices);
    seq(|prices|, i requires 0 <= i < |prices| => StatusOf(prices[|prices| - 1 - i], avg))
  }

  /** Not every row can be above average: some row is marked below. */
  lemma {:induction false} SomeRowNotAbove(prices: seq<real>)
    requires |prices| > 0
    ensures exists i :: 0 <= i < |prices| && StatusColumn(prices)[i] == BelowAverage
  {
    var n, avg := |prices|, Mean(prices);
    var col := StatusColumn(prices);
    if forall i :: 0 <= i < n ==> col[i] == AboveAverage {
      forall i | 0 <= i < n ensures prices[i] > avg {
        assert col[n - 1 - i] == StatusOf(prices[i], avg);
      }
      SumAbove(prices, avg);
      MeanTimesLength(prices);
      assert false;
    }
  }

  /** Every row is marked below average only when all prices are equal. */
  lemma {:induction false} AllBelowMeansFlat(prices: seq<real>)
    requires |prices| > 0
    requires forall i :: 0 <= i < |prices| ==> StatusColumn(prices)[i] == BelowAverage
    ensures forall i :: 0 <= i < |prices| ==> prices[i] == Mean(prices)
  {
    var n, avg := |prices|, Mean(prices);
    var col := StatusColumn(prices);
    forall i | 0 <= i < n ensures prices[i] <= avg {
      assert col[n - 1 - i] == StatusOf(prices[i], avg);
    }
    MeanTimesLength(prices);
    SumAtMost(prices, avg);
    forall k | 0 <= k < n ensures prices[k] == avg {
      if prices[k] < avg {
        SumBelow(prices, avg, k);
        assert false;
      }
    }
  }
}
