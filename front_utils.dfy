/** The front end's display helpers: the thousands separator of prices and
    the label maps for house statuses, roles and alert statuses. */
module FrontUtils {
  import opened Wrappers
  import opened Text
  import opened Numbers
  import Store

  // ------------------------------------------------------------ number text

  /** The same value with trailing fractional zeros dropped. */
  function Shortest(d: Dec): (r: Dec)
    ensures r.places <= d.places && r.coef * Pow10(d.places - r.places) == d.coef
    ensures r.places > 0 ==> r.coef % 10 != 0
    decreases d.places
  {
    if d.places > 0 && d.coef % 10 == 0 then
      var r := Shortest(Dec(d.coef / 10, d.places - 1));
      assert Pow10(d.places - r.places) == 10 * Pow10(d.places - 1 - r.places);
      r
    else d
  }

  /** Number.prototype.toString for a price: the shortest decimal text, no
      exponent. */
  function NumberText(d: Dec): string
  {
    Render(Shortest(d))
  }

  // ------------------------------------------------------------ formatPrice

  /** A word character of a regular expression without the u flag. */
  predicate WordChar(c: char)
  {
    IsAsciiAlnum(c) || c == '_'
  }

  /** The length of the run of digits starting at i. */
  function DigitRun(s: string, i: nat): (n: nat)
    requires i <= |s|
    ensures i + n <= |s| && forall k :: i <= k < i + n ==> IsDigit(s[k])
    ensures i + n == |s| || !IsDigit(s[i + n])
    decreases |s| - i
  {
    if i < |s| && IsDigit(s[i]) then 1 + DigitRun(s, i + 1) else 0
  }

  /** Where /\B(?=(\d{3})+(?!\d))/ matches: not at a word boundary, and the
      digits that follow come in whole groups of three up to a non-digit or
      the end. */
  predicate CommaBefore(s: string, i: nat)
  {
    0 < i < |s| && WordChar(s[i - 1]) && DigitRun(s, i) > 0 && DigitRun(s, i) % 3 == 0
  }

  /** The replacement with "," of every match from position i on. */
  function GroupedFrom(s: string, i: nat): string
    requires i <= |s|
    decreases |s| - i
  {
    if i == |s| then []
    else (if CommaBefore(s, i) then "," else "") + [s[i]] + GroupedFrom(s, i + 1)
  }

  /** text.replace(/\B(?=(\d{3})+(?!\d))/g, ','). */
  function Grouped(s: string): string
  {
    GroupedFrom(s, 0)
  }

  /** formatPrice(price): a falsy price (missing, NaN or zero) is "0";
      otherwise its text with separators inserted. */
  function FormatPrice(price: Option<Dec>): (r: string)
    ensures price.None? || price.value.coef == 0 ==> r == "0"
  {
    if price.None? || price.value.coef == 0 then "0" else Grouped(NumberText(price.value))
  }

  /** The reference grouping of a digit string: groups of three from the
      right, the first one shorter. */
  function GroupDigits(s: string): (r: string)
    decreases |s|
  {
    if |s| <= 3 then s else GroupDigits(s[..|s| - 3]) + "," + s[|s| - 3..]
  }

  lemma {:induction false} DigitRunAll(s: string, i: nat)
    requires AllDigits(s) && i <= |s|
    ensures DigitRun(s, i) == |s| - i
    decreases |s| - i
  {
    if i < |s| {
      DigitRunAll(s, i + 1);
    }
  }

  /** No comma goes into the last two digits of a digit string. */
  lemma {:induction false} GroupedTail(s: string, i: nat)
    requires AllDigits(s) && |s| - 2 <= i <= |s|
    ensures GroupedFrom(s, i) == s[i..]
    decreases |s| - i
  {
    if i < |s| {
      DigitRunAll(s, i);
      GroupedTail(s, i + 1);
    }
  }

  /** Cutting the last three digits off: the commas before them stay put and
      one comma goes in front of them. */
  lemma {:induction false} GroupedLastThree(s: string, i: nat)
    requires AllDigits(s) && |s| > 3 && i <= |s| - 3
    ensures GroupedFrom(s, i) == GroupedFrom(s[..|s| - 3], i) + "," + s[|s| - 3..]
    decreases |s| - i
  {
    if i == |s| - 3 {
      LastThreeStart(s);
    } else {
      GroupedLastThree(s, i + 1);
      LastThreeStep(s, i);
    }
  }

  /** Right before the last three digits: the comma and the three digits. */
  lemma LastThreeStart(s: string)
    requires AllDigits(s) && |s| > 3
    ensures GroupedFrom(s, |s| - 3) == GroupedFrom(s[..|s| - 3], |s| - 3) + "," + s[|s| - 3..]
  {
    var i, tail := |s| - 3, s[|s| - 3..];
    DigitRunAll(s, i);
    assert CommaBefore(s, i);
    GroupedTail(s, i + 1);
    calc {
      GroupedFrom(s, i);
      "," + [s[i]] + GroupedFrom(s, i + 1);
      "," + ([s[i]] + s[i + 1..]);
      { assert [s[i]] + s[i + 1..] == tail; }
      "," + tail;
      GroupedFrom(s[..i], i) + "," + tail;
    }
  }

  /** One digit further left: it gets the same comma with or without the last
      three digits, which are at least three digits away. */
  lemma LastThreeStep(s: string, i: nat)
    requires AllDigits(s) && |s| > 3 && i < |s| - 3
    requires GroupedFrom(s, i + 1) == GroupedFrom(s[..|s| - 3], i + 1) + "," + s[|s| - 3..]
    ensures GroupedFrom(s, i) == GroupedFrom(s[..|s| - 3], i) + "," + s[|s| - 3..]
  {
    var p, tail := s[..|s| - 3], s[|s| - 3..];
    DigitRunAll(s, i);
    assert AllDigits(p);
    DigitRunAll(p, i);
    var c := if CommaBefore(s, i) then "," else "";
    assert CommaBefore(s, i) == CommaBefore(p, i);
    calc {
      GroupedFrom(s, i);
      c + [s[i]] + GroupedFrom(s, i + 1);
      c + [s[i]] + (GroupedFrom(p, i + 1) + "," + tail);
      (c + [p[i]] + GroupedFrom(p, i + 1)) + "," + tail;
      GroupedFrom(p, i) + "," + tail;
    }
  }

  /** On a digit string the regular expression puts a comma before every
      group of three digits counted from the right. */
  lemma {:induction false} GroupedDigits(s: string)
    requires AllDigits(s)
    ensures Grouped(s) == GroupDigits(s)
    decreases |s|
  {
    if |s| <= 3 {
      if |s| <= 2 {
        GroupedTail(s, 0);
      } else {
        DigitRunAll(s, 0);
        GroupedTail(s, 1);
        assert s == [s[0]] + s[1..];
      }
    } else {
      GroupedLastThree(s, 0);
      GroupedDigits(s[..|s| - 3]);
    }
  }

  /** A leading sign is no word character: everything after it is grouped as
      if the sign were not there. */
  lemma {:induction false} GroupedAfterSign(c: char, u: string, j: nat)
    requires !WordChar(c) && j <= |u|
    ensures GroupedFrom([c] + u, j + 1) == GroupedFrom(u, j)
    decreases |u| - j
  {
    if j < |u| {
      var s := [c] + u;
      assert s[j + 1] == u[j];
      assert DigitRun(s, j + 1) == DigitRun(u, j) by { DigitRunShift(c, u, j); }
      GroupedAfterSign(c, u, j + 1);
    }
  }

  lemma {:induction false} DigitRunShift(c: char, u: string, j: nat)
    requires j <= |u|
    ensures DigitRun([c] + u, j + 1) == DigitRun(u, j)
    decreases |u| - j
  {
    if j < |u| {
      DigitRunShift(c, u, j + 1);
    }
  }

  /** A nonzero whole price shows its digits grouped by threes, a negative
      one after its minus sign. */
  lemma WholePrice(n: int)
    requires n != 0
    ensures n > 0 ==> FormatPrice(Some(Dec(n, 0))) == GroupDigits(NatToString(n))
    ensures n < 0 ==> FormatPrice(Some(Dec(n, 0))) == "-" + GroupDigits(NatToString(-n))
  {
    if n > 0 {
      GroupedDigits(NatToString(n));
    } else {
      var u := NatToString(-n);
      GroupedAfterSign('-', u, 0);
      assert Grouped("-" + u) == [('-')] + GroupedFrom("-" + u, 1);
      GroupedDigits(u);
    }
  }

  /** Deleting the commas gives back the text the separators went into. */
  lemma {:induction false} UngroupFrom(s: string, i: nat)
    requires ',' !in s && i <= |s|
    ensures RemoveChar(GroupedFrom(s, i), ',') == s[i..]
    decreases |s| - i
  {
    if i < |s| {
      UngroupFrom(s, i + 1);
      UngroupCons(s, i);
    }
  }

  lemma UngroupCons(s: string, i: nat)
    requires ',' !in s && i < |s|
    requires RemoveChar(GroupedFrom(s, i + 1), ',') == s[i + 1..]
    ensures RemoveChar(GroupedFrom(s, i), ',') == s[i..]
  {
    UngroupStep(s, i);
    assert s[i..] == [s[i]] + s[i + 1..];
  }

  /** One position of the grouped text: its comma, if any, is deleted and its
      character kept. */
  lemma UngroupStep(s: string, i: nat)
    requires ',' !in s && i < |s|
    ensures RemoveChar(GroupedFrom(s, i), ',') == [s[i]] + RemoveChar(GroupedFrom(s, i + 1), ',')
  {
    var c := if CommaBefore(s, i) then "," else "";
    var rest := GroupedFrom(s, i + 1);
    assert s[i] != ',';
    assert RemoveChar([s[i]], ',') == [s[i]];
    assert RemoveChar(c, ',') == [];
    RemoveCharConcat(c + [s[i]], rest);
    RemoveCharConcat(c, [s[i]]);
  }

  lemma {:induction false} RemoveCharConcat(a: string, b: string)
    ensures RemoveChar(a + b, ',') == RemoveChar(a, ',') + RemoveChar(b, ',')
    decreases |a|
  {
    if a != [] {
      RemoveCharConcat(a[1..], b);
      assert (a + b)[1..] == a[1..] + b;
    } else {
      assert a + b == b;
    }
  }

  /** The separators are the only change: a text without commas comes back
      from the formatted one by deleting them. */
  lemma Ungroup(s: string)
    requires ',' !in s
    ensures RemoveChar(Grouped(s), ',') == s
  {
    UngroupFrom(s, 0);
  }

  /** The fractional digits are grouped too: 1234.5678 shows as 1,234.5,678. */
  lemma FractionGroupedAsWritten(s: string)
    requires s == "1234.5678"
    ensures Grouped(s) == "1,234.5,678"
  {
    FractionDigitsGrouped(s);
    DigitRunAt(s);
    assert GroupedFrom(s, 3) == "4.5,678" by {
      assert GroupedFrom(s, 5) == "5,678";
      assert GroupedFrom(s, 4) == ".5,678";
    }
    assert GroupedFrom(s, 1) == ",234.5,678" by {
      assert GroupedFrom(s, 2) == "34.5,678";
    }
  }

  /** The three digits after "1234.5" get their comma. */
  lemma FractionDigitsGrouped(s: string)
    requires s == "1234.5678"
    ensures GroupedFrom(s, 6) == ",678"
  {
    DigitRunAt(s);
    assert GroupedFrom(s, 9) == "";
    assert GroupedFrom(s, 8) == "8";
    assert GroupedFrom(s, 7) == "78";
  }

  lemma DigitRunAt(s: string)
    requires s == "1234.5678"
    ensures DigitRun(s, 9) == 0 && DigitRun(s, 8) == 1 && DigitRun(s, 7) == 2 && DigitRun(s, 6) == 3
    ensures DigitRun(s, 5) == 4 && DigitRun(s, 4) == 0 && DigitRun(s, 3) == 1 && DigitRun(s, 2) == 2
    ensures DigitRun(s, 1) == 3
  {
    assert DigitRun(s, 9) == 0;
    assert DigitRun(s, 4) == 0;
  }

  /** The evident intent: separators in the whole part only, the fraction
      left as it is. */
  function GroupedWhole(s: string): (r: string)
    ensures '.' in s ==> exists k :: 0 <= k <= |r| && r[k..] == s[IndexOf(s, '.')..]
    ensures '.' !in s ==> r == Grouped(s)
  {
    if '.' in s then
      var k := IndexOf(s, '.');
      var r := Grouped(s[..k]) + s[k..];
      assert r[|Grouped(s[..k])|..] == s[k..];
      r
    else Grouped(s)
  }

  /** formatPrice with the separators confined to the whole part. */
  function FormatPriceWhole(price: Option<Dec>): (r: string)
    ensures price.None? || price.value.coef == 0 ==> r == "0"
  {
    if price.None? || price.value.coef == 0 then "0" else GroupedWhole(NumberText(price.value))
  }

  /** The corrected form groups 1234.5678 as 1,234.5678, agrees with the
      original on whole numbers, and still loses nothing but its commas. */
  lemma GroupedWholeCorrect(s: string)
    requires ',' !in s
    ensures s == "1234.5678" ==> GroupedWhole(s) == "1,234.5678"
    ensures '.' !in s ==> GroupedWhole(s) == Grouped(s)
    ensures RemoveChar(GroupedWhole(s), ',') == s
  {
    if s == "1234.5678" {
      GroupedWholeExample(s);
    }
    if '.' in s {
      UngroupWhole(s, IndexOf(s, '.'));
    } else {
      Ungroup(s);
    }
  }

  lemma UngroupWhole(s: string, k: nat)
    requires ',' !in s && '.' in s && k == IndexOf(s, '.')
    ensures RemoveChar(GroupedWhole(s), ',') == s
  {
    assert GroupedWhole(s) == Grouped(s[..k]) + s[k..];
    UngroupBefore(s, k);
  }

  lemma UngroupBefore(s: string, k: nat)
    requires ',' !in s && k <= |s|
    ensures RemoveChar(Grouped(s[..k]) + s[k..], ',') == s
  {
    var a, b := s[..k], s[k..];
    assert ',' !in a && ',' !in b;
    Ungroup(a);
    RemoveCharConcat(Grouped(a), b);
    assert a + b == s;
  }

  lemma GroupedWholeExample(s: string)
    requires s == "1234.5678"
    ensures GroupedWhole(s) == "1,234.5678"
  {
    PointOfExample(s);
    GroupsOfExample(s[..4]);
  }

  lemma PointOfExample(s: string)
    requires s == "1234.5678"
    ensures '.' in s && IndexOf(s, '.') == 4
    ensures s[..4] == "1234" && s[4..] == ".5678"
  {
    assert s[4] == '.' && '.' !in s[..4];
  }

  lemma GroupsOfExample(s: string)
    requires s == "1234"
    ensures Grouped(s) == "1,234"
  {
    assert AllDigits(s);
    GroupedDigits(s);
    assert s[..1] == "1" && s[1..] == "234";
  }

  /** The price 1234.5678 as formatPrice shows it, and as intended. */
  lemma FractionPriceAsWritten(d: Dec)
    requires d == Dec(12345678, 4)
    ensures FormatPrice(Some(d)) == "1,234.5,678"
    ensures FormatPriceWhole(Some(d)) == "1,234.5678"
  {
    FormatPriceText(d);
    TextOfExample(d);
    FractionGroupedAsWritten(NumberText(d));
    GroupedWholeExample(NumberText(d));
  }

  lemma FormatPriceText(d: Dec)
    requires d.coef != 0
    ensures FormatPrice(Some(d)) == Grouped(NumberText(d))
    ensures FormatPriceWhole(Some(d)) == GroupedWhole(NumberText(d))
  {
  }

  lemma TextOfExample(d: Dec)
    requires d == Dec(12345678, 4)
    ensures NumberText(d) == "1234.5678"
  {
    assert Shortest(d) == d;
    RenderFractionShape(d);
    SplitOfExample();
    WholeDigitsOfExample();
    FractionDigitsOfExample();
    assert "1234" + "." + "5678" == "1234.5678";
  }

  lemma SplitOfExample()
    ensures SplitAt(12345678, 4) == (1234, 5678)
  {
    assert Pow10(4) == 10000;
  }

  lemma WholeDigitsOfExample()
    ensures NatToString(1234) == "1234"
  {
    assert NatToString(1) == "1";
    assert NatToString(12) == "12";
    assert NatToString(123) == "123";
  }

  lemma FractionDigitsOfExample()
    ensures ZeroPad(NatToString(5678), 4) == "5678"
  {
    assert NatToString(5) == "5";
    assert NatToString(56) == "56";
    assert NatToString(567) == "567";
    assert NatToString(5678) == "5678";
  }

  // ------------------------------------------------------------ label maps

  /** statusMap[status] || status: the label when there is one, the key
      itself otherwise. */
  function Label(labels: map<string, string>, key: string, fallback: string): (r: string)
    ensures key in labels && labels[key] != "" ==> r == labels[key]
    ensures !(key in labels && labels[key] != "") ==> r == fallback
  {
    if key in labels && labels[key] != "" then labels[key] else fallback
  }

  const HouseStatusTexts: map<string, string> := map["available" := "在售", "sold" := "已售", "rented" := "已租", "reserved" := "预定"]
  const HouseStatusTypes: map<string, string> := map["available" := "success", "sold" := "info", "rented" := "warning", "reserved" := "primary"]
  const RoleTexts: map<string, string> := map["user" := "普通用户", "agent" := "经纪人", "admin" := "管理员"]
  const AlertStatusTexts: map<string, string> := map["active" := "激活", "triggered" := "已触发", "cancelled" := "已取消"]
  const AlertStatusTypes: map<string, string> := map["active" := "success", "triggered" := "warning", "cancelled" := "info"]

  function HouseStatusText(status: string): string { Label(HouseStatusTexts, status, status) }
  function HouseStatusType(status: string): string { Label(HouseStatusTypes, status, "info") }
  function UserRoleText(role: string): string { Label(RoleTexts, role, role) }
  function AlertStatusText(status: string): string { Label(AlertStatusTexts, status, status) }
  function AlertStatusType(status: string): string { Label(AlertStatusTypes, status, "info") }

  /** Unknown keys: the text maps echo them, the type maps answer "info". */
  lemma UnknownKeys(key: string)
    ensures key !in HouseStatusTexts ==> HouseStatusText(key) == key && HouseStatusType(key) == "info"
    ensures key !in RoleTexts ==> UserRoleText(key) == key
    ensures key !in AlertStatusTexts ==> AlertStatusText(key) == key && AlertStatusType(key) == "info"
  {
  }

  /** Every value the API can send has a label of its own: no house status,
      role or alert status of the back end is shown raw, and the tag types
      are the ones Element Plus knows. */
  lemma LabelsCoverChoices()
    ensures forall s :: s in Store.HouseStatusChoices ==> HouseStatusText(s) != s && HouseStatusText(s) == HouseStatusTexts[s]
    ensures forall r :: r in Store.RoleChoices ==> UserRoleText(r) != r && UserRoleText(r) == RoleTexts[r]
    ensures forall s :: s in Store.AlertStatusChoices ==> AlertStatusText(s) != s && AlertStatusText(s) == AlertStatusTexts[s]
    ensures forall s :: HouseStatusType(s) in {"success", "info", "warning", "primary"}
    ensures forall s :: AlertStatusType(s) in {"success", "info", "warning"}
  {
    HouseStatusLabels();
    RoleLabels();
    AlertStatusLabels();
    TagTypes();
  }

  lemma HouseStatusLabels()
    ensures forall s :: s in Store.HouseStatusChoices ==> HouseStatusText(s) != s && HouseStatusText(s) == HouseStatusTexts[s]
  {
  }

  lemma RoleLabels()
    ensures forall r :: r in Store.RoleChoices ==> UserRoleText(r) != r && UserRoleText(r) == RoleTexts[r]
  {
  }

  lemma AlertStatusLabels()
    ensures forall s :: s in Store.AlertStatusChoices ==> AlertStatusText(s) != s && AlertStatusText(s) == AlertStatusTexts[s]
  {
  }

  lemma TagTypes()
    ensures forall s :: HouseStatusType(s) in {"success", "info", "warning", "primary"}
    ensures forall s :: AlertStatusType(s) in {"success", "info", "warning"}
  {
  }
}
