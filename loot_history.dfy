/**
  The loot-history parser (parsers/loot_history.go): each input line that
  matches
      (\d\d:\d\d:\d\d) ([\S ]+) has looted ([\d,'\.]+) x ([\S ]+)$
  yields one LootItem; the items are then sorted by name. The pattern is
  anchored only at the end, and Go's regexp picks the leftmost match and,
  within it, the longest player name (leftmost-first, greedy), which is what
  FindMatch below searches for. `regexParseLines` and `ToInt` are not part of
  this model: the numbered lines arrive as a sequence in the order the line
  splitter visits them, and the quantity conversion is a parameter.
*/
module LootHistory {
  import opened Wrappers
  import Strs
  import Sorting

  datatype LootItem = LootItem(time: string, playerName: string, quantity: int, name: string)

  datatype LootHistory = LootHistory(items: seq<LootItem>, lines: seq<int>)

  datatype NumberedLine = NumberedLine(Num: int, Text: string)

  /** The four capture groups of one match. */
  datatype Groups = Groups(time: string, player: string, qty: string, name: string)

  function Name(r: LootHistory): string
  {
    "loot_history"
  }

  function Lines(r: LootHistory): seq<int>
  {
    r.lines
  }

  // ---- the character classes ----

  predicate IsDigit(c: char) { '0' <= c <= '9' }

  /** `[\S ]`: anything but the whitespace RE2's `\s` names (tab, newline, form feed, carriage return). */
  predicate IsText(c: char) { c != '\t' && c != '\n' && c != '\U{000C}' && c != '\r' }

  /** `[\d,'\.]`. */
  predicate IsQtyChar(c: char) { IsDigit(c) || c == ',' || c == '\'' || c == '.' }

  predicate AllText(s: string) { forall i :: 0 <= i < |s| ==> IsText(s[i]) }

  predicate AllQty(s: string) { forall i :: 0 <= i < |s| ==> IsQtyChar(s[i]) }

  /** `\d\d:\d\d:\d\d`. */
  predicate IsTime(t: string)
  {
    |t| == 8 && IsDigit(t[0]) && IsDigit(t[1]) && t[2] == ':' && IsDigit(t[3]) &&
    IsDigit(t[4]) && t[5] == ':' && IsDigit(t[6]) && IsDigit(t[7])
  }

  const Looted := " has looted "
  const Times := " x "

  /** End of the longest run of quantity characters starting at `from`. */
  function QtyEnd(line: string, from: nat): (r: nat)
    requires from <= |line|
    ensures from <= r <= |line|
    ensures forall i :: from <= i < r ==> IsQtyChar(line[i])
    ensures r == |line| || !IsQtyChar(line[r])
    decreases |line| - from
  {
    if from < |line| && IsQtyChar(line[from]) then QtyEnd(line, from + 1) else from
  }

  /**
    The pattern matches from position `s` with the player name ending at `e`
    (where " has looted " starts): the time, a space, a non-empty player
    name, " has looted ", the longest run of quantity characters (non-empty),
    " x ", and a non-empty item name reaching the end of the line.
  */
  predicate MatchAt(line: string, s: nat, e: nat)
  {
    s + 9 < e && e + 12 <= |line| &&
    IsTime(line[s..s + 8]) && line[s + 8] == ' ' && AllText(line[s + 9..e]) &&
    line[e..e + 12] == Looted &&
    var f := QtyEnd(line, e + 12);
    f > e + 12 && f + 3 < |line| && line[f..f + 3] == Times && AllText(line[f + 3..])
  }

  /** The largest player-name end at most `e` that matches from `s` (greedy `[\S ]+`). */
  function FindEnd(line: string, s: nat, e: nat): (r: Option<nat>)
    ensures r.Some? ==> r.value <= e && MatchAt(line, s, r.value)
    ensures r.Some? ==> forall e': nat :: r.value < e' <= e ==> !MatchAt(line, s, e')
    ensures r.None? ==> forall e': nat :: e' <= e ==> !MatchAt(line, s, e')
    decreases e
  {
    if MatchAt(line, s, e) then Some(e)
    else if e == 0 then None
    else FindEnd(line, s, e - 1)
  }

  /** The leftmost start at least `s` from which the pattern matches, with its greedy end. */
  function FindMatch(line: string, s: nat): (r: Option<(nat, nat)>)
    ensures r.Some? ==> s <= r.value.0 && MatchAt(line, r.value.0, r.value.1)
    ensures r.Some? ==> forall e': nat :: r.value.1 < e' ==> !MatchAt(line, r.value.0, e')
    ensures r.Some? ==> forall s': nat, e': nat :: s <= s' < r.value.0 ==> !MatchAt(line, s', e')
    ensures r.None? ==> forall s': nat, e': nat :: s <= s' ==> !MatchAt(line, s', e')
    decreases |line| - s
  {
    if s >= |line| then None
    else
      match FindEnd(line, s, |line|)
      case Some(e) => Some((s, e))
      case None => FindMatch(line, s + 1)
  }

  /** The capture groups of a match from `s` whose player name ends at `e`. */
  function GroupsAt(line: string, s: nat, e: nat): Groups
    requires MatchAt(line, s, e)
  {
    var f := QtyEnd(line, e + 12);
    Groups(line[s..s + 8], line[s + 9..e], line[e + 12..f], line[f + 3..])
  }

  /** `reLootHistory.FindStringSubmatch`: the capture groups, if the line matches. */
  function MatchLine(line: string): Option<Groups>
  {
    match FindMatch(line, 0)
    case None => None
    case Some((s, e)) => Some(GroupsAt(line, s, e))
  }

  /** The text a match covers, rebuilt from its groups. */
  function Compose(g: Groups): string
  {
    g.time + " " + g.player + Looted + g.qty + Times + g.name
  }

  predicate WellFormed(g: Groups)
  {
    IsTime(g.time) && g.player != [] && AllText(g.player) &&
    g.qty != [] && AllQty(g.qty) && g.name != [] && AllText(g.name)
  }

  lemma MatchAtSound(line: string, s: nat, e: nat)
    requires MatchAt(line, s, e)
    ensures WellFormed(GroupsAt(line, s, e))
    ensures line[s..] == Compose(GroupsAt(line, s, e))
  {
    var f := QtyEnd(line, e + 12);
    var g := GroupsAt(line, s, e);
    assert AllQty(g.qty) by {
      forall i | 0 <= i < |g.qty| ensures IsQtyChar(g.qty[i]) {
        assert g.qty[i] == line[e + 12 + i];
      }
    }
    assert line[s..] == line[s..s + 8] + [' '] + line[s + 9..e] + line[e..e + 12] + line[e + 12..f] + line[f..f + 3] + line[f + 3..];
  }

  /** What a match promises: the groups are well formed and the line ends with the text they compose. */
  lemma MatchLineSound(line: string)
    requires MatchLine(line).Some?
    ensures WellFormed(MatchLine(line).value)
    ensures Strs.HasSuffix(line, Compose(MatchLine(line).value))
  {
    var (s, e) := FindMatch(line, 0).value;
    MatchAtSound(line, s, e);
  }

  /** Every line that ends with a well-formed composition matches, whatever precedes it. */
  lemma MatchLineComplete(pre: string, g: Groups)
    requires WellFormed(g)
    ensures MatchLine(pre + Compose(g)).Some?
  {
    var line := pre + Compose(g);
    var s := |pre|;
    var e := s + 9 + |g.player|;
    var f := e + 12 + |g.qty|;
    ComposedSlices(pre, g);
    QtyEndStops(line, e + 12, f);
    assert MatchAt(line, s, e);
  }

  /** Where each group sits in a line ending with their composition. */
  lemma ComposedSlices(pre: string, g: Groups)
    requires |g.time| == 8
    ensures var line := pre + Compose(g);
      var e := |pre| + 9 + |g.player|;
      var f := e + 12 + |g.qty|;
      && |line| == f + 3 + |g.name|
      && line[|pre|..|pre| + 8] == g.time && line[|pre| + 8] == ' '
      && line[|pre| + 9..e] == g.player && line[e..e + 12] == Looted
      && line[e + 12..f] == g.qty && line[f..f + 3] == Times && line[f + 3..] == g.name
  {
    var line := pre + Compose(g);
    var s := |pre|;
    var e := s + 9 + |g.player|;
    var f := e + 12 + |g.qty|;
    assert line[s..] == Compose(g);
    assert line[s..s + 8] == g.time;
    assert line[s + 9..e] == g.player;
    assert line[e..e + 12] == Looted;
    assert line[e + 12..f] == g.qty;
    assert line[f..f + 3] == Times;
    assert line[f + 3..] == g.name;
  }

  lemma QtyEndStops(line: string, from: nat, f: nat)
    requires from <= f < |line|
    requires forall i :: from <= i < f ==> IsQtyChar(line[i])
    requires !IsQtyChar(line[f])
    ensures QtyEnd(line, from) == f
    decreases f - from
  {
    if from < f {
      QtyEndStops(line, from + 1, f);
    }
  }

  /** The items the matching lines yield, in input order. */
  function MatchedItems(input: seq<NumberedLine>, toInt: string -> int): seq<LootItem>
  {
    if input == [] then []
    else
      var head := match MatchLine(input[0].Text)
        case Some(g) => [LootItem(g.time, g.player, toInt(g.qty), g.name)]
        case None => [];
      head + MatchedItems(input[1..], toInt)
  }

  /** The numbers of the matching lines, in input order. */
  function MatchedLines(input: seq<NumberedLine>): (r: seq<int>)
    ensures |r| <= |input|
  {
    if input == [] then []
    else (if MatchLine(input[0].Text).Some? then [input[0].Num] else []) + MatchedLines(input[1..])
  }

  /** The lines that do not match, untouched. */
  function Unmatched(input: seq<NumberedLine>): map<int, string>
  {
    if input == [] then map[]
    else
      var rest := Unmatched(input[1..]);
      if MatchLine(input[0].Text).Some? then rest else rest[input[0].Num := input[0].Text]
  }

  /** One item per matched line. */
  lemma {:induction false} ItemsMatchLines(input: seq<NumberedLine>, toInt: string -> int)
    ensures |MatchedItems(input, toInt)| == |MatchedLines(input)|
  {
    if input != [] {
      ItemsMatchLines(input[1..], toInt);
    }
  }

  /** A line number is either matched or kept in the rest (for inputs with distinct numbers, not both). */
  lemma {:induction false} MatchedOrRest(input: seq<NumberedLine>, n: int)
    requires forall i, j :: 0 <= i < j < |input| ==> input[i].Num != input[j].Num
    ensures (n in MatchedLines(input) || n in Unmatched(input)) <==> exists i :: 0 <= i < |input| && input[i].Num == n
    ensures !(n in MatchedLines(input) && n in Unmatched(input))
  {
    if input != [] {
      MatchedOrRest(input[1..], n);
      if n == input[0].Num {
        assert forall i :: 0 <= i < |input[1..]| ==> input[1..][i].Num != n;
      }
      if exists i :: 0 <= i < |input| && input[i].Num == n {
        var i :| 0 <= i < |input| && input[i].Num == n;
        if i > 0 {
          assert input[1..][i - 1].Num == n;
        }
      }
    }
  }

  predicate NameLe(a: LootItem, b: LootItem)
  {
    Strs.LessEq(a.name, b.name)
  }

  lemma NameLeTotalPreorder()
    ensures Sorting.TotalPreorder(NameLe)
  {
    forall x, y ensures NameLe(x, y) || NameLe(y, x) {
      Strs.LessEqTotal(x.name, y.name);
    }
    forall x, y, z | NameLe(x, y) && NameLe(y, z) ensures NameLe(x, z) {
      Strs.LessEqTransitive(x.name, y.name, z.name);
    }
  }

  /**
    `ParseLootHistory`: one item per matching line (in any order among equal
    names), sorted by name; the matched line numbers; and the other lines as
    the remaining input.
  */
  method ParseLootHistory(input: seq<NumberedLine>, toInt: string -> int)
    returns (result: LootHistory, rest: map<int, string>)
    ensures result.lines == MatchedLines(input)
    ensures multiset(result.items) == multiset(MatchedItems(input, toInt))
    ensures forall p, q :: 0 <= p < q < |result.items| ==> Strs.LessEq(result.items[p].name, result.items[q].name)
    ensures rest == Unmatched(input)
  {
    var items: seq<LootItem> := [];
    var lines: seq<int> := [];
    rest := map[];
    var i := |input|;
    // Walk from the back so each step prepends, which keeps the invariants in the shape of the definitions.
    while i > 0
      invariant 0 <= i <= |input|
      invariant items == MatchedItems(input[i..], toInt)
      invariant lines == MatchedLines(input[i..])
      invariant rest == Unmatched(input[i..])
    {
      i := i - 1;
      assert input[i..][1..] == input[i + 1..];
      var m := MatchLine(input[i].Text);
      match m {
        case Some(g) =>
          items := [LootItem(g.time, g.player, toInt(g.qty), g.name)] + items;
          lines := [input[i].Num] + lines;
        case None =>
          rest := rest[input[i].Num := input[i].Text];
      }
    }
    assert input[0..] == input;
    var a := new LootItem[|items|](k requires 0 <= k < |items| => items[k]);
    assert a[..] == items;
    NameLeTotalPreorder();
    Sorting.SortBy(a, NameLe);
    result := LootHistory(a[..], lines);
  }
}
