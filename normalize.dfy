/**
  From a parser result to appraisal items (appraisal.go:464-636): the kind of
  an appraisal (findKind), the per-format conversion and the merge of items
  that name the same type (parserResultToAppraisalItems), and the removal of
  blank unparsed lines (filterUnparsed).

  Go visits a map in an unspecified order, so the merged items and the
  deletions come out in an order the model leaves open: the methods pick
  each next key with `:|`, and every contract holds whichever order is taken.
*/
module Normalize {
  import opened Wrappers
  import Strs
  import Collections
  import opened Parsers
  import opened Items

  // ---- findKind ----

  datatype KindError = UnexpectedType | NoValidLinesFound

  /** `rs[j]` consumed more lines than every result before it and at least as many as every result after it. */
  predicate FirstLargest(rs: seq<ParserResult>, j: int)
  {
    0 <= j < |rs| &&
    (forall i :: 0 <= i < j ==> |Lines(rs[i])| < |Lines(rs[j])|) &&
    (forall i :: j < i < |rs| ==> |Lines(rs[i])| <= |Lines(rs[j])|)
  }

  /** No other result qualifies, so the kind is determined by the input. */
  lemma FirstLargestUnique(rs: seq<ParserResult>, j: int, k: int)
    requires FirstLargest(rs, j) && 0 <= k < |rs| && k != j
    ensures !FirstLargest(rs, k)
  {
    if k < j {
      assert |Lines(rs[k])| < |Lines(rs[j])|;
    } else {
      assert |Lines(rs[k])| <= |Lines(rs[j])|;
    }
  }

  /**
    `findKind`: only a multi-parser result has a kind, the name of its
    sub-result with the most lines (the first one on a tie); anything else,
    or a multi-parser result without sub-results, is an error and the kind
    stays "unknown".
  */
  method FindKind(result: ParserResult) returns (kind: string, err: Option<KindError>)
    ensures !result.MultiParserResult? ==> kind == "unknown" && err == Some(UnexpectedType)
    ensures result.MultiParserResult? && result.Results == [] ==> kind == "unknown" && err == Some(NoValidLinesFound)
    ensures result.MultiParserResult? && result.Results != [] ==>
      err.None? && exists j :: FirstLargest(result.Results, j) && kind == Name(result.Results[j])
  {
    var largestLines := -1;
    kind := "unknown";
    if !result.MultiParserResult? {
      return kind, Some(UnexpectedType);
    }
    var rs := result.Results;
    if |rs| == 0 {
      return kind, Some(NoValidLinesFound);
    }
    ghost var best := -1;
    for i := 0 to |rs|
      invariant i == 0 ==> best == -1 && largestLines == -1
      invariant i > 0 ==> 0 <= best < i && largestLines == |Lines(rs[best])| && kind == Name(rs[best])
      invariant i > 0 ==> forall p :: 0 <= p < best ==> |Lines(rs[p])| < |Lines(rs[best])|
      invariant i > 0 ==> forall p :: best < p < i ==> |Lines(rs[p])| <= |Lines(rs[best])|
    {
      if |Lines(rs[i])| > largestLines {
        largestLines := |Lines(rs[i])|;
        kind := Name(rs[i]);
        best := i;
      }
    }
    assert FirstLargest(rs, best);
    err := None;
  }

  // ---- conversion of one parser result ----

  function Plain(xs: seq<Entry>): (r: seq<AppraisalItem>)
    ensures |r| == |xs|
  {
    seq(|xs|, i requires 0 <= i < |xs| => NewItem(xs[i].Name, xs[i].Quantity))
  }

  function FromCargo(xs: seq<CargoScanItem>): (r: seq<AppraisalItem>)
    ensures |r| == |xs|
  {
    seq(|xs|, i requires 0 <= i < |xs| =>
      NewItem(xs[i].Name, xs[i].Quantity).(Extra := NoExtra.(BPC := xs[i].BPC, BPCRuns := if xs[i].BPC then 1 else 0)))
  }

  function FromContract(xs: seq<ContractItem>): (r: seq<AppraisalItem>)
    ensures |r| == |xs|
  {
    seq(|xs|, i requires 0 <= i < |xs| =>
      NewItem(xs[i].Name, xs[i].Quantity).(Extra := NoExtra.(Fitted := xs[i].Fitted, BPC := xs[i].BPC, BPCRuns := xs[i].BPCRuns)))
  }

  function FromDScan(xs: seq<DScanItem>): (r: seq<AppraisalItem>)
    ensures |r| == |xs|
  {
    seq(|xs|, i requires 0 <= i < |xs| => NewItem(xs[i].Name, 1))
  }

  function FromKillmail(xs: seq<KillmailItem>, dropped: bool): (r: seq<AppraisalItem>)
    ensures |r| == |xs|
  {
    seq(|xs|, i requires 0 <= i < |xs| =>
      NewItem(xs[i].Name, xs[i].Quantity).(Extra := NoExtra.(Dropped := dropped, Destroyed := !dropped, Location := xs[i].Location)))
  }

  function FromLoot(xs: seq<LootHistory.LootItem>): (r: seq<AppraisalItem>)
    ensures |r| == |xs|
  {
    seq(|xs|, i requires 0 <= i < |xs| =>
      NewItem(xs[i].name, xs[i].quantity).(Extra := NoExtra.(PlayerName := xs[i].playerName)))
  }

  function FromPI(xs: seq<PIItem>): (r: seq<AppraisalItem>)
    ensures |r| == |xs|
  {
    seq(|xs|, i requires 0 <= i < |xs| =>
      NewItem(xs[i].Name, xs[i].Quantity).(Extra := NoExtra.(Routed := xs[i].Routed, Volume := xs[i].Volume)))
  }

  function FromSurvey(xs: seq<SurveyScanItem>): (r: seq<AppraisalItem>)
    ensures |r| == |xs|
  {
    seq(|xs|, i requires 0 <= i < |xs| =>
      NewItem(xs[i].Name, xs[i].Quantity).(Extra := NoExtra.(Distance := xs[i].Distance)))
  }

  function FromViewContents(xs: seq<ViewContentsItem>): (r: seq<AppraisalItem>)
    ensures |r| == |xs|
  {
    seq(|xs|, i requires 0 <= i < |xs| =>
      NewItem(xs[i].Name, xs[i].Quantity).(Extra := NoExtra.(Location := xs[i].Location)))
  }

  /**
    The items one non-aggregate result yields before merging, in its own
    order: a d-scan line counts once, a fit starts with its ship, a killmail
    lists the dropped items before the destroyed ones, and a result of any
    other type yields nothing.
  */
  function Convert(r: ParserResult): seq<AppraisalItem>
  {
    match r
    case AssetList(xs, _) => Plain(xs)
    case CargoScan(xs, _) => FromCargo(xs)
    case Contract(xs, _) => FromContract(xs)
    case DScan(xs, _) => FromDScan(xs)
    case EFT(ship, xs, _) => [NewItem(ship, 1)] + Plain(xs)
    case Fitting(xs, _) => Plain(xs)
    case Industry(xs, _) => Plain(xs)
    case Killmail(dropped, destroyed, _) => FromKillmail(dropped, true) + FromKillmail(destroyed, false)
    case Listing(xs, _) => Plain(xs)
    case LootHistoryResult(loot) => FromLoot(loot.items)
    case PI(xs, _) => FromPI(xs)
    case SurveyScan(xs, _) => FromSurvey(xs)
    case ViewContents(xs, _) => FromViewContents(xs)
    case Wallet(xs, _) => Plain(xs)
    case HeuristicResult(xs, _) => Plain(xs)
    case MultiParserResult(_, _) => []
    case OtherResult(_, _) => []
  }

  /** All the items of a result before any merging: a multi-parser result contributes its sub-results' items in order. */
  function Flat(r: ParserResult): seq<AppraisalItem>
    decreases r, 1
  {
    if r.MultiParserResult? then FlatAll(r.Results, |r.Results|) else Convert(r)
  }

  function FlatAll(rs: seq<ParserResult>, n: nat): seq<AppraisalItem>
    requires n <= |rs|
    decreases rs, 0, n
  {
    if n == 0 then [] else FlatAll(rs, n - 1) + Flat(rs[n - 1])
  }

  // ---- merging items that name the same type ----

  /** The item with its name trimmed of spaces and tabs. */
  function Normalized(it: AppraisalItem): AppraisalItem
  {
    it.(Name := Strs.Trim(it.Name))
  }

  /** Items are merged by their trimmed, upper-cased name. */
  function Key(it: AppraisalItem): string
  {
    Strs.ToUpper(Strs.Trim(it.Name))
  }

  lemma KeyOfNormalized(it: AppraisalItem)
    ensures Key(Normalized(it)) == Key(it)
    ensures Normalized(Normalized(it)) == Normalized(it)
  {
    Strs.TrimIdempotent(it.Name);
  }

  function Get(m: map<string, int>, k: string): int
  {
    if k in m then m[k] else 0
  }

  /** For each key, the last item with that key, trimmed, with its quantity cleared. */
  function Shapes(x: seq<AppraisalItem>): map<string, AppraisalItem>
  {
    if x == [] then map[]
    else
      var it := x[|x| - 1];
      Shapes(x[..|x| - 1])[Key(it) := Normalized(it).(Quantity := 0)]
  }

  /** For each key, the sum of the quantities of the items with that key. */
  function Sums(x: seq<AppraisalItem>): map<string, int>
  {
    if x == [] then map[]
    else
      var it := x[|x| - 1];
      var s := Sums(x[..|x| - 1]);
      s[Key(it) := Get(s, Key(it)) + it.Quantity]
  }

  function QtySum(x: seq<AppraisalItem>): int
  {
    if x == [] then 0 else QtySum(x[..|x| - 1]) + x[|x| - 1].Quantity
  }

  /**
    `out` is a merge of `raw`: one item per key of `raw`, each the last raw
    item with that key, trimmed, carrying the summed quantity of its key.
  */
  predicate MergedFrom(raw: seq<AppraisalItem>, out: seq<AppraisalItem>)
  {
    (forall i, j :: 0 <= i < j < |out| ==> Key(out[i]) != Key(out[j])) &&
    (forall i :: 0 <= i < |out| ==>
      Key(out[i]) in Shapes(raw) && out[i] == Shapes(raw)[Key(out[i])].(Quantity := Get(Sums(raw), Key(out[i])))) &&
    (forall k :: k in Shapes(raw) ==> exists i :: 0 <= i < |out| && Key(out[i]) == k)
  }

  lemma {:induction false} SumsKeys(x: seq<AppraisalItem>)
    ensures Sums(x).Keys == Shapes(x).Keys
  {
    if x != [] {
      SumsKeys(x[..|x| - 1]);
    }
  }

  lemma {:induction false} ShapesKeyed(x: seq<AppraisalItem>)
    ensures forall k :: k in Shapes(x) ==> Key(Shapes(x)[k]) == k && Shapes(x)[k].Quantity == 0
    ensures forall k :: k in Shapes(x) ==> Normalized(Shapes(x)[k]) == Shapes(x)[k]
  {
    if x != [] {
      ShapesKeyed(x[..|x| - 1]);
      KeyOfNormalized(x[|x| - 1]);
    }
  }

  /** Combining the per-key sums of two lists. */
  function AddSums(m1: map<string, int>, m2: map<string, int>): map<string, int>
  {
    map k | k in m1.Keys + m2.Keys :: Get(m1, k) + Get(m2, k)
  }

  /** Concatenation: later items win the shape. */
  lemma {:induction false} AppendShapes(a: seq<AppraisalItem>, b: seq<AppraisalItem>)
    ensures Shapes(a + b) == Shapes(a) + Shapes(b)
    decreases |b|
  {
    if b == [] {
      assert a + b == a;
    } else {
      var b' := b[..|b| - 1];
      assert (a + b)[..|a + b| - 1] == a + b';
      AppendShapes(a, b');
    }
  }

  /** Concatenation, at one key: it is in the table if it is in either, and its quantities add up. */
  lemma {:induction false} AppendSumsAt(a: seq<AppraisalItem>, b: seq<AppraisalItem>, k: string)
    ensures k in Sums(a + b) <==> k in Sums(a) || k in Sums(b)
    ensures Get(Sums(a + b), k) == Get(Sums(a), k) + Get(Sums(b), k)
    decreases |b|
  {
    if b == [] {
      assert a + b == a;
    } else {
      var b', it := b[..|b| - 1], b[|b| - 1];
      assert b == b' + [it] && a + b == (a + b') + [it];
      AppendSumsAt(a, b', k);
      TablesSnoc(a + b', it);
      TablesSnoc(b', it);
    }
  }

  /** Concatenation: quantities add up key by key. */
  lemma AppendSums(a: seq<AppraisalItem>, b: seq<AppraisalItem>)
    ensures Sums(a + b) == AddSums(Sums(a), Sums(b))
  {
    var l, r := Sums(a + b), AddSums(Sums(a), Sums(b));
    forall k
      ensures k in l <==> k in r
      ensures k in l ==> l[k] == r[k]
    {
      AppendSumsAt(a, b, k);
    }
    assert l.Keys == r.Keys;
  }

  predicate DistinctKeys(x: seq<AppraisalItem>)
  {
    forall i, j :: 0 <= i < j < |x| ==> Key(x[i]) != Key(x[j])
  }

  /** Every key of the tables comes from some item. */
  lemma {:induction false} ShapesFromItems(x: seq<AppraisalItem>)
    ensures forall k :: k in Shapes(x) ==> exists i :: 0 <= i < |x| && Key(x[i]) == k
  {
    if x != [] {
      var x' := x[..|x| - 1];
      ShapesFromItems(x');
      forall k | k in Shapes(x) ensures exists i :: 0 <= i < |x| && Key(x[i]) == k {
        if k != Key(x[|x| - 1]) {
          assert k in Shapes(x');
          var i :| 0 <= i < |x'| && Key(x'[i]) == k;
          assert Key(x[i]) == k;
        }
      }
    }
  }

  /** Without repeated keys, each item is its own key's shape. */
  lemma {:induction false} DistinctShapes(x: seq<AppraisalItem>)
    requires DistinctKeys(x)
    ensures forall i :: 0 <= i < |x| ==>
      (Key(x[i]) in Shapes(x) && Shapes(x)[Key(x[i])] == Normalized(x[i]).(Quantity := 0))
  {
    if x != [] {
      var x' := x[..|x| - 1];
      assert DistinctKeys(x');
      DistinctShapes(x');
      forall i | 0 <= i < |x'| ensures Key(x[i]) != Key(x[|x| - 1]) && x[i] == x'[i] {
      }
    }
  }

  /** Without repeated keys, each item's quantity is its key's sum. */
  lemma {:induction false} DistinctSums(x: seq<AppraisalItem>)
    requires DistinctKeys(x)
    ensures forall i :: 0 <= i < |x| ==> Get(Sums(x), Key(x[i])) == x[i].Quantity
  {
    if x != [] {
      var x' := x[..|x| - 1];
      var last := x[|x| - 1];
      assert DistinctKeys(x');
      DistinctSums(x');
      ShapesFromItems(x');
      SumsKeys(x');
      forall i | 0 <= i < |x'| ensures Key(x[i]) != Key(last) && x[i] == x'[i] {
      }
      assert Key(last) !in Sums(x');
    }
  }

  /** Two lists are interchangeable for merging when their shape and sum tables agree. */
  predicate Equivalent(x: seq<AppraisalItem>, y: seq<AppraisalItem>)
  {
    Shapes(x) == Shapes(y) && Sums(x) == Sums(y)
  }

  /** One merged item carries its key's shape and sum. */
  lemma MergedItem(raw: seq<AppraisalItem>, out: seq<AppraisalItem>, i: int)
    requires MergedFrom(raw, out) && 0 <= i < |out|
    ensures Key(out[i]) in Shapes(out) && Key(out[i]) in Shapes(raw)
    ensures Shapes(out)[Key(out[i])] == Shapes(raw)[Key(out[i])]
    ensures Get(Sums(out), Key(out[i])) == Get(Sums(raw), Key(out[i]))
  {
    DistinctShapes(out);
    DistinctSums(out);
    var k := Key(out[i]);
    var sh := Shapes(raw)[k];
    ShapesKeyed(raw);
    assert out[i] == sh.(Quantity := Get(Sums(raw), k));
    assert Normalized(sh) == sh;
    assert Normalized(out[i]).(Quantity := 0) == sh;
  }

  lemma MergedKeys(raw: seq<AppraisalItem>, out: seq<AppraisalItem>)
    requires MergedFrom(raw, out)
    ensures Shapes(out).Keys == Shapes(raw).Keys
  {
    ShapesFromItems(out);
    forall k | k in Shapes(out) ensures k in Shapes(raw) {
      var i :| 0 <= i < |out| && Key(out[i]) == k;
      MergedItem(raw, out, i);
    }
    forall k | k in Shapes(raw) ensures k in Shapes(out) {
      var i :| 0 <= i < |out| && Key(out[i]) == k;
      MergedItem(raw, out, i);
    }
  }

  /** A merge keeps the tables of what it merged. */
  lemma MergedEquivalent(raw: seq<AppraisalItem>, out: seq<AppraisalItem>)
    requires MergedFrom(raw, out)
    ensures Equivalent(out, raw)
  {
    MergedShapes(raw, out);
    MergedSums(raw, out);
  }

  lemma MergedShapes(raw: seq<AppraisalItem>, out: seq<AppraisalItem>)
    requires MergedFrom(raw, out)
    ensures Shapes(out) == Shapes(raw)
  {
    MergedKeys(raw, out);
    ShapesFromItems(out);
    forall k | k in Shapes(out) ensures Shapes(out)[k] == Shapes(raw)[k] {
      var i :| 0 <= i < |out| && Key(out[i]) == k;
      MergedItem(raw, out, i);
    }
  }

  lemma MergedSums(raw: seq<AppraisalItem>, out: seq<AppraisalItem>)
    requires MergedFrom(raw, out)
    ensures Sums(out) == Sums(raw)
  {
    MergedKeys(raw, out);
    ShapesFromItems(out);
    SumsKeys(raw);
    SumsKeys(out);
    forall k | k in Sums(out) ensures Sums(out)[k] == Get(Sums(raw), k) {
      var i :| 0 <= i < |out| && Key(out[i]) == k;
      MergedItem(raw, out, i);
    }
    var qo, qr := Sums(out), Sums(raw);
    assert qo.Keys == qr.Keys;
  }

  /**
    Merging twice is merging once: the merge of two merges is a merge of the
    two inputs together, which is why a multi-parser result, whose
    sub-results are merged one by one and then again together, ends up as
    the merge of all its items.
  */
  lemma MergeOfMerges(a: seq<AppraisalItem>, ma: seq<AppraisalItem>, b: seq<AppraisalItem>, mb: seq<AppraisalItem>, out: seq<AppraisalItem>)
    requires MergedFrom(a, ma) && MergedFrom(b, mb) && MergedFrom(ma + mb, out)
    ensures MergedFrom(a + b, out)
  {
    MergedEquivalent(a, ma);
    MergedEquivalent(b, mb);
    AppendShapes(a, b);
    AppendShapes(ma, mb);
    AppendSums(a, b);
    AppendSums(ma, mb);
  }

  // ---- sums over a key table ----

  ghost function TableSum(m: map<string, int>, keys: set<string>): int
    requires keys <= m.Keys
    decreases keys
  {
    if keys == {} then 0
    else
      var k :| k in keys;
      m[k] + TableSum(m, keys - {k})
  }

  /** The sum does not depend on which key is taken first. */
  lemma {:induction false} TableSumRemove(m: map<string, int>, keys: set<string>, k: string)
    requires keys <= m.Keys && k in keys
    ensures TableSum(m, keys) == m[k] + TableSum(m, keys - {k})
    decreases keys
  {
    var k' :| k' in keys && TableSum(m, keys) == m[k'] + TableSum(m, keys - {k'});
    if k' != k {
      TableSumRemove(m, keys - {k'}, k);
      TableSumRemove(m, keys - {k}, k');
      assert keys - {k'} - {k} == keys - {k} - {k'};
    }
  }

  lemma {:induction false} TableSumFrame(m1: map<string, int>, m2: map<string, int>, keys: set<string>)
    requires keys <= m1.Keys && keys <= m2.Keys
    requires forall k :: k in keys ==> m1[k] == m2[k]
    ensures TableSum(m1, keys) == TableSum(m2, keys)
    decreases keys
  {
    if keys != {} {
      var k :| k in keys;
      TableSumRemove(m1, keys, k);
      TableSumRemove(m2, keys, k);
      TableSumFrame(m1, m2, keys - {k});
    }
  }

  /** The per-key sums add up to the total quantity. */
  lemma {:induction false} SumsTotal(x: seq<AppraisalItem>)
    ensures TableSum(Sums(x), Sums(x).Keys) == QtySum(x)
  {
    if x != [] {
      var x' := x[..|x| - 1];
      var it := x[|x| - 1];
      var s, s' := Sums(x'), Sums(x);
      SumsTotal(x');
      TableSumFrame(s, s', s.Keys - {Key(it)});
      if Key(it) in s {
        assert s'.Keys == s.Keys;
        TableSumRemove(s, s.Keys, Key(it));
        TableSumRemove(s', s'.Keys, Key(it));
      } else {
        TableSumRemove(s', s'.Keys, Key(it));
        assert s'.Keys - {Key(it)} == s.Keys - {Key(it)} == s.Keys;
      }
    }
  }

  lemma QtySumAppend(x: seq<AppraisalItem>, it: AppraisalItem)
    ensures QtySum(x + [it]) == QtySum(x) + it.Quantity
  {
    assert (x + [it])[..|x|] == x;
  }

  /** One more item updates its key's entries in both tables. */
  lemma TablesSnoc(x: seq<AppraisalItem>, it: AppraisalItem)
    ensures Shapes(x + [it]) == Shapes(x)[Key(it) := Normalized(it).(Quantity := 0)]
    ensures Sums(x + [it]) == Sums(x)[Key(it) := Get(Sums(x), Key(it)) + it.Quantity]
  {
    assert (x + [it])[..|x|] == x;
  }

  /** Every item of `out` is the merged item of its key, a key outside `rest`. */
  predicate MergedItems(raw: seq<AppraisalItem>, out: seq<AppraisalItem>, rest: set<string>)
  {
    forall i :: 0 <= i < |out| ==>
      Key(out[i]) in Shapes(raw) && Key(out[i]) !in rest &&
      out[i] == Shapes(raw)[Key(out[i])].(Quantity := Get(Sums(raw), Key(out[i])))
  }

  /** Every key outside `rest` has its item in `out`. */
  predicate Covered(raw: seq<AppraisalItem>, out: seq<AppraisalItem>, rest: set<string>)
  {
    forall k :: k in Shapes(raw) && k !in rest ==> exists i :: 0 <= i < |out| && Key(out[i]) == k
  }

  /** `out` holds the merged items of the keys outside `rest`, one each. */
  predicate PartialMerge(raw: seq<AppraisalItem>, out: seq<AppraisalItem>, rest: set<string>)
  {
    DistinctKeys(out) && MergedItems(raw, out, rest) && Covered(raw, out, rest)
  }

  /** The merged item of a key carries that key. */
  lemma MergedItemKey(raw: seq<AppraisalItem>, k: string)
    requires k in Shapes(raw)
    ensures Key(Shapes(raw)[k].(Quantity := Get(Sums(raw), k))) == k
  {
    ShapesKeyed(raw);
  }

  lemma DistinctStep(out: seq<AppraisalItem>, it: AppraisalItem)
    requires DistinctKeys(out)
    requires forall i :: 0 <= i < |out| ==> Key(out[i]) != Key(it)
    ensures DistinctKeys(out + [it])
  {
    var out' := out + [it];
    forall i | 0 <= i < |out| ensures out'[i] == out[i] {
    }
  }

  lemma MergedItemsStep(raw: seq<AppraisalItem>, out: seq<AppraisalItem>, rest: set<string>, k: string)
    requires MergedItems(raw, out, rest) && k in rest && k in Shapes(raw)
    requires Key(Shapes(raw)[k].(Quantity := Get(Sums(raw), k))) == k
    ensures MergedItems(raw, out + [Shapes(raw)[k].(Quantity := Get(Sums(raw), k))], rest - {k})
  {
    var out' := out + [Shapes(raw)[k].(Quantity := Get(Sums(raw), k))];
    forall i | 0 <= i < |out| ensures out'[i] == out[i] {
    }
  }

  lemma CoveredStep(raw: seq<AppraisalItem>, out: seq<AppraisalItem>, rest: set<string>, it: AppraisalItem)
    requires Covered(raw, out, rest) && Key(it) in rest
    ensures Covered(raw, out + [it], rest - {Key(it)})
  {
    var out' := out + [it];
    forall k' | k' in Shapes(raw) && k' !in rest - {Key(it)} ensures exists i :: 0 <= i < |out'| && Key(out'[i]) == k' {
      if k' == Key(it) {
        assert Key(out'[|out|]) == k';
      } else {
        var i :| 0 <= i < |out| && Key(out[i]) == k';
        assert Key(out'[i]) == k';
      }
    }
  }

  lemma PartialMergeStep(raw: seq<AppraisalItem>, out: seq<AppraisalItem>, rest: set<string>, k: string)
    requires PartialMerge(raw, out, rest) && k in rest && rest <= Shapes(raw).Keys
    ensures PartialMerge(raw, out + [Shapes(raw)[k].(Quantity := Get(Sums(raw), k))], rest - {k})
  {
    var it := Shapes(raw)[k].(Quantity := Get(Sums(raw), k));
    MergedItemKey(raw, k);
    DistinctStep(out, it);
    MergedItemsStep(raw, out, rest, k);
    CoveredStep(raw, out, rest, it);
  }

  lemma PartialMergeDone(raw: seq<AppraisalItem>, out: seq<AppraisalItem>)
    requires PartialMerge(raw, out, {})
    ensures MergedFrom(raw, out)
  {
  }

  /**
    The merge loop of parserResultToAppraisalItems: the last item for each
    key, its name trimmed, with the quantities of the key summed; no
    quantity is lost or created.
  */
  method Merge(items: seq<AppraisalItem>) returns (out: seq<AppraisalItem>)
    ensures MergedFrom(items, out)
    ensures QtySum(out) == QtySum(items)
  {
    var itemMap: map<string, AppraisalItem> := map[];
    var quantityMap: map<string, int> := map[];
    for i := 0 to |items|
      invariant itemMap.Keys == Shapes(items[..i]).Keys
      invariant forall k :: k in itemMap ==> itemMap[k].(Quantity := 0) == Shapes(items[..i])[k]
      invariant quantityMap == Sums(items[..i])
    {
      assert items[..i + 1] == items[..i] + [items[i]];
      TablesSnoc(items[..i], items[i]);
      var item := items[i].(Name := Strs.Trim(items[i].Name));
      var key := Strs.ToUpper(item.Name);
      itemMap := itemMap[key := item];
      quantityMap := quantityMap[key := Get(quantityMap, key) + item.Quantity];
    }
    assert items[..|items|] == items;
    SumsKeys(items);
    SumsTotal(items);
    out := [];
    var keys := itemMap.Keys;
    while keys != {}
      invariant keys <= itemMap.Keys
      invariant PartialMerge(items, out, keys)
      invariant QtySum(out) + TableSum(quantityMap, keys) == QtySum(items)
      decreases keys
    {
      ghost var someKey := Collections.MemberOf(keys);
      var key :| key in keys;
      var item := itemMap[key].(Quantity := quantityMap[key]);
      assert item == Shapes(items)[key].(Quantity := Get(Sums(items), key));
      PartialMergeStep(items, out, keys, key);
      TableSumRemove(quantityMap, keys, key);
      QtySumAppend(out, item);
      out := out + [item];
      keys := keys - {key};
    }
    PartialMergeDone(items, out);
  }

  /**
    `parserResultToAppraisalItems`: the merge of all the items of the
    result. A multi-parser result converts and merges each sub-result, then
    merges their concatenation once more; by MergeOfMerges that is the merge
    of its items taken together.
  */
  method ParserResultToAppraisalItems(result: ParserResult) returns (out: seq<AppraisalItem>)
    ensures MergedFrom(Flat(result), out)
    ensures QtySum(out) == QtySum(Flat(result))
    decreases result
  {
    var items: seq<AppraisalItem> := [];
    if result.MultiParserResult? {
      var rs := result.Results;
      ghost var flat: seq<AppraisalItem> := [];
      for i := 0 to |rs|
        invariant flat == FlatAll(rs, i)
        invariant Equivalent(items, flat)
        invariant QtySum(items) == QtySum(flat)
      {
        var sub := ParserResultToAppraisalItems(rs[i]);
        MergedEquivalent(Flat(rs[i]), sub);
        AppendShapes(items, sub);
        AppendShapes(flat, Flat(rs[i]));
        AppendSums(items, sub);
        AppendSums(flat, Flat(rs[i]));
        QtySumConcat(items, sub);
        QtySumConcat(flat, Flat(rs[i]));
        items := items + sub;
        flat := flat + Flat(rs[i]);
      }
    } else {
      items := Convert(result);
    }
    out := Merge(items);
  }

  lemma {:induction false} QtySumConcat(a: seq<AppraisalItem>, b: seq<AppraisalItem>)
    ensures QtySum(a + b) == QtySum(a) + QtySum(b)
    decreases |b|
  {
    if b != [] {
      assert (a + b)[..|a + b| - 1] == a + b[..|b| - 1];
      QtySumConcat(a, b[..|b| - 1]);
    } else {
      assert a + b == a;
    }
  }

  // ---- filterUnparsed ----

  predicate Blank(line: string)
  {
    forall i :: 0 <= i < |line| ==> Strs.IsCut(line[i])
  }

  /** `filterUnparsed`: drops the lines made only of spaces and tabs (the empty ones included) and keeps the rest as they were. */
  method FilterUnparsed(unparsed: map<int, string>) returns (r: map<int, string>)
    ensures forall n :: n in r <==> n in unparsed && !Blank(unparsed[n])
    ensures forall n :: n in r ==> r[n] == unparsed[n]
  {
    r := unparsed;
    var todo := unparsed.Keys;
    while todo != {}
      invariant todo <= unparsed.Keys
      invariant forall n :: n in r ==> n in unparsed && r[n] == unparsed[n]
      invariant forall n :: n in unparsed && n !in todo ==> (n in r <==> !Blank(unparsed[n]))
      invariant forall n :: n in todo ==> n in r
      decreases todo
    {
      ghost var someLine := Collections.MemberOf(todo);
      var n :| n in todo;
      Strs.TrimEmptyIffBlank(unparsed[n]);
      if Strs.Trim(unparsed[n]) == "" {
        r := r - {n};
      }
      todo := todo - {n};
    }
  }
}
