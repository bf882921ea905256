/**
 * The value-level meaning of one `Problem` of src/json_utils.rs and of its
 * two update operations, `add_cut` and `add_source`. The class in
 * problem.dfy is proved to follow these functions; the properties the
 * aggregator relies on are proved here, about the functions.
 */
module ProblemSpec {
  import opened Wrappers
  import opened Records

  /** The state of a `Problem`: its tag, the name lookup keyed by stock piece,
      the stock pieces and the cut demands. */
  datatype ProblemData = ProblemData(
    tag: string,
    sourceNames: map<StockPiece, string>,
    stockPieces: seq<StockPiece>,
    cuts: seq<CutPiece>)

  /** `Problem::new`: the given tag and nothing else; trivially well formed
      and not yet solvable. */
  function NewProblem(tag: string): (p: ProblemData)
    ensures p.tag == tag && WellFormed(p) && !Solvable(p)
  {
    ProblemData(tag, map[], [], [])
  }

  /** `is_valid_problem`: at least one cut and at least one stock piece. */
  predicate Solvable(p: ProblemData): (solvable: bool)
    ensures solvable <==> |p.cuts| > 0 && |p.stockPieces| > 0
  {
    p.cuts != [] && p.stockPieces != []
  }

  /** `Iterator::find` as an index: the first position whose element matches. */
  function FirstIndex<T>(s: seq<T>, matches: T -> bool): (r: Option<nat>)
    ensures r.Some? ==> r.value < |s| && matches(s[r.value])
    ensures r.Some? ==> forall j :: 0 <= j < r.value ==> !matches(s[j])
    ensures r.None? ==> forall j :: 0 <= j < |s| ==> !matches(s[j])
  {
    if s == [] then None
    else if matches(s[0]) then Some(0)
    else match FirstIndex(s[1..], matches)
      case None => None
      case Some(k) => Some(k + 1)
  }

  /** The search closure of `add_cut`. */
  function HasLength(length: nat): CutPiece -> bool
  {
    (c: CutPiece) => c.length == length
  }

  /** The search closure of `add_source`: same length and same availability bound. */
  function HasKey(length: nat, quantity: Option<nat>): StockPiece -> bool
  {
    (p: StockPiece) => p.length == length && p.quantity == quantity
  }

  ghost predicate DistinctLengths(cuts: seq<CutPiece>)
  {
    forall i, j :: 0 <= i < j < |cuts| ==> cuts[i].length != cuts[j].length
  }

  ghost predicate DistinctKeys(pieces: seq<StockPiece>)
  {
    forall i, j :: 0 <= i < j < |pieces| ==>
      pieces[i].length != pieces[j].length || pieces[i].quantity != pieces[j].quantity
  }

  /** The invariant every problem the aggregator builds keeps: cut lengths are
      pairwise distinct, stock (length, quantity) keys are pairwise distinct,
      and the name lookup has exactly the stock pieces as keys. */
  ghost predicate WellFormed(p: ProblemData)
  {
    && DistinctLengths(p.cuts)
    && DistinctKeys(p.stockPieces)
    && p.sourceNames.Keys == set x | x in p.stockPieces
  }

  /** The total demanded quantity over all cuts. */
  function TotalQuantity(cuts: seq<CutPiece>): nat
  {
    if cuts == [] then 0 else TotalQuantity(cuts[..|cuts| - 1]) + cuts[|cuts| - 1].quantity
  }

  /** `add_cut`: ignore a record of another tag; add the quantity to the first
      cut of the same length, or append the converted record. */
  function AddCutTo(p: ProblemData, c: CutRecord): (r: ProblemData)
    ensures c.tag != p.tag ==> r == p
    ensures r.tag == p.tag && r.sourceNames == p.sourceNames && r.stockPieces == p.stockPieces
    ensures |p.cuts| <= |r.cuts| <= |p.cuts| + 1
  {
    if p.tag != c.tag then p
    else match FirstIndex(p.cuts, HasLength(c.length))
      case None => p.(cuts := p.cuts + [ToCutPiece(c)])
      case Some(i) => p.(cuts := p.cuts[i := p.cuts[i].(quantity := p.cuts[i].quantity + c.quantity)])
  }

  /** `add_source`: ignore a record of another tag; overwrite the first stock
      piece with the same (length, quantity) and then rename the entry of the
      NEW piece, which panics (`None`) when the lookup has no such key; or
      append the converted record and name it. */
  function AddSourceTo(p: ProblemData, s: SourceRecord): (r: Option<ProblemData>)
    ensures s.tag != p.tag ==> r == Some(p)
    ensures r.Some? ==> r.value.tag == p.tag && r.value.cuts == p.cuts
    ensures r.Some? ==> |p.stockPieces| <= |r.value.stockPieces| <= |p.stockPieces| + 1
    ensures r.Some? && s.tag == p.tag ==>
      && ToStockPiece(s) in r.value.stockPieces
      && ToStockPiece(s) in r.value.sourceNames && r.value.sourceNames[ToStockPiece(s)] == s.name
    ensures r.None? ==> s.tag == p.tag && ToStockPiece(s) !in p.sourceNames
  {
    if p.tag != s.tag then Some(p)
    else
      var piece := ToStockPiece(s);
      match FirstIndex(p.stockPieces, HasKey(s.length, s.quantity))
      case None =>
        Some(p.(stockPieces := p.stockPieces + [piece], sourceNames := p.sourceNames[piece := s.name]))
      case Some(i) =>
        if piece in p.sourceNames then
          assert p.stockPieces[i := piece][i] == piece;
          Some(p.(stockPieces := p.stockPieces[i := piece], sourceNames := p.sourceNames[piece := s.name]))
        else None
  }

  lemma {:induction false} TotalQuantityAppend(cuts: seq<CutPiece>, c: CutPiece)
    ensures TotalQuantity(cuts + [c]) == TotalQuantity(cuts) + c.quantity
  {
    assert (cuts + [c])[..|cuts|] == cuts;
  }

  lemma {:induction false} TotalQuantityUpdate(cuts: seq<CutPiece>, i: nat, q: nat)
    requires i < |cuts|
    ensures TotalQuantity(cuts[i := cuts[i].(quantity := q)]) + cuts[i].quantity == TotalQuantity(cuts) + q
  {
    var n := |cuts| - 1;
    var u := cuts[i := cuts[i].(quantity := q)];
    if i == n {
      assert u[..n] == cuts[..n];
    } else {
      assert u[..n] == cuts[..n][i := cuts[i].(quantity := q)];
      TotalQuantityUpdate(cuts[..n], i, q);
    }
  }

  /** `add_cut` leaves a problem of another tag untouched. Otherwise it only
      touches the cuts: with a cut of the incoming length present it adds the
      incoming quantity to that one entry and keeps the list's length and every
      other entry; with none present it appends the converted record. */
  lemma AddCutShape(p: ProblemData, c: CutRecord)
    requires DistinctLengths(p.cuts)
    ensures c.tag != p.tag ==> AddCutTo(p, c) == p
    ensures var r := AddCutTo(p, c);
      && r.tag == p.tag && r.sourceNames == p.sourceNames && r.stockPieces == p.stockPieces
    ensures c.tag == p.tag && (exists i :: 0 <= i < |p.cuts| && p.cuts[i].length == c.length) ==>
      var r := AddCutTo(p, c);
      && |r.cuts| == |p.cuts|
      && forall k :: 0 <= k < |p.cuts| ==>
           r.cuts[k] == if p.cuts[k].length == c.length
                        then p.cuts[k].(quantity := p.cuts[k].quantity + c.quantity)
                        else p.cuts[k]
    ensures c.tag == p.tag && (forall i :: 0 <= i < |p.cuts| ==> p.cuts[i].length != c.length) ==>
      AddCutTo(p, c).cuts == p.cuts + [CutPiece(None, c.quantity, c.length)]
  {
  }

  /** `add_cut` keeps cut lengths pairwise distinct. */
  lemma AddCutKeepsDistinct(p: ProblemData, c: CutRecord)
    requires DistinctLengths(p.cuts)
    ensures DistinctLengths(AddCutTo(p, c).cuts)
  {
    if c.tag == p.tag {
      var r := AddCutTo(p, c).cuts;
      match FirstIndex(p.cuts, HasLength(c.length))
      case None =>
        assert forall k :: 0 <= k < |p.cuts| ==> r[k] == p.cuts[k] && r[k].length != c.length;
      case Some(i) =>
        assert forall k :: 0 <= k < |p.cuts| ==> r[k].length == p.cuts[k].length;
    }
  }

  /** `add_cut` adds exactly the incoming quantity to the total demand
      (nothing when the tag differs). */
  lemma AddCutConserves(p: ProblemData, c: CutRecord)
    ensures TotalQuantity(AddCutTo(p, c).cuts)
         == TotalQuantity(p.cuts) + (if c.tag == p.tag then c.quantity else 0)
  {
    if c.tag == p.tag {
      match FirstIndex(p.cuts, HasLength(c.length))
      case None =>
        TotalQuantityAppend(p.cuts, ToCutPiece(c));
      case Some(i) =>
        TotalQuantityUpdate(p.cuts, i, p.cuts[i].quantity + c.quantity);
    }
  }

  /** `add_source` with no stock piece of the incoming (length, quantity):
      appends the converted piece (price = cost) and names it, leaving every
      existing piece and every existing name as it was. */
  lemma AddSourceAppends(p: ProblemData, s: SourceRecord)
    requires WellFormed(p) && s.tag == p.tag
    requires forall i :: 0 <= i < |p.stockPieces| ==>
      p.stockPieces[i].length != s.length || p.stockPieces[i].quantity != s.quantity
    ensures var r := AddSourceTo(p, s);
      && r.Some?
      && r.value.tag == p.tag && r.value.cuts == p.cuts
      && r.value.stockPieces == p.stockPieces + [StockPiece(s.length, s.cost, s.quantity)]
      && r.value.sourceNames.Keys == p.sourceNames.Keys + {StockPiece(s.length, s.cost, s.quantity)}
      && r.value.sourceNames[StockPiece(s.length, s.cost, s.quantity)] == s.name
      && forall k :: k in p.sourceNames ==> r.value.sourceNames[k] == p.sourceNames[k]
  {
    var piece := ToStockPiece(s);
    assert piece !in p.sourceNames;
  }

  /** `add_source` when the piece at index i has the incoming (length,
      quantity): it succeeds exactly when the price is unchanged, and then the
      stock list is the same as before and only that piece's name is replaced;
      with a different price the name update panics. */
  lemma AddSourceReplaces(p: ProblemData, s: SourceRecord, i: nat)
    requires WellFormed(p) && s.tag == p.tag
    requires i < |p.stockPieces|
    requires p.stockPieces[i].length == s.length && p.stockPieces[i].quantity == s.quantity
    ensures AddSourceTo(p, s).Some? <==> p.stockPieces[i].price == s.cost
    ensures AddSourceTo(p, s).Some? ==>
      var r := AddSourceTo(p, s).value;
      && r.tag == p.tag && r.cuts == p.cuts
      && r.stockPieces == p.stockPieces
      && r.sourceNames == p.sourceNames[p.stockPieces[i] := s.name]
  {
    var piece := ToStockPiece(s);
    var j := FirstIndex(p.stockPieces, HasKey(s.length, s.quantity)).value;
    assert j == i;
    if piece in p.sourceNames {
      var k :| 0 <= k < |p.stockPieces| && p.stockPieces[k] == piece;
      assert k == i;
    }
  }

  /** `add_source` that does not panic keeps the problem well formed: no two
      stock pieces share (length, quantity) and the name lookup has exactly
      the stock pieces as keys. */
  lemma AddSourceKeepsWellFormed(p: ProblemData, s: SourceRecord)
    requires WellFormed(p)
    ensures AddSourceTo(p, s).Some? ==> WellFormed(AddSourceTo(p, s).value)
    ensures AddSourceTo(p, s).Some? ==> AddSourceTo(p, s).value.tag == p.tag
  {
    if s.tag == p.tag {
      match FirstIndex(p.stockPieces, HasKey(s.length, s.quantity))
      case None =>
        var piece := ToStockPiece(s);
        var q := p.stockPieces + [piece];
        assert (set x | x in q) == (set x | x in p.stockPieces) + {piece};
      case Some(i) =>
        AddSourceReplaces(p, s, i);
    }
  }

  /** Two records of one tag with the same length and availability bound but
      different costs: the second `add_source` panics instead of replacing the
      first stock piece. */
  lemma PriceChangePanics(tag: string, length: nat, quantity: Option<nat>, cost1: nat, cost2: nat)
    requires cost1 != cost2
    ensures var first := AddSourceTo(NewProblem(tag), SourceRecord(tag, "a", cost1, length, quantity));
      && first.Some?
      && AddSourceTo(first.value, SourceRecord(tag, "b", cost2, length, quantity)).None?
  {
    var s1 := SourceRecord(tag, "a", cost1, length, quantity);
    var s2 := SourceRecord(tag, "b", cost2, length, quantity);
    var first := AddSourceTo(NewProblem(tag), s1).value;
    assert first.stockPieces == [ToStockPiece(s1)];
    assert first.sourceNames.Keys == {ToStockPiece(s1)};
    assert FirstIndex(first.stockPieces, HasKey(length, quantity)) == Some(0);
    assert ToStockPiece(s2) !in first.sourceNames;
  }
}
