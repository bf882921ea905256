/**
 * `Problem` and `Problem::from_json_files` of src/json_utils.rs as imperative
 * code: the problem's lists and name lookup are fields that its methods
 * update in place, and the aggregation keeps a tag-to-problem map of objects.
 * Each method is proved to follow the matching function of ProblemSpec or
 * Aggregation.
 */
module Problems {
  import opened Wrappers
  import opened Records
  import opened ProblemSpec
  import opened Aggregation

  class Problem {
    var tag: string
    var sourceNames: map<StockPiece, string>
    var stockPieces: seq<StockPiece>
    var cuts: seq<CutPiece>

    /** The problem's current state as a value. */
    ghost function Value(): ProblemData
      reads this
    {
      ProblemData(tag, sourceNames, stockPieces, cuts)
    }

    ghost predicate Valid()
      reads this
    {
      WellFormed(Value())
    }

    /** `Problem::new`: a problem of the given tag with no pieces, no cuts and
        no names, which is therefore not yet a valid problem. */
    constructor (tag: string)
      ensures Valid() && Value() == NewProblem(tag)
      ensures !IsValidProblem()
    {
      this.tag := tag;
      sourceNames := map[];
      stockPieces := [];
      cuts := [];
    }

    /** `add_cut`: merges the demand into the cut of the same length, if any. */
    method AddCut(piece: CutRecord)
      requires Valid()
      modifies this
      ensures Valid()
      ensures Value() == AddCutTo(old(Value()), piece)
      ensures TotalQuantity(cuts) == TotalQuantity(old(cuts)) + (if piece.tag == tag then piece.quantity else 0)
    {
      AddCutKeepsDistinct(Value(), piece);
      AddCutConserves(Value(), piece);
      if tag != piece.tag {
        return;
      }
      var i := 0;
      while i < |cuts| && cuts[i].length != piece.length
        invariant 0 <= i <= |cuts|
        invariant forall k :: 0 <= k < i ==> cuts[k].length != piece.length
      {
        i := i + 1;
      }
      if i == |cuts| {
        cuts := cuts + [ToCutPiece(piece)];
      } else {
        cuts := cuts[i := cuts[i].(quantity := cuts[i].quantity + piece.quantity)];
      }
    }

    /** `add_source`: appends a new stock piece and names it, or overwrites the
        piece with the same (length, quantity) and renames the new piece's
        entry. `ok` is false where the source's `unwrap` panics; the stock
        list has then already been overwritten and the names are as before. */
    method AddSource(source: SourceRecord) returns (ok: bool)
      requires Valid()
      modifies this
      ensures ok <==> AddSourceTo(old(Value()), source).Some?
      ensures ok ==> Valid() && Some(Value()) == AddSourceTo(old(Value()), source)
      ensures !ok ==>
        var i := FirstIndex(old(stockPieces), HasKey(source.length, source.quantity));
        && i.Some?
        && stockPieces == old(stockPieces)[i.value := ToStockPiece(source)]
        && tag == old(tag) && sourceNames == old(sourceNames) && cuts == old(cuts)
    {
      AddSourceKeepsWellFormed(Value(), source);
      ok := true;
      if tag != source.tag {
        return;
      }
      var i := 0;
      while i < |stockPieces| && !(stockPieces[i].length == source.length && stockPieces[i].quantity == source.quantity)
        invariant 0 <= i <= |stockPieces|
        invariant forall k :: 0 <= k < i ==> !HasKey(source.length, source.quantity)(stockPieces[k])
      {
        i := i + 1;
      }
      var s := ToStockPiece(source);
      if i == |stockPieces| {
        stockPieces := stockPieces + [s];
        sourceNames := sourceNames[s := source.name];
      } else {
        stockPieces := stockPieces[i := s];
        if s in sourceNames {
          sourceNames := sourceNames[s := source.name];
        } else {
          ok := false;
        }
      }
    }

    /** `is_valid_problem`: at least one cut and at least one stock piece. */
    function IsValidProblem(): (valid: bool)
      reads this
      ensures valid <==> Solvable(Value())
    {
      |cuts| > 0 && |stockPieces| > 0
    }
  }

  /** The tag-to-problem map's invariant: each entry carries its own key as
      tag, so distinct keys hold distinct objects. */
  ghost predicate Registry(m: map<string, Problem>)
    reads m.Values
  {
    forall t :: t in m ==> m[t].tag == t
  }

  /** Every problem of a map that the records built is well formed. */
  lemma RegistryValid(m: map<string, Problem>, es: seq<Record>)
    requires Fold(es) == Some(Snapshot(m))
    ensures forall t :: t in m ==> m[t].Valid()
  {
    FoldInvariant(es);
    forall t | t in m ensures m[t].Valid() {
      assert m[t].Value() == Snapshot(m)[t];
    }
  }

  /** The map's problems as values. */
  ghost function Snapshot(m: map<string, Problem>): map<string, ProblemData>
    reads m.Values
  {
    map t | t in m :: m[t].Value()
  }

  /** Sends a record to `add_source` or `add_cut`. */
  method Dispatch(p: Problem, e: Record) returns (ok: bool)
    requires p.Valid()
    modifies p
    ensures ok <==> Apply(old(p.Value()), e).Some?
    ensures e.FromCut? ==> ok
    ensures ok ==> p.tag == old(p.tag) && Some(p.Value()) == Apply(old(p.Value()), e)
  {
    match e {
      case FromSource(s) =>
        ok := p.AddSource(s);
      case FromCut(c) =>
        p.AddCut(c);
        ok := true;
    }
  }

  /** The lookup of `from_json_files`: the map's problem for tag t, or a new
      problem of that tag when the map has none. */
  method ProblemFor(m: map<string, Problem>, t: string) returns (p: Problem)
    requires Registry(m) && forall u :: u in m ==> m[u].Valid()
    ensures p.tag == t && p.Valid()
    ensures p.Value() == if t in m then Snapshot(m)[t] else NewProblem(t)
    ensures t in m ==> p == m[t]
    ensures t !in m ==> fresh(p)
    ensures forall u :: u in m && u != t ==> m[u] != p
  {
    if t in m {
      p := m[t];
    } else {
      p := new Problem(t);
    }
    forall u | u in m && u != t ensures m[u] != p {
      assert m[u].tag == u;
    }
  }

  /** Replacing the problem of tag t, with every other problem as it was,
      replaces the map's snapshot at t only. */
  lemma SnapshotUpdate(m: map<string, Problem>, t: string, p: Problem, before: map<string, ProblemData>)
    requires m.Keys == before.Keys && p.tag == t
    requires forall u :: u in m && u != t ==> m[u].tag == u && m[u].Value() == before[u]
    ensures Registry(m[t := p])
    ensures Snapshot(m[t := p]) == before[t := p.Value()]
  {
    var after := Snapshot(m[t := p]);
    var expected := before[t := p.Value()];
    assert after.Keys == expected.Keys;
    forall u | u in after ensures after[u] == expected[u] {
      if u != t {
        assert after[u] == m[u].Value();
      }
    }
  }

  /** One record of the aggregation loop: look up the problem of the record's
      tag, creating it on first sight, and apply the record to it. `ok` is
      false where the source panics. */
  method ApplyRecord(m: map<string, Problem>, e: Record) returns (m': map<string, Problem>, ok: bool)
    requires Registry(m) && forall t :: t in m ==> m[t].Valid()
    modifies m.Values
    ensures ok <==> Step(old(Snapshot(m)), e).Some?
    ensures e.FromCut? ==> ok
    ensures ok ==> Registry(m') && Step(old(Snapshot(m)), e) == Some(Snapshot(m'))
    ensures forall t :: t in m ==> t in m' && m'[t] == m[t]
    ensures forall t :: t in m' && t !in m ==> fresh(m'[t])
  {
    ghost var before := Snapshot(m);
    var t := TagOf(e);
    var p := ProblemFor(m, t);
    StepAt(before, e, p.Value());
    m' := m[t := p];
    assert forall u :: u in m ==> u in m' && m'[u] == m[u];
    ok := Dispatch(p, e);
    if ok {
      forall u | u in m && u != t ensures m[u].tag == u && m[u].Value() == before[u] {
        assert unchanged(m[u]);
      }
      SnapshotUpdate(m, t, p, before);
    }
  }

  /** One of the two record loops of `from_json_files` (a file's sources, or
      its cuts): the records in order, each applied to the problem of its tag.
      `done` are the records already applied to `m`; `ok` is false where the
      source panics, and the loop stops there. */
  method ApplyAll(m: map<string, Problem>, ghost done: seq<Record>, es: seq<Record>)
    returns (m': map<string, Problem>, ok: bool)
    requires Registry(m) && Fold(done) == Some(Snapshot(m))
    modifies m.Values
    ensures ok <==> Fold(done + es).Some?
    ensures (forall k :: 0 <= k < |es| ==> es[k].FromCut?) ==> ok
    ensures ok ==> Registry(m') && Fold(done + es) == Some(Snapshot(m'))
    ensures forall t :: t in m' ==> (t in m && m'[t] == m[t]) || fresh(m'[t])
  {
    m' := m;
    ok := true;
    assert done + es[..0] == done;
    for k := 0 to |es|
      invariant Registry(m') && Fold(done + es[..k]) == Some(Snapshot(m'))
      invariant forall t :: t in m' ==> (t in m && m'[t] == m[t]) || fresh(m'[t])
    {
      RegistryValid(m', done + es[..k]);
      ghost var snap := Snapshot(m');
      ghost var prefix := done + es[..k + 1];
      PrefixStep(done, es, k);
      FoldSnoc(done + es[..k], es[k]);
      m', ok := ApplyRecord(m', es[k]);
      if !ok {
        FoldPanicPersists(prefix, done + es);
        return;
      }
    }
    assert es[..|es|] == es;
  }

  /** The final filter of `from_json_files`: the map's valid problems, one per
      tag, in no particular order. */
  method CollectValid(m: map<string, Problem>) returns (problems: seq<Problem>)
    requires Registry(m)
    ensures forall i :: 0 <= i < |problems| ==>
      && problems[i].tag in m && problems[i] == m[problems[i].tag] && problems[i].IsValidProblem()
    ensures forall i, j :: 0 <= i < j < |problems| ==> problems[i].tag != problems[j].tag
    ensures forall t :: t in m && m[t].IsValidProblem() ==> m[t] in problems
  {
    problems := [];
    var remaining := m.Keys;
    while remaining != {}
      invariant remaining <= m.Keys
      invariant forall i :: 0 <= i < |problems| ==>
        && problems[i].tag in m && problems[i] == m[problems[i].tag]
        && problems[i].tag !in remaining && problems[i].IsValidProblem()
      invariant forall i, j :: 0 <= i < j < |problems| ==> problems[i].tag != problems[j].tag
      invariant forall t :: t in m && t !in remaining && m[t].IsValidProblem() ==> m[t] in problems
      decreases remaining
    {
      var t :| t in remaining;
      if m[t].IsValidProblem() {
        problems := problems + [m[t]];
      }
      remaining := remaining - {t};
    }
  }

  /** One iteration of the file loop of `from_json_files`: the file's source
      records, then (unless a source panicked) its cut records. `done` are
      the records already applied to `m`. */
  method ApplyFile(m: map<string, Problem>, ghost done: seq<Record>, f: InputFile)
    returns (m': map<string, Problem>, ok: bool)
    requires Registry(m) && Fold(done) == Some(Snapshot(m))
    modifies m.Values
    ensures ok <==> Fold(done + SourceRecords(f.sources) + CutRecords(f.cuts)).Some?
    ensures ok ==> Registry(m') && Fold(done + SourceRecords(f.sources) + CutRecords(f.cuts)) == Some(Snapshot(m'))
    ensures forall t :: t in m' ==> (t in m && m'[t] == m[t]) || fresh(m'[t])
  {
    ghost var sources := done + SourceRecords(f.sources);
    m', ok := ApplyAll(m, done, SourceRecords(f.sources));
    if !ok {
      FoldPanicPersists(sources, sources + CutRecords(f.cuts));
      return;
    }
    m', ok := ApplyAll(m', sources, CutRecords(f.cuts));
  }

  /** `Problem::from_json_files` over already parsed files: the files in
      order, each file's sources before its cuts, each record applied to the
      problem of its tag; then the problems that are valid. The result is in
      no particular order, one problem per tag; `None` stands for the panic. */
  method FromRecords(files: seq<InputFile>) returns (r: Option<seq<Problem>>)
    ensures r.None? <==> Fold(Events(files)).None?
    ensures r.Some? ==>
      var m := Fold(Events(files)).value;
      && (forall i :: 0 <= i < |r.value| ==>
            && fresh(r.value[i]) && r.value[i].Valid() && r.value[i].IsValidProblem()
            && r.value[i].tag in m && r.value[i].Value() == m[r.value[i].tag])
      && (forall i, j :: 0 <= i < j < |r.value| ==> r.value[i].tag != r.value[j].tag)
      && (forall t :: t in m && Solvable(m[t]) ==> exists p :: p in r.value && p.tag == t)
  {
    var tagToProblem: map<string, Problem> := map[];
    for i := 0 to |files|
      invariant Registry(tagToProblem)
      invariant forall t :: t in tagToProblem ==> fresh(tagToProblem[t])
      invariant Fold(Events(files[..i])) == Some(Snapshot(tagToProblem))
    {
      EventsSnoc(files, i);
      var ok;
      tagToProblem, ok := ApplyFile(tagToProblem, Events(files[..i]), files[i]);
      if !ok {
        EventsPrefix(files, i + 1);
        FoldPanicPersists(Events(files[..i + 1]), Events(files));
        return None;
      }
    }
    assert files[..|files|] == files;
    RegistryValid(tagToProblem, Events(files));
    var problems := CollectValid(tagToProblem);
    r := Some(problems);
  }
}
