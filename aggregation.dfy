/**
 * The meaning of `Problem::from_json_files` (src/json_utils.rs), stated over
 * the records that parsing the files yields: every record goes, in order, to
 * the problem of its tag (created on first sight), and the result is the set
 * of solvable problems.
 */
module Aggregation {
  import opened Wrappers
  import opened Records
  import opened ProblemSpec

  /** What parsing one file yields: its source records and its cut records. */
  datatype InputFile = InputFile(sources: seq<SourceRecord>, cuts: seq<CutRecord>)

  /** One record in processing order. */
  datatype Record = FromSource(source: SourceRecord) | FromCut(cut: CutRecord)

  function TagOf(e: Record): string
  {
    match e
    case FromSource(s) => s.tag
    case FromCut(c) => c.tag
  }

  function SourceRecords(sources: seq<SourceRecord>): seq<Record>
  {
    seq(|sources|, i requires 0 <= i < |sources| => FromSource(sources[i]))
  }

  function CutRecords(cuts: seq<CutRecord>): seq<Record>
  {
    seq(|cuts|, i requires 0 <= i < |cuts| => FromCut(cuts[i]))
  }

  lemma SourceRecordsMembers(sources: seq<SourceRecord>)
    ensures forall s :: s in sources ==> FromSource(s) in SourceRecords(sources)
    ensures forall e :: e in SourceRecords(sources) ==> e.FromSource? && e.source in sources
  {
    forall s | s in sources ensures FromSource(s) in SourceRecords(sources) {
      var j :| 0 <= j < |sources| && sources[j] == s;
      assert SourceRecords(sources)[j] == FromSource(s);
    }
  }

  lemma CutRecordsMembers(cuts: seq<CutRecord>)
    ensures forall c :: c in cuts ==> FromCut(c) in CutRecords(cuts)
    ensures forall e :: e in CutRecords(cuts) ==> e.FromCut? && e.cut in cuts
  {
    forall c | c in cuts ensures FromCut(c) in CutRecords(cuts) {
      var j :| 0 <= j < |cuts| && cuts[j] == c;
      assert CutRecords(cuts)[j] == FromCut(c);
    }
  }

  /** Whether record e comes from file f. */
  predicate InFile(e: Record, f: InputFile)
  {
    match e
    case FromSource(s) => s in f.sources
    case FromCut(c) => c in f.cuts
  }

  /** The order in which records are applied: file by file, and within a file
      all its sources before all its cuts. Every record of every file is
      processed, and nothing else is. */
  function Events(files: seq<InputFile>): (r: seq<Record>)
    ensures forall i, e :: 0 <= i < |files| && InFile(e, files[i]) ==> e in r
    ensures forall e :: e in r ==> exists i :: 0 <= i < |files| && InFile(e, files[i])
  {
    if files == [] then []
    else
      var n := |files| - 1;
      var f := files[n];
      var before := Events(files[..n]);
      SourceRecordsMembers(f.sources);
      CutRecordsMembers(f.cuts);
      assert forall i :: 0 <= i < n ==> files[..n][i] == files[i];
      before + SourceRecords(f.sources) + CutRecords(f.cuts)
  }

  /** One record applied to one problem (`add_source` may panic). */
  function Apply(p: ProblemData, e: Record): (r: Option<ProblemData>)
    ensures r.Some? ==> r.value.tag == p.tag
    ensures TagOf(e) != p.tag ==> r == Some(p)
  {
    match e
    case FromSource(s) => AddSourceTo(p, s)
    case FromCut(c) => Some(AddCutTo(p, c))
  }

  /** A sequence of records applied to one problem, stopping at a panic. */
  function Build(p: ProblemData, es: seq<Record>): (r: Option<ProblemData>)
    ensures r.Some? ==> r.value.tag == p.tag
  {
    if es == [] then Some(p)
    else match Build(p, es[..|es| - 1])
      case None => None
      case Some(q) => Apply(q, es[|es| - 1])
  }

  /** One iteration of the aggregation loop over the tag-to-problem map. */
  function Step(m: map<string, ProblemData>, e: Record): (r: Option<map<string, ProblemData>>)
    ensures e.FromCut? ==> r.Some?
    ensures r.Some? ==> r.value.Keys == m.Keys + {TagOf(e)}
    ensures r.Some? ==> forall t :: t in m && t != TagOf(e) ==> r.value[t] == m[t]
  {
    var t := TagOf(e);
    var p := if t in m then m[t] else NewProblem(t);
    match Apply(p, e)
    case None => None
    case Some(q) => Some(m[t := q])
  }

  /** `Step` in terms of the looked-up problem p0 of the record's tag. */
  lemma StepAt(m: map<string, ProblemData>, e: Record, p0: ProblemData)
    requires p0 == if TagOf(e) in m then m[TagOf(e)] else NewProblem(TagOf(e))
    ensures Step(m, e).Some? <==> Apply(p0, e).Some?
    ensures Apply(p0, e).Some? ==> Step(m, e) == Some(m[TagOf(e) := Apply(p0, e).value])
  {
  }

  /** The tag-to-problem map after all records (`None` if some record panicked). */
  function Fold(es: seq<Record>): (r: Option<map<string, ProblemData>>)
    ensures r.Some? ==> r.value.Keys == Tags(es)
  {
    if es == [] then Some(map[])
    else match Fold(es[..|es| - 1])
      case None => None
      case Some(m) => Step(m, es[|es| - 1])
  }

  /** The tags of all records. */
  function Tags(es: seq<Record>): set<string>
  {
    if es == [] then {} else Tags(es[..|es| - 1]) + {TagOf(es[|es| - 1])}
  }

  /** The tags of the source records. */
  function SourceTags(es: seq<Record>): set<string>
  {
    if es == [] then {}
    else
      var e := es[|es| - 1];
      SourceTags(es[..|es| - 1]) + (if e.FromSource? then {e.source.tag} else {})
  }

  /** The tags of the cut records. */
  function CutTags(es: seq<Record>): set<string>
  {
    if es == [] then {}
    else
      var e := es[|es| - 1];
      CutTags(es[..|es| - 1]) + (if e.FromCut? then {e.cut.tag} else {})
  }

  /** The records of one tag, in their original order. */
  function OnlyTag(es: seq<Record>, t: string): seq<Record>
  {
    if es == [] then []
    else OnlyTag(es[..|es| - 1], t) + (if TagOf(es[|es| - 1]) == t then [es[|es| - 1]] else [])
  }

  /** The total quantity that the cut records of tag t demand. */
  function CutDemand(es: seq<Record>, t: string): nat
  {
    if es == [] then 0
    else
      var e := es[|es| - 1];
      CutDemand(es[..|es| - 1], t) + (if e.FromCut? && e.cut.tag == t then e.cut.quantity else 0)
  }

  /** The problems that the final filter keeps: every kept problem is a
      solvable entry of the map, and every solvable entry is kept. */
  function SolvableProblems(m: map<string, ProblemData>): (r: set<ProblemData>)
    ensures forall p :: p in r ==> Solvable(p) && exists t :: t in m && m[t] == p
    ensures forall t :: t in m && Solvable(m[t]) ==> m[t] in r
  {
    set t | t in m && Solvable(m[t]) :: m[t]
  }

  /** The whole aggregation: the solvable problems, in no particular order,
      at most one per tag. */
  function Aggregate(files: seq<InputFile>): (r: Option<set<ProblemData>>)
    ensures r.Some? <==> Fold(Events(files)).Some?
    ensures r.Some? ==> forall p :: p in r.value ==> Solvable(p) && p.tag in Tags(Events(files))
    ensures r.Some? ==> forall p, q :: p in r.value && q in r.value && p.tag == q.tag ==> p == q
  {
    FoldInvariant(Events(files));
    match Fold(Events(files))
    case None => None
    case Some(m) => Some(SolvableProblems(m))
  }

  /** Extending a processed prefix by the next record. */
  lemma PrefixStep(done: seq<Record>, es: seq<Record>, k: nat)
    requires k < |es|
    ensures done + es[..k + 1] == (done + es[..k]) + [es[k]]
    ensures done + es[..k + 1] <= done + es
  {
    assert es[..k + 1] == es[..k] + [es[k]];
  }

  lemma FoldSnoc(xs: seq<Record>, e: Record)
    ensures Fold(xs + [e]) == match Fold(xs) case None => None case Some(m) => Step(m, e)
  {
    assert (xs + [e])[..|xs|] == xs;
  }

  /** Processing one more file appends its sources and then its cuts. */
  lemma EventsSnoc(files: seq<InputFile>, i: nat)
    requires i < |files|
    ensures Events(files[..i + 1])
         == Events(files[..i]) + SourceRecords(files[i].sources) + CutRecords(files[i].cuts)
  {
    assert files[..i + 1][..i] == files[..i];
  }

  /** The records of the first k files come first in the records of all files. */
  lemma {:induction false} EventsPrefix(files: seq<InputFile>, k: nat)
    requires k <= |files|
    ensures Events(files[..k]) <= Events(files)
    decreases |files| - k
  {
    if k == |files| {
      assert files[..k] == files;
    } else {
      EventsPrefix(files, k + 1);
      assert files[..k + 1][..k] == files[..k];
    }
  }

  /** A panic is final: once a prefix of the records panics, so do all of them. */
  lemma {:induction false} FoldPanicPersists(xs: seq<Record>, es: seq<Record>)
    requires xs <= es && Fold(xs).None?
    ensures Fold(es).None?
    decreases |es|
  {
    if |es| > |xs| {
      FoldPanicPersists(xs, es[..|es| - 1]);
    } else {
      assert xs == es;
    }
  }

  lemma {:induction false} OnlyTagAbsent(es: seq<Record>, t: string)
    requires t !in Tags(es)
    ensures OnlyTag(es, t) == []
  {
    if es != [] {
      OnlyTagAbsent(es[..|es| - 1], t);
    }
  }

  lemma BuildSnoc(p: ProblemData, ys: seq<Record>, e: Record)
    ensures Build(p, ys + [e]) == match Build(p, ys) case None => None case Some(q) => Apply(q, e)
  {
    assert (ys + [e])[..|ys|] == ys;
  }

  /** Aggregation keeps one problem per distinct tag, and each is exactly what
      the records of its own tag, applied in order to a new problem, produce:
      the map has precisely the tags of the records as keys, and it is built
      (without a panic) exactly when every tag's own records build. */
  lemma {:induction false} FoldIsPerTag(es: seq<Record>)
    ensures Fold(es).Some? <==> forall t :: t in Tags(es) ==> Build(NewProblem(t), OnlyTag(es, t)).Some?
    ensures Fold(es).Some? ==>
      && Fold(es).value.Keys == Tags(es)
      && forall t :: t in Tags(es) ==> Build(NewProblem(t), OnlyTag(es, t)) == Some(Fold(es).value[t])
  {
    if es == [] {
      assert Tags(es) == {};
    } else {
      var n := |es| - 1;
      var xs, e := es[..n], es[n];
      var u := TagOf(e);
      FoldIsPerTag(xs);
      assert Tags(es) == Tags(xs) + {u};
      var ys := OnlyTag(xs, u);
      assert OnlyTag(es, u) == ys + [e];
      BuildSnoc(NewProblem(u), ys, e);
      match Fold(xs)
      case None =>
        var t :| t in Tags(xs) && Build(NewProblem(t), OnlyTag(xs, t)).None?;
        if t != u {
          assert OnlyTag(es, t) == OnlyTag(xs, t);
        }
        assert Build(NewProblem(t), OnlyTag(es, t)).None?;
        assert Fold(es).None?;
      case Some(m) =>
        var p := if u in m then m[u] else NewProblem(u);
        if u !in Tags(xs) {
          OnlyTagAbsent(xs, u);
        }
        assert Build(NewProblem(u), ys) == Some(p);
        assert Build(NewProblem(u), OnlyTag(es, u)) == Apply(p, e);
        assert Fold(es) == Step(m, e);
        match Apply(p, e)
        case None =>
          assert Fold(es).None?;
        case Some(q) =>
          var m' := m[u := q];
          assert Fold(es) == Some(m');
          forall t | t in Tags(es)
            ensures Build(NewProblem(t), OnlyTag(es, t)) == Some(m'[t])
          {
            if t != u {
              assert OnlyTag(es, t) == OnlyTag(xs, t);
            }
          }
    }
  }

  /** Applying a record keeps the problem well formed and its tag, and adds to
      the cut total exactly the quantity of a cut record of the same tag. */
  lemma ApplyKeeps(p: ProblemData, e: Record)
    requires WellFormed(p)
    ensures Apply(p, e).Some? ==> WellFormed(Apply(p, e).value)
    ensures Apply(p, e).Some? ==>
      TotalQuantity(Apply(p, e).value.cuts)
        == TotalQuantity(p.cuts) + (if e.FromCut? && e.cut.tag == p.tag then e.cut.quantity else 0)
    ensures Apply(p, e).Some? ==>
      (Apply(p, e).value.cuts != [] <==> p.cuts != [] || (e.FromCut? && e.cut.tag == p.tag))
    ensures Apply(p, e).Some? ==>
      (Apply(p, e).value.stockPieces != [] <==> p.stockPieces != [] || (e.FromSource? && e.source.tag == p.tag))
  {
    match e
    case FromSource(s) =>
      AddSourceKeepsWellFormed(p, s);
    case FromCut(c) =>
      AddCutKeepsDistinct(p, c);
      AddCutConserves(p, c);
      AddCutShape(p, c);
  }

  /** What the aggregation map records about the records es: every tag of
      a source or cut record has a problem, and every problem carries its own
      tag, is well formed, demands in total what the cut records of its tag
      demand, and has cuts (stock pieces) exactly when some cut (source)
      record carries its tag. */
  ghost predicate Summarises(m: map<string, ProblemData>, es: seq<Record>)
  {
    && SourceTags(es) + CutTags(es) <= m.Keys
    && forall t :: t in m ==> EntrySummarises(m[t], t, es)
  }

  /** What Summarises says about the problem of one tag t. */
  ghost predicate EntrySummarises(q: ProblemData, t: string, es: seq<Record>)
  {
    && q.tag == t
    && WellFormed(q)
    && TotalQuantity(q.cuts) == CutDemand(es, t)
    && (q.cuts != [] <==> t in CutTags(es))
    && (q.stockPieces != [] <==> t in SourceTags(es))
  }

  lemma SnocOther(xs: seq<Record>, e: Record, t: string)
    requires t != TagOf(e)
    ensures CutDemand(xs + [e], t) == CutDemand(xs, t)
    ensures t in CutTags(xs + [e]) <==> t in CutTags(xs)
    ensures t in SourceTags(xs + [e]) <==> t in SourceTags(xs)
  {
    assert (xs + [e])[..|xs|] == xs;
  }

  lemma SnocOwn(xs: seq<Record>, e: Record)
    ensures CutDemand(xs + [e], TagOf(e)) == CutDemand(xs, TagOf(e)) + (if e.FromCut? then e.cut.quantity else 0)
    ensures TagOf(e) in CutTags(xs + [e]) <==> TagOf(e) in CutTags(xs) || e.FromCut?
    ensures TagOf(e) in SourceTags(xs + [e]) <==> TagOf(e) in SourceTags(xs) || e.FromSource?
    ensures SourceTags(xs + [e]) + CutTags(xs + [e]) == SourceTags(xs) + CutTags(xs) + {TagOf(e)}
  {
    assert (xs + [e])[..|xs|] == xs;
  }

  /** The problem of the record's own tag, after the record. */
  lemma StepKeepsOwn(m: map<string, ProblemData>, xs: seq<Record>, e: Record)
    requires Summarises(m, xs) && Step(m, e).Some?
    ensures EntrySummarises(Step(m, e).value[TagOf(e)], TagOf(e), xs + [e])
  {
    var u := TagOf(e);
    var p := if u in m then m[u] else NewProblem(u);
    StepAt(m, e, p);
    var q := Apply(p, e).value;
    assert Step(m, e).value[u] == q;
    if u in m {
      assert EntrySummarises(p, u, xs);
    } else {
      assert u !in CutTags(xs) && u !in SourceTags(xs);
      CutDemandAbsent(xs, u);
    }
    SnocOwn(xs, e);
    ApplyKeeps(p, e);
    assert EntrySummarises(q, u, xs + [e]);
  }

  /** The problem of another tag t, which the record leaves alone. */
  lemma StepKeepsOther(q: ProblemData, t: string, xs: seq<Record>, e: Record)
    requires EntrySummarises(q, t, xs) && t != TagOf(e)
    ensures EntrySummarises(q, t, xs + [e])
  {
    SnocOther(xs, e, t);
  }

  lemma StepKeeps(m: map<string, ProblemData>, xs: seq<Record>, e: Record)
    requires Summarises(m, xs) && Step(m, e).Some?
    ensures Summarises(Step(m, e).value, xs + [e])
  {
    var m' := Step(m, e).value;
    var u := TagOf(e);
    SnocOwn(xs, e);
    StepKeepsOwn(m, xs, e);
    forall t | t in m' && t != u
      ensures EntrySummarises(m'[t], t, xs + [e])
    {
      assert m'[t] == m[t] && EntrySummarises(m[t], t, xs);
      StepKeepsOther(m[t], t, xs, e);
    }
  }

  /** Every problem the aggregation builds carries its own tag, is well formed
      (distinct cut lengths, distinct stock keys, names for exactly the stock
      pieces), demands in total exactly what the cut records of its tag
      demand, and has cuts (stock pieces) exactly when some cut (source)
      record carries its tag. */
  lemma FoldInvariant(es: seq<Record>)
    ensures Fold(es).Some? ==> SourceTags(es) + CutTags(es) <= Fold(es).value.Keys
    ensures Fold(es).Some? ==>
      forall t :: t in Fold(es).value ==>
        && Fold(es).value[t].tag == t
        && WellFormed(Fold(es).value[t])
        && TotalQuantity(Fold(es).value[t].cuts) == CutDemand(es, t)
        && (Fold(es).value[t].cuts != [] <==> t in CutTags(es))
        && (Fold(es).value[t].stockPieces != [] <==> t in SourceTags(es))
  {
    FoldSummarises(es);
  }

  lemma {:induction false} FoldSummarises(es: seq<Record>)
    ensures Fold(es).Some? ==> Summarises(Fold(es).value, es)
  {
    if es != [] && Fold(es).Some? {
      var n := |es| - 1;
      var xs, e := es[..n], es[n];
      assert es == xs + [e];
      FoldSnoc(xs, e);
      FoldSummarises(xs);
      StepKeeps(Fold(xs).value, xs, e);
    }
  }

  lemma {:induction false} CutDemandAbsent(es: seq<Record>, t: string)
    requires t !in CutTags(es)
    ensures CutDemand(es, t) == 0
  {
    if es != [] {
      CutDemandAbsent(es[..|es| - 1], t);
    }
  }

  /** The guard in `add_cut` and `add_source` makes records of other tags
      no-ops: applying a whole record sequence to a problem is the same as
      applying only the records of its tag. */
  lemma {:induction false} ForeignRecordsIgnored(p: ProblemData, es: seq<Record>)
    ensures Build(p, es) == Build(p, OnlyTag(es, p.tag))
  {
    if es != [] {
      var n := |es| - 1;
      var xs, e := es[..n], es[n];
      ForeignRecordsIgnored(p, xs);
      var ys := OnlyTag(xs, p.tag);
      if TagOf(e) == p.tag {
        assert OnlyTag(es, p.tag) == ys + [e];
        assert (ys + [e])[..|ys|] == ys;
      } else {
        assert OnlyTag(es, p.tag) == ys;
      }
    }
  }

  /** The final filter keeps exactly the solvable problems, one per tag: a
      kept problem is the map's entry for its own tag, and a tag's entry is
      kept exactly when it is solvable. */
  lemma SolvableProblemsExact(m: map<string, ProblemData>)
    requires forall t :: t in m ==> m[t].tag == t
    ensures forall p :: p in SolvableProblems(m) ==> p.tag in m && m[p.tag] == p && Solvable(p)
    ensures forall t :: t in m ==> (m[t] in SolvableProblems(m) <==> Solvable(m[t]))
  {
  }

  /** The result holds a problem for tag t exactly when t has at least one
      source record and at least one cut record; that problem is the one
      built from the records of tag t. */
  lemma AggregateExact(files: seq<InputFile>)
    ensures Aggregate(files).Some? <==> Fold(Events(files)).Some?
    ensures Aggregate(files).Some? ==>
      var es := Events(files);
      && (forall p :: p in Aggregate(files).value ==>
            p.tag in SourceTags(es) && p.tag in CutTags(es)
            && Build(NewProblem(p.tag), OnlyTag(es, p.tag)) == Some(p))
      && (forall t :: t in SourceTags(es) && t in CutTags(es) ==>
            exists p :: p in Aggregate(files).value && p.tag == t)
  {
    var es := Events(files);
    if Fold(es).Some? {
      var m := Fold(es).value;
      FoldIsPerTag(es);
      FoldInvariant(es);
      SolvableProblemsExact(m);
      forall t | t in SourceTags(es) && t in CutTags(es)
        ensures exists p :: p in Aggregate(files).value && p.tag == t
      {
        assert m[t] in SolvableProblems(m);
      }
    }
  }
}
