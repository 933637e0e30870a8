/** A schema that can be projected gives a verdict on every value, and so does its projection, although
    references may be cyclic: the projection visits every subschema an evaluation can reach.
 */
module SchemaDeterminacy {
  import opened Collections
  import opened JsonSchema
  import opened SchemaProjection
  import opened SchemaDictionaries
  import opened SchemaInduction

  // ---------------------------------------------------------------------------------------------
  // What a visit reaches

  /** What is known of documents and of keywords at a number of unfoldings. */
  datatype Known = Known(doc: (nat, Doc) -> bool, key: (nat, Entry) -> bool)

  /** The subschemas whose verdicts decide keyword e. */
  function Consulted(e: Entry): seq<Doc> {
    match e.key
    case Properties => if e.value.DDict? then Values(e.value.entries) else []
    case PatternProperties => if e.value.DDict? then Values(e.value.entries) else []
    case Items => [e.value]
    case AdditionalProperties => [e.value]
    case AnyOf => if e.value.DList? then e.value.items else []
    case OneOf => if e.value.DList? then e.value.items else []
    case AllOf => if e.value.DList? then e.value.items else []
    case If => [e.value]
    case Then => [e.value]
    case Else => [e.value]
    case _ => []
  }

  ghost predicate AllKnown(known: Known, n: nat, ds: seq<Doc>) {
    forall i | 0 <= i < |ds| :: known.doc(n, ds[i])
  }

  /** Everything keyword e consults is known. */
  ghost predicate Settled(root: Doc, known: Known, n: nat, e: Entry) {
    if e.key == Ref then Target(root, e.value).Some? && known.doc(n, Target(root, e.value).value)
    else SubDocs(e).Some? && AllKnown(known, n, Consulted(e))
  }

  ghost predicate NodeSettled(known: Known, n: nat, d: Doc) {
    d.DDict? && forall e | e in d.entries :: known.key(n, e)
  }

  /** A keyword is known once what it consults is known, a node one unfolding after all its keywords, and a
      document that is no dictionary after one unfolding. */
  ghost predicate Closed(root: Doc, known: Known) {
    && (forall n: nat, e: Entry {:trigger Settled(root, known, n, e)} | Settled(root, known, n, e) :: known.key(n, e))
    && (forall n: nat, d: Doc | NodeSettled(known, n, d) :: known.doc(n + 1, d))
    && (forall n: nat, d: Doc | n > 0 && !d.DDict? :: known.doc(n, d))
  }

  /** Every keyword of a visited node is settled within the budget of the visit. */
  lemma {:induction false} VisitSettles(root: Doc, known: Known, node: Doc, refs: seq<Word>, budget: nat, m: nat)
    requires WellFormed(root) && WellFormed(node) && Closed(root, known)
    requires Visit(root, node, refs, budget).Done? && m >= budget
    ensures NodeSettled(known, m, node)
    decreases budget, 1, 0
  {
    if Has(node.entries, Ref) {
      RefSettles(root, known, node, refs, budget, m);
    } else {
      VisitKeywordsStep(root, node, refs, budget);
      forall i | 0 <= i < |node.entries| ensures known.key(m, node.entries[i]) {
        EntrySettles(root, known, node, refs, budget - 1, m, i);
      }
      AllSettled(root, known, node, m);
    }
  }

  lemma AllSettled(root: Doc, known: Known, node: Doc, m: nat)
    requires node.DDict? && forall i | 0 <= i < |node.entries| :: known.key(m, node.entries[i])
    ensures NodeSettled(known, m, node)
  {
  }

  lemma {:induction false} RefSettles(root: Doc, known: Known, node: Doc, refs: seq<Word>, budget: nat, m: nat)
    requires WellFormed(root) && WellFormed(node) && Closed(root, known)
    requires Visit(root, node, refs, budget).Done? && Has(node.entries, Ref) && m >= budget
    ensures NodeSettled(known, m, node)
    decreases budget, 0, 1
  {
    VisitRefStep(root, node, refs, budget);
    ExpansionWellFormed(root, node, refs);
    MergedSettles(root, known, node, refs, Expansion(root, node.entries, refs).value,
                  refs + [Get(node.entries, Ref).value.s], budget - 1, m - 1, m);
  }

  lemma {:induction false} MergedSettles(root: Doc, known: Known, node: Doc, refs: seq<Word>, merged: Doc,
      deeper: seq<Word>,
                                         budget: nat, k: nat, m: nat)
    requires WellFormed(root) && WellFormed(node) && WellFormed(merged) && Closed(root, known)
    requires node.DDict? && Has(node.entries, Ref) && Expansion(root, node.entries, refs) == Some(merged)
    requires Visit(root, merged, deeper, budget).Done? && k >= budget && m == k + 1
    ensures NodeSettled(known, m, node)
    decreases budget, 4, 0
  {
    VisitSettles(root, known, merged, deeper, budget, k);
    TargetKnown(root, known, node, refs, merged, k);
    VisitSettles(root, known, merged, deeper, budget, m);
    SiblingsSettled(root, known, m, node, refs, merged);
  }

  lemma {:induction false} EntrySettles(root: Doc, known: Known, node: Doc, refs: seq<Word>, budget: nat, m: nat,
      i: nat)
    requires WellFormed(root) && WellFormed(node) && node.DDict? && Closed(root, known)
    requires VisitEntries(root, node.entries, refs, budget).DoneEntries? && m > budget && i < |node.entries|
    ensures known.key(m, node.entries[i])
    decreases budget, 5, 0
  {
    var e := node.entries[i];
    ProjectedOutput(root, node.entries, refs, budget, i);
    SubDocsWellFormed(node, i);
    AllSettle(root, known, SubDocs(e).value, refs, BudgetAt(root, node.entries, refs, budget, i), m);
    VisitedSettles(root, known, e, m);
  }

  lemma VisitedSettles(root: Doc, known: Known, e: Entry, m: nat)
    requires SubDocs(e).Some? && AllKnown(known, m, SubDocs(e).value) && m > 0 && Closed(root, known)
    ensures known.key(m, e)
  {
    assert Settled(root, known, m, e);
  }

  lemma {:induction false} AllSettle(root: Doc, known: Known, docs: seq<Doc>, refs: seq<Word>, budget: nat, m: nat)
    requires WellFormed(root) && (forall j | 0 <= j < |docs| :: WellFormed(docs[j])) && Closed(root, known)
    requires VisitAll(root, docs, refs, budget).DoneAll? && m > budget
    ensures AllKnown(known, m, docs)
    decreases budget, 2, |docs|
  {
    if docs != [] {
      VisitAllStep(root, docs, refs, budget);
      VisitSettles(root, known, docs[0], refs, budget, m - 1);
      assert known.doc(m - 1 + 1, docs[0]);
      AllSettle(root, known, docs[1..], refs, Visit(root, docs[0], refs, budget).budget, m);
      AllKnownCons(known, m, docs);
    }
  }

  lemma AllKnownCons(known: Known, n: nat, docs: seq<Doc>)
    requires docs != [] && known.doc(n, docs[0]) && AllKnown(known, n, docs[1..])
    ensures AllKnown(known, n, docs)
  {
    forall i | 0 <= i < |docs| ensures known.doc(n, docs[i]) {
      if i > 0 {
        assert known.doc(n, docs[1..][i - 1]);
      }
    }
  }

  lemma SiblingsSettled(root: Doc, known: Known, m: nat, node: Doc, refs: seq<Word>, merged: Doc)
    requires node.DDict? && WellFormed(node) && Has(node.entries, Ref)
    requires Expansion(root, node.entries, refs) == Some(merged)
    requires NodeSettled(known, m, merged)
    requires Closed(root, known) && known.doc(m, Target(root, Get(node.entries, Ref).value).value)
    ensures NodeSettled(known, m, node)
  {
    forall e | e in node.entries ensures known.key(m, e) {
      if e.key == Ref {
        UniqueGet(node.entries, e);
        assert Settled(root, known, m, e);
      } else {
        ExpansionKeeps(root, node.entries, refs, e);
      }
    }
  }

  lemma TargetKnown(root: Doc, known: Known, node: Doc, refs: seq<Word>, merged: Doc, k: nat)
    requires node.DDict? && WellFormed(node) && Has(node.entries, Ref) && Closed(root, known)
    requires Expansion(root, node.entries, refs) == Some(merged)
    requires NodeSettled(known, k, merged)
    ensures known.doc(k + 1, Target(root, Get(node.entries, Ref).value).value)
  {
    var target := Target(root, Get(node.entries, Ref).value).value;
    forall e | e in target.entries ensures known.key(k, e) {
      if Annotation(e.key) {
        assert Settled(root, known, k, e);
      } else {
        ExpansionKeeps(root, node.entries, refs, e);
      }
    }
    assert NodeSettled(known, k, target);
    assert known.doc(k + 1, target);
  }

  // ---------------------------------------------------------------------------------------------
  // What a visit returns

  /** The keywords a projection uses, in the shape it gives them. */
  predicate OutputShape(e: Entry) {
    && (Copied(e.key) || e.key.Properties? || e.key.Items? || e.key.AdditionalProperties? || e.key.OneOf?)
    && (e.key.Properties? ==> e.value.DDict?) && (e.key.OneOf? ==> e.value.DList?)
  }

  lemma {:induction false} WithoutIntegersFrom(docs: seq<Doc>, d: Doc)
    requires d in WithoutIntegers(docs)
    ensures d in docs && !IsInteger(d)
  {
    if d != docs[0] || IsInteger(docs[0]) {
      WithoutIntegersFrom(docs[1..], d);
    }
  }

  lemma OutputSettles(proot: Doc, known: Known, e: Entry, docs: seq<Doc>, m: nat)
    requires SubDocs(e).Some? && |docs| == |SubDocs(e).value| && Output(e, docs).Some? && Output(e, docs).value.Some?
    requires m > 0 && Closed(proot, known) && AllKnown(known, m, docs)
    ensures OutputShape(Output(e, docs).value.value)
    ensures Settled(proot, known, m, Output(e, docs).value.value)
  {
    var put := Output(e, docs).value.value;
    OutputKey(e, docs);
    if e.key == AnyOf {
      forall j | 0 <= j < |put.value.items| ensures known.doc(m, put.value.items[j]) {
        if put.value.items == WithoutIntegers(docs) {
          WithoutIntegersFrom(docs, put.value.items[j]);
        }
      }
    }
    if e.key == Properties {
      assert Values(put.value.entries) == docs;
    }
  }

  /** The claim that a projection is known. */
  ghost function ProjectionKnown(known: Known): Claim {
    (m: nat, es: seq<Entry>, p: Doc) => known.doc(m, p)
  }

  lemma KeysKnown(proot: Doc, known: Known, m: nat, es: seq<Entry>, puts: seq<Option<Entry>>, notes: bool)
    requires Closed(proot, known) && KeysPremise(ProjectionKnown(known), m, es, puts)
    ensures known.doc(m + 1, DDict(Finish(es, puts, notes)))
  {
    forall e | e in Finish(es, puts, notes) ensures known.key(m, e) {
      FinishFrom(es, puts, notes, e);
      if Some(e) in puts {
        var i :| 0 <= i < |puts| && puts[i] == Some(e);
        assert KeyPremise(ProjectionKnown(known), m, es[i], puts[i]);
        var docs :| ClaimedAll(ProjectionKnown(known), m, SubDocs(es[i]).value, docs)
            && Output(es[i], docs) == Some(puts[i]);
        DocsKnown(known, m, SubDocs(es[i]).value, docs);
        OutputSettles(proot, known, es[i], docs, m);
      }
      assert Settled(proot, known, m, e);
    }
    assert NodeSettled(known, m, DDict(Finish(es, puts, notes)));
  }

  lemma DocsKnown(known: Known, m: nat, ds: seq<Doc>, docs: seq<Doc>)
    requires ClaimedAll(ProjectionKnown(known), m, ds, docs)
    ensures AllKnown(known, m, docs)
  {
    forall j | 0 <= j < |docs| ensures known.doc(m, docs[j]) {
      assert ProjectionKnown(known)(m, ds[j].entries, docs[j]);
    }
  }

  /** The projection of a visited node is known, whatever document it stands in. */
  lemma VisitReturns(root: Doc, node: Doc, refs: seq<Word>, budget: nat, proot: Doc, known: Known, m: nat)
    requires WellFormed(root) && WellFormed(node) && Visit(root, node, refs, budget).Done? && m > budget
    requires Closed(proot, known)
    ensures known.doc(m, Visit(root, node, refs, budget).doc)
  {
    var claim := ProjectionKnown(known);
    assert Carries(root, claim) by {
      forall m: nat, es: seq<Entry>, puts: seq<Option<Entry>>, notes: bool | KeysPremise(claim, m, es, puts)
        ensures claim(m + 1, es, DDict(Finish(es, puts, notes)))
      {
        KeysKnown(proot, known, m, es, puts, notes);
      }
    }
    VisitInduction(root, claim, node, refs, budget, m);
  }

  // ---------------------------------------------------------------------------------------------
  // Verdicts

  ghost predicate Decided(w: Verdicts, d: Doc) {
    forall v :: w.accepts(d, v) || w.rejects(d, v)
  }

  ghost predicate AllDecided(w: Verdicts, ds: seq<Doc>) {
    forall i | 0 <= i < |ds| :: Decided(w, ds[i])
  }

  ghost predicate KeySettled(root: Doc, w: Verdicts, e: Entry) {
    if e.key == Ref then Target(root, e.value).Some? && Decided(w, Target(root, e.value).value)
    else SubDocs(e).Some? && AllDecided(w, Consulted(e))
  }

  lemma FieldsDecided(w: Verdicts, ps: seq<Entry>, v: Value)
    requires AllDecided(w, Values(ps))
    ensures FieldsAccept(w, ps, v) || FieldsReject(w, ps, v)
  {
    forall i | 0 <= i < |ps| && v.Obj? && ps[i].key in v.fields
      ensures w.accepts(ps[i].value, v.fields[ps[i].key]) || w.rejects(ps[i].value, v.fields[ps[i].key])
    {
      assert Decided(w, Values(ps)[i]);
    }
  }

  lemma PatternsDecided(o: Oracle, w: Verdicts, ps: seq<Entry>, v: Value)
    requires AllDecided(w, Values(ps))
    ensures PatternsAccept(o, w, ps, v) || PatternsReject(o, w, ps, v)
  {
    forall i, k | 0 <= i < |ps| && v.Obj? && k in v.fields && o.matches(ps[i].key, k)
      ensures w.accepts(ps[i].value, v.fields[k]) || w.rejects(ps[i].value, v.fields[k])
    {
      assert Decided(w, Values(ps)[i]);
    }
  }

  lemma BranchesDecided(w: Verdicts, bs: seq<Doc>, v: Value)
    requires AllDecided(w, bs)
    ensures SomeAccepts(w, bs, v) || AllReject(w, bs, v)
    ensures AllAccept(w, bs, v) || SomeRejects(w, bs, v)
  {
    forall i | 0 <= i < |bs| ensures w.accepts(bs[i], v) || w.rejects(bs[i], v) {
      assert Decided(w, bs[i]);
    }
  }

  lemma OneDecided(w: Verdicts, bs: seq<Doc>, v: Value)
    requires AllDecided(w, bs)
    ensures OneAccepts(w, bs, v) || AllReject(w, bs, v) || TwoAccept(w, bs, v)
  {
    BranchesDecided(w, bs, v);
    if SomeAccepts(w, bs, v) && !TwoAccept(w, bs, v) {
      var i :| 0 <= i < |bs| && w.accepts(bs[i], v);
      forall j | 0 <= j < |bs| && j != i ensures w.rejects(bs[j], v) {
        assert Decided(w, bs[j]);
        assert !w.accepts(bs[j], v) by {
          var lo, hi := if i < j then i else j, if i < j then j else i;
          assert !(w.accepts(bs[lo], v) && w.accepts(bs[hi], v));
        }
      }
    }
  }

  lemma UnionDecided(o: Oracle, root: Doc, w: Verdicts, es: seq<Entry>, e: Entry, v: Value)
    requires BranchKey(e.key) && KeySettled(root, w, e)
    ensures KeyAccepts(o, root, w, es, e, v) || KeyRejects(o, root, w, es, e, v)
  {
    if e.key == OneOf {
      OneDecided(w, e.value.items, v);
    } else {
      BranchesDecided(w, e.value.items, v);
    }
  }

  lemma ObjectDecided(o: Oracle, root: Doc, w: Verdicts, es: seq<Entry>, e: Entry, v: Value)
    requires (e.key.Properties? || e.key.PatternProperties?) && KeySettled(root, w, e)
    ensures KeyAccepts(o, root, w, es, e, v) || KeyRejects(o, root, w, es, e, v)
  {
    if e.key.Properties? {
      FieldsDecided(w, e.value.entries, v);
    } else {
      PatternsDecided(o, w, e.value.entries, v);
    }
  }

  lemma ElementDecided(o: Oracle, root: Doc, w: Verdicts, es: seq<Entry>, e: Entry, v: Value)
    requires (e.key.Items? || e.key.AdditionalProperties?) && KeySettled(root, w, e)
    ensures KeyAccepts(o, root, w, es, e, v) || KeyRejects(o, root, w, es, e, v)
  {
    assert Decided(w, Consulted(e)[0]);
  }

  lemma BranchDecided(root: Doc, w: Verdicts, es: seq<Entry>, key: Word)
    requires (forall x | x in es :: KeySettled(root, w, x)) && Has(es, key) && (key == Then || key == Else)
    ensures Decided(w, Get(es, key).value)
  {
    var x := es[IndexOf(es, key)];
    assert KeySettled(root, w, x);
    assert Decided(w, Consulted(x)[0]);
  }

  lemma ConditionDecided(o: Oracle, root: Doc, w: Verdicts, es: seq<Entry>, e: Entry, v: Value)
    requires e.key.If? && (forall x | x in es :: KeySettled(root, w, x)) && e in es
    ensures KeyAccepts(o, root, w, es, e, v) || KeyRejects(o, root, w, es, e, v)
  {
    assert Decided(w, Consulted(e)[0]);
    if Has(es, Then) {
      BranchDecided(root, w, es, Then);
    }
    if Has(es, Else) {
      BranchDecided(root, w, es, Else);
    }
  }

  lemma KeyDecided(o: Oracle, root: Doc, w: Verdicts, es: seq<Entry>, e: Entry, v: Value)
    requires e in es && forall x | x in es :: KeySettled(root, w, x)
    ensures KeyAccepts(o, root, w, es, e, v) || KeyRejects(o, root, w, es, e, v)
  {
    if BranchKey(e.key) {
      UnionDecided(o, root, w, es, e, v);
    } else if e.key.Properties? || e.key.PatternProperties? {
      ObjectDecided(o, root, w, es, e, v);
    } else if e.key.Items? || e.key.AdditionalProperties? {
      ElementDecided(o, root, w, es, e, v);
    } else if e.key.If? {
      ConditionDecided(o, root, w, es, e, v);
    }
  }

  /** A node all of whose keywords are settled is decided one unfolding later. */
  lemma SettledDecides(o: Oracle, root: Doc, w: Verdicts, d: Doc)
    requires d.DDict? && forall e | e in d.entries :: KeySettled(root, w, e)
    ensures Decided(Unfold(o, root, w), d)
  {
    forall v ensures DocAccepts(o, root, w, d, v) || DocRejects(o, root, w, d, v) {
      forall i | 0 <= i < |d.entries|
        ensures || KeyAccepts(o, root, w, d.entries, d.entries[i], v)
                || KeyRejects(o, root, w, d.entries, d.entries[i], v)
      {
        KeyDecided(o, root, w, d.entries, d.entries[i], v);
      }
    }
  }

  lemma NonDictDecided(o: Oracle, root: Doc, w: Verdicts, d: Doc)
    requires !d.DDict?
    ensures Decided(Unfold(o, root, w), d)
  {
    forall v ensures Unfold(o, root, w).accepts(d, v) || Unfold(o, root, w).rejects(d, v) {
      assert DocAccepts(o, root, w, d, v) || DocRejects(o, root, w, d, v);
    }
  }

  /** Being decided by the n-th level. */
  ghost function DecidedBy(o: Oracle, root: Doc): Known {
    Known((n: nat, d: Doc) => Decided(Level(o, root, n), d),
          (n: nat, e: Entry) => KeySettled(root, Level(o, root, n), e))
  }

  lemma SettledByLevel(o: Oracle, root: Doc, n: nat, e: Entry)
    requires Settled(root, DecidedBy(o, root), n, e)
    ensures KeySettled(root, Level(o, root, n), e)
  {
    forall i | 0 <= i < |Consulted(e)| && e.key != Ref ensures Decided(Level(o, root, n), Consulted(e)[i]) {
      assert DecidedBy(o, root).doc(n, Consulted(e)[i]);
    }
  }

  lemma NodeDecided(o: Oracle, root: Doc, n: nat, d: Doc)
    requires NodeSettled(DecidedBy(o, root), n, d)
    ensures DecidedBy(o, root).doc(n + 1, d)
  {
    forall e | e in d.entries ensures KeySettled(root, Level(o, root, n), e) {
      assert DecidedBy(o, root).key(n, e);
    }
    SettledDecides(o, root, Level(o, root, n), d);
  }

  lemma LeafDecided(o: Oracle, root: Doc, n: nat, d: Doc)
    requires n > 0 && !d.DDict?
    ensures DecidedBy(o, root).doc(n, d)
  {
    NonDictDecided(o, root, Level(o, root, n - 1), d);
    assert Level(o, root, n) == Unfold(o, root, Level(o, root, n - 1));
    assert Decided(Level(o, root, n), d);
  }

  lemma DecidedByCloses(o: Oracle, root: Doc)
    ensures Closed(root, DecidedBy(o, root))
  {
    var known := DecidedBy(o, root);
    forall n: nat, e: Entry | Settled(root, known, n, e) ensures known.key(n, e) {
      SettledByLevel(o, root, n, e);
    }
    forall n: nat, d: Doc | NodeSettled(known, n, d) ensures known.doc(n + 1, d) {
      NodeDecided(o, root, n, d);
    }
    forall n: nat, d: Doc | n > 0 && !d.DDict? ensures known.doc(n, d) {
      LeafDecided(o, root, n, d);
    }
  }

  lemma DecidedVerdict(o: Oracle, root: Doc, n: nat, v: Value)
    requires DecidedBy(o, root).doc(n, root)
    ensures Accepts(o, root, root, v, n) != Rejects(o, root, root, v, n)
  {
    VerdictsExclude(o, root, root, v, n, n);
  }

  lemma VisitDecides(o: Oracle, schema: Doc, budget: nat, n: nat)
    requires WellFormed(schema) && Visit(schema, schema, [], budget).Done? && n > budget
    ensures DecidedBy(o, schema).doc(n, schema)
  {
    DecidedByCloses(o, schema);
    VisitKnown(schema, DecidedBy(o, schema), budget, n);
  }

  lemma VisitKnown(schema: Doc, known: Known, budget: nat, n: nat)
    requires WellFormed(schema) && Visit(schema, schema, [], budget).Done? && n > budget && Closed(schema, known)
    ensures known.doc(n, schema)
  {
    VisitSettles(schema, known, schema, [], budget, n - 1);
    assert known.doc(n - 1 + 1, schema);
  }

  lemma ReturnDecided(o: Oracle, schema: Doc, budget: nat, p: Doc, n: nat)
    requires WellFormed(schema) && n > budget
    requires Visit(schema, schema, [], budget).Done? && Visit(schema, schema, [], budget).doc == p
    ensures DecidedBy(o, p).doc(n, p)
  {
    DecidedByCloses(o, p);
    VisitReturns(schema, schema, [], budget, p, DecidedBy(o, p), n);
  }

  /** A schema that can be projected decides every value, once it is unfolded more often than the budget has visits. */
  lemma ProjectableDecides(o: Oracle, schema: Doc, budget: nat, v: Value, n: nat)
    requires WellFormed(schema) && ProjectWithin(schema, budget).Some? && n > budget
    ensures Accepts(o, schema, schema, v, n) != Rejects(o, schema, schema, v, n)
  {
    VisitDecides(o, schema, budget, n);
    DecidedVerdict(o, schema, n, v);
  }

  /** A projection decides every value. */
  lemma ProjectionDecides(o: Oracle, schema: Doc, budget: nat, v: Value, n: nat)
    requires WellFormed(schema) && ProjectWithin(schema, budget).Some? && n > budget
    ensures var p := ProjectWithin(schema, budget).value;
            Accepts(o, p, p, v, n) != Rejects(o, p, p, v, n)
  {
    var p := ProjectWithin(schema, budget).value;
    ReturnDecided(o, schema, budget, p, n);
    DecidedVerdict(o, p, n, v);
  }
}
