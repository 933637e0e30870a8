/** The induction principle of the projection: what holds of a node and its projection whenever it holds of the
    parts holds of every successful visit.
 */
module SchemaInduction {
  import opened Collections
  import opened JsonSchema
  import opened SchemaProjection
  import opened SchemaDictionaries

  /** A claim about the keywords of a node and its projection, at a number of unfoldings. */
  type Claim = (nat, seq<Entry>, Doc) -> bool

  ghost predicate ClaimedAll(claim: Claim, m: nat, ds: seq<Doc>, ps: seq<Doc>) {
    |ds| == |ps| && forall j | 0 <= j < |ds| :: ds[j].DDict? && claim(m, ds[j].entries, ps[j])
  }

  /** Keyword e puts `put`, and the claim holds of its subschemas. */
  ghost predicate KeyPremise(claim: Claim, m: nat, e: Entry, put: Option<Entry>) {
    SubDocs(e).Some? && exists docs :: ClaimedAll(claim, m, SubDocs(e).value, docs) && Output(e, docs) == Some(put)
  }

  ghost predicate KeysPremise(claim: Claim, m: nat, es: seq<Entry>, puts: seq<Option<Entry>>) {
    && WellFormed(DDict(es)) && !Has(es, Ref) && |puts| == |es| && m > 0
    && forall i | 0 <= i < |es| :: KeyPremise(claim, m, es[i], puts[i])
  }

  /** The claim holds of the expansion of a node with a reference. */
  ghost predicate RefPremise(root: Doc, claim: Claim, m: nat, node: Doc, refs: seq<Word>, p: Doc) {
    && WellFormed(node) && node.DDict? && Has(node.entries, Ref) && m > 0
    && Expansion(root, node.entries, refs).Some?
    && claim(m, Expansion(root, node.entries, refs).value.entries, p)
  }

  ghost predicate Carries(root: Doc, claim: Claim) {
    && (forall m: nat, node: Doc, refs: seq<Word>, p: Doc {:trigger RefPremise(root, claim, m, node, refs, p)}
          | RefPremise(root, claim, m, node, refs, p) :: claim(m, node.entries, p))
    && (forall m: nat, es: seq<Entry>, puts: seq<Option<Entry>>, notes: bool
          {:trigger KeysPremise(claim, m, es, puts), Finish(es, puts, notes)}
          | KeysPremise(claim, m, es, puts) :: claim(m + 1, es, DDict(Finish(es, puts, notes))))
  }

  lemma KeysPremisePuts(claim: Claim, m: nat, es: seq<Entry>, puts: seq<Option<Entry>>)
    requires KeysPremise(claim, m, es, puts)
    ensures UniqueKeys(es) && PutsBy(es, puts)
  {
    assert WellFormed(DDict(es));
    forall i | 0 <= i < |es| ensures PutBy(es[i], puts[i]) {
      assert KeyPremise(claim, m, es[i], puts[i]);
    }
  }

  /** A stronger claim's premises are a weaker claim's premises. */
  lemma WeakerPremise(claim: Claim, weaker: Claim, m: nat, es: seq<Entry>, puts: seq<Option<Entry>>)
    requires KeysPremise(claim, m, es, puts)
    requires forall m: nat, es: seq<Entry>, p: Doc | claim(m, es, p) :: weaker(m, es, p)
    ensures KeysPremise(weaker, m, es, puts)
  {
    forall i | 0 <= i < |es| ensures KeyPremise(weaker, m, es[i], puts[i]) {
      assert KeyPremise(claim, m, es[i], puts[i]);
      var docs :| ClaimedAll(claim, m, SubDocs(es[i]).value, docs) && Output(es[i], docs) == Some(puts[i]);
      assert ClaimedAll(weaker, m, SubDocs(es[i]).value, docs);
    }
  }

  lemma {:induction false} VisitInduction(root: Doc, claim: Claim, node: Doc, refs: seq<Word>, budget: nat, m: nat)
    requires WellFormed(root) && WellFormed(node) && Carries(root, claim)
    requires Visit(root, node, refs, budget).Done? && m > budget
    ensures node.DDict? && claim(m, node.entries, Visit(root, node, refs, budget).doc)
    decreases budget, 1, 0
  {
    if Has(node.entries, Ref) {
      RefInduction(root, claim, node, refs, budget, m);
    } else {
      VisitKeywordsStep(root, node, refs, budget);
      KeysInduction(root, claim, node, refs, budget - 1, m - 1);
    }
  }

  lemma {:induction false} RefInduction(root: Doc, claim: Claim, node: Doc, refs: seq<Word>, budget: nat, m: nat)
    requires WellFormed(root) && WellFormed(node) && Carries(root, claim)
    requires Visit(root, node, refs, budget).Done? && m > budget && Has(node.entries, Ref)
    ensures node.DDict? && claim(m, node.entries, Visit(root, node, refs, budget).doc)
    decreases budget, 0, 0
  {
    VisitRefStep(root, node, refs, budget);
    ExpansionWellFormed(root, node, refs);
    var merged := Expansion(root, node.entries, refs).value;
    VisitInduction(root, claim, merged, refs + [Get(node.entries, Ref).value.s], budget - 1, m);
    assert RefPremise(root, claim, m, node, refs, Visit(root, node, refs, budget).doc);
  }

  lemma {:induction false} KeysInduction(root: Doc, claim: Claim, node: Doc, refs: seq<Word>, budget: nat, m: nat)
    requires WellFormed(root) && WellFormed(node) && node.DDict? && !Has(node.entries, Ref) && Carries(root, claim)
    requires VisitEntries(root, node.entries, refs, budget).DoneEntries? && m > budget
    ensures var r := VisitEntries(root, node.entries, refs, budget);
            claim(m + 1, node.entries, DDict(Finish(node.entries, r.puts, r.notes)))
    decreases budget, 5, 0
  {
    var r := VisitEntries(root, node.entries, refs, budget);
    forall i | 0 <= i < |node.entries| ensures KeyPremise(claim, m, node.entries[i], r.puts[i]) {
      KeyInduction(root, claim, node, refs, budget, m, i);
    }
    assert DDict(node.entries) == node;
    assert KeysPremise(claim, m, node.entries, r.puts);
  }

  lemma {:induction false} KeyInduction(root: Doc, claim: Claim, node: Doc, refs: seq<Word>, budget: nat, m: nat,
      i: nat)
    requires WellFormed(root) && WellFormed(node) && node.DDict? && Carries(root, claim)
    requires VisitEntries(root, node.entries, refs, budget).DoneEntries? && m > budget && i < |node.entries|
    ensures KeyPremise(claim, m, node.entries[i], VisitEntries(root, node.entries, refs, budget).puts[i])
    decreases budget, 4, 0
  {
    ProjectedOutput(root, node.entries, refs, budget, i);
    SubDocsWellFormed(node, i);
    AllInduction(root, claim, SubDocs(node.entries[i]).value, refs, BudgetAt(root, node.entries, refs, budget, i), m);
  }

  lemma {:induction false} AllInduction(root: Doc, claim: Claim, docs: seq<Doc>, refs: seq<Word>, budget: nat, m: nat)
    requires WellFormed(root) && (forall j | 0 <= j < |docs| :: WellFormed(docs[j])) && Carries(root, claim)
    requires VisitAll(root, docs, refs, budget).DoneAll? && m > budget
    ensures ClaimedAll(claim, m, docs, VisitAll(root, docs, refs, budget).docs)
    decreases budget, 2, |docs|
  {
    if docs != [] {
      VisitAllStep(root, docs, refs, budget);
      VisitInduction(root, claim, docs[0], refs, budget, m);
      AllInduction(root, claim, docs[1..], refs, Visit(root, docs[0], refs, budget).budget, m);
    }
  }
}
