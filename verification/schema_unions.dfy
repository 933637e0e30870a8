/** Unions: `anyOf` always projects to branches that are told apart, and a `oneOf` told apart only by dropped
    constraints makes the projection refuse a valid value.
 */
module SchemaUnions {
  import opened Collections
  import opened JsonSchema
  import opened SchemaProjection
  import opened SchemaDictionaries
  import opened SchemaInduction
  import opened SchemaDeterminacy
  import opened SchemaSettings
  import opened SchemaPreservation

  /** What the keywords of a node lead to is in the set. */
  ghost predicate Leads(root: Doc, nodes: set<Doc>, es: seq<Entry>) {
    forall e | e in es ::
      && (SubDocs(e).Some? ==> forall d | d in SubDocs(e).value :: d in nodes)
      && (e.key == Ref && Target(root, e.value).Some? ==> Target(root, e.value).value in nodes)
  }

  ghost predicate FreeOfOneOf(root: Doc, nodes: set<Doc>, es: seq<Entry>) {
    Leads(root, nodes, es) && !Has(es, OneOf)
  }

  ghost predicate NoOneOf(root: Doc, nodes: set<Doc>) {
    forall d | d in nodes && d.DDict? :: FreeOfOneOf(root, nodes, d.entries)
  }

  ghost function SeparableClaim(root: Doc, nodes: set<Doc>): Claim {
    (m: nat, es: seq<Entry>, p: Doc) => FreeOfOneOf(root, nodes, es) ==> Separable(p)
  }

  lemma DocsSeparable(root: Doc, nodes: set<Doc>, m: nat, es: seq<Entry>, e: Entry, docs: seq<Doc>, j: nat)
    requires NoOneOf(root, nodes) && FreeOfOneOf(root, nodes, es) && e in es && SubDocs(e).Some?
    requires ClaimedAll(SeparableClaim(root, nodes), m, SubDocs(e).value, docs) && j < |docs|
    ensures Separable(docs[j])
  {
    var d := SubDocs(e).value[j];
    assert d in nodes;
    assert SeparableClaim(root, nodes)(m, d.entries, docs[j]);
  }

  lemma PutSeparable(root: Doc, nodes: set<Doc>, m: nat, es: seq<Entry>, e: Entry, put: Entry)
    requires NoOneOf(root, nodes) && FreeOfOneOf(root, nodes, es) && e in es
    requires KeyPremise(SeparableClaim(root, nodes), m, e, Some(put))
    ensures SeparableEntry(put)
  {
    var docs :| ClaimedAll(SeparableClaim(root, nodes), m, SubDocs(e).value, docs)
        && Output(e, docs) == Some(Some(put));
    forall j | 0 <= j < |docs| ensures Separable(docs[j]) {
      DocsSeparable(root, nodes, m, es, e, docs, j);
    }
    assert !e.key.OneOf?;
    OutputSeparable(e, docs, put);
  }

  lemma OutputSeparable(e: Entry, docs: seq<Doc>, put: Entry)
    requires SubDocs(e).Some? && |docs| == |SubDocs(e).value| && !e.key.OneOf?
    requires Output(e, docs) == Some(Some(put)) && forall j | 0 <= j < |docs| :: Separable(docs[j])
    ensures SeparableEntry(put)
  {
    if e.key == AnyOf {
      AbsorbedSeparable(e.value.items, docs);
    }
  }

  lemma AbsorbedSeparable(items: seq<Doc>, docs: seq<Doc>)
    requires DisjointBranches(Absorb(items, docs)) && forall j | 0 <= j < |docs| :: Separable(docs[j])
    ensures var bs := Absorb(items, docs); PairwiseApart(bs) && forall j | 0 <= j < |bs| :: Separable(bs[j])
  {
    var bs := Absorb(items, docs);
    DisjointApart(bs);
    forall j | 0 <= j < |bs| ensures Separable(bs[j]) {
      AbsorbFrom(items, docs, bs[j]);
    }
  }

  lemma FinishedSeparable(root: Doc, nodes: set<Doc>, m: nat, es: seq<Entry>, puts: seq<Option<Entry>>, notes: bool)
    requires NoOneOf(root, nodes) && FreeOfOneOf(root, nodes, es)
    requires KeysPremise(SeparableClaim(root, nodes), m, es, puts)
    ensures Separable(DDict(Finish(es, puts, notes)))
  {
    var rs := Finish(es, puts, notes);
    forall k | 0 <= k < |rs| ensures SeparableEntry(rs[k]) {
      FinishFrom(es, puts, notes, rs[k]);
      if Some(rs[k]) in puts {
        var i :| 0 <= i < |puts| && puts[i] == Some(rs[k]);
        assert KeyPremise(SeparableClaim(root, nodes), m, es[i], puts[i]);
        PutSeparable(root, nodes, m, es, es[i], rs[k]);
      }
    }
  }

  lemma ExpansionFree(root: Doc, nodes: set<Doc>, entries: seq<Entry>, refs: seq<Word>)
    requires NoOneOf(root, nodes) && FreeOfOneOf(root, nodes, entries)
    requires Has(entries, Ref) && Expansion(root, entries, refs).Some?
    ensures FreeOfOneOf(root, nodes, Expansion(root, entries, refs).value.entries)
  {
    var target := Target(root, Get(entries, Ref).value).value;
    var merged := Expansion(root, entries, refs).value.entries;
    assert entries[IndexOf(entries, Ref)] in entries;
    assert target in nodes;
    forall e | e in merged
      ensures e in entries || e in target.entries
    {
      ExpansionFrom(root, entries, refs, e);
    }
    forall i | 0 <= i < |merged| ensures merged[i].key != OneOf {
      assert merged[i] in merged;
      if merged[i] in entries { InGivesHas(entries, merged[i]); } else { InGivesHas(target.entries, merged[i]); }
    }
  }

  lemma SeparableCarries(root: Doc, nodes: set<Doc>)
    requires NoOneOf(root, nodes)
    ensures Carries(root, SeparableClaim(root, nodes))
  {
    var claim := SeparableClaim(root, nodes);
    forall m: nat, node: Doc, refs: seq<Word>, p: Doc | RefPremise(root, claim, m, node, refs, p)
      ensures claim(m, node.entries, p)
    {
      if FreeOfOneOf(root, nodes, node.entries) {
        ExpansionFree(root, nodes, node.entries, refs);
      }
    }
    forall m: nat, es: seq<Entry>, puts: seq<Option<Entry>>, notes: bool | KeysPremise(claim, m, es, puts)
      ensures claim(m + 1, es, DDict(Finish(es, puts, notes)))
    {
      if FreeOfOneOf(root, nodes, es) {
        FinishedSeparable(root, nodes, m, es, puts, notes);
      }
    }
  }

  /** A schema whose unions are all `anyOf` is projected to one that accepts every value it accepts. */
  lemma AnyOfNeedsNoProviso(o: Oracle, schema: Doc, nodes: set<Doc>, budget: nat, v: Value, n: nat)
    requires WellFormed(schema) && ProjectWithin(schema, budget).Some? && schema in nodes && NoOneOf(schema, nodes)
    requires Accepts(o, schema, schema, v, n)
    ensures Accepts(o, ProjectWithin(schema, budget).value, ProjectWithin(schema, budget).value, v, budget + 1)
  {
    SeparableCarries(schema, nodes);
    VisitInduction(schema, SeparableClaim(schema, nodes), schema, [], budget, budget + 1);
    assert SeparableClaim(schema, nodes)(budget + 1, schema.entries, ProjectWithin(schema, budget).value);
    ProjectionAccepts(o, schema, budget, v, n);
  }

  // ---------------------------------------------------------------------------------------------
  // The proviso is needed

  const NOTE := Entry(Description, DStr(Name("constraints checked on call")))
  const TEXT := Entry(Type, DStr(StringType))

  /** Text that matches a pattern. */
  function Matching(pattern: Doc): Doc {
    DDict([TEXT, Entry(Limit("pattern"), pattern)])
  }

  /** Exactly one of two patterns. */
  function EitherPattern(a: Doc, b: Doc): Doc {
    DDict([Entry(OneOf, DList([Matching(a), Matching(b)]))])
  }

  function EitherText(): Doc {
    DDict([Entry(OneOf, DList([DDict([TEXT, NOTE]), DDict([TEXT, NOTE])]))])
  }

  lemma EntriesCons(root: Doc, e: Entry, rest: seq<Entry>, budget: nat)
    requires VisitEntry(root, e, [], budget).DoneEntry?
    requires VisitEntries(root, rest, [], VisitEntry(root, e, [], budget).budget).DoneEntries?
    ensures var head := VisitEntry(root, e, [], budget);
            var tail := VisitEntries(root, rest, [], head.budget);
            VisitEntries(root, [e] + rest, [], budget)
            == DoneEntries([head.put] + tail.puts, head.note || tail.notes, tail.budget)
  {
    assert ([e] + rest)[1..] == rest;
  }

  lemma AllCons(root: Doc, d: Doc, rest: seq<Doc>, budget: nat)
    requires Visit(root, d, [], budget).Done? && VisitAll(root, rest, [], Visit(root, d, [], budget).budget).DoneAll?
    ensures var head := Visit(root, d, [], budget);
            var tail := VisitAll(root, rest, [], head.budget);
            VisitAll(root, [d] + rest, [], budget) == DoneAll([head.doc] + tail.docs, tail.budget)
  {
    assert ([d] + rest)[1..] == rest;
  }

  lemma LeafEntry(root: Doc, e: Entry, budget: nat)
    requires SubDocs(e) == Some([])
    ensures VisitEntry(root, e, [], budget)
         == (match Output(e, []) case None => FailedEntry case Some(put) => DoneEntry(put, Noted(e), budget))
  {
    assert VisitAll(root, [], [], budget) == DoneAll([], budget);
  }

  lemma MatchingVisited(root: Doc, pattern: Doc, budget: nat)
    ensures VisitEntries(root, Matching(pattern).entries, [], budget) == DoneEntries([Some(TEXT), None], true, budget)
  {
    var limit := Entry(Limit("pattern"), pattern);
    LeafEntry(root, TEXT, budget);
    LeafEntry(root, limit, budget);
    assert VisitEntries(root, [], [], budget) == DoneEntries([], false, budget);
    EntriesCons(root, limit, [], budget);
    EntriesCons(root, TEXT, [limit] + [], budget);
    assert Matching(pattern).entries == [TEXT] + ([limit] + []);
    assert [Some(TEXT)] + ([None] + []) == [Some(TEXT), None];
  }

  /** The visit of a node without references, from the visits of its entries. */
  lemma VisitFrom(root: Doc, es: seq<Entry>, puts: seq<Option<Entry>>, notes: bool, budget: nat, left: nat)
    requires budget > 0 && !Has(es, Ref)
    requires VisitEntries(root, es, [], budget - 1) == DoneEntries(puts, notes, left)
    ensures Visit(root, DDict(es), [], budget) == Done(DDict(Finish(es, puts, notes)), left)
  {
  }

  lemma MatchingProjects(root: Doc, pattern: Doc, budget: nat)
    requires budget > 0
    ensures Visit(root, Matching(pattern), [], budget) == Done(DDict([TEXT, NOTE]), budget - 1)
  {
    var es := Matching(pattern).entries;
    assert !Has(es, Ref) && !Has(es, PatternProperties);
    MatchingVisited(root, pattern, budget - 1);
    var visited := VisitEntries(root, es, [], budget - 1);
    VisitFrom(root, es, visited.puts, visited.notes, budget, visited.budget);
    FinishText(es);
  }

  lemma FinishText(es: seq<Entry>)
    requires !Has(es, PatternProperties)
    ensures Finish(es, [Some(TEXT), None], true) == [TEXT, NOTE]
  {
    var puts: seq<Option<Entry>> := [Some(TEXT), None];
    assert puts[..1] == [Some(TEXT)] && puts[..1][..0] == [];
    assert Assemble([]) == [];
    assert Assemble(puts[..1]) == [TEXT];
    assert Assemble(puts) == [TEXT];
  }

  lemma BranchesProject(root: Doc, a: Doc, b: Doc, budget: nat)
    requires budget > 1
    ensures VisitAll(root, [Matching(a), Matching(b)], [], budget)
         == DoneAll([DDict([TEXT, NOTE]), DDict([TEXT, NOTE])], budget - 2)
  {
    MatchingProjects(root, a, budget);
    MatchingProjects(root, b, budget - 1);
    assert VisitAll(root, [], [], budget - 2) == DoneAll([], budget - 2);
    AllCons(root, Matching(b), [], budget - 1);
    AllCons(root, Matching(a), [Matching(b)] + [], budget);
    assert [Matching(a)] + ([Matching(b)] + []) == [Matching(a), Matching(b)];
  }

  lemma EitherProjects(a: Doc, b: Doc, budget: nat)
    requires budget >= 3
    ensures ProjectWithin(EitherPattern(a, b), budget) == Some(EitherText())
  {
    var root := EitherPattern(a, b);
    var e := Entry(OneOf, DList([Matching(a), Matching(b)]));
    var put := Entry(OneOf, DList([DDict([TEXT, NOTE]), DDict([TEXT, NOTE])]));
    BranchesProject(root, a, b, budget - 1);
    assert VisitEntry(root, e, [], budget - 1) == DoneEntry(Some(put), false, budget - 3);
    assert VisitEntries(root, [], [], budget - 3) == DoneEntries([], false, budget - 3);
    EntriesCons(root, e, [], budget - 1);
    var puts := [Some(put)];
    assert puts[..0] == [] && Assemble([]) == [] && Assemble(puts) == [put];
    assert root.entries == [e] + [] && !Has(root.entries, Ref) && !Has(root.entries, PatternProperties);
    assert Finish(root.entries, puts, false) == [put];
  }

  /** A text with exactly one of two patterns is valid, and refused by the projection. */
  lemma PatternsOnlyAreRefused(o: Oracle, a: Doc, b: Doc, budget: nat, text: Word)
    requires budget >= 3
    requires o.limit("pattern", a, Str(text)) && !o.limit("pattern", b, Str(text))
    ensures var schema := EitherPattern(a, b);
            && ProjectWithin(schema, budget).Some?
            && Accepts(o, schema, schema, Str(text), 2)
            && Rejects(o, ProjectWithin(schema, budget).value, ProjectWithin(schema, budget).value, Str(text), 2)
  {
    EitherProjects(a, b, budget);
    var schema, p := EitherPattern(a, b), EitherText();
    var w, x := Level(o, schema, 1), Level(o, p, 1);
    MatchingVerdict(o, schema, a, text);
    MatchingVerdict(o, schema, b, text);
    TextVerdict(o, p, text);
    assert w.accepts(Matching(a), Str(text)) && w.rejects(Matching(b), Str(text));
    assert OneAccepts(w, [Matching(a), Matching(b)], Str(text)) by {
      assert [Matching(a), Matching(b)][0] == Matching(a);
    }
    assert TwoAccept(x, p.entries[0].value.items, Str(text)) by {
      assert x.accepts(p.entries[0].value.items[0], Str(text)) && x.accepts(p.entries[0].value.items[1], Str(text));
    }
    assert KeyRejects(o, p, x, p.entries, p.entries[0], Str(text));
  }

  lemma MatchingVerdict(o: Oracle, root: Doc, pattern: Doc, text: Word)
    ensures o.limit("pattern", pattern, Str(text)) ==> Accepts(o, root, Matching(pattern), Str(text), 1)
    ensures !o.limit("pattern", pattern, Str(text)) ==> Rejects(o, root, Matching(pattern), Str(text), 1)
  {
    MatchingUnfolds(o, root, Level(o, root, 0), pattern, text);
    assert Level(o, root, 1) == Unfold(o, root, Level(o, root, 0));
  }

  lemma MatchingUnfolds(o: Oracle, root: Doc, w: Verdicts, pattern: Doc, text: Word)
    ensures o.limit("pattern", pattern, Str(text)) ==> DocAccepts(o, root, w, Matching(pattern), Str(text))
    ensures !o.limit("pattern", pattern, Str(text)) ==> DocRejects(o, root, w, Matching(pattern), Str(text))
  {
    var d := Matching(pattern);
    assert d.entries[0] == TEXT && d.entries[1] == Entry(Limit("pattern"), pattern);
    assert KeyAccepts(o, root, w, d.entries, d.entries[0], Str(text));
    assert KeyAccepts(o, root, w, d.entries, d.entries[1], Str(text)) == o.limit("pattern", pattern, Str(text));
    assert KeyRejects(o, root, w, d.entries, d.entries[1], Str(text)) == !o.limit("pattern", pattern, Str(text));
  }

  lemma TextVerdict(o: Oracle, root: Doc, text: Word)
    ensures Accepts(o, root, DDict([TEXT, NOTE]), Str(text), 1)
  {
    assert DocAccepts(o, root, Level(o, root, 0), DDict([TEXT, NOTE]), Str(text));
  }
}
