/** On the keywords a client understands fully, the projection accepts exactly what the original accepts.
 */
module SchemaExactness {
  import opened Collections
  import opened JsonSchema
  import opened SchemaProjection
  import opened SchemaDictionaries
  import opened SchemaInduction
  import opened SchemaDeterminacy
  import opened SchemaSettings
  import opened SchemaPreservation
  import opened SchemaUnions

  predicate CoreKey(key: Word) {
    || Copied(key) || key.Properties? || key.Items? || key.AdditionalProperties? || key.AnyOf? || key.OneOf?
    || key.Defs? || key.Discriminator? || key.Ref?
  }

  /** Core keywords only, at most one union, and beside a reference nothing but annotations. */
  ghost predicate CoreNode(root: Doc, nodes: set<Doc>, es: seq<Entry>) {
    && Leads(root, nodes, es)
    && (forall e | e in es :: CoreKey(e.key))
    && !(Has(es, AnyOf) && Has(es, OneOf))
    && (Has(es, Ref) ==> forall e | e in es :: e.key == Ref || Annotation(e.key))
  }

  /** Every node that keywords and references lead to is a core node. */
  ghost predicate Core(root: Doc, nodes: set<Doc>) {
    forall d | d in nodes && d.DDict? :: CoreNode(root, nodes, d.entries)
  }

  ghost predicate NodeAccepts(s: Setting, es: seq<Entry>, v: Value) {
    forall e | e in es :: KeyAccepts(s.o, s.root, s.w, es, e, v)
  }

  ghost predicate NodeRejects(s: Setting, es: seq<Entry>, v: Value) {
    exists e | e in es :: KeyRejects(s.o, s.root, s.w, es, e, v)
  }

  /** The projection accepts what the node accepts and rejects what it rejects. */
  ghost predicate Mirrors(s: Setting, m: nat, es: seq<Entry>, p: Doc) {
    && (forall v | NodeAccepts(s, es, v) :: s.x(m).accepts(p, v))
    && (forall v | NodeRejects(s, es, v) :: s.x(m).rejects(p, v))
  }

  ghost function Exact(s: Setting, nodes: set<Doc>): Claim {
    (m: nat, es: seq<Entry>, p: Doc) => s.known.doc(m, p) && (CoreNode(s.root, nodes, es) ==> Mirrors(s, m, es, p))
  }

  lemma DocVerdict(s: Setting, d: Doc, v: Value)
    requires OriginalOpens(s) && d.DDict?
    ensures s.w.accepts(d, v) ==> NodeAccepts(s, d.entries, v)
    ensures s.w.rejects(d, v) ==> NodeRejects(s, d.entries, v)
  {
    if s.w.accepts(d, v) {
      assert DocAccepts(s.o, s.root, s.w, d, v);
    }
    if s.w.rejects(d, v) {
      assert DocRejects(s.o, s.root, s.w, d, v);
      var i :| 0 <= i < |d.entries| && KeyRejects(s.o, s.root, s.w, d.entries, d.entries[i], v);
      assert d.entries[i] in d.entries;
    }
  }

  // ---------------------------------------------------------------------------------------------
  // References

  lemma MergedNode(root: Doc, nodes: set<Doc>, entries: seq<Entry>, refs: seq<Word>)
    requires Core(root, nodes) && CoreNode(root, nodes, entries) && UniqueKeys(entries) && Has(entries, Ref)
    requires Expansion(root, entries, refs).Some?
    ensures var target := Target(root, Get(entries, Ref).value).value;
            var merged := Expansion(root, entries, refs).value.entries;
            && target.DDict? && CoreNode(root, nodes, target.entries) && Declares(target.entries, merged)
            && forall e | e in merged :: e in target.entries || (e in entries && Annotation(e.key))
  {
    var target := Target(root, Get(entries, Ref).value).value;
    var merged := Expansion(root, entries, refs).value.entries;
    assert entries[IndexOf(entries, Ref)] in entries;
    assert target in nodes;
    forall e | e in merged ensures e in target.entries || (e in entries && Annotation(e.key)) {
      ExpansionFrom(root, entries, refs, e);
    }
  }

  lemma CoreHasNoIf(root: Doc, nodes: set<Doc>, es: seq<Entry>)
    requires CoreNode(root, nodes, es)
    ensures forall e | e in es :: !e.key.If?
  {
    forall e | e in es ensures !e.key.If? {
      assert CoreKey(e.key);
    }
  }

  lemma MergedCore(root: Doc, nodes: set<Doc>, entries: seq<Entry>, refs: seq<Word>)
    requires Core(root, nodes) && CoreNode(root, nodes, entries) && UniqueKeys(entries) && Has(entries, Ref)
    requires Expansion(root, entries, refs).Some?
    ensures CoreNode(root, nodes, Expansion(root, entries, refs).value.entries)
  {
    var target := Target(root, Get(entries, Ref).value).value;
    var merged := Expansion(root, entries, refs).value.entries;
    MergedNode(root, nodes, entries, refs);
    forall key | Has(merged, key) && !Annotation(key) ensures Has(target.entries, key) {
      var i :| 0 <= i < |merged| && merged[i].key == key;
      assert merged[i] in merged;
    }
  }

  lemma KeyNarrows(o: Oracle, root: Doc, w: Verdicts, part: seq<Entry>, whole: seq<Entry>, e: Entry, v: Value)
    requires Declares(part, whole) && !e.key.If? && KeyRejects(o, root, w, part, e, v)
    ensures KeyRejects(o, root, w, whole, e, v)
  {
    if e.key.AdditionalProperties? {
      var k :| Additional(o, part, v, k) && w.rejects(e.value, v.fields[k]);
      DeclaresNames(o, part, whole, k);
      assert Additional(o, whole, v, k);
    }
  }

  lemma RefAccepts(s: Setting, entries: seq<Entry>, refs: seq<Word>, v: Value)
    requires Has(entries, Ref) && Expansion(s.root, entries, refs).Some? && NodeAccepts(s, entries, v)
    ensures s.w.accepts(Target(s.root, Get(entries, Ref).value).value, v)
  {
    var e := entries[IndexOf(entries, Ref)];
    assert e in entries;
    assert KeyAccepts(s.o, s.root, s.w, entries, e, v);
  }

  lemma MergedAccepts(s: Setting, nodes: set<Doc>, entries: seq<Entry>, refs: seq<Word>, v: Value)
    requires OriginalOpens(s) && Core(s.root, nodes) && CoreNode(s.root, nodes, entries)
    requires UniqueKeys(entries) && Has(entries, Ref) && Expansion(s.root, entries, refs).Some?
    requires NodeAccepts(s, entries, v)
    ensures NodeAccepts(s, Expansion(s.root, entries, refs).value.entries, v)
  {
    var target := Target(s.root, Get(entries, Ref).value).value;
    var merged := Expansion(s.root, entries, refs).value.entries;
    MergedNode(s.root, nodes, entries, refs);
    ExpansionDeclares(s.root, entries, refs);
    RefAccepts(s, entries, refs, v);
    DocVerdict(s, target, v);
    CoreHasNoIf(s.root, nodes, target.entries);
    WholeAccepts(s, target.entries, merged, v);
  }

  lemma WholeAccepts(s: Setting, part: seq<Entry>, whole: seq<Entry>, v: Value)
    requires NodeAccepts(s, part, v) && Declares(whole, part) && forall e | e in part :: !e.key.If?
    requires forall e | e in whole :: e in part || Annotation(e.key)
    ensures NodeAccepts(s, whole, v)
  {
    forall e | e in whole ensures KeyAccepts(s.o, s.root, s.w, whole, e, v) {
      if e in part {
        KeyWidens(s.o, s.root, s.w, part, whole, e, v);
      }
    }
  }

  lemma RefRejects(s: Setting, nodes: set<Doc>, entries: seq<Entry>, refs: seq<Word>, v: Value)
    requires OriginalOpens(s) && CoreNode(s.root, nodes, entries)
    requires UniqueKeys(entries) && Has(entries, Ref) && Expansion(s.root, entries, refs).Some?
    requires NodeRejects(s, entries, v)
    ensures s.w.rejects(Target(s.root, Get(entries, Ref).value).value, v)
  {
    var e :| e in entries && KeyRejects(s.o, s.root, s.w, entries, e, v);
    AnnotationRejectsNothing(s, entries, e, v);
    assert e.key == Ref;
    UniqueGet(entries, e);
  }

  lemma AnnotationRejectsNothing(s: Setting, es: seq<Entry>, e: Entry, v: Value)
    requires KeyRejects(s.o, s.root, s.w, es, e, v)
    ensures !Silent(e.key)
  {
  }

  lemma RejectInTarget(s: Setting, nodes: set<Doc>, entries: seq<Entry>, refs: seq<Word>, x: Entry, v: Value)
    requires Core(s.root, nodes) && CoreNode(s.root, nodes, entries)
    requires UniqueKeys(entries) && Has(entries, Ref) && Expansion(s.root, entries, refs).Some?
    requires var target := Target(s.root, Get(entries, Ref).value).value;
             target.DDict? && x in target.entries && KeyRejects(s.o, s.root, s.w, target.entries, x, v)
    ensures NodeRejects(s, Expansion(s.root, entries, refs).value.entries, v)
  {
    var target := Target(s.root, Get(entries, Ref).value).value;
    MergedNode(s.root, nodes, entries, refs);
    assert CoreKey(x.key);
    ExpansionKeeps(s.root, entries, refs, x);
    KeyNarrows(s.o, s.root, s.w, target.entries, Expansion(s.root, entries, refs).value.entries, x, v);
  }

  lemma MergedRejects(s: Setting, nodes: set<Doc>, entries: seq<Entry>, refs: seq<Word>, v: Value)
    requires OriginalOpens(s) && Core(s.root, nodes) && CoreNode(s.root, nodes, entries)
    requires UniqueKeys(entries) && Has(entries, Ref) && Expansion(s.root, entries, refs).Some?
    requires NodeRejects(s, entries, v)
    ensures NodeRejects(s, Expansion(s.root, entries, refs).value.entries, v)
  {
    var target := Target(s.root, Get(entries, Ref).value).value;
    MergedNode(s.root, nodes, entries, refs);
    RefRejects(s, nodes, entries, refs, v);
    DocVerdict(s, target, v);
    var x :| x in target.entries && KeyRejects(s.o, s.root, s.w, target.entries, x, v);
    RejectInTarget(s, nodes, entries, refs, x, v);
  }

  // ---------------------------------------------------------------------------------------------
  // Keywords

  ghost predicate SubsExact(s: Setting, m: nat, ds: seq<Doc>, docs: seq<Doc>) {
    && |ds| == |docs|
    && AllDecided(s.x(m), docs)
    && forall j | 0 <= j < |ds| :: SubExact(s, m, ds[j], docs[j])
  }

  ghost predicate SubExact(s: Setting, m: nat, d: Doc, p: Doc) {
    d.DDict? && Mirrors(s, m, d.entries, p)
  }

  lemma ClaimedExact(s: Setting, nodes: set<Doc>, m: nat, ds: seq<Doc>, docs: seq<Doc>)
    requires Fits(s) && Core(s.root, nodes) && ClaimedAll(Exact(s, nodes), m, ds, docs)
    requires forall d | d in ds :: d in nodes
    ensures SubsExact(s, m, ds, docs)
  {
    forall j | 0 <= j < |ds| ensures SubExact(s, m, ds[j], docs[j]) && Decided(s.x(m), docs[j]) {
      assert ds[j] in ds;
      assert Exact(s, nodes)(m, ds[j].entries, docs[j]);
    }
  }

  lemma SubVerdict(s: Setting, m: nat, ds: seq<Doc>, docs: seq<Doc>, j: nat, v: Value)
    requires OriginalOpens(s) && SubsExact(s, m, ds, docs) && j < |ds|
    ensures s.w.accepts(ds[j], v) ==> s.x(m).accepts(docs[j], v)
    ensures s.w.rejects(ds[j], v) ==> s.x(m).rejects(docs[j], v)
  {
    assert SubExact(s, m, ds[j], docs[j]);
    DocVerdict(s, ds[j], v);
  }

  lemma ConstantVerdict(s: Setting, m: nat, d: Doc, v: Value)
    requires OriginalOpens(s) && ProjectionClimbs(s) && !d.DDict? && m > 0
    ensures s.w.accepts(d, v) ==> s.x(m).accepts(d, v)
    ensures s.w.rejects(d, v) ==> s.x(m).rejects(d, v)
  {
    if s.w.accepts(d, v) {
      ConstantAdmits(s, m, d, v);
    }
    if s.w.rejects(d, v) {
      assert DocRejects(s.o, s.root, s.w, d, v);
      assert DocRejects(s.o, s.proot, s.x(m - 1), d, v);
      assert s.x(m - 1 + 1).rejects(d, v);
    }
  }

  /** Verdicts carry over from keyword e of the original to entry r of the projection. */
  ghost predicate Carried(s: Setting, m: nat, es: seq<Entry>, rs: seq<Entry>, e: Entry, r: Entry, v: Value) {
    && (KeyAccepts(s.o, s.root, s.w, es, e, v) ==> KeyAccepts(s.o, s.proot, s.x(m), rs, r, v))
    && (KeyRejects(s.o, s.root, s.w, es, e, v) ==> KeyRejects(s.o, s.proot, s.x(m), rs, r, v))
  }

  lemma PropertiesCarried(s: Setting, m: nat, es: seq<Entry>, rs: seq<Entry>, e: Entry, docs: seq<Doc>, v: Value)
    requires OriginalOpens(s) && e.key == Properties && e.value.DDict? && SubsExact(s, m, Values(e.value.entries), docs)
    ensures Carried(s, m, es, rs, e, Entry(Properties, DDict(Rekey(e.value.entries, docs))), v)
  {
    var ds, ps := e.value.entries, Rekey(e.value.entries, docs);
    forall i | 0 <= i < |ps| && v.Obj? && ps[i].key in v.fields
      ensures s.w.accepts(ds[i].value, v.fields[ps[i].key]) ==> s.x(m).accepts(ps[i].value, v.fields[ps[i].key])
      ensures s.w.rejects(ds[i].value, v.fields[ps[i].key]) ==> s.x(m).rejects(ps[i].value, v.fields[ps[i].key])
    {
      SubVerdict(s, m, Values(ds), docs, i, v.fields[ps[i].key]);
    }
    if FieldsReject(s.w, ds, v) {
      var i :| 0 <= i < |ds| && ds[i].key in v.fields && s.w.rejects(ds[i].value, v.fields[ds[i].key]);
      assert ps[i].key == ds[i].key;
      assert s.x(m).rejects(ps[i].value, v.fields[ps[i].key]);
    }
  }

  lemma ElementVerdict(s: Setting, m: nat, e: Entry, docs: seq<Doc>, d: Doc, v: Value)
    requires OriginalOpens(s) && ProjectionClimbs(s) && m > 0
    requires SubsExact(s, m, if e.value.DDict? then [e.value] else [], docs)
    requires d == (if e.value.DDict? then docs[0] else e.value)
    ensures s.w.accepts(e.value, v) ==> s.x(m).accepts(d, v)
    ensures s.w.rejects(e.value, v) ==> s.x(m).rejects(d, v)
  {
    if e.value.DDict? {
      SubVerdict(s, m, [e.value], docs, 0, v);
    } else {
      ConstantVerdict(s, m, e.value, v);
    }
  }

  lemma ItemsCarried(s: Setting, m: nat, es: seq<Entry>, rs: seq<Entry>, e: Entry, docs: seq<Doc>, d: Doc, v: Value)
    requires OriginalOpens(s) && ProjectionClimbs(s) && m > 0 && e.key == Items
    requires SubsExact(s, m, if e.value.DDict? then [e.value] else [], docs)
    requires d == (if e.value.DDict? then docs[0] else e.value)
    ensures Carried(s, m, es, rs, e, Entry(Items, d), v)
  {
    if v.Arr? {
      forall i | 0 <= i < |v.elements|
        ensures s.w.accepts(e.value, v.elements[i]) ==> s.x(m).accepts(d, v.elements[i])
        ensures s.w.rejects(e.value, v.elements[i]) ==> s.x(m).rejects(d, v.elements[i])
      {
        ElementVerdict(s, m, e, docs, d, v.elements[i]);
      }
    }
  }

  lemma OthersCarried(s: Setting, m: nat, es: seq<Entry>, rs: seq<Entry>, e: Entry, docs: seq<Doc>, d: Doc, v: Value)
    requires OriginalOpens(s) && ProjectionClimbs(s) && m > 0 && e.key == AdditionalProperties
    requires SubsExact(s, m, if e.value.DDict? then [e.value] else [], docs)
    requires d == (if e.value.DDict? then docs[0] else e.value)
    requires PropNames(rs) == PropNames(es) && !Has(es, PatternProperties) && !Has(rs, PatternProperties)
    ensures Carried(s, m, es, rs, e, Entry(AdditionalProperties, d), v)
  {
    if v.Obj? {
      forall k | k in v.fields
        ensures Additional(s.o, rs, v, k) == Additional(s.o, es, v, k)
        ensures s.w.accepts(e.value, v.fields[k]) ==> s.x(m).accepts(d, v.fields[k])
        ensures s.w.rejects(e.value, v.fields[k]) ==> s.x(m).rejects(d, v.fields[k])
      {
        assert !MatchesPattern(s.o, es, k) && !MatchesPattern(s.o, rs, k);
        ElementVerdict(s, m, e, docs, d, v.fields[k]);
      }
      if OthersReject(s.o, s.w, es, e.value, v) {
        var k :| Additional(s.o, es, v, k) && s.w.rejects(e.value, v.fields[k]);
        assert Additional(s.o, rs, v, k);
      }
    }
  }

  lemma BranchVerdicts(s: Setting, m: nat, ds: seq<Doc>, docs: seq<Doc>, v: Value)
    requires OriginalOpens(s) && SubsExact(s, m, ds, docs)
    ensures forall j | 0 <= j < |ds| && s.w.accepts(ds[j], v) :: s.x(m).accepts(docs[j], v)
    ensures forall j | 0 <= j < |ds| && s.w.rejects(ds[j], v) :: s.x(m).rejects(docs[j], v)
  {
    forall j | 0 <= j < |ds|
      ensures s.w.accepts(ds[j], v) ==> s.x(m).accepts(docs[j], v)
      ensures s.w.rejects(ds[j], v) ==> s.x(m).rejects(docs[j], v)
    {
      SubVerdict(s, m, ds, docs, j, v);
    }
  }

  lemma OneOfCarried(s: Setting, m: nat, es: seq<Entry>, rs: seq<Entry>, e: Entry, docs: seq<Doc>, v: Value)
    requires OriginalOpens(s) && e.key == OneOf && e.value.DList? && SubsExact(s, m, e.value.items, docs)
    ensures Carried(s, m, es, rs, e, Entry(OneOf, DList(docs)), v)
  {
    OneOfVerdicts(s, m, e.value.items, docs, v);
    UnionKeys(s.o, s.root, s.w, es, e, v);
    UnionKeys(s.o, s.proot, s.x(m), rs, Entry(OneOf, DList(docs)), v);
  }

  lemma OneOfVerdicts(s: Setting, m: nat, ds: seq<Doc>, docs: seq<Doc>, v: Value)
    requires OriginalOpens(s) && SubsExact(s, m, ds, docs)
    ensures OneAccepts(s.w, ds, v) ==> OneAccepts(s.x(m), docs, v)
    ensures AllReject(s.w, ds, v) ==> AllReject(s.x(m), docs, v)
    ensures TwoAccept(s.w, ds, v) ==> TwoAccept(s.x(m), docs, v)
  {
    BranchVerdicts(s, m, ds, docs, v);
    BranchesCarried(s.w, s.x(m), ds, docs, v);
  }

  lemma BranchesCarried(w: Verdicts, x: Verdicts, ds: seq<Doc>, docs: seq<Doc>, v: Value)
    requires |ds| == |docs|
    requires forall j | 0 <= j < |ds| && w.accepts(ds[j], v) :: x.accepts(docs[j], v)
    requires forall j | 0 <= j < |ds| && w.rejects(ds[j], v) :: x.rejects(docs[j], v)
    ensures OneAccepts(w, ds, v) ==> OneAccepts(x, docs, v)
    ensures AllReject(w, ds, v) ==> AllReject(x, docs, v)
    ensures TwoAccept(w, ds, v) ==> TwoAccept(x, docs, v)
  {
    if OneAccepts(w, ds, v) {
      var i :| 0 <= i < |ds| && w.accepts(ds[i], v) && forall j | 0 <= j < |ds| && j != i :: w.rejects(ds[j], v);
      assert x.accepts(docs[i], v);
    }
    if TwoAccept(w, ds, v) {
      var i, j :| 0 <= i < j < |ds| && w.accepts(ds[i], v) && w.accepts(ds[j], v);
      assert x.accepts(docs[i], v) && x.accepts(docs[j], v);
    }
  }

  lemma PlainNumberAccepts(s: Setting, d: Doc, v: Value)
    requires PlainNumber(d) && UniqueKeys(d.entries) && v.Num?
    ensures NodeAccepts(s, d.entries, v)
  {
    PlainNumberHolds(s, d, v);
    forall e | e in d.entries ensures !e.key.If? {
      var i :| 0 <= i < |d.entries| && d.entries[i] == e;
    }
  }

  lemma IntegerRefuses(s: Setting, m: nat, d: Doc, v: Value)
    requires ProjectionClimbs(s) && IsInteger(d) && s.x(m).accepts(d, v)
    ensures HasType(IntegerType, v)
  {
    EntryAccepted(s, m, d, v, Type);
  }

  lemma PlainBranchStays(s: Setting, m: nat, d: Doc, p: Doc, v: Value)
    requires ProjectionClimbs(s) && SubExact(s, m, d, p) && WellFormed(d) && PlainNumber(d)
    ensures !IsInteger(p)
    ensures v.Num? ==> s.x(m).accepts(p, v)
  {
    PlainNumberAccepts(s, d, Num(0.5));
    if IsInteger(p) {
      IntegerRefuses(s, m, p, Num(0.5));
    }
    if v.Num? {
      PlainNumberAccepts(s, d, v);
    }
  }

  lemma AbsorbedAccepts(s: Setting, m: nat, ds: seq<Doc>, docs: seq<Doc>, i: nat, v: Value) returns (k: nat)
    requires ProjectionClimbs(s) && SubsExact(s, m, ds, docs) && i < |ds| && s.x(m).accepts(docs[i], v)
    requires forall j | 0 <= j < |ds| :: WellFormed(ds[j])
    ensures k < |Absorb(ds, docs)| && s.x(m).accepts(Absorb(ds, docs)[k], v)
  {
    if j :| 0 <= j < |ds| && PlainNumber(ds[j]) {
      assert SubExact(s, m, ds[j], docs[j]);
      PlainBranchStays(s, m, ds[j], docs[j], v);
      if IsInteger(docs[i]) {
        IntegerRefuses(s, m, docs[i], v);
        k := WithoutIntegersKeeps(docs, j);
      } else {
        k := WithoutIntegersKeeps(docs, i);
      }
    } else {
      k := i;
    }
  }

  lemma AnyOfAccepted(s: Setting, m: nat, ds: seq<Doc>, docs: seq<Doc>, v: Value)
    requires OriginalOpens(s) && ProjectionClimbs(s) && SubsExact(s, m, ds, docs)
    requires (forall j | 0 <= j < |ds| :: WellFormed(ds[j])) && DisjointBranches(Absorb(ds, docs))
    requires SomeAccepts(s.w, ds, v)
    ensures OneAccepts(s.x(m), Absorb(ds, docs), v)
  {
    var bs := Absorb(ds, docs);
    var i :| 0 <= i < |ds| && s.w.accepts(ds[i], v);
    SubVerdict(s, m, ds, docs, i, v);
    var k := AbsorbedAccepts(s, m, ds, docs, i, v);
    forall j | 0 <= j < |bs| ensures Decided(s.x(m), bs[j]) {
      AbsorbFrom(ds, docs, bs[j]);
    }
    DisjointApart(bs);
    OneOfApart(s, m, bs, k, v);
  }

  lemma AnyOfRejected(s: Setting, m: nat, ds: seq<Doc>, docs: seq<Doc>, v: Value)
    requires OriginalOpens(s) && SubsExact(s, m, ds, docs) && AllReject(s.w, ds, v)
    ensures AllReject(s.x(m), Absorb(ds, docs), v)
  {
    BranchVerdicts(s, m, ds, docs, v);
    var bs := Absorb(ds, docs);
    forall k | 0 <= k < |bs| ensures s.x(m).rejects(bs[k], v) {
      AbsorbFrom(ds, docs, bs[k]);
      var j :| 0 <= j < |docs| && docs[j] == bs[k];
      assert s.w.rejects(ds[j], v);
    }
  }

  lemma AnyOfCarried(s: Setting, m: nat, es: seq<Entry>, rs: seq<Entry>, e: Entry, docs: seq<Doc>, v: Value)
    requires OriginalOpens(s) && ProjectionClimbs(s)
    requires e.key == AnyOf && e.value.DList? && WellFormed(e.value)
    requires SubsExact(s, m, e.value.items, docs) && DisjointBranches(Absorb(e.value.items, docs))
    ensures Carried(s, m, es, rs, e, Entry(OneOf, DList(Absorb(e.value.items, docs))), v)
  {
    var bs := Absorb(e.value.items, docs);
    assert SomeAccepts(s.w, e.value.items, v) ==> OneAccepts(s.x(m), bs, v) by {
      if SomeAccepts(s.w, e.value.items, v) { AnyOfAccepted(s, m, e.value.items, docs, v); }
    }
    assert AllReject(s.w, e.value.items, v) ==> AllReject(s.x(m), bs, v) by {
      if AllReject(s.w, e.value.items, v) { AnyOfRejected(s, m, e.value.items, docs, v); }
    }
    UnionKeys(s.o, s.root, s.w, es, e, v);
    UnionKeys(s.o, s.proot, s.x(m), rs, Entry(OneOf, DList(bs)), v);
  }

  /** The verdicts of the two union keywords. */
  lemma UnionKeys(o: Oracle, root: Doc, w: Verdicts, es: seq<Entry>, e: Entry, v: Value)
    requires (e.key.AnyOf? || e.key.OneOf?) && e.value.DList?
    ensures KeyAccepts(o, root, w, es, e, v) <==>
              if e.key.AnyOf? then SomeAccepts(w, e.value.items, v) else OneAccepts(w, e.value.items, v)
    ensures KeyRejects(o, root, w, es, e, v) <==>
              AllReject(w, e.value.items, v) || (e.key.OneOf? && TwoAccept(w, e.value.items, v))
  {
  }

  lemma PutCarried(s: Setting, m: nat, es: seq<Entry>, rs: seq<Entry>, e: Entry, docs: seq<Doc>, put: Entry, v: Value)
    requires OriginalOpens(s) && ProjectionClimbs(s) && m > 0 && WellFormed(e.value)
    requires SubDocs(e).Some? && SubsExact(s, m, SubDocs(e).value, docs) && Output(e, docs) == Some(Some(put))
    requires PropNames(rs) == PropNames(es) && !Has(es, PatternProperties) && !Has(rs, PatternProperties)
    ensures Carried(s, m, es, rs, e, put, v)
  {
    if Copied(e.key) {
    } else if e.key == Properties {
      PropertiesCarried(s, m, es, rs, e, docs, v);
    } else if e.key == Items {
      ItemsCarried(s, m, es, rs, e, docs, put.value, v);
    } else if e.key == AdditionalProperties {
      OthersCarried(s, m, es, rs, e, docs, put.value, v);
    } else if e.key == OneOf {
      OneOfCarried(s, m, es, rs, e, docs, v);
    } else {
      AnyOfCarried(s, m, es, rs, e, docs, v);
    }
  }

  // ---------------------------------------------------------------------------------------------
  // Nodes

  lemma NoPatterns(root: Doc, nodes: set<Doc>, es: seq<Entry>, puts: seq<Option<Entry>>, notes: bool)
    requires CoreNode(root, nodes, es) && PutsBy(es, puts)
    ensures !Has(es, PatternProperties) && !Has(Finish(es, puts, notes), PatternProperties)
  {
    forall i | 0 <= i < |es| ensures es[i].key != PatternProperties {
      assert es[i] in es;
    }
    NoPatternsPut(es, puts, notes);
  }

  lemma NoPatternsPut(es: seq<Entry>, puts: seq<Option<Entry>>, notes: bool)
    requires PutsBy(es, puts)
    ensures !Has(Finish(es, puts, notes), PatternProperties)
  {
    var rs := Finish(es, puts, notes);
    forall k | 0 <= k < |rs| ensures rs[k].key != PatternProperties {
      FinishFrom(es, puts, notes, rs[k]);
      if Some(rs[k]) in puts {
        var i :| 0 <= i < |puts| && puts[i] == Some(rs[k]);
        assert PutBy(es[i], puts[i]);
        PutKey(es[i], puts[i]);
      }
    }
  }

  lemma EntryCarried(s: Setting, nodes: set<Doc>, m: nat, es: seq<Entry>, puts: seq<Option<Entry>>, notes: bool,
      i: nat, v: Value)
    requires Fits(s) && Core(s.root, nodes) && CoreNode(s.root, nodes, es) && KeysPremise(Exact(s, nodes), m, es, puts)
    requires i < |es| && puts[i].Some?
    ensures Carried(s, m, es, Finish(es, puts, notes), es[i], puts[i].value, v)
  {
    var e := es[i];
    KeysPremisePuts(Exact(s, nodes), m, es, puts);
    NoPatterns(s.root, nodes, es, puts, notes);
    PropNamesKept(es, puts, notes);
    assert KeyPremise(Exact(s, nodes), m, e, puts[i]);
    var docs :| ClaimedAll(Exact(s, nodes), m, SubDocs(e).value, docs) && Output(e, docs) == Some(puts[i]);
    assert e in es;
    ClaimedExact(s, nodes, m, SubDocs(e).value, docs);
    assert WellFormed(DDict(es).entries[i].value);
    PutCarried(s, m, es, Finish(es, puts, notes), e, docs, puts[i].value, v);
  }

  lemma KeysAccept(s: Setting, nodes: set<Doc>, m: nat, es: seq<Entry>, puts: seq<Option<Entry>>, notes: bool, v: Value)
    requires Fits(s) && Core(s.root, nodes) && CoreNode(s.root, nodes, es) && KeysPremise(Exact(s, nodes), m, es, puts)
    requires NodeAccepts(s, es, v)
    ensures s.x(m + 1).accepts(DDict(Finish(es, puts, notes)), v)
  {
    var rs := Finish(es, puts, notes);
    KeysPremisePuts(Exact(s, nodes), m, es, puts);
    NoPatterns(s.root, nodes, es, puts, notes);
    forall k | 0 <= k < |rs| ensures KeyAccepts(s.o, s.proot, s.x(m), rs, rs[k], v) {
      FinishFrom(es, puts, notes, rs[k]);
      if Some(rs[k]) in puts {
        var i :| 0 <= i < |puts| && puts[i] == Some(rs[k]);
        EntryCarried(s, nodes, m, es, puts, notes, i, v);
        assert es[i] in es;
      }
    }
    assert DocAccepts(s.o, s.proot, s.x(m), DDict(rs), v);
  }

  lemma RejectingKept(root: Doc, nodes: set<Doc>, es: seq<Entry>, puts: seq<Option<Entry>>, notes: bool, i: nat)
    requires CoreNode(root, nodes, es) && UniqueKeys(es) && PutsBy(es, puts) && i < |es| && !Has(es, Ref)
    requires !Silent(es[i].key)
    ensures puts[i].Some? && puts[i].value in Finish(es, puts, notes)
  {
    NoPatterns(root, nodes, es, puts, notes);
    assert es[i] in es && CoreKey(es[i].key) && es[i].key != Ref;
    assert PutBy(es[i], puts[i]);
    OutputKept(es, puts, notes, i);
  }

  lemma KeysReject(s: Setting, nodes: set<Doc>, m: nat, es: seq<Entry>, puts: seq<Option<Entry>>, notes: bool, v: Value)
    requires Fits(s) && Core(s.root, nodes) && CoreNode(s.root, nodes, es) && KeysPremise(Exact(s, nodes), m, es, puts)
    requires NodeRejects(s, es, v)
    ensures s.x(m + 1).rejects(DDict(Finish(es, puts, notes)), v)
  {
    var rs := Finish(es, puts, notes);
    var i := RejectingEntry(s, es, v);
    KeysPremisePuts(Exact(s, nodes), m, es, puts);
    RejectingKept(s.root, nodes, es, puts, notes, i);
    EntryCarried(s, nodes, m, es, puts, notes, i, v);
    EntryRejects(s, m, rs, puts[i].value, v);
  }

  lemma RejectingEntry(s: Setting, es: seq<Entry>, v: Value) returns (i: nat)
    requires NodeRejects(s, es, v)
    ensures i < |es| && KeyRejects(s.o, s.root, s.w, es, es[i], v) && !Silent(es[i].key)
  {
    var e :| e in es && KeyRejects(s.o, s.root, s.w, es, e, v);
    i :| 0 <= i < |es| && es[i] == e;
  }

  lemma EntryRejects(s: Setting, m: nat, rs: seq<Entry>, r: Entry, v: Value)
    requires ProjectionClimbs(s) && r in rs && KeyRejects(s.o, s.proot, s.x(m), rs, r, v)
    ensures s.x(m + 1).rejects(DDict(rs), v)
  {
    var k :| 0 <= k < |rs| && rs[k] == r;
    assert KeyRejects(s.o, s.proot, s.x(m), rs, rs[k], v);
    assert DocRejects(s.o, s.proot, s.x(m), DDict(rs), v);
  }

  lemma KeysExact(s: Setting, nodes: set<Doc>, m: nat, es: seq<Entry>, puts: seq<Option<Entry>>, notes: bool)
    requires Fits(s) && Core(s.root, nodes) && KeysPremise(Exact(s, nodes), m, es, puts)
    ensures Exact(s, nodes)(m + 1, es, DDict(Finish(es, puts, notes)))
  {
    WeakerPremise(Exact(s, nodes), ProjectionKnown(s.known), m, es, puts);
    KeysKnown(s.proot, s.known, m, es, puts, notes);
    if CoreNode(s.root, nodes, es) {
      forall v | NodeAccepts(s, es, v) ensures s.x(m + 1).accepts(DDict(Finish(es, puts, notes)), v) {
        KeysAccept(s, nodes, m, es, puts, notes, v);
      }
      forall v | NodeRejects(s, es, v) ensures s.x(m + 1).rejects(DDict(Finish(es, puts, notes)), v) {
        KeysReject(s, nodes, m, es, puts, notes, v);
      }
    }
  }

  lemma RefExact(s: Setting, nodes: set<Doc>, m: nat, node: Doc, refs: seq<Word>, p: Doc)
    requires Fits(s) && Core(s.root, nodes) && RefPremise(s.root, Exact(s, nodes), m, node, refs, p)
    ensures Exact(s, nodes)(m, node.entries, p)
  {
    var merged := Expansion(s.root, node.entries, refs).value;
    assert Exact(s, nodes)(m, merged.entries, p);
    if CoreNode(s.root, nodes, node.entries) {
      MergedCore(s.root, nodes, node.entries, refs);
      assert Mirrors(s, m, merged.entries, p);
      forall v | NodeAccepts(s, node.entries, v) ensures s.x(m).accepts(p, v) {
        MergedAccepts(s, nodes, node.entries, refs, v);
      }
      forall v | NodeRejects(s, node.entries, v) ensures s.x(m).rejects(p, v) {
        MergedRejects(s, nodes, node.entries, refs, v);
      }
    }
  }

  lemma ExactCarries(s: Setting, nodes: set<Doc>)
    requires Fits(s) && Core(s.root, nodes)
    ensures Carries(s.root, Exact(s, nodes))
  {
    var claim := Exact(s, nodes);
    forall m: nat, node: Doc, refs: seq<Word>, p: Doc | RefPremise(s.root, claim, m, node, refs, p)
      ensures claim(m, node.entries, p)
    {
      RefExact(s, nodes, m, node, refs, p);
    }
    forall m: nat, es: seq<Entry>, puts: seq<Option<Entry>>, notes: bool | KeysPremise(claim, m, es, puts)
      ensures claim(m + 1, es, DDict(Finish(es, puts, notes)))
    {
      KeysExact(s, nodes, m, es, puts, notes);
    }
  }

  lemma ProjectionMirrors(o: Oracle, schema: Doc, nodes: set<Doc>, budget: nat, n: nat)
    requires WellFormed(schema) && ProjectWithin(schema, budget).Some? && schema in nodes && Core(schema, nodes)
    requires n > budget
    ensures schema.DDict?
    ensures var p := ProjectWithin(schema, budget).value;
            Mirrors(Compared(o, schema, p), n, schema.entries, p)
  {
    var p := ProjectWithin(schema, budget).value;
    var s := Compared(o, schema, p);
    ComparedFits(o, schema, p);
    ExactCarries(s, nodes);
    VisitInduction(schema, Exact(s, nodes), schema, [], budget, n);
  }

  /** A core schema that can be projected and its projection give every value the same verdict. */
  lemma ProjectionExact(o: Oracle, schema: Doc, nodes: set<Doc>, budget: nat, v: Value, n: nat)
    requires WellFormed(schema) && ProjectWithin(schema, budget).Some? && schema in nodes && Core(schema, nodes)
    requires n > budget
    ensures var p := ProjectWithin(schema, budget).value;
            && Accepts(o, schema, schema, v, n) == Accepts(o, p, p, v, n)
            && Rejects(o, schema, schema, v, n) == Rejects(o, p, p, v, n)
            && Accepts(o, p, p, v, n) != Rejects(o, p, p, v, n)
  {
    var p := ProjectWithin(schema, budget).value;
    var s := Compared(o, schema, p);
    ProjectionMirrors(o, schema, nodes, budget, n);
    ProjectableDecides(o, schema, budget, v, n);
    ProjectionDecides(o, schema, budget, v, n);
    assert Accepts(o, schema, schema, v, n) ==> s.w.accepts(schema, v);
    assert Rejects(o, schema, schema, v, n) ==> s.w.rejects(schema, v);
    ComparedOpens(o, schema, p);
    DocVerdict(s, schema, v);
    assert s.x(n).accepts(p, v) == Accepts(o, p, p, v, n);
    assert s.x(n).rejects(p, v) == Rejects(o, p, p, v, n);
  }
}
