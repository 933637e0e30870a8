/** A projection never refuses what the original accepts, provided that the branches of every `oneOf` are still
    told apart after projection; `anyOf` needs no such proviso. And the proviso is needed.
 */
module SchemaPreservation {
  import opened Collections
  import opened JsonSchema
  import opened SchemaProjection
  import opened SchemaDictionaries
  import opened SchemaInduction
  import opened SchemaDeterminacy
  import opened SchemaSettings

  /** Every union inside a projection has branches pairwise apart. */
  predicate Separable(d: Doc)
    decreases d
  {
    d.DDict? ==> forall i | 0 <= i < |d.entries| :: SeparableEntry(d.entries[i])
  }

  predicate SeparableEntry(e: Entry)
    decreases e
  {
    && (e.key.Properties? && e.value.DDict? ==>
          forall j | 0 <= j < |e.value.entries| :: Separable(e.value.entries[j].value))
    && (e.key.OneOf? && e.value.DList? ==>
          PairwiseApart(e.value.items) && forall j | 0 <= j < |e.value.items| :: Separable(e.value.items[j]))
    && (e.key.Items? || e.key.AdditionalProperties? ==> Separable(e.value))
  }

  /** The keywords of a node hold of v, conditions apart: merging a reference with its siblings can bring an `if`
      and a `then` together, and the projection drops them. */
  ghost predicate WeakNode(s: Setting, es: seq<Entry>, v: Value) {
    forall e | e in es :: e.key.If? || KeyAccepts(s.o, s.root, s.w, es, e, v)
  }

  ghost predicate Admits(s: Setting, m: nat, es: seq<Entry>, p: Doc) {
    forall v | WeakNode(s, es, v) :: s.x(m).accepts(p, v)
  }

  /** A type the projection names was demanded by the original. */
  ghost predicate Typed(s: Setting, es: seq<Entry>, p: Doc) {
    p.DDict? && Has(p.entries, Type) ==> forall v | WeakNode(s, es, v) :: TypeHolds(Get(p.entries, Type).value, v)
  }

  ghost function Preserved(s: Setting): Claim {
    (m: nat, es: seq<Entry>, p: Doc) => s.known.doc(m, p) && Typed(s, es, p) && (Separable(p) ==> Admits(s, m, es, p))
  }

  // ---------------------------------------------------------------------------------------------
  // References

  /** The declarations of a part are among those of the whole. */
  ghost predicate Declares(whole: seq<Entry>, part: seq<Entry>) {
    forall e | e in part && (e.key.Properties? || e.key.PatternProperties?) :: e in whole
  }

  lemma DeclaresNames(o: Oracle, whole: seq<Entry>, part: seq<Entry>, k: Word)
    requires Declares(whole, part)
    ensures k in PropNames(part) ==> k in PropNames(whole)
    ensures MatchesPattern(o, part, k) ==> MatchesPattern(o, whole, k)
  {
    if k in PropNames(part) {
      var i, j :| 0 <= i < |part| && part[i].key == Properties && part[i].value.DDict?
                  && 0 <= j < |part[i].value.entries| && part[i].value.entries[j].key == k;
      assert part[i] in whole;
      var n :| 0 <= n < |whole| && whole[n] == part[i];
      assert whole[n].value.entries[j].key == k;
    }
    if MatchesPattern(o, part, k) {
      var i, j :| 0 <= i < |part| && part[i].key == PatternProperties && part[i].value.DDict?
                  && 0 <= j < |part[i].value.entries| && o.matches(part[i].value.entries[j].key, k);
      assert part[i] in whole;
      var n :| 0 <= n < |whole| && whole[n] == part[i];
      assert o.matches(whole[n].value.entries[j].key, k);
    }
  }

  lemma KeyWidens(o: Oracle, root: Doc, w: Verdicts, part: seq<Entry>, whole: seq<Entry>, e: Entry, v: Value)
    requires Declares(whole, part) && !e.key.If? && KeyAccepts(o, root, w, part, e, v)
    ensures KeyAccepts(o, root, w, whole, e, v)
  {
    if e.key.AdditionalProperties? {
      forall k | v.Obj? && Additional(o, whole, v, k) ensures w.accepts(e.value, v.fields[k]) {
        DeclaresNames(o, whole, part, k);
      }
    }
  }

  lemma ExpansionDeclares(root: Doc, entries: seq<Entry>, refs: seq<Word>)
    requires UniqueKeys(entries) && Has(entries, Ref) && Expansion(root, entries, refs).Some?
    ensures Declares(Expansion(root, entries, refs).value.entries, entries)
    ensures var target := Target(root, Get(entries, Ref).value).value;
            target.DDict? && Declares(Expansion(root, entries, refs).value.entries, target.entries)
  {
    var target := Target(root, Get(entries, Ref).value).value;
    var merged := Expansion(root, entries, refs).value.entries;
    forall e | e in entries && (e.key.Properties? || e.key.PatternProperties?) ensures e in merged {
      ExpansionKeeps(root, entries, refs, e);
    }
    forall e | e in target.entries && (e.key.Properties? || e.key.PatternProperties?) ensures e in merged {
      ExpansionKeeps(root, entries, refs, e);
    }
  }

  lemma TargetHolds(s: Setting, entries: seq<Entry>, refs: seq<Word>, v: Value)
    requires OriginalOpens(s) && UniqueKeys(entries) && Has(entries, Ref) && Expansion(s.root, entries, refs).Some?
    requires WeakNode(s, entries, v)
    ensures var target := Target(s.root, Get(entries, Ref).value).value;
            target.DDict? && WeakNode(s, target.entries, v)
  {
    var target := Target(s.root, Get(entries, Ref).value).value;
    var i := IndexOf(entries, Ref);
    assert entries[i] in entries;
    assert KeyAccepts(s.o, s.root, s.w, entries, entries[i], v);
    assert DocAccepts(s.o, s.root, s.w, target, v);
  }

  lemma RefPreserves(s: Setting, entries: seq<Entry>, refs: seq<Word>, v: Value)
    requires OriginalOpens(s) && UniqueKeys(entries) && Has(entries, Ref) && Expansion(s.root, entries, refs).Some?
    requires WeakNode(s, entries, v)
    ensures WeakNode(s, Expansion(s.root, entries, refs).value.entries, v)
  {
    var target := Target(s.root, Get(entries, Ref).value).value;
    var merged := Expansion(s.root, entries, refs).value.entries;
    TargetHolds(s, entries, refs, v);
    ExpansionDeclares(s.root, entries, refs);
    forall e | e in merged && !e.key.If? ensures KeyAccepts(s.o, s.root, s.w, merged, e, v) {
      ExpansionFrom(s.root, entries, refs, e);
      KeyWidens(s.o, s.root, s.w, if e in target.entries then target.entries else entries, merged, e, v);
    }
  }

  // ---------------------------------------------------------------------------------------------
  // Keywords

  /** The subschemas of a keyword and their projections. */
  ghost predicate SubsAdmit(s: Setting, m: nat, ds: seq<Doc>, docs: seq<Doc>) {
    && |ds| == |docs|
    && AllDecided(s.x(m), docs)
    && forall j | 0 <= j < |ds| :: SubAdmit(s, m, ds[j], docs[j])
  }

  ghost predicate SubAdmit(s: Setting, m: nat, d: Doc, p: Doc) {
    d.DDict? && Typed(s, d.entries, p) && (Separable(p) ==> Admits(s, m, d.entries, p))
  }

  lemma ClaimedAdmit(s: Setting, m: nat, ds: seq<Doc>, docs: seq<Doc>)
    requires Fits(s) && ClaimedAll(Preserved(s), m, ds, docs)
    ensures SubsAdmit(s, m, ds, docs)
  {
    forall j | 0 <= j < |ds|
      ensures SubAdmit(s, m, ds[j], docs[j]) && Decided(s.x(m), docs[j])
    {
      assert Preserved(s)(m, ds[j].entries, docs[j]);
    }
  }

  lemma SubAdmits(s: Setting, m: nat, ds: seq<Doc>, docs: seq<Doc>, j: nat, v: Value)
    requires OriginalOpens(s) && SubsAdmit(s, m, ds, docs) && j < |ds| && Separable(docs[j]) && s.w.accepts(ds[j], v)
    ensures s.x(m).accepts(docs[j], v)
  {
    assert DocAccepts(s.o, s.root, s.w, ds[j], v);
    assert SubAdmit(s, m, ds[j], docs[j]);
    assert WeakNode(s, ds[j].entries, v);
  }

  /** A subschema that is not a dictionary stands unchanged. */
  lemma ConstantAdmits(s: Setting, m: nat, d: Doc, v: Value)
    requires OriginalOpens(s) && ProjectionClimbs(s) && !d.DDict? && s.w.accepts(d, v) && m > 0
    ensures s.x(m).accepts(d, v)
  {
    assert DocAccepts(s.o, s.root, s.w, d, v);
    assert DocAccepts(s.o, s.proot, s.x(m - 1), d, v);
    assert s.x(m - 1 + 1).accepts(d, v);
  }

  lemma PropertiesAdmit(s: Setting, m: nat, es: seq<Entry>, rs: seq<Entry>, e: Entry, docs: seq<Doc>, v: Value)
    requires OriginalOpens(s) && e.key == Properties && e.value.DDict? && KeyAccepts(s.o, s.root, s.w, es, e, v)
    requires SubsAdmit(s, m, Values(e.value.entries), docs) && forall j | 0 <= j < |docs| :: Separable(docs[j])
    ensures KeyAccepts(s.o, s.proot, s.x(m), rs, Entry(Properties, DDict(Rekey(e.value.entries, docs))), v)
  {
    var ps := Rekey(e.value.entries, docs);
    forall i | 0 <= i < |ps| && v.Obj? && ps[i].key in v.fields
      ensures s.x(m).accepts(ps[i].value, v.fields[ps[i].key])
    {
      SubAdmits(s, m, Values(e.value.entries), docs, i, v.fields[ps[i].key]);
    }
  }

  lemma ElementAdmits(s: Setting, m: nat, e: Entry, docs: seq<Doc>, d: Doc, v: Value)
    requires OriginalOpens(s) && ProjectionClimbs(s) && m > 0 && s.w.accepts(e.value, v)
    requires SubsAdmit(s, m, if e.value.DDict? then [e.value] else [], docs)
    requires d == (if e.value.DDict? then docs[0] else e.value) && Separable(d)
    ensures s.x(m).accepts(d, v)
  {
    if e.value.DDict? {
      SubAdmits(s, m, [e.value], docs, 0, v);
    } else {
      ConstantAdmits(s, m, e.value, v);
    }
  }

  lemma OneOfAdmits(s: Setting, m: nat, es: seq<Entry>, rs: seq<Entry>, e: Entry, docs: seq<Doc>, v: Value)
    requires OriginalOpens(s) && ProjectionClimbs(s)
    requires e.key == OneOf && e.value.DList? && KeyAccepts(s.o, s.root, s.w, es, e, v)
    requires SubsAdmit(s, m, e.value.items, docs) && SeparableEntry(Entry(OneOf, DList(docs)))
    ensures KeyAccepts(s.o, s.proot, s.x(m), rs, Entry(OneOf, DList(docs)), v)
  {
    var i :| 0 <= i < |e.value.items| && s.w.accepts(e.value.items[i], v);
    SubAdmits(s, m, e.value.items, docs, i, v);
    OneOfApart(s, m, docs, i, v);
  }

  lemma {:induction false} WithoutIntegersKeeps(docs: seq<Doc>, i: nat) returns (k: nat)
    requires i < |docs| && !IsInteger(docs[i])
    ensures k < |WithoutIntegers(docs)| && WithoutIntegers(docs)[k] == docs[i]
  {
    if i == 0 {
      k := 0;
    } else {
      k := WithoutIntegersKeeps(docs[1..], i - 1);
      k := if IsInteger(docs[0]) then k else k + 1;
    }
  }

  lemma DisjointApart(bs: seq<Doc>)
    requires DisjointBranches(bs)
    ensures PairwiseApart(bs)
  {
  }

  lemma PlainNumberHolds(s: Setting, d: Doc, v: Value)
    requires PlainNumber(d) && UniqueKeys(d.entries) && v.Num?
    ensures WeakNode(s, d.entries, v)
  {
    forall e | e in d.entries && !e.key.If? ensures KeyAccepts(s.o, s.root, s.w, d.entries, e, v) {
      var i :| 0 <= i < |d.entries| && d.entries[i] == e;
      if e.key.Type? {
        UniqueGet(d.entries, e);
      }
    }
  }

  /** A branch with an unconstrained number stays, and admits every number. */
  lemma AbsorbingBranch(s: Setting, m: nat, d: Doc, p: Doc, v: Value)
    requires SubAdmit(s, m, d, p) && WellFormed(d) && PlainNumber(d)
    ensures !IsInteger(p)
    ensures Separable(p) && v.Num? ==> s.x(m).accepts(p, v)
  {
    PlainNumberHolds(s, d, Num(0.5));
    if v.Num? {
      PlainNumberHolds(s, d, v);
    }
  }

  /** Absorbing integer branches loses no value. */
  lemma AbsorbedAdmits(s: Setting, m: nat, ds: seq<Doc>, docs: seq<Doc>, i: nat, v: Value) returns (k: nat)
    requires SubsAdmit(s, m, ds, docs) && i < |ds| && ds[i].DDict? && WeakNode(s, ds[i].entries, v)
    requires forall j | 0 <= j < |ds| :: WellFormed(ds[j])
    requires forall j | 0 <= j < |Absorb(ds, docs)| :: Separable(Absorb(ds, docs)[j])
    ensures k < |Absorb(ds, docs)| && s.x(m).accepts(Absorb(ds, docs)[k], v)
  {
    assert SubAdmit(s, m, ds[i], docs[i]);
    if j :| 0 <= j < |ds| && PlainNumber(ds[j]) {
      assert SubAdmit(s, m, ds[j], docs[j]);
      AbsorbingBranch(s, m, ds[j], docs[j], v);
      if IsInteger(docs[i]) {
        assert HasType(IntegerType, v);
        k := WithoutIntegersKeeps(docs, j);
      } else {
        k := WithoutIntegersKeeps(docs, i);
      }
    } else {
      k := i;
    }
  }

  lemma AbsorbFrom(ds: seq<Doc>, docs: seq<Doc>, d: Doc)
    requires d in Absorb(ds, docs)
    ensures d in docs
  {
    if exists i | 0 <= i < |ds| :: PlainNumber(ds[i]) {
      WithoutIntegersFrom(docs, d);
    }
  }

  lemma AnyOfAdmits(s: Setting, m: nat, es: seq<Entry>, rs: seq<Entry>, e: Entry, docs: seq<Doc>, v: Value)
    requires OriginalOpens(s) && ProjectionClimbs(s)
    requires e.key == AnyOf && e.value.DList? && WellFormed(e.value) && KeyAccepts(s.o, s.root, s.w, es, e, v)
    requires SubsAdmit(s, m, e.value.items, docs) && DisjointBranches(Absorb(e.value.items, docs))
    requires forall j | 0 <= j < |Absorb(e.value.items, docs)| :: Separable(Absorb(e.value.items, docs)[j])
    ensures KeyAccepts(s.o, s.proot, s.x(m), rs, Entry(OneOf, DList(Absorb(e.value.items, docs))), v)
  {
    var bs := Absorb(e.value.items, docs);
    var i :| 0 <= i < |e.value.items| && s.w.accepts(e.value.items[i], v);
    assert SubAdmit(s, m, e.value.items[i], docs[i]);
    assert DocAccepts(s.o, s.root, s.w, e.value.items[i], v);
    assert WeakNode(s, e.value.items[i].entries, v);
    var k := AbsorbedAdmits(s, m, e.value.items, docs, i, v);
    DisjointApart(bs);
    forall j | 0 <= j < |bs| ensures Decided(s.x(m), bs[j]) {
      AbsorbFrom(e.value.items, docs, bs[j]);
    }
    OneOfApart(s, m, bs, k, v);
  }

  // ---------------------------------------------------------------------------------------------
  // Nodes

  /** The names outside the projected declarations are outside the original ones, which have no patterns. */
  lemma OthersAdmit(s: Setting, m: nat, es: seq<Entry>, rs: seq<Entry>, e: Entry, docs: seq<Doc>, d: Doc, v: Value)
    requires OriginalOpens(s) && ProjectionClimbs(s) && m > 0
    requires e.key == AdditionalProperties && KeyAccepts(s.o, s.root, s.w, es, e, v)
    requires SubsAdmit(s, m, if e.value.DDict? then [e.value] else [], docs)
    requires d == (if e.value.DDict? then docs[0] else e.value) && Separable(d)
    requires PropNames(rs) == PropNames(es) && !Has(es, PatternProperties)
    ensures KeyAccepts(s.o, s.proot, s.x(m), rs, Entry(AdditionalProperties, d), v)
  {
    forall k | v.Obj? && Additional(s.o, rs, v, k) ensures s.x(m).accepts(d, v.fields[k]) {
      assert Additional(s.o, es, v, k) by {
        assert !MatchesPattern(s.o, es, k);
      }
      ElementAdmits(s, m, e, docs, d, v.fields[k]);
    }
  }

  lemma ItemsAdmit(s: Setting, m: nat, es: seq<Entry>, rs: seq<Entry>, e: Entry, docs: seq<Doc>, d: Doc, v: Value)
    requires OriginalOpens(s) && ProjectionClimbs(s) && m > 0
    requires e.key == Items && KeyAccepts(s.o, s.root, s.w, es, e, v)
    requires SubsAdmit(s, m, if e.value.DDict? then [e.value] else [], docs)
    requires d == (if e.value.DDict? then docs[0] else e.value) && Separable(d)
    ensures KeyAccepts(s.o, s.proot, s.x(m), rs, Entry(Items, d), v)
  {
    forall i | v.Arr? && 0 <= i < |v.elements| ensures s.x(m).accepts(d, v.elements[i]) {
      ElementAdmits(s, m, e, docs, d, v.elements[i]);
    }
  }

  /** What keyword e puts holds of every value the node's keywords hold of. */
  lemma PutAdmits(s: Setting, m: nat, es: seq<Entry>, rs: seq<Entry>, e: Entry, put: Entry, v: Value)
    requires Fits(s) && m > 0 && WellFormed(DDict(es)) && e in es && WeakNode(s, es, v)
    requires KeyPremise(Preserved(s), m, e, Some(put)) && SeparableEntry(put)
    requires PropNames(rs) == PropNames(es) && (e.key == AdditionalProperties ==> !Has(es, PatternProperties))
    ensures KeyAccepts(s.o, s.proot, s.x(m), rs, put, v)
  {
    var docs :| ClaimedAll(Preserved(s), m, SubDocs(e).value, docs) && Output(e, docs) == Some(Some(put));
    ClaimedAdmit(s, m, SubDocs(e).value, docs);
    assert KeyAccepts(s.o, s.root, s.w, es, e, v);
    assert WellFormed(e.value) by {
      var i :| 0 <= i < |es| && es[i] == e;
      assert WellFormed(DDict(es).entries[i].value);
    }
    PutAdmitsBy(s, m, es, rs, e, docs, put, v);
  }

  lemma PutAdmitsBy(s: Setting, m: nat, es: seq<Entry>, rs: seq<Entry>, e: Entry, docs: seq<Doc>, put: Entry, v: Value)
    requires OriginalOpens(s) && ProjectionClimbs(s) && m > 0 && WellFormed(e.value)
    requires SubDocs(e).Some? && SubsAdmit(s, m, SubDocs(e).value, docs) && Output(e, docs) == Some(Some(put))
    requires !e.key.If? ==> KeyAccepts(s.o, s.root, s.w, es, e, v)
    requires SeparableEntry(put)
    requires PropNames(rs) == PropNames(es) && (e.key == AdditionalProperties ==> !Has(es, PatternProperties))
    ensures KeyAccepts(s.o, s.proot, s.x(m), rs, put, v)
  {
    if Copied(e.key) {
    } else if e.key == Properties {
      assert forall j | 0 <= j < |docs| :: put.value.entries[j].value == docs[j];
      PropertiesAdmit(s, m, es, rs, e, docs, v);
    } else if e.key == Items {
      ItemsAdmit(s, m, es, rs, e, docs, put.value, v);
    } else if e.key == AdditionalProperties {
      OthersAdmit(s, m, es, rs, e, docs, put.value, v);
    } else if e.key == OneOf {
      OneOfAdmits(s, m, es, rs, e, docs, v);
    } else {
      AnyOfAdmits(s, m, es, rs, e, docs, v);
    }
  }

  lemma SeparableParts(rs: seq<Entry>, r: Entry)
    requires Separable(DDict(rs)) && r in rs
    ensures SeparableEntry(r)
  {
    var i :| 0 <= i < |rs| && rs[i] == r;
    assert SeparableEntry(DDict(rs).entries[i]);
  }

  lemma FinishedAdmits(s: Setting, m: nat, es: seq<Entry>, puts: seq<Option<Entry>>, notes: bool, r: Entry, v: Value)
    requires Fits(s) && KeysPremise(Preserved(s), m, es, puts) && WeakNode(s, es, v)
    requires r in Finish(es, puts, notes) && SeparableEntry(r)
    ensures KeyAccepts(s.o, s.proot, s.x(m), Finish(es, puts, notes), r, v)
  {
    var rs := Finish(es, puts, notes);
    KeysPremisePuts(Preserved(s), m, es, puts);
    FinishFrom(es, puts, notes, r);
    if r.key == Description {
    } else if Has(es, PatternProperties) && r == Entry(AdditionalProperties, DBool(true)) {
      forall k | v.Obj? && Additional(s.o, rs, v, k) ensures s.x(m).accepts(DBool(true), v.fields[k]) {
        assert DocAccepts(s.o, s.proot, s.x(m - 1), DBool(true), v.fields[k]);
        assert s.x(m - 1 + 1).accepts(DBool(true), v.fields[k]);
      }
    } else {
      var i :| 0 <= i < |puts| && puts[i] == Some(r);
      assert KeyPremise(Preserved(s), m, es[i], puts[i]);
      PutKey(es[i], puts[i]);
      PropNamesKept(es, puts, notes);
      PutAdmits(s, m, es, rs, es[i], r, v);
    }
  }

  lemma FinishedTyped(s: Setting, es: seq<Entry>, puts: seq<Option<Entry>>, notes: bool)
    requires PutsBy(es, puts)
    ensures Typed(s, es, DDict(Finish(es, puts, notes)))
  {
    var rs := Finish(es, puts, notes);
    if Has(rs, Type) {
      var r := rs[IndexOf(rs, Type)];
      FinishFrom(es, puts, notes, r);
      var i :| 0 <= i < |puts| && puts[i] == Some(r);
      assert PutBy(es[i], puts[i]);
      PutKey(es[i], puts[i]);
      assert es[i] == r;
      forall v | WeakNode(s, es, v) ensures TypeHolds(r.value, v) {
        assert KeyAccepts(s.o, s.root, s.w, es, es[i], v);
      }
    }
  }

  lemma KeysPreserve(s: Setting, m: nat, es: seq<Entry>, puts: seq<Option<Entry>>, notes: bool)
    requires Fits(s) && KeysPremise(Preserved(s), m, es, puts)
    ensures Preserved(s)(m + 1, es, DDict(Finish(es, puts, notes)))
  {
    var rs := Finish(es, puts, notes);
    KeysPremisePuts(Preserved(s), m, es, puts);
    FinishedTyped(s, es, puts, notes);
    WeakerPremise(Preserved(s), ProjectionKnown(s.known), m, es, puts);
    KeysKnown(s.proot, s.known, m, es, puts, notes);
    if Separable(DDict(rs)) {
      forall v | WeakNode(s, es, v) ensures s.x(m + 1).accepts(DDict(rs), v) {
        forall i | 0 <= i < |rs| ensures KeyAccepts(s.o, s.proot, s.x(m), rs, rs[i], v) {
          SeparableParts(rs, rs[i]);
          FinishedAdmits(s, m, es, puts, notes, rs[i], v);
        }
        assert DocAccepts(s.o, s.proot, s.x(m), DDict(rs), v);
      }
    }
  }

  lemma RefPreserved(s: Setting, m: nat, node: Doc, refs: seq<Word>, p: Doc)
    requires Fits(s) && RefPremise(s.root, Preserved(s), m, node, refs, p)
    ensures Preserved(s)(m, node.entries, p)
  {
    var merged := Expansion(s.root, node.entries, refs).value;
    forall v | WeakNode(s, node.entries, v) ensures WeakNode(s, merged.entries, v) {
      RefPreserves(s, node.entries, refs, v);
    }
    assert Preserved(s)(m, merged.entries, p);
    assert Typed(s, merged.entries, p);
    if p.DDict? && Has(p.entries, Type) {
      forall v | WeakNode(s, node.entries, v) ensures TypeHolds(Get(p.entries, Type).value, v) {
        assert WeakNode(s, merged.entries, v);
      }
    }
    if Separable(p) {
      assert Admits(s, m, merged.entries, p);
      assert Admits(s, m, node.entries, p);
    }
    assert Typed(s, node.entries, p);
    assert s.known.doc(m, p);
  }

  lemma PreservedCarries(s: Setting)
    requires Fits(s)
    ensures Carries(s.root, Preserved(s))
  {
    var claim := Preserved(s);
    forall m: nat, node: Doc, refs: seq<Word>, p: Doc | RefPremise(s.root, claim, m, node, refs, p)
      ensures claim(m, node.entries, p)
    {
      RefPreserved(s, m, node, refs, p);
    }
    forall m: nat, es: seq<Entry>, puts: seq<Option<Entry>>, notes: bool | KeysPremise(claim, m, es, puts)
      ensures claim(m + 1, es, DDict(Finish(es, puts, notes)))
    {
      KeysPreserve(s, m, es, puts, notes);
    }
  }

  // ---------------------------------------------------------------------------------------------
  // The theorem

  /** The projection of a schema accepts every value the schema accepts, when its unions can be told apart. */
  lemma ProjectionAccepts(o: Oracle, schema: Doc, budget: nat, v: Value, n: nat)
    requires WellFormed(schema) && ProjectWithin(schema, budget).Some? && Separable(ProjectWithin(schema, budget).value)
    requires Accepts(o, schema, schema, v, n)
    ensures Accepts(o, ProjectWithin(schema, budget).value, ProjectWithin(schema, budget).value, v, budget + 1)
  {
    var p := ProjectWithin(schema, budget).value;
    var s := Compared(o, schema, p);
    ComparedFits(o, schema, p);
    PreservedCarries(s);
    VisitInduction(schema, Preserved(s), schema, [], budget, budget + 1);
    assert s.w.accepts(schema, v);
    assert DocAccepts(o, schema, s.w, schema, v);
    assert WeakNode(s, schema.entries, v);
    assert s.x(budget + 1).accepts(p, v);
  }
}
