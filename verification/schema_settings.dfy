/** The two sides a projection is compared on: the verdicts of the original schema, however far it has to be
    unfolded, and the verdicts of its projection, unfolding by unfolding.
 */
module SchemaSettings {
  import opened Collections
  import opened JsonSchema
  import opened SchemaProjection
  import opened SchemaDictionaries
  import opened SchemaInduction
  import opened SchemaDeterminacy

  datatype Setting = Setting(o: Oracle, root: Doc, proot: Doc, w: Verdicts, x: nat -> Verdicts, known: Known)

  ghost predicate OriginalOpens(s: Setting) {
    && Consistent(s.w)
    && (forall d: Doc, v: Value {:trigger DocAccepts(s.o, s.root, s.w, d, v)} | s.w.accepts(d, v) ::
        DocAccepts(s.o, s.root, s.w, d, v))
    && (forall d: Doc, v: Value {:trigger DocRejects(s.o, s.root, s.w, d, v)} | s.w.rejects(d, v) ::
        DocRejects(s.o, s.root, s.w, d, v))
  }

  ghost predicate ProjectionClimbs(s: Setting) {
    && (forall n: nat, d: Doc, v: Value {:trigger DocAccepts(s.o, s.proot, s.x(n), d, v)}
          :: s.x(n + 1).accepts(d, v) <==> DocAccepts(s.o, s.proot, s.x(n), d, v))
    && (forall n: nat, d: Doc, v: Value {:trigger DocRejects(s.o, s.proot, s.x(n), d, v)}
          :: s.x(n + 1).rejects(d, v) <==> DocRejects(s.o, s.proot, s.x(n), d, v))
    && (forall d: Doc, v: Value :: !s.x(0).accepts(d, v))
    && (forall n: nat :: Consistent(s.x(n)))
  }

  ghost predicate Fits(s: Setting) {
    && OriginalOpens(s) && ProjectionClimbs(s) && Closed(s.proot, s.known)
    && (forall n: nat, d: Doc | s.known.doc(n, d) :: Decided(s.x(n), d))
  }

  /** The verdicts reached by any number of unfoldings. */
  ghost function Limit(o: Oracle, root: Doc): Verdicts {
    Verdicts((d, v) => exists n: nat :: Accepts(o, root, d, v, n), (d, v) => exists n: nat :: Rejects(o, root, d, v, n))
  }

  lemma LevelBelowLimit(o: Oracle, root: Doc, n: nat)
    ensures Below(Level(o, root, n), Limit(o, root))
  {
    forall d, v | Level(o, root, n).accepts(d, v) ensures Limit(o, root).accepts(d, v) {
      assert Accepts(o, root, d, v, n);
    }
    forall d, v | Level(o, root, n).rejects(d, v) ensures Limit(o, root).rejects(d, v) {
      assert Rejects(o, root, d, v, n);
    }
  }

  lemma LimitConsistent(o: Oracle, root: Doc)
    ensures Consistent(Limit(o, root))
  {
    forall d, v ensures !(Limit(o, root).accepts(d, v) && Limit(o, root).rejects(d, v)) {
      if Limit(o, root).accepts(d, v) && Limit(o, root).rejects(d, v) {
        var n: nat :| Accepts(o, root, d, v, n);
        var m: nat :| Rejects(o, root, d, v, m);
        VerdictsExclude(o, root, d, v, n, m);
      }
    }
  }

  lemma LevelOpensInLimit(o: Oracle, root: Doc, n: nat)
    ensures Below(Level(o, root, n), Unfold(o, root, Limit(o, root)))
  {
    LevelBelowLimit(o, root, n);
    UnfoldMonotone(o, root, Level(o, root, n), Limit(o, root));
    LevelGrows(o, root, n);
    LevelUnfolds(o, root, n);
    BelowTransitive(Level(o, root, n), Unfold(o, root, Level(o, root, n)), Unfold(o, root, Limit(o, root)));
  }


  lemma LimitBelowUnfold(o: Oracle, root: Doc)
    ensures Below(Limit(o, root), Unfold(o, root, Limit(o, root)))
  {
    var w := Limit(o, root);
    forall d, v | w.accepts(d, v) ensures Unfold(o, root, w).accepts(d, v) {
      var n: nat :| Accepts(o, root, d, v, n);
      LevelOpensInLimit(o, root, n);
    }
    forall d, v | w.rejects(d, v) ensures Unfold(o, root, w).rejects(d, v) {
      var n: nat :| Rejects(o, root, d, v, n);
      LevelOpensInLimit(o, root, n);
    }
  }

  lemma UnfoldVerdicts(o: Oracle, root: Doc, w: Verdicts, d: Doc, v: Value)
    ensures Unfold(o, root, w).accepts(d, v) == DocAccepts(o, root, w, d, v)
    ensures Unfold(o, root, w).rejects(d, v) == DocRejects(o, root, w, d, v)
  {
  }

  /** A schema and its projection as they are. */
  ghost function Compared(o: Oracle, schema: Doc, p: Doc): Setting {
    Setting(o, schema, p, Limit(o, schema), (n: nat) => Level(o, p, n), DecidedBy(o, p))
  }

  lemma ComparedOpens(o: Oracle, schema: Doc, p: Doc)
    ensures OriginalOpens(Compared(o, schema, p))
  {
    var w := Limit(o, schema);
    LimitConsistent(o, schema);
    LimitBelowUnfold(o, schema);
    forall d, v
      ensures w.accepts(d, v) ==> DocAccepts(o, schema, w, d, v)
      ensures w.rejects(d, v) ==> DocRejects(o, schema, w, d, v)
    {
      UnfoldVerdicts(o, schema, w, d, v);
    }
  }

  lemma LevelUnfolds(o: Oracle, p: Doc, n: nat)
    ensures Level(o, p, n + 1) == Unfold(o, p, Level(o, p, n))
  {
  }

  lemma ComparedClimbs(o: Oracle, schema: Doc, p: Doc)
    ensures ProjectionClimbs(Compared(o, schema, p))
  {
    var s := Compared(o, schema, p);
    forall n: nat, d: Doc, v: Value
      ensures s.x(n + 1).accepts(d, v) <==> DocAccepts(o, p, s.x(n), d, v)
      ensures s.x(n + 1).rejects(d, v) <==> DocRejects(o, p, s.x(n), d, v)
    {
      LevelUnfolds(o, p, n);
    }
    forall n: nat ensures Consistent(s.x(n)) {
      LevelConsistent(o, p, n);
    }
  }

  lemma ComparedFits(o: Oracle, schema: Doc, p: Doc)
    ensures Fits(Compared(o, schema, p))
  {
    ComparedOpens(o, schema, p);
    ComparedClimbs(o, schema, p);
    DecidedByCloses(o, p);
  }

  /** What the projection accepts it accepts keyword by keyword. */
  lemma Opens(s: Setting, m: nat, d: Doc, v: Value)
    requires ProjectionClimbs(s) && s.x(m).accepts(d, v)
    ensures m > 0 && DocAccepts(s.o, s.proot, s.x(m - 1), d, v)
  {
    if m > 0 {
      assert s.x(m - 1 + 1).accepts(d, v) <==> DocAccepts(s.o, s.proot, s.x(m - 1), d, v);
    }
  }

  lemma EntryAccepted(s: Setting, m: nat, d: Doc, v: Value, key: Word)
    requires ProjectionClimbs(s) && s.x(m).accepts(d, v) && d.DDict? && Has(d.entries, key)
    ensures m > 0 && KeyAccepts(s.o, s.proot, s.x(m - 1), d.entries, Entry(key, Get(d.entries, key).value), v)
  {
    Opens(s, m, d, v);
    var i := IndexOf(d.entries, key);
    assert d.entries[i] == Entry(key, Get(d.entries, key).value);
  }

  // ---------------------------------------------------------------------------------------------
  // Branches no value can satisfy together

  function TypeWord(v: Value): Word {
    match v
    case Null => NullType
    case Bool(_) => BooleanType
    case Num(_) => NumberType
    case Str(_) => StringType
    case Arr(_) => ArrayType
    case Obj(_) => ObjectType
  }

  predicate ConstsApart(c: Doc, d: Doc) {
    && c.DDict? && d.DDict? && Has(c.entries, Const) && Has(d.entries, Const)
    && ToValue(Get(c.entries, Const).value) != ToValue(Get(d.entries, Const).value)
  }

  predicate ValuesApart(c: Doc, d: Doc) {
    TypesApart(c, d) || ConstsApart(c, d)
  }

  function PropertiesOf(d: Doc): seq<Entry> {
    if d.DDict? && Has(d.entries, Properties) && Get(d.entries, Properties).value.DDict?
    then Get(d.entries, Properties).value.entries else []
  }

  predicate Demands(d: Doc, key: Word) {
    && d.DDict? && Has(d.entries, Required) && Get(d.entries, Required).value.DList?
    && DStr(key) in Get(d.entries, Required).value.items
  }

  predicate IsObject(d: Doc) {
    d.DDict? && Has(d.entries, Type) && Get(d.entries, Type).value == DStr(ObjectType)
  }

  /** Objects told apart by a property that one of them demands. */
  predicate TagsApart(c: Doc, d: Doc) {
    && (IsObject(c) || IsObject(d))
    && exists i, j | 0 <= i < |PropertiesOf(c)| && 0 <= j < |PropertiesOf(d)| ::
         && PropertiesOf(c)[i].key == PropertiesOf(d)[j].key
         && (Demands(c, PropertiesOf(c)[i].key) || Demands(d, PropertiesOf(c)[i].key))
         && ValuesApart(PropertiesOf(c)[i].value, PropertiesOf(d)[j].value)
  }

  predicate Apart(c: Doc, d: Doc) {
    ValuesApart(c, d) || TagsApart(c, d)
  }

  predicate PairwiseApart(ds: seq<Doc>) {
    forall i, j | 0 <= i < j < |ds| :: Apart(ds[i], ds[j])
  }

  lemma {:induction false} TypesSound(s: Setting, m: nat, d: Doc, v: Value)
    requires ProjectionClimbs(s) && s.x(m).accepts(d, v) && AcceptedTypes(d).Some?
    ensures TypeWord(v) in AcceptedTypes(d).value
    decreases d
  {
    if Has(d.entries, Type) && Get(d.entries, Type).value.DStr? {
      EntryAccepted(s, m, d, v, Type);
    } else {
      EntryAccepted(s, m, d, v, OneOf);
      var union := d.entries[IndexOf(d.entries, OneOf)].value;
      var i :| 0 <= i < |union.items| && s.x(m - 1).accepts(union.items[i], v);
      TypesSound(s, m - 1, union.items[i], v);
    }
  }

  lemma ValuesApartSound(s: Setting, m: nat, c: Doc, d: Doc, v: Value)
    requires ProjectionClimbs(s) && ValuesApart(c, d) && s.x(m).accepts(c, v)
    ensures !s.x(m).accepts(d, v)
  {
    if s.x(m).accepts(d, v) {
      if TypesApart(c, d) {
        TypesSound(s, m, c, v);
        TypesSound(s, m, d, v);
      } else {
        EntryAccepted(s, m, c, v, Const);
        EntryAccepted(s, m, d, v, Const);
      }
    }
  }

  lemma ObjectAccepted(s: Setting, m: nat, d: Doc, v: Value)
    requires ProjectionClimbs(s) && s.x(m).accepts(d, v) && IsObject(d)
    ensures v.Obj?
  {
    EntryAccepted(s, m, d, v, Type);
  }

  lemma DemandMet(s: Setting, m: nat, d: Doc, v: Value, key: Word)
    requires ProjectionClimbs(s) && s.x(m).accepts(d, v) && Demands(d, key) && v.Obj?
    ensures key in v.fields
  {
    EntryAccepted(s, m, d, v, Required);
    var required := Get(d.entries, Required).value;
    var i :| 0 <= i < |required.items| && required.items[i] == DStr(key);
  }

  lemma PropertyAccepted(s: Setting, m: nat, d: Doc, v: Value, i: nat)
    requires ProjectionClimbs(s) && s.x(m).accepts(d, v) && v.Obj?
    requires i < |PropertiesOf(d)| && PropertiesOf(d)[i].key in v.fields
    ensures m > 0 && s.x(m - 1).accepts(PropertiesOf(d)[i].value, v.fields[PropertiesOf(d)[i].key])
  {
    EntryAccepted(s, m, d, v, Properties);
  }

  lemma TagApartAt(s: Setting, m: nat, c: Doc, d: Doc, v: Value, i: nat, j: nat)
    requires ProjectionClimbs(s) && s.x(m).accepts(c, v) && s.x(m).accepts(d, v) && v.Obj?
    requires i < |PropertiesOf(c)| && j < |PropertiesOf(d)| && PropertiesOf(c)[i].key == PropertiesOf(d)[j].key
    requires PropertiesOf(c)[i].key in v.fields
    ensures !ValuesApart(PropertiesOf(c)[i].value, PropertiesOf(d)[j].value)
  {
    PropertyAccepted(s, m, c, v, i);
    PropertyAccepted(s, m, d, v, j);
    if ValuesApart(PropertiesOf(c)[i].value, PropertiesOf(d)[j].value) {
      ValuesApartSound(s, m - 1, PropertiesOf(c)[i].value, PropertiesOf(d)[j].value, v.fields[PropertiesOf(c)[i].key]);
    }
  }

  lemma TagsApartSound(s: Setting, m: nat, c: Doc, d: Doc, v: Value)
    requires ProjectionClimbs(s) && s.x(m).accepts(c, v) && s.x(m).accepts(d, v)
    ensures !TagsApart(c, d)
  {
    if IsObject(c) || IsObject(d) {
      if IsObject(c) { ObjectAccepted(s, m, c, v); } else { ObjectAccepted(s, m, d, v); }
      forall i, j | 0 <= i < |PropertiesOf(c)| && 0 <= j < |PropertiesOf(d)|
                    && PropertiesOf(c)[i].key == PropertiesOf(d)[j].key
                    && (Demands(c, PropertiesOf(c)[i].key) || Demands(d, PropertiesOf(c)[i].key))
        ensures !ValuesApart(PropertiesOf(c)[i].value, PropertiesOf(d)[j].value)
      {
        var key := PropertiesOf(c)[i].key;
        if Demands(c, key) { DemandMet(s, m, c, v, key); } else { DemandMet(s, m, d, v, key); }
        TagApartAt(s, m, c, d, v, i, j);
      }
    }
  }

  /** No value satisfies two branches that are apart. */
  lemma ApartSound(s: Setting, m: nat, c: Doc, d: Doc, v: Value)
    requires ProjectionClimbs(s) && Apart(c, d) && s.x(m).accepts(c, v)
    ensures !s.x(m).accepts(d, v)
  {
    if s.x(m).accepts(d, v) {
      TagsApartSound(s, m, c, d, v);
      ValuesApartSound(s, m, c, d, v);
    }
  }

  /** Of decided branches pairwise apart, one that accepts is the only one. */
  lemma OneOfApart(s: Setting, m: nat, bs: seq<Doc>, k: nat, v: Value)
    requires ProjectionClimbs(s) && PairwiseApart(bs) && AllDecided(s.x(m), bs) && k < |bs| && s.x(m).accepts(bs[k], v)
    ensures OneAccepts(s.x(m), bs, v)
  {
    forall j | 0 <= j < |bs| && j != k ensures s.x(m).rejects(bs[j], v) {
      assert Decided(s.x(m), bs[j]);
      assert !s.x(m).accepts(bs[j], v) by {
        OtherBranch(s, m, bs, k, j, v);
      }
    }
  }

  lemma OtherBranch(s: Setting, m: nat, bs: seq<Doc>, k: nat, j: nat, v: Value)
    requires ProjectionClimbs(s) && PairwiseApart(bs) && k < |bs| && j < |bs| && j != k && s.x(m).accepts(bs[k], v)
    ensures !s.x(m).accepts(bs[j], v)
  {
    if j > k {
      ApartSound(s, m, bs[k], bs[j], v);
    } else if s.x(m).accepts(bs[j], v) {
      ApartSound(s, m, bs[j], bs[k], v);
    }
  }
}
