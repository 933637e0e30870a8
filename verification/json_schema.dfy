/** JSON documents and values, and the meaning of the JSON Schema keywords the tool projection knows.

    A schema is a document whose dictionaries keep their insertion order. Its meaning follows JSON Schema
    draft 2020-12 (Core sections 8.2.3.1, 10.2.1, 10.2.2 and 10.3, Validation section 6.1), with the value
    constraints such as `pattern` or `maximum`, and the matching of `patternProperties` keys, left to an
    oracle. References can be cyclic, so a verdict is defined as one that is reached within a number of
    unfoldings; Accepts and Rejects exclude each other and never change once reached.
 */
module JsonSchema {
  import opened Collections

  /** A JSON string. The words the projection treats specially are constructors of their own; `Pointer` is
      a local reference into the definitions, with its unescaped path. One path serves both the projection and
      JSON Schema, which agree on it unless the fragment is percent-encoded, which the projection does not decode,
      or leads below a subschema with an `$id` of its own; such references are assumed away. */
  datatype Word =
    | Title | Description | Default | Examples
    | Type | Required | Enum | Const
    | Properties | Items | AdditionalProperties | PatternProperties
    | AnyOf | OneOf | AllOf | If | Then | Else
    | Ref | Defs | Discriminator | PropertyName | Mapping
    | NullType | BooleanType | IntegerType | NumberType | StringType | ArrayType | ObjectType
    | Limit(name: string)
    | Pointer(text: string, path: seq<Word>)
    | Name(text: string)

  datatype Value =
    | Null
    | Bool(b: bool)
    | Num(n: real)
    | Str(s: Word)
    | Arr(elements: seq<Value>)
    | Obj(fields: map<Word, Value>)

  datatype Entry = Entry(key: Word, value: Doc)

  datatype Doc =
    | DNull
    | DBool(b: bool)
    | DNum(n: real)
    | DStr(s: Word)
    | DList(items: seq<Doc>)
    | DDict(entries: seq<Entry>)

  /** The instance value a document denotes, as enum and const need it. */
  function ToValue(d: Doc): Value {
    match d
    case DNull => Null
    case DBool(b) => Bool(b)
    case DNum(n) => Num(n)
    case DStr(s) => Str(s)
    case DList(items) => Arr(seq(|items|, i requires 0 <= i < |items| => ToValue(items[i])))
    case DDict(entries) => Obj(map k | k in KeySet(entries) :: ToValue(entries[IndexOf(entries, k)].value))
  }

  // ---------------------------------------------------------------------------------------------
  // Dictionaries

  predicate Has(entries: seq<Entry>, key: Word) {
    exists i | 0 <= i < |entries| :: entries[i].key == key
  }

  function KeySet(entries: seq<Entry>): (keys: set<Word>)
    ensures forall k :: k in keys <==> Has(entries, k)
  {
    set i | 0 <= i < |entries| :: entries[i].key
  }

  function IndexOf(entries: seq<Entry>, key: Word): (i: nat)
    requires Has(entries, key)
    ensures i < |entries| && entries[i].key == key
    ensures forall j | 0 <= j < i :: entries[j].key != key
  {
    if entries[0].key == key then 0 else 1 + IndexOf(entries[1..], key)
  }

  function Get(entries: seq<Entry>, key: Word): Option<Doc> {
    if Has(entries, key) then Some(entries[IndexOf(entries, key)].value) else None
  }

  /** Assignment to a dictionary: a known key keeps its place. */
  function Put(entries: seq<Entry>, e: Entry): seq<Entry> {
    if Has(entries, e.key) then entries[IndexOf(entries, e.key) := e] else entries + [e]
  }

  predicate UniqueKeys(entries: seq<Entry>) {
    forall i, j | 0 <= i < j < |entries| :: entries[i].key != entries[j].key
  }

  /** As every parsed document: no dictionary repeats a key. */
  predicate WellFormed(d: Doc) {
    match d
    case DList(items) => forall i | 0 <= i < |items| :: WellFormed(items[i])
    case DDict(entries) => UniqueKeys(entries) && forall i | 0 <= i < |entries| :: WellFormed(entries[i].value)
    case _ => true
  }

  /** Following a reference path through nested dictionaries. */
  function Resolve(d: Doc, path: seq<Word>): Option<Doc>
    decreases |path|
  {
    if path == [] then Some(d)
    else if !d.DDict? || !Has(d.entries, path[0]) then None
    else Resolve(Get(d.entries, path[0]).value, path[1..])
  }

  function Target(root: Doc, ref: Doc): Option<Doc> {
    if ref.DStr? && ref.s.Pointer? then Resolve(root, [Defs] + ref.s.path) else None
  }

  lemma {:induction false} ResolveWellFormed(d: Doc, path: seq<Word>)
    requires WellFormed(d) && Resolve(d, path).Some?
    ensures WellFormed(Resolve(d, path).value)
    decreases |path|
  {
    if path != [] {
      ResolveWellFormed(Get(d.entries, path[0]).value, path[1..]);
    }
  }

  // ---------------------------------------------------------------------------------------------
  // Assertions on a single value

  predicate HasType(name: Word, v: Value) {
    match name
    case NullType => v.Null?
    case BooleanType => v.Bool?
    case NumberType => v.Num?
    case IntegerType => v.Num? && v.n.Floor as real == v.n
    case StringType => v.Str?
    case ArrayType => v.Arr?
    case ObjectType => v.Obj?
    case _ => false
  }

  predicate TypeHolds(d: Doc, v: Value) {
    match d
    case DStr(name) => HasType(name, v)
    case DList(items) => exists i | 0 <= i < |items| :: items[i].DStr? && HasType(items[i].s, v)
    case _ => false
  }

  predicate RequiredHolds(d: Doc, v: Value) {
    d.DList? && (v.Obj? ==> forall i | 0 <= i < |d.items| :: d.items[i].DStr? && d.items[i].s in v.fields)
  }

  predicate EnumHolds(d: Doc, v: Value) {
    d.DList? && exists i | 0 <= i < |d.items| :: ToValue(d.items[i]) == v
  }

  /** The keywords whose meaning needs neither context nor subschemas. */
  predicate Plain(key: Word) {
    key.Type? || key.Required? || key.Enum? || key.Const?
  }

  predicate PlainHolds(key: Word, d: Doc, v: Value)
    requires Plain(key)
  {
    match key
    case Type => TypeHolds(d, v)
    case Required => RequiredHolds(d, v)
    case Enum => EnumHolds(d, v)
    case Const => ToValue(d) == v
  }

  predicate Annotation(key: Word) {
    key.Title? || key.Description? || key.Default? || key.Examples?
  }

  /** Keywords that assert nothing by themselves. */
  predicate Silent(key: Word) {
    Annotation(key) || key.Defs? || key.Discriminator? || key.Then? || key.Else?
  }

  /** The property names a schema declares; `additionalProperties` is about the others. */
  function PropNames(entries: seq<Entry>): set<Word> {
    set i, j | 0 <= i < |entries| && entries[i].key == Properties && entries[i].value.DDict?
               && 0 <= j < |entries[i].value.entries| :: entries[i].value.entries[j].key
  }

  datatype Oracle = Oracle(limit: (string, Doc, Value) -> bool, matches: (Word, Word) -> bool)

  predicate MatchesPattern(o: Oracle, entries: seq<Entry>, key: Word) {
    exists i, j | 0 <= i < |entries| && entries[i].key == PatternProperties && entries[i].value.DDict?
                  && 0 <= j < |entries[i].value.entries| :: o.matches(entries[i].value.entries[j].key, key)
  }

  // ---------------------------------------------------------------------------------------------
  // Verdicts

  /** The verdicts known about subschemas: what is found valid and what is found invalid. */
  datatype Verdicts = Verdicts(accepts: (Doc, Value) -> bool, rejects: (Doc, Value) -> bool)

  ghost predicate FieldsAccept(w: Verdicts, ps: seq<Entry>, v: Value) {
    v.Obj? ==> forall i | 0 <= i < |ps| && ps[i].key in v.fields :: w.accepts(ps[i].value, v.fields[ps[i].key])
  }

  ghost predicate FieldsReject(w: Verdicts, ps: seq<Entry>, v: Value) {
    v.Obj? && exists i | 0 <= i < |ps| && ps[i].key in v.fields :: w.rejects(ps[i].value, v.fields[ps[i].key])
  }

  ghost predicate ItemsAccept(w: Verdicts, d: Doc, v: Value) {
    v.Arr? ==> forall i | 0 <= i < |v.elements| :: w.accepts(d, v.elements[i])
  }

  ghost predicate ItemsReject(w: Verdicts, d: Doc, v: Value) {
    v.Arr? && exists i | 0 <= i < |v.elements| :: w.rejects(d, v.elements[i])
  }

  predicate Additional(o: Oracle, es: seq<Entry>, v: Value, k: Word)
    requires v.Obj?
  {
    k in v.fields && k !in PropNames(es) && !MatchesPattern(o, es, k)
  }

  ghost predicate OthersAccept(o: Oracle, w: Verdicts, es: seq<Entry>, d: Doc, v: Value) {
    v.Obj? ==> forall k | Additional(o, es, v, k) :: w.accepts(d, v.fields[k])
  }

  ghost predicate OthersReject(o: Oracle, w: Verdicts, es: seq<Entry>, d: Doc, v: Value) {
    v.Obj? && exists k | Additional(o, es, v, k) :: w.rejects(d, v.fields[k])
  }

  ghost predicate PatternsAccept(o: Oracle, w: Verdicts, ps: seq<Entry>, v: Value) {
    v.Obj? ==> forall i, k | 0 <= i < |ps| && k in v.fields && o.matches(ps[i].key, k) ::
                 w.accepts(ps[i].value, v.fields[k])
  }

  ghost predicate PatternsReject(o: Oracle, w: Verdicts, ps: seq<Entry>, v: Value) {
    v.Obj? && exists i, k | 0 <= i < |ps| && k in v.fields && o.matches(ps[i].key, k) ::
                 w.rejects(ps[i].value, v.fields[k])
  }

  ghost predicate SomeAccepts(w: Verdicts, bs: seq<Doc>, v: Value) {
    exists i | 0 <= i < |bs| :: w.accepts(bs[i], v)
  }

  ghost predicate SomeRejects(w: Verdicts, bs: seq<Doc>, v: Value) {
    exists i | 0 <= i < |bs| :: w.rejects(bs[i], v)
  }

  ghost predicate AllAccept(w: Verdicts, bs: seq<Doc>, v: Value) {
    forall i | 0 <= i < |bs| :: w.accepts(bs[i], v)
  }

  ghost predicate AllReject(w: Verdicts, bs: seq<Doc>, v: Value) {
    forall i | 0 <= i < |bs| :: w.rejects(bs[i], v)
  }

  ghost predicate OneAccepts(w: Verdicts, bs: seq<Doc>, v: Value) {
    exists i | 0 <= i < |bs| :: w.accepts(bs[i], v) && forall j | 0 <= j < |bs| && j != i :: w.rejects(bs[j], v)
  }

  ghost predicate TwoAccept(w: Verdicts, bs: seq<Doc>, v: Value) {
    exists i, j | 0 <= i < j < |bs| :: w.accepts(bs[i], v) && w.accepts(bs[j], v)
  }

  ghost predicate BranchAccepts(w: Verdicts, es: seq<Entry>, branch: Word, v: Value) {
    Has(es, branch) ==> w.accepts(Get(es, branch).value, v)
  }

  ghost predicate BranchRejects(w: Verdicts, es: seq<Entry>, branch: Word, v: Value) {
    Has(es, branch) && w.rejects(Get(es, branch).value, v)
  }

  /** Keyword e of schema es finds v valid, the subschemas being judged by w. */
  ghost predicate KeyAccepts(o: Oracle, root: Doc, w: Verdicts, es: seq<Entry>, e: Entry, v: Value) {
    if Plain(e.key) then PlainHolds(e.key, e.value, v)
    else if Silent(e.key) then true
    else match e.key
      case Ref => Target(root, e.value).Some? && w.accepts(Target(root, e.value).value, v)
      case Properties => e.value.DDict? && FieldsAccept(w, e.value.entries, v)
      case Items => ItemsAccept(w, e.value, v)
      case AdditionalProperties => OthersAccept(o, w, es, e.value, v)
      case PatternProperties => e.value.DDict? && PatternsAccept(o, w, e.value.entries, v)
      case AnyOf => e.value.DList? && SomeAccepts(w, e.value.items, v)
      case OneOf => e.value.DList? && OneAccepts(w, e.value.items, v)
      case AllOf => e.value.DList? && AllAccept(w, e.value.items, v)
      case If =>
        || (w.accepts(e.value, v) && BranchAccepts(w, es, Then, v))
        || (w.rejects(e.value, v) && BranchAccepts(w, es, Else, v))
      case Limit(name) => o.limit(name, e.value, v)
      case _ => false
  }

  ghost predicate KeyRejects(o: Oracle, root: Doc, w: Verdicts, es: seq<Entry>, e: Entry, v: Value) {
    if Plain(e.key) then !PlainHolds(e.key, e.value, v)
    else if Silent(e.key) then false
    else match e.key
      case Ref => Target(root, e.value).Some? && w.rejects(Target(root, e.value).value, v)
      case Properties => !e.value.DDict? || FieldsReject(w, e.value.entries, v)
      case Items => ItemsReject(w, e.value, v)
      case AdditionalProperties => OthersReject(o, w, es, e.value, v)
      case PatternProperties => !e.value.DDict? || PatternsReject(o, w, e.value.entries, v)
      case AnyOf => !e.value.DList? || AllReject(w, e.value.items, v)
      case OneOf => !e.value.DList? || AllReject(w, e.value.items, v) || TwoAccept(w, e.value.items, v)
      case AllOf => !e.value.DList? || SomeRejects(w, e.value.items, v)
      case If =>
        || (w.accepts(e.value, v) && BranchRejects(w, es, Then, v))
        || (w.rejects(e.value, v) && BranchRejects(w, es, Else, v))
      case Limit(name) => !o.limit(name, e.value, v)
      case _ => false
  }

  ghost predicate DocAccepts(o: Oracle, root: Doc, w: Verdicts, d: Doc, v: Value) {
    match d
    case DBool(b) => b
    case DDict(es) => forall i | 0 <= i < |es| :: KeyAccepts(o, root, w, es, es[i], v)
    case _ => false
  }

  ghost predicate DocRejects(o: Oracle, root: Doc, w: Verdicts, d: Doc, v: Value) {
    match d
    case DBool(b) => !b
    case DDict(es) => exists i | 0 <= i < |es| :: KeyRejects(o, root, w, es, es[i], v)
    case _ => true
  }

  ghost function Unfold(o: Oracle, root: Doc, w: Verdicts): Verdicts {
    Verdicts((d, v) => DocAccepts(o, root, w, d, v), (d, v) => DocRejects(o, root, w, d, v))
  }

  /** The verdicts reached within n unfoldings. */
  ghost function Level(o: Oracle, root: Doc, n: nat): Verdicts {
    if n == 0 then Verdicts((d, v) => false, (d, v) => false) else Unfold(o, root, Level(o, root, n - 1))
  }

  ghost predicate Accepts(o: Oracle, root: Doc, d: Doc, v: Value, n: nat) {
    Level(o, root, n).accepts(d, v)
  }

  ghost predicate Rejects(o: Oracle, root: Doc, d: Doc, v: Value, n: nat) {
    Level(o, root, n).rejects(d, v)
  }

  // ---------------------------------------------------------------------------------------------
  // Verdicts exclude each other and stay

  ghost predicate Consistent(w: Verdicts) {
    forall d, v :: !(w.accepts(d, v) && w.rejects(d, v))
  }

  ghost predicate Below(w: Verdicts, x: Verdicts) {
    && (forall d, v | w.accepts(d, v) :: x.accepts(d, v))
    && (forall d, v | w.rejects(d, v) :: x.rejects(d, v))
  }

  lemma PartsConsistent(o: Oracle, w: Verdicts, es: seq<Entry>, d: Doc, ps: seq<Entry>, v: Value)
    requires Consistent(w)
    ensures !(FieldsAccept(w, ps, v) && FieldsReject(w, ps, v))
    ensures !(ItemsAccept(w, d, v) && ItemsReject(w, d, v))
    ensures !(OthersAccept(o, w, es, d, v) && OthersReject(o, w, es, d, v))
    ensures !(PatternsAccept(o, w, ps, v) && PatternsReject(o, w, ps, v))
  {
  }

  lemma BranchesConsistent(w: Verdicts, bs: seq<Doc>, v: Value)
    requires Consistent(w)
    ensures !(SomeAccepts(w, bs, v) && AllReject(w, bs, v))
    ensures !(AllAccept(w, bs, v) && SomeRejects(w, bs, v))
  {
  }

  lemma OneConsistent(w: Verdicts, bs: seq<Doc>, v: Value)
    requires Consistent(w) && OneAccepts(w, bs, v)
    ensures !AllReject(w, bs, v) && !TwoAccept(w, bs, v)
  {
    var i :| 0 <= i < |bs| && w.accepts(bs[i], v) && forall j | 0 <= j < |bs| && j != i :: w.rejects(bs[j], v);
    assert !w.rejects(bs[i], v);
    forall j | 0 <= j < |bs| && j != i ensures !w.accepts(bs[j], v) {
      assert w.rejects(bs[j], v);
    }
  }

  predicate BranchKey(key: Word) {
    key.AnyOf? || key.OneOf? || key.AllOf?
  }

  lemma BranchKeyConsistent(o: Oracle, root: Doc, w: Verdicts, es: seq<Entry>, e: Entry, v: Value)
    requires Consistent(w) && BranchKey(e.key)
    ensures !(KeyAccepts(o, root, w, es, e, v) && KeyRejects(o, root, w, es, e, v))
  {
    if e.value.DList? {
      BranchesConsistent(w, e.value.items, v);
      if OneAccepts(w, e.value.items, v) {
        OneConsistent(w, e.value.items, v);
      }
    }
  }

  lemma KeyConsistent(o: Oracle, root: Doc, w: Verdicts, es: seq<Entry>, e: Entry, v: Value)
    requires Consistent(w)
    ensures !(KeyAccepts(o, root, w, es, e, v) && KeyRejects(o, root, w, es, e, v))
  {
    if BranchKey(e.key) {
      BranchKeyConsistent(o, root, w, es, e, v);
    } else {
      PartsConsistent(o, w, es, e.value, if e.value.DDict? then e.value.entries else [], v);
    }
  }

  lemma UnfoldConsistent(o: Oracle, root: Doc, w: Verdicts)
    requires Consistent(w)
    ensures Consistent(Unfold(o, root, w))
  {
    forall d, v ensures !(DocAccepts(o, root, w, d, v) && DocRejects(o, root, w, d, v)) {
      if d.DDict? {
        forall i | 0 <= i < |d.entries|
          ensures !(KeyAccepts(o, root, w, d.entries, d.entries[i], v)
              && KeyRejects(o, root, w, d.entries, d.entries[i], v)) {
          KeyConsistent(o, root, w, d.entries, d.entries[i], v);
        }
      }
    }
  }

  lemma BranchesMonotone(w: Verdicts, x: Verdicts, bs: seq<Doc>, v: Value)
    requires Below(w, x)
    ensures SomeAccepts(w, bs, v) ==> SomeAccepts(x, bs, v)
    ensures SomeRejects(w, bs, v) ==> SomeRejects(x, bs, v)
    ensures AllAccept(w, bs, v) ==> AllAccept(x, bs, v)
    ensures AllReject(w, bs, v) ==> AllReject(x, bs, v)
  {
  }

  lemma OneMonotone(w: Verdicts, x: Verdicts, bs: seq<Doc>, v: Value)
    requires Below(w, x)
    ensures OneAccepts(w, bs, v) ==> OneAccepts(x, bs, v)
    ensures TwoAccept(w, bs, v) ==> TwoAccept(x, bs, v)
  {
    if OneAccepts(w, bs, v) {
      var i :| 0 <= i < |bs| && w.accepts(bs[i], v) && forall j | 0 <= j < |bs| && j != i :: w.rejects(bs[j], v);
      assert x.accepts(bs[i], v);
    }
    if TwoAccept(w, bs, v) {
      var i, j :| 0 <= i < j < |bs| && w.accepts(bs[i], v) && w.accepts(bs[j], v);
      assert x.accepts(bs[i], v) && x.accepts(bs[j], v);
    }
  }

  lemma OneOfAccepts(o: Oracle, root: Doc, w: Verdicts, x: Verdicts, es: seq<Entry>, e: Entry, v: Value)
    requires Below(w, x) && e.key.OneOf? && e.value.DList? && KeyAccepts(o, root, w, es, e, v)
    ensures KeyAccepts(o, root, x, es, e, v)
  {
    OneMonotone(w, x, e.value.items, v);
  }

  lemma OneOfRejects(o: Oracle, root: Doc, w: Verdicts, x: Verdicts, es: seq<Entry>, e: Entry, v: Value)
    requires Below(w, x) && e.key.OneOf? && e.value.DList? && KeyRejects(o, root, w, es, e, v)
    ensures KeyRejects(o, root, x, es, e, v)
  {
    OneMonotone(w, x, e.value.items, v);
    assert AllReject(w, e.value.items, v) ==> AllReject(x, e.value.items, v) by {
      BranchesMonotone(w, x, e.value.items, v);
    }
  }

  lemma OneOfMonotone(o: Oracle, root: Doc, w: Verdicts, x: Verdicts, es: seq<Entry>, e: Entry, v: Value)
    requires Below(w, x) && e.key.OneOf? && e.value.DList?
    ensures KeyAccepts(o, root, w, es, e, v) ==> KeyAccepts(o, root, x, es, e, v)
    ensures KeyRejects(o, root, w, es, e, v) ==> KeyRejects(o, root, x, es, e, v)
  {
    if KeyAccepts(o, root, w, es, e, v) {
      OneOfAccepts(o, root, w, x, es, e, v);
    }
    if KeyRejects(o, root, w, es, e, v) {
      OneOfRejects(o, root, w, x, es, e, v);
    }
  }

  lemma AnyAllMonotone(o: Oracle, root: Doc, w: Verdicts, x: Verdicts, es: seq<Entry>, e: Entry, v: Value)
    requires Below(w, x) && (e.key.AnyOf? || e.key.AllOf?)
    ensures KeyAccepts(o, root, w, es, e, v) ==> KeyAccepts(o, root, x, es, e, v)
    ensures KeyRejects(o, root, w, es, e, v) ==> KeyRejects(o, root, x, es, e, v)
  {
    if e.value.DList? {
      BranchesMonotone(w, x, e.value.items, v);
    }
  }

  predicate ObjectKey(key: Word) {
    key.Properties? || key.AdditionalProperties? || key.PatternProperties?
  }

  lemma ObjectKeyMonotone(o: Oracle, root: Doc, w: Verdicts, x: Verdicts, es: seq<Entry>, e: Entry, v: Value)
    requires Below(w, x) && ObjectKey(e.key)
    ensures KeyAccepts(o, root, w, es, e, v) ==> KeyAccepts(o, root, x, es, e, v)
    ensures KeyRejects(o, root, w, es, e, v) ==> KeyRejects(o, root, x, es, e, v)
  {
  }

  lemma OtherKeyMonotone(o: Oracle, root: Doc, w: Verdicts, x: Verdicts, es: seq<Entry>, e: Entry, v: Value)
    requires Below(w, x) && !BranchKey(e.key) && !ObjectKey(e.key)
    ensures KeyAccepts(o, root, w, es, e, v) ==> KeyAccepts(o, root, x, es, e, v)
    ensures KeyRejects(o, root, w, es, e, v) ==> KeyRejects(o, root, x, es, e, v)
  {
  }

  lemma KeyMonotone(o: Oracle, root: Doc, w: Verdicts, x: Verdicts, es: seq<Entry>, e: Entry, v: Value)
    requires Below(w, x)
    ensures KeyAccepts(o, root, w, es, e, v) ==> KeyAccepts(o, root, x, es, e, v)
    ensures KeyRejects(o, root, w, es, e, v) ==> KeyRejects(o, root, x, es, e, v)
  {
    if e.key.OneOf? { if e.value.DList? { OneOfMonotone(o, root, w, x, es, e, v); } }
    else if BranchKey(e.key) { AnyAllMonotone(o, root, w, x, es, e, v); }
    else if ObjectKey(e.key) { ObjectKeyMonotone(o, root, w, x, es, e, v); }
    else { OtherKeyMonotone(o, root, w, x, es, e, v); }
  }

  lemma UnfoldMonotone(o: Oracle, root: Doc, w: Verdicts, x: Verdicts)
    requires Below(w, x)
    ensures Below(Unfold(o, root, w), Unfold(o, root, x))
  {
    forall d, v
      ensures DocAccepts(o, root, w, d, v) ==> DocAccepts(o, root, x, d, v)
      ensures DocRejects(o, root, w, d, v) ==> DocRejects(o, root, x, d, v)
    {
      if d.DDict? {
        forall i | 0 <= i < |d.entries|
          ensures KeyAccepts(o, root, w, d.entries, d.entries[i], v)
              ==> KeyAccepts(o, root, x, d.entries, d.entries[i], v)
          ensures KeyRejects(o, root, w, d.entries, d.entries[i], v)
              ==> KeyRejects(o, root, x, d.entries, d.entries[i], v) {
          KeyMonotone(o, root, w, x, d.entries, d.entries[i], v);
        }
      }
    }
  }

  lemma {:induction false} LevelConsistent(o: Oracle, root: Doc, n: nat)
    ensures Consistent(Level(o, root, n))
  {
    if n > 0 {
      LevelConsistent(o, root, n - 1);
      UnfoldConsistent(o, root, Level(o, root, n - 1));
    }
  }

  lemma {:induction false} LevelGrows(o: Oracle, root: Doc, n: nat)
    ensures Below(Level(o, root, n), Level(o, root, n + 1))
  {
    if n > 0 {
      LevelGrows(o, root, n - 1);
      UnfoldMonotone(o, root, Level(o, root, n - 1), Level(o, root, n));
    }
  }

  lemma BelowTransitive(w: Verdicts, x: Verdicts, y: Verdicts)
    requires Below(w, x) && Below(x, y)
    ensures Below(w, y)
  {
  }

  lemma {:induction false} ChainBelow(x: nat -> Verdicts, n: nat, m: nat)
    requires n <= m && forall k: nat :: Below(x(k), x(k + 1))
    ensures Below(x(n), x(m))
    decreases m
  {
    if n < m {
      ChainBelow(x, n, m - 1);
      assert Below(x(m - 1), x(m - 1 + 1));
      BelowTransitive(x(n), x(m - 1), x(m));
    }
  }

  lemma LevelMonotone(o: Oracle, root: Doc, n: nat, m: nat)
    requires n <= m
    ensures Below(Level(o, root, n), Level(o, root, m))
  {
    var x := (k: nat) => Level(o, root, k);
    forall k: nat ensures Below(x(k), x(k + 1)) {
      LevelGrows(o, root, k);
    }
    ChainBelow(x, n, m);
  }

  /** However far two evaluations unfold, they do not contradict each other. */
  lemma VerdictsExclude(o: Oracle, root: Doc, d: Doc, v: Value, n: nat, m: nat)
    ensures !(Accepts(o, root, d, v, n) && Rejects(o, root, d, v, m))
  {
    var top := if n < m then m else n;
    LevelMonotone(o, root, n, top);
    LevelMonotone(o, root, m, top);
    LevelConsistent(o, root, top);
  }
}
