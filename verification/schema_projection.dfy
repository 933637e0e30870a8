/** The projection of a tool's JSON Schema into the weaker dialect one client understands.

    References are expanded, `anyOf` becomes `oneOf`, and what the client does not know is dropped, under
    a budget of visits. The functions here say what a projection returns; SchemaProjector computes it.
 */
module SchemaProjection {
  import opened Collections
  import opened JsonSchema

  const BUDGET: nat := 4096

  datatype Visited = Failed | Done(doc: Doc, budget: nat)
  datatype VisitedAll = FailedAll | DoneAll(docs: seq<Doc>, budget: nat)
  datatype VisitedEntry = FailedEntry | DoneEntry(put: Option<Entry>, note: bool, budget: nat)
  datatype VisitedEntries = FailedEntries | DoneEntries(puts: seq<Option<Entry>>, notes: bool, budget: nat)

  /** Keywords copied as they stand. */
  predicate Copied(key: Word) {
    Annotation(key) || Plain(key)
  }

  function Values(entries: seq<Entry>): (r: seq<Doc>)
    ensures |r| == |entries| && forall i | 0 <= i < |r| :: r[i] == entries[i].value
  {
    seq(|entries|, i requires 0 <= i < |entries| => entries[i].value)
  }

  /** The entries with new values. */
  function Rekey(entries: seq<Entry>, docs: seq<Doc>): (r: seq<Entry>)
    requires |docs| == |entries|
    ensures |r| == |entries| && forall i | 0 <= i < |r| :: r[i] == Entry(entries[i].key, docs[i])
  {
    seq(|entries|, i requires 0 <= i < |entries| => Entry(entries[i].key, docs[i]))
  }

  function RefTo(d: Doc): Doc {
    DDict([Entry(Ref, d)])
  }

  predicate DiscriminatorAccepted(d: Doc) {
    && d.DDict?
    && (forall i | 0 <= i < |d.entries| :: d.entries[i].key.PropertyName? || d.entries[i].key.Mapping?)
    && Has(d.entries, PropertyName) && Get(d.entries, PropertyName).value.DStr?
    && (Has(d.entries, Mapping) ==> Get(d.entries, Mapping).value.DDict?)
  }

  function MappingTargets(d: Doc): seq<Doc>
    requires DiscriminatorAccepted(d)
  {
    if Has(d.entries, Mapping) then
      var values := Values(Get(d.entries, Mapping).value.entries);
      seq(|values|, i requires 0 <= i < |values| => RefTo(values[i]))
    else []
  }

  /** The subschemas a keyword sends the visitor to; None if the keyword is not supported. */
  function SubDocs(e: Entry): Option<seq<Doc>> {
    if Copied(e.key) then Some([])
    else match e.key
      case Properties => if e.value.DDict? then Some(Values(e.value.entries)) else None
      case Items => Some(if e.value.DDict? then [e.value] else [])
      case AdditionalProperties => Some(if e.value.DDict? then [e.value] else [])
      case AnyOf => if e.value.DList? then Some(e.value.items) else None
      case OneOf => if e.value.DList? then Some(e.value.items) else None
      case AllOf => if e.value.DList? then Some(e.value.items) else None
      case If => Some([e.value])
      case Then => Some([e.value])
      case Else => Some([e.value])
      case PatternProperties => if e.value.DDict? then Some(Values(e.value.entries)) else None
      case Discriminator => if DiscriminatorAccepted(e.value) then Some(MappingTargets(e.value)) else None
      case Defs => Some([])
      case Limit(_) => Some([])
      case _ => None
  }

  // ---------------------------------------------------------------------------------------------
  // Unions

  /** The JSON types a projected schema admits, when it says so; integers count as numbers. */
  function AcceptedTypes(d: Doc): Option<set<Word>>
    decreases d, 1
  {
    if !d.DDict? then None
    else if Has(d.entries, Type) && Get(d.entries, Type).value.DStr? then
      var name := Get(d.entries, Type).value.s;
      Some({if name.IntegerType? then NumberType else name})
    else if Has(d.entries, OneOf) then
      var i := IndexOf(d.entries, OneOf);
      if d.entries[i].value.DList? then UnionOfTypes(d.entries[i].value) else None
    else None
  }

  function UnionOfTypes(d: Doc): Option<set<Word>>
    requires d.DList?
    decreases d, 0
  {
    if forall i | 0 <= i < |d.items| :: AcceptedTypes(d.items[i]).Some?
    then Some(set i, t | 0 <= i < |d.items| && t in AcceptedTypes(d.items[i]).value :: t)
    else None
  }

  predicate IsInteger(d: Doc) {
    d.DDict? && Has(d.entries, Type) && Get(d.entries, Type).value == DStr(IntegerType)
  }

  /** A number branch without any constraint. */
  predicate PlainNumber(d: Doc) {
    && d.DDict? && Has(d.entries, Type) && Get(d.entries, Type).value == DStr(NumberType)
    && (forall i | 0 <= i < |d.entries| :: d.entries[i].key.Type? || Annotation(d.entries[i].key))
  }

  function WithoutIntegers(docs: seq<Doc>): seq<Doc> {
    if docs == [] then []
    else (if IsInteger(docs[0]) then [] else [docs[0]]) + WithoutIntegers(docs[1..])
  }

  /** An unconstrained number branch absorbs the integer branches. */
  function Absorb(originals: seq<Doc>, projected: seq<Doc>): seq<Doc> {
    if exists i | 0 <= i < |originals| :: PlainNumber(originals[i]) then WithoutIntegers(projected) else projected
  }

  predicate TypesApart(c: Doc, d: Doc) {
    && AcceptedTypes(c).Some? && AcceptedTypes(d).Some?
    && AcceptedTypes(c).value !! AcceptedTypes(d).value
  }

  predicate DisjointBranches(branches: seq<Doc>) {
    && (forall i | 0 <= i < |branches| :: AcceptedTypes(branches[i]).Some?)
    && (forall i, j | 0 <= i < j < |branches| :: TypesApart(branches[i], branches[j]))
  }

  /** What a keyword contributes to the projected dictionary; None if the union cannot be converted. */
  function Output(e: Entry, docs: seq<Doc>): Option<Option<Entry>>
    requires SubDocs(e).Some? && |docs| == |SubDocs(e).value|
  {
    if Copied(e.key) then Some(Some(e))
    else match e.key
      case Properties => Some(Some(Entry(Properties, DDict(Rekey(e.value.entries, docs)))))
      case Items => Some(Some(if e.value.DDict? then Entry(Items, docs[0]) else e))
      case AdditionalProperties => Some(Some(if e.value.DDict? then Entry(AdditionalProperties, docs[0]) else e))
      case OneOf => Some(Some(Entry(OneOf, DList(docs))))
      case AnyOf =>
        var branches := Absorb(e.value.items, docs);
        if DisjointBranches(branches) then Some(Some(Entry(OneOf, DList(branches)))) else None
      case _ => Some(None)
  }

  /** Keywords that leave a note in the description. */
  predicate Noted(e: Entry) {
    || e.key.AllOf? || e.key.If? || e.key.Then? || e.key.Else? || e.key.Limit?
    || (e.key.PatternProperties? && e.value.DDict? && e.value.entries != [])
  }

  // ---------------------------------------------------------------------------------------------
  // Visiting

  function WithoutRef(entries: seq<Entry>): seq<Entry> {
    if entries == [] then []
    else (if entries[0].key == Ref then [] else [entries[0]]) + WithoutRef(entries[1..])
  }

  /** Dictionary union: the entries of `over` on top of those of `base`. */
  function Merge(base: seq<Entry>, over: seq<Entry>): seq<Entry>
    decreases |over|
  {
    if over == [] then base
    else Put(Merge(base, over[..|over| - 1]), over[|over| - 1])
  }

  /** A sibling of a reference may repeat a keyword of the target only if it is an annotation. */
  predicate Overlap(target: seq<Entry>, siblings: seq<Entry>) {
    exists i | 0 <= i < |siblings| :: Has(target, siblings[i].key) && !Annotation(siblings[i].key)
  }

  /** The schema a node with a reference stands for; None if the reference is not supported. */
  function Expansion(root: Doc, entries: seq<Entry>, refs: seq<Word>): Option<Doc>
    requires Has(entries, Ref)
  {
    var ref := Get(entries, Ref).value;
    if !ref.DStr? || !ref.s.Pointer? || ref.s in refs then None
    else match Target(root, ref)
      case None => None
      case Some(target) =>
        var siblings := WithoutRef(entries);
        if !target.DDict? || Overlap(target.entries, siblings) then None
        else Some(DDict(Merge(target.entries, siblings)))
  }

  function Assemble(puts: seq<Option<Entry>>): seq<Entry>
    decreases |puts|
  {
    if puts == [] then []
    else match puts[|puts| - 1]
      case None => Assemble(puts[..|puts| - 1])
      case Some(e) => Put(Assemble(puts[..|puts| - 1]), e)
  }

  /** The projected dictionary: pattern keys must not be refused as additional, and dropped constraints are
      mentioned in the description. */
  function Finish(entries: seq<Entry>, puts: seq<Option<Entry>>, notes: bool): seq<Entry> {
    var result := Assemble(puts);
    var open := if Has(entries, PatternProperties)
                then Put(result, Entry(AdditionalProperties, DBool(true))) else result;
    if notes then Put(open, Entry(Description, DStr(Name("constraints checked on call")))) else open
  }

  function Visit(root: Doc, node: Doc, refs: seq<Word>, budget: nat): (r: Visited)
    ensures r.Done? ==> r.budget < budget
    decreases budget, 0, 0
  {
    if budget == 0 || |refs| > 32 || !node.DDict? then Failed
    else if Has(node.entries, Ref) then
      match Expansion(root, node.entries, refs)
      case None => Failed
      case Some(merged) => Visit(root, merged, refs + [Get(node.entries, Ref).value.s], budget - 1)
    else
      match VisitEntries(root, node.entries, refs, budget - 1)
      case FailedEntries => Failed
      case DoneEntries(puts, notes, left) => Done(DDict(Finish(node.entries, puts, notes)), left)
  }

  function VisitAll(root: Doc, docs: seq<Doc>, refs: seq<Word>, budget: nat): (r: VisitedAll)
    ensures r.DoneAll? ==> r.budget <= budget && |r.docs| == |docs|
    decreases budget, 1, |docs|
  {
    if docs == [] then DoneAll([], budget)
    else
      match Visit(root, docs[0], refs, budget)
      case Failed => FailedAll
      case Done(first, left) =>
        match VisitAll(root, docs[1..], refs, left)
        case FailedAll => FailedAll
        case DoneAll(rest, last) => DoneAll([first] + rest, last)
  }

  function VisitEntry(root: Doc, e: Entry, refs: seq<Word>, budget: nat): (r: VisitedEntry)
    ensures r.DoneEntry? ==> r.budget <= budget
    decreases budget, 2, 0
  {
    match SubDocs(e)
    case None => FailedEntry
    case Some(docs) =>
      match VisitAll(root, docs, refs, budget)
      case FailedAll => FailedEntry
      case DoneAll(projected, left) =>
        match Output(e, projected)
        case None => FailedEntry
        case Some(put) => DoneEntry(put, Noted(e), left)
  }

  function VisitEntries(root: Doc, entries: seq<Entry>, refs: seq<Word>, budget: nat): (r: VisitedEntries)
    ensures r.DoneEntries? ==> r.budget <= budget && |r.puts| == |entries|
    decreases budget, 3, |entries|
  {
    if entries == [] then DoneEntries([], false, budget)
    else
      match VisitEntry(root, entries[0], refs, budget)
      case FailedEntry => FailedEntries
      case DoneEntry(put, note, left) =>
        match VisitEntries(root, entries[1..], refs, left)
        case FailedEntries => FailedEntries
        case DoneEntries(puts, notes, last) => DoneEntries([put] + puts, note || notes, last)
  }

  /** The projection of a whole schema within a number of visits. */
  function ProjectWithin(schema: Doc, budget: nat): Option<Doc> {
    match Visit(schema, schema, [], budget)
    case Failed => None
    case Done(doc, _) => Some(doc)
  }

  function Project(schema: Doc): Option<Doc> {
    ProjectWithin(schema, BUDGET)
  }

  // ---------------------------------------------------------------------------------------------
  // The visitor

  class SchemaProjector {
    const schema: Doc
    var budget: nat

    constructor (schema: Doc)
      ensures this.schema == schema && budget == BUDGET
    {
      this.schema := schema;
      budget := BUDGET;
    }

    method ProjectSchema() returns (r: Option<Doc>)
      requires budget == BUDGET
      modifies this`budget
      ensures r == Project(schema)
    {
      r := VisitNode(schema, []);
    }

    method VisitNode(node: Doc, refs: seq<Word>) returns (r: Option<Doc>)
      modifies this`budget
      ensures r == (match Visit(schema, node, refs, old(budget)) case Failed => None case Done(doc, _) => Some(doc))
      ensures r.Some? ==> budget == Visit(schema, node, refs, old(budget)).budget
      decreases budget, 0, 0
    {
      if budget == 0 || |refs| > 32 || !node.DDict? {
        return None;
      }
      budget := budget - 1;
      if Has(node.entries, Ref) {
        var merged := Expansion(schema, node.entries, refs);
        if merged.None? {
          return None;
        }
        r := VisitNode(merged.value, refs + [Get(node.entries, Ref).value.s]);
        return;
      }
      r := VisitKeywords(node.entries, refs);
    }

    /** The loop over the keywords of a node, filling the projected dictionary. */
    method VisitKeywords(entries: seq<Entry>, refs: seq<Word>) returns (r: Option<Doc>)
      modifies this`budget
      ensures r == (match VisitEntries(schema, entries, refs, old(budget))
                    case FailedEntries => None
                    case DoneEntries(puts, notes, _) => Some(DDict(Finish(entries, puts, notes))))
      ensures r.Some? ==> budget == VisitEntries(schema, entries, refs, old(budget)).budget
      decreases budget, 3, 0
    {
      var result: seq<Entry>, notes := [], false;
      ghost var puts: seq<Option<Entry>> := [];
      ghost var whole := VisitEntries(schema, entries, refs, budget);
      for i := 0 to |entries|
        invariant budget <= old(budget)
        invariant |puts| == i && result == Assemble(puts)
        invariant Resumes(whole, puts, notes, VisitEntries(schema, entries[i..], refs, budget))
      {
        var put, note;
        assert entries[i..] == [entries[i]] + entries[i + 1..];
        ResumeNext(schema, whole, puts, notes, entries[i], entries[i + 1..], refs, budget);
        r, put, note := VisitKeyword(entries[i], refs);
        if r.None? {
          return;
        }
        if put.Some? {
          result := Put(result, put.value);
        }
        notes := notes || note;
        puts := puts + [put];
        assert puts[..i] + [put] == puts;
      }
      assert entries[|entries|..] == [] && puts + [] == puts;
      assert whole == DoneEntries(puts, notes, budget);
      if Has(entries, PatternProperties) {
        result := Put(result, Entry(AdditionalProperties, DBool(true)));
      }
      if notes {
        result := Put(result, Entry(Description, DStr(Name("constraints checked on call"))));
      }
      return Some(DDict(result));
    }

    /** One keyword: what it puts into the dictionary, and whether it leaves a note. */
    method VisitKeyword(e: Entry, refs: seq<Word>) returns (r: Option<Doc>, put: Option<Entry>, note: bool)
      modifies this`budget
      ensures VisitEntry(schema, e, refs, old(budget))
           == if r.None? then FailedEntry else DoneEntry(put, note, budget)
      decreases budget, 2, 0
    {
      r, put, note := None, None, Noted(e);
      var docs := SubDocs(e);
      if docs.None? {
        return;
      }
      var projected := VisitList(docs.value, refs);
      if projected.None? {
        return;
      }
      var output := Output(e, projected.value);
      if output.None? {
        return;
      }
      r, put := Some(e.value), output.value;
    }

    method VisitList(docs: seq<Doc>, refs: seq<Word>) returns (r: Option<seq<Doc>>)
      modifies this`budget
      ensures r == (match VisitAll(schema, docs, refs, old(budget))
                    case FailedAll => None
                    case DoneAll(ds, _) => Some(ds))
      ensures r.Some? ==> budget == VisitAll(schema, docs, refs, old(budget)).budget
      decreases budget, 1, |docs|
    {
      if docs == [] {
        return Some([]);
      }
      var first := VisitNode(docs[0], refs);
      if first.None? {
        return None;
      }
      var rest := VisitList(docs[1..], refs);
      if rest.None? {
        return None;
      }
      return Some([first.value] + rest.value);
    }
  }

  /** The whole traversal is what has been put so far, followed by what the rest yields. */
  ghost predicate Resumes(whole: VisitedEntries, puts: seq<Option<Entry>>, notes: bool, rest: VisitedEntries) {
    whole == match rest
             case FailedEntries => FailedEntries
             case DoneEntries(more, moreNotes, left) => DoneEntries(puts + more, notes || moreNotes, left)
  }

  lemma ResumeNext(root: Doc, whole: VisitedEntries, puts: seq<Option<Entry>>, notes: bool, e: Entry, rest: seq<Entry>,
                   refs: seq<Word>, budget: nat)
    requires Resumes(whole, puts, notes, VisitEntries(root, [e] + rest, refs, budget))
    ensures var head := VisitEntry(root, e, refs, budget);
            if head.FailedEntry? then whole == FailedEntries
            else Resumes(whole, puts + [head.put], notes || head.note, VisitEntries(root, rest, refs, head.budget))
  {
    assert ([e] + rest)[1..] == rest;
    var head := VisitEntry(root, e, refs, budget);
    if head.DoneEntry? {
      var tail := VisitEntries(root, rest, refs, head.budget);
      if tail.DoneEntries? {
        assert puts + ([head.put] + tail.puts) == (puts + [head.put]) + tail.puts;
      }
    }
  }
}
