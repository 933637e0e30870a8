/** What survives the dictionary operations of the projection: assignment, merging and assembling.
 */
module SchemaDictionaries {
  import opened Collections
  import opened JsonSchema
  import opened SchemaProjection

  lemma InGivesHas(entries: seq<Entry>, e: Entry)
    requires e in entries
    ensures Has(entries, e.key)
  {
  }

  /** With unique keys, the entry found under a key is the only one. */
  lemma UniqueGet(entries: seq<Entry>, e: Entry)
    requires UniqueKeys(entries) && e in entries
    ensures Has(entries, e.key) && Get(entries, e.key) == Some(e.value)
  {
    var i :| 0 <= i < |entries| && entries[i] == e;
    assert IndexOf(entries, e.key) == i;
  }

  lemma PutFrom(entries: seq<Entry>, e: Entry)
    ensures e in Put(entries, e)
    ensures forall x | x in Put(entries, e) :: x == e || x in entries
  {
    var r := Put(entries, e);
    var i := if Has(entries, e.key) then IndexOf(entries, e.key) else |entries|;
    assert r[i] == e;
  }

  lemma PutUnique(entries: seq<Entry>, e: Entry)
    requires UniqueKeys(entries)
    ensures UniqueKeys(Put(entries, e))
    ensures forall x | x in Put(entries, e) :: x == e || (x in entries && x.key != e.key)
    ensures forall x | x in entries && x.key != e.key :: x in Put(entries, e)
  {
    var r := Put(entries, e);
    forall x | x in entries && x.key != e.key ensures x in r {
      var i :| 0 <= i < |entries| && entries[i] == x;
      assert r[i] == x;
    }
  }

  lemma PutKeeps(entries: seq<Entry>, e: Entry, x: Entry)
    requires x in entries && x.key != e.key
    ensures x in Put(entries, e)
  {
    var i :| 0 <= i < |entries| && entries[i] == x;
    assert Put(entries, e)[i] == x;
  }

  lemma {:induction false} AssembleUnique(puts: seq<Option<Entry>>)
    ensures UniqueKeys(Assemble(puts))
    ensures forall e | e in Assemble(puts) :: Some(e) in puts
    decreases |puts|
  {
    if puts != [] {
      var init, last := puts[..|puts| - 1], puts[|puts| - 1];
      AssembleUnique(init);
      if last.Some? {
        PutUnique(Assemble(init), last.value);
      }
    }
  }

  /** The last entry put under a key is in the assembled dictionary. */
  lemma {:induction false} AssembleKeeps(puts: seq<Option<Entry>>, i: nat)
    requires i < |puts| && puts[i].Some?
    requires forall j | i < j < |puts| && puts[j].Some? :: puts[j].value.key != puts[i].value.key
    ensures puts[i].value in Assemble(puts)
    decreases |puts|
  {
    var init, last := puts[..|puts| - 1], puts[|puts| - 1];
    if i < |puts| - 1 {
      AssembleKeeps(init, i);
      if last.Some? {
        PutKeeps(Assemble(init), last.value, puts[i].value);
      }
    } else {
      PutFrom(Assemble(init), last.value);
    }
  }

  /** Where the entries of a finished dictionary come from. */
  lemma FinishFrom(entries: seq<Entry>, puts: seq<Option<Entry>>, notes: bool, e: Entry)
    requires e in Finish(entries, puts, notes)
    ensures || e.key == Description
            || (Has(entries, PatternProperties) && e == Entry(AdditionalProperties, DBool(true)))
            || (Some(e) in puts && (Has(entries, PatternProperties) ==> e.key != AdditionalProperties))
  {
    AssembleUnique(puts);
    PutUnique(Assemble(puts), Entry(AdditionalProperties, DBool(true)));
  }

  lemma FinishKeeps(entries: seq<Entry>, puts: seq<Option<Entry>>, notes: bool, e: Entry)
    requires e in Assemble(puts) && e.key != Description
    requires Has(entries, PatternProperties) ==> e.key != AdditionalProperties
    ensures e in Finish(entries, puts, notes)
  {
    var result := Assemble(puts);
    var additional := Entry(AdditionalProperties, DBool(true));
    var open := if Has(entries, PatternProperties) then Put(result, additional) else result;
    if Has(entries, PatternProperties) {
      PutKeeps(result, additional, e);
    }
    if notes {
      PutKeeps(open, Entry(Description, DStr(Name("constraints checked on call"))), e);
    }
  }

  lemma {:induction false} WithoutRefIn(entries: seq<Entry>, e: Entry)
    ensures e in WithoutRef(entries) <==> e in entries && e.key != Ref
  {
    if entries != [] {
      WithoutRefIn(entries[1..], e);
      assert entries == [entries[0]] + entries[1..];
    }
  }

  lemma {:induction false} WithoutRefUnique(entries: seq<Entry>)
    requires UniqueKeys(entries)
    ensures UniqueKeys(WithoutRef(entries))
  {
    if entries != [] {
      WithoutRefUnique(entries[1..]);
      var rest := WithoutRef(entries[1..]);
      forall j | 0 <= j < |rest| ensures rest[j].key != entries[0].key {
        WithoutRefIn(entries[1..], rest[j]);
      }
    }
  }

  lemma {:induction false} MergeUnique(base: seq<Entry>, over: seq<Entry>)
    requires UniqueKeys(base)
    ensures UniqueKeys(Merge(base, over))
    decreases |over|
  {
    if over != [] {
      MergeUnique(base, over[..|over| - 1]);
      PutUnique(Merge(base, over[..|over| - 1]), over[|over| - 1]);
    }
  }

  lemma {:induction false} MergeFrom(base: seq<Entry>, over: seq<Entry>, e: Entry)
    requires e in Merge(base, over)
    ensures e in base || e in over
    decreases |over|
  {
    if over != [] {
      PutFrom(Merge(base, over[..|over| - 1]), over[|over| - 1]);
      if e != over[|over| - 1] {
        MergeFrom(base, over[..|over| - 1], e);
      }
    }
  }

  lemma {:induction false} MergeKeepsBase(base: seq<Entry>, over: seq<Entry>, e: Entry)
    requires e in base && forall x | x in over :: x.key != e.key
    ensures e in Merge(base, over)
    decreases |over|
  {
    if over != [] {
      assert over[|over| - 1] in over;
      MergeKeepsBase(base, over[..|over| - 1], e);
      PutKeeps(Merge(base, over[..|over| - 1]), over[|over| - 1], e);
    }
  }

  lemma {:induction false} MergeKeepsOver(base: seq<Entry>, over: seq<Entry>, e: Entry)
    requires UniqueKeys(over) && e in over
    ensures e in Merge(base, over)
    decreases |over|
  {
    var init, last := over[..|over| - 1], over[|over| - 1];
    if e != last {
      var i :| 0 <= i < |over| && over[i] == e;
      assert init[i] == e;
      MergeKeepsOver(base, init, e);
      PutKeeps(Merge(base, init), last, e);
    } else {
      PutFrom(Merge(base, init), last);
    }
  }

  /** The expansion of a node keeps all of the target and of the siblings that asserts anything. */
  lemma ExpansionKeeps(root: Doc, entries: seq<Entry>, refs: seq<Word>, e: Entry)
    requires UniqueKeys(entries) && Has(entries, Ref) && Expansion(root, entries, refs).Some?
    requires var target := Target(root, Get(entries, Ref).value).value;
             (e in entries && e.key != Ref) || (target.DDict? && e in target.entries && !Annotation(e.key))
    ensures e in Expansion(root, entries, refs).value.entries
  {
    var target := Target(root, Get(entries, Ref).value).value;
    var siblings := WithoutRef(entries);
    WithoutRefIn(entries, e);
    if e in entries && e.key != Ref {
      WithoutRefUnique(entries);
      MergeKeepsOver(target.entries, siblings, e);
    } else {
      forall x | x in siblings ensures x.key != e.key {
        var i :| 0 <= i < |siblings| && siblings[i] == x;
        InGivesHas(target.entries, e);
      }
      MergeKeepsBase(target.entries, siblings, e);
    }
  }

  lemma ExpansionFrom(root: Doc, entries: seq<Entry>, refs: seq<Word>, e: Entry)
    requires Has(entries, Ref) && Expansion(root, entries, refs).Some?
    requires e in Expansion(root, entries, refs).value.entries
    ensures var target := Target(root, Get(entries, Ref).value).value;
            target.DDict? && (e in target.entries || (e in entries && e.key != Ref))
  {
    MergeFrom(Target(root, Get(entries, Ref).value).value.entries, WithoutRef(entries), e);
    WithoutRefIn(entries, e);
  }

  /** Expansion and the visitor's steps only meet well-formed documents. */
  lemma ExpansionWellFormed(root: Doc, node: Doc, refs: seq<Word>)
    requires WellFormed(root) && WellFormed(node) && node.DDict? && Has(node.entries, Ref)
    requires Expansion(root, node.entries, refs).Some?
    ensures WellFormed(Expansion(root, node.entries, refs).value)
  {
    var ref := Get(node.entries, Ref).value;
    ResolveWellFormed(root, [Defs] + ref.s.path);
    var target := Target(root, ref).value;
    var merged := Expansion(root, node.entries, refs).value;
    MergeUnique(target.entries, WithoutRef(node.entries));
    forall i | 0 <= i < |merged.entries| ensures WellFormed(merged.entries[i].value) {
      ExpansionFrom(root, node.entries, refs, merged.entries[i]);
    }
  }

  lemma SubDocsWellFormed(node: Doc, i: nat)
    requires WellFormed(node) && node.DDict? && i < |node.entries| && SubDocs(node.entries[i]).Some?
    ensures forall j | 0 <= j < |SubDocs(node.entries[i]).value| :: WellFormed(SubDocs(node.entries[i]).value[j])
  {
    assert WellFormed(node.entries[i].value);
  }

  // ---------------------------------------------------------------------------------------------
  // The steps of a successful visit

  lemma VisitRefStep(root: Doc, node: Doc, refs: seq<Word>, budget: nat)
    requires Visit(root, node, refs, budget).Done? && Has(node.entries, Ref)
    ensures budget > 0 && node.DDict? && Expansion(root, node.entries, refs).Some?
    ensures Visit(root, Expansion(root, node.entries, refs).value, refs + [Get(node.entries, Ref).value.s], budget - 1)
         == Visit(root, node, refs, budget)
  {
  }

  lemma VisitKeywordsStep(root: Doc, node: Doc, refs: seq<Word>, budget: nat)
    requires Visit(root, node, refs, budget).Done? && !Has(node.entries, Ref)
    ensures budget > 0 && node.DDict?
    ensures var r := VisitEntries(root, node.entries, refs, budget - 1);
            && r.DoneEntries?
            && Visit(root, node, refs, budget) == Done(DDict(Finish(node.entries, r.puts, r.notes)), r.budget)
  {
  }

  lemma VisitAllStep(root: Doc, docs: seq<Doc>, refs: seq<Word>, budget: nat)
    requires VisitAll(root, docs, refs, budget).DoneAll? && docs != []
    ensures Visit(root, docs[0], refs, budget).Done?
    ensures VisitAll(root, docs[1..], refs, Visit(root, docs[0], refs, budget).budget).DoneAll?
    ensures VisitAll(root, docs, refs, budget).docs
         == [Visit(root, docs[0], refs, budget).doc]
            + VisitAll(root, docs[1..], refs, Visit(root, docs[0], refs, budget).budget).docs
  {
  }

  // ---------------------------------------------------------------------------------------------
  // The traversal of the entries, entry by entry

  /** The budget at which entry i is visited. */
  function BudgetAt(root: Doc, entries: seq<Entry>, refs: seq<Word>, budget: nat, i: nat): (b: nat)
    requires VisitEntries(root, entries, refs, budget).DoneEntries? && i < |entries|
    ensures b <= budget
    decreases i
  {
    if i == 0 then budget
    else BudgetAt(root, entries[1..], refs, VisitEntry(root, entries[0], refs, budget).budget, i - 1)
  }

  lemma {:induction false} EntryAt(root: Doc, entries: seq<Entry>, refs: seq<Word>, budget: nat, i: nat)
    requires VisitEntries(root, entries, refs, budget).DoneEntries? && i < |entries|
    ensures var b := BudgetAt(root, entries, refs, budget, i);
            && VisitEntry(root, entries[i], refs, b).DoneEntry?
            && VisitEntries(root, entries, refs, budget).puts[i] == VisitEntry(root, entries[i], refs, b).put
    decreases i
  {
    if i > 0 {
      EntryAt(root, entries[1..], refs, VisitEntry(root, entries[0], refs, budget).budget, i - 1);
    }
  }

  /** The documents entry i's subschemas were projected to. */
  function ProjectedAt(root: Doc, entries: seq<Entry>, refs: seq<Word>, budget: nat, i: nat): (docs: seq<Doc>)
    requires VisitEntries(root, entries, refs, budget).DoneEntries? && i < |entries|
  {
    EntryAt(root, entries, refs, budget, i);
    VisitAll(root, SubDocs(entries[i]).value, refs, BudgetAt(root, entries, refs, budget, i)).docs
  }

  lemma ProjectedOutput(root: Doc, entries: seq<Entry>, refs: seq<Word>, budget: nat, i: nat)
    requires VisitEntries(root, entries, refs, budget).DoneEntries? && i < |entries|
    ensures var docs := ProjectedAt(root, entries, refs, budget, i);
            && SubDocs(entries[i]).Some? && |docs| == |SubDocs(entries[i]).value|
            && VisitAll(root, SubDocs(entries[i]).value, refs, BudgetAt(root, entries, refs, budget, i)).DoneAll?
            && Output(entries[i], docs) == Some(VisitEntries(root, entries, refs, budget).puts[i])
  {
    EntryAt(root, entries, refs, budget, i);
  }

  /** What an output says about its key. */
  lemma OutputKey(e: Entry, docs: seq<Doc>)
    requires SubDocs(e).Some? && |docs| == |SubDocs(e).value| && Output(e, docs).Some? && Output(e, docs).value.Some?
    ensures var put := Output(e, docs).value.value;
            && put.key == (if e.key == AnyOf then OneOf else e.key)
            && (Plain(put.key) ==> put == e)
            && (Copied(put.key) || put.key.Properties? || put.key.Items? || put.key.AdditionalProperties?
                || put.key.OneOf?)
  {
  }

  /** What a successful visit of keyword e can put into the projected dictionary. */
  ghost predicate PutBy(e: Entry, put: Option<Entry>) {
    SubDocs(e).Some? && exists docs: seq<Doc> :: |docs| == |SubDocs(e).value| && Output(e, docs) == Some(put)
  }

  ghost predicate PutsBy(entries: seq<Entry>, puts: seq<Option<Entry>>) {
    |puts| == |entries| && forall i | 0 <= i < |entries| :: PutBy(entries[i], puts[i])
  }

  lemma PutKey(e: Entry, put: Option<Entry>)
    requires PutBy(e, put) && put.Some?
    ensures put.value.key == if e.key == AnyOf then OneOf else e.key
    ensures Copied(put.value.key) || put.value.key.Properties? || put.value.key.Items?
            || put.value.key.AdditionalProperties? || put.value.key.OneOf?
  {
    var docs :| |docs| == |SubDocs(e).value| && Output(e, docs) == Some(put);
    OutputKey(e, docs);
  }

  /** What a keyword puts is kept, but for the description, unless the keyword is one of two unions. */
  lemma OutputKept(entries: seq<Entry>, puts: seq<Option<Entry>>, notes: bool, i: nat)
    requires UniqueKeys(entries) && PutsBy(entries, puts) && i < |entries| && puts[i].Some?
    requires entries[i].key == OneOf || entries[i].key == AnyOf ==> !(Has(entries, OneOf) && Has(entries, AnyOf))
    requires entries[i].key != Description
    requires Has(entries, PatternProperties) ==> entries[i].key != AdditionalProperties
    ensures puts[i].value in Finish(entries, puts, notes)
  {
    PutKey(entries[i], puts[i]);
    forall j | i < j < |puts| && puts[j].Some? ensures puts[j].value.key != puts[i].value.key {
      PutKey(entries[j], puts[j]);
      InGivesHas(entries, entries[i]);
      InGivesHas(entries, entries[j]);
    }
    AssembleKeeps(puts, i);
    FinishKeeps(entries, puts, notes, puts[i].value);
  }

  lemma PropNameKept(entries: seq<Entry>, puts: seq<Option<Entry>>, notes: bool, k: Word)
    requires UniqueKeys(entries) && PutsBy(entries, puts) && k in PropNames(entries)
    ensures k in PropNames(Finish(entries, puts, notes))
  {
    var i, j :| 0 <= i < |entries| && entries[i].key == Properties && entries[i].value.DDict?
                && 0 <= j < |entries[i].value.entries| && entries[i].value.entries[j].key == k;
    assert PutBy(entries[i], puts[i]);
    OutputKept(entries, puts, notes, i);
    PropNameIn(Finish(entries, puts, notes), puts[i].value, j, k);
  }

  lemma PropNameIn(result: seq<Entry>, put: Entry, j: nat, k: Word)
    requires put in result && put.key == Properties && put.value.DDict? && j < |put.value.entries|
    requires put.value.entries[j].key == k
    ensures k in PropNames(result)
  {
    var m :| 0 <= m < |result| && result[m] == put;
    assert result[m].value.entries[j].key == k;
  }

  lemma PropNameFrom(entries: seq<Entry>, puts: seq<Option<Entry>>, notes: bool, k: Word)
    requires PutsBy(entries, puts) && k in PropNames(Finish(entries, puts, notes))
    ensures k in PropNames(entries)
  {
    var result := Finish(entries, puts, notes);
    var m, j :| 0 <= m < |result| && result[m].key == Properties && result[m].value.DDict?
                && 0 <= j < |result[m].value.entries| && result[m].value.entries[j].key == k;
    FinishFrom(entries, puts, notes, result[m]);
    var i :| 0 <= i < |puts| && puts[i] == Some(result[m]);
    assert PutBy(entries[i], puts[i]);
    PutKey(entries[i], puts[i]);
    assert entries[i].value.entries[j].key == k;
  }

  /** The projected schema declares the same property names. */
  lemma PropNamesKept(entries: seq<Entry>, puts: seq<Option<Entry>>, notes: bool)
    requires UniqueKeys(entries) && PutsBy(entries, puts)
    ensures PropNames(Finish(entries, puts, notes)) == PropNames(entries)
  {
    forall k | k in PropNames(entries) ensures k in PropNames(Finish(entries, puts, notes)) {
      PropNameKept(entries, puts, notes, k);
    }
    forall k | k in PropNames(Finish(entries, puts, notes)) ensures k in PropNames(entries) {
      PropNameFrom(entries, puts, notes, k);
    }
  }
}
