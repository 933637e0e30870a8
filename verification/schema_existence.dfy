/** When a schema has a projection, in terms of the schema alone.

    The unfolding of a schema is the tree of the nodes it consists of once its references are followed. A schema
    can be projected exactly if it has an unfolding in which no chain of references is too long or repeats one,
    the branches of every anyOf admit different types, and the nodes are not too many.
 */
module SchemaExistence {
  import opened Collections
  import opened JsonSchema
  import opened SchemaProjection
  import opened SchemaDictionaries

  /** A node: the reference it stands for and what that leads to, or its keywords, each with the nodes below it. */
  datatype Unfolding =
    | Through(ref: Word, target: Unfolding)
    | Keywords(entries: seq<Entry>, parts: seq<Part>)

  datatype Part = Part(below: seq<Unfolding>)

  // ---------------------------------------------------------------------------------------------
  // The unfolding of a schema

  predicate MayOverlap(key: Word) {
    key == Title || key == Description || key == Default || key == Examples
  }

  /** A keyword that is copied, left out or only noted, without anything below it. */
  predicate Single(key: Word) {
    MayOverlap(key) || key == Type || key == Required || key == Enum || key == Const || key == Defs || key.Limit?
  }

  /** The node refers to a definition of the schema, and repeats none of its assertions. */
  predicate Refers(root: Doc, entries: seq<Entry>, ref: Word) {
    && Get(entries, Ref) == Some(DStr(ref)) && ref.Pointer?
    && var target := Resolve(root, [Defs] + ref.path);
       && target.Some? && target.value.DDict?
       && forall e | e in entries && e.key != Ref && Has(target.value.entries, e.key) :: MayOverlap(e.key)
  }

  function Referred(root: Doc, entries: seq<Entry>, ref: Word): Doc
    requires Refers(root, entries, ref)
  {
    DDict(Merge(Resolve(root, [Defs] + ref.path).value.entries, WithoutRef(entries)))
  }

  /** A hint how to tell branches apart: a property name and perhaps a mapping to references. */
  predicate Dispatches(d: Doc) {
    && d.DDict? && (forall e | e in d.entries :: e.key == PropertyName || e.key == Mapping)
    && Get(d.entries, PropertyName).Some? && Get(d.entries, PropertyName).value.DStr?
    && (Get(d.entries, Mapping).Some? ==> Get(d.entries, Mapping).value.DDict?)
  }

  function Dispatched(d: Doc): seq<Doc>
    requires Dispatches(d)
  {
    if Get(d.entries, Mapping).None? then []
    else var es := Get(d.entries, Mapping).value.entries;
         seq(|es|, i requires 0 <= i < |es| => DDict([Entry(Ref, es[i].value)]))
  }

  predicate Unfolds(root: Doc, d: Doc, u: Unfolding)
    decreases u
  {
    d.DDict? &&
    match u
    case Through(ref, target) => Refers(root, d.entries, ref) && Unfolds(root, Referred(root, d.entries, ref), target)
    case Keywords(entries, parts) =>
      && !Has(d.entries, Ref) && entries == d.entries && |parts| == |entries|
      && forall i | 0 <= i < |parts| :: UnfoldsEntry(root, entries[i], parts[i])
  }

  /** A supported keyword, with the nodes below it. */
  predicate UnfoldsEntry(root: Doc, e: Entry, p: Part)
    decreases p, 1
  {
    if Single(e.key) then p.below == []
    else match e.key
      case Properties => e.value.DDict? && UnfoldsAll(root, Values(e.value.entries), p)
      case PatternProperties => e.value.DDict? && UnfoldsAll(root, Values(e.value.entries), p)
      case Items => UnfoldsAll(root, if e.value.DDict? then [e.value] else [], p)
      case AdditionalProperties => UnfoldsAll(root, if e.value.DDict? then [e.value] else [], p)
      case AnyOf => e.value.DList? && UnfoldsAll(root, e.value.items, p)
      case OneOf => e.value.DList? && UnfoldsAll(root, e.value.items, p)
      case AllOf => e.value.DList? && UnfoldsAll(root, e.value.items, p)
      case If => UnfoldsAll(root, [e.value], p)
      case Then => UnfoldsAll(root, [e.value], p)
      case Else => UnfoldsAll(root, [e.value], p)
      case Discriminator => Dispatches(e.value) && UnfoldsAll(root, Dispatched(e.value), p)
      case _ => false
  }

  predicate UnfoldsAll(root: Doc, docs: seq<Doc>, p: Part)
    decreases p, 0
  {
    |docs| == |p.below| && forall i | 0 <= i < |docs| :: Unfolds(root, docs[i], p.below[i])
  }

  // ---------------------------------------------------------------------------------------------
  // Chains, size, types

  /** The references met one after the other on some way down. */
  ghost predicate IsChain(u: Unfolding, chain: seq<Word>)
    decreases u
  {
    chain == [] ||
    match u
    case Through(ref, target) => chain[0] == ref && IsChain(target, chain[1..])
    case Keywords(_, parts) => exists i | 0 <= i < |parts| :: IsChainBelow(parts[i], chain)
  }

  ghost predicate IsChainBelow(p: Part, chain: seq<Word>)
    decreases p
  {
    exists i | 0 <= i < |p.below| :: IsChain(p.below[i], chain)
  }

  predicate Distinct(chain: seq<Word>) {
    forall i, j | 0 <= i < j < |chain| :: chain[i] != chain[j]
  }

  function Size(u: Unfolding): nat
    decreases u, 1, 0
  {
    1 + match u
        case Through(_, target) => Size(target)
        case Keywords(_, parts) => SizeFrom(u, 0)
  }

  /** The nodes below the keywords from i on. */
  function SizeFrom(u: Unfolding, i: nat): nat
    requires u.Keywords? && i <= |u.parts|
    decreases u, 0, |u.parts| - i
  {
    if i == |u.parts| then 0 else SizeBelow(u.parts[i], 0) + SizeFrom(u, i + 1)
  }

  function SizeBelow(p: Part, j: nat): nat
    requires j <= |p.below|
    decreases p, 0, |p.below| - j
  {
    if j == |p.below| then 0 else Size(p.below[j]) + SizeBelow(p, j + 1)
  }

  /** The last anyOf or oneOf, which is the one a projection keeps. */
  function LastUnion(entries: seq<Entry>): (r: Option<nat>)
    ensures r.Some? ==> r.value < |entries|
  {
    if entries == [] then None
    else
      var last := |entries| - 1;
      if entries[last].key == AnyOf || entries[last].key == OneOf then Some(last) else LastUnion(entries[..last])
  }

  /** The types a node admits, if it says so by its type or by the branches of a union; an integer is a number. */
  function Types(u: Unfolding): Option<set<Word>>
    decreases u
  {
    match u
    case Through(_, target) => Types(target)
    case Keywords(entries, parts) =>
      var t := Get(entries, Type);
      if t.Some? && t.value.DStr? then Some({if t.value.s == IntegerType then NumberType else t.value.s})
      else var i := LastUnion(entries);
           if i.Some? && i.value < |parts| then TypesBelow(parts[i.value]) else None
  }

  function TypesBelow(p: Part): Option<set<Word>>
    decreases p
  {
    if forall i | 0 <= i < |p.below| :: Types(p.below[i]).Some?
    then Some(set i, t | 0 <= i < |p.below| && t in Types(p.below[i]).value :: t) else None
  }

  predicate HasTypeInteger(u: Unfolding) {
    match u
    case Through(_, target) => HasTypeInteger(target)
    case Keywords(entries, _) => Get(entries, Type) == Some(DStr(IntegerType))
  }

  /** A branch of type number that says nothing else about its values. */
  predicate AnyNumber(d: Doc) {
    && d.DDict? && Get(d.entries, Type) == Some(DStr(NumberType))
    && forall e | e in d.entries :: e.key == Type || MayOverlap(e.key)
  }

  /** Integer branches are absorbed by a branch that admits any number. */
  predicate Counts(items: seq<Doc>, u: Unfolding) {
    HasTypeInteger(u) ==> forall d | d in items :: !AnyNumber(d)
  }

  predicate BranchesApart(items: seq<Doc>, us: seq<Unfolding>) {
    && (forall i | 0 <= i < |us| && Counts(items, us[i]) :: Types(us[i]).Some?)
    && (forall i, j | 0 <= i < j < |us| && Counts(items, us[i]) && Counts(items, us[j]) ::
          Types(us[i]).Some? && Types(us[j]).Some? && Types(us[i]).value !! Types(us[j]).value)
  }

  predicate UnionsApart(u: Unfolding)
    decreases u
  {
    match u
    case Through(_, target) => UnionsApart(target)
    case Keywords(entries, parts) =>
      && |parts| == |entries|
      && forall i | 0 <= i < |parts| :: ApartBelow(entries[i], parts[i])
  }

  predicate ApartBelow(e: Entry, p: Part)
    decreases p
  {
    && (forall i | 0 <= i < |p.below| :: UnionsApart(p.below[i]))
    && (e.key == AnyOf && e.value.DList? ==> BranchesApart(e.value.items, p.below))
  }

  /** No reference below repeats one of refs or another above it, and no chain has more than 32, refs included. */
  predicate Linear(u: Unfolding, refs: seq<Word>)
    decreases u
  {
    match u
    case Through(ref, target) => ref !in refs && |refs| <= 31 && Linear(target, refs + [ref])
    case Keywords(_, parts) => forall i | 0 <= i < |parts| :: LinearBelow(parts[i], refs)
  }

  predicate LinearBelow(p: Part, refs: seq<Word>)
    decreases p
  {
    forall i | 0 <= i < |p.below| :: Linear(p.below[i], refs)
  }

  // ---------------------------------------------------------------------------------------------
  // Keywords

  lemma DispatchesExactly(d: Doc)
    ensures DiscriminatorAccepted(d) <==> Dispatches(d)
    ensures Dispatches(d) ==> MappingTargets(d) == Dispatched(d)
  {
    if d.DDict? {
      assert forall i | 0 <= i < |d.entries| :: d.entries[i] in d.entries;
    }
  }

  lemma EntryUnfoldsExactly(root: Doc, e: Entry, p: Part)
    ensures UnfoldsEntry(root, e, p) <==> SubDocs(e).Some? && UnfoldsAll(root, SubDocs(e).value, p)
  {
    hide Unfolds, DiscriminatorAccepted, Dispatches, MappingTargets, Dispatched;
    if e.key.Discriminator? {
      DispatchesExactly(e.value);
    }
  }

  // ---------------------------------------------------------------------------------------------
  // Unions

  /** The projection of a node admits the types of the node. */
  predicate Shows(doc: Doc, u: Unfolding) {
    doc.DDict? && AcceptedTypes(doc) == Types(u) && (IsInteger(doc) <==> HasTypeInteger(u))
  }

  predicate ShowsAll(docs: seq<Doc>, us: seq<Unfolding>) {
    |docs| == |us| && forall i | 0 <= i < |docs| :: Shows(docs[i], us[i])
  }

  lemma UnionShows(docs: seq<Doc>, p: Part)
    requires ShowsAll(docs, p.below)
    ensures UnionOfTypes(DList(docs)) == TypesBelow(p)
  {
    var union := DList(docs);
    assert union.items == docs;
    assert forall i | 0 <= i < |docs| :: AcceptedTypes(union.items[i]) == Types(p.below[i]);
    if TypesBelow(p).Some? {
      assert UnionOfTypes(union).Some?;
      var a, b := UnionOfTypes(union).value, TypesBelow(p).value;
      forall t ensures t in a <==> t in b {
        SameUnion(docs, p, t);
      }
      assert a == b;
    }
  }

  lemma SameUnion(docs: seq<Doc>, p: Part, t: Word)
    requires ShowsAll(docs, p.below) && TypesBelow(p).Some? && UnionOfTypes(DList(docs)).Some?
    ensures t in UnionOfTypes(DList(docs)).value <==> t in TypesBelow(p).value
  {
    var union := DList(docs);
    if t in TypesBelow(p).value {
      var i :| 0 <= i < |p.below| && t in Types(p.below[i]).value;
      assert t in AcceptedTypes(union.items[i]).value;
    }
    if t in UnionOfTypes(union).value {
      var i :| 0 <= i < |docs| && t in AcceptedTypes(union.items[i]).value;
      assert t in Types(p.below[i]).value;
    }
  }

  lemma {:induction false} KeptIn(docs: seq<Doc>, d: Doc)
    ensures d in WithoutIntegers(docs) <==> d in docs && !IsInteger(d)
  {
    if docs != [] {
      KeptIn(docs[1..], d);
      assert docs == [docs[0]] + docs[1..];
    }
  }

  /** The branches that are kept are disjoint. */
  predicate KeptApart(docs: seq<Doc>) {
    && (forall i | 0 <= i < |docs| && !IsInteger(docs[i]) :: AcceptedTypes(docs[i]).Some?)
    && (forall i, j | 0 <= i < j < |docs| && !IsInteger(docs[i]) && !IsInteger(docs[j]) :: TypesApart(docs[i], docs[j]))
  }

  lemma {:induction false} KeptAreApart(docs: seq<Doc>)
    ensures DisjointBranches(WithoutIntegers(docs)) <==> KeptApart(docs)
  {
    if docs != [] {
      var d, rest := docs[0], docs[1..];
      KeptAreApart(rest);
      assert docs == [d] + rest;
      MoreKeptApart(d, rest);
      if IsInteger(d) {
        assert WithoutIntegers(docs) == WithoutIntegers(rest);
      } else {
        assert WithoutIntegers(docs) == [d] + WithoutIntegers(rest);
        forall x ensures x in WithoutIntegers(rest) <==> x in rest && !IsInteger(x) {
          KeptIn(rest, x);
        }
        MoreApart(d, WithoutIntegers(rest));
      }
    }
  }

  ghost predicate ApartFrom(d: Doc, rest: seq<Doc>) {
    AcceptedTypes(d).Some? && forall x | x in rest && !IsInteger(x) :: TypesApart(d, x)
  }

  lemma MoreApart(d: Doc, rest: seq<Doc>)
    requires forall x | x in rest :: !IsInteger(x)
    ensures DisjointBranches([d] + rest) <==> ApartFrom(d, rest) && DisjointBranches(rest)
  {
    hide AcceptedTypes, IsInteger;
    var all := [d] + rest;
    assert all[0] == d;
    assert forall i | 0 <= i < |rest| :: all[i + 1] == rest[i];
    assert forall i | 0 < i < |all| :: all[i] == rest[i - 1];
    if DisjointBranches(all) {
      forall x | x in rest ensures TypesApart(d, x) {
        var i :| 0 <= i < |rest| && rest[i] == x;
        assert TypesApart(all[0], all[i + 1]);
      }
      forall i | 0 <= i < |rest| ensures AcceptedTypes(rest[i]).Some? {
        assert AcceptedTypes(all[i + 1]).Some?;
      }
      forall i, j | 0 <= i < j < |rest| ensures TypesApart(rest[i], rest[j]) {
        assert TypesApart(all[i + 1], all[j + 1]);
      }
    }
    if ApartFrom(d, rest) && DisjointBranches(rest) {
      forall i | 0 <= i < |all| ensures AcceptedTypes(all[i]).Some? {
        assert i > 0 ==> all[i] == rest[i - 1];
      }
      forall i, j | 0 <= i < j < |all| ensures TypesApart(all[i], all[j]) {
        assert all[j] == rest[j - 1] && all[j] in rest;
        assert i > 0 ==> TypesApart(rest[i - 1], rest[j - 1]);
      }
    }
  }

  lemma MoreKeptApart(d: Doc, rest: seq<Doc>)
    ensures KeptApart([d] + rest) <==> (IsInteger(d) || ApartFrom(d, rest)) && KeptApart(rest)
  {
    hide AcceptedTypes, IsInteger;
    var all := [d] + rest;
    assert all[0] == d;
    assert forall i | 0 <= i < |rest| :: all[i + 1] == rest[i];
    assert forall i | 0 < i < |all| :: all[i] == rest[i - 1];
    if KeptApart(all) {
      forall x | x in rest && !IsInteger(x) && !IsInteger(d) ensures TypesApart(d, x) {
        var i :| 0 <= i < |rest| && rest[i] == x;
        assert TypesApart(all[0], all[i + 1]);
      }
      forall i | 0 <= i < |rest| && !IsInteger(rest[i]) ensures AcceptedTypes(rest[i]).Some? {
        assert AcceptedTypes(all[i + 1]).Some?;
      }
      forall i, j | 0 <= i < j < |rest| && !IsInteger(rest[i]) && !IsInteger(rest[j])
        ensures TypesApart(rest[i], rest[j])
      {
        assert TypesApart(all[i + 1], all[j + 1]);
      }
    }
    if (IsInteger(d) || ApartFrom(d, rest)) && KeptApart(rest) {
      forall i | 0 <= i < |all| && !IsInteger(all[i]) ensures AcceptedTypes(all[i]).Some? {
        assert i > 0 ==> all[i] == rest[i - 1];
      }
      forall i, j | 0 <= i < j < |all| && !IsInteger(all[i]) && !IsInteger(all[j]) ensures TypesApart(all[i], all[j]) {
        assert all[j] == rest[j - 1] && all[j] in rest;
        assert i > 0 ==> TypesApart(rest[i - 1], rest[j - 1]);
      }
    }
  }

  lemma AnyNumberExactly(d: Doc)
    ensures PlainNumber(d) <==> AnyNumber(d)
  {
    if d.DDict? {
      assert forall i | 0 <= i < |d.entries| :: d.entries[i] in d.entries;
    }
  }

  lemma AbsorbsExactly(items: seq<Doc>, docs: seq<Doc>)
    ensures Absorb(items, docs) == if exists d | d in items :: AnyNumber(d) then WithoutIntegers(docs) else docs
  {
    forall d ensures PlainNumber(d) <==> AnyNumber(d) {
      AnyNumberExactly(d);
    }
    if exists d | d in items :: AnyNumber(d) {
      var d :| d in items && AnyNumber(d);
      var i :| 0 <= i < |items| && items[i] == d;
      assert PlainNumber(items[i]);
    }
  }

  lemma KeptConverts(items: seq<Doc>, docs: seq<Doc>, us: seq<Unfolding>)
    requires ShowsAll(docs, us) && exists d | d in items :: AnyNumber(d)
    ensures KeptApart(docs) <==> BranchesApart(items, us)
  {
    assert forall i | 0 <= i < |us| :: Counts(items, us[i]) <==> !IsInteger(docs[i]);
    hide AcceptedTypes, Types, IsInteger, HasTypeInteger, AnyNumber, Counts;
  }

  lemma AllConvert(items: seq<Doc>, docs: seq<Doc>, us: seq<Unfolding>)
    requires ShowsAll(docs, us) && forall d | d in items :: !AnyNumber(d)
    ensures DisjointBranches(docs) <==> BranchesApart(items, us)
  {
    assert forall i | 0 <= i < |us| :: Counts(items, us[i]);
    hide AcceptedTypes, Types, IsInteger, HasTypeInteger, AnyNumber, Counts;
  }

  /** The branches of an anyOf can be converted exactly if those that count are apart. */
  lemma ConvertsExactly(items: seq<Doc>, docs: seq<Doc>, us: seq<Unfolding>)
    requires ShowsAll(docs, us)
    ensures DisjointBranches(Absorb(items, docs)) <==> BranchesApart(items, us)
  {
    AbsorbsExactly(items, docs);
    hide DisjointBranches, KeptApart, BranchesApart;
    if exists d | d in items :: AnyNumber(d) {
      KeptAreApart(docs);
      KeptConverts(items, docs, us);
    } else {
      AllConvert(items, docs, us);
    }
  }

  lemma WithoutReference(root: Doc, d: Doc, u: Unfolding)
    requires Unfolds(root, d, u) && !Has(d.entries, Ref)
    ensures u.Keywords? && u.entries == d.entries
  {
    hide UnfoldsEntry;
  }

  lemma NumberTypes(root: Doc, d: Doc, u: Unfolding)
    requires AnyNumber(d) && Unfolds(root, d, u)
    ensures Types(u) == Some({NumberType}) && !HasTypeInteger(u)
  {
    hide Unfolds;
    assert forall i | 0 <= i < |d.entries| :: d.entries[i] in d.entries;
    assert !Has(d.entries, Ref);
    WithoutReference(root, d, u);
  }

  /** What absorbs integer branches admits their type. */
  lemma AbsorbedTypes(root: Doc, items: seq<Doc>, docs: seq<Doc>, p: Part)
    requires UnfoldsAll(root, items, p) && ShowsAll(docs, p.below)
    ensures UnionOfTypes(DList(Absorb(items, docs))) == TypesBelow(p)
  {
    AbsorbsExactly(items, docs);
    if exists d | d in items :: AnyNumber(d) {
      var d :| d in items && AnyNumber(d);
      var k :| 0 <= k < |items| && items[k] == d;
      NumberTypes(root, d, p.below[k]);
      WithoutIntegersTypes(docs, k);
    }
    UnionShows(docs, p);
  }

  lemma IntegerTypes(d: Doc)
    requires IsInteger(d)
    ensures AcceptedTypes(d) == Some({NumberType})
  {
  }

  lemma WithoutIntegersTypes(docs: seq<Doc>, k: nat)
    requires k < |docs| && !IsInteger(docs[k]) && AcceptedTypes(docs[k]) == Some({NumberType})
    ensures UnionOfTypes(DList(WithoutIntegers(docs))) == UnionOfTypes(DList(docs))
  {
    var kept := WithoutIntegers(docs);
    forall d ensures d in kept <==> d in docs && !IsInteger(d) {
      KeptIn(docs, d);
    }
    forall d | d in docs && d !in kept ensures AcceptedTypes(d) == Some({NumberType}) {
      IntegerTypes(d);
    }
    SameTypes(kept, docs, docs[k]);
  }

  lemma SameTypes(kept: seq<Doc>, docs: seq<Doc>, number: Doc)
    requires number in kept && (forall d | d in kept :: d in docs)
    requires AcceptedTypes(number) == Some({NumberType})
    requires forall d | d in docs && d !in kept :: AcceptedTypes(d) == Some({NumberType})
    ensures UnionOfTypes(DList(kept)) == UnionOfTypes(DList(docs))
  {
    AllTypesIn(kept);
    AllTypesIn(docs);
    var a, b := UnionOfTypes(DList(kept)), UnionOfTypes(DList(docs));
    if b.Some? {
      assert a.Some?;
      assert NumberType in a.value;
      assert a.value == b.value;
    }
  }

  lemma AllTypesIn(docs: seq<Doc>)
    ensures var r := UnionOfTypes(DList(docs));
            && (r.Some? <==> (forall d | d in docs :: AcceptedTypes(d).Some?))
            && (r.Some? ==>
                  forall t :: t in r.value <==> (exists d | d in docs :: t in AcceptedTypes(d).value))
  {
    assert forall i | 0 <= i < |docs| :: docs[i] in docs;
  }

  // ---------------------------------------------------------------------------------------------
  // What a node with keywords admits

  lemma GetPut(entries: seq<Entry>, e: Entry, key: Word)
    requires UniqueKeys(entries)
    ensures Get(Put(entries, e), key) == if key == e.key then Some(e.value) else Get(entries, key)
  {
    PutFrom(entries, e);
    PutUnique(entries, e);
    UniqueGet(Put(entries, e), e);
    if key != e.key {
      SameOtherwise(entries, Put(entries, e), e, key);
    }
  }

  lemma SameOtherwise(entries: seq<Entry>, r: seq<Entry>, e: Entry, key: Word)
    requires UniqueKeys(entries) && UniqueKeys(r) && key != e.key
    requires forall x | x in r :: x == e || x in entries
    requires forall x | x in entries && x.key != e.key :: x in r
    ensures Get(r, key) == Get(entries, key)
  {
    if Has(entries, key) {
      var x := entries[IndexOf(entries, key)];
      UniqueGet(r, x);
    } else {
      forall i | 0 <= i < |r| ensures r[i].key != key {
        assert r[i] in r;
      }
    }
  }

  lemma GetLast(entries: seq<Entry>, key: Word)
    requires UniqueKeys(entries) && entries != []
    ensures var init, last := entries[..|entries| - 1], entries[|entries| - 1];
            Get(entries, key) == if key == last.key then Some(last.value) else Get(init, key)
  {
    var init, last := entries[..|entries| - 1], entries[|entries| - 1];
    if key == last.key {
      UniqueGet(entries, last);
    } else if Has(init, key) {
      var x := init[IndexOf(init, key)];
      UniqueGet(init, x);
      UniqueGet(entries, x);
    } else {
      assert forall i | 0 <= i < |init| :: entries[i] == init[i];
      assert !Has(entries, key);
    }
  }

  /** What a keyword puts into the projected dictionary, as far as types are concerned. */
  predicate PutShows(e: Entry, put: Option<Entry>, p: Part) {
    if e.key == Type then put == Some(e)
    else if e.key == AnyOf || e.key == OneOf then
      && put.Some? && put.value.key == OneOf && put.value.value.DList?
      && UnionOfTypes(put.value.value) == TypesBelow(p)
    else put.Some? ==> put.value.key != Type && put.value.key != OneOf
  }

  predicate PutsShow(entries: seq<Entry>, puts: seq<Option<Entry>>, parts: seq<Part>) {
    && |puts| == |entries| == |parts|
    && forall i | 0 <= i < |puts| :: PutShows(entries[i], puts[i], parts[i])
  }

  /** The union a dictionary keeps admits what the last one of the node admits. */
  predicate UnionKept(entries: seq<Entry>, union: Option<Doc>, parts: seq<Part>)
    requires |parts| == |entries|
  {
    match LastUnion(entries)
    case None => union.None?
    case Some(i) => union.Some? && union.value.DList? && UnionOfTypes(union.value) == TypesBelow(parts[i])
  }

  lemma {:induction false} AssembleShows(entries: seq<Entry>, puts: seq<Option<Entry>>, parts: seq<Part>)
    requires UniqueKeys(entries) && PutsShow(entries, puts, parts)
    ensures Get(Assemble(puts), Type) == Get(entries, Type) && UnionKept(entries, Get(Assemble(puts), OneOf), parts)
    decreases |puts|
  {
    if puts != [] {
      var n := |puts| - 1;
      AssembleShows(entries[..n], puts[..n], parts[..n]);
      AssembleUnique(puts[..n]);
      GetLast(entries, Type);
      NextShows(entries, Assemble(puts[..n]), puts[n], parts);
    }
  }

  lemma NextShows(entries: seq<Entry>, result: seq<Entry>, put: Option<Entry>, parts: seq<Part>)
    requires entries != [] && |parts| == |entries| && UniqueKeys(result)
    requires PutShows(entries[|entries| - 1], put, parts[|entries| - 1])
    requires UnionKept(entries[..|entries| - 1], Get(result, OneOf), parts[..|entries| - 1])
    ensures var next := if put.None? then result else Put(result, put.value);
            && UnionKept(entries, Get(next, OneOf), parts)
            && Get(next, Type)
               == if entries[|entries| - 1].key == Type then Some(entries[|entries| - 1].value) else Get(result, Type)
  {
    if put.Some? {
      GetPut(result, put.value, Type);
      GetPut(result, put.value, OneOf);
    }
    LastUnionNext(entries);
    hide Get, Put, TypesBelow, UnionOfTypes, LastUnion;
  }

  lemma LastUnionNext(entries: seq<Entry>)
    requires entries != []
    ensures var n := |entries| - 1;
            LastUnion(entries)
            == if entries[n].key == AnyOf || entries[n].key == OneOf then Some(n) else LastUnion(entries[..n])
  {
  }

  lemma FinishShows(entries: seq<Entry>, puts: seq<Option<Entry>>, notes: bool, parts: seq<Part>)
    requires UniqueKeys(entries) && PutsShow(entries, puts, parts)
    ensures Shows(DDict(Finish(entries, puts, notes)), Keywords(entries, parts))
  {
    AssembleShows(entries, puts, parts);
    var result := Assemble(puts);
    AssembleUnique(puts);
    var open := if Has(entries, PatternProperties)
                then Put(result, Entry(AdditionalProperties, DBool(true))) else result;
    GetPut(result, Entry(AdditionalProperties, DBool(true)), Type);
    GetPut(result, Entry(AdditionalProperties, DBool(true)), OneOf);
    PutUnique(result, Entry(AdditionalProperties, DBool(true)));
    var note := Entry(Description, DStr(Name("constraints checked on call")));
    GetPut(open, note, Type);
    GetPut(open, note, OneOf);
    DictionaryShows(entries, Finish(entries, puts, notes), parts);
  }

  lemma DictionaryShows(entries: seq<Entry>, result: seq<Entry>, parts: seq<Part>)
    requires |parts| == |entries|
    requires Get(result, Type) == Get(entries, Type) && UnionKept(entries, Get(result, OneOf), parts)
    ensures Shows(DDict(result), Keywords(entries, parts))
  {
  }

  // ---------------------------------------------------------------------------------------------
  // The visit of an unfolding

  lemma RefersExactly(root: Doc, entries: seq<Entry>, refs: seq<Word>, ref: Word)
    requires Get(entries, Ref) == Some(DStr(ref))
    ensures Expansion(root, entries, refs).Some? <==> Refers(root, entries, ref) && ref !in refs
    ensures Expansion(root, entries, refs).Some? ==>
              Expansion(root, entries, refs).value == Referred(root, entries, ref)
  {
    if ref.Pointer? && Target(root, DStr(ref)).Some? && Target(root, DStr(ref)).value.DDict? {
      OverlapExactly(Target(root, DStr(ref)).value.entries, entries);
    }
  }

  lemma OverlapExactly(target: seq<Entry>, entries: seq<Entry>)
    ensures Overlap(target, WithoutRef(entries))
        <==> exists e | e in entries :: e.key != Ref && Has(target, e.key) && !MayOverlap(e.key)
  {
    var siblings := WithoutRef(entries);
    forall e ensures e in siblings <==> e in entries && e.key != Ref {
      WithoutRefIn(entries, e);
    }
    if e :| e in entries && e.key != Ref && Has(target, e.key) && !MayOverlap(e.key) {
      assert e in siblings;
      var i :| 0 <= i < |siblings| && siblings[i] == e;
    }
  }

  ghost predicate AllWellFormed(docs: seq<Doc>) {
    forall i | 0 <= i < |docs| :: WellFormed(docs[i])
  }

  /** A visit succeeds exactly on what is linear, apart and small enough; it uses one visit for each node. */
  ghost predicate Reached(r: Visited, u: Unfolding, refs: seq<Word>, budget: nat) {
    && (r.Done? <==> Linear(u, refs) && UnionsApart(u) && Size(u) <= budget)
    && (r.Done? ==> r.budget == budget - Size(u) && Shows(r.doc, u))
  }

  ghost predicate AllReached(r: VisitedAll, p: Part, j: nat, refs: seq<Word>, budget: nat)
    requires j <= |p.below|
  {
    && (r.DoneAll? <==>
          && (forall k | j <= k < |p.below| :: Linear(p.below[k], refs) && UnionsApart(p.below[k]))
          && SizeBelow(p, j) <= budget)
    && (r.DoneAll? ==> r.budget == budget - SizeBelow(p, j) && ShowsAll(r.docs, p.below[j..]))
  }

  ghost predicate EntryReached(r: VisitedEntry, e: Entry, p: Part, refs: seq<Word>, budget: nat) {
    && (r.DoneEntry? <==> LinearBelow(p, refs) && ApartBelow(e, p) && SizeBelow(p, 0) <= budget)
    && (r.DoneEntry? ==> r.budget == budget - SizeBelow(p, 0) && PutShows(e, r.put, p))
  }

  ghost predicate EntriesReached(r: VisitedEntries, u: Unfolding, i: nat, refs: seq<Word>, budget: nat)
    requires u.Keywords? && |u.parts| == |u.entries| && i <= |u.parts|
  {
    && (r.DoneEntries? <==>
          && (forall k | i <= k < |u.parts| :: LinearBelow(u.parts[k], refs) && ApartBelow(u.entries[k], u.parts[k]))
          && SizeFrom(u, i) <= budget)
    && (r.DoneEntries? ==> r.budget == budget - SizeFrom(u, i) && PutsShow(u.entries[i..], r.puts, u.parts[i..]))
  }

  lemma {:induction false} VisitReaches(root: Doc, d: Doc, u: Unfolding, refs: seq<Word>, budget: nat)
    requires WellFormed(root) && WellFormed(d) && Unfolds(root, d, u) && |refs| <= 32
    ensures Reached(Visit(root, d, refs, budget), u, refs, budget)
    decreases u, 3, 0
  {
    if budget == 0 {
      NothingReached(root, d, u, refs);
    } else if u.Keywords? {
      KeywordsReach(root, d, u, refs, budget);
    } else {
      ReferenceReaches(root, d, u, refs, budget);
    }
  }

  lemma {:induction false} KeywordsReach(root: Doc, d: Doc, u: Unfolding, refs: seq<Word>, budget: nat)
    requires WellFormed(root) && WellFormed(d) && u.Keywords? && Unfolds(root, d, u) && |refs| <= 32 && budget > 0
    ensures Reached(Visit(root, d, refs, budget), u, refs, budget)
    decreases u, 2, 0
  {
    hide Visit, Reached, WellFormed, EntriesReached;
    KeywordsUnfold(root, d, u, 0);
    KeywordsReady(root, d, u, refs);
    hide Unfolds, Ready;
    EntriesReach(root, u, 0, refs, budget - 1);
    KeywordsReached(root, d, u, refs, budget);
  }

  lemma {:induction false} ReferenceReaches(root: Doc, d: Doc, u: Unfolding, refs: seq<Word>, budget: nat)
    requires WellFormed(root) && WellFormed(d) && u.Through? && Unfolds(root, d, u) && |refs| <= 32 && budget > 0
    ensures Reached(Visit(root, d, refs, budget), u, refs, budget)
    decreases u, 2, 0
  {
    hide Visit, Reached, Unfolds, WellFormed, LeadsTo;
    var next := ThroughUnfolds(root, d, u.ref, u.target);
    if u.ref !in refs && |refs| <= 31 {
      VisitReaches(root, next, u.target, refs + [u.ref], budget - 1);
      ReferenceReached(root, d, next, u.ref, u.target, refs, budget);
    } else {
      ReferenceRefused(root, d, next, u.ref, u.target, refs, budget);
    }
  }

  ghost predicate LeadsTo(root: Doc, d: Doc, ref: Word, next: Doc) {
    d.DDict? && Refers(root, d.entries, ref) && next == Referred(root, d.entries, ref)
  }

  lemma ThroughUnfolds(root: Doc, d: Doc, ref: Word, target: Unfolding) returns (next: Doc)
    requires WellFormed(root) && WellFormed(d) && Unfolds(root, d, Through(ref, target))
    ensures LeadsTo(root, d, ref, next) && WellFormed(next) && Unfolds(root, next, target)
  {
    RefersExactly(root, d.entries, [], ref);
    ExpansionWellFormed(root, d, []);
    next := Referred(root, d.entries, ref);
  }

  lemma NothingReached(root: Doc, d: Doc, u: Unfolding, refs: seq<Word>)
    ensures Reached(Visit(root, d, refs, 0), u, refs, 0)
  {
  }

  lemma ReferenceReached(root: Doc, d: Doc, next: Doc, ref: Word, target: Unfolding, refs: seq<Word>, budget: nat)
    requires LeadsTo(root, d, ref, next) && budget > 0 && ref !in refs && |refs| <= 31
    requires Reached(Visit(root, next, refs + [ref], budget - 1), target, refs + [ref], budget - 1)
    ensures Reached(Visit(root, d, refs, budget), Through(ref, target), refs, budget)
  {
    RefersExactly(root, d.entries, refs, ref);
  }

  lemma ReferenceRefused(root: Doc, d: Doc, next: Doc, ref: Word, target: Unfolding, refs: seq<Word>, budget: nat)
    requires LeadsTo(root, d, ref, next) && budget > 0 && |refs| <= 32 && (ref in refs || |refs| == 32)
    ensures Reached(Visit(root, d, refs, budget), Through(ref, target), refs, budget)
  {
    RefersExactly(root, d.entries, refs, ref);
    if ref !in refs {
      assert Visit(root, next, refs + [ref], budget - 1).Failed?;
    }
  }

  lemma KeywordsReached(root: Doc, d: Doc, u: Unfolding, refs: seq<Word>, budget: nat)
    requires u.Keywords? && WellFormed(d) && Unfolds(root, d, u) && budget > 0 && |refs| <= 32
    requires EntriesReached(VisitEntries(root, u.entries[0..], refs, budget - 1), u, 0, refs, budget - 1)
    ensures Reached(Visit(root, d, refs, budget), u, refs, budget)
  {
    hide VisitEntries, UnfoldsEntry, SizeBelow, Shows, Finish;
    assert u.entries[0..] == u.entries == d.entries;
    var r := VisitEntries(root, d.entries, refs, budget - 1);
    if r.DoneEntries? {
      assert u.parts[0..] == u.parts;
      FinishShows(u.entries, r.puts, r.notes, u.parts);
    }
  }

  /** The keywords of a node from i on, as far as a visit has to know them. */
  ghost predicate Ready(root: Doc, entries: seq<Entry>, parts: seq<Part>, refs: seq<Word>) {
    && WellFormed(root) && WellFormed(DDict(entries)) && |refs| <= 32 && |parts| == |entries|
    && forall i | 0 <= i < |parts| :: UnfoldsEntry(root, entries[i], parts[i])
  }

  lemma {:induction false} EntriesReach(root: Doc, u: Unfolding, i: nat, refs: seq<Word>, budget: nat)
    requires u.Keywords? && Ready(root, u.entries, u.parts, refs) && i <= |u.parts| == |u.entries|
    ensures EntriesReached(VisitEntries(root, u.entries[i..], refs, budget), u, i, refs, budget)
    decreases u, 1, |u.parts| - i
  {
    hide EntriesReached, EntryReached, VisitEntries, VisitEntry, Ready;
    if i == |u.parts| {
      NoneLeft(root, u, refs, budget);
    } else {
      EntryReaches(root, u.entries, u.parts, i, u.parts[i], refs, budget);
      var head := VisitEntry(root, u.entries[i], refs, budget);
      if head.DoneEntry? {
        EntriesReach(root, u, i + 1, refs, head.budget);
      }
      NextReached(root, u, i, refs, budget, head);
    }
  }

  lemma KeywordsUnfold(root: Doc, d: Doc, u: Unfolding, i: nat)
    requires u.Keywords? && Unfolds(root, d, u)
    ensures d.DDict? && u.entries == d.entries && |u.parts| == |u.entries|
    ensures i < |u.parts| ==> UnfoldsEntry(root, u.entries[i], u.parts[i])
  {
  }

  lemma KeywordsReady(root: Doc, d: Doc, u: Unfolding, refs: seq<Word>)
    requires WellFormed(root) && WellFormed(d) && u.Keywords? && Unfolds(root, d, u) && |refs| <= 32
    ensures Ready(root, u.entries, u.parts, refs)
  {
  }

  lemma NoneLeft(root: Doc, u: Unfolding, refs: seq<Word>, budget: nat)
    requires u.Keywords? && |u.parts| == |u.entries|
    ensures EntriesReached(VisitEntries(root, u.entries[|u.parts|..], refs, budget), u, |u.parts|, refs, budget)
  {
  }

  lemma NextReached(root: Doc, u: Unfolding, i: nat, refs: seq<Word>, budget: nat, head: VisitedEntry)
    requires u.Keywords? && |u.parts| == |u.entries| && i < |u.parts|
    requires head == VisitEntry(root, u.entries[i], refs, budget)
    requires EntryReached(head, u.entries[i], u.parts[i], refs, budget)
    requires head.DoneEntry? ==>
               EntriesReached(VisitEntries(root, u.entries[i + 1..], refs, head.budget), u, i + 1, refs, head.budget)
    ensures EntriesReached(VisitEntries(root, u.entries[i..], refs, budget), u, i, refs, budget)
  {
    hide PutShows, LinearBelow, ApartBelow, SizeBelow, VisitEntry;
    assert u.entries[i..][1..] == u.entries[i + 1..];
    if head.DoneEntry? {
      var tail := VisitEntries(root, u.entries[i + 1..], refs, head.budget);
      if tail.DoneEntries? {
        assert u.entries[i..] == [u.entries[i]] + u.entries[i + 1..];
        assert u.parts[i..] == [u.parts[i]] + u.parts[i + 1..];
      }
    }
  }

  lemma {:induction false} EntryReaches(root: Doc, entries: seq<Entry>, parts: seq<Part>, i: nat, p: Part,
                                        refs: seq<Word>, budget: nat)
    requires Ready(root, entries, parts, refs) && i < |entries| == |parts| && p == parts[i]
    ensures EntryReached(VisitEntry(root, entries[i], refs, budget), entries[i], p, refs, budget)
    decreases p, 1, 0
  {
    var e := entries[i];
    EntryUnfoldsExactly(root, e, p);
    SubDocsWellFormed(DDict(entries), i);
    var docs := SubDocs(e).value;
    hide EntryReached, AllReached, VisitEntry, VisitAll, SubDocs, UnfoldsEntry;
    AllReach(root, docs, p, 0, refs, budget);
    OutputReached(root, e, p, refs, budget);
  }

  lemma OutputReached(root: Doc, e: Entry, p: Part, refs: seq<Word>, budget: nat)
    requires SubDocs(e).Some? && UnfoldsAll(root, SubDocs(e).value, p)
    requires AllReached(VisitAll(root, SubDocs(e).value[0..], refs, budget), p, 0, refs, budget)
    ensures EntryReached(VisitEntry(root, e, refs, budget), e, p, refs, budget)
  {
    hide Output, BranchesApart, PutShows, ShowsAll, UnfoldsAll, Linear, UnionsApart, Size;
    assert SubDocs(e).value[0..] == SubDocs(e).value;
    var all := VisitAll(root, SubDocs(e).value, refs, budget);
    assert p.below[0..] == p.below;
    if all.DoneAll? {
      OutputShows(root, e, all.docs, p);
    }
  }

  lemma OutputShows(root: Doc, e: Entry, docs: seq<Doc>, p: Part)
    requires SubDocs(e).Some? && UnfoldsAll(root, SubDocs(e).value, p) && ShowsAll(docs, p.below)
    ensures Output(e, docs).Some? <==> (e.key == AnyOf ==> BranchesApart(e.value.items, p.below))
    ensures Output(e, docs).Some? ==> PutShows(e, Output(e, docs).value, p)
  {
    if e.key == AnyOf {
      ConvertsExactly(e.value.items, docs, p.below);
      AbsorbedTypes(root, e.value.items, docs, p);
    } else if e.key == OneOf {
      UnionShows(docs, p);
    }
  }

  lemma {:induction false} AllReach(root: Doc, docs: seq<Doc>, p: Part, j: nat, refs: seq<Word>, budget: nat)
    requires WellFormed(root) && AllWellFormed(docs) && UnfoldsAll(root, docs, p) && j <= |docs| && |refs| <= 32
    ensures AllReached(VisitAll(root, docs[j..], refs, budget), p, j, refs, budget)
    decreases p, 0, |docs| - j
  {
    if j < |docs| {
      VisitReaches(root, docs[j], p.below[j], refs, budget);
      var head := Visit(root, docs[j], refs, budget);
      if head.Done? {
        AllReach(root, docs, p, j + 1, refs, head.budget);
      }
      NextAllReached(root, docs, p, j, refs, budget, head);
    }
  }

  lemma NextAllReached(root: Doc, docs: seq<Doc>, p: Part, j: nat, refs: seq<Word>, budget: nat, head: Visited)
    requires |docs| == |p.below| && j < |docs| && head == Visit(root, docs[j], refs, budget)
    requires Reached(head, p.below[j], refs, budget)
    requires head.Done? ==> AllReached(VisitAll(root, docs[j + 1..], refs, head.budget), p, j + 1, refs, head.budget)
    ensures AllReached(VisitAll(root, docs[j..], refs, budget), p, j, refs, budget)
  {
    hide Shows, Linear, UnionsApart, Size, Visit;
    assert docs[j..][1..] == docs[j + 1..];
    if head.Done? {
      var tail := VisitAll(root, docs[j + 1..], refs, head.budget);
      if tail.DoneAll? {
        assert p.below[j..] == [p.below[j]] + p.below[j + 1..];
      }
    }
  }

  // ---------------------------------------------------------------------------------------------
  // Notes

  /** A keyword that the projection leaves out although it constrains values. */
  predicate IsDropped(e: Entry) {
    || e.key == AllOf || e.key == If || e.key == Then || e.key == Else || e.key.Limit?
    || (e.key == PatternProperties && e.value.DDict? && e.value.entries != [])
  }

  lemma {:induction false} NotesExactly(root: Doc, entries: seq<Entry>, refs: seq<Word>, budget: nat)
    requires VisitEntries(root, entries, refs, budget).DoneEntries?
    ensures VisitEntries(root, entries, refs, budget).notes <==> exists e | e in entries :: IsDropped(e)
    decreases |entries|
  {
    if entries != [] {
      var head := VisitEntry(root, entries[0], refs, budget);
      NotesExactly(root, entries[1..], refs, head.budget);
      assert head.note == Noted(entries[0]) && (Noted(entries[0]) <==> IsDropped(entries[0]));
      assert forall e :: e in entries <==> e == entries[0] || e in entries[1..];
    }
  }

  /** The projection of a node has a note in its description exactly if it leaves out a constraint. */
  lemma DroppedIsNoted(root: Doc, d: Doc, refs: seq<Word>, budget: nat)
    requires Visit(root, d, refs, budget).Done? && !Has(d.entries, Ref) && (exists e | e in d.entries :: IsDropped(e))
    ensures Visit(root, d, refs, budget).doc.DDict?
    ensures Get(Visit(root, d, refs, budget).doc.entries, Description)
         == Some(DStr(Name("constraints checked on call")))
  {
    VisitKeywordsStep(root, d, refs, budget);
    var r := VisitEntries(root, d.entries, refs, budget - 1);
    NotesExactly(root, d.entries, refs, budget - 1);
    AssembleUnique(r.puts);
    var result := Assemble(r.puts);
    PutUnique(result, Entry(AdditionalProperties, DBool(true)));
    var open := if Has(d.entries, PatternProperties)
                then Put(result, Entry(AdditionalProperties, DBool(true))) else result;
    GetPut(open, Entry(Description, DStr(Name("constraints checked on call"))), Description);
  }

  // ---------------------------------------------------------------------------------------------
  // A visit that succeeds follows an unfolding

  lemma {:induction false} VisitUnfolds(root: Doc, d: Doc, refs: seq<Word>, budget: nat) returns (u: Unfolding)
    requires Visit(root, d, refs, budget).Done?
    ensures Unfolds(root, d, u)
    decreases budget, 1, 0
  {
    hide Expansion;
    if Has(d.entries, Ref) {
      u := ReferenceUnfolds(root, d, refs, budget);
    } else {
      VisitKeywordsStep(root, d, refs, budget);
      var parts := EntriesUnfold(root, d.entries, refs, budget - 1);
      u := Keywords(d.entries, parts);
    }
  }

  lemma {:induction false} ReferenceUnfolds(root: Doc, d: Doc, refs: seq<Word>, budget: nat) returns (u: Unfolding)
    requires Visit(root, d, refs, budget).Done? && Has(d.entries, Ref)
    ensures Unfolds(root, d, u)
    decreases budget, 0, 0
  {
    VisitRefStep(root, d, refs, budget);
    var ref := Get(d.entries, Ref).value.s;
    RefersExactly(root, d.entries, refs, ref);
    var target := VisitUnfolds(root, Referred(root, d.entries, ref), refs + [ref], budget - 1);
    u := Through(ref, target);
  }

  lemma {:induction false} EntriesUnfold(root: Doc, entries: seq<Entry>, refs: seq<Word>, budget: nat)
      returns (parts: seq<Part>)
    requires VisitEntries(root, entries, refs, budget).DoneEntries?
    ensures |parts| == |entries| && forall i | 0 <= i < |parts| :: UnfoldsEntry(root, entries[i], parts[i])
    decreases budget, 4, |entries|
  {
    if entries == [] {
      parts := [];
    } else {
      hide UnfoldsEntry;
      var first := EntryUnfolds(root, entries[0], refs, budget);
      var rest := EntriesUnfold(root, entries[1..], refs, VisitEntry(root, entries[0], refs, budget).budget);
      parts := [first] + rest;
      OneMoreEntry(root, entries, first, rest);
    }
  }

  lemma OneMoreEntry(root: Doc, entries: seq<Entry>, first: Part, rest: seq<Part>)
    requires entries != [] && UnfoldsEntry(root, entries[0], first) && |rest| == |entries| - 1
    requires forall i | 0 <= i < |rest| :: UnfoldsEntry(root, entries[1..][i], rest[i])
    ensures forall i | 0 <= i < |entries| :: UnfoldsEntry(root, entries[i], ([first] + rest)[i])
  {
    hide UnfoldsEntry;
    forall i | 0 < i < |entries| ensures UnfoldsEntry(root, entries[i], ([first] + rest)[i]) {
      assert entries[1..][i - 1] == entries[i];
    }
  }

  lemma {:induction false} EntryUnfolds(root: Doc, e: Entry, refs: seq<Word>, budget: nat) returns (p: Part)
    requires VisitEntry(root, e, refs, budget).DoneEntry?
    ensures UnfoldsEntry(root, e, p)
    decreases budget, 3, 0
  {
    var below := AllUnfold(root, SubDocs(e).value, refs, budget);
    p := Part(below);
    EntryUnfoldsExactly(root, e, p);
  }

  lemma {:induction false} AllUnfold(root: Doc, docs: seq<Doc>, refs: seq<Word>, budget: nat)
      returns (below: seq<Unfolding>)
    requires VisitAll(root, docs, refs, budget).DoneAll?
    ensures |below| == |docs| && forall i | 0 <= i < |docs| :: Unfolds(root, docs[i], below[i])
    decreases budget, 2, |docs|
  {
    if docs == [] {
      below := [];
    } else {
      hide Unfolds;
      VisitAllStep(root, docs, refs, budget);
      var first := VisitUnfolds(root, docs[0], refs, budget);
      var rest := AllUnfold(root, docs[1..], refs, Visit(root, docs[0], refs, budget).budget);
      below := [first] + rest;
      OneMoreUnfolds(root, docs, first, rest);
    }
  }

  lemma OneMoreUnfolds(root: Doc, docs: seq<Doc>, first: Unfolding, rest: seq<Unfolding>)
    requires docs != [] && Unfolds(root, docs[0], first) && |rest| == |docs| - 1
    requires forall i | 0 <= i < |rest| :: Unfolds(root, docs[1..][i], rest[i])
    ensures forall i | 0 <= i < |docs| :: Unfolds(root, docs[i], ([first] + rest)[i])
  {
    hide Unfolds;
    forall i | 0 < i < |docs| ensures Unfolds(root, docs[i], ([first] + rest)[i]) {
      assert docs[1..][i - 1] == docs[i];
    }
  }

  /** A schema has one unfolding at most. */
  lemma {:induction false} UnfoldingIsUnique(root: Doc, d: Doc, u: Unfolding, v: Unfolding)
    requires Unfolds(root, d, u) && Unfolds(root, d, v)
    ensures u == v
    decreases u, 2
  {
    if u.Keywords? && v.Keywords? {
      KeywordsUnfold(root, d, u, 0);
      KeywordsUnfold(root, d, v, 0);
      forall i | 0 <= i < |u.parts| ensures u.parts[i] == v.parts[i] {
        KeywordsUnfold(root, d, u, i);
        KeywordsUnfold(root, d, v, i);
        PartIsUnique(root, u.entries[i], u.parts[i], v.parts[i]);
      }
    } else {
      SameReference(root, d, u, v);
      UnfoldingIsUnique(root, Referred(root, d.entries, u.ref), u.target, v.target);
    }
  }

  lemma SameReference(root: Doc, d: Doc, u: Unfolding, v: Unfolding)
    requires Unfolds(root, d, u) && Unfolds(root, d, v) && !(u.Keywords? && v.Keywords?)
    ensures d.DDict? && u.Through? && v.Through? && u.ref == v.ref && Refers(root, d.entries, u.ref)
    ensures Unfolds(root, Referred(root, d.entries, u.ref), u.target)
    ensures Unfolds(root, Referred(root, d.entries, u.ref), v.target)
  {
    hide UnfoldsEntry;
  }

  lemma {:induction false} PartIsUnique(root: Doc, e: Entry, p: Part, q: Part)
    requires UnfoldsEntry(root, e, p) && UnfoldsEntry(root, e, q)
    ensures p == q
    decreases p, 1
  {
    EntryUnfoldsExactly(root, e, p);
    EntryUnfoldsExactly(root, e, q);
    var docs := SubDocs(e).value;
    hide UnfoldsEntry, SubDocs;
    forall i | 0 <= i < |docs| ensures p.below[i] == q.below[i] {
      UnfoldingIsUnique(root, docs[i], p.below[i], q.below[i]);
    }
    assert p.below == q.below;
  }

  // ---------------------------------------------------------------------------------------------
  // Chains of references

  predicate Bounded(chain: seq<Word>) {
    |chain| <= 32 && Distinct(chain)
  }

  /** Below refs, what is linear is what has bounded chains only. */
  lemma {:induction false} LinearMeansBounded(u: Unfolding, refs: seq<Word>, chain: seq<Word>)
    requires Linear(u, refs) && IsChain(u, chain) && Bounded(refs)
    ensures Bounded(refs + chain)
    decreases u
  {
    if chain == [] {
      assert refs + chain == refs;
    } else if u.Through? {
      assert (refs + [u.ref]) + chain[1..] == refs + chain;
      LinearMeansBounded(u.target, refs + [u.ref], chain[1..]);
    } else {
      var i :| 0 <= i < |u.parts| && IsChainBelow(u.parts[i], chain);
      var j :| 0 <= j < |u.parts[i].below| && IsChain(u.parts[i].below[j], chain);
      assert LinearBelow(u.parts[i], refs);
      LinearMeansBounded(u.parts[i].below[j], refs, chain);
    }
  }

  ghost predicate AllBounded(u: Unfolding, refs: seq<Word>) {
    forall chain | IsChain(u, chain) :: Bounded(refs + chain)
  }

  lemma {:induction false} BoundedMeansLinear(u: Unfolding, refs: seq<Word>)
    requires AllBounded(u, refs)
    ensures Linear(u, refs)
    decreases u
  {
    if u.Through? {
      assert IsChain(u.target, []);
      assert [u.ref][1..] == [] && IsChain(u, [u.ref]);
      assert Bounded(refs + [u.ref]);
      assert (refs + [u.ref])[|refs|] == u.ref;
      ChainsThrough(u, refs);
      BoundedMeansLinear(u.target, refs + [u.ref]);
      assert forall i | 0 <= i < |refs| :: (refs + [u.ref])[i] == refs[i];
    } else {
      forall i | 0 <= i < |u.parts| ensures LinearBelow(u.parts[i], refs) {
        forall j | 0 <= j < |u.parts[i].below| ensures Linear(u.parts[i].below[j], refs) {
          ChainsAcross(u, i, j, refs);
          BoundedMeansLinear(u.parts[i].below[j], refs);
        }
      }
    }
  }

  lemma ChainsThrough(u: Unfolding, refs: seq<Word>)
    requires u.Through? && AllBounded(u, refs)
    ensures AllBounded(u.target, refs + [u.ref])
  {
    forall chain | IsChain(u.target, chain) ensures Bounded((refs + [u.ref]) + chain) {
      assert ([u.ref] + chain)[1..] == chain;
      assert IsChain(u, [u.ref] + chain);
      assert refs + ([u.ref] + chain) == (refs + [u.ref]) + chain;
    }
  }

  lemma ChainsAcross(u: Unfolding, i: nat, j: nat, refs: seq<Word>)
    requires u.Keywords? && i < |u.parts| && j < |u.parts[i].below| && AllBounded(u, refs)
    ensures AllBounded(u.parts[i].below[j], refs)
  {
    forall chain | IsChain(u.parts[i].below[j], chain) ensures Bounded(refs + chain) {
      assert IsChainBelow(u.parts[i], chain);
      assert IsChain(u, chain);
    }
  }

  lemma LinearExactly(u: Unfolding)
    ensures Linear(u, []) <==> forall chain | IsChain(u, chain) :: |chain| <= 32 && Distinct(chain)
  {
    assert forall chain: seq<Word> :: [] + chain == chain;
    if Linear(u, []) {
      forall chain | IsChain(u, chain) ensures Bounded(chain) {
        LinearMeansBounded(u, [], chain);
      }
    }
    if forall chain | IsChain(u, chain) :: Bounded(chain) {
      BoundedMeansLinear(u, []);
    }
  }

  // ---------------------------------------------------------------------------------------------
  // Main results

  /** What a schema needs to be projected: an unfolding of at most that many nodes, with at most 32 references in a
      chain and none twice, and with the branches of every anyOf apart. */
  ghost predicate Projectable(schema: Doc, u: Unfolding, budget: nat) {
    && Unfolds(schema, schema, u)
    && (forall chain | IsChain(u, chain) :: |chain| <= 32 && Distinct(chain))
    && UnionsApart(u)
    && Size(u) <= budget
  }

  lemma ProjectedIfProjectable(schema: Doc, u: Unfolding, budget: nat)
    requires WellFormed(schema) && Unfolds(schema, schema, u)
    ensures ProjectWithin(schema, budget).Some? <==> Projectable(schema, u, budget)
  {
    hide Visit, Unfolds, Linear, UnionsApart, Size, IsChain, Shows, WellFormed;
    VisitReaches(schema, schema, u, [], budget);
    LinearExactly(u);
  }

  /** A schema has a projection exactly if it is projectable within 4096 nodes. */
  lemma ProjectionExists(schema: Doc)
    requires WellFormed(schema)
    ensures Project(schema).Some? <==> exists u :: Projectable(schema, u, 4096)
  {
    if Project(schema).Some? {
      var u := VisitUnfolds(schema, schema, [], BUDGET);
      ProjectedIfProjectable(schema, u, BUDGET);
    }
    if u :| Projectable(schema, u, 4096) {
      ProjectedIfProjectable(schema, u, BUDGET);
    }
  }
}
