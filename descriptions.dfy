/** descriptions.py: WordNet concepts sampled into entity descriptions and
    pantheons. WordNet is the `children` oracle (a synset name to the names of
    its hyponyms, in WordNet's order); RIPEMD-160 and the random generator are
    parameters. */
module Descriptions {
  import opened Outcomes
  import opened Text
  import opened Draws
  import Phonetics

  /** `wn.synset(name).hyponyms()`, by name. */
  type Oracle = string -> seq<string>

  /** CONCEPT_CACHE: a concept root to the concept list loaded for it. */
  type Cache = map<string, seq<string>>

  const PropertyRoots: seq<string> :=
    ["attribute.n.02", "entity.n.01", "location.n.01",
     "motivation.n.01", "natural_phenomenon.n.01",
     "property.n.02", "quality.n.01", "substance.n.01",
     "system.n.01", "trait.n.01"]
  const RelationshipRoots: seq<string> := ["relation.n.01"]
  const EventRoots: seq<string> := ["event.n.01"]

  const MinEntities := 1
  const MaxEntities := 13
  const MinDepth := 1
  const MaxDepth := 2
  const MinProperties := 1
  const MaxProperties := |PropertyRoots|
  const MinEvents := 0
  const MaxEvents := 5
  const MinRelationships := 0
  const MaxRelationships := 4

  /** `sys.maxint` on a 64-bit build: the default depth, in effect unbounded. */
  const MaxInt := 0x7fff_ffff_ffff_ffff

  // ---------------------------------------------------------------------
  // Names

  /** cleanWordNetName: the part before the first '.', with '_' read as ' '. */
  function CleanWordNetName(name: string): (r: string)
    ensures |r| <= |name| && (|r| == |name| || name[|r|] == '.')
    ensures forall i :: 0 <= i < |r| ==>
              name[i] != '.' && r[i] == (if name[i] == '_' then ' ' else name[i])
    ensures '.' !in r && '_' !in r
  {
    var head := Split(name, '.')[0];
    SplitHead(name, '.');
    ReplaceChar(head, '_', ' ');
    ReplaceAll(head, "_", " ")
  }

  function CleanWordNetList(names: seq<string>): (r: seq<string>)
    ensures |r| == |names|
    ensures forall i :: 0 <= i < |r| ==> r[i] == CleanWordNetName(names[i])
  {
    seq(|names|, i requires 0 <= i < |names| => CleanWordNetName(names[i]))
  }

  /** A cleaned name keeps every character up to the first '.' that is not '_'. */
  lemma CleanKeepsPlainNames(name: string)
    requires '.' !in name && '_' !in name
    ensures CleanWordNetName(name) == name
  {
  }

  /** A name whose first '.' is at `n` cleans to its first `n` characters with '_' read as ' '. */
  lemma CleanOne(name: string, n: nat)
    requires n < |name| && name[n] == '.' && '.' !in name[..n]
    ensures CleanWordNetName(name) ==
      seq(n, i requires 0 <= i < n => if name[i] == '_' then ' ' else name[i])
  {
  }

  /** removeAlreadyUsed: the items of `b` that are not in `a`, each once.
      Python builds a set, so its order is the set's; here the first
      occurrences keep the order they have in `b`. */
  function RemoveAlreadyUsed(a: seq<string>, b: seq<string>): (r: seq<string>)
    ensures NoDups(r)
    ensures forall x :: x in r <==> x in b && x !in a
    ensures |r| <= |b|
  {
    if b == [] then []
    else
      var prev := RemoveAlreadyUsed(a, b[..|b| - 1]);
      var x := b[|b| - 1];
      if x in a || x in prev then prev else prev + [x]
  }

  // ---------------------------------------------------------------------
  // Hyponym traversal

  /** What recurse_hyponyms appends below `synset`: each hyponym, then its own
      descendants, to `depth` levels (none when `depth <= 0`). */
  function Descendants(children: Oracle, synset: string, depth: int): seq<string>
    decreases if depth > 0 then depth else 0, 0, 0
  {
    if depth <= 0 then [] else Forest(children, children(synset), depth - 1)
  }

  /** The pre-order listing of `hyponyms`, each followed by its descendants to `depth` levels. */
  function Forest(children: Oracle, hyponyms: seq<string>, depth: int): seq<string>
    decreases if depth > 0 then depth else 0, 1, |hyponyms|
  {
    if hyponyms == [] then []
    else
      var last := hyponyms[|hyponyms| - 1];
      Forest(children, hyponyms[..|hyponyms| - 1], depth) + [last] + Descendants(children, last, depth)
  }

  lemma {:induction false} ForestAppend(children: Oracle, a: seq<string>, b: seq<string>, depth: int)
    ensures Forest(children, a + b, depth) == Forest(children, a, depth) + Forest(children, b, depth)
    decreases |b|
  {
    if b == [] {
      assert a + b == a;
    } else {
      assert (a + b)[..|a + b| - 1] == a + b[..|b| - 1];
      ForestAppend(children, a, b[..|b| - 1], depth);
    }
  }

  /** Pre-order: the first hyponym, its whole subtree, then the remaining hyponyms. */
  lemma ForestCons(children: Oracle, h: string, rest: seq<string>, depth: int)
    ensures Forest(children, [h] + rest, depth) ==
            [h] + Descendants(children, h, depth) + Forest(children, rest, depth)
  {
    ForestAppend(children, [h], rest, depth);
    assert [h][..0] == [];
  }

  /** Below the depth limit every hyponym is listed without its own hyponyms. */
  lemma {:induction false} ForestAtLimit(children: Oracle, hyponyms: seq<string>, depth: int)
    requires depth <= 0
    ensures Forest(children, hyponyms, depth) == hyponyms
    decreases |hyponyms|
  {
    if hyponyms != [] {
      ForestAtLimit(children, hyponyms[..|hyponyms| - 1], depth);
    }
  }

  /** At depth one the list is the synset's own hyponyms. */
  lemma DepthOne(children: Oracle, synset: string)
    ensures Descendants(children, synset, 1) == children(synset)
  {
    ForestAtLimit(children, children(synset), 0);
  }

  /** A synset without hyponyms has no descendants at any depth. */
  lemma {:induction false} LeafHasNoDescendants(children: Oracle, synset: string, depth: int)
    requires children(synset) == []
    ensures Descendants(children, synset, depth) == []
  {
  }

  /** recurse_hyponyms: appends the descendants of `synset` to `allHyponyms`. */
  method RecurseHyponyms(children: Oracle, synset: string, allHyponyms: seq<string>, maxDepth: int)
    returns (r: seq<string>)
    ensures r == allHyponyms + Descendants(children, synset, maxDepth)
    decreases if maxDepth > 0 then maxDepth else 0
  {
    r := allHyponyms;
    if maxDepth > 0 {
      var synsetHyponyms := children(synset);
      for i := 0 to |synsetHyponyms|
        invariant r == allHyponyms + Forest(children, synsetHyponyms[..i], maxDepth - 1)
      {
        var hyponym := synsetHyponyms[i];
        r := r + [hyponym];
        r := RecurseHyponyms(children, hyponym, r, maxDepth - 1);
        assert synsetHyponyms[..i + 1][..i] == synsetHyponyms[..i];
      }
      assert synsetHyponyms[..|synsetHyponyms|] == synsetHyponyms;
    }
  }

  // ---------------------------------------------------------------------
  // The concept cache

  /** getOrCacheConceptList's answer: the cached list when the root has one,
      whatever depth it was loaded at, and otherwise a fresh traversal. */
  function Lookup(c: Cache, children: Oracle, root: string, depth: int): seq<string> {
    if root in c then c[root] else Descendants(children, root, depth)
  }

  /** The cache after getOrCacheConceptList: a root is loaded only once. */
  function Insert(c: Cache, children: Oracle, root: string, depth: int): Cache {
    if root in c then c else c[root := Descendants(children, root, depth)]
  }

  /** The cache after looking up each root of `roots` in turn. */
  function InsertAll(c: Cache, children: Oracle, roots: seq<string>, depth: int): Cache {
    if roots == [] then c
    else Insert(InsertAll(c, children, roots[..|roots| - 1], depth), children, roots[|roots| - 1], depth)
  }

  /** The lists the roots of `roots` look up, in order. */
  function LookupAll(c: Cache, children: Oracle, roots: seq<string>, depth: int): (r: seq<seq<string>>)
    ensures |r| == |roots|
  {
    seq(|roots|, i requires 0 <= i < |roots| => Lookup(c, children, roots[i], depth))
  }

  /** A second lookup of a root answers what the first did, at any depth. */
  lemma LookupAfterInsert(c: Cache, children: Oracle, root: string, depth: int, depth2: int)
    ensures root in Insert(c, children, root, depth)
    ensures Lookup(Insert(c, children, root, depth), children, root, depth2) == Lookup(c, children, root, depth)
    ensures Insert(Insert(c, children, root, depth), children, root, depth2) == Insert(c, children, root, depth)
  {
  }

  /** A lookup adds at most its own root and changes no entry already there. */
  lemma {:induction false} InsertAllEntries(c: Cache, children: Oracle, roots: seq<string>, depth: int)
    ensures forall k :: k in InsertAll(c, children, roots, depth) <==> k in c || k in roots
    ensures forall k :: k in c ==> InsertAll(c, children, roots, depth)[k] == c[k]
  {
    if roots != [] {
      InsertAllEntries(c, children, roots[..|roots| - 1], depth);
      assert roots == roots[..|roots| - 1] + [roots[|roots| - 1]];
    }
  }

  lemma {:induction false} InsertAllAppend(c: Cache, children: Oracle, a: seq<string>, b: seq<string>, depth: int)
    ensures InsertAll(InsertAll(c, children, a, depth), children, b, depth) == InsertAll(c, children, a + b, depth)
    decreases |b|
  {
    if b == [] {
      assert a + b == a;
    } else {
      assert (a + b)[..|a + b| - 1] == a + b[..|b| - 1];
      InsertAllAppend(c, children, a, b[..|b| - 1], depth);
    }
  }

  /** Looking the same roots up again changes nothing. */
  lemma InsertAllTwice(c: Cache, children: Oracle, roots: seq<string>, depth: int)
    ensures InsertAll(InsertAll(c, children, roots, depth), children, roots, depth) == InsertAll(c, children, roots, depth)
  {
    InsertAllEntries(c, children, roots, depth);
    InsertAllPresent(InsertAll(c, children, roots, depth), children, roots, depth);
  }

  lemma {:induction false} InsertAllPresent(c: Cache, children: Oracle, roots: seq<string>, depth: int)
    requires forall i :: 0 <= i < |roots| ==> roots[i] in c
    ensures InsertAll(c, children, roots, depth) == c
  {
    if roots != [] {
      InsertAllPresent(c, children, roots[..|roots| - 1], depth);
    }
  }

  /** Caching is transparent at a fixed depth: after any lookups at `depth`,
      every root looks up the list it would have looked up before. */
  lemma {:induction false} LookupThroughInserts(c: Cache, children: Oracle, roots: seq<string>, root: string, depth: int)
    ensures Lookup(InsertAll(c, children, roots, depth), children, root, depth) == Lookup(c, children, root, depth)
  {
    if roots != [] {
      LookupThroughInserts(c, children, roots[..|roots| - 1], root, depth);
    }
  }

  /** chooseLeafConcepts has looked up the first `i` concepts: `leaves` are
      their lists and `now` the cache they left behind. */
  ghost predicate LookedUpSoFar(c0: Cache, children: Oracle, concepts: seq<string>, depth: int, i: nat,
                                leaves: seq<seq<string>>, now: Cache) {
    && i <= |concepts|
    && leaves == LookupAll(c0, children, concepts[..i], depth)
    && now == InsertAll(c0, children, concepts[..i], depth)
  }

  /** Concept `i` looks up against the cache the earlier ones left what it would have before them. */
  lemma LookupAdvance(c0: Cache, children: Oracle, concepts: seq<string>, depth: int, i: nat,
                      leaves: seq<seq<string>>, now: Cache)
    requires LookedUpSoFar(c0, children, concepts, depth, i, leaves, now) && i < |concepts|
    ensures LookedUpSoFar(c0, children, concepts, depth, i + 1,
                          leaves + [Lookup(now, children, concepts[i], depth)], Insert(now, children, concepts[i], depth))
  {
    LookupThroughInserts(c0, children, concepts[..i], concepts[i], depth);
    assert concepts[..i + 1][..i] == concepts[..i];
    assert LookupAll(c0, children, concepts[..i + 1], depth) ==
           LookupAll(c0, children, concepts[..i], depth) + [Lookup(c0, children, concepts[i], depth)];
  }

  /** Two caches that answer every root alike at `depth`. */
  ghost predicate SameLookups(c1: Cache, c2: Cache, children: Oracle, depth: int) {
    forall r :: Lookup(c1, children, r, depth) == Lookup(c2, children, r, depth)
  }

  lemma InsertsKeepLookups(c1: Cache, c2: Cache, children: Oracle, roots: seq<string>, depth: int)
    requires SameLookups(c1, c2, children, depth)
    ensures SameLookups(c1, InsertAll(c2, children, roots, depth), children, depth)
  {
    forall r ensures Lookup(c1, children, r, depth) == Lookup(InsertAll(c2, children, roots, depth), children, r, depth) {
      LookupThroughInserts(c2, children, roots, r, depth);
    }
  }

  /** The list chooseLeafConcepts samples from: the looked-up lists merged,
      or the roots themselves when all of them are empty. */
  function Population(c: Cache, children: Oracle, concepts: seq<string>, depth: int): seq<string> {
    var merged := Flatten(LookupAll(c, children, concepts, depth));
    if |merged| == 0 then concepts else merged
  }

  lemma SamePopulation(c1: Cache, c2: Cache, children: Oracle, concepts: seq<string>, depth: int)
    requires SameLookups(c1, c2, children, depth)
    ensures Population(c1, children, concepts, depth) == Population(c2, children, concepts, depth)
  {
    assert LookupAll(c1, children, concepts, depth) == LookupAll(c2, children, concepts, depth);
  }

  /** The population: every looked-up concept, and the roots only when nothing was found. */
  lemma {:induction false} PopulationMembers(c: Cache, children: Oracle, concepts: seq<string>, depth: int, x: string)
    ensures x in Population(c, children, concepts, depth) <==>
      if Flatten(LookupAll(c, children, concepts, depth)) == [] then x in concepts
      else exists i :: 0 <= i < |concepts| && x in Lookup(c, children, concepts[i], depth)
  {
    var leaves := LookupAll(c, children, concepts, depth);
    if Flatten(leaves) != [] {
      if x in Flatten(leaves) {
        FlattenMember(leaves, x);
      }
      if exists i :: 0 <= i < |concepts| && x in Lookup(c, children, concepts[i], depth) {
        var i :| 0 <= i < |concepts| && x in Lookup(c, children, concepts[i], depth);
        assert leaves == leaves[..i] + [leaves[i]] + leaves[i + 1..];
        FlattenAppend(leaves[..i] + [leaves[i]], leaves[i + 1..]);
        FlattenAppend(leaves[..i], [leaves[i]]);
        assert Flatten([leaves[i]]) == leaves[i] by {
          assert [leaves[i]][..0] == [];
        }
      }
    }
  }

  /** chooseLeafConcepts, computed from the cache before the call. */
  function LeafChoice(c: Cache, children: Oracle, concepts: seq<string>, count: int, depth: int, picks: seq<nat>): Result<seq<string>>
    requires SampleFits(picks, count, |Population(c, children, concepts, depth)|)
  {
    Sample(Population(c, children, concepts, depth), count, picks)
  }

  /** chooseLeafConcepts raises exactly when asked for more concepts than the
      population holds (or a negative count); otherwise it returns `count`
      concepts of the population, none more often than it holds them. */
  lemma LeafChoiceShape(c: Cache, children: Oracle, concepts: seq<string>, count: int, depth: int, picks: seq<nat>)
    requires SampleFits(picks, count, |Population(c, children, concepts, depth)|)
    ensures var pop := Population(c, children, concepts, depth);
      var r := LeafChoice(c, children, concepts, count, depth, picks);
      && (r.Err? <==> !(0 <= count <= |pop|))
      && (r.Ok? ==>
            && |r.value| == count
            && (forall i :: 0 <= i < count ==> r.value[i] == pop[picks[i]])
            && multiset(r.value) <= multiset(pop))
  {
    var pop := Population(c, children, concepts, depth);
    if 0 <= count <= |pop| {
      SelectSubMultiset(pop, picks);
    }
  }

  // ---------------------------------------------------------------------
  // The choosers, as functions of the cache before the call

  /** The draws suit one chooseEvents call. */
  predicate EventDrawsFit(c: Cache, children: Oracle, count: int, picks: seq<nat>) {
    && InRandint(count, MinEvents, MaxEvents)
    && SampleFits(picks, count, |Population(c, children, EventRoots, MaxInt)|)
  }

  /** chooseEvents: `count` events under event.n.01, cleaned. */
  function Events(c: Cache, children: Oracle, count: int, picks: seq<nat>): Result<seq<string>>
    requires EventDrawsFit(c, children, count, picks)
  {
    var events :- LeafChoice(c, children, EventRoots, count, MaxInt, picks);
    Ok(CleanWordNetList(events))
  }

  /** choosePastAndFutureEvents: the legends, and the prophecies that are not legends. */
  function PastAndFuture(c: Cache, children: Oracle, pastCount: int, pastPicks: seq<nat>,
                         futureCount: int, futurePicks: seq<nat>): Result<(seq<string>, seq<string>)>
    requires EventDrawsFit(c, children, pastCount, pastPicks)
    requires EventDrawsFit(c, children, futureCount, futurePicks)
  {
    var past :- Events(c, children, pastCount, pastPicks);
    var future :- Events(c, children, futureCount, futurePicks);
    Ok((past, RemoveAlreadyUsed(past, future)))
  }

  /** At most five legends and five prophecies; no prophecy is also a legend, none
      is repeated, and every second-round event that is not a legend is a prophecy.
      The call raises exactly when a round asks for more events than there are. */
  lemma PastAndFutureShape(c: Cache, children: Oracle, pastCount: int, pastPicks: seq<nat>,
                           futureCount: int, futurePicks: seq<nat>)
    requires EventDrawsFit(c, children, pastCount, pastPicks)
    requires EventDrawsFit(c, children, futureCount, futurePicks)
    ensures var n := |Population(c, children, EventRoots, MaxInt)|;
      PastAndFuture(c, children, pastCount, pastPicks, futureCount, futurePicks).Err? <==>
        pastCount > n || futureCount > n
    ensures var r := PastAndFuture(c, children, pastCount, pastPicks, futureCount, futurePicks);
      r.Ok? ==>
        var (past, future) := r.value;
        var second := Events(c, children, futureCount, futurePicks).value;
        && |past| == pastCount <= MaxEvents
        && |future| <= futureCount <= MaxEvents
        && NoDups(future)
        && (forall x :: x in future <==> x in second && x !in past)
  {
  }

  /** The draws suit chooseRelationships: a count randint(0, min(len(others), 4))
      can give, and samples of that size. */
  predicate RelationshipDrawsFit(c: Cache, children: Oracle, entity: string, entities: seq<string>,
                                 count: int, picks: seq<nat>, targetPicks: seq<nat>) {
    var others := RemoveAlreadyUsed([entity], entities);
    && InRandint(count, MinRelationships, Min(|others|, MaxRelationships))
    && SampleFits(picks, count, |Population(c, children, RelationshipRoots, MaxInt)|)
    && SampleFits(targetPicks, count, |others|)
  }

  /** chooseRelationships: relation concepts paired with other entities. */
  function Relationships(c: Cache, children: Oracle, entity: string, entities: seq<string>,
                         count: int, picks: seq<nat>, targetPicks: seq<nat>): Result<seq<(string, string)>>
    requires RelationshipDrawsFit(c, children, entity, entities, count, picks, targetPicks)
  {
    var others := RemoveAlreadyUsed([entity], entities);
    var relationships :- LeafChoice(c, children, RelationshipRoots, count, MaxInt, picks);
    var targets :- Sample(others, |relationships|, targetPicks);
    Ok(Zip(CleanWordNetList(relationships), targets))
  }

  /** At most four relations and no more than there are other entities; each
      targets another entity of the pantheon, never the entity itself, and no
      entity twice; each label is a cleaned relation concept. */
  lemma RelationshipsShape(c: Cache, children: Oracle, entity: string, entities: seq<string>,
                           count: int, picks: seq<nat>, targetPicks: seq<nat>)
    requires RelationshipDrawsFit(c, children, entity, entities, count, picks, targetPicks)
    ensures var pop := Population(c, children, RelationshipRoots, MaxInt);
      var r := Relationships(c, children, entity, entities, count, picks, targetPicks);
      && (r.Err? <==> count > |pop|)
      && (r.Ok? ==>
            && |r.value| == count <= MaxRelationships
            && count <= |RemoveAlreadyUsed([entity], entities)|
            && (forall i :: 0 <= i < |r.value| ==>
                  && r.value[i].0 == CleanWordNetName(pop[picks[i]])
                  && r.value[i].1 in entities && r.value[i].1 != entity)
            && (forall i, j :: 0 <= i < j < |r.value| ==> r.value[i].1 != r.value[j].1))
  {
    var others := RemoveAlreadyUsed([entity], entities);
    if 0 <= count <= |Population(c, children, RelationshipRoots, MaxInt)| {
      SelectNoDups(others, targetPicks);
      var targets := Select(others, targetPicks);
      assert forall i :: 0 <= i < count ==> targets[i] in others;
    }
  }

  /** The population one property root samples its value from. */
  function RootPopulation(c: Cache, children: Oracle, root: string): (r: seq<string>)
    ensures |r| > 0
  {
    Population(c, children, [root], MaxInt)
  }

  /** The draws suit choosePropertyValues: one position per root. */
  predicate PropertyDrawsFit(c: Cache, children: Oracle, roots: seq<string>, picks: seq<nat>) {
    && |picks| == |roots|
    && forall i :: 0 <= i < |roots| ==> picks[i] < |RootPopulation(c, children, roots[i])|
  }

  /** The one-concept lists chooseLeafConcepts([root], 1) returns for each root. */
  function PropertyChoices(c: Cache, children: Oracle, roots: seq<string>, picks: seq<nat>): (r: seq<seq<string>>)
    requires PropertyDrawsFit(c, children, roots, picks)
    ensures |r| == |roots|
  {
    seq(|roots|, i requires 0 <= i < |roots| => [RootPopulation(c, children, roots[i])[picks[i]]])
  }

  /** A single draw from a root's population is the one-concept sample chooseLeafConcepts takes. */
  lemma PropertyChoiceIsSample(c: Cache, children: Oracle, root: string, pick: nat)
    requires pick < |RootPopulation(c, children, root)|
    ensures LeafChoice(c, children, [root], 1, MaxInt, [pick]) == Ok([RootPopulation(c, children, root)[pick]])
  {
    var pop := RootPopulation(c, children, root);
    assert Select(pop, [pick]) == [pop[pick]];
  }

  /** choosePropertyValues has drawn the values of the first `i` roots:
      `properties` are their one-concept lists and `now` the cache they left. */
  ghost predicate PropertiesSoFar(c0: Cache, children: Oracle, roots: seq<string>, picks: seq<nat>, i: nat,
                                  properties: seq<seq<string>>, now: Cache) {
    && PropertyDrawsFit(c0, children, roots, picks)
    && i <= |roots|
    && properties == PropertyChoices(c0, children, roots, picks)[..i]
    && now == InsertAll(c0, children, roots[..i], MaxInt)
  }

  /** Root `i` is sampled from the population it had before the call, and
      loading it extends the cache by that root. */
  lemma PropertyAdvance(c0: Cache, children: Oracle, roots: seq<string>, picks: seq<nat>, i: nat,
                        properties: seq<seq<string>>, now: Cache)
    requires PropertiesSoFar(c0, children, roots, picks, i, properties, now)
    requires i < |roots|
    ensures SampleFits([picks[i]], 1, |Population(now, children, [roots[i]], MaxInt)|)
    ensures var v := LeafChoice(now, children, [roots[i]], 1, MaxInt, [picks[i]]);
      && v.Ok?
      && PropertiesSoFar(c0, children, roots, picks, i + 1, properties + [v.value],
                         InsertAll(now, children, [roots[i]], MaxInt))
  {
    LoadedPopulation(c0, children, roots[..i], roots[i]);
    PropertyChoiceIsSample(now, children, roots[i], picks[i]);
    assert roots[..i + 1] == roots[..i] + [roots[i]];
    InsertAllAppend(c0, children, roots[..i], [roots[i]], MaxInt);
    var all := PropertyChoices(c0, children, roots, picks);
    assert all[..i + 1] == all[..i] + [all[i]];
  }

  /** Loading roots into the cache leaves every root's population as it was. */
  lemma LoadedPopulation(c0: Cache, children: Oracle, loaded: seq<string>, root: string)
    ensures RootPopulation(InsertAll(c0, children, loaded, MaxInt), children, root) == RootPopulation(c0, children, root)
  {
    InsertsKeepLookups(c0, c0, children, loaded, MaxInt);
    SamePopulation(c0, InsertAll(c0, children, loaded, MaxInt), children, [root], MaxInt);
  }

  /** choosePropertyValues: each root, cleaned, with a cleaned concept drawn under it. */
  function PropertyValues(c: Cache, children: Oracle, roots: seq<string>, picks: seq<nat>): seq<(string, string)>
    requires PropertyDrawsFit(c, children, roots, picks)
  {
    Zip(CleanWordNetList(roots), CleanWordNetList(Flatten(PropertyChoices(c, children, roots, picks))))
  }

  /** One property per root, in the roots' order, named by the cleaned root and
      valued by a cleaned concept of that root's population: a concept below the
      root, or the root itself when it has none. */
  lemma PropertyValuesShape(c: Cache, children: Oracle, roots: seq<string>, picks: seq<nat>)
    requires PropertyDrawsFit(c, children, roots, picks)
    ensures var r := PropertyValues(c, children, roots, picks);
      && |r| == |roots|
      && forall i :: 0 <= i < |r| ==>
           && r[i].0 == CleanWordNetName(roots[i])
           && r[i].1 == CleanWordNetName(RootPopulation(c, children, roots[i])[picks[i]])
           && (Lookup(c, children, roots[i], MaxInt) == [] ==> r[i].1 == CleanWordNetName(roots[i]))
           && (Lookup(c, children, roots[i], MaxInt) != [] ==>
                 RootPopulation(c, children, roots[i])[picks[i]] in Lookup(c, children, roots[i], MaxInt))
  {
    var choices := PropertyChoices(c, children, roots, picks);
    FlattenSingletons(choices);
    forall i | 0 <= i < |roots|
      ensures RootPopulation(c, children, roots[i]) ==
              if Lookup(c, children, roots[i], MaxInt) == [] then [roots[i]] else Lookup(c, children, roots[i], MaxInt)
    {
      var leaves := LookupAll(c, children, [roots[i]], MaxInt);
      assert leaves == [Lookup(c, children, roots[i], MaxInt)];
      assert leaves[..0] == [];
      assert Flatten(leaves) == Flatten(leaves[..0]) + leaves[0];
    }
  }

  /** The draws suit choosePropertyRoots. */
  predicate PropertyRootDrawsFit(c: Cache, children: Oracle, count: int, depth: int, picks: seq<nat>) {
    && InRandint(count, MinProperties, MaxProperties)
    && InRandint(depth, MinDepth, MaxDepth)
    && SampleFits(picks, count, |Population(c, children, PropertyRoots, depth)|)
  }

  /** choosePropertyRoots picks one to ten concepts from one or two levels below
      the ten property roots (the roots themselves if nothing lies below them). */
  lemma PropertyRootsShape(c: Cache, children: Oracle, count: int, depth: int, picks: seq<nat>, x: string)
    requires PropertyRootDrawsFit(c, children, count, depth, picks)
    ensures var r := LeafChoice(c, children, PropertyRoots, count, depth, picks);
      r.Ok? ==>
        && 1 <= |r.value| <= 10
        && (x in r.value ==>
              if Flatten(LookupAll(c, children, PropertyRoots, depth)) == [] then x in PropertyRoots
              else exists i :: 0 <= i < |PropertyRoots| && x in Lookup(c, children, PropertyRoots[i], depth))
  {
    var pop := Population(c, children, PropertyRoots, depth);
    var r := LeafChoice(c, children, PropertyRoots, count, depth, picks);
    if r.Ok? && x in r.value {
      var k :| 0 <= k < |r.value| && r.value[k] == x;
      assert x == pop[picks[k]];
      PopulationMembers(c, children, PropertyRoots, depth, x);
    }
  }

  // ---------------------------------------------------------------------
  // An entity's description

  /** The draws random.seed(entity_name) leads describeEntity to make, in the order it makes them. */
  datatype EntityDraws = EntityDraws(
    valuePicks: seq<nat>,            // choosePropertyValues: one sample position per root
    pastCount: int, pastPicks: seq<nat>,
    futureCount: int, futurePicks: seq<nat>,
    relationCount: int, relationPicks: seq<nat>, targetPicks: seq<nat>)

  predicate EntityDrawsFit(c: Cache, children: Oracle, entity: string, entities: seq<string>,
                           roots: seq<string>, d: EntityDraws) {
    && PropertyDrawsFit(c, children, roots, d.valuePicks)
    && EventDrawsFit(c, children, d.pastCount, d.pastPicks)
    && EventDrawsFit(c, children, d.futureCount, d.futurePicks)
    && RelationshipDrawsFit(c, children, entity, entities, d.relationCount, d.relationPicks, d.targetPicks)
  }

  function PronouncedLine(asciiName: string): string {
    "<b>Pronounced: </b> " + asciiName + "<br>"
  }

  function PropertyLine(title: string -> string, attribute: (string, string)): string {
    "<b>" + title(attribute.0) + "</b>: " + attribute.1 + ".<br>"
  }

  function PropertyLines(title: string -> string, properties: seq<(string, string)>): (r: seq<string>)
    ensures |r| == |properties|
  {
    seq(|properties|, i requires 0 <= i < |properties| => PropertyLine(title, properties[i]))
  }

  /** A labelled, comma-separated line, present only when there are items. */
  function ListLine(heading: string, items: seq<string>): seq<string> {
    if items == [] then [] else [heading + Join(", ", items) + ".<br>"]
  }

  /** "target (label)" for each relationship. */
  function RelationTexts(relationships: seq<(string, string)>): (r: seq<string>)
    ensures |r| == |relationships|
  {
    seq(|relationships|, i requires 0 <= i < |relationships| =>
          relationships[i].1 + " (" + relationships[i].0 + ")")
  }

  function RelationsLine(relationships: seq<(string, string)>): seq<string> {
    if relationships == [] then [] else ["<b>Relations</b>: " + Join(", ", RelationTexts(relationships)) + "."]
  }

  /** The lines of a description: pronunciation, one line per property, then
      legends, prophecies and relations when there are any. */
  function EntityLines(title: string -> string, asciiName: string, properties: seq<(string, string)>,
                       past: seq<string>, future: seq<string>, relationships: seq<(string, string)>): seq<string>
  {
    [PronouncedLine(asciiName)] + PropertyLines(title, properties)
      + ListLine("<b>Legends:</b> ", past) + ListLine("<b>Prophecies:</b> ", future)
      + RelationsLine(relationships)
  }

  predicate NoNewline(s: string) {
    '\n' !in s
  }

  predicate NoNewlines(ss: seq<string>) {
    forall i :: 0 <= i < |ss| ==> '\n' !in ss[i]
  }

  /** The description has one pronunciation line, one line per property, and at
      most one line each for legends, prophecies and relations, in that order. */
  lemma EntityLinesShape(title: string -> string, asciiName: string, properties: seq<(string, string)>,
                         past: seq<string>, future: seq<string>, relationships: seq<(string, string)>)
    ensures var lines := EntityLines(title, asciiName, properties, past, future, relationships);
      && |lines| == 1 + |properties| + (if past == [] then 0 else 1) + (if future == [] then 0 else 1)
                    + (if relationships == [] then 0 else 1)
      && lines[0] == PronouncedLine(asciiName)
      && (forall i :: 0 <= i < |properties| ==> lines[1 + i] == PropertyLine(title, properties[i]))
      && (past != [] ==> lines[1 + |properties|] == "<b>Legends:</b> " + Join(", ", past) + ".<br>")
      && (future != [] ==>
            lines[1 + |properties| + (if past == [] then 0 else 1)] ==
            "<b>Prophecies:</b> " + Join(", ", future) + ".<br>")
      && (relationships != [] ==>
            lines[|lines| - 1] == "<b>Relations</b>: " + Join(", ", RelationTexts(relationships)) + ".")
  {
  }

  lemma NoNewlinesAppend(a: seq<string>, b: seq<string>)
    requires NoNewlines(a) && NoNewlines(b)
    ensures NoNewlines(a + b)
  {
  }

  lemma PronouncedLineNoNewline(asciiName: string)
    requires NoNewline(asciiName)
    ensures NoNewline(PronouncedLine(asciiName))
  {
  }

  lemma PropertyLineNoNewline(title: string -> string, attribute: (string, string))
    requires NoNewline(title(attribute.0)) && NoNewline(attribute.1)
    ensures NoNewline(PropertyLine(title, attribute))
  {
  }

  lemma ListLineNoNewline(heading: string, items: seq<string>)
    requires NoNewline(heading) && NoNewlines(items)
    ensures NoNewlines(ListLine(heading, items))
  {
    JoinAvoids(", ", items, '\n');
  }

  lemma RelationsLineNoNewline(relationships: seq<(string, string)>)
    requires forall i :: 0 <= i < |relationships| ==> NoNewline(relationships[i].0) && NoNewline(relationships[i].1)
    ensures NoNewlines(RelationsLine(relationships))
  {
    JoinAvoids(", ", RelationTexts(relationships), '\n');
  }

  lemma EntityLinesNoNewlines(title: string -> string, asciiName: string, properties: seq<(string, string)>,
                              past: seq<string>, future: seq<string>, relationships: seq<(string, string)>)
    requires NoNewline(asciiName) && NoNewlines(past) && NoNewlines(future)
    requires forall i :: 0 <= i < |properties| ==> NoNewline(title(properties[i].0)) && NoNewline(properties[i].1)
    requires forall i :: 0 <= i < |relationships| ==> NoNewline(relationships[i].0) && NoNewline(relationships[i].1)
    ensures NoNewlines(EntityLines(title, asciiName, properties, past, future, relationships))
  {
    PronouncedLineNoNewline(asciiName);
    forall i | 0 <= i < |properties| ensures NoNewline(PropertyLines(title, properties)[i]) {
      PropertyLineNoNewline(title, properties[i]);
    }
    ListLineNoNewline("<b>Legends:</b> ", past);
    ListLineNoNewline("<b>Prophecies:</b> ", future);
    RelationsLineNoNewline(relationships);
    var head := [PronouncedLine(asciiName)] + PropertyLines(title, properties);
    NoNewlinesAppend([PronouncedLine(asciiName)], PropertyLines(title, properties));
    NoNewlinesAppend(head, ListLine("<b>Legends:</b> ", past));
    NoNewlinesAppend(head + ListLine("<b>Legends:</b> ", past), ListLine("<b>Prophecies:</b> ", future));
    NoNewlinesAppend(head + ListLine("<b>Legends:</b> ", past) + ListLine("<b>Prophecies:</b> ", future),
                     RelationsLine(relationships));
  }

  /** When no part holds a newline, splitting the description text at newlines
      gives back exactly its lines, and one empty piece after the final newline. */
  lemma EntityLayout(title: string -> string, asciiName: string, properties: seq<(string, string)>,
                     past: seq<string>, future: seq<string>, relationships: seq<(string, string)>)
    requires NoNewline(asciiName) && NoNewlines(past) && NoNewlines(future)
    requires forall i :: 0 <= i < |properties| ==> NoNewline(title(properties[i].0)) && NoNewline(properties[i].1)
    requires forall i :: 0 <= i < |relationships| ==> NoNewline(relationships[i].0) && NoNewline(relationships[i].1)
    ensures var lines := EntityLines(title, asciiName, properties, past, future, relationships);
      Split(Terminated(lines), '\n') == lines + [""]
  {
    EntityLinesNoNewlines(title, asciiName, properties, past, future, relationships);
    SplitTerminated(EntityLines(title, asciiName, properties, past, future, relationships));
  }

  /** describeEntity, computed from the cache before the call; the ASCII
      pronunciation uses the dict order `order` of PHONEM_ASCII. */
  function Description(c: Cache, children: Oracle, entity: string, entities: seq<string>, roots: seq<string>,
                       d: EntityDraws, title: string -> string, order: seq<string>): Result<string>
    requires Phonetics.IsKeyOrder(Phonetics.PhonemAscii, order)
    requires EntityDrawsFit(c, children, entity, entities, roots, d)
  {
    var properties := PropertyValues(c, children, roots, d.valuePicks);
    var events :- PastAndFuture(c, children, d.pastCount, d.pastPicks, d.futureCount, d.futurePicks);
    var relationships :- Relationships(c, children, entity, entities, d.relationCount, d.relationPicks, d.targetPicks);
    Phonetics.KeyOrderPatterns(order);
    var asciiName := Phonetics.Substituted(Phonetics.PhonemAscii, entity, order);
    Ok(Terminated(EntityLines(title, asciiName, properties, events.0, events.1, relationships)))
  }

  /** The cache after describeEntity: the property roots and the event root are
      loaded, and the relation root once the events were chosen. */
  function EntityCache(c: Cache, children: Oracle, roots: seq<string>, eventsChosen: bool): Cache {
    InsertAll(c, children, roots + EventRoots + (if eventsChosen then RelationshipRoots else []), MaxInt)
  }

  /** A description depends on the cache only through what it looks up. */
  lemma SameDescription(c1: Cache, c2: Cache, children: Oracle, entity: string, entities: seq<string>,
                        roots: seq<string>, d: EntityDraws, title: string -> string, order: seq<string>)
    requires SameLookups(c1, c2, children, MaxInt)
    requires Phonetics.IsKeyOrder(Phonetics.PhonemAscii, order)
    requires EntityDrawsFit(c1, children, entity, entities, roots, d)
    ensures EntityDrawsFit(c2, children, entity, entities, roots, d)
    ensures PastAndFuture(c1, children, d.pastCount, d.pastPicks, d.futureCount, d.futurePicks) ==
            PastAndFuture(c2, children, d.pastCount, d.pastPicks, d.futureCount, d.futurePicks)
    ensures Description(c1, children, entity, entities, roots, d, title, order) ==
            Description(c2, children, entity, entities, roots, d, title, order)
  {
    SamePropertyValues(c1, c2, children, roots, d.valuePicks);
    SamePastAndFuture(c1, c2, children, d.pastCount, d.pastPicks, d.futureCount, d.futurePicks);
    SameRelationships(c1, c2, children, entity, entities, d.relationCount, d.relationPicks, d.targetPicks);
  }

  lemma SamePropertyValues(c1: Cache, c2: Cache, children: Oracle, roots: seq<string>, picks: seq<nat>)
    requires SameLookups(c1, c2, children, MaxInt)
    requires PropertyDrawsFit(c1, children, roots, picks)
    ensures PropertyDrawsFit(c2, children, roots, picks)
    ensures PropertyValues(c1, children, roots, picks) == PropertyValues(c2, children, roots, picks)
  {
    forall i | 0 <= i < |roots| ensures RootPopulation(c1, children, roots[i]) == RootPopulation(c2, children, roots[i]) {
      SamePopulation(c1, c2, children, [roots[i]], MaxInt);
    }
    assert PropertyChoices(c1, children, roots, picks) == PropertyChoices(c2, children, roots, picks);
  }

  lemma SamePastAndFuture(c1: Cache, c2: Cache, children: Oracle, pastCount: int, pastPicks: seq<nat>,
                          futureCount: int, futurePicks: seq<nat>)
    requires SameLookups(c1, c2, children, MaxInt)
    requires EventDrawsFit(c1, children, pastCount, pastPicks)
    requires EventDrawsFit(c1, children, futureCount, futurePicks)
    ensures EventDrawsFit(c2, children, pastCount, pastPicks)
    ensures EventDrawsFit(c2, children, futureCount, futurePicks)
    ensures PastAndFuture(c1, children, pastCount, pastPicks, futureCount, futurePicks) ==
            PastAndFuture(c2, children, pastCount, pastPicks, futureCount, futurePicks)
  {
    SamePopulation(c1, c2, children, EventRoots, MaxInt);
    assert Events(c1, children, pastCount, pastPicks) == Events(c2, children, pastCount, pastPicks);
    assert Events(c1, children, futureCount, futurePicks) == Events(c2, children, futureCount, futurePicks);
  }

  lemma SameRelationships(c1: Cache, c2: Cache, children: Oracle, entity: string, entities: seq<string>,
                          count: int, picks: seq<nat>, targetPicks: seq<nat>)
    requires SameLookups(c1, c2, children, MaxInt)
    requires RelationshipDrawsFit(c1, children, entity, entities, count, picks, targetPicks)
    ensures RelationshipDrawsFit(c2, children, entity, entities, count, picks, targetPicks)
    ensures Relationships(c1, children, entity, entities, count, picks, targetPicks) ==
            Relationships(c2, children, entity, entities, count, picks, targetPicks)
  {
    SamePopulation(c1, c2, children, RelationshipRoots, MaxInt);
  }

  /** describeEntity's stages see the cache the earlier stages left: the events
      are drawn after the property roots are loaded, the relationships after the
      event root too, and each stage draws what it would have drawn from the
      cache before the call. */
  lemma EntityStages(c0: Cache, children: Oracle, entity: string, entities: seq<string>,
                     roots: seq<string>, d: EntityDraws)
    requires EntityDrawsFit(c0, children, entity, entities, roots, d)
    ensures var c1 := InsertAll(c0, children, roots, MaxInt);
      && EventDrawsFit(c1, children, d.pastCount, d.pastPicks)
      && EventDrawsFit(c1, children, d.futureCount, d.futurePicks)
      && PastAndFuture(c1, children, d.pastCount, d.pastPicks, d.futureCount, d.futurePicks) ==
         PastAndFuture(c0, children, d.pastCount, d.pastPicks, d.futureCount, d.futurePicks)
    ensures var c2 := InsertAll(InsertAll(c0, children, roots, MaxInt), children, EventRoots, MaxInt);
      && c2 == EntityCache(c0, children, roots, false)
      && RelationshipDrawsFit(c2, children, entity, entities, d.relationCount, d.relationPicks, d.targetPicks)
      && Relationships(c2, children, entity, entities, d.relationCount, d.relationPicks, d.targetPicks) ==
         Relationships(c0, children, entity, entities, d.relationCount, d.relationPicks, d.targetPicks)
      && InsertAll(c2, children, RelationshipRoots, MaxInt) == EntityCache(c0, children, roots, true)
  {
    InsertAllAppend(c0, children, roots, EventRoots, MaxInt);
    InsertAllAppend(c0, children, roots + EventRoots, RelationshipRoots, MaxInt);
    assert roots + EventRoots + [] == roots + EventRoots;
    var c1 := InsertAll(c0, children, roots, MaxInt);
    var c2 := InsertAll(c1, children, EventRoots, MaxInt);
    InsertsKeepLookups(c0, c0, children, roots, MaxInt);
    InsertsKeepLookups(c0, c1, children, EventRoots, MaxInt);
    SamePopulation(c0, c1, children, EventRoots, MaxInt);
    SamePopulation(c0, c2, children, RelationshipRoots, MaxInt);
    assert Events(c0, children, d.pastCount, d.pastPicks) == Events(c1, children, d.pastCount, d.pastPicks);
    assert Events(c0, children, d.futureCount, d.futurePicks) == Events(c1, children, d.futureCount, d.futurePicks);
  }

  /** Entity names, spelled from a digest, turn into pure ASCII when the dict
      order substitutes "ɔɪ" before "ɪ". */
  lemma SpellingInAscii(digest: seq<Phonetics.Byte>, order: seq<string>)
    requires Phonetics.IsKeyOrder(Phonetics.PhonemAscii, order) && Phonetics.Before(order, "ɔɪ", "ɪ")
    ensures Phonetics.ArePatterns(Phonetics.PhonemAscii, order)
    ensures IsAscii(Phonetics.Substituted(Phonetics.PhonemAscii, Spelling(digest), order))
  {
    SpellingIsHashToPhonems(digest);
    Phonetics.NamesSpellInAscii(Phonetics.HexDigest(digest), order);
  }

  // ---------------------------------------------------------------------
  // Names from the RIPEMD-160 digest

  /** `hashlib.new('ripemd160')` fed a string, as the digest bytes. */
  type Digest = string -> seq<Phonetics.Byte>

  /** The phonemes of a digest, one per byte, in order. */
  function Spelling(digest: seq<Phonetics.Byte>): string {
    Flatten(Phonetics.SymbolsOf(Phonetics.Phonems, digest))
  }

  /** hashToPhonems of a digest's hexdigest never fails and spells the digest. */
  lemma SpellingIsHashToPhonems(digest: seq<Phonetics.Byte>)
    ensures Phonetics.HashToPhonems(Phonetics.HexDigest(digest)) == Ok(Spelling(digest))
  {
    Phonetics.FromHexDigest(digest);
  }

  function DigitChar(d: nat): char
    requires d < 10
  {
    ('0' as int + d) as char
  }

  /** Python's `str(n)` for a non-negative integer. */
  function NatToString(n: nat): (s: string)
    ensures |s| > 0 && forall i :: 0 <= i < |s| ==> '0' <= s[i] <= '9'
  {
    if n < 10 then [DigitChar(n)] else NatToString(n / 10) + [DigitChar(n % 10)]
  }

  /** The number a string of decimal digits denotes. */
  function DecimalValue(s: string): nat
    requires forall i :: 0 <= i < |s| ==> '0' <= s[i] <= '9'
  {
    if s == [] then 0 else 10 * DecimalValue(s[..|s| - 1]) + (s[|s| - 1] as int - '0' as int)
  }

  lemma {:induction false} DecimalRoundTrip(n: nat)
    ensures DecimalValue(NatToString(n)) == n
  {
    if n >= 10 {
      DecimalRoundTrip(n / 10);
      var s := NatToString(n);
      assert s[..|s| - 1] == NatToString(n / 10);
    }
  }

  /** Different indexes feed the hash different strings, so entity names come from different digests. */
  lemma EntityInputsDistinct(seed: string, i: nat, j: nat)
    ensures seed + NatToString(i) == seed + NatToString(j) ==> i == j
  {
    assert (seed + NatToString(i))[|seed|..] == NatToString(i);
    assert (seed + NatToString(j))[|seed|..] == NatToString(j);
    DecimalRoundTrip(i);
    DecimalRoundTrip(j);
  }

  /** pantheonSeed then hashToPhonems: the pantheon's name. */
  function PantheonName(ripemd: Digest, seed: string): string {
    Spelling(ripemd(seed))
  }

  /** entityName: the digest of the seed followed by the entity's index, spelled. */
  function EntityName(ripemd: Digest, seed: string, index: nat): string {
    Spelling(ripemd(seed + NatToString(index)))
  }

  function EntityNames(ripemd: Digest, seed: string, count: nat): (names: seq<string>)
    ensures |names| == count
  {
    seq(count, i requires 0 <= i < count => EntityName(ripemd, seed, i))
  }

  // ---------------------------------------------------------------------
  // A pantheon

  /** The draws random.seed(pantheon_name) leads describePantheon to make. */
  datatype PantheonDraws = PantheonDraws(
    entityCount: int,                // randrange(MIN_ENTITIES, MAX_ENTITIES)
    rootCount: int, rootDepth: int, rootPicks: seq<nat>,   // choosePropertyRoots
    shuffle: seq<nat>)               // random.shuffle(property_roots)

  /** A result and the cache it leaves behind. */
  datatype Step<T> = Step(result: Result<T>, cache: Cache)

  predicate EntitiesFit(c: Cache, children: Oracle, names: seq<string>, roots: seq<string>,
                        entityDraws: string -> EntityDraws) {
    forall i :: 0 <= i < |names| ==> EntityDrawsFit(c, children, names[i], names, roots, entityDraws(names[i]))
  }

  /** One entity as describePantheon sees it: its name, its description, and
      whether its events were chosen (so that its relation root was looked up). */
  datatype Described = Described(name: string, text: Result<string>, eventsChosen: bool)

  /** Entity `i` described: its name, its description, and whether its events were chosen. */
  function DescribedAs(c: Cache, children: Oracle, names: seq<string>, roots: seq<string>,
                       entityDraws: string -> EntityDraws, title: string -> string, order: seq<string>, i: nat): Described
    requires Phonetics.IsKeyOrder(Phonetics.PhonemAscii, order)
    requires EntitiesFit(c, children, names, roots, entityDraws)
    requires i < |names|
  {
    var d := entityDraws(names[i]);
    Described(names[i], Description(c, children, names[i], names, roots, d, title, order),
              PastAndFuture(c, children, d.pastCount, d.pastPicks, d.futureCount, d.futurePicks).Ok?)
  }

  /** Every entity of the pantheon, described against the cache the property
      roots left; entry `i` is about the entity named `names[i]`. */
  function Entities(c: Cache, children: Oracle, names: seq<string>, roots: seq<string>,
                    entityDraws: string -> EntityDraws, title: string -> string, order: seq<string>): (r: seq<Described>)
    requires Phonetics.IsKeyOrder(Phonetics.PhonemAscii, order)
    requires EntitiesFit(c, children, names, roots, entityDraws)
    ensures |r| == |names|
    ensures forall i :: 0 <= i < |r| ==> r[i].name == names[i]
  {
    seq(|names|, i requires 0 <= i < |names| => DescribedAs(c, children, names, roots, entityDraws, title, order, i))
  }

  /** describePantheon's comprehension has described the first `i` entities:
      `done` is their titled list and `now` the cache they left behind. */
  ghost predicate DescribedSoFar(c1: Cache, children: Oracle, pantheonName: string, names: seq<string>,
                                 roots: seq<string>, entityDraws: string -> EntityDraws, title: string -> string,
                                 order: seq<string>, described: seq<Described>, i: nat,
                                 done: seq<(string, string)>, now: Cache) {
    && Phonetics.IsKeyOrder(Phonetics.PhonemAscii, order)
    && EntitiesFit(c1, children, names, roots, entityDraws)
    && described == Entities(c1, children, names, roots, entityDraws, title, order)
    && i <= |names|
    && PantheonEntries(c1, children, roots, pantheonName, described, i) == Step(Ok(done), now)
  }

  /** Every description succeeded. */
  predicate AllDescribed(described: seq<Described>) {
    forall i :: 0 <= i < |described| ==> described[i].text.Ok?
  }

  /** The first `k` entries of the pantheon's list, titled "name (pantheon)";
      the first failing description ends the list. */
  function PantheonEntries(c: Cache, children: Oracle, roots: seq<string>, pantheonName: string,
                           described: seq<Described>, k: nat): Step<seq<(string, string)>>
    requires k <= |described|
  {
    if k == 0 then Step(Ok([]), c)
    else
      var prev := PantheonEntries(c, children, roots, pantheonName, described, k - 1);
      if prev.result.Err? then prev
      else
        var e := described[k - 1];
        var cache := EntityCache(prev.cache, children, roots, e.eventsChosen);
        match e.text
        case Err(err) => Step(Err(err), cache)
        case Ok(text) => Step(Ok(prev.result.value + [(e.name + " (" + pantheonName + ")", text)]), cache)
  }

  /** Entry i is entity i's title and description; the list fails exactly when
      some description does. */
  lemma {:induction false} PantheonEntriesShape(c: Cache, children: Oracle, roots: seq<string>, pantheonName: string,
                                                 described: seq<Described>, k: nat)
    requires k <= |described|
    ensures var step := PantheonEntries(c, children, roots, pantheonName, described, k);
      && (step.result.Ok? <==> AllDescribed(described[..k]))
      && (step.result.Ok? ==>
            && |step.result.value| == k
            && forall i :: 0 <= i < k ==>
                 step.result.value[i] == (described[i].name + " (" + pantheonName + ")", described[i].text.value))
  {
    if k > 0 {
      PantheonEntriesShape(c, children, roots, pantheonName, described, k - 1);
      assert described[..k - 1] == described[..k][..k - 1];
    }
  }

  /** The whole list: it succeeds exactly when every description does, and then
      entry i is entity i's title and description. */
  lemma PantheonEntriesAll(c: Cache, children: Oracle, roots: seq<string>, pantheonName: string,
                           described: seq<Described>)
    ensures var step := PantheonEntries(c, children, roots, pantheonName, described, |described|);
      && (step.result.Ok? <==> AllDescribed(described))
      && (step.result.Ok? ==>
            && |step.result.value| == |described|
            && forall i :: 0 <= i < |described| ==>
                 step.result.value[i] == (described[i].name + " (" + pantheonName + ")", described[i].text.value))
  {
    PantheonEntriesShape(c, children, roots, pantheonName, described, |described|);
    assert described[..|described|] == described;
  }

  /** The lookups stay those of the starting cache. */
  lemma {:induction false} PantheonEntriesCache(c: Cache, children: Oracle, roots: seq<string>, pantheonName: string,
                                                 described: seq<Described>, k: nat)
    requires k <= |described|
    ensures SameLookups(c, PantheonEntries(c, children, roots, pantheonName, described, k).cache, children, MaxInt)
  {
    if k > 0 {
      var prev := PantheonEntries(c, children, roots, pantheonName, described, k - 1);
      PantheonEntriesCache(c, children, roots, pantheonName, described, k - 1);
      if prev.result.Ok? {
        PantheonEntriesNext(c, children, roots, pantheonName, described, k - 1, prev.result.value, prev.cache);
        InsertsKeepLookups(c, prev.cache, children,
          roots + EventRoots + (if described[k - 1].eventsChosen then RelationshipRoots else []), MaxInt);
      }
    }
  }

  /** While the list has not failed, entry `k` either extends it with its
      title and description or ends it with its error. */
  lemma PantheonEntriesNext(c: Cache, children: Oracle, roots: seq<string>, pantheonName: string,
                            described: seq<Described>, k: nat, done: seq<(string, string)>, now: Cache)
    requires k < |described|
    requires PantheonEntries(c, children, roots, pantheonName, described, k) == Step(Ok(done), now)
    ensures var e := described[k];
      PantheonEntries(c, children, roots, pantheonName, described, k + 1) ==
      Step(if e.text.Ok? then Ok(done + [(e.name + " (" + pantheonName + ")", e.text.value)]) else Err(e.text.error),
           EntityCache(now, children, roots, e.eventsChosen))
  {
  }

  /** Once a description fails, the list stays at that failure. */
  lemma {:induction false} PantheonEntriesStop(c: Cache, children: Oracle, roots: seq<string>, pantheonName: string,
                                                described: seq<Described>, k: nat, n: nat)
    requires k <= n <= |described|
    requires PantheonEntries(c, children, roots, pantheonName, described, k).result.Err?
    ensures PantheonEntries(c, children, roots, pantheonName, described, n) ==
            PantheonEntries(c, children, roots, pantheonName, described, k)
    decreases n - k
  {
    if k < n {
      PantheonEntriesStop(c, children, roots, pantheonName, described, k, n - 1);
    }
  }

  /** Describing entity `i` against the cache the earlier entities left gives
      the description and the event choice the list records for it. */
  lemma EntryAgainst(c1: Cache, children: Oracle, pantheonName: string, names: seq<string>, roots: seq<string>,
                     entityDraws: string -> EntityDraws, title: string -> string, order: seq<string>,
                     described: seq<Described>, i: nat, done: seq<(string, string)>, before: Cache)
    requires DescribedSoFar(c1, children, pantheonName, names, roots, entityDraws, title, order,
                            described, i, done, before)
    requires i < |names|
    ensures EntityDrawsFit(before, children, names[i], names, roots, entityDraws(names[i]))
    ensures var d := entityDraws(names[i]);
      && described[i].text == Description(before, children, names[i], names, roots, d, title, order)
      && described[i].eventsChosen ==
         PastAndFuture(before, children, d.pastCount, d.pastPicks, d.futureCount, d.futurePicks).Ok?
  {
    PantheonEntriesCache(c1, children, roots, pantheonName, described, i);
    SameDescription(c1, before, children, names[i], names, roots, entityDraws(names[i]), title, order);
  }

  /** Entry `i` extends the list and the cache; a failure there is a failure
      of the whole list. */
  lemma EntriesAdvance(c1: Cache, children: Oracle, pantheonName: string, names: seq<string>, roots: seq<string>,
                       entityDraws: string -> EntityDraws, title: string -> string, order: seq<string>,
                       described: seq<Described>, i: nat, done: seq<(string, string)>, before: Cache)
    requires DescribedSoFar(c1, children, pantheonName, names, roots, entityDraws, title, order,
                            described, i, done, before)
    requires i < |names|
    ensures var e := described[i];
      var after := EntityCache(before, children, roots, e.eventsChosen);
      && (e.text.Ok? ==>
            DescribedSoFar(c1, children, pantheonName, names, roots, entityDraws, title, order, described, i + 1,
                           done + [(names[i] + " (" + pantheonName + ")", e.text.value)], after))
      && (e.text.Err? ==>
            Step(Err(e.text.error), after) == PantheonEntries(c1, children, roots, pantheonName, described, |names|))
  {
    PantheonEntriesNext(c1, children, roots, pantheonName, described, i, done, before);
    if described[i].text.Err? {
      PantheonEntriesStop(c1, children, roots, pantheonName, described, i + 1, |names|);
    }
  }

  /** The pantheon draws suit the pantheon's entity names and the cache. */
  predicate PantheonDrawsFit(c: Cache, children: Oracle, names: seq<string>, d: PantheonDraws,
                             entityDraws: string -> EntityDraws) {
    && InRandrange(d.entityCount, MinEntities, MaxEntities)
    && |names| == d.entityCount
    && PropertyRootDrawsFit(c, children, d.rootCount, d.rootDepth, d.rootPicks)
    && IsShuffleDraw(d.shuffle, d.rootCount)
    && var chosen := LeafChoice(c, children, PropertyRoots, d.rootCount, d.rootDepth, d.rootPicks);
       (chosen.Ok? ==>
          EntitiesFit(InsertAll(c, children, PropertyRoots, d.rootDepth), children,
                      names, Shuffled(chosen.value, d.shuffle), entityDraws))
  }

  /** The property roots every entity of the pantheon is described with: the
      chosen roots in shuffled order. */
  function SharedRoots(c: Cache, children: Oracle, d: PantheonDraws): (roots: seq<string>)
    requires PropertyRootDrawsFit(c, children, d.rootCount, d.rootDepth, d.rootPicks)
    requires IsShuffleDraw(d.shuffle, d.rootCount)
    requires LeafChoice(c, children, PropertyRoots, d.rootCount, d.rootDepth, d.rootPicks).Ok?
    ensures var chosen := LeafChoice(c, children, PropertyRoots, d.rootCount, d.rootDepth, d.rootPicks).value;
      && multiset(roots) == multiset(chosen)
      && 1 <= |roots| == d.rootCount <= MaxProperties
  {
    ShuffleDrawIsPrefix(d.shuffle, d.rootCount);
    ShuffledPermutes(LeafChoice(c, children, PropertyRoots, d.rootCount, d.rootDepth, d.rootPicks).value, d.shuffle);
    Shuffled(LeafChoice(c, children, PropertyRoots, d.rootCount, d.rootDepth, d.rootPicks).value, d.shuffle)
  }

  /** describePantheon once the pantheon's name and its entities' names are known. */
  function PantheonOf(c: Cache, children: Oracle, pantheonName: string, names: seq<string>, d: PantheonDraws,
                      entityDraws: string -> EntityDraws, title: string -> string, order: seq<string>): Step<seq<(string, string)>>
    requires Phonetics.IsKeyOrder(Phonetics.PhonemAscii, order)
    requires PantheonDrawsFit(c, children, names, d, entityDraws)
  {
    var c1 := InsertAll(c, children, PropertyRoots, d.rootDepth);
    match LeafChoice(c, children, PropertyRoots, d.rootCount, d.rootDepth, d.rootPicks)
    case Err(e) => Step(Err(e), c1)
    case Ok(_) =>
      var roots := SharedRoots(c, children, d);
      PantheonEntries(c1, children, roots, pantheonName,
                      Entities(c1, children, names, roots, entityDraws, title, order), |names|)
  }

  /** A pantheon lists one to twelve entities, in index order, each titled
      "name (pantheon name)". */
  lemma PantheonOfShape(c: Cache, children: Oracle, pantheonName: string, names: seq<string>, d: PantheonDraws,
                        entityDraws: string -> EntityDraws, title: string -> string, order: seq<string>)
    requires Phonetics.IsKeyOrder(Phonetics.PhonemAscii, order)
    requires PantheonDrawsFit(c, children, names, d, entityDraws)
    ensures var r := PantheonOf(c, children, pantheonName, names, d, entityDraws, title, order).result;
      r.Ok? ==>
        && MinEntities <= |r.value| == |names| < MaxEntities
        && forall i :: 0 <= i < |r.value| ==> r.value[i].0 == names[i] + " (" + pantheonName + ")"
  {
    if LeafChoice(c, children, PropertyRoots, d.rootCount, d.rootDepth, d.rootPicks).Ok? {
      var c1 := InsertAll(c, children, PropertyRoots, d.rootDepth);
      var roots := SharedRoots(c, children, d);
      PantheonEntriesAll(c1, children, roots, pantheonName,
                         Entities(c1, children, names, roots, entityDraws, title, order));
    }
  }

  /** A pantheon fails exactly when choosing the property roots or some
      entity's description does. */
  lemma PantheonOfFails(c: Cache, children: Oracle, pantheonName: string, names: seq<string>, d: PantheonDraws,
                        entityDraws: string -> EntityDraws, title: string -> string, order: seq<string>)
    requires Phonetics.IsKeyOrder(Phonetics.PhonemAscii, order)
    requires PantheonDrawsFit(c, children, names, d, entityDraws)
    ensures var chosen := LeafChoice(c, children, PropertyRoots, d.rootCount, d.rootDepth, d.rootPicks);
      var r := PantheonOf(c, children, pantheonName, names, d, entityDraws, title, order).result;
      && (chosen.Err? ==> r == Err(chosen.error))
      && (chosen.Ok? ==>
            (r.Ok? <==>
               AllDescribed(Entities(InsertAll(c, children, PropertyRoots, d.rootDepth), children, names,
                                     SharedRoots(c, children, d), entityDraws, title, order))))
  {
    if LeafChoice(c, children, PropertyRoots, d.rootCount, d.rootDepth, d.rootPicks).Ok? {
      var c1 := InsertAll(c, children, PropertyRoots, d.rootDepth);
      var roots := SharedRoots(c, children, d);
      var described := Entities(c1, children, names, roots, entityDraws, title, order);
      PantheonEntriesAll(c1, children, roots, pantheonName, described);
    }
  }

  /** Every entity of a pantheon is described with the same property roots,
      against the same lookups. */
  lemma PantheonOfDescriptions(c: Cache, children: Oracle, pantheonName: string, names: seq<string>, d: PantheonDraws,
                               entityDraws: string -> EntityDraws, title: string -> string, order: seq<string>)
    requires Phonetics.IsKeyOrder(Phonetics.PhonemAscii, order)
    requires PantheonDrawsFit(c, children, names, d, entityDraws)
    ensures var r := PantheonOf(c, children, pantheonName, names, d, entityDraws, title, order).result;
      r.Ok? ==>
        && LeafChoice(c, children, PropertyRoots, d.rootCount, d.rootDepth, d.rootPicks).Ok?
        && |r.value| == |names|
        && var described := Entities(InsertAll(c, children, PropertyRoots, d.rootDepth), children, names,
                                     SharedRoots(c, children, d), entityDraws, title, order);
           forall i :: 0 <= i < |r.value| ==> described[i].text == Ok(r.value[i].1)
  {
    if LeafChoice(c, children, PropertyRoots, d.rootCount, d.rootDepth, d.rootPicks).Ok? {
      var c1 := InsertAll(c, children, PropertyRoots, d.rootDepth);
      var roots := SharedRoots(c, children, d);
      var described := Entities(c1, children, names, roots, entityDraws, title, order);
      PantheonEntriesAll(c1, children, roots, pantheonName, described);
    }
  }

  /** An entity's description is describeEntity's for its name, the pantheon's
      names and the shared roots; so entities with the same name get the same description. */
  lemma EntitiesByName(c: Cache, children: Oracle, names: seq<string>, roots: seq<string>,
                       entityDraws: string -> EntityDraws, title: string -> string, order: seq<string>, i: nat, j: nat)
    requires Phonetics.IsKeyOrder(Phonetics.PhonemAscii, order)
    requires EntitiesFit(c, children, names, roots, entityDraws)
    requires i < |names| && j < |names|
    ensures Entities(c, children, names, roots, entityDraws, title, order)[i].text ==
            Description(c, children, names[i], names, roots, entityDraws(names[i]), title, order)
    ensures names[i] == names[j] ==>
            Entities(c, children, names, roots, entityDraws, title, order)[i] ==
            Entities(c, children, names, roots, entityDraws, title, order)[j]
  {
  }

  /** The draws suit describePantheon for `seed`. */
  predicate PantheonFits(c: Cache, children: Oracle, ripemd: Digest, seed: string,
                         pantheonDraws: string -> PantheonDraws, entityDraws: string -> EntityDraws) {
    var d := pantheonDraws(PantheonName(ripemd, seed));
    && InRandrange(d.entityCount, MinEntities, MaxEntities)
    && PantheonDrawsFit(c, children, EntityNames(ripemd, seed, d.entityCount), d, entityDraws)
  }

  /** describePantheon, computed from the cache before the call. */
  function Pantheon(c: Cache, children: Oracle, ripemd: Digest, seed: string,
                    pantheonDraws: string -> PantheonDraws, entityDraws: string -> EntityDraws,
                    title: string -> string, order: seq<string>): Step<seq<(string, string)>>
    requires Phonetics.IsKeyOrder(Phonetics.PhonemAscii, order)
    requires PantheonFits(c, children, ripemd, seed, pantheonDraws, entityDraws)
  {
    var pantheonName := PantheonName(ripemd, seed);
    var d := pantheonDraws(pantheonName);
    PantheonOf(c, children, pantheonName, EntityNames(ripemd, seed, d.entityCount), d, entityDraws, title, order)
  }

  /** The titles of a pantheon: entity i is named from the digest of the seed
      followed by i, and the pantheon from the digest of the seed. */
  lemma PantheonTitles(c: Cache, children: Oracle, ripemd: Digest, seed: string,
                       pantheonDraws: string -> PantheonDraws, entityDraws: string -> EntityDraws,
                       title: string -> string, order: seq<string>)
    requires Phonetics.IsKeyOrder(Phonetics.PhonemAscii, order)
    requires PantheonFits(c, children, ripemd, seed, pantheonDraws, entityDraws)
    ensures var r := Pantheon(c, children, ripemd, seed, pantheonDraws, entityDraws, title, order).result;
      r.Ok? ==>
        && 1 <= |r.value| <= 12
        && forall i :: 0 <= i < |r.value| ==>
             r.value[i].0 == EntityName(ripemd, seed, i) + " (" + PantheonName(ripemd, seed) + ")"
  {
    var d := pantheonDraws(PantheonName(ripemd, seed));
    PantheonOfShape(c, children, PantheonName(ripemd, seed), EntityNames(ripemd, seed, d.entityCount), d,
                    entityDraws, title, order);
  }

  lemma PropertyLinesStep(title: string -> string, properties: seq<(string, string)>, i: nat)
    requires i < |properties|
    ensures PropertyLines(title, properties[..i + 1]) ==
            PropertyLines(title, properties[..i]) + [PropertyLine(title, properties[i])]
  {
  }

  /** Appending no line or one line to the text. */
  lemma TerminatedOptional(lines: seq<string>, extra: seq<string>)
    requires |extra| <= 1
    ensures Terminated(lines + extra) == if extra == [] then Terminated(lines) else Terminated(lines) + extra[0] + "\n"
  {
    if extra == [] {
      assert lines + extra == lines;
    } else {
      assert extra == [extra[0]];
      TerminatedAppend(lines, extra[0]);
    }
  }

  /** The text describeEntity builds, line by line. */
  method WriteDescription(title: string -> string, asciiName: string, properties: seq<(string, string)>,
                          past: seq<string>, future: seq<string>, relationships: seq<(string, string)>)
    returns (description: string)
    ensures description == Terminated(EntityLines(title, asciiName, properties, past, future, relationships))
  {
    ghost var lines := [PronouncedLine(asciiName)];
    TerminatedAppend([], PronouncedLine(asciiName));
    assert [] + lines == lines;
    description := PronouncedLine(asciiName) + "\n";
    for i := 0 to |properties|
      invariant lines == [PronouncedLine(asciiName)] + PropertyLines(title, properties[..i])
      invariant description == Terminated(lines)
    {
      PropertyLinesStep(title, properties, i);
      TerminatedAppend(lines, PropertyLine(title, properties[i]));
      lines := lines + [PropertyLine(title, properties[i])];
      description := description + PropertyLine(title, properties[i]) + "\n";
    }
    assert properties[..|properties|] == properties;
    if past != [] {
      description := description + ("<b>Legends:</b> " + Join(", ", past) + ".<br>") + "\n";
    }
    TerminatedOptional(lines, ListLine("<b>Legends:</b> ", past));
    lines := lines + ListLine("<b>Legends:</b> ", past);
    if future != [] {
      description := description + ("<b>Prophecies:</b> " + Join(", ", future) + ".<br>") + "\n";
    }
    TerminatedOptional(lines, ListLine("<b>Prophecies:</b> ", future));
    lines := lines + ListLine("<b>Prophecies:</b> ", future);
    if relationships != [] {
      var texts := RelationTexts(relationships);
      description := description + ("<b>Relations</b>: " + Join(", ", texts) + ".") + "\n";
    }
    TerminatedOptional(lines, RelationsLine(relationships));
  }

  /** The concept cache and the operations that fill it. */
  class ConceptCache {
    const children: Oracle
    var entries: Cache

    constructor(children: Oracle)
      ensures this.children == children && entries == map[]
    {
      this.children := children;
      entries := map[];
    }

    /** loadConceptList: (re)loads the list of `conceptRoot` at `depth`. */
    method LoadConceptList(conceptRoot: string, depth: int)
      modifies this
      ensures entries == old(entries)[conceptRoot := Descendants(children, conceptRoot, depth)]
    {
      var list := RecurseHyponyms(children, conceptRoot, [], depth);
      assert list == Descendants(children, conceptRoot, depth);
      entries := entries[conceptRoot := list];
    }

    /** getOrCacheConceptList: the cached list, loading it on a miss. */
    method GetOrCacheConceptList(conceptRoot: string, depth: int) returns (r: seq<string>)
      modifies this
      ensures r == Lookup(old(entries), children, conceptRoot, depth)
      ensures entries == Insert(old(entries), children, conceptRoot, depth)
      ensures conceptRoot in entries && r == entries[conceptRoot]
    {
      if conceptRoot !in entries {
        LoadConceptList(conceptRoot, depth);
      }
      r := entries[conceptRoot];
    }

    /** chooseLeafConcepts: looks up every root, merges the lists and samples `count` of them. */
    method ChooseLeafConcepts(concepts: seq<string>, count: int, depth: int, picks: seq<nat>)
      returns (r: Result<seq<string>>)
      requires SampleFits(picks, count, |Population(entries, children, concepts, depth)|)
      modifies this
      ensures r == LeafChoice(old(entries), children, concepts, count, depth, picks)
      ensures entries == InsertAll(old(entries), children, concepts, depth)
    {
      ghost var c0 := entries;
      var leaves: seq<seq<string>> := [];
      for i := 0 to |concepts|
        invariant LookedUpSoFar(c0, children, concepts, depth, i, leaves, entries)
      {
        LookupAdvance(c0, children, concepts, depth, i, leaves, entries);
        var list := GetOrCacheConceptList(concepts[i], depth);
        leaves := leaves + [list];
      }
      assert concepts[..|concepts|] == concepts;
      var merged := Flatten(leaves);
      if |merged| == 0 {
        merged := concepts;
      }
      r := Sample(merged, count, picks);
    }
  

    /** chooseEvents. */
    method ChooseEvents(count: int, picks: seq<nat>) returns (r: Result<seq<string>>)
      requires EventDrawsFit(entries, children, count, picks)
      modifies this
      ensures r == Events(old(entries), children, count, picks)
      ensures entries == InsertAll(old(entries), children, EventRoots, MaxInt)
    {
      var events :- ChooseLeafConcepts(EventRoots, count, MaxInt, picks);
      r := Ok(CleanWordNetList(events));
    }

    /** choosePastAndFutureEvents. */
    method ChoosePastAndFutureEvents(pastCount: int, pastPicks: seq<nat>, futureCount: int, futurePicks: seq<nat>)
      returns (r: Result<(seq<string>, seq<string>)>)
      requires EventDrawsFit(entries, children, pastCount, pastPicks)
      requires EventDrawsFit(entries, children, futureCount, futurePicks)
      modifies this
      ensures r == PastAndFuture(old(entries), children, pastCount, pastPicks, futureCount, futurePicks)
      ensures entries == InsertAll(old(entries), children, EventRoots, MaxInt)
    {
      ghost var c0 := entries;
      InsertAllTwice(c0, children, EventRoots, MaxInt);
      InsertsKeepLookups(c0, c0, children, EventRoots, MaxInt);
      SamePopulation(c0, InsertAll(c0, children, EventRoots, MaxInt), children, EventRoots, MaxInt);
      var past :- ChooseEvents(pastCount, pastPicks);
      var future :- ChooseEvents(futureCount, futurePicks);
      r := Ok((past, RemoveAlreadyUsed(past, future)));
    }

    /** chooseRelationships. */
    method ChooseRelationships(entity: string, entities: seq<string>, count: int, picks: seq<nat>, targetPicks: seq<nat>)
      returns (r: Result<seq<(string, string)>>)
      requires RelationshipDrawsFit(entries, children, entity, entities, count, picks, targetPicks)
      modifies this
      ensures r == Relationships(old(entries), children, entity, entities, count, picks, targetPicks)
      ensures entries == InsertAll(old(entries), children, RelationshipRoots, MaxInt)
    {
      var others := RemoveAlreadyUsed([entity], entities);
      var relationships :- ChooseLeafConcepts(RelationshipRoots, count, MaxInt, picks);
      var targets :- Sample(others, |relationships|, targetPicks);
      r := Ok(Zip(CleanWordNetList(relationships), targets));
    }

    /** choosePropertyValues. */
    method ChoosePropertyValues(roots: seq<string>, picks: seq<nat>) returns (r: seq<(string, string)>)
      requires PropertyDrawsFit(entries, children, roots, picks)
      modifies this
      ensures r == PropertyValues(old(entries), children, roots, picks)
      ensures entries == InsertAll(old(entries), children, roots, MaxInt)
    {
      ghost var c0 := entries;
      var properties: seq<seq<string>> := [];
      for i := 0 to |roots|
        invariant PropertiesSoFar(c0, children, roots, picks, i, properties, entries)
      {
        PropertyAdvance(c0, children, roots, picks, i, properties, entries);
        var chosen := ChooseLeafConcepts([roots[i]], 1, MaxInt, [picks[i]]);
        properties := properties + [chosen.value];
      }
      assert roots[..|roots|] == roots;
      assert properties == PropertyChoices(c0, children, roots, picks);
      r := Zip(CleanWordNetList(roots), CleanWordNetList(Flatten(properties)));
    }

    /** choosePropertyRoots: one to ten concepts one or two levels below the property roots. */
    method ChoosePropertyRoots(count: int, depth: int, picks: seq<nat>) returns (r: Result<seq<string>>)
      requires PropertyRootDrawsFit(entries, children, count, depth, picks)
      modifies this
      ensures r == LeafChoice(old(entries), children, PropertyRoots, count, depth, picks)
      ensures entries == InsertAll(old(entries), children, PropertyRoots, depth)
    {
      r := ChooseLeafConcepts(PropertyRoots, count, depth, picks);
    }

    /** describeEntity; `draws` gives the draws random.seed(entity_name) leads to,
        `title` is `str.title`, `order` the dict order of PHONEM_ASCII. */
    method DescribeEntity(entity: string, entities: seq<string>, roots: seq<string>,
                          draws: string -> EntityDraws, title: string -> string, order: seq<string>)
      returns (r: Result<string>)
      requires Phonetics.IsKeyOrder(Phonetics.PhonemAscii, order)
      requires EntityDrawsFit(entries, children, entity, entities, roots, draws(entity))
      modifies this
      ensures r == Description(old(entries), children, entity, entities, roots, draws(entity), title, order)
      ensures entries == EntityCache(old(entries), children, roots,
                                     var d := draws(entity);
                                     PastAndFuture(old(entries), children, d.pastCount, d.pastPicks,
                                                   d.futureCount, d.futurePicks).Ok?)
    {
      ghost var c0 := entries;
      var d := draws(entity);
      EntityStages(c0, children, entity, entities, roots, d);

      var properties := ChoosePropertyValues(roots, d.valuePicks);
      var events :- ChoosePastAndFutureEvents(d.pastCount, d.pastPicks, d.futureCount, d.futurePicks);
      var (past, future) := events;
      var relationships :- ChooseRelationships(entity, entities, d.relationCount, d.relationPicks, d.targetPicks);
      var asciiName := Phonetics.PhonemsToAscii(entity, order);

      var description := WriteDescription(title, asciiName, properties, past, future, relationships);
      r := Ok(description);
    }

    /** The list comprehension of describePantheon: each entity's title and description. */
    method DescribeEntities(ghost c1: Cache, pantheonName: string, names: seq<string>, roots: seq<string>,
                            entityDraws: string -> EntityDraws, title: string -> string, order: seq<string>,
                            ghost described: seq<Described>)
      returns (r: Result<seq<(string, string)>>)
      requires DescribedSoFar(c1, children, pantheonName, names, roots, entityDraws, title, order,
                              described, 0, [], entries)
      modifies this
      ensures Step(r, entries) == PantheonEntries(c1, children, roots, pantheonName, described, |names|)
    {
      var descriptions: seq<(string, string)> := [];
      for i := 0 to |names|
        invariant DescribedSoFar(c1, children, pantheonName, names, roots, entityDraws, title, order,
                                 described, i, descriptions, entries)
      {
        var next := DescribeNext(c1, pantheonName, names, roots, entityDraws, title, order, described, i, descriptions);
        if next.Err? {
          return next;
        }
        descriptions := next.value;
      }
      r := Ok(descriptions);
    }

    /** One step of that comprehension: entity `i` described and appended; a
        failure is where the whole list ends. */
    method DescribeNext(ghost c1: Cache, pantheonName: string, names: seq<string>, roots: seq<string>,
                        entityDraws: string -> EntityDraws, title: string -> string, order: seq<string>,
                        ghost described: seq<Described>, i: nat, descriptions: seq<(string, string)>)
      returns (r: Result<seq<(string, string)>>)
      requires DescribedSoFar(c1, children, pantheonName, names, roots, entityDraws, title, order,
                              described, i, descriptions, entries)
      requires i < |names|
      modifies this
      ensures r.Ok? ==> DescribedSoFar(c1, children, pantheonName, names, roots, entityDraws, title, order,
                                       described, i + 1, r.value, entries)
      ensures r.Err? ==> Step(r, entries) == PantheonEntries(c1, children, roots, pantheonName, described, |names|)
    {
      EntryAgainst(c1, children, pantheonName, names, roots, entityDraws, title, order, described, i,
                   descriptions, entries);
      EntriesAdvance(c1, children, pantheonName, names, roots, entityDraws, title, order, described, i,
                     descriptions, entries);
      var text := DescribeEntity(names[i], names, roots, entityDraws, title, order);
      if text.Err? {
        return Err(text.error);
      }
      r := Ok(descriptions + [(names[i] + " (" + pantheonName + ")", text.value)]);
    }

    /** describePantheon once the names are spelled: draws the property roots,
        shuffles them in place, and describes every entity. */
    method DescribeNamedPantheon(pantheonName: string, names: seq<string>, d: PantheonDraws,
                                 entityDraws: string -> EntityDraws, title: string -> string, order: seq<string>)
      returns (r: Result<seq<(string, string)>>)
      requires Phonetics.IsKeyOrder(Phonetics.PhonemAscii, order)
      requires PantheonDrawsFit(entries, children, names, d, entityDraws)
      modifies this
      ensures r == PantheonOf(old(entries), children, pantheonName, names, d, entityDraws, title, order).result
      ensures entries == PantheonOf(old(entries), children, pantheonName, names, d, entityDraws, title, order).cache
    {
      ghost var c0 := entries;
      var chosen :- ChoosePropertyRoots(d.rootCount, d.rootDepth, d.rootPicks);
      var shuffled := new string[|chosen|](i requires 0 <= i < |chosen| => chosen[i]);
      assert shuffled[..] == chosen;
      Shuffle(shuffled, d.shuffle);
      var roots := shuffled[..];
      assert roots == SharedRoots(c0, children, d);
      r := DescribeEntities(entries, pantheonName, names, roots, entityDraws, title, order,
                            Entities(entries, children, names, roots, entityDraws, title, order));
    }

    /** describePantheon. `ripemd` is RIPEMD-160; `pantheonDraws` and
        `entityDraws` give the draws random.seed leads to for each seed string. */
    method DescribePantheon(ripemd: Digest, seed: string, pantheonDraws: string -> PantheonDraws,
                            entityDraws: string -> EntityDraws, title: string -> string, order: seq<string>)
      returns (r: Result<seq<(string, string)>>)
      requires Phonetics.IsKeyOrder(Phonetics.PhonemAscii, order)
      requires PantheonFits(entries, children, ripemd, seed, pantheonDraws, entityDraws)
      modifies this
      ensures r == Pantheon(old(entries), children, ripemd, seed, pantheonDraws, entityDraws, title, order).result
      ensures entries == Pantheon(old(entries), children, ripemd, seed, pantheonDraws, entityDraws, title, order).cache
    {
      var pantheon := ripemd(seed);
      var pantheonName := Spelling(pantheon);
      var d := pantheonDraws(pantheonName);
      var names := seq(d.entityCount, i requires 0 <= i < d.entityCount => EntityName(ripemd, seed, i));
      assert names == EntityNames(ripemd, seed, d.entityCount);
      r := DescribeNamedPantheon(pantheonName, names, d, entityDraws, title, order);
    }
}
}
