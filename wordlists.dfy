/** make_word_lists.py: the word lists the old generation mode draws from,
    each the cleaned names of every hyponym below a WordNet root. WordNet is
    the `children` oracle of descriptions.py; the pickle written at the end is
    not modelled. */
module WordLists {
  import opened Text
  import Descriptions

  /** A rank that every hyponym link lowers: WordNet's hyponym graph has no
      cycles, which is what makes the unbounded traversal finish. */
  type Rank = string -> nat

  ghost predicate Ranked(children: Descriptions.Oracle, rank: Rank) {
    forall s: string, c: string :: c in children(s) ==> rank(c) < rank(s)
  }

  /** What recurse_hyponyms appends below `synset`: each hyponym's cleaned
      name, then everything below that hyponym, with no depth limit. */
  function Hyponyms(children: Descriptions.Oracle, ghost rank: Rank, synset: string): seq<string>
    requires Ranked(children, rank)
    decreases rank(synset), 1, 0
  {
    HyponymForest(children, rank, children(synset), rank(synset))
  }

  /** The same for a list of hyponyms, each ranked below `bound`. */
  function HyponymForest(children: Descriptions.Oracle, ghost rank: Rank, hyponyms: seq<string>, ghost bound: nat): seq<string>
    requires Ranked(children, rank)
    requires forall h :: h in hyponyms ==> rank(h) < bound
    decreases bound, 0, |hyponyms|
  {
    if hyponyms == [] then []
    else
      var last := hyponyms[|hyponyms| - 1];
      HyponymForest(children, rank, hyponyms[..|hyponyms| - 1], bound)
      + [Descriptions.CleanWordNetName(last)] + Hyponyms(children, rank, last)
  }

  /** recurse_hyponyms: appends the cleaned names below `synset` to `allHyponyms`
      and returns the list. */
  method RecurseHyponyms(children: Descriptions.Oracle, ghost rank: Rank, synset: string, allHyponyms: seq<string>)
    returns (r: seq<string>)
    requires Ranked(children, rank)
    ensures r == allHyponyms + Hyponyms(children, rank, synset)
    decreases rank(synset)
  {
    r := allHyponyms;
    var synsetHyponyms := children(synset);
    if synsetHyponyms != [] {
      for i := 0 to |synsetHyponyms|
        invariant r == allHyponyms + HyponymsUpTo(children, rank, synset, i)
      {
        var hyponym := synsetHyponyms[i];
        HyponymsNext(children, rank, synset, i);
        r := r + [Descriptions.CleanWordNetName(hyponym)];
        r := RecurseHyponyms(children, rank, hyponym, r);
      }
      HyponymsAll(children, rank, synset);
    }
  }

  /** What recurse_hyponyms has appended after the first `i` hyponyms of `synset`. */
  function HyponymsUpTo(children: Descriptions.Oracle, ghost rank: Rank, synset: string, i: nat): seq<string>
    requires Ranked(children, rank) && i <= |children(synset)|
  {
    HyponymForest(children, rank, children(synset)[..i], rank(synset))
  }

  /** Hyponym `i` adds its cleaned name and then everything below it. */
  lemma HyponymsNext(children: Descriptions.Oracle, rank: Rank, synset: string, i: nat)
    requires Ranked(children, rank) && i < |children(synset)|
    ensures rank(children(synset)[i]) < rank(synset)
    ensures HyponymsUpTo(children, rank, synset, i + 1) ==
            HyponymsUpTo(children, rank, synset, i) + [Descriptions.CleanWordNetName(children(synset)[i])] +
            Hyponyms(children, rank, children(synset)[i])
  {
    assert children(synset)[..i + 1][..i] == children(synset)[..i];
  }

  lemma HyponymsAll(children: Descriptions.Oracle, rank: Rank, synset: string)
    requires Ranked(children, rank)
    ensures HyponymsUpTo(children, rank, synset, |children(synset)|) == Hyponyms(children, rank, synset)
  {
    assert children(synset)[..|children(synset)|] == children(synset);
  }

  /** A synset with no hyponyms leaves the list as it was. */
  lemma LeafAddsNothing(children: Descriptions.Oracle, rank: Rank, synset: string)
    requires Ranked(children, rank)
    requires children(synset) == []
    ensures Hyponyms(children, rank, synset) == []
  {
  }

  lemma {:induction false} HyponymForestAppend(children: Descriptions.Oracle, rank: Rank,
                                               a: seq<string>, b: seq<string>, bound: nat)
    requires Ranked(children, rank)
    requires forall h :: h in a + b ==> rank(h) < bound
    ensures HyponymForest(children, rank, a + b, bound) ==
            HyponymForest(children, rank, a, bound) + HyponymForest(children, rank, b, bound)
    decreases |b|
  {
    if b == [] {
      assert a + b == a;
    } else {
      assert (a + b)[..|a + b| - 1] == a + b[..|b| - 1];
      HyponymForestAppend(children, rank, a, b[..|b| - 1], bound);
    }
  }

  /** Pre-order: the first hyponym's name, everything below it, then the
      remaining hyponyms in order. */
  lemma HyponymForestCons(children: Descriptions.Oracle, rank: Rank, h: string, rest: seq<string>, bound: nat)
    requires Ranked(children, rank)
    requires forall x :: x in [h] + rest ==> rank(x) < bound
    ensures HyponymForest(children, rank, [h] + rest, bound) ==
            [Descriptions.CleanWordNetName(h)] + Hyponyms(children, rank, h) + HyponymForest(children, rank, rest, bound)
  {
    HyponymForestAppend(children, rank, [h], rest, bound);
    assert [h][..0] == [];
  }

  /** Every name in a word list is cleaned: no '.' and no '_'. */
  lemma {:induction false} HyponymsClean(children: Descriptions.Oracle, rank: Rank, synset: string)
    requires Ranked(children, rank)
    ensures forall x :: x in Hyponyms(children, rank, synset) ==> '.' !in x && '_' !in x
    decreases rank(synset), 1, 0
  {
    HyponymForestClean(children, rank, children(synset), rank(synset));
  }

  lemma {:induction false} HyponymForestClean(children: Descriptions.Oracle, rank: Rank, hyponyms: seq<string>, bound: nat)
    requires Ranked(children, rank)
    requires forall h :: h in hyponyms ==> rank(h) < bound
    ensures forall x :: x in HyponymForest(children, rank, hyponyms, bound) ==> '.' !in x && '_' !in x
    decreases bound, 0, |hyponyms|
  {
    if hyponyms != [] {
      var last := hyponyms[|hyponyms| - 1];
      HyponymForestClean(children, rank, hyponyms[..|hyponyms| - 1], bound);
      HyponymsClean(children, rank, last);
    }
  }

  lemma CleanListAppend(a: seq<string>, b: seq<string>)
    ensures Descriptions.CleanWordNetList(a + b) ==
            Descriptions.CleanWordNetList(a) + Descriptions.CleanWordNetList(b)
  {
    assert forall i :: 0 <= i < |a| ==> (a + b)[i] == a[i];
    assert forall i :: |a| <= i < |a + b| ==> (a + b)[i] == b[i - |a|];
  }

  /** The word list is descriptions.py's depth-bounded traversal, once the
      depth exceeds the rank of the root, with every name cleaned. */
  lemma {:induction false} HyponymsAreCleanedDescendants(children: Descriptions.Oracle, rank: Rank, synset: string, depth: int)
    requires Ranked(children, rank)
    requires depth > rank(synset)
    ensures Hyponyms(children, rank, synset) ==
            Descriptions.CleanWordNetList(Descriptions.Descendants(children, synset, depth))
    decreases rank(synset), 1, 0
  {
    ForestIsCleanedForest(children, rank, children(synset), rank(synset), depth - 1);
  }

  lemma {:induction false} ForestIsCleanedForest(children: Descriptions.Oracle, rank: Rank, hyponyms: seq<string>,
                                                 bound: nat, depth: int)
    requires Ranked(children, rank)
    requires forall h :: h in hyponyms ==> rank(h) < bound
    requires depth >= bound
    ensures HyponymForest(children, rank, hyponyms, bound) ==
            Descriptions.CleanWordNetList(Descriptions.Forest(children, hyponyms, depth))
    decreases bound, 0, |hyponyms|
  {
    if hyponyms != [] {
      var prefix := hyponyms[..|hyponyms| - 1];
      var last := hyponyms[|hyponyms| - 1];
      ForestIsCleanedForest(children, rank, prefix, bound, depth);
      HyponymsAreCleanedDescendants(children, rank, last, depth);
      var f := Descriptions.Forest(children, prefix, depth);
      var d := Descriptions.Descendants(children, last, depth);
      assert Descriptions.Forest(children, hyponyms, depth) == f + [last] + d;
      CleanListAppend(f + [last], d);
      CleanListAppend(f, [last]);
      assert Descriptions.CleanWordNetList([last]) == [Descriptions.CleanWordNetName(last)];
    }
  }

  /** So the word lists agree with the cached concept lists, whose default
      depth is sys.maxint, for every root below that rank. */
  lemma HyponymsAtMaxInt(children: Descriptions.Oracle, rank: Rank, synset: string)
    requires Ranked(children, rank)
    requires rank(synset) < Descriptions.MaxInt
    ensures Hyponyms(children, rank, synset) ==
            Descriptions.CleanWordNetList(Descriptions.Descendants(children, synset, Descriptions.MaxInt))
  {
    HyponymsAreCleanedDescendants(children, rank, synset, Descriptions.MaxInt);
  }

  // ---------------------------------------------------------------------
  // The pickled dictionary

  /** The keys of the pickled dictionary. */
  const Keys: seq<string> :=
    ["substance", "phenomenon", "attribute", "entity", "motivation", "trait",
     "unfortunate", "property", "machine", "animal", "location",
     "quality", "psychic", "system"]

  /** A dictionary with every key the old generation mode looks up. */
  predicate HasKeys(words: map<string, seq<string>>) {
    forall k :: k in Keys ==> k in words
  }

  /** The dictionary make_word_lists.py pickles, with the root of the 'entity'
      list as a parameter: the script passes 'attribute.n.02' there. */
  function WordListsWith(children: Descriptions.Oracle, ghost rank: Rank, entityRoot: string): (words: map<string, seq<string>>)
    requires Ranked(children, rank)
    ensures HasKeys(words)
    ensures forall k :: k in words <==> k in Keys
  {
    map k | k in Keys :: Hyponyms(children, rank, RootOf(k, entityRoot))
  }

  /** The WordNet root each key's list is traversed from. */
  function RootOf(key: string, entityRoot: string): string {
    match key
    case "substance" => "substance.n.01"
    case "phenomenon" => "natural_phenomenon.n.01"
    case "attribute" => "attribute.n.02"
    case "entity" => entityRoot
    case "motivation" => "motivation.n.01"
    case "trait" => "trait.n.01"
    case "unfortunate" => "unfortunate.n.01"
    case "property" => "property.n.02"
    case "machine" => "machine.n.01"
    case "animal" => "animal.n.01"
    case "location" => "location.n.01"
    case "quality" => "quality.n.01"
    case "psychic" => "psychic_communication.n.01"
    case "system" => "system.n.01"
    case _ => key
  }

  /** The dictionary as the script writes it: 'entity' is traversed from
      'attribute.n.02', the root of the 'attribute' list. */
  function AsWritten(children: Descriptions.Oracle, ghost rank: Rank): (words: map<string, seq<string>>)
    requires Ranked(children, rank)
    ensures HasKeys(words)
  {
    WordListsWith(children, rank, "attribute.n.02")
  }

  /** As written, the 'entity' list is the 'attribute' list, whatever WordNet holds. */
  lemma EntityIsAttribute(children: Descriptions.Oracle, rank: Rank)
    requires Ranked(children, rank)
    ensures AsWritten(children, rank)["entity"] == AsWritten(children, rank)["attribute"]
  {
  }

  /** An ontology in which 'entity.n.01' has a hyponym and 'attribute.n.02' has none. */
  function SmallOntology(s: string): seq<string> {
    if s == "entity.n.01" then ["thing.n.12"] else []
  }

  function SmallRank(s: string): nat {
    if s == "entity.n.01" then 1 else 0
  }

  lemma SmallOntologyRanked()
    ensures Ranked(SmallOntology, SmallRank)
  {
  }

  /** There 'entity.n.01' lists "thing" and 'attribute.n.02' lists nothing. */
  lemma SmallOntologyLists()
    ensures Ranked(SmallOntology, SmallRank)
    ensures Hyponyms(SmallOntology, SmallRank, "entity.n.01") == ["thing"]
    ensures Hyponyms(SmallOntology, SmallRank, "attribute.n.02") == []
  {
    SmallOntologyRanked();
    var thing := "thing.n.12";
    assert Hyponyms(SmallOntology, SmallRank, thing) == [];
    assert Descriptions.CleanWordNetName(thing) == "thing" by {
      Descriptions.CleanOne(thing, 5);
    }
    assert [thing][..0] == [];
    assert HyponymForest(SmallOntology, SmallRank, [thing], 1) ==
           HyponymForest(SmallOntology, SmallRank, [], 1) + ["thing"] + Hyponyms(SmallOntology, SmallRank, thing);
  }

  /** There the script's 'entity' list is empty, while the list its comment
      describes ("pretty much everything") holds "thing". */
  lemma AsWrittenMissesEntities()
    ensures Ranked(SmallOntology, SmallRank)
    ensures AsWritten(SmallOntology, SmallRank)["entity"] == []
    ensures Corrected(SmallOntology, SmallRank)["entity"] == ["thing"]
  {
    SmallOntologyLists();
    assert RootOf("entity", "entity.n.01") == "entity.n.01";
    assert RootOf("entity", "attribute.n.02") == "attribute.n.02";
  }

  /** The dictionary with 'entity' traversed from 'entity.n.01'. */
  function Corrected(children: Descriptions.Oracle, ghost rank: Rank): (words: map<string, seq<string>>)
    requires Ranked(children, rank)
    ensures HasKeys(words)
  {
    WordListsWith(children, rank, "entity.n.01")
  }

  /** Corrected, the 'entity' list is the traversal of 'entity.n.01' and every
      other list is the one the script writes. */
  lemma CorrectedRoots(children: Descriptions.Oracle, rank: Rank)
    requires Ranked(children, rank)
    ensures Corrected(children, rank)["entity"] == Hyponyms(children, rank, "entity.n.01")
    ensures forall k :: k in Keys && k != "entity" ==> Corrected(children, rank)[k] == AsWritten(children, rank)[k]
  {
    forall k | k in Keys && k != "entity"
      ensures Corrected(children, rank)[k] == AsWritten(children, rank)[k]
    {
      OnlyEntityMoves(k, "entity.n.01", "attribute.n.02");
    }
  }

  /** Only the 'entity' list depends on the root chosen for it. */
  lemma OnlyEntityMoves(key: string, a: string, b: string)
    requires key != "entity"
    ensures RootOf(key, a) == RootOf(key, b)
  {
  }
}
