# autoloa in Dafny

autoloa writes descriptions of imaginary gods (in the spirit of the Vodou
*lwa*) and posts them to a blog. A god's name is the RIPEMD-160 digest of a
seed, spelled out one phoneme per byte with weighted English phoneme
frequencies. Its description is made of concepts drawn at random from the
WordNet hypernym graph: properties, past and future events, and
relationships to the other gods of the same pantheon. This project models
its four Python files, one Dafny module each, with three support modules:

- `Phonetics` (phonetics.py): the weighted phoneme table, `numToPhonem`
  (scan the running totals for the first one that reaches the byte's
  share), `hashToPhonems` (hex decode, then one phoneme per byte), and
  `phonemsToASCII` (a fold of literal `re.sub` calls over the
  `PHONEM_ASCII` table, in dictionary order).
- `Descriptions` (descriptions.py): WordNet name cleaning, the
  depth-bounded hyponym traversal, the process-wide concept cache (the
  `ConceptCache` class, whose `entries` map the methods update), the leaf,
  event, relationship, property-value and property-root choosers,
  `describeEntity`, `entityName`, and `describePantheon`.
- `AutoLoa` (autoloa.py): its own copy of the phoneme table,
  `PROPERTIES`, `MULTI_PROPERTIES` (three lists of lists that `choose`
  shuffles in place, held in the `Generator` class as arrays), `choose`,
  `genDescription`, `postSeveral`, and the `__main__` block that picks and
  shuffles the property keys.
- `WordLists` (make_word_lists.py): the unbounded hyponym traversal that
  builds the pickled word lists, and the dictionary of lists it dumps.
- `Draws`: Python 2.7's `random.sample`, `random.choice` and
  `random.shuffle`, each with its draws passed in as arguments.
- `Text` and `Outcomes`: string helpers (split, join, literal
  replace-all) and the `Result` type for the exceptions the code can
  raise (`ValueError` from `random.sample` and from hex decoding,
  `IndexError` from `random.choice` on an empty list).

Randomness is explicit. Every draw the Mersenne Twister would make is a
parameter, and each draw-fit predicate (`ChooseDrawsFit`,
`EntityDrawsFit`, `PantheonDrawsFit`, `KeyDrawsFit`, ...) states the range
that Python's generator can produce for that call. Seeding
(`random.seed(...)`) is therefore a choice of draws. The digest function,
`str.title` and dictionary iteration order are parameters too.

State that the source mutates is modelled imperatively:

- `ConceptCache` holds the cache as a `map` field.
- `Generator` holds the `MULTI_PROPERTIES` lists as `array`s that
  `Draws.Shuffle` permutes in place.
- `RecurseHyponyms` (in both traversal modules) is a recursive method
  whose loop over a synset's hyponyms appends each name to the
  accumulator, then recurses into that hyponym. The descriptions.py
  traversal appends the synset name as WordNet gives it ("water.n.01")
  and its callers clean the names later; only the make_word_lists.py
  traversal cleans each name as it appends it (make_word_lists.py:14).
- `NumToPhonem` and `PhonemsToAscii` are loops.

Each method's `ensures` ties its result and new state to a specification
function of the old state. The properties are proved as lemmas about those
functions.

The cache is keyed by root alone, as descriptions.py:73-77 is written. The
depth only matters on a miss: a later lookup of the same root with another
depth returns the list stored first (`LookupAfterInsert`).

## Model

| member | source | states |
|---|---|---|
| Phonetics.NumToPhonem | phonetics.py:52-62 | the loop keeps the running total equal to the sum of the weights scanned so far and returns the symbol of the first entry whose total reaches byte·100/255, or "" when none does |
| Phonetics.FirstReaching | phonetics.py:56-61 | the stopping index: no earlier running total reaches the target, and the entry at the index (when inside the table) does |
| Phonetics.StopsAt | phonetics.py:56-61 | the scan stops at entry k exactly when the target is above the total before k and at most the total after k |
| Phonetics.FirstReachingMonotone | phonetics.py:52-62 | a larger byte never stops the scan at an earlier entry, so bytes map to phonemes in table order |
| Phonetics.CumulativeMonotone | phonetics.py:55-59 | running totals never decrease |
| Phonetics.CumulativeTotalsAgree | phonetics.py:24-31 | the 40 running totals of the 39 table weights (0, then one per entry), entry by entry |
| Phonetics.WeightsSumToOneHundred | phonetics.py:24-31 | the weights of the table sum to exactly 100.00 |
| Phonetics.EveryByteHasPhonem | phonetics.py:24-62 | with exact arithmetic every byte 0..255 gets a non-empty symbol of the table |
| Phonetics.ByteZeroAndByteMax | phonetics.py:52-62 | byte 0 is spelled "ə", byte 255 "ʒ" |
| Phonetics.OnlyExactTieIsByteMax | phonetics.py:33-59 | a byte's share equals a running total exactly only for byte 255 at the last entry |
| Phonetics.FromHexAccepts | phonetics.py:64-67 | a string without spaces decodes iff it has even length and only hex digits, two digits per byte in order |
| Phonetics.FromHexAppend | phonetics.py:64-67 | decoding x and y separately and concatenating equals decoding x + y |
| Phonetics.FromHexDigest | phonetics.py:64-67 | decoding a `hexdigest()` gives back the digest bytes |
| Phonetics.SymbolLengths | phonetics.py:24-31 | every symbol of the table is one or two code points |
| Phonetics.HashToPhonemsShape | phonetics.py:64-67 | succeeds iff hex decoding does; the result is one table symbol per byte in byte order, between n and 2n code points long |
| Phonetics.HashToPhonemsConcat | phonetics.py:64-67 | spelling x + y is spelling x followed by spelling y |
| Phonetics.HashToPhonemsNotInjective | phonetics.py:24-67 | "50f2" and "fa" spell the same name "tʃ", so different digests can give the same name |
| Phonetics.PhonemsToAscii | phonetics.py:46-50 | the loop applies the table's substitutions in the given key order; the result is the substitution fold of the input |
| Phonetics.PhonemAsciiIsSubstitutionTable | phonetics.py:37-44 | `PHONEM_ASCII` has the keys "ɔɪ" and "ɪ"; all keys non-empty and all replacements ASCII; "ɔ" occurs in no key but "ɔɪ", and there it is followed by "ɪ"; "ɪ" is the only key starting with "ɪ" and "i" the only key starting with "i"; every other non-ASCII character of a key is itself a key; "ɪ" (and "i") map to "i" |
| Phonetics.AsciiReplacements | phonetics.py:37-44 | every replacement in `PHONEM_ASCII` is ASCII |
| Phonetics.AsciiTableShape | phonetics.py:24-44 | the keys of `PHONEM_ASCII` are exactly the symbols of `PHONEMS`, and the keys that are already ASCII map to themselves |
| Phonetics.SafeStep | phonetics.py:48-49 | one substitution step keeps the text made of ASCII and of not-yet-substituted keys |
| Phonetics.SafeOrders | phonetics.py:46-50 | for any table of that shape and any key order: every concatenation of keys becomes ASCII iff "ɔɪ" is substituted before "ɪ" |
| Phonetics.UnsafeWhenVowelFirst | phonetics.py:48-49 | when "ɪ" comes first, "ɔɪ" becomes "ɔi" and a non-ASCII "ɔ" is left |
| Phonetics.PhonemsToAsciiSafeOrders | phonetics.py:37-50 | the same equivalence for `PHONEM_ASCII` itself |
| Phonetics.NamesSpellInAscii | phonetics.py:46-67 | under a safe key order, the ASCII form of any name `hashToPhonems` produces is ASCII |
| Draws.Sample | autoloa.py:88-89 | `random.sample` raises iff the count is negative or above the population size, and otherwise returns the items at the drawn distinct positions |
| Draws.SelectSubMultiset | descriptions.py:91 | a sample takes no item more often than the population holds it |
| Draws.SelectNoDups | autoloa.py:126-128 | sampling a duplicate-free list gives a duplicate-free list |
| Draws.ChoiceByRandom | autoloa.py:90 | `random.choice` raises iff the list is empty and otherwise returns a member of it |
| Draws.ScaledIndex | autoloa.py:90 | `int(random() * n)` is an index below n |
| Draws.ShuffledPermutes | autoloa.py:87 | the swaps of `random.shuffle` give a permutation of the list |
| Draws.Shuffle | autoloa.py:87 | the in-place shuffle leaves the array equal to the swap sequence's result, a permutation of its old contents |
| Descriptions.CleanWordNetName | descriptions.py:49-51 | the part before the first '.', with each '_' turned into a space; the result has no '.' and no '_' |
| Descriptions.CleanOne | descriptions.py:49-51 | "substance.n.01" cleans to "substance" and "body_part.n.01" to "body part" |
| Descriptions.RemoveAlreadyUsed | descriptions.py:79-81 | x is in the result iff it is in b and not in a; no duplicates; no longer than b |
| Descriptions.RecurseHyponyms | descriptions.py:57-65 | the recursive method, whose loop appends each hyponym's synset name as WordNet gives it (uncleaned) and then recurses while depth remains, returns the accumulator followed by the depth-bounded pre-order descendants |
| Descriptions.ForestCons | descriptions.py:62-64 | pre-order: each child is followed by its own descendants, then by its later siblings' |
| Descriptions.DepthOne | descriptions.py:57-65 | at depth 1 the descendants are exactly the direct hyponyms |
| Descriptions.LeafHasNoDescendants | descriptions.py:61-64 | a concept without hyponyms has no descendants at any depth |
| Descriptions.ConceptCache.constructor | descriptions.py:47 | the cache starts empty |
| Descriptions.ConceptCache.LoadConceptList | descriptions.py:67-71 | stores the root's descendants at the given depth under the root; no other entry changes |
| Descriptions.ConceptCache.GetOrCacheConceptList | descriptions.py:73-77 | returns the cached list on a hit and the freshly loaded one on a miss; afterwards the root is cached with the returned list |
| Descriptions.LookupAfterInsert | descriptions.py:73-77 | a second lookup of a root gives the first answer, whatever depth it asks for |
| Descriptions.InsertAllEntries | descriptions.py:73-77 | looking up several roots caches exactly those roots and changes no other entry |
| Descriptions.InsertAllTwice | descriptions.py:73-77 | looking up the same roots twice leaves the cache as after once |
| Descriptions.LookupThroughInserts | descriptions.py:73-77 | at a fixed depth, other lookups in between do not change what a lookup returns |
| Descriptions.InsertsKeepLookups | descriptions.py:73-77 | lookups at one depth give the same lists before and after a run of inserts at that depth |
| Descriptions.PopulationMembers | descriptions.py:87-90 | an item is in the sampling population iff it is in some root's descendants, or is one of the roots when all descendants are empty |
| Descriptions.ConceptCache.ChooseLeafConcepts | descriptions.py:84-91 | the loop looks up every root in order and samples the merged list; the result and new cache are those of `LeafChoice` |
| Descriptions.LookupAdvance | descriptions.py:87 | one more lookup extends the merged list by that root's cached list |
| Descriptions.LeafChoiceShape | descriptions.py:84-91 | raises iff the count is outside 0..population size; otherwise count items drawn from the population without taking any item more often than it holds it |
| Descriptions.ConceptCache.ChooseEvents | descriptions.py:93-97 | `chooseLeafConcepts` on the event roots, unbounded depth |
| Descriptions.ConceptCache.ChoosePastAndFutureEvents | descriptions.py:99-103 | past events and future events where the future ones exclude the past ones |
| Descriptions.PastAndFutureShape | descriptions.py:99-103 | raises iff a count exceeds the event population; at most 5 past events; at most 5 distinct future events, each in the second draw and not among the past ones |
| Descriptions.ConceptCache.ChooseRelationships | descriptions.py:105-115 | relationship labels paired with other entities of the pantheon |
| Descriptions.RelationshipsShape | descriptions.py:105-115 | raises iff the count exceeds the label population; at most 4 pairs and no more than the other entities; labels cleaned; targets distinct and other than the entity |
| Descriptions.ConceptCache.ChoosePropertyValues | descriptions.py:117-123 | one (root, value) pair per property root, following `PropertyValues` |
| Descriptions.PropertyValuesShape | descriptions.py:117-123 | one pair per root, in order; the root cleaned; the value a cleaned hyponym of the root, or the root itself when it has none |
| Descriptions.PropertyAdvance | descriptions.py:119-120 | one more iteration appends the next root's pair |
| Descriptions.ConceptCache.ChoosePropertyRoots | descriptions.py:125-129 | `chooseLeafConcepts` on the ten property roots at the drawn depth |
| Descriptions.PropertyRootsShape | descriptions.py:125-129 | 1 to 10 roots, each from the property-root population |
| Descriptions.EntityLinesShape | descriptions.py:139-155 | the lines are the pronounced name, one per property, then the Legends, Prophecies and Relations lines when their lists are non-empty, each with its exact text |
| Descriptions.EntityLinesNoNewlines | descriptions.py:139-155 | no line contains a newline |
| Descriptions.EntityLayout | descriptions.py:139-155 | splitting the description at newlines gives back its lines, then an empty last part |
| Descriptions.WriteDescription | descriptions.py:139-155 | the loop builds the newline-terminated concatenation of the entity's lines |
| Descriptions.ConceptCache.DescribeEntity | descriptions.py:133-156 | the description and new cache are those of `Description` and `EntityCache` on the old cache |
| Descriptions.EntityStages | descriptions.py:136-138 | each chooser sees the cache the earlier ones left, and fits its draws there |
| Descriptions.SameDescription | descriptions.py:133-156 | two caches that answer the same lookups give the same description |
| Descriptions.SpellingInAscii | descriptions.py:139-140 | under a safe key order the pronounced line is ASCII |
| Descriptions.SpellingIsHashToPhonems | descriptions.py:164-168 | spelling a digest is `hashToPhonems` of its `hexdigest()`, which never fails |
| Descriptions.DecimalRoundTrip | descriptions.py:167 | `str(i)` reads back as i |
| Descriptions.EntityInputsDistinct | descriptions.py:164-168 | different indices hash different strings `seed + str(i)` |
| Descriptions.SharedRoots | descriptions.py:179-180 | the shuffled property roots are a permutation of the chosen ones, 1 to 10 of them |
| Descriptions.PantheonEntriesAll | descriptions.py:181-183 | succeeds iff every entity is described; one entry per name, titled "name (pantheon)", with that entity's description |
| Descriptions.EntriesAdvance | descriptions.py:181-183 | one more described entity extends the entries by its title and text |
| Descriptions.PantheonOfShape | descriptions.py:177-183 | 1 to 12 entries, each titled by its entity name and the pantheon name |
| Descriptions.PantheonOfFails | descriptions.py:179-183 | fails iff choosing the roots or describing some entity fails, with that error |
| Descriptions.PantheonOfDescriptions | descriptions.py:179-183 | every entity is described with the one shared root list |
| Descriptions.EntitiesByName | descriptions.py:181-183 | entity i's text is its description, so two entities with the same name get the same text |
| Descriptions.PantheonTitles | descriptions.py:170-184 | 1 to 12 entries; entry i is titled with entityName(seed, i) and the pantheon's name |
| Descriptions.ConceptCache.DescribeNext | descriptions.py:181-183 | one iteration of the comprehension describes the next entity or stops with the error |
| Descriptions.ConceptCache.DescribeEntities | descriptions.py:181-183 | the loop's entries and cache are those of `PantheonEntries` |
| Descriptions.ConceptCache.DescribeNamedPantheon | descriptions.py:176-184 | choosing the roots, shuffling them in an array, and describing each named entity give `PantheonOf`'s result and cache |
| Descriptions.ConceptCache.DescribePantheon | descriptions.py:170-184 | `describePantheon(seed)` gives `Pantheon`'s result and cache |
| WordLists.RecurseHyponyms | make_word_lists.py:9-16 | the recursive method, whose loop appends each hyponym's cleaned name and then recurses, returns the accumulator followed by every cleaned hyponym in pre-order |
| WordLists.HyponymsNext | make_word_lists.py:13-15 | hyponym i of the loop adds its cleaned name, then its own hyponyms' list |
| WordLists.LeafAddsNothing | make_word_lists.py:11-12 | a synset without hyponyms adds nothing |
| WordLists.HyponymForestCons | make_word_lists.py:13-15 | pre-order: a hyponym's name precedes its own hyponyms, which precede its later siblings |
| WordLists.HyponymsClean | make_word_lists.py:14 | no listed name contains '.' or '_' |
| WordLists.HyponymsAreCleanedDescendants | make_word_lists.py:9-16 | the list is descriptions.py's depth-bounded descendant list, cleaned, whenever the bound exceeds the graph's depth |
| WordLists.HyponymsAtMaxInt | make_word_lists.py:9-16 | the same holds at `sys.maxint` |
| WordLists.WordListsWith | make_word_lists.py:22-85 | the dumped dictionary has exactly the 14 word-list keys the old generation mode reads |
| WordLists.OnlyEntityMoves | make_word_lists.py:22-64 | the root used for 'entity' changes only the 'entity' list |
| WordLists.EntityIsAttribute | make_word_lists.py:27-30 | as written, the 'entity' list equals the 'attribute' list |
| WordLists.AsWrittenMissesEntities | make_word_lists.py:29-30 | in a small ontology the list as written is empty while the list from entity.n.01 is ["thing"] |
| WordLists.CorrectedRoots | make_word_lists.py:29-30 | the corrected 'entity' list is the hyponym list of entity.n.01; every other key is as written |
| AutoLoa.SameTable | autoloa.py:30-37 | autoloa.py's phoneme table equals phonetics.py's |
| AutoLoa.SamePhonem | autoloa.py:41-51 | both `numToPhonem` copies give the same symbol for every byte |
| AutoLoa.HashToPhonems | autoloa.py:53-55 | autoloa.py's `hashToPhonems` agrees with phonetics.py's on every input |
| AutoLoa.SpellingIsHashToPhonems | autoloa.py:123-125 | the pantheon name is `hashToPhonems` of the digest's hex form, which never fails |
| AutoLoa.Properties | autoloa.py:57-69 | the property table has exactly the eleven `PROPERTIES` keys |
| AutoLoa.MultiProperties | autoloa.py:71-75 | the three multi-property lists have 2, 3 and 3 entries |
| AutoLoa.Words | autoloa.py:90 | raises iff a chosen list is empty; otherwise one word per list |
| AutoLoa.WordsFromLists | autoloa.py:90 | each word comes from its own list |
| AutoLoa.ChooseShape | autoloa.py:84-90 | between n/2 (Python 2 integer division) and n lists chosen, none more often than the table holds it; raises iff an empty list is chosen; otherwise the ", "-joined words, each from its list |
| AutoLoa.Choose | autoloa.py:84-90 | shuffles the array in place into a permutation of itself; the result is `choose` of the old contents |
| AutoLoa.ChoosingIsChoose | autoloa.py:84-90 | the function value used for `choose` computes `ChooseOf` |
| AutoLoa.MultiValuesRearranges | autoloa.py:100-102 | the multi-property comprehension only permutes each list |
| AutoLoa.MultiValuesPrefix | autoloa.py:100-102 | a comprehension that succeeds for k keys succeeded for every shorter prefix, with values that begin its own |
| AutoLoa.MultiValuesAt | autoloa.py:100-102 | entry i of the comprehension is `choose` on the list as the earlier entries left it |
| AutoLoa.DescriptionShape | autoloa.py:93-103 | succeeds iff every chosen property list is non-empty and the comprehension succeeds; each value comes from `PROPERTIES[key]`; the text is the exact "key: value" join |
| AutoLoa.DescribingReorders | autoloa.py:93-103 | `genDescription` only reorders the multi-property lists |
| AutoLoa.PostTitleSpells | autoloa.py:105-108 | a post title is `hashToPhonems` of the description's digest, then the pantheon name in parentheses |
| AutoLoa.PostsTitled | autoloa.py:117-120 | every published post is titled from its own description; all iterations posted when none raised, fewer when one did |
| AutoLoa.PostsRearrange | autoloa.py:117-120 | `postSeveral` only reorders the multi-property lists |
| AutoLoa.PostsStop | autoloa.py:117-120 | after the first failure no later iteration changes anything |
| AutoLoa.PostsKeepSent | autoloa.py:118-120 | posts once published are never taken back: the posts after j iterations begin the posts after any later count |
| AutoLoa.PostsAdvance | autoloa.py:118-120 | one more iteration appends its post, or stops with its error while keeping the posts already published |
| AutoLoa.ChooseAdvance | autoloa.py:100-102 | one more `choose` appends its word and shuffles that list, or stops with its error |
| AutoLoa.SampledKeysShape | autoloa.py:126-133 | sampled and shuffled keys: as many as drawn, at most one fewer than all keys, distinct, each a key |
| AutoLoa.PropertyKeysShape | autoloa.py:126-129 | 1 to 10 distinct `PROPERTIES` keys |
| AutoLoa.MultiKeysShape | autoloa.py:130-133 | 1 or 2 distinct `MULTI_PROPERTIES` keys |
| AutoLoa.SampleKeys | autoloa.py:126-133 | sampling into a new array and shuffling it in place gives `SampledKeys` |
| AutoLoa.Generator.constructor | autoloa.py:57-75 | the property table is `PROPERTIES` and the arrays hold the `MULTI_PROPERTIES` lists |
| AutoLoa.Generator.ChooseFor | autoloa.py:101 | `choose` on one multi-property array: the array is shuffled and the result is `ChooseOf` |
| AutoLoa.Generator.ChooseAll | autoloa.py:100-102 | the comprehension's words and the arrays' new contents are those of `MultiValues` |
| AutoLoa.Generator.GenDescription | autoloa.py:93-103 | the text and the arrays' new contents are those of `DescriptionOf` |
| AutoLoa.Generator.PostNext | autoloa.py:119-120 | one iteration posts the next description with its title |
| AutoLoa.Generator.PostSeveral | autoloa.py:117-120 | for 1..12 iterations, the posts published (also those before a raising iteration), how the loop ended, and the arrays' new contents are those of `PostsOf` |
| AutoLoa.Generator.PostPantheon | autoloa.py:122-134 | the pantheon is named from the clock's digest; sampled and shuffled keys are passed to `postSeveral`, whose published posts, ending and arrays follow `PostsOf` |

## Left out

- Posting to the blog is not modelled. A post is the (title, body) pair `postDescription` would send (autoloa.py:109-115). The Tumblr client, its credentials and config.json are outside the model.
- The pickle load and dump of the word lists are not modelled. The dictionary is a parameter `words` with the keys `WordLists.Keys`.
- The WordNet graph is an oracle `children` from a synset name to its hyponyms. Failures of a WordNet lookup are not modelled. The make_word_lists.py traversal needs an acyclic graph, stated as its `Ranked` precondition.
- The Mersenne Twister and `random.seed` are not modelled. Every draw is a parameter, and the draw-fit predicates are preconditions restricting those parameters to the range Python can return. Seed-level reproducibility (same seed, same pantheon) therefore holds only by construction: the same draws give the same result.
- `random.choice` is modelled as CPython 2.7's `s[int(random() * len(s))]` with `random() = k/2^53`. The floating-point product is taken exactly.
- Descriptions.ConceptCache.GetOrCacheConceptList: keyed by root alone, as the code is written. A hit ignores the depth asked for, so a root first cached at depth 1 or 2 (property roots) is later returned at that depth even where `sys.maxint` is asked.
- Descriptions.RemoveAlreadyUsed: the result keeps first-occurrence order, where CPython's `set` iteration order decides it. The order reaches the Prophecies line (descriptions.py:147), so the model fixes one order for that line that CPython may not produce. It also orders `others` (descriptions.py:109), from which `random.sample` draws the relation targets (descriptions.py:115): the set of reachable outcomes is the same, since the picks are free draws, but for one fixed draw the target paired with each label can differ from CPython's. The lemma states membership and no duplicates, which do not depend on the order.
- Phonetics.NumToPhonem: the weights are exact hundredths instead of floats. `OnlyExactTieIsByteMax` proves that the only exact tie between a byte's share and a running total is byte 255 at the last entry; how far the other comparisons are from a tie is not stated.
- RIPEMD-160, `datetime.now().isoformat()` and `str.title` are function or string parameters. Byte strings and unicode strings are both `seq<char>`.
- Dictionary iteration order for `PHONEM_ASCII` is a parameter `order`, as is the iteration order of `PROPERTIES` and `MULTI_PROPERTIES` before sampling.
- AutoLoa.Generator.PostSeveral: `choose` and `genDescription` are passed as function values (`Chooser`, `Describer`). The number of iterations is the length of the draw sequence.
- The print block at descriptions.py:186-204 is not modelled. It only formats output for a console, seeded with `str(random.random())`.
- Floating-point formatting and `sys.maxint` overflow are not modelled. `sys.maxint` is the constant 2^63-1.

## Findings

| source | as written | input that shows it | evidently intended | confidence | as-written member | corrected member |
|---|---|---|---|---|---|---|
| make_word_lists.py:29-30 | the 'entity' list is built from `attribute.n.02`, so it copies the 'attribute' list | `WordLists.SmallOntology`: entity.n.01 has the hyponym thing.n.12 and attribute.n.02 has none; the 'entity' list is [] | build it from `entity.n.01`, as the comment above it says ("pretty much everything"); the list is ["thing"] | not executed | WordLists.EntityIsAttribute | WordLists.CorrectedRoots |
