/** autoloa.py: the old generation mode. Each entity's description is a list
    of word-list properties; the pantheon is named from the RIPEMD-160 digest
    of the current time, and each entity from the digest of its description.
    The tumblr client, the configuration file and the pickle load are not
    modelled: the word lists are a parameter and the posts are returned. */
module AutoLoa {
  import opened Outcomes
  import opened Text
  import opened Draws
  import Phonetics
  import WordLists

  // ---------------------------------------------------------------------
  // The phoneme codec, duplicated

  /** autoloa.py's own copy of PHONEMS, in hundredths. */
  const Phonems: Phonetics.Table := [
    ("ə", 1149), ("n", 711), ("r", 694), ("t", 691), ("ɪ", 632),
    ("s", 475), ("d", 421), ("l", 396), ("i", 361), ("k", 318),
    ("ð", 295), ("ɛ", 286), ("m", 276), ("z", 276), ("p", 215),
    ("æ", 210), ("v", 201), ("w", 195), ("u", 193), ("b", 180),
    ("e", 179), ("ʌ", 174), ("f", 171), ("aɪ", 150), ("ɑ", 145),
    ("h", 140), ("o", 125), ("ɒ", 118), ("ŋ", 99), ("ʃ", 97),
    ("y", 81), ("g", 80), ("dʒ", 59), ("tʃ", 56), ("aʊ", 50),
    ("ʊ", 43), ("θ", 41), ("ɔɪ", 10), ("ʒ", 7)]

  /** The copy has the same symbols, weights and order as phonetics.py's table. */
  lemma SameTable()
    ensures Phonems == Phonetics.Phonems
  {
  }

  /** So numToPhonem maps every byte as phonetics.py's does. */
  lemma SamePhonem(num: Phonetics.Byte)
    ensures Phonetics.PhonemFor(Phonems, num) == Phonetics.PhonemFor(Phonetics.Phonems, num)
  {
  }

  /** hashToPhonems over autoloa.py's table. */
  function HashToPhonems(source: string): (r: Result<string>)
    ensures r == Phonetics.HashToPhonems(source)
  {
    match Phonetics.FromHex(source)
    case Ok(bytes) => Ok(Flatten(Phonetics.SymbolsOf(Phonems, bytes)))
    case Err(e) => Err(e)
  }

  /** The phonemes of a digest: one symbol per byte, in order. */
  function Spelling(digest: seq<Phonetics.Byte>): string {
    Flatten(Phonetics.SymbolsOf(Phonems, digest))
  }

  /** hashToPhonems of a digest's hexdigest() never fails, and spells the digest. */
  lemma SpellingIsHashToPhonems(digest: seq<Phonetics.Byte>)
    ensures HashToPhonems(Phonetics.HexDigest(digest)) == Ok(Spelling(digest))
  {
    Phonetics.FromHexDigest(digest);
  }

  // ---------------------------------------------------------------------
  // PROPERTIES and MULTI_PROPERTIES

  const PropertyNames: seq<string> :=
    ["Substance", "Natural Phenomenon", "Attribute", "Entity", "Motivation",
     "Trait", "Unfortunate", "Property", "Machine", "Animal", "Location"]

  /** The keys of MULTI_PROPERTIES, in source order. */
  datatype MultiKey = Extent | Presence | Fields
  const MultiKeys: seq<MultiKey> := [Extent, Presence, Fields]

  /** The display name a key prints as. */
  function MultiName(key: MultiKey): string {
    match key
    case Extent => "Extent"
    case Presence => "Presence"
    case Fields => "Fields"
  }

  function MultiNames(keys: seq<MultiKey>): (r: seq<string>)
    ensures |r| == |keys|
  {
    seq(|keys|, i requires 0 <= i < |keys| => MultiName(keys[i]))
  }

  const MinEntities := 1
  const MaxEntities := 13
  const MinProperties := 1
  const MaxProperties := |PropertyNames|
  const MinMultiProperties := 1
  const MaxMultiProperties := |MultiKeys|

  /** The word list behind each PROPERTIES key. */
  function PropertyList(words: map<string, seq<string>>, key: string): seq<string>
    requires WordLists.HasKeys(words)
  {
    match key
    case "Substance" => words["substance"]
    case "Natural Phenomenon" => words["phenomenon"]
    case "Attribute" => words["attribute"]
    case "Entity" => words["entity"]
    case "Motivation" => words["motivation"]
    case "Trait" => words["trait"]
    case "Unfortunate" => words["unfortunate"]
    case "Property" => words["property"]
    case "Machine" => words["machine"]
    case "Animal" => words["animal"]
    case _ => words["location"]
  }

  /** PROPERTIES: a display name to one word list. */
  function Properties(words: map<string, seq<string>>): (m: map<string, seq<string>>)
    requires WordLists.HasKeys(words)
    ensures forall k :: k in m <==> k in PropertyNames
  {
    map k | k in PropertyNames :: PropertyList(words, k)
  }

  /** A state of MULTI_PROPERTIES: the list of word lists under each key. */
  datatype MultiLists = MultiLists(extent: seq<seq<string>>, presence: seq<seq<string>>, fields: seq<seq<string>>)
  {
    function Get(key: MultiKey): seq<seq<string>> {
      match key
      case Extent => extent
      case Presence => presence
      case Fields => fields
    }

    /** The state with the list under `key` replaced; the other two kept. */
    function Set(key: MultiKey, lists: seq<seq<string>>): (r: MultiLists)
    {
      match key
      case Extent => this.(extent := lists)
      case Presence => this.(presence := lists)
      case Fields => this.(fields := lists)
    }

    /** Each list of the length the module's displays give it. */
    predicate Sized() {
      |extent| == 2 && |presence| == 3 && |fields| == 3
    }
  }

  /** The length of each value list of MULTI_PROPERTIES. */
  function MultiSize(key: MultiKey): nat {
    if key == Extent then 2 else 3
  }

  lemma SizedGet(m: MultiLists, key: MultiKey)
    requires m.Sized()
    ensures |m.Get(key)| == MultiSize(key)
  {
  }

  /** MULTI_PROPERTIES as the module defines it. */
  function MultiProperties(words: map<string, seq<string>>): (m: MultiLists)
    requires WordLists.HasKeys(words)
    ensures m.Sized()
  {
    MultiLists([words["location"], words["property"]],
               [words["substance"], words["phenomenon"], words["attribute"]],
               [words["quality"], words["psychic"], words["system"]])
  }

  /** Two states of MULTI_PROPERTIES whose lists are rearrangements of each other. */
  predicate Rearranged(m1: MultiLists, m2: MultiLists) {
    && multiset(m1.extent) == multiset(m2.extent)
    && multiset(m1.presence) == multiset(m2.presence)
    && multiset(m1.fields) == multiset(m2.fields)
  }

  lemma RearrangedTransitive(m1: MultiLists, m2: MultiLists, m3: MultiLists)
    requires Rearranged(m1, m2) && Rearranged(m2, m3)
    ensures Rearranged(m1, m3)
  {
  }

  /** Replacing one list by a rearrangement of it rearranges the state. */
  lemma RearrangedSet(m: MultiLists, key: MultiKey, lists: seq<seq<string>>)
    requires multiset(lists) == multiset(m.Get(key))
    ensures Rearranged(m, m.Set(key, lists))
  {
  }

  // ---------------------------------------------------------------------
  // choose

  /** The draws of one call of choose: the shuffle, the randint for the
      sample size, the sampled positions, and one random() per chosen list. */
  datatype ChooseDraws = ChooseDraws(shuffle: seq<nat>, count: int, picks: seq<nat>, choices: seq<nat>)

  /** The draws suit choose on a list of `n` word lists. `math.ceil(maxchoice / 2)`
      is the floor of n/2: Python 2 divides integers before ceil sees the result. */
  predicate ChooseDrawsFit(n: nat, d: ChooseDraws) {
    && IsShuffleDraw(d.shuffle, n)
    && InRandint(d.count, n / 2, n)
    && IsSample(d.picks, d.count, n)
    && |d.choices| == d.count
    && forall i :: 0 <= i < |d.choices| ==> IsRandom(d.choices[i])
  }

  /** The word lists choose takes: `count` of them, at distinct positions of the shuffled list. */
  function Chosen(population: seq<seq<string>>, d: ChooseDraws): (r: seq<seq<string>>)
    requires ChooseDrawsFit(|population|, d)
    ensures |r| == d.count
  {
    ShuffleDrawIsPrefix(d.shuffle, |population|);
    Select(Shuffled(population, d.shuffle), d.picks)
  }

  /** `[random.choice(options) for options in lists]`: one word from each list,
      raising at an empty one. */
  function Words(lists: seq<seq<string>>, choices: seq<nat>): (r: Result<seq<string>>)
    requires |choices| == |lists|
    requires forall i :: 0 <= i < |choices| ==> IsRandom(choices[i])
    ensures r.Err? <==> [] in lists
    ensures r.Err? ==> r.error == EmptySequence
    ensures r.Ok? ==> |r.value| == |lists|
  {
    if lists == [] then Ok([])
    else
      var n := |lists| - 1;
      assert lists == lists[..n] + [lists[n]];
      match Words(lists[..n], choices[..n])
      case Err(e) => Err(e)
      case Ok(prev) =>
        match ChoiceByRandom(lists[n], choices[n])
        case Err(e) => Err(e)
        case Ok(w) => Ok(prev + [w])
  }

  /** Each word comes from its own list. */
  lemma {:induction false} WordsFromLists(lists: seq<seq<string>>, choices: seq<nat>)
    requires |choices| == |lists|
    requires forall i :: 0 <= i < |choices| ==> IsRandom(choices[i])
    ensures Words(lists, choices).Ok? ==>
      forall i :: 0 <= i < |lists| ==> Words(lists, choices).value[i] in lists[i]
  {
    if lists != [] {
      var n := |lists| - 1;
      assert lists == lists[..n] + [lists[n]];
      WordsFromLists(lists[..n], choices[..n]);
    }
  }

  /** choose's result: the chosen words joined by ", ". */
  function ChooseOf(population: seq<seq<string>>, d: ChooseDraws): Result<string>
    requires ChooseDrawsFit(|population|, d)
  {
    var words :- Words(Chosen(population, d), d.choices);
    Ok(Join(", ", words))
  }

  /** choose takes between half and all of the lists, never one position
      twice, so no list more often than the population holds it; it fails
      exactly when a chosen list is empty, and otherwise joins one word of
      each chosen list. */
  lemma ChooseShape(population: seq<seq<string>>, d: ChooseDraws)
    requires ChooseDrawsFit(|population|, d)
    ensures |population| / 2 <= |Chosen(population, d)| <= |population|
    ensures multiset(Chosen(population, d)) <= multiset(population)
    ensures ChooseOf(population, d).Err? <==> [] in Chosen(population, d)
    ensures ChooseOf(population, d).Ok? ==>
      var words := Words(Chosen(population, d), d.choices).value;
      && ChooseOf(population, d).value == Join(", ", words)
      && |words| == d.count
      && forall i :: 0 <= i < d.count ==> words[i] in Chosen(population, d)[i]
  {
    ShuffleDrawIsPrefix(d.shuffle, |population|);
    var shuffled := Shuffled(population, d.shuffle);
    ShuffledPermutes(population, d.shuffle);
    SelectSubMultiset(shuffled, d.picks);
    WordsFromLists(Chosen(population, d), d.choices);
  }

  /** choose: shuffles `population` in place, then samples and picks from it. */
  method Choose(population: array<seq<string>>, d: ChooseDraws) returns (r: Result<string>)
    requires ChooseDrawsFit(population.Length, d)
    modifies population
    ensures population[..] == Shuffled(old(population[..]), d.shuffle)
    ensures multiset(population[..]) == multiset(old(population[..]))
    ensures r == ChooseOf(old(population[..]), d)
  {
    ghost var original := population[..];
    var maxchoice := population.Length;
    Shuffle(population, d.shuffle);
    // random.randint(math.ceil(maxchoice / 2), maxchoice) drew d.count.
    // The sample never raises: randint keeps the size within the list.
    var choices := Sample(population[..], d.count, d.picks).value;
    assert choices == Chosen(original, d);
    var words :- Words(choices, d.choices);
    r := Ok(Join(", ", words));
  }

  // ---------------------------------------------------------------------
  // genDescription

  /** One `<b>key:</b> value` segment. */
  function Segment(key: string, value: string): string {
    "<b>" + key + ":</b> " + value
  }

  function Segments(keys: seq<string>, values: seq<string>): (r: seq<string>)
    requires |keys| == |values|
    ensures |r| == |keys|
  {
    seq(|keys|, i requires 0 <= i < |keys| => Segment(keys[i], values[i]))
  }

  /** The word lists of the property keys, in key order. */
  function PropertyLists(properties: map<string, seq<string>>, keys: seq<string>): (r: seq<seq<string>>)
    requires forall k :: k in keys ==> k in properties
    ensures |r| == |keys|
  {
    seq(|keys|, i requires 0 <= i < |keys| => properties[keys[i]])
  }

  /** The draws of one genDescription: a random() per property key and one
      choose per multi-property key. */
  datatype DescriptionDraws = DescriptionDraws(propertyPicks: seq<nat>, chooses: seq<ChooseDraws>)

  /** An outcome of the generator and MULTI_PROPERTIES after it. */
  datatype Gen<T> = Gen(result: Result<T>, multi: MultiLists)

  /** The draws suit a choose per key on MULTI_PROPERTIES. */
  predicate MultiDrawsFit(keys: seq<MultiKey>, chooses: seq<ChooseDraws>) {
    && |chooses| == |keys|
    && forall i :: 0 <= i < |keys| ==> ChooseDrawsFit(MultiSize(keys[i]), chooses[i])
  }

  predicate DescriptionDrawsFit(properties: map<string, seq<string>>,
                                propertyKeys: seq<string>, multiKeys: seq<MultiKey>, d: DescriptionDraws) {
    && (forall k :: k in propertyKeys ==> k in properties)
    && |d.propertyPicks| == |propertyKeys|
    && (forall i :: 0 <= i < |d.propertyPicks| ==> IsRandom(d.propertyPicks[i]))
    && MultiDrawsFit(multiKeys, d.chooses)
  }

  /** A function with choose's signature, defined wherever the draws suit the list. */
  type Chooser = (seq<seq<string>>, ChooseDraws) --> Result<string>

  /** The draws suit choose on the list `p`. */
  predicate Suits(p: seq<seq<string>>, d: ChooseDraws) {
    ChooseDrawsFit(|p|, d)
  }

  ghost predicate Chooses(choose: Chooser) {
    forall p: seq<seq<string>>, d: ChooseDraws {:trigger choose.requires(p, d)} :: Suits(p, d) ==> choose.requires(p, d)
  }

  /** `choose(p, d)`, evaluated apart from any state of the heap. */
  function ChooseWith(choose: Chooser, p: seq<seq<string>>, d: ChooseDraws): Result<string>
    requires choose.requires(p, d)
  {
    choose(p, d)
  }

  /** choose itself. */
  const Choosing: Chooser := (p: seq<seq<string>>, d: ChooseDraws) requires Suits(p, d) => ChooseOf(p, d)

  lemma ChoosingChooses()
    ensures Chooses(Choosing)
  {
  }

  lemma ChoosingIsChoose(p: seq<seq<string>>, d: ChooseDraws)
    requires Suits(p, d)
    ensures ChooseWith(Choosing, p, d) == ChooseOf(p, d)
  {
  }

  /** The multi-property comprehension for the first `k` keys: each choose
      shuffles its list in MULTI_PROPERTIES before its words are drawn. */
  function MultiValues(choose: Chooser, multi: MultiLists, keys: seq<MultiKey>, chooses: seq<ChooseDraws>,
                       k: nat): (r: Gen<seq<string>>)
    requires k <= |keys| && Chooses(choose)
    requires multi.Sized() && MultiDrawsFit(keys, chooses)
    ensures r.multi.Sized()
  {
    if k == 0 then Gen(Ok([]), multi)
    else
      var prev := MultiValues(choose, multi, keys, chooses, k - 1);
      if prev.result.Err? then prev
      else
        var key := keys[k - 1];
        var population := prev.multi.Get(key);
        SizedGet(prev.multi, key);
        var next := prev.multi.Set(key, Shuffled(population, chooses[k - 1].shuffle));
        var v := ChooseWith(choose, population, chooses[k - 1]);
        Gen(if v.Err? then Err(v.error) else Ok(prev.result.value + [v.value]), next)
  }

  /** One more key: the comprehension so far, then one more choose. */
  lemma MultiValuesStep(choose: Chooser, multi: MultiLists, keys: seq<MultiKey>, chooses: seq<ChooseDraws>, i: nat)
    requires i < |keys| && Chooses(choose)
    requires multi.Sized() && MultiDrawsFit(keys, chooses)
    requires MultiValues(choose, multi, keys, chooses, i).result.Ok?
    ensures var prev := MultiValues(choose, multi, keys, chooses, i);
      && |prev.multi.Get(keys[i])| == MultiSize(keys[i])
      && var w := ChooseWith(choose, prev.multi.Get(keys[i]), chooses[i]);
         MultiValues(choose, multi, keys, chooses, i + 1) ==
         Gen(if w.Err? then Err(w.error) else Ok(prev.result.value + [w.value]),
             prev.multi.Set(keys[i], Shuffled(prev.multi.Get(keys[i]), chooses[i].shuffle)))
  {
    SizedGet(MultiValues(choose, multi, keys, chooses, i).multi, keys[i]);
  }

  /** One value per key. */
  lemma {:induction false} MultiValuesLength(choose: Chooser, multi: MultiLists, keys: seq<MultiKey>,
                                             chooses: seq<ChooseDraws>, k: nat)
    requires k <= |keys| && Chooses(choose)
    requires multi.Sized() && MultiDrawsFit(keys, chooses)
    ensures var r := MultiValues(choose, multi, keys, chooses, k).result;
      r.Ok? ==> |r.value| == k
  {
    if k > 0 {
      MultiValuesLength(choose, multi, keys, chooses, k - 1);
    }
  }

  /** choose only reorders the lists of MULTI_PROPERTIES. */
  lemma {:induction false} MultiValuesRearranges(choose: Chooser, multi: MultiLists, keys: seq<MultiKey>,
                                                 chooses: seq<ChooseDraws>, k: nat)
    requires k <= |keys| && Chooses(choose)
    requires multi.Sized() && MultiDrawsFit(keys, chooses)
    ensures Rearranged(multi, MultiValues(choose, multi, keys, chooses, k).multi)
  {
    if k > 0 {
      MultiValuesRearranges(choose, multi, keys, chooses, k - 1);
      var prev := MultiValues(choose, multi, keys, chooses, k - 1);
      if prev.result.Ok? {
        MultiValuesStep(choose, multi, keys, chooses, k - 1);
        var key := keys[k - 1];
        var population := prev.multi.Get(key);
        ShuffleDrawIsPrefix(chooses[k - 1].shuffle, |population|);
        var shuffled := Shuffled(population, chooses[k - 1].shuffle);
        ShuffledPermutes(population, chooses[k - 1].shuffle);
        RearrangedSet(prev.multi, key, shuffled);
        RearrangedTransitive(multi, prev.multi, prev.multi.Set(key, shuffled));
      }
    }
  }

  /** A comprehension that succeeds for `k` keys succeeded for every shorter
      prefix, with values that begin its own. */
  lemma {:induction false} MultiValuesPrefix(choose: Chooser, multi: MultiLists, keys: seq<MultiKey>,
                                             chooses: seq<ChooseDraws>, j: nat, k: nat)
    requires j <= k <= |keys| && Chooses(choose)
    requires multi.Sized() && MultiDrawsFit(keys, chooses)
    requires MultiValues(choose, multi, keys, chooses, k).result.Ok?
    ensures MultiValues(choose, multi, keys, chooses, j).result.Ok?
    ensures MultiValues(choose, multi, keys, chooses, j).result.value <=
            MultiValues(choose, multi, keys, chooses, k).result.value
    decreases k - j
  {
    if j < k {
      assert MultiValues(choose, multi, keys, chooses, k - 1).result.Ok?;
      MultiValuesPrefix(choose, multi, keys, chooses, j, k - 1);
    }
  }

  /** Value i is choose's result on key i's list as the earlier calls left it. */
  lemma MultiValuesAt(choose: Chooser, multi: MultiLists, keys: seq<MultiKey>,
                      chooses: seq<ChooseDraws>, k: nat, i: nat)
    requires i < k <= |keys| && Chooses(choose)
    requires multi.Sized() && MultiDrawsFit(keys, chooses)
    requires MultiValues(choose, multi, keys, chooses, k).result.Ok?
    ensures var before := MultiValues(choose, multi, keys, chooses, i);
      var values := MultiValues(choose, multi, keys, chooses, k).result.value;
      && before.result.Ok?
      && |values| == k
      && |before.multi.Get(keys[i])| == MultiSize(keys[i])
      && ChooseWith(choose, before.multi.Get(keys[i]), chooses[i]) == Ok(values[i])
  {
    MultiValuesLength(choose, multi, keys, chooses, k);
    MultiValuesPrefix(choose, multi, keys, chooses, i, k);
    MultiValuesPrefix(choose, multi, keys, chooses, i + 1, k);
    MultiValuesLength(choose, multi, keys, chooses, i);
    MultiValuesStep(choose, multi, keys, chooses, i);
  }

  /** genDescription's text: the property segments joined by "<br>", a "<br>",
      then the multi-property segments joined by "<br>". */
  function DescriptionOf(choose: Chooser, properties: map<string, seq<string>>, multi: MultiLists,
                         propertyKeys: seq<string>, multiKeys: seq<MultiKey>, d: DescriptionDraws): (r: Gen<string>)
    requires Chooses(choose) && multi.Sized() && DescriptionDrawsFit(properties, propertyKeys, multiKeys, d)
    ensures r.multi.Sized()
  {
    match Words(PropertyLists(properties, propertyKeys), d.propertyPicks)
    case Err(e) => Gen(Err(e), multi)
    case Ok(values) =>
      var m := MultiValues(choose, multi, multiKeys, d.chooses, |multiKeys|);
      MultiValuesLength(choose, multi, multiKeys, d.chooses, |multiKeys|);
      match m.result
      case Err(e) => Gen(Err(e), m.multi)
      case Ok(multiValues) =>
        Gen(Ok(Join("<br>", Segments(propertyKeys, values)) + "<br>" + Join("<br>", Segments(MultiNames(multiKeys), multiValues))),
            m.multi)
  }

  /** DescriptionOf by its two stages: the property words, then the multi-property comprehension. */
  lemma DescriptionSteps(choose: Chooser, properties: map<string, seq<string>>, multi: MultiLists,
                         propertyKeys: seq<string>, multiKeys: seq<MultiKey>, d: DescriptionDraws)
    requires Chooses(choose) && multi.Sized() && DescriptionDrawsFit(properties, propertyKeys, multiKeys, d)
    ensures var w := Words(PropertyLists(properties, propertyKeys), d.propertyPicks);
      var m := MultiValues(choose, multi, multiKeys, d.chooses, |multiKeys|);
      && (m.result.Ok? ==> |m.result.value| == |multiKeys|)
      && DescriptionOf(choose, properties, multi, propertyKeys, multiKeys, d) ==
         if w.Err? then Gen(Err(w.error), multi)
         else if m.result.Err? then Gen(Err(m.result.error), m.multi)
         else Gen(Ok(Join("<br>", Segments(propertyKeys, w.value)) + "<br>" +
                     Join("<br>", Segments(MultiNames(multiKeys), m.result.value))), m.multi)
  {
    MultiValuesLength(choose, multi, multiKeys, d.chooses, |multiKeys|);
  }

  /** A description fails exactly when a property list is empty or a choose fails;
      otherwise every property segment carries a word of its key's list. */
  lemma DescriptionShape(choose: Chooser, properties: map<string, seq<string>>, multi: MultiLists,
                         propertyKeys: seq<string>, multiKeys: seq<MultiKey>, d: DescriptionDraws)
    requires Chooses(choose) && multi.Sized() && DescriptionDrawsFit(properties, propertyKeys, multiKeys, d)
    ensures var r := DescriptionOf(choose, properties, multi, propertyKeys, multiKeys, d);
      && (r.result.Ok? <==>
            && (forall i :: 0 <= i < |propertyKeys| ==> properties[propertyKeys[i]] != [])
            && MultiValues(choose, multi, multiKeys, d.chooses, |multiKeys|).result.Ok?)
      && (r.result.Ok? ==>
            var values := Words(PropertyLists(properties, propertyKeys), d.propertyPicks).value;
            var multiValues := MultiValues(choose, multi, multiKeys, d.chooses, |multiKeys|).result.value;
            && |values| == |propertyKeys|
            && (forall i :: 0 <= i < |propertyKeys| ==> values[i] in properties[propertyKeys[i]])
            && |multiValues| == |multiKeys|
            && r.result.value ==
                 Join("<br>", Segments(propertyKeys, values)) + "<br>" +
                 Join("<br>", Segments(MultiNames(multiKeys), multiValues)))
  {
    MultiValuesLength(choose, multi, multiKeys, d.chooses, |multiKeys|);
    var lists := PropertyLists(properties, propertyKeys);
    WordsFromLists(lists, d.propertyPicks);
    if [] in lists {
      var i :| 0 <= i < |lists| && lists[i] == [];
      assert properties[propertyKeys[i]] == [];
    }
  }

  // ---------------------------------------------------------------------
  // postSeveral

  /** postDescription's title: the description's digest spelled in phonemes,
      then the pantheon in parentheses. */
  function PostTitle(description: string, pantheon: string, ripemd: string -> seq<Phonetics.Byte>): string {
    Spelling(ripemd(description)) + " (" + pantheon + ")"
  }

  /** The title is hashToPhonems of the description's hexdigest(), a space and the
      pantheon in parentheses. */
  lemma PostTitleSpells(description: string, pantheon: string, ripemd: string -> seq<Phonetics.Byte>)
    ensures HashToPhonems(Phonetics.HexDigest(ripemd(description))).Ok?
    ensures PostTitle(description, pantheon, ripemd) ==
            HashToPhonems(Phonetics.HexDigest(ripemd(description))).value + " (" + pantheon + ")"
  {
    SpellingIsHashToPhonems(ripemd(description));
  }

  /** postDescription's title function for one pantheon. */
  function Titling(pantheon: string, ripemd: string -> seq<Phonetics.Byte>): string -> string {
    description => PostTitle(description, pantheon, ripemd)
  }

  /** A function with genDescription's signature: the description drawn with
      `d` from a state of MULTI_PROPERTIES, and the state it leaves. */
  type Describer = (MultiLists, DescriptionDraws) -> Gen<string>

  /** `describe(m, d)`, evaluated apart from any state of the heap. */
  function DescribeWith(describe: Describer, m: MultiLists, d: DescriptionDraws): Gen<string> {
    describe(m, d)
  }

  /** `describe` only reorders the lists of MULTI_PROPERTIES. */
  ghost predicate Reorders(describe: Describer, draws: seq<DescriptionDraws>) {
    forall m: MultiLists, i {:trigger DescribeWith(describe, m, draws[i])} | 0 <= i < |draws| ::
      Rearranged(m, DescribeWith(describe, m, draws[i]).multi)
  }

  /** genDescription for the given keys. Off the states and draws genDescription
      can meet, the state is left alone and the value is immaterial. */
  function Describing(choose: Chooser, properties: map<string, seq<string>>,
                      propertyKeys: seq<string>, multiKeys: seq<MultiKey>): Describer
    requires Chooses(choose)
  {
    (m: MultiLists, d: DescriptionDraws) =>
      if m.Sized() && DescriptionDrawsFit(properties, propertyKeys, multiKeys, d)
      then DescriptionOf(choose, properties, m, propertyKeys, multiKeys, d)
      else Gen(Err(EmptySequence), m)
  }

  lemma DescribingIsDescription(choose: Chooser, properties: map<string, seq<string>>,
                                propertyKeys: seq<string>, multiKeys: seq<MultiKey>, m: MultiLists, d: DescriptionDraws)
    requires Chooses(choose) && m.Sized() && DescriptionDrawsFit(properties, propertyKeys, multiKeys, d)
    ensures DescribeWith(Describing(choose, properties, propertyKeys, multiKeys), m, d) ==
            DescriptionOf(choose, properties, m, propertyKeys, multiKeys, d)
  {
  }

  /** genDescription only reorders MULTI_PROPERTIES. */
  lemma DescribingReorders(choose: Chooser, properties: map<string, seq<string>>,
                           propertyKeys: seq<string>, multiKeys: seq<MultiKey>, draws: seq<DescriptionDraws>)
    requires Chooses(choose)
    ensures Reorders(Describing(choose, properties, propertyKeys, multiKeys), draws)
  {
    forall m: MultiLists, d: DescriptionDraws
      {:trigger DescribeWith(Describing(choose, properties, propertyKeys, multiKeys), m, d)}
      ensures Rearranged(m, DescribeWith(Describing(choose, properties, propertyKeys, multiKeys), m, d).multi)
    {
      if m.Sized() && DescriptionDrawsFit(properties, propertyKeys, multiKeys, d) {
        DescriptionRearranges(choose, properties, m, propertyKeys, multiKeys, d);
      }
    }
  }

  /** How postSeveral's loop ended: every iteration posted, or one raised. */
  datatype Ending = Completed | Raised(error: Error)

  /** What the first iterations of postSeveral leave behind: the posts already
      published (each iteration posts before the next one starts), how the
      loop ended, and MULTI_PROPERTIES. */
  datatype Posting = Posting(sent: seq<(string, string)>, ending: Ending, multi: MultiLists)

  /** The first `k` iterations of postSeveral's loop. A failing iteration
      publishes nothing and ends the loop; what was published stays published. */
  function PostsOf(describe: Describer, multi: MultiLists, title: string -> string, draws: seq<DescriptionDraws>, k: nat): (r: Posting)
    requires k <= |draws|
  {
    if k == 0 then Posting([], Completed, multi)
    else
      var prev := PostsOf(describe, multi, title, draws, k - 1);
      if prev.ending.Raised? then prev
      else
        var g := DescribeWith(describe, prev.multi, draws[k - 1]);
        if g.result.Err? then Posting(prev.sent, Raised(g.result.error), g.multi)
        else Posting(prev.sent + [(title(g.result.value), g.result.value)], Completed, g.multi)
  }

  /** postDescription from the lists `before`, with the draws `d`: the post
      `post` (its title and description, or the failure), and the lists `after`. */
  ghost predicate Posted(describe: Describer, title: string -> string, before: MultiLists, d: DescriptionDraws,
                         post: Result<(string, string)>, after: MultiLists) {
    var g := DescribeWith(describe, before, d);
    && after == g.multi
    && post == if g.result.Err? then Err(g.result.error) else Ok((title(g.result.value), g.result.value))
  }

  /** After the first `i` iterations of postSeveral's loop, started on `multi`,
      the posts `done` are published and the lists are left as `now`. */
  ghost predicate PostedSoFar(describe: Describer, multi: MultiLists, title: string -> string,
                              draws: seq<DescriptionDraws>, i: nat, done: seq<(string, string)>, now: MultiLists) {
    i <= |draws| && Posting(done, Completed, now) == PostsOf(describe, multi, title, draws, i)
  }

  /** One more iteration of postSeveral's loop after `i` posts: the posts gain
      the next description and its title, or the loop stops at its failure
      with the `i` posts already published. */
  lemma PostsAdvance(describe: Describer, multi: MultiLists, title: string -> string, draws: seq<DescriptionDraws>,
                     i: nat, done: seq<(string, string)>, before: MultiLists, after: MultiLists,
                     post: Result<(string, string)>)
    requires PostedSoFar(describe, multi, title, draws, i, done, before) && i < |draws|
    requires Posted(describe, title, before, draws[i], post, after)
    ensures post.Ok? ==> PostedSoFar(describe, multi, title, draws, i + 1, done + [post.value], after)
    ensures post.Err? ==> Posting(done, Raised(post.error), after) == PostsOf(describe, multi, title, draws, |draws|)
  {
    if post.Err? {
      PostsStop(describe, multi, title, draws, i + 1, |draws|);
    }
  }

  /** A description only reorders the lists of MULTI_PROPERTIES. */
  lemma DescriptionRearranges(choose: Chooser, properties: map<string, seq<string>>, multi: MultiLists,
                              propertyKeys: seq<string>, multiKeys: seq<MultiKey>, d: DescriptionDraws)
    requires Chooses(choose) && multi.Sized() && DescriptionDrawsFit(properties, propertyKeys, multiKeys, d)
    ensures Rearranged(multi, DescriptionOf(choose, properties, multi, propertyKeys, multiKeys, d).multi)
  {
    MultiValuesRearranges(choose, multi, multiKeys, d.chooses, |multiKeys|);
  }

  /** postSeveral only reorders the lists of MULTI_PROPERTIES. */
  lemma {:induction false} PostsRearrange(describe: Describer, multi: MultiLists, title: string -> string,
                                          draws: seq<DescriptionDraws>, k: nat)
    requires k <= |draws| && Reorders(describe, draws)
    ensures Rearranged(multi, PostsOf(describe, multi, title, draws, k).multi)
  {
    if k > 0 {
      PostsRearrange(describe, multi, title, draws, k - 1);
      var prev := PostsOf(describe, multi, title, draws, k - 1);
      if prev.ending.Completed? {
        var next := DescribeWith(describe, prev.multi, draws[k - 1]).multi;
        assert PostsOf(describe, multi, title, draws, k).multi == next;
        assert Rearranged(prev.multi, next);
        RearrangedTransitive(multi, prev.multi, next);
      }
    }
  }

  /** Every published post carries its own body's title; all `k` iterations
      posted when none raised, and fewer than `k` when one did. */
  lemma {:induction false} PostsTitled(describe: Describer, multi: MultiLists, title: string -> string,
                                       draws: seq<DescriptionDraws>, k: nat)
    requires k <= |draws|
    ensures var r := PostsOf(describe, multi, title, draws, k);
      && (r.ending.Completed? ==> |r.sent| == k)
      && (r.ending.Raised? ==> |r.sent| < k)
      && forall i :: 0 <= i < |r.sent| ==> r.sent[i].0 == title(r.sent[i].1)
  {
    if k > 0 {
      PostsTitled(describe, multi, title, draws, k - 1);
    }
  }

  /** Published posts are never taken back: the posts of the first `j`
      iterations begin the posts of the first `k`. */
  lemma {:induction false} PostsKeepSent(describe: Describer, multi: MultiLists, title: string -> string,
                                         draws: seq<DescriptionDraws>, j: nat, k: nat)
    requires j <= k <= |draws|
    ensures PostsOf(describe, multi, title, draws, j).sent <= PostsOf(describe, multi, title, draws, k).sent
    decreases k - j
  {
    if j < k {
      PostsKeepSent(describe, multi, title, draws, j, k - 1);
    }
  }

  /** Once a description fails, postSeveral stops there. */
  lemma {:induction false} PostsStop(describe: Describer, multi: MultiLists, title: string -> string,
                                     draws: seq<DescriptionDraws>, k: nat, n: nat)
    requires k <= n <= |draws|
    requires PostsOf(describe, multi, title, draws, k).ending.Raised?
    ensures PostsOf(describe, multi, title, draws, n) == PostsOf(describe, multi, title, draws, k)
    decreases n - k
  {
    if k < n {
      PostsStop(describe, multi, title, draws, k, n - 1);
    }
  }

  /** Once a choose fails, the comprehension stays at that failure. */
  lemma {:induction false} PrefixFailure(choose: Chooser, multi: MultiLists, keys: seq<MultiKey>,
                                         chooses: seq<ChooseDraws>, k: nat, n: nat)
    requires k <= n <= |keys| && Chooses(choose)
    requires multi.Sized() && MultiDrawsFit(keys, chooses)
    requires MultiValues(choose, multi, keys, chooses, k).result.Err?
    ensures MultiValues(choose, multi, keys, chooses, n) == MultiValues(choose, multi, keys, chooses, k)
    decreases n - k
  {
    if k < n {
      PrefixFailure(choose, multi, keys, chooses, k, n - 1);
    }
  }

  /** After the first `i` choose calls of the comprehension, started on
      `multi`, the values are `values` and the lists are left as `now`. */
  ghost predicate ChoseSoFar(multi: MultiLists, keys: seq<MultiKey>, chooses: seq<ChooseDraws>,
                             i: nat, values: seq<string>, now: MultiLists) {
    && i <= |keys| && multi.Sized() && MultiDrawsFit(keys, chooses)
    && (ChoosingChooses();
        Gen(Ok(values), now) == MultiValues(Choosing, multi, keys, chooses, i))
  }

  /** One more choose after `i` values: the values gain its word, or the
      comprehension stops at its failure. */
  lemma ChooseAdvance(multi: MultiLists, keys: seq<MultiKey>, chooses: seq<ChooseDraws>,
                      i: nat, values: seq<string>, before: MultiLists, after: MultiLists, v: Result<string>)
    requires ChoseSoFar(multi, keys, chooses, i, values, before) && i < |keys|
    requires v == ChooseOf(before.Get(keys[i]), chooses[i])
    requires after == before.Set(keys[i], Shuffled(before.Get(keys[i]), chooses[i].shuffle))
    ensures v.Ok? ==> ChoseSoFar(multi, keys, chooses, i + 1, values + [v.value], after)
    ensures v.Err? ==> Gen(Err(v.error), after) == MultiValues(Choosing, multi, keys, chooses, |keys|)
  {
    ChoosingChooses();
    MultiValuesStep(Choosing, multi, keys, chooses, i);
    ChoosingIsChoose(before.Get(keys[i]), chooses[i]);
    if v.Err? {
      PrefixFailure(Choosing, multi, keys, chooses, i + 1, |keys|);
    }
  }

  // ---------------------------------------------------------------------
  // The main block's keys

  /** The draws for one key list of the main block: the randrange count, the
      positions random.sample takes, and the shuffle of the sampled list. */
  datatype KeyDraws = KeyDraws(count: int, picks: seq<nat>, shuffle: seq<nat>)

  /** The draws suit `random.sample(d, random.randrange(lo, hi))` on a dict of
      `hi` keys, then `random.shuffle` of the sample. */
  predicate KeyDrawsFit(lo: nat, hi: nat, d: KeyDraws) {
    && InRandrange(d.count, lo, hi)
    && IsSample(d.picks, d.count, hi)
    && IsShuffleDraw(d.shuffle, d.count)
  }

  /** `order` is an iteration order of a dict with the keys `keys`. */
  ghost predicate IsOrderOf<T>(order: seq<T>, keys: seq<T>) {
    |order| == |keys| && multiset(order) == multiset(keys)
  }

  /** The key list the main block builds: `random.sample` of the dict, whose
      keys it sees in the iteration order `order`, then shuffled. */
  function SampledKeys<T>(order: seq<T>, d: KeyDraws): (r: seq<T>)
    requires 0 <= d.count <= |order|
    requires IsSample(d.picks, d.count, |order|) && IsShuffleDraw(d.shuffle, d.count)
    ensures |r| == d.count
  {
    var sample := Sample(order, d.count, d.picks).value;
    ShuffleDrawIsPrefix(d.shuffle, |sample|);
    Shuffled(sample, d.shuffle)
  }

  /** The main block takes at least `lo` and at most all but one of the keys
      (randrange excludes its upper end), each a key of the dict, none twice. */
  lemma SampledKeysShape<T>(keys: seq<T>, order: seq<T>, lo: nat, d: KeyDraws)
    requires NoDups(keys) && IsOrderOf(order, keys)
    requires KeyDrawsFit(lo, |keys|, d)
    ensures var r := SampledKeys(order, d);
      && lo <= |r| <= |keys| - 1
      && NoDups(r)
      && forall k :: k in r ==> k in keys
  {
    NoDupsPermutation(keys, order);
    var sample := Sample(order, d.count, d.picks).value;
    SelectNoDups(order, d.picks);
    ShuffleDrawIsPrefix(d.shuffle, |sample|);
    ShuffledPermutes(sample, d.shuffle);
    var r := Shuffled(sample, d.shuffle);
    NoDupsPermutation(sample, r);
    forall k | k in r ensures k in keys {
      assert k in multiset(r);
      var i :| 0 <= i < |sample| && sample[i] == k;
      assert order[d.picks[i]] == k;
      assert k in multiset(order);
    }
  }

  lemma PropertyNamesDistinct()
    ensures NoDups(PropertyNames) && |PropertyNames| == 11
  {
  }

  /** One to ten property keys, each a key of PROPERTIES, none twice. */
  lemma PropertyKeysShape(order: seq<string>, d: KeyDraws)
    requires IsOrderOf(order, PropertyNames)
    requires KeyDrawsFit(MinProperties, MaxProperties, d)
    ensures var r := SampledKeys(order, d);
      && 1 <= |r| <= 10 && NoDups(r) && forall k :: k in r ==> k in PropertyNames
  {
    PropertyNamesDistinct();
    SampledKeysShape(PropertyNames, order, MinProperties, d);
  }

  /** One or two multi-property keys, none twice. */
  lemma MultiKeysShape(order: seq<MultiKey>, d: KeyDraws)
    requires IsOrderOf(order, MultiKeys)
    requires KeyDrawsFit(MinMultiProperties, MaxMultiProperties, d)
    ensures var r := SampledKeys(order, d);
      1 <= |r| <= 2 && NoDups(r)
  {
    SampledKeysShape(MultiKeys, order, MinMultiProperties, d);
  }

  /** `random.sample` of a dict's keys and `random.shuffle` of the new list, in place. */
  method SampleKeys<T>(order: seq<T>, d: KeyDraws) returns (keys: seq<T>)
    requires 0 <= d.count <= |order|
    requires IsSample(d.picks, d.count, |order|) && IsShuffleDraw(d.shuffle, d.count)
    ensures keys == SampledKeys(order, d)
  {
    var sample := Sample(order, d.count, d.picks).value;
    var list := new T[|sample|](i requires 0 <= i < |sample| => sample[i]);
    assert list[..] == sample;
    Shuffle(list, d.shuffle);
    keys := list[..];
  }

  // ---------------------------------------------------------------------
  // The generator's state

  /** The module-level dictionaries: PROPERTIES, read only, and the value
      lists of MULTI_PROPERTIES, which choose shuffles in place. */
  class Generator {
    const properties: map<string, seq<string>>
    const extent: array<seq<string>>
    const presence: array<seq<string>>
    const fields: array<seq<string>>

    /** The three lists are distinct objects, as the three list displays
        make them, of the lengths those displays give them. */
    predicate Valid() {
      && extent != presence && extent != fields && presence != fields
      && extent.Length == 2 && presence.Length == 3 && fields.Length == 3
    }

    /** MULTI_PROPERTIES, with each value list in its current order. */
    function Multi(): (m: MultiLists)
      reads extent, presence, fields
    {
      MultiLists(extent[..], presence[..], fields[..])
    }

    /** The list object MULTI_PROPERTIES[key]. */
    function ListOf(key: MultiKey): (a: array<seq<string>>)
      ensures a in {extent, presence, fields}
    {
      match key
      case Extent => extent
      case Presence => presence
      case Fields => fields
    }

    /** Loading the module: both dictionaries built from the pickled word lists. */
    constructor(words: map<string, seq<string>>)
      requires WordLists.HasKeys(words)
      ensures properties == Properties(words)
      ensures Multi() == MultiProperties(words)
      ensures Valid()
      ensures fresh(extent) && fresh(presence) && fresh(fields)
    {
      properties := Properties(words);
      var e := new seq<string>[2] [words["location"], words["property"]];
      var p := new seq<string>[3] [words["substance"], words["phenomenon"], words["attribute"]];
      var f := new seq<string>[3] [words["quality"], words["psychic"], words["system"]];
      extent, presence, fields := e, p, f;
      new;
    }

    /** choose on MULTI_PROPERTIES[key]: only that list changes. */
    method ChooseFor(key: MultiKey, d: ChooseDraws) returns (r: Result<string>)
      requires Valid()
      requires ChooseDrawsFit(MultiSize(key), d)
      modifies extent, presence, fields
      ensures Multi() == old(Multi()).Set(key, Shuffled(old(Multi()).Get(key), d.shuffle))
      ensures r == ChooseOf(old(Multi()).Get(key), d)
    {
      var list := ListOf(key);
      assert list[..] == Multi().Get(key);
      r := Choose(list, d);
    }

    /** genDescription's `[... choose(MULTI_PROPERTIES[key]) for key in keys]`:
        one choose call after another, stopping at the first that raises. */
    method ChooseAll(keys: seq<MultiKey>, chooses: seq<ChooseDraws>) returns (r: Result<seq<string>>)
      requires Valid() && MultiDrawsFit(keys, chooses)
      modifies extent, presence, fields
      ensures Gen(r, Multi()) == MultiValues(Choosing, old(Multi()), keys, chooses, |keys|)
    {
      ghost var multi0 := Multi();
      ChoosingChooses();
      var values: seq<string> := [];
      for i := 0 to |keys|
        invariant ChoseSoFar(multi0, keys, chooses, i, values, Multi())
      {
        ghost var before := Multi();
        var v := ChooseFor(keys[i], chooses[i]);
        ChooseAdvance(multi0, keys, chooses, i, values, before, Multi(), v);
        if v.Err? {
          r := Err(v.error);
          return;
        }
        values := values + [v.value];
      }
      r := Ok(values);
    }

    /** genDescription: the property segments, a "<br>", then the multi-property segments. */
    method GenDescription(propertyKeys: seq<string>, multiKeys: seq<MultiKey>, d: DescriptionDraws)
      returns (r: Result<string>)
      requires Valid()
      requires DescriptionDrawsFit(properties, propertyKeys, multiKeys, d)
      modifies extent, presence, fields
      ensures Gen(r, Multi()) == DescriptionOf(Choosing, properties, old(Multi()), propertyKeys, multiKeys, d)
    {
      ChoosingChooses();
      ghost var multi0 := Multi();
      DescriptionSteps(Choosing, properties, multi0, propertyKeys, multiKeys, d);
      var description := "";
      var words := Words(PropertyLists(properties, propertyKeys), d.propertyPicks);
      if words.Err? {
        r := Err(words.error);
        return;
      }
      description := description + Join("<br>", Segments(propertyKeys, words.value));
      assert description == Join("<br>", Segments(propertyKeys, words.value));
      description := description + "<br>";
      var multiValues := ChooseAll(multiKeys, d.chooses);
      if multiValues.Err? {
        r := Err(multiValues.error);
        return;
      }
      description := description + Join("<br>", Segments(MultiNames(multiKeys), multiValues.value));
      r := Ok(description);
    }

    /** genDescription for the given keys, as a function of the lists and the draws. */
    ghost function Describe(propertyKeys: seq<string>, multiKeys: seq<MultiKey>): Describer {
      ChoosingChooses();
      Describing(Choosing, properties, propertyKeys, multiKeys)
    }

    /** One iteration of postSeveral's loop: a description and its title. */
    method PostNext(propertyKeys: seq<string>, multiKeys: seq<MultiKey>, pantheon: string,
                    d: DescriptionDraws, ripemd: string -> seq<Phonetics.Byte>)
      returns (post: Result<(string, string)>)
      requires Valid()
      requires DescriptionDrawsFit(properties, propertyKeys, multiKeys, d)
      modifies extent, presence, fields
      ensures Posted(Describe(propertyKeys, multiKeys), Titling(pantheon, ripemd), old(Multi()), d, post, Multi())
    {
      ChoosingChooses();
      DescribingIsDescription(Choosing, properties, propertyKeys, multiKeys, Multi(), d);
      var description := GenDescription(propertyKeys, multiKeys, d);
      if description.Err? {
        post := Err(description.error);
        return;
      }
      post := Ok((PostTitle(description.value, pantheon, ripemd), description.value));
    }

    /** postSeveral: one titled description per entry of `draws`; the number
        of entries is the randrange(MIN_ENTITIES, MAX_ENTITIES) draw. `sent`
        are the posts published, also when an iteration raises `ending`. */
    method PostSeveral(propertyKeys: seq<string>, multiKeys: seq<MultiKey>, pantheon: string,
                       draws: seq<DescriptionDraws>, ripemd: string -> seq<Phonetics.Byte>)
      returns (sent: seq<(string, string)>, ending: Ending)
      requires Valid()
      requires InRandrange(|draws|, MinEntities, MaxEntities)
      requires forall i :: 0 <= i < |draws| ==> DescriptionDrawsFit(properties, propertyKeys, multiKeys, draws[i])
      modifies extent, presence, fields
      ensures Posting(sent, ending, Multi()) ==
              PostsOf(Describe(propertyKeys, multiKeys), old(Multi()), Titling(pantheon, ripemd), draws, |draws|)
    {
      ghost var multi0 := Multi();
      ghost var describe := Describe(propertyKeys, multiKeys);
      ghost var title := Titling(pantheon, ripemd);
      sent := [];
      for i := 0 to |draws|
        invariant PostedSoFar(describe, multi0, title, draws, i, sent, Multi())
      {
        ghost var before := Multi();
        var post := PostNext(propertyKeys, multiKeys, pantheon, draws[i], ripemd);
        PostsAdvance(describe, multi0, title, draws, i, sent, before, Multi(), post);
        if post.Err? {
          ending := Raised(post.error);
          return;
        }
        sent := sent + [post.value];
      }
      ending := Completed;
    }

    /** The main block: names the pantheon after the digest of the current
        time `now` (its isoformat()), draws and shuffles the property and
        multi-property keys, and posts several descriptions. `propertyOrder`
        and `multiOrder` are the dicts' iteration orders. */
    method PostPantheon(now: string, ripemd: string -> seq<Phonetics.Byte>,
                        propertyOrder: seq<string>, multiOrder: seq<MultiKey>,
                        propertyDraws: KeyDraws, multiDraws: KeyDraws, draws: seq<DescriptionDraws>)
      returns (sent: seq<(string, string)>, ending: Ending)
      requires Valid()
      requires IsOrderOf(propertyOrder, PropertyNames) && IsOrderOf(multiOrder, MultiKeys)
      requires KeyDrawsFit(MinProperties, MaxProperties, propertyDraws)
      requires KeyDrawsFit(MinMultiProperties, MaxMultiProperties, multiDraws)
      requires InRandrange(|draws|, MinEntities, MaxEntities)
      requires forall i :: 0 <= i < |draws| ==>
        DescriptionDrawsFit(properties, SampledKeys(propertyOrder, propertyDraws),
                            SampledKeys(multiOrder, multiDraws), draws[i])
      modifies extent, presence, fields
      ensures Posting(sent, ending, Multi()) ==
              PostsOf(Describe(SampledKeys(propertyOrder, propertyDraws), SampledKeys(multiOrder, multiDraws)),
                      old(Multi()), Titling(Spelling(ripemd(now)), ripemd), draws, |draws|)
    {
      var pantheon := Spelling(ripemd(now));
      var propertyKeys := SampleKeys(propertyOrder, propertyDraws);
      var multiKeys := SampleKeys(multiOrder, multiDraws);
      sent, ending := PostSeveral(propertyKeys, multiKeys, pantheon, draws, ripemd);
    }
  }
}
