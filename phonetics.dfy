/** The phoneme codec of phonetics.py: bytes to weighted phoneme symbols,
    hex digests to phoneme strings, and phoneme strings to an ASCII spelling. */
module Phonetics {
  import opened Outcomes
  import opened Text

  type Byte = x: int | 0 <= x < 256

  /** An ordered phoneme table: (symbol, relative frequency in hundredths of a
      percent). The source writes the frequencies as percentages with two
      decimals; scaling by 100 keeps them exact. */
  type Table = seq<(string, nat)>

  /** PHONEMS, in declaration order. */
  const Phonems: Table := [
    ("ə", 1149), ("n", 711), ("r", 694), ("t", 691), ("ɪ", 632),
    ("s", 475), ("d", 421), ("l", 396), ("i", 361), ("k", 318),
    ("ð", 295), ("ɛ", 286), ("m", 276), ("z", 276), ("p", 215),
    ("æ", 210), ("v", 201), ("w", 195), ("u", 193), ("b", 180),
    ("e", 179), ("ʌ", 174), ("f", 171), ("aɪ", 150), ("ɑ", 145),
    ("h", 140), ("o", 125), ("ɒ", 118), ("ŋ", 99), ("ʃ", 97),
    ("y", 81), ("g", 80), ("dʒ", 59), ("tʃ", 56), ("aʊ", 50),
    ("ʊ", 43), ("θ", 41), ("ɔɪ", 10), ("ʒ", 7)]

  /** PHONEM_ASCII. */
  const PhonemAscii: map<string, string> := map[
    "ə" := "uh", "n" := "n", "r" := "r", "t" := "t", "ɪ" := "i",
    "s" := "s", "d" := "d", "l" := "l", "i" := "i", "k" := "k",
    "ð" := "th", "ɛ" := "ay", "m" := "m", "z" := "z", "p" := "p",
    "æ" := "a", "v" := "v", "w" := "w", "u" := "u", "b" := "b",
    "e" := "e", "ʌ" := "u", "f" := "f", "aɪ" := "ii", "ɑ" := "ah",
    "h" := "h", "o" := "o", "ɒ" := "ou", "ŋ" := "ng", "ʃ" := "sh",
    "y" := "y", "g" := "g", "dʒ" := "j", "tʃ" := "ch", "aʊ" := "ow",
    "ʊ" := "oo", "θ" := "th", "ɔɪ" := "oy", "ʒ" := "z"]

  // ---------------------------------------------------------------------------
  // numToPhonem

  /** The sum of the first n weights. */
  function Cumulative(t: Table, n: nat): nat
    requires n <= |t|
  {
    if n == 0 then 0 else Cumulative(t, n - 1) + t[n - 1].1
  }

  /** After adding entry k, the running total reaches the target of byte `num`:
      total / 100 >= num * 100 / 255, stated without division. */
  predicate Reaches(t: Table, k: nat, num: int)
    requires k < |t|
  {
    255 * Cumulative(t, k + 1) >= 10000 * num
  }

  /** The first entry at or after i whose running total reaches the target, or |t|. */
  function FirstReachingFrom(t: Table, num: int, i: nat): (k: nat)
    requires i <= |t|
    ensures i <= k <= |t|
    ensures forall j :: i <= j < k ==> !Reaches(t, j, num)
    ensures k < |t| ==> Reaches(t, k, num)
    decreases |t| - i
  {
    if i == |t| then |t|
    else if Reaches(t, i, num) then i
    else FirstReachingFrom(t, num, i + 1)
  }

  /** The index at which numToPhonem's scan stops, or |t| when it runs off the end. */
  function FirstReaching(t: Table, num: int): (k: nat)
    ensures k <= |t|
    ensures forall j :: 0 <= j < k ==> !Reaches(t, j, num)
    ensures k < |t| ==> Reaches(t, k, num)
  {
    FirstReachingFrom(t, num, 0)
  }

  /** numToPhonem's result over a table: the symbol where the scan stops, or ''. */
  function PhonemFor(t: Table, num: int): string {
    var k := FirstReaching(t, num);
    if k < |t| then t[k].0 else ""
  }

  /** numToPhonem: a running total over the table with an early exit. The
      table is a parameter: phonetics.py and autoloa.py each scan their own copy. */
  method NumToPhonem(t: Table, num: Byte) returns (result: string)
    ensures result == PhonemFor(t, num)
  {
    result := "";
    var total := 0;
    var i := 0;
    while i < |t|
      invariant 0 <= i <= |t|
      invariant total == Cumulative(t, i)
      invariant forall j :: 0 <= j < i ==> !Reaches(t, j, num)
    {
      total := total + t[i].1;
      if 255 * total >= 10000 * num {
        result := t[i].0;
        assert Reaches(t, i, num);
        return;
      }
      i := i + 1;
    }
  }

  lemma {:induction false} CumulativeMonotone(t: Table, m: nat, n: nat)
    requires m <= n <= |t|
    ensures Cumulative(t, m) <= Cumulative(t, n)
    decreases n - m
  {
    if m < n {
      CumulativeMonotone(t, m, n - 1);
    }
  }

  /** A larger byte never stops the scan at an earlier entry. */
  lemma FirstReachingMonotone(t: Table, lo: int, hi: int)
    requires lo <= hi
    ensures FirstReaching(t, lo) <= FirstReaching(t, hi)
  {
    var k := FirstReaching(t, hi);
    if k < |t| {
      assert Reaches(t, k, lo);
    }
  }

  /** The scan stops at entry k exactly when the target lies above the total
      before k and at or below the total after it. */
  lemma StopsAt(t: Table, num: int, k: nat)
    requires k < |t|
    ensures FirstReaching(t, num) == k <==>
              (k == 0 || 255 * Cumulative(t, k) < 10000 * num) && Reaches(t, k, num)
  {
    if (k == 0 || 255 * Cumulative(t, k) < 10000 * num) && Reaches(t, k, num) {
      forall j | 0 <= j < k ensures !Reaches(t, j, num) {
        CumulativeMonotone(t, j + 1, k);
      }
    }
    if FirstReaching(t, num) == k && k > 0 {
      assert !Reaches(t, k - 1, num);
    }
  }

  /** The running totals of PHONEMS, entry by entry. */
  const CumulativeTotals: seq<nat> := [
    0, 1149, 1860, 2554, 3245, 3877, 4352, 4773, 5169, 5530, 5848,
    6143, 6429, 6705, 6981, 7196, 7406, 7607, 7802, 7995, 8175,
    8354, 8528, 8699, 8849, 8994, 9134, 9259, 9377, 9476, 9573,
    9654, 9734, 9793, 9849, 9899, 9942, 9983, 9993, 10000]

  lemma {:induction false} CumulativeTotalsAgree(n: nat)
    requires n <= |Phonems|
    ensures Cumulative(Phonems, n) == CumulativeTotals[n]
  {
    if n > 0 {
      CumulativeTotalsAgree(n - 1);
    }
  }

  /** The weights add up to exactly 100.00 percent. */
  lemma WeightsSumToOneHundred()
    ensures Cumulative(Phonems, |Phonems|) == 10000
  {
    CumulativeTotalsAgree(39);
  }

  /** Under exact arithmetic every byte gets a (non-empty) symbol of the table. */
  lemma EveryByteHasPhonem(b: Byte)
    ensures FirstReaching(Phonems, b) < |Phonems|
    ensures PhonemFor(Phonems, b) == Phonems[FirstReaching(Phonems, b)].0
    ensures PhonemFor(Phonems, b) != ""
  {
    WeightsSumToOneHundred();
    SymbolLengths();
    assert Reaches(Phonems, 38, b);
  }

  /** Byte 0 gives the first symbol and byte 255 the last. */
  lemma ByteZeroAndByteMax()
    ensures PhonemFor(Phonems, 0) == "ə"
    ensures PhonemFor(Phonems, 255) == "ʒ"
  {
    CumulativeTotalsAgree(0);
    CumulativeTotalsAgree(1);
    StopsAt(Phonems, 0, 0);
    CumulativeTotalsAgree(38);
    CumulativeTotalsAgree(39);
    StopsAt(Phonems, 255, 38);
  }

  lemma TotalsNotMultiplesOf2000()
    ensures forall j :: 1 <= j < 39 ==> CumulativeTotals[j] % 2000 != 0
  {
  }

  /** 51 * 1451 == 37 * 2000 + 1, so 51 * c == 2000 * b forces 2000 to divide c. */
  lemma TieNeedsMultipleOf2000(c: int, b: int)
    ensures 255 * c == 10000 * b ==> c % 2000 == 0
  {
    if 255 * c == 10000 * b {
      assert c == 2000 * (1451 * b - 37 * c);
    }
  }

  /** The only byte that lands exactly on a running total is 255, on the last
      entry; so it is the only byte where rounding of floating-point weights
      could make the scan run off the end. */
  lemma OnlyExactTieIsByteMax(b: Byte, k: nat)
    requires k < |Phonems|
    ensures 255 * Cumulative(Phonems, k + 1) == 10000 * b <==> b == 255 && k == 38
  {
    CumulativeTotalsAgree(k + 1);
    var c := CumulativeTotals[k + 1];
    if k < 38 {
      TotalsNotMultiplesOf2000();
      TieNeedsMultipleOf2000(c, b);
    }
  }

  // ---------------------------------------------------------------------------
  // hashToPhonems

  /** A hex digit's value, or -1 for any other character. */
  function HexValue(c: char): int {
    if '0' <= c <= '9' then c as int - '0' as int
    else if 'a' <= c <= 'f' then c as int - 'a' as int + 10
    else if 'A' <= c <= 'F' then c as int - 'A' as int + 10
    else -1
  }

  predicate IsHexDigit(c: char) {
    HexValue(c) >= 0
  }

  /** Python 2.7's bytearray.fromhex: spaces before a pair are skipped, and an
      odd trailing digit or a non-hex character raises ValueError. */
  function FromHex(s: string): Result<seq<Byte>>
    decreases |s|
  {
    if |s| == 0 then Ok([])
    else if s[0] == ' ' then FromHex(s[1..])
    else if |s| < 2 || !IsHexDigit(s[0]) || !IsHexDigit(s[1]) then Err(NonHexadecimal)
    else match FromHex(s[2..])
      case Ok(rest) => Ok([16 * HexValue(s[0]) + HexValue(s[1])] + rest)
      case Err(e) => Err(e)
  }

  /** On text without spaces fromhex accepts exactly the even-length strings of
      hex digits, two digits per byte. */
  lemma {:induction false} FromHexAccepts(s: string)
    requires ' ' !in s
    ensures FromHex(s).Ok? <==> |s| % 2 == 0 && forall i :: 0 <= i < |s| ==> IsHexDigit(s[i])
    ensures FromHex(s).Ok? ==> |FromHex(s).value| * 2 == |s|
    decreases |s|
  {
    if |s| >= 2 {
      FromHexAccepts(s[2..]);
      if IsHexDigit(s[0]) && IsHexDigit(s[1]) {
        assert forall i :: 2 <= i < |s| ==> s[i] == s[2..][i - 2];
      }
    }
  }

  /** Decoding a well-formed prefix and then the rest is decoding the whole. */
  lemma {:induction false} FromHexAppend(x: string, y: string)
    requires FromHex(x).Ok?
    ensures FromHex(x + y) == match FromHex(y)
                              case Ok(b) => Ok(FromHex(x).value + b)
                              case Err(e) => Err(e)
    decreases |x|
  {
    if |x| == 0 {
      assert x + y == y;
      assert FromHex(x).value == [];
      if FromHex(y).Ok? {
        assert FromHex(x).value + FromHex(y).value == FromHex(y).value;
      }
    } else if x[0] == ' ' {
      assert (x + y)[1..] == x[1..] + y;
      FromHexAppend(x[1..], y);
    } else {
      assert |x| >= 2 && IsHexDigit(x[0]) && IsHexDigit(x[1]);
      assert (x + y)[0] == x[0] && (x + y)[1] == x[1];
      assert (x + y)[2..] == x[2..] + y;
      FromHexAppend(x[2..], y);
      var v := 16 * HexValue(x[0]) + HexValue(x[1]);
      assert FromHex(x).value == [v] + FromHex(x[2..]).value;
      assert FromHex(x + y) == match FromHex(x[2..] + y)
                               case Ok(rest) => Ok([v] + rest)
                               case Err(e) => Err(e);
      if FromHex(y).Ok? {
        assert [v] + (FromHex(x[2..]).value + FromHex(y).value) == FromHex(x).value + FromHex(y).value;
      }
    }
  }

  /** The lower-case hex digit for a value below 16, as hexdigest() writes it. */
  function HexChar(v: int): (c: char)
    requires 0 <= v < 16
    ensures HexValue(c) == v && c != ' '
  {
    if v < 10 then ('0' as int + v) as char else ('a' as int + v - 10) as char
  }

  /** hashlib's hexdigest(): two lower-case hex digits per byte. */
  function HexDigest(bytes: seq<Byte>): (s: string)
    ensures |s| == 2 * |bytes|
  {
    if bytes == [] then ""
    else [HexChar(bytes[0] / 16), HexChar(bytes[0] % 16)] + HexDigest(bytes[1..])
  }

  /** fromhex decodes what hexdigest encodes. */
  lemma {:induction false} FromHexDigest(bytes: seq<Byte>)
    ensures FromHex(HexDigest(bytes)) == Ok(bytes)
  {
    if bytes != [] {
      var s := HexDigest(bytes);
      FromHexDigest(bytes[1..]);
      assert s[2..] == HexDigest(bytes[1..]);
      assert [bytes[0]] + bytes[1..] == bytes;
    }
  }

  /** The symbols numToPhonem gives each byte, in byte order. */
  function SymbolsOf(t: Table, bytes: seq<Byte>): (r: seq<string>)
    ensures |r| == |bytes|
  {
    seq(|bytes|, i requires 0 <= i < |bytes| => PhonemFor(t, bytes[i]))
  }

  lemma SymbolsOfAppend(t: Table, a: seq<Byte>, b: seq<Byte>)
    ensures SymbolsOf(t, a + b) == SymbolsOf(t, a) + SymbolsOf(t, b)
  {
  }

  /** hashToPhonems: decode the hex, map every byte, and join. */
  function HashToPhonems(source: string): Result<string> {
    match FromHex(source)
    case Ok(bytes) => Ok(Flatten(SymbolsOf(Phonems, bytes)))
    case Err(e) => Err(e)
  }

  /** The symbol column of PHONEMS. */
  function Symbols(t: Table): (r: seq<string>)
    ensures |r| == |t|
  {
    seq(|t|, i requires 0 <= i < |t| => t[i].0)
  }

  /** Every symbol of PHONEMS is one or two code points long. */
  lemma SymbolLengths()
    ensures forall i :: 0 <= i < |Phonems| ==> 1 <= |Phonems[i].0| <= 2
  {
  }

  lemma {:induction false} FlattenLength(ws: seq<string>)
    requires forall i :: 0 <= i < |ws| ==> 1 <= |ws[i]| <= 2
    ensures |ws| <= |Flatten(ws)| <= 2 * |ws|
  {
    if ws != [] {
      FlattenLength(ws[..|ws| - 1]);
    }
  }

  /** hashToPhonems succeeds exactly when fromhex does, and then emits one
      table symbol per byte, in byte order: between n and 2n code points for
      n bytes. */
  lemma HashToPhonemsShape(source: string)
    ensures HashToPhonems(source).Ok? <==> FromHex(source).Ok?
    ensures HashToPhonems(source).Ok? ==>
      var bytes := FromHex(source).value;
      var syms := SymbolsOf(Phonems, bytes);
      && HashToPhonems(source).value == Flatten(syms)
      && (forall i :: 0 <= i < |syms| ==>
            FirstReaching(Phonems, bytes[i]) < |Phonems| &&
            syms[i] == Phonems[FirstReaching(Phonems, bytes[i])].0)
      && |bytes| <= |HashToPhonems(source).value| <= 2 * |bytes|
  {
    if FromHex(source).Ok? {
      var bytes := FromHex(source).value;
      var syms := SymbolsOf(Phonems, bytes);
      SymbolLengths();
      forall i | 0 <= i < |syms|
        ensures FirstReaching(Phonems, bytes[i]) < |Phonems|
        ensures syms[i] == Phonems[FirstReaching(Phonems, bytes[i])].0
        ensures 1 <= |syms[i]| <= 2
      {
        EveryByteHasPhonem(bytes[i]);
      }
      FlattenLength(syms);
    }
  }

  /** hashToPhonems(x + y) is hashToPhonems(x) + hashToPhonems(y) for well-formed x and y. */
  lemma HashToPhonemsConcat(x: string, y: string)
    requires HashToPhonems(x).Ok? && HashToPhonems(y).Ok?
    ensures HashToPhonems(x + y) == Ok(HashToPhonems(x).value + HashToPhonems(y).value)
  {
    FromHexAppend(x, y);
    var bx, bys := FromHex(x).value, FromHex(y).value;
    SymbolsOfAppend(Phonems, bx, bys);
    FlattenAppend(SymbolsOf(Phonems, bx), SymbolsOf(Phonems, bys));
  }

  /** Byte b is spelled with entry k exactly when its target lies between the
      running totals before and after k. */
  lemma SymbolOfByte(b: Byte, k: nat)
    requires k < |Phonems|
    ensures FirstReaching(Phonems, b) == k <==>
              (k == 0 || 255 * CumulativeTotals[k] < 10000 * b) && 10000 * b <= 255 * CumulativeTotals[k + 1]
  {
    CumulativeTotalsAgree(k);
    CumulativeTotalsAgree(k + 1);
    StopsAt(Phonems, b, k);
  }

  /** A byte whose target lies between the running totals around entry k is spelled with entry k. */
  lemma SpellAt(b: Byte, k: nat)
    requires k < |Phonems|
    requires (k == 0 || 255 * CumulativeTotals[k] < 10000 * b) && 10000 * b <= 255 * CumulativeTotals[k + 1]
    ensures PhonemFor(Phonems, b) == Phonems[k].0
  {
    SymbolOfByte(b, k);
  }

  lemma FromHexSamples()
    ensures FromHex("50") == Ok([80])
    ensures FromHex("f2") == Ok([242])
    ensures FromHex("fa") == Ok([250])
  {
    assert "50"[2..] == "" && "f2"[2..] == "" && "fa"[2..] == "";
    var none: seq<Byte> := [];
    assert [80 as Byte] + none == [80] && [242 as Byte] + none == [242] && [250 as Byte] + none == [250];
  }

  /** A digest of one byte is spelled with that byte's phonem. */
  lemma SpellSingle(hex: string, b: Byte, sym: string)
    requires FromHex(hex) == Ok([b]) && PhonemFor(Phonems, b) == sym
    ensures HashToPhonems(hex) == Ok(sym)
  {
    assert SymbolsOf(Phonems, [b]) == [sym];
    assert Flatten([sym]) == sym;
  }

  lemma SpellByte80()
    ensures PhonemFor(Phonems, 80) == "t"
  {
    SpellAt(80, 3);
  }

  lemma SpellByte242()
    ensures PhonemFor(Phonems, 242) == "ʃ"
  {
    SpellAt(242, 29);
  }

  lemma SpellByte250()
    ensures PhonemFor(Phonems, 250) == "tʃ"
  {
    SpellAt(250, 33);
  }

  lemma SpellTwoBytes()
    ensures HashToPhonems("50f2") == Ok("tʃ")
  {
    FromHexSamples();
    SpellByte80();
    SpellByte242();
    SpellSingle("50", 80, "t");
    SpellSingle("f2", 242, "ʃ");
    HashToPhonemsConcat("50", "f2");
    assert "50" + "f2" == "50f2" && "t" + "ʃ" == "tʃ";
  }

  lemma SpellOneByte()
    ensures HashToPhonems("fa") == Ok("tʃ")
  {
    FromHexSamples();
    SpellByte250();
    SpellSingle("fa", 250, "tʃ");
  }

  /** Different digests can give the same name: "50f2" is "t" then "ʃ", and "fa" is "tʃ". */
  lemma HashToPhonemsNotInjective()
    ensures HashToPhonems("50f2") == HashToPhonems("fa") == Ok("tʃ")
  {
    SpellTwoBytes();
    SpellOneByte();
  }

  // ---------------------------------------------------------------------------
  // phonemsToASCII

  /** An iteration order of a dict's keys: every key exactly once. Python 2's
      dict order depends on hashing and table layout, so it is a parameter. */
  predicate IsKeyOrder(m: map<string, string>, order: seq<string>) {
    && (forall i :: 0 <= i < |order| ==> order[i] in m)
    && (forall k :: k in m ==> k in order)
    && NoDups(order)
  }

  /** Keys that a `re.sub` can use: present in the table and not empty. */
  predicate ArePatterns(m: map<string, string>, done: seq<string>) {
    forall i :: 0 <= i < |done| ==> done[i] in m && |done[i]| > 0
  }

  /** The string after substituting the keys of `done`, one key at a time, in order. */
  function Substituted(m: map<string, string>, s: string, done: seq<string>): string
    requires ArePatterns(m, done)
  {
    if done == [] then s
    else
      var key := done[|done| - 1];
      ReplaceAll(Substituted(m, s, done[..|done| - 1]), key, m[key])
  }

  lemma KeyOrderPatterns(order: seq<string>)
    requires IsKeyOrder(PhonemAscii, order)
    ensures ArePatterns(PhonemAscii, order)
  {
    KeysNonEmpty();
  }

  /** Every prefix of a key order of a table without empty keys can be substituted. */
  lemma OrderPrefixPatterns(m: map<string, string>, order: seq<string>, n: nat)
    requires KeysNonEmptyIn(m) && IsKeyOrder(m, order) && n <= |order|
    ensures ArePatterns(m, order[..n])
  {
  }

  /** phonemsToASCII: for each key in dict order, `re.sub` every occurrence. */
  method PhonemsToAscii(s: string, order: seq<string>) returns (r: string)
    requires IsKeyOrder(PhonemAscii, order)
    ensures ArePatterns(PhonemAscii, order)
    ensures r == Substituted(PhonemAscii, s, order)
  {
    KeyOrderPatterns(order);
    r := s;
    for i := 0 to |order|
      invariant r == Substituted(PhonemAscii, s, order[..i])
    {
      var key := order[i];
      assert key in PhonemAscii;
      r := ReplaceAll(r, key, PhonemAscii[key]);
      assert order[..i + 1][..i] == order[..i];
    }
    assert order[..|order|] == order;
  }

  /** `x` comes before `y` in the order. */
  predicate Before(order: seq<string>, x: string, y: string) {
    exists i, j :: 0 <= i < j < |order| && order[i] == x && order[j] == y
  }

  /** A sequence of keys of the table, whose concatenation hashToPhonems-style input is. */
  predicate AllKeys(m: map<string, string>, ws: seq<string>) {
    forall i :: 0 <= i < |ws| ==> ws[i] in m
  }

  predicate KeysNonEmptyIn(m: map<string, string>) {
    forall k :: k in m ==> |k| > 0
  }

  predicate ReplacementsAscii(m: map<string, string>) {
    forall k :: k in m ==> IsAscii(m[k])
  }

  /** "ɔ" occurs in no key but "ɔɪ". */
  predicate OpenOOnlyInDiphthong(m: map<string, string>) {
    forall k :: k in m && k != "ɔɪ" ==> 'ɔ' !in k
  }

  /** No key but `c` itself starts with `c`. */
  predicate OnlyKeyStartingWith(m: map<string, string>, c: char) {
    forall k :: k in m && k != [c] ==> |k| > 0 && k[0] != c
  }

  /** Within every key, "ɔ" is followed by "ɪ". */
  predicate KeysGuarded(m: map<string, string>) {
    forall k :: k in m ==> Guarded(k, 'ɔ', 'ɪ')
  }

  /** Every non-ASCII character of a key other than "ɔ" is itself a key. */
  predicate CharsAreKeys(m: map<string, string>) {
    forall k, p :: k in m && 0 <= p < |k| ==> IsAsciiChar(k[p]) || k[p] == 'ɔ' || [k[p]] in m
  }

  /** What the order theorem needs of an ASCII table: non-empty keys and ASCII
      replacements; "ɔ" occurs only in "ɔɪ" and is always followed by "ɪ"; no
      key other than "ɪ" starts with "ɪ", none other than "i" starts with "i";
      every other non-ASCII character of a key is itself a key; and "ɪ"
      (and "i", when present) is replaced by "i". */
  predicate SubstitutionTable(m: map<string, string>) {
    && "ɔɪ" in m && "ɪ" in m && m["ɪ"] == "i"
    && ("i" in m ==> m["i"] == "i")
    && KeysNonEmptyIn(m)
    && ReplacementsAscii(m)
    && OpenOOnlyInDiphthong(m)
    && OnlyKeyStartingWith(m, 'ɪ')
    && OnlyKeyStartingWith(m, 'i')
    && KeysGuarded(m)
    && CharsAreKeys(m)
  }

  lemma KeysNonEmpty()
    ensures KeysNonEmptyIn(PhonemAscii)
  {
  }

  lemma AsciiReplacements()
    ensures ReplacementsAscii(PhonemAscii)
  {
  }

  lemma AsciiKeysWithoutO()
    ensures OpenOOnlyInDiphthong(PhonemAscii)
  {
  }

  lemma AsciiKeyHeadSmallCapitalI()
    ensures OnlyKeyStartingWith(PhonemAscii, 'ɪ')
  {
  }

  lemma AsciiKeyHeadI()
    ensures OnlyKeyStartingWith(PhonemAscii, 'i')
  {
  }

  lemma AsciiKeysGuarded()
    ensures KeysGuarded(PhonemAscii)
  {
  }

  lemma AsciiKeyChars()
    ensures CharsAreKeys(PhonemAscii)
  {
  }

  lemma AsciiVowelEntries()
    ensures "ɔɪ" in PhonemAscii && "ɪ" in PhonemAscii && PhonemAscii["ɪ"] == "i"
    ensures "i" in PhonemAscii ==> PhonemAscii["i"] == "i"
  {
  }

  /** PHONEM_ASCII has the shape the order theorem needs. */
  lemma PhonemAsciiIsSubstitutionTable()
    ensures SubstitutionTable(PhonemAscii)
  {
    AsciiVowelEntries();
    KeysNonEmpty();
    AsciiReplacements();
    AsciiKeysWithoutO();
    AsciiKeyHeadSmallCapitalI();
    AsciiKeyHeadI();
    AsciiKeysGuarded();
    AsciiKeyChars();
  }

  lemma KeysAreSymbols()
    ensures forall k :: k in PhonemAscii ==> k in Symbols(Phonems)
  {
    assert Symbols(Phonems) == [
      "ə", "n", "r", "t", "ɪ", "s", "d", "l", "i", "k", "ð", "ɛ", "m",
      "z", "p", "æ", "v", "w", "u", "b", "e", "ʌ", "f", "aɪ", "ɑ", "h",
      "o", "ɒ", "ŋ", "ʃ", "y", "g", "dʒ", "tʃ", "aʊ", "ʊ", "θ", "ɔɪ", "ʒ"];
  }

  lemma SymbolsAreKeys()
    ensures forall j :: 0 <= j < |Phonems| ==> Phonems[j].0 in PhonemAscii
  {
  }

  /** The keys of PHONEM_ASCII are exactly the symbols of PHONEMS, and every
      ASCII key is replaced by itself. */
  lemma AsciiTableShape()
    ensures PhonemAscii.Keys == set j | 0 <= j < |Phonems| :: Phonems[j].0
    ensures forall k :: k in PhonemAscii && IsAscii(k) ==> PhonemAscii[k] == k
  {
    AsciiKeysAreSymbols();
    AsciiKeysKept();
  }

  lemma AsciiKeysAreSymbols()
    ensures PhonemAscii.Keys == set j | 0 <= j < |Phonems| :: Phonems[j].0
  {
    KeysAreSymbols();
    SymbolsAreKeys();
    forall k | k in PhonemAscii ensures k in set j | 0 <= j < |Phonems| :: Phonems[j].0 {
      var j :| 0 <= j < |Phonems| && Symbols(Phonems)[j] == k;
    }
  }

  lemma AsciiKeysKept()
    ensures forall k :: k in PhonemAscii && IsAscii(k) ==> PhonemAscii[k] == k
  {
    KeysNonEmpty();
    forall k | k in PhonemAscii && IsAscii(k) ensures PhonemAscii[k] == k {
      assert IsAsciiChar(k[0]) && IsAsciiChar(k[|k| - 1]);
    }
  }

  /** What holds after substituting the keys in `done`, when "ɔɪ" comes before "ɪ":
      every non-ASCII character left is "ɔ" or a one-character key not yet
      substituted, and every "ɔ" is still followed by "ɪ" until "ɔɪ" is
      substituted, after which none is left. */
  ghost predicate SafeState(m: map<string, string>, st: string, done: seq<string>) {
    && (forall p :: 0 <= p < |st| ==>
          IsAsciiChar(st[p]) || st[p] == 'ɔ' || ([st[p]] in m && [st[p]] !in done))
    && (if "ɔɪ" in done then 'ɔ' !in st else Guarded(st, 'ɔ', 'ɪ'))
  }

  lemma NoCharInAscii(s: string, c: char)
    requires IsAscii(s) && !IsAsciiChar(c)
    ensures c !in s
  {
  }

  lemma SafeStep(m: map<string, string>, st: string, done: seq<string>, key: string)
    requires SubstitutionTable(m)
    requires SafeState(m, st, done)
    requires key in m && key !in done
    requires key == "ɪ" ==> "ɔɪ" in done
    ensures SafeState(m, ReplaceAll(st, key, m[key]), done + [key])
  {
    var rep := m[key];
    var st' := ReplaceAll(st, key, rep);
    forall p | 0 <= p < |st'|
      ensures IsAsciiChar(st'[p]) || st'[p] == 'ɔ' || ([st'[p]] in m && [st'[p]] !in done + [key])
    {
      var c := st'[p];
      if !IsAsciiChar(c) && c != 'ɔ' {
        ReplaceAllChars(st, key, rep, c);
        NoCharInAscii(rep, c);
        var q :| 0 <= q < |st| && st[q] == c;
        assert [c] in m && [c] !in done;
        if key == [c] {
          ReplaceAllRemoves(st, c, rep);
        }
      }
    }
    NoCharInAscii(rep, 'ɔ');
    if key == "ɔɪ" {
      assert key == ['ɔ', 'ɪ'];
      ReplaceAllRemovesPair(st, 'ɔ', 'ɪ', rep);
    } else if "ɔɪ" in done {
      if 'ɔ' in st' {
        ReplaceAllChars(st, key, rep, 'ɔ');
      }
    } else {
      ReplaceAllKeepsGuard(st, key, rep, 'ɔ', 'ɪ');
    }
  }

  lemma SafeStart(m: map<string, string>, ws: seq<string>)
    requires SubstitutionTable(m) && AllKeys(m, ws)
    ensures SafeState(m, Flatten(ws), [])
  {
    var s := Flatten(ws);
    forall p | 0 <= p < |s|
      ensures IsAsciiChar(s[p]) || s[p] == 'ɔ' || [s[p]] in m
    {
      FlattenMember(ws, s[p]);
      var i :| 0 <= i < |ws| && s[p] in ws[i];
      var q :| 0 <= q < |ws[i]| && ws[i][q] == s[p];
    }
    GuardedFlatten(ws, 'ɔ', 'ɪ');
  }

  lemma {:induction false} SafePrefix(m: map<string, string>, ws: seq<string>, order: seq<string>,
                                      n: nat, io: nat, ii: nat)
    requires SubstitutionTable(m) && AllKeys(m, ws) && IsKeyOrder(m, order)
    requires io < ii < |order| && order[io] == "ɔɪ" && order[ii] == "ɪ"
    requires n <= |order|
    ensures ArePatterns(m, order[..n])
    ensures SafeState(m, Substituted(m, Flatten(ws), order[..n]), order[..n])
  {
    OrderPrefixPatterns(m, order, n);
    if n == 0 {
      SafeStart(m, ws);
    } else {
      SafePrefix(m, ws, order, n - 1, io, ii);
      LastNotInPrefix(order, n);
      DiphthongDoneFirst(order, n, io, ii);
      SafeAdvance(m, Flatten(ws), order, n);
    }
  }

  /** One more key of the order keeps the state safe. */
  lemma SafeAdvance(m: map<string, string>, s: string, order: seq<string>, n: nat)
    requires SubstitutionTable(m)
    requires 0 < n <= |order| && ArePatterns(m, order[..n])
    requires SafeState(m, Substituted(m, s, order[..n - 1]), order[..n - 1])
    requires order[n - 1] !in order[..n - 1]
    requires order[n - 1] == "ɪ" ==> "ɔɪ" in order[..n - 1]
    ensures SafeState(m, Substituted(m, s, order[..n]), order[..n])
  {
    SubstitutedStep(m, s, order, n);
    assert order[..n] == order[..n - 1] + [order[n - 1]];
    SafeStep(m, Substituted(m, s, order[..n - 1]), order[..n - 1], order[n - 1]);
  }

  /** When "ɔɪ" comes before "ɪ", "ɪ" is reached only after "ɔɪ". */
  lemma DiphthongDoneFirst(order: seq<string>, n: nat, io: nat, ii: nat)
    requires NoDups(order)
    requires io < ii < |order| && order[io] == "ɔɪ" && order[ii] == "ɪ"
    requires 0 < n <= |order|
    ensures order[n - 1] == "ɪ" ==> "ɔɪ" in order[..n - 1]
  {
    if order[n - 1] == "ɪ" {
      assert n - 1 == ii by {
        assert order[n - 1] == order[ii];
      }
      assert order[..n - 1][io] == "ɔɪ";
    }
  }

  /** Keys other than "ɪ" and "ɔɪ" leave "ɔɪ" alone. */
  lemma DiphthongUntouched(m: map<string, string>, key: string)
    requires SubstitutionTable(m) && key in m && key != "ɪ" && key != "ɔɪ"
    ensures ReplaceAll("ɔɪ", key, m[key]) == "ɔɪ"
  {
    assert key[0] in key && key[0] != 'ɪ';
    ReplaceAllAbsent("ɔɪ", key, m[key]);
  }

  /** Substituting "ɪ" first turns "ɔɪ" into "ɔi". */
  lemma DiphthongBroken(m: map<string, string>)
    requires SubstitutionTable(m)
    ensures ReplaceAll("ɔɪ", "ɪ", m["ɪ"]) == "ɔi"
  {
    assert !("ɪ" <= "ɔɪ") && "ɔɪ"[1..] == "ɪ";
    assert "ɪ" <= "ɪ" && "ɪ"[1..] == "";
  }

  /** Once broken, "ɔi" is left alone by every key but "ɪ". */
  lemma BrokenStays(m: map<string, string>, key: string)
    requires SubstitutionTable(m) && key in m && key != "ɪ"
    ensures ReplaceAll("ɔi", key, m[key]) == "ɔi"
  {
    if key == "i" {
      ReplaceAllSelf("ɔi", key);
    } else if key == "ɔɪ" {
      assert !("ɔɪ" <= "ɔi") && "ɔi"[1..] == "i";
      assert !("ɔɪ" <= "i") && "i"[1..] == "";
    } else {
      assert key[0] in key && key[0] != 'i';
      ReplaceAllAbsent("ɔi", key, m[key]);
    }
  }

  /** Before "ɪ" is substituted "ɔɪ" is left alone; afterwards it is "ɔi" for good. */
  lemma UnsafePrefix(m: map<string, string>, order: seq<string>, n: nat, ii: nat, io: nat)
    requires SubstitutionTable(m) && IsKeyOrder(m, order)
    requires ii < io < |order| && order[io] == "ɔɪ" && order[ii] == "ɪ"
    requires n <= |order|
    ensures ArePatterns(m, order[..n])
    ensures Substituted(m, "ɔɪ", order[..n]) == if ii < n then "ɔi" else "ɔɪ"
  {
    if ii < n {
      BrokenAfter(m, order, n, ii, io);
    } else {
      UntouchedBefore(m, order, n, ii, io);
    }
  }

  /** Substituting one more key of the order substitutes it in the string so far. */
  lemma SubstitutedStep(m: map<string, string>, s: string, order: seq<string>, n: nat)
    requires 0 < n <= |order| && ArePatterns(m, order[..n])
    ensures ArePatterns(m, order[..n - 1])
    ensures Substituted(m, s, order[..n]) == ReplaceAll(Substituted(m, s, order[..n - 1]), order[n - 1], m[order[n - 1]])
  {
    assert order[..n][..n - 1] == order[..n - 1];
  }

  /** Up to "ɪ", every key leaves "ɔɪ" alone. */
  lemma {:induction false} UntouchedBefore(m: map<string, string>, order: seq<string>, n: nat, ii: nat, io: nat)
    requires SubstitutionTable(m) && IsKeyOrder(m, order)
    requires ii < io < |order| && order[io] == "ɔɪ" && order[ii] == "ɪ"
    requires n <= ii
    ensures ArePatterns(m, order[..n])
    ensures Substituted(m, "ɔɪ", order[..n]) == "ɔɪ"
  {
    OrderPrefixPatterns(m, order, n);
    if n > 0 {
      UntouchedBefore(m, order, n - 1, ii, io);
      SubstitutedStep(m, "ɔɪ", order, n);
      assert order[n - 1] != "ɪ" && order[n - 1] != "ɔɪ" by {
        assert NoDups(order) && order[ii] == "ɪ" && order[io] == "ɔɪ";
      }
      DiphthongUntouched(m, order[n - 1]);
    }
  }

  /** Substituting "ɪ" turns the untouched "ɔɪ" into "ɔi". */
  lemma BrokenAt(m: map<string, string>, order: seq<string>, ii: nat, io: nat)
    requires SubstitutionTable(m) && IsKeyOrder(m, order)
    requires ii < io < |order| && order[io] == "ɔɪ" && order[ii] == "ɪ"
    ensures ArePatterns(m, order[..ii + 1])
    ensures Substituted(m, "ɔɪ", order[..ii + 1]) == "ɔi"
  {
    OrderPrefixPatterns(m, order, ii + 1);
    UntouchedBefore(m, order, ii, ii, io);
    SubstitutedStep(m, "ɔɪ", order, ii + 1);
    DiphthongBroken(m);
  }

  /** From "ɪ" on, "ɔɪ" has become "ɔi" and stays so. */
  lemma BrokenAfter(m: map<string, string>, order: seq<string>, n: nat, ii: nat, io: nat)
    requires SubstitutionTable(m) && IsKeyOrder(m, order)
    requires ii < io < |order| && order[io] == "ɔɪ" && order[ii] == "ɪ"
    requires ii < n <= |order|
    ensures ArePatterns(m, order[..n])
    ensures Substituted(m, "ɔɪ", order[..n]) == "ɔi"
  {
    BrokenAt(m, order, ii, io);
    OrderPrefixPatterns(m, order, |order|);
    assert order[..|order|] == order;
    forall k | ii + 1 <= k < |order| ensures order[k] in m && ReplaceAll("ɔi", order[k], m[order[k]]) == "ɔi" {
      assert NoDups(order) && order[ii] == "ɪ";
      BrokenStays(m, order[k]);
    }
    BrokenFrom(m, order, ii + 1, n);
  }

  /** Keys that leave "ɔi" as it is keep it so. */
  lemma {:induction false} BrokenFrom(m: map<string, string>, order: seq<string>, from: nat, n: nat)
    requires ArePatterns(m, order)
    requires from <= n <= |order|
    requires forall k :: from <= k < |order| ==> order[k] in m && ReplaceAll("ɔi", order[k], m[order[k]]) == "ɔi"
    requires ArePatterns(m, order[..from]) && Substituted(m, "ɔɪ", order[..from]) == "ɔi"
    ensures ArePatterns(m, order[..n])
    ensures Substituted(m, "ɔɪ", order[..n]) == "ɔi"
  {
    assert ArePatterns(m, order[..n]);
    if from < n {
      BrokenFrom(m, order, from, n - 1);
      SubstitutedStep(m, "ɔɪ", order, n);
    }
  }

  /** For every table of this shape and every iteration order of its keys:
      substituting turns every concatenation of keys into ASCII exactly when
      "ɔɪ" is substituted before "ɪ". In the other order "ɔɪ" becomes "ɔi",
      which is not ASCII. */
  lemma SafeOrders(m: map<string, string>, order: seq<string>)
    requires SubstitutionTable(m) && IsKeyOrder(m, order)
    ensures ArePatterns(m, order)
    ensures (forall ws :: AllKeys(m, ws) ==> IsAscii(Substituted(m, Flatten(ws), order)))
            <==> Before(order, "ɔɪ", "ɪ")
  {
    var io :| 0 <= io < |order| && order[io] == "ɔɪ";
    var ii :| 0 <= ii < |order| && order[ii] == "ɪ";
    if io < ii {
      SafeWhenDiphthongFirst(m, order, io, ii);
    } else {
      assert ii < io by {
        assert io != ii;
      }
      assert !Before(order, "ɔɪ", "ɪ") by {
        forall i, j | 0 <= i < j < |order| && order[i] == "ɔɪ"
          ensures order[j] != "ɪ"
        {
          assert i == io && j != ii;
        }
      }
      UnsafeWhenVowelFirst(m, order, ii, io);
      var ws := ["ɔɪ"];
      assert Flatten(ws) == "ɔɪ" by {
        assert ws[..0] == [];
      }
      assert AllKeys(m, ws);
    }
  }

  lemma SafeWhenDiphthongFirst(m: map<string, string>, order: seq<string>, io: nat, ii: nat)
    requires SubstitutionTable(m) && IsKeyOrder(m, order)
    requires io < ii < |order| && order[io] == "ɔɪ" && order[ii] == "ɪ"
    ensures ArePatterns(m, order)
    ensures forall ws :: AllKeys(m, ws) ==> IsAscii(Substituted(m, Flatten(ws), order))
  {
    assert order[..|order|] == order;
    forall ws | AllKeys(m, ws) ensures IsAscii(Substituted(m, Flatten(ws), order)) {
      SafePrefix(m, ws, order, |order|, io, ii);
    }
  }

  lemma UnsafeWhenVowelFirst(m: map<string, string>, order: seq<string>, ii: nat, io: nat)
    requires SubstitutionTable(m) && IsKeyOrder(m, order)
    requires ii < io < |order| && order[io] == "ɔɪ" && order[ii] == "ɪ"
    ensures ArePatterns(m, order)
    ensures Substituted(m, "ɔɪ", order) == "ɔi"
    ensures !IsAscii(Substituted(m, "ɔɪ", order))
  {
    assert order[..|order|] == order;
    UnsafePrefix(m, order, |order|, ii, io);
    assert !IsAsciiChar("ɔi"[0]);
  }

  /** phonemsToASCII spells every string of PHONEMS symbols in ASCII exactly
      when the dict order happens to put "ɔɪ" before "ɪ". */
  lemma PhonemsToAsciiSafeOrders(order: seq<string>)
    requires IsKeyOrder(PhonemAscii, order)
    ensures ArePatterns(PhonemAscii, order)
    ensures (forall ws :: AllKeys(PhonemAscii, ws) ==> IsAscii(Substituted(PhonemAscii, Flatten(ws), order)))
            <==> Before(order, "ɔɪ", "ɪ")
  {
    PhonemAsciiIsSubstitutionTable();
    SafeOrders(PhonemAscii, order);
  }

  /** With a safe order, the ASCII spelling of any name hashToPhonems produces is ASCII. */
  lemma NamesSpellInAscii(source: string, order: seq<string>)
    requires IsKeyOrder(PhonemAscii, order) && Before(order, "ɔɪ", "ɪ")
    requires HashToPhonems(source).Ok?
    ensures ArePatterns(PhonemAscii, order)
    ensures IsAscii(Substituted(PhonemAscii, HashToPhonems(source).value, order))
  {
    HashToPhonemsShape(source);
    SymbolsAreKeys();
    var syms := SymbolsOf(Phonems, FromHex(source).value);
    assert AllKeys(PhonemAscii, syms);
    PhonemsToAsciiSafeOrders(order);
  }
}
