/** String and sequence helpers shared by the modules: Python's `str.join`,
    `str.split`, literal `re.sub`, and a few predicates on sequences. */
module Text {

  predicate IsAsciiChar(c: char) {
    c as int < 128
  }

  predicate IsAscii(s: string) {
    forall i :: 0 <= i < |s| ==> IsAsciiChar(s[i])
  }

  /** No element occurs twice. */
  predicate NoDups<T(==)>(s: seq<T>) {
    forall i, j :: 0 <= i < j < |s| ==> s[i] != s[j]
  }

  /** Without duplicates, the element at n-1 does not occur before it. */
  lemma LastNotInPrefix<T>(s: seq<T>, n: nat)
    requires NoDups(s) && 0 < n <= |s|
    ensures s[n - 1] !in s[..n - 1]
  {
  }

  /** Without duplicates, nothing occurs more than once. */
  lemma {:induction false} NoDupsCount<T>(s: seq<T>, x: T)
    requires NoDups(s)
    ensures multiset(s)[x] <= 1
  {
    if s != [] {
      var prefix := s[..|s| - 1];
      assert s == prefix + [s[|s| - 1]];
      NoDupsCount(prefix, x);
      if x == s[|s| - 1] {
        LastNotInPrefix(s, |s|);
      }
    }
  }

  /** A rearrangement of a sequence without duplicates has none either. */
  lemma NoDupsPermutation<T>(a: seq<T>, b: seq<T>)
    requires NoDups(a) && multiset(a) == multiset(b)
    ensures NoDups(b)
  {
    forall i, j | 0 <= i < j < |b| ensures b[i] != b[j] {
      if b[i] == b[j] {
        var x := b[i];
        assert b == b[..i] + [x] + b[i + 1..j] + [b[j]] + b[j + 1..];
        assert multiset(b)[x] >= 2;
        NoDupsCount(a, x);
        assert false;
      }
    }
  }

  /** The concatenation of a sequence of sequences, in order (`''.join` and `itertools.chain`). */
  function Flatten<T>(ss: seq<seq<T>>): (r: seq<T>)
  {
    if ss == [] then [] else Flatten(ss[..|ss| - 1]) + ss[|ss| - 1]
  }

  lemma {:induction false} FlattenAppend<T>(a: seq<seq<T>>, b: seq<seq<T>>)
    ensures Flatten(a + b) == Flatten(a) + Flatten(b)
  {
    if b == [] {
      assert a + b == a;
    } else {
      assert (a + b)[..|a + b| - 1] == a + b[..|b| - 1];
      FlattenAppend(a, b[..|b| - 1]);
    }
  }

  /** Every element of the concatenation comes from one of the parts. */
  lemma {:induction false} FlattenMember<T>(ss: seq<seq<T>>, x: T)
    requires x in Flatten(ss)
    ensures exists i :: 0 <= i < |ss| && x in ss[i]
  {
    if ss != [] {
      if x !in ss[|ss| - 1] {
        FlattenMember(ss[..|ss| - 1], x);
        var i :| 0 <= i < |ss| - 1 && x in ss[..|ss| - 1][i];
        assert x in ss[i];
      }
    }
  }

  /** Singleton lists flatten to their elements. */
  lemma {:induction false} FlattenSingletons<T>(ss: seq<seq<T>>)
    requires forall i :: 0 <= i < |ss| ==> |ss[i]| == 1
    ensures |Flatten(ss)| == |ss|
    ensures forall i :: 0 <= i < |ss| ==> Flatten(ss)[i] == ss[i][0]
  {
    if ss != [] {
      FlattenSingletons(ss[..|ss| - 1]);
    }
  }

  /** Python's `sep.join(parts)`: the parts with `sep` between neighbours. */
  function Join(sep: string, parts: seq<string>): string
  {
    if |parts| == 0 then ""
    else if |parts| == 1 then parts[0]
    else Join(sep, parts[..|parts| - 1]) + sep + parts[|parts| - 1]
  }

  /** A character in neither the separator nor any part is not in the join. */
  lemma {:induction false} JoinAvoids(sep: string, parts: seq<string>, c: char)
    requires c !in sep && forall i :: 0 <= i < |parts| ==> c !in parts[i]
    ensures c !in Join(sep, parts)
  {
    if |parts| > 1 {
      JoinAvoids(sep, parts[..|parts| - 1], c);
    }
  }

  /** The text of `lines`, each followed by a newline. */
  function Terminated(lines: seq<string>): string {
    if lines == [] then "" else Terminated(lines[..|lines| - 1]) + lines[|lines| - 1] + "\n"
  }

  lemma TerminatedAppend(lines: seq<string>, line: string)
    ensures Terminated(lines + [line]) == Terminated(lines) + line + "\n"
  {
    assert (lines + [line])[..|lines|] == lines;
  }

  lemma {:induction false} TerminatedCons(line: string, rest: seq<string>)
    ensures Terminated([line] + rest) == line + "\n" + Terminated(rest)
  {
    if rest == [] {
      assert [line] + rest == [] + [line];
      TerminatedAppend([], line);
    } else {
      var front := rest[..|rest| - 1];
      var last := rest[|rest| - 1];
      assert [line] + rest == ([line] + front) + [last];
      assert rest == front + [last];
      TerminatedAppend([line] + front, last);
      TerminatedCons(line, front);
      TerminatedAppend(front, last);
    }
  }

  /** Newline-free lines, each terminated, split back into the lines and a final empty piece. */
  lemma {:induction false} SplitTerminated(lines: seq<string>)
    requires forall i :: 0 <= i < |lines| ==> '\n' !in lines[i]
    ensures Split(Terminated(lines), '\n') == lines + [""]
  {
    if lines != [] {
      var rest := lines[1..];
      assert lines == [lines[0]] + rest;
      TerminatedCons(lines[0], rest);
      SplitTerminated(rest);
      SplitCons(lines[0], '\n', Terminated(rest));
    }
  }

  /** Python's `s.split(d)` for a one-character separator: the pieces between
      occurrences of `d`, always at least one. */
  function Split(s: string, d: char): (r: seq<string>)
    ensures |r| > 0
  {
    if s == [] then [""]
    else if s[0] == d then [""] + Split(s[1..], d)
    else var rest := Split(s[1..], d); [[s[0]] + rest[0]] + rest[1..]
  }

  /** Splitting a piece followed by the separator yields that piece first. */
  lemma {:induction false} SplitCons(a: string, d: char, b: string)
    requires d !in a
    ensures Split(a + [d] + b, d) == [a] + Split(b, d)
  {
    if a == [] {
      assert a + [d] + b == [d] + b;
      assert ([d] + b)[1..] == b;
    } else {
      var s := a + [d] + b;
      assert s[0] == a[0] && s[1..] == a[1..] + [d] + b;
      SplitCons(a[1..], d, b);
      assert [a[0]] + a[1..] == a;
    }
  }

  /** A piece without the separator is not split. */
  lemma {:induction false} SplitNone(a: string, d: char)
    requires d !in a
    ensures Split(a, d) == [a]
  {
    if a != [] {
      SplitNone(a[1..], d);
      assert [a[0]] + a[1..] == a;
    }
  }

  /** The first piece of `s.split(d)` is the longest prefix of `s` without `d`. */
  lemma {:induction false} SplitHead(s: string, d: char)
    ensures var h := Split(s, d)[0];
      && d !in h && h <= s && (|h| == |s| || s[|h|] == d)
  {
    if s != [] && s[0] != d {
      SplitHead(s[1..], d);
    }
  }

  /** `s.replace(x, y)` for single characters: the same length, with every `x` turned into `y`. */
  lemma {:induction false} ReplaceChar(s: string, x: char, y: char)
    ensures |ReplaceAll(s, [x], [y])| == |s|
    ensures forall i :: 0 <= i < |s| ==>
              ReplaceAll(s, [x], [y])[i] == if s[i] == x then y else s[i]
    decreases |s|
  {
    if |s| > 0 {
      ReplaceChar(s[1..], x, y);
      var r := ReplaceAll(s, [x], [y]);
      assert r == [if s[0] == x then y else s[0]] + ReplaceAll(s[1..], [x], [y]) by {
        if s[0] == x {
          assert [x] <= s;
        } else {
          assert !([x] <= s);
        }
      }
    }
  }

  /** Python's `zip(a, b)`: pairs up to the shorter length. */
  function Zip<A, B>(a: seq<A>, b: seq<B>): (r: seq<(A, B)>)
    ensures |r| == if |a| <= |b| then |a| else |b|
  {
    seq(if |a| <= |b| then |a| else |b|, i requires 0 <= i < |a| && i < |b| => (a[i], b[i]))
  }

  function Min(a: int, b: int): int {
    if a <= b then a else b
  }

  /** Python's `re.sub(key, rep, s)` for a key without regular-expression
      metacharacters and a replacement without escapes: scanning left to
      right, every non-overlapping occurrence of `key` is replaced by `rep`. */
  function ReplaceAll(s: string, key: string, rep: string): string
    requires |key| > 0
    decreases |s|
  {
    if |s| == 0 then ""
    else if key <= s then rep + ReplaceAll(s[|key|..], key, rep)
    else [s[0]] + ReplaceAll(s[1..], key, rep)
  }

  /** Every character of the result was in the input or in the replacement. */
  lemma {:induction false} ReplaceAllChars(s: string, key: string, rep: string, c: char)
    requires |key| > 0
    requires c in ReplaceAll(s, key, rep)
    ensures c in s || c in rep
    decreases |s|
  {
    if |s| > 0 {
      if key <= s {
        if c !in rep {
          ReplaceAllChars(s[|key|..], key, rep, c);
        }
      } else if c != s[0] {
        ReplaceAllChars(s[1..], key, rep, c);
      }
    }
  }

  /** Replacing a one-character key with text that lacks it removes it everywhere. */
  lemma {:induction false} ReplaceAllRemoves(s: string, x: char, rep: string)
    requires x !in rep
    ensures x !in ReplaceAll(s, [x], rep)
    decreases |s|
  {
    if |s| > 0 {
      if [x] <= s {
        ReplaceAllRemoves(s[1..], x, rep);
      } else {
        assert s[0] != x;
        ReplaceAllRemoves(s[1..], x, rep);
      }
    }
  }

  /** Replacing a key by itself changes nothing. */
  lemma {:induction false} ReplaceAllSelf(s: string, key: string)
    requires |key| > 0
    ensures ReplaceAll(s, key, key) == s
    decreases |s|
  {
    if |s| > 0 {
      if key <= s {
        ReplaceAllSelf(s[|key|..], key);
        assert s[..|key|] == key;
        assert key + s[|key|..] == s;
      } else {
        ReplaceAllSelf(s[1..], key);
        assert [s[0]] + s[1..] == s;
      }
    }
  }

  /** A key whose first character does not occur is never matched. */
  lemma {:induction false} ReplaceAllAbsent(s: string, key: string, rep: string)
    requires |key| > 0 && key[0] !in s
    ensures ReplaceAll(s, key, rep) == s
    decreases |s|
  {
    if |s| > 0 {
      assert !(key <= s) by { assert s[0] != key[0]; }
      ReplaceAllAbsent(s[1..], key, rep);
      assert [s[0]] + s[1..] == s;
    }
  }

  /** Every occurrence of `a` is immediately followed by `b`. */
  predicate Guarded(s: string, a: char, b: char) {
    forall i :: 0 <= i < |s| && s[i] == a ==> i + 1 < |s| && s[i + 1] == b
  }

  lemma GuardedAppend(x: string, y: string, a: char, b: char)
    requires Guarded(x, a, b) && Guarded(y, a, b)
    ensures Guarded(x + y, a, b)
  {
    forall i | 0 <= i < |x + y| && (x + y)[i] == a
      ensures i + 1 < |x + y| && (x + y)[i + 1] == b
    {
      if i >= |x| {
        assert y[i - |x|] == a;
      } else {
        assert x[i] == a;
      }
    }
  }

  lemma GuardedCons(c: char, r: string, a: char, b: char)
    requires Guarded(r, a, b)
    requires c == a ==> |r| > 0 && r[0] == b
    ensures Guarded([c] + r, a, b)
  {
    forall i | 0 <= i < |[c] + r| && ([c] + r)[i] == a
      ensures i + 1 < |[c] + r| && ([c] + r)[i + 1] == b
    {
      if i > 0 {
        assert r[i - 1] == a;
      }
    }
  }

  lemma GuardedFlatten(ws: seq<string>, a: char, b: char)
    requires forall i :: 0 <= i < |ws| ==> Guarded(ws[i], a, b)
    ensures Guarded(Flatten(ws), a, b)
  {
    if ws != [] {
      GuardedFlatten(ws[..|ws| - 1], a, b);
      GuardedAppend(Flatten(ws[..|ws| - 1]), ws[|ws| - 1], a, b);
    }
  }

  /** A replacement that touches neither `a` nor a leading `b` keeps every `a` guarded by `b`. */
  lemma {:induction false} ReplaceAllKeepsGuard(s: string, key: string, rep: string, a: char, b: char)
    requires |key| > 0 && a !in key && key[0] != b && a !in rep
    requires Guarded(s, a, b)
    ensures Guarded(ReplaceAll(s, key, rep), a, b)
    decreases |s|
  {
    if |s| > 0 {
      if key <= s {
        assert Guarded(s[|key|..], a, b) by {
          forall i | 0 <= i < |s[|key|..]| && s[|key|..][i] == a
            ensures i + 1 < |s[|key|..]| && s[|key|..][i + 1] == b
          {
            assert s[|key| + i] == a;
          }
        }
        ReplaceAllKeepsGuard(s[|key|..], key, rep, a, b);
        assert Guarded(rep, a, b);
        GuardedAppend(rep, ReplaceAll(s[|key|..], key, rep), a, b);
      } else {
        var tail := s[1..];
        assert Guarded(tail, a, b) by {
          forall i | 0 <= i < |tail| && tail[i] == a ensures i + 1 < |tail| && tail[i + 1] == b {
            assert s[i + 1] == a;
          }
        }
        ReplaceAllKeepsGuard(tail, key, rep, a, b);
        var r := ReplaceAll(tail, key, rep);
        if s[0] == a {
          assert |tail| > 0 && tail[0] == b;
          assert !(key <= tail) by { assert tail[0] != key[0]; }
          assert r == [tail[0]] + ReplaceAll(tail[1..], key, rep);
        }
        GuardedCons(s[0], r, a, b);
      }
    }
  }

  /** When every `a` is guarded by `b`, replacing the pair `ab` removes every `a`. */
  lemma {:induction false} ReplaceAllRemovesPair(s: string, a: char, b: char, rep: string)
    requires a != b && a !in rep
    requires Guarded(s, a, b)
    ensures a !in ReplaceAll(s, [a, b], rep)
    decreases |s|
  {
    if |s| > 0 {
      var key := [a, b];
      if key <= s {
        var tail := s[2..];
        assert Guarded(tail, a, b) by {
          forall i | 0 <= i < |tail| && tail[i] == a ensures i + 1 < |tail| && tail[i + 1] == b {
            assert s[i + 2] == a;
          }
        }
        ReplaceAllRemovesPair(tail, a, b, rep);
      } else {
        assert s[0] != a;
        var tail := s[1..];
        assert Guarded(tail, a, b) by {
          forall i | 0 <= i < |tail| && tail[i] == a ensures i + 1 < |tail| && tail[i + 1] == b {
            assert s[i + 1] == a;
          }
        }
        ReplaceAllRemovesPair(tail, a, b, rep);
      }
    }
  }
}
