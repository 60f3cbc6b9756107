/**
 * The pieces of Python's `str` API that the field creator relies on, over
 * `string` (a `seq<char>` of Unicode scalar values): `isspace`, `strip`,
 * `split()` on runs of whitespace, `split(sep)`, `split(sep, maxsplit)`,
 * `sep.join(...)`, `startswith`, `endswith` and `lower`.
 */
module PyStrings {

  /** The characters Python's `str.isspace()` accepts; `split()` and `strip()` use the same set. */
  predicate IsSpace(c: char)
  {
    ('\t' <= c <= '\r') || ('\U{1C}' <= c <= '\U{1F}') || c == ' ' || c == '\U{85}' || c == '\U{A0}'
    || c == '\U{1680}' || ('\U{2000}' <= c <= '\U{200A}') || c == '\U{2028}' || c == '\U{2029}'
    || c == '\U{202F}' || c == '\U{205F}' || c == '\U{3000}'
  }

  predicate NoSpace(s: string)
  {
    forall i | 0 <= i < |s| :: !IsSpace(s[i])
  }

  predicate AllSpace(s: string)
  {
    forall i | 0 <= i < |s| :: IsSpace(s[i])
  }

  /** Neither end is whitespace: what `strip()` leaves unchanged. */
  predicate Trimmed(s: string)
  {
    s == [] || (!IsSpace(s[0]) && !IsSpace(s[|s| - 1]))
  }

  predicate StartsWith(s: string, prefix: string)
  {
    |prefix| <= |s| && s[..|prefix|] == prefix
  }

  predicate EndsWith(s: string, suffix: string)
  {
    |suffix| <= |s| && s[|s| - |suffix|..] == suffix
  }

  /** `s.lstrip()`: drops the leading whitespace and nothing else. */
  function LStrip(s: string): (r: string)
    ensures |r| <= |s| && r == s[|s| - |r|..]
    ensures r == [] || !IsSpace(r[0])
    ensures AllSpace(s[..|s| - |r|])
    decreases |s|
  {
    if s != [] && IsSpace(s[0]) then
      var r := LStrip(s[1..]);
      assert s[..|s| - |r|] == [s[0]] + s[1..][..|s| - 1 - |r|];
      r
    else
      s
  }

  /** `s.rstrip()`: drops the trailing whitespace and nothing else. */
  function RStrip(s: string): (r: string)
    ensures |r| <= |s| && r == s[..|r|]
    ensures r == [] || !IsSpace(r[|r| - 1])
    ensures AllSpace(s[|r|..])
    decreases |s|
  {
    if s != [] && IsSpace(s[|s| - 1]) then
      var r := RStrip(s[..|s| - 1]);
      assert s[|r|..] == s[..|s| - 1][|r|..] + [s[|s| - 1]];
      r
    else
      s
  }

  /** `s.strip()`. */
  function Strip(s: string): (r: string)
    ensures Trimmed(r)
    ensures Trimmed(s) ==> r == s
  {
    RStrip(LStrip(s))
  }

  /** `s.strip()` is empty exactly when `s` is all whitespace. */
  lemma StripBlank(s: string)
    ensures Strip(s) == [] <==> AllSpace(s)
  {
    StripEmpty(s, LStrip(s));
  }

  lemma StripEmpty(s: string, l: string)
    requires l == LStrip(s)
    ensures RStrip(l) == [] <==> AllSpace(s)
  {
    var k := |s| - |l|;
    if RStrip(l) == [] {
      assert l[0..] == l;
      assert s[..k] == s;
    }
  }

  /** Stripping a word after one blank gives the word back. */
  lemma StripAfterBlank(w: string)
    requires w != [] && !IsSpace(w[0]) && !IsSpace(w[|w| - 1])
    ensures Strip([' '] + w) == w
  {
    var s := [' '] + w;
    assert s[0] == ' ' && s[1..] == w;
    assert LStrip(w) == w;
    assert LStrip(s) == w;
    assert RStrip(w) == w;
  }

  /** The length of the leading run of non-whitespace characters of `t`. */
  function WordEnd(t: string): (k: nat)
    ensures k <= |t| && NoSpace(t[..k]) && (k == |t| || IsSpace(t[k]))
    ensures t != [] && !IsSpace(t[0]) ==> k > 0
  {
    if t == [] || IsSpace(t[0]) then 0 else 1 + WordEnd(t[1..])
  }

  /** Nonempty words without whitespace, as `split()` produces them. */
  predicate IsWordList(words: seq<string>)
  {
    forall k | 0 <= k < |words| :: words[k] != [] && NoSpace(words[k])
  }

  /** `s.split()` with no argument: the maximal runs of non-whitespace characters, in order. */
  function SplitWs(s: string): (words: seq<string>)
    ensures IsWordList(words)
    decreases |s|
  {
    var t := LStrip(s);
    if t == [] then [] else
      var k := WordEnd(t);
      var rest := SplitWs(t[k..]);
      WordListCons(t[..k], rest);
      [t[..k]] + rest
  }

  lemma WordListCons(w: string, rest: seq<string>)
    requires w != [] && NoSpace(w) && IsWordList(rest)
    ensures IsWordList([w] + rest)
  {
    forall k | 0 <= k < |rest| + 1
      ensures ([w] + rest)[k] != [] && NoSpace(([w] + rest)[k])
    {
      if k > 0 { assert ([w] + rest)[k] == rest[k - 1]; }
    }
  }

  /** `sep.join(parts)`. */
  function Join(sep: string, parts: seq<string>): string
  {
    if |parts| == 0 then ""
    else if |parts| == 1 then parts[0]
    else parts[0] + sep + Join(sep, parts[1..])
  }

  /** The position of the first `c` in `s`. */
  function IndexOf(s: string, c: char): (i: nat)
    requires c in s
    ensures i < |s| && s[i] == c && c !in s[..i]
  {
    if s[0] == c then 0 else 1 + IndexOf(s[1..], c)
  }

  /** `s.split(c)` for a one-character separator. */
  function SplitOn(s: string, c: char): (parts: seq<string>)
    ensures forall p | p in parts :: c !in p
    ensures Join([c], parts) == s
    decreases |s|
  {
    if c !in s then [s]
    else
      var i := IndexOf(s, c);
      var rest := SplitOn(s[i + 1..], c);
      assert s == s[..i] + [c] + s[i + 1..];
      assert ([s[..i]] + rest)[1..] == rest;
      [s[..i]] + rest
  }

  /** `s.split(c)` has one more part than `s` has occurrences of `c`. */
  lemma {:induction false} SplitOnCount(s: string, c: char)
    ensures |SplitOn(s, c)| == multiset(s)[c] + 1
    decreases |s|
  {
    if c in s {
      var i := SplitOnAt(s, c);
      SplitOnCount(s[i + 1..], c);
      CountAround(s[..i], c, s[i + 1..]);
    } else {
      assert multiset(s)[c] == 0;
    }
  }

  /** Where `s.split(c)` cuts first: the part before the first `c`, then the splits after it. */
  lemma SplitOnAt(s: string, c: char) returns (i: nat)
    requires c in s
    ensures i < |s| && s == s[..i] + [c] + s[i + 1..] && c !in s[..i]
    ensures SplitOn(s, c) == [s[..i]] + SplitOn(s[i + 1..], c)
  {
    i := IndexOf(s, c);
    assert s == s[..i] + [c] + s[i + 1..];
  }

  lemma CountAround(a: string, c: char, b: string)
    requires c !in a
    ensures multiset(a + [c] + b)[c] == multiset(b)[c] + 1
  {
    assert multiset(a + [c] + b) == multiset(a) + multiset([c]) + multiset(b);
    assert multiset(a)[c] == 0;
  }

  /** Splitting at the first separator: the part before it, then the splits of the rest. */
  lemma SplitOnFirst(a: string, b: string, c: char)
    requires c !in a
    ensures SplitOn(a + [c] + b, c) == [a] + SplitOn(b, c)
  {
    var s := a + [c] + b;
    assert s[|a|] == c;
    var i := IndexOf(s, c);
    assert i == |a|;
    assert s[..i] == a && s[i + 1..] == b;
  }

  /** `s.split(c, n)`: at most `n` splits, the last part keeps every later `c`. */
  function SplitAtMost(s: string, c: char, n: nat): (parts: seq<string>)
    ensures 1 <= |parts| <= n + 1
    ensures Join([c], parts) == s
    ensures forall k | 0 <= k < |parts| - 1 :: c !in parts[k]
    ensures |parts| < n + 1 ==> c !in parts[|parts| - 1]
    decreases n
  {
    if n == 0 || c !in s then [s]
    else
      var i := IndexOf(s, c);
      var rest := SplitAtMost(s[i + 1..], c, n - 1);
      PartBefore(s, c, i, rest);
      PartsCons(s[..i], rest, c);
      [s[..i]] + rest
  }

  /** The part before the first separator, put in front of a split of what follows it, is a split of `s`. */
  lemma PartBefore(s: string, c: char, i: nat, rest: seq<string>)
    requires i < |s| && s[i] == c
    requires rest != [] && Join([c], rest) == s[i + 1..]
    ensures Join([c], [s[..i]] + rest) == s
  {
    JoinCons([c], s[..i], rest);
    assert s == s[..i] + [c] + s[i + 1..];
  }

  /** A part without `c` in front keeps every part but the last free of `c`, and keeps the last part. */
  lemma PartsCons(p: string, rest: seq<string>, c: char)
    requires c !in p && rest != []
    requires forall k | 0 <= k < |rest| - 1 :: c !in rest[k]
    ensures forall k | 0 <= k < |rest| :: c !in ([p] + rest)[k]
    ensures ([p] + rest)[|rest|] == rest[|rest| - 1]
  {
    forall k | 0 <= k < |rest| ensures c !in ([p] + rest)[k] {
      if k > 0 { assert ([p] + rest)[k] == rest[k - 1]; }
    }
  }


  /** Splitting at most `n > 0` times at the first separator: the part before it, then at most `n - 1` splits of the rest. */
  lemma SplitAtMostFirst(a: string, b: string, c: char, n: nat)
    requires c !in a && n > 0
    ensures SplitAtMost(a + [c] + b, c, n) == [a] + SplitAtMost(b, c, n - 1)
  {
    var s := a + [c] + b;
    assert s[|a|] == c;
    var i := IndexOf(s, c);
    assert i == |a|;
    assert s[..i] == a && s[i + 1..] == b;
  }

  /** Every `c` in `s` replaced by `d`. */
  function Replace(s: string, c: char, d: char): (r: string)
  {
    seq(|s|, i requires 0 <= i < |s| => if s[i] == c then d else s[i])
  }

  /** `c.lower()` for the characters whose lower case is an ASCII letter. */
  function LowerChar(c: char): char
  {
    if 'A' <= c <= 'Z' then (c as int + 32) as char
    else if c == '\U{212A}' then 'k'
    else c
  }

  /**
   * `s.lower()`, exact as far as comparisons with ASCII text go: ASCII
   * capitals become small letters, the Kelvin sign becomes `k`, and every
   * other character is kept.
   */
  function Lower(s: string): (r: string)
    ensures |r| == |s|
    ensures forall i | 0 <= i < |s| :: 'A' <= s[i] <= 'Z' ==> r[i] as int == s[i] as int + 32
    ensures forall i | 0 <= i < |s| :: !('A' <= s[i] <= 'Z') && s[i] != '\U{212A}' ==> r[i] == s[i]
    ensures forall i | 0 <= i < |r| :: !('A' <= r[i] <= 'Z')
  {
    seq(|s|, i requires 0 <= i < |s| => LowerChar(s[i]))
  }

  /**
   * `[v.strip() for v in items if v.strip()]`: the stripped items that are
   * not blank, in their original order.
   */
  function NonBlankStripped(items: seq<string>): (r: seq<string>)
    ensures |r| <= |items|
    ensures forall k | 0 <= k < |r| :: r[k] != [] && Trimmed(r[k])
    decreases |items|
  {
    if items == [] then []
    else
      var init := NonBlankStripped(items[..|items| - 1]);
      var v := Strip(items[|items| - 1]);
      if v == [] then init else init + [v]
  }

  // Lemmas relating the splitting and joining functions above.

  lemma EndsWithConcat(a: string, b: string)
    ensures EndsWith(a + b, b)
  {
    assert (a + b)[|a|..] == b;
  }

  lemma NoSpaceConcat(a: string, b: string)
    requires NoSpace(a) && NoSpace(b)
    ensures NoSpace(a + b)
  {
    forall i | 0 <= i < |a + b| ensures !IsSpace((a + b)[i]) {
      if i >= |a| { assert (a + b)[i] == b[i - |a|]; }
    }
  }

  /** A run of non-whitespace ended by whitespace (or the end) is the first word. */
  lemma {:induction false} WordEndOf(w: string, rest: string)
    requires NoSpace(w)
    requires rest == [] || IsSpace(rest[0])
    ensures WordEnd(w + rest) == |w|
    decreases |w|
  {
    if w != [] {
      WordEndStep(w, rest);
      WordEndOf(w[1..], rest);
    }
  }

  lemma WordEndStep(w: string, rest: string)
    requires NoSpace(w) && w != []
    ensures NoSpace(w[1..]) && WordEnd(w + rest) == 1 + WordEnd(w[1..] + rest)
  {
    assert (w + rest)[1..] == w[1..] + rest;
    assert (w + rest)[0] == w[0];
  }

  /**
   * `" ".join(words).split() == words` when every word is nonempty and
   * free of whitespace: splitting recovers the words that were joined.
   */
  lemma {:induction false} SplitWsJoin(words: seq<string>)
    requires IsWordList(words)
    ensures SplitWs(Join(" ", words)) == words
  {
    if words == [] {
      assert LStrip("") == "";
    } else if |words| == 1 {
      SplitWsSingle(words[0]);
    } else {
      var w, rest := words[0], words[1..];
      assert words == [w] + rest;
      assert IsWordList(rest) by {
        forall k | 0 <= k < |rest| ensures rest[k] != [] && NoSpace(rest[k]) {
          assert rest[k] == words[k + 1];
        }
      }
      SplitWsJoinStep(w, rest);
      SplitWsJoin(rest);
    }
  }

  lemma SplitWsSingle(w: string)
    requires w != [] && NoSpace(w)
    ensures SplitWs(w) == [w]
  {
    SplitWsWord(w, []);
    assert w + [] == w;
    assert LStrip([]) == [];
  }

  lemma SplitWsJoinStep(w: string, rest: seq<string>)
    requires w != [] && NoSpace(w) && rest != []
    ensures SplitWs(Join(" ", [w] + rest)) == [w] + SplitWs(Join(" ", rest))
  {
    var j := Join(" ", rest);
    assert ([w] + rest)[1..] == rest;
    assert Join(" ", [w] + rest) == w + " " + j;
    assert w + " " + j == w + (" " + j);
    SplitWsWord(w, " " + j);
    SplitWsSpace(j);
  }

  /** A leading space does not change the split. */
  lemma SplitWsSpace(j: string)
    ensures SplitWs(" " + j) == SplitWs(j)
  {
    assert (" " + j)[1..] == j;
    assert LStrip(" " + j) == LStrip(j);
  }

  /** A leading word followed by whitespace (or nothing) is split off as the first word. */
  lemma SplitWsWord(w: string, rest: string)
    requires w != [] && NoSpace(w)
    requires rest == [] || IsSpace(rest[0])
    ensures SplitWs(w + rest) == [w] + SplitWs(rest)
  {
    var t := w + rest;
    assert LStrip(t) == t;
    WordEndOf(w, rest);
    assert t[..|w|] == w && t[|w|..] == rest;
  }

  /** `"d".join(s.split("c"))` is `s` with every `c` replaced by `d`. */
  lemma {:induction false} JoinSplitOn(s: string, c: char, d: char)
    ensures Join([d], SplitOn(s, c)) == Replace(s, c, d)
    decreases |s|
  {
    if c !in s {
      assert Replace(s, c, d) == s;
    } else {
      var i := SplitOnAt(s, c);
      var a, b := s[..i], s[i + 1..];
      JoinSplitOn(b, c, d);
      JoinCons([d], a, SplitOn(b, c));
      ReplaceAround(a, c, b, d);
    }
  }

  /** Joining a part in front of nonempty parts puts the separator between. */
  lemma JoinCons(sep: string, p: string, rest: seq<string>)
    requires rest != []
    ensures Join(sep, [p] + rest) == p + sep + Join(sep, rest)
  {
    assert ([p] + rest)[1..] == rest;
  }

  lemma ReplaceAround(a: string, c: char, b: string, d: char)
    requires c !in a
    ensures Replace(a + [c] + b, c, d) == a + [d] + Replace(b, c, d)
  {
    ReplaceAppend(a + [c], b, c, d);
    ReplaceAppend(a, [c], c, d);
    assert Replace(a, c, d) == a;
  }

  lemma ReplaceAppend(a: string, b: string, c: char, d: char)
    ensures Replace(a + b, c, d) == Replace(a, c, d) + Replace(b, c, d)
  {
  }

  /** Replacing the separator `c` of a `c`-join of `c`-free parts by `d` gives the `d`-join. */
  lemma {:induction false} ReplaceJoin(parts: seq<string>, c: char, d: char)
    requires forall p | p in parts :: c !in p
    ensures Replace(Join([c], parts), c, d) == Join([d], parts)
  {
    if |parts| == 1 {
      assert parts[0] in parts;
      assert Replace(parts[0], c, d) == parts[0];
    } else if |parts| > 1 {
      assert parts[0] in parts;
      var rest := parts[1..];
      ReplaceJoin(rest, c, d);
      ReplaceAppend(parts[0] + [c], Join([c], rest), c, d);
      ReplaceAppend(parts[0], [c], c, d);
      assert Replace(parts[0], c, d) == parts[0];
    }
  }

  /** Joining whitespace-free parts with a whitespace-free separator gives no whitespace. */
  lemma {:induction false} JoinNoSpace(sep: string, parts: seq<string>)
    requires NoSpace(sep)
    requires forall k | 0 <= k < |parts| :: NoSpace(parts[k])
    ensures NoSpace(Join(sep, parts))
  {
    if |parts| > 1 {
      JoinNoSpace(sep, parts[1..]);
      NoSpaceConcat(parts[0], sep);
      NoSpaceConcat(parts[0] + sep, Join(sep, parts[1..]));
    }
  }

  /** The last item contributes its stripped form, unless that is blank. */
  lemma NonBlankStrippedLast(items: seq<string>)
    requires items != []
    ensures var v := Strip(items[|items| - 1]);
      NonBlankStripped(items) == NonBlankStripped(items[..|items| - 1]) + (if v == [] then [] else [v])
  {
  }

  /** Every listed value is the stripped form of some item. */
  lemma {:induction false} NonBlankStrippedSource(items: seq<string>, v: string) returns (k: nat)
    requires v in NonBlankStripped(items)
    ensures k < |items| && Strip(items[k]) == v
    decreases |items|
  {
    var init := items[..|items| - 1];
    NonBlankStrippedLast(items);
    if v in NonBlankStripped(init) {
      k := NonBlankStrippedSource(init, v);
      assert items[k] == init[k];
    } else {
      k := |items| - 1;
    }
  }

  /** Every item that is not blank once stripped is listed. */
  lemma {:induction false} NonBlankStrippedListed(items: seq<string>, k: nat)
    requires k < |items| && Strip(items[k]) != []
    ensures Strip(items[k]) in NonBlankStripped(items)
    decreases |items|
  {
    var init := items[..|items| - 1];
    NonBlankStrippedLast(items);
    if k < |items| - 1 {
      assert init[k] == items[k];
      NonBlankStrippedListed(init, k);
    }
  }

  /**
   * The items of `s` split at `sep` that are not blank once stripped,
   * stripped, in order: `[v.strip() for v in s.split(sep) if v.strip()]`.
   */
  function NonBlankItems(s: string, sep: char): (vs: seq<string>)
    ensures |vs| <= multiset(s)[sep] + 1
    ensures forall k | 0 <= k < |vs| :: vs[k] != [] && Trimmed(vs[k]) && sep !in vs[k]
  {
    var items := SplitOn(s, sep);
    SplitOnCount(s, sep);
    NonBlankStrippedFree(items, sep);
    NonBlankStripped(items)
  }

  /** Lower-casing twice is lower-casing once. */
  lemma LowerIdempotent(s: string)
    ensures Lower(Lower(s)) == Lower(s)
  {
  }

  /** `(p + s).startswith(p)`. */
  lemma StartsWithConcat(p: string, s: string)
    ensures StartsWith(p + s, p)
  {
    assert (p + s)[..|p|] == p;
  }

  /** A string that starts with `p` is `p` followed by the rest. */
  lemma StartsWithSplit(s: string, p: string)
    requires StartsWith(s, p)
    ensures s == p + s[|p|..]
  {
  }

  /** A string that ends with `p` is the rest followed by `p`. */
  lemma EndsWithSplit(s: string, p: string)
    requires EndsWith(s, p)
    ensures s == s[..|s| - |p|] + p
  {
  }

  // Lemmas about `split()` on arbitrary whitespace.

  /**
   * `split()` cuts at every whitespace character: the words of `a`, then
   * the words of `b`. With `SplitWsSingle` this determines `split()` on
   * every string, whatever its runs of blanks or its leading and trailing
   * whitespace.
   */
  lemma SplitWsAt(a: string, c: char, b: string)
    requires IsSpace(c)
    ensures SplitWs(a + [c] + b) == SplitWs(a) + SplitWs(b)
  {
    var x := [c] + b;
    assert a + [c] + b == a + x;
    SplitWsCut(a, x);
    LStripSpaces([c], b);
    SplitWsByLStrip(x, b);
  }

  /** Splitting where whitespace follows: the words before, then the words after. */
  lemma {:induction false} SplitWsCut(a: string, x: string)
    requires x == [] || IsSpace(x[0])
    ensures SplitWs(a + x) == SplitWs(a) + SplitWs(x)
    decreases |a|
  {
    var t := LStrip(a);
    if t == [] {
      assert a[..|a|] == a;
      LStripSpaces(a, x);
      SplitWsByLStrip(a + x, x);
      assert SplitWs(a) == [];
    } else {
      var k := WordEnd(t);
      SplitWsUnfold(a, t, k);
      assert LStrip(a + x) == t + x && WordEnd(t + x) == k by {
        LStripPrefix(a, x);
        WordEndAppend(t, x);
      }
      SplitWsUnfold(a + x, t + x, k);
      SliceConcat(t, x, k);
      SplitWsCut(t[k..], x);
      ConsAssoc(t[..k], SplitWs(t[k..]), SplitWs(x));
    }
  }

  lemma SliceConcat(t: string, x: string, k: nat)
    requires k <= |t|
    ensures (t + x)[..k] == t[..k] && (t + x)[k..] == t[k..] + x
  {
  }

  lemma ConsAssoc(w: string, p: seq<string>, q: seq<string>)
    ensures [w] + (p + q) == ([w] + p) + q
  {
  }

  /** One step of `split()`: the first word after the leading whitespace, then the rest. */
  lemma SplitWsUnfold(s: string, t: string, k: nat)
    requires LStrip(s) == t && t != [] && WordEnd(t) == k
    ensures 0 < k <= |t| && SplitWs(s) == [t[..k]] + SplitWs(t[k..])
  {
  }

  /** Once the leading whitespace is over, `lstrip()` keeps whatever follows. */
  lemma LStripPrefix(a: string, y: string)
    requires LStrip(a) != []
    ensures LStrip(a + y) == LStrip(a) + y
  {
    var t := LStrip(a);
    var k := |a| - |t|;
    Regroup(a, k, y);
    LStripSpaces(a[..k], t + y);
    HeadOfConcat(t, y);
  }

  /** `split()` looks at a string only after its leading whitespace. */
  lemma SplitWsByLStrip(x: string, y: string)
    requires LStrip(x) == LStrip(y)
    ensures SplitWs(x) == SplitWs(y)
  {
  }

  /** Leading whitespace in front of `q` is dropped by `lstrip()`. */
  lemma {:induction false} LStripSpaces(p: string, q: string)
    requires AllSpace(p)
    ensures LStrip(p + q) == LStrip(q)
    decreases |p|
  {
    if p != [] {
      assert (p + q)[0] == p[0] && (p + q)[1..] == p[1..] + q;
      assert AllSpace(p[1..]) by {
        forall i | 0 <= i < |p| - 1 ensures IsSpace(p[1..][i]) { assert p[1..][i] == p[i + 1]; }
      }
      LStripSpaces(p[1..], q);
      assert LStrip(p + q) == LStrip((p + q)[1..]);
    } else {
      assert p + q == q;
    }
  }

  /** The first word does not reach past whitespace appended to the string. */
  lemma {:induction false} WordEndAppend(t: string, x: string)
    requires x == [] || IsSpace(x[0])
    ensures WordEnd(t + x) == WordEnd(t)
    decreases |t|
  {
    if t == [] {
      assert t + x == x;
    } else {
      assert (t + x)[0] == t[0];
      if !IsSpace(t[0]) {
        assert (t + x)[1..] == t[1..] + x;
        WordEndAppend(t[1..], x);
      }
    }
  }

  // Lemmas about `strip()`.

  /** Trailing whitespace after `p` is dropped by `rstrip()`. */
  lemma {:induction false} RStripSpaces(p: string, q: string)
    requires AllSpace(q)
    ensures RStrip(p + q) == RStrip(p)
    decreases |q|
  {
    if q != [] {
      var n := |q| - 1;
      assert (p + q)[|p + q| - 1] == q[n] && (p + q)[..|p + q| - 1] == p + q[..n];
      assert AllSpace(q[..n]) by {
        forall i | 0 <= i < n ensures IsSpace(q[..n][i]) { assert q[..n][i] == q[i]; }
      }
      RStripSpaces(p, q[..n]);
      assert RStrip(p + q) == RStrip((p + q)[..|p + q| - 1]);
    } else {
      assert p + q == p;
    }
  }

  /** `lstrip()` stops at the first character that is not whitespace, wherever it is. */
  lemma LStripConcat(a: string, x: string)
    requires x != [] && !IsSpace(x[0])
    ensures LStrip(a + x) == LStrip(a) + x
  {
    var t := LStrip(a);
    var k := |a| - |t|;
    Regroup(a, k, x);
    LStripSpaces(a[..k], t + x);
    HeadOfConcat(t, x);
  }

  /** `rstrip()` stops at the last character that is not whitespace, wherever it is. */
  lemma RStripConcat(x: string, b: string)
    requires x != [] && !IsSpace(x[|x| - 1])
    ensures RStrip(x + b) == x + RStrip(b)
  {
    if AllSpace(b) {
      RStripSpaces(x, b);
      RStripBlank(b);
      assert x + [] == x;
    } else {
      RStripAppend(x, b);
    }
  }

  /** A string that is not all whitespace keeps what precedes its last nonblank character. */
  lemma RStripAppend(x: string, y: string)
    requires !AllSpace(y)
    ensures RStrip(x + y) == x + RStrip(y)
  {
    var r := RStrip(y);
    assert r != [] by {
      assert y[0..] == y;
    }
    RegroupRight(x, y, |r|);
    RStripSpaces(x + r, y[|r|..]);
    LastOfConcat(x, r);
  }

  /** `a + x` regrouped at a cut `k` of `a`. */
  lemma Regroup(a: string, k: nat, x: string)
    requires k <= |a|
    ensures a + x == a[..k] + (a[k..] + x)
  {
    assert a == a[..k] + a[k..];
  }

  /** `x + y` regrouped at a cut `n` of `y`. */
  lemma RegroupRight(x: string, y: string, n: nat)
    requires n <= |y|
    ensures x + y == (x + y[..n]) + y[n..]
  {
    assert y == y[..n] + y[n..];
  }

  lemma HeadOfConcat(t: string, x: string)
    requires t + x != []
    ensures (t + x)[0] == if t == [] then x[0] else t[0]
  {
  }

  lemma LastOfConcat(x: string, r: string)
    requires r != []
    ensures (x + r)[|x + r| - 1] == r[|r| - 1]
  {
  }

  /** `s.strip()` with a nonblank middle `m`: the outer whitespace goes, the middle stays. */
  lemma StripAround(a: string, m: string, c: string)
    requires m != [] && !IsSpace(m[0]) && !IsSpace(m[|m| - 1])
    ensures Strip(a + m + c) == LStrip(a) + m + RStrip(c)
  {
    Assoc(a, m, c);
    HeadOfConcat(m, c);
    LStripConcat(a, m + c);
    Assoc(LStrip(a), m, c);
    LastOfConcat(LStrip(a), m);
    RStripConcat(LStrip(a) + m, c);
  }

  lemma Assoc(p: string, q: string, r: string)
    ensures p + q + r == p + (q + r)
  {
  }

  lemma LStripIdempotent(s: string)
    ensures LStrip(LStrip(s)) == LStrip(s)
  {
  }

  lemma RStripIdempotent(s: string)
    ensures RStrip(RStrip(s)) == RStrip(s)
  {
  }

  /** An all-whitespace string strips to nothing from the right. */
  lemma RStripBlank(s: string)
    requires AllSpace(s)
    ensures RStrip(s) == []
  {
  }

  /** A string that starts with a non-space keeps its first character through `rstrip()`. */
  lemma RStripFirst(s: string)
    requires s != [] && !IsSpace(s[0])
    ensures RStrip(s) != [] && RStrip(s)[0] == s[0]
  {
    assert s[0..] == s;
  }

  /** Stripping the left and the right commute. */
  lemma LStripRStrip(s: string)
    ensures LStrip(RStrip(s)) == RStrip(LStrip(s))
  {
    var l := LStrip(s);
    var k := |s| - |l|;
    assert s == s[..k] + l;
    if l == [] {
      assert s[..k] == s;
      RStripBlank(s);
    } else {
      assert !AllSpace(l) by { assert !IsSpace(l[0]); }
      RStripAppend(s[..k], l);
      LStripSpaces(s[..k], RStrip(l));
      RStripFirst(l);
    }
  }

  /** Stripping what `lstrip()` left is stripping the original. */
  lemma StripLStrip(s: string)
    ensures Strip(LStrip(s)) == Strip(s)
  {
    LStripIdempotent(s);
  }

  /** Stripping what `rstrip()` left is stripping the original. */
  lemma StripRStrip(s: string)
    ensures Strip(RStrip(s)) == Strip(s)
  {
    LStripRStrip(s);
    RStripIdempotent(LStrip(s));
  }

  /** A slice of a string without `c` has no `c`. */
  lemma SliceFree(s: string, c: char, i: nat, j: nat)
    requires i <= j <= |s| && c !in s
    ensures c !in s[i..j]
  {
    assert forall k | 0 <= k < j - i :: s[i..j][k] == s[i + k];
  }

  /** Stripping adds no character: a string without `c` strips to one without `c`. */
  lemma StripFree(s: string, c: char)
    requires c !in s
    ensures c !in LStrip(s) && c !in RStrip(s) && c !in Strip(s)
  {
    var l := LStrip(s);
    SliceFree(s, c, |s| - |l|, |s|);
    SliceFree(s, c, 0, |RStrip(s)|);
    SliceFree(l, c, 0, |RStrip(l)|);
  }

  /** Items without `c` give stripped values without `c`. */
  lemma NonBlankStrippedFree(items: seq<string>, c: char)
    requires forall p | p in items :: c !in p
    ensures forall k | 0 <= k < |NonBlankStripped(items)| :: c !in NonBlankStripped(items)[k]
  {
    var r := NonBlankStripped(items);
    forall k | 0 <= k < |r| ensures c !in r[k] {
      var j := NonBlankStrippedSource(items, r[k]);
      assert items[j] in items;
      StripFree(items[j], c);
    }
  }
}
