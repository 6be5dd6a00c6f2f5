/** Exact models of the Python `str` operations the scrapers rely on:
    `isspace`, `strip`, `split()`, `split(sep)`, `rsplit(c, 1)`, `join`,
    `replace`, `in` and the digit filter. Strings are sequences of code points. */
module PyStr {

  /** `str.isspace()` for one character: the code points Python treats as
      whitespace (bidirectional classes WS, B and S, and category Zs). */
  predicate IsSpace(c: char) {
    var n := c as int;
    (9 <= n <= 13) || (28 <= n <= 32) || n == 0x85 || n == 0xA0 || n == 0x1680
    || (0x2000 <= n <= 0x200A) || n == 0x2028 || n == 0x2029 || n == 0x202F
    || n == 0x205F || n == 0x3000
  }

  /** The ASCII decimal digits, which is what `str.isdigit` accepts in this model. */
  predicate IsDigit(c: char) {
    '0' <= c <= '9'
  }

  predicate AllDigits(s: string) {
    forall i :: 0 <= i < |s| ==> IsDigit(s[i])
  }

  /** A token of `str.split()`: non-empty and free of whitespace. */
  predicate IsWord(w: string) {
    w != [] && forall i :: 0 <= i < |w| ==> !IsSpace(w[i])
  }

  /** `sep in s` for strings: `s` has `sep` as a contiguous infix. */
  predicate Contains(s: string, sep: string)
    decreases |s|
  {
    |sep| <= |s| && (s[..|sep|] == sep || Contains(s[1..], sep))
  }

  lemma {:induction false} ContainsChar(s: string, c: char)
    ensures Contains(s, [c]) <==> c in s
    decreases |s|
  {
    if s != [] {
      ContainsChar(s[1..], c);
      assert s == [s[0]] + s[1..];
    }
  }

  /** A witness of `sep in s`: the infix at position i. */
  lemma {:induction false} ContainsAt(s: string, sep: string, i: nat)
    requires i + |sep| <= |s| && s[i..i + |sep|] == sep
    ensures Contains(s, sep)
    decreases i
  {
    if i > 0 {
      assert s[1..][i - 1..i - 1 + |sep|] == s[i..i + |sep|];
      ContainsAt(s[1..], sep, i - 1);
    }
  }

  /** `s.lstrip()` */
  function LStrip(s: string): (r: string)
    ensures |r| <= |s| && r == s[|s| - |r|..]
    ensures r == [] || !IsSpace(r[0])
    ensures forall i :: 0 <= i < |s| - |r| ==> IsSpace(s[i])
  {
    if s != [] && IsSpace(s[0]) then LStrip(s[1..]) else s
  }

  /** `s.rstrip()` */
  function RStrip(s: string): (r: string)
    ensures |r| <= |s| && r == s[..|r|]
    ensures r == [] || !IsSpace(r[|r| - 1])
    ensures forall i :: |r| <= i < |s| ==> IsSpace(s[i])
  {
    if s != [] && IsSpace(s[|s| - 1]) then RStrip(s[..|s| - 1]) else s
  }

  /** `s.strip()` */
  function Strip(s: string): (r: string)
    ensures r == [] || (!IsSpace(r[0]) && !IsSpace(r[|r| - 1]))
    ensures |r| <= |s| && forall c :: c in r ==> c in s
  {
    var l := LStrip(s);
    var r := RStrip(l);
    assert forall c :: c in r ==> c in l;
    r
  }

  /** What `strip` cuts off is whitespace at both ends and nothing else: the
      result is an infix of s with only whitespace around it (and, by the
      function's own contract, none at its own ends): the text is
      s[..i] + Strip(s) + s[j..]. */
  lemma StripInfix(s: string) returns (i: nat, j: nat)
    ensures i <= j <= |s| && Strip(s) == s[i..j]
    ensures forall k :: 0 <= k < i ==> IsSpace(s[k])
    ensures forall k :: j <= k < |s| ==> IsSpace(s[k])
  {
    var l := LStrip(s);
    var r := RStrip(l);
    i := |s| - |l|;
    j := i + |r|;
    assert l == s[i..] && r == l[..|r|];
    forall k | j <= k < |s|
      ensures IsSpace(s[k])
    {
      assert s[k] == l[k - i];
    }
  }

  /** `s.rstrip(c)` for a single character c. */
  function RStripChar(s: string, c: char): (r: string)
    ensures |r| <= |s| && r == s[..|r|]
    ensures r == [] || r[|r| - 1] != c
    ensures c !in s ==> r == s
  {
    if s != [] && s[|s| - 1] == c then RStripChar(s[..|s| - 1], c) else s
  }

  /** `sep.join(parts)` */
  function Join(sep: string, parts: seq<string>): string
    decreases |parts|
  {
    if |parts| == 0 then ""
    else if |parts| == 1 then parts[0]
    else parts[0] + sep + Join(sep, parts[1..])
  }

  /** `s.split(sep)` for a non-empty separator: cut at every occurrence of sep,
      scanning left to right without overlaps. There is always one piece more
      than there are cuts. */
  function SplitOn(s: string, sep: string): (r: seq<string>)
    requires sep != []
    ensures |r| >= 1
    decreases |s|
  {
    if |s| < |sep| then [s]
    else if s[..|sep|] == sep then [""] + SplitOn(s[|sep|..], sep)
    else
      var rest := SplitOn(s[1..], sep);
      [[s[0]] + rest[0]] + rest[1..]
  }

  lemma JoinCons(sep: string, a: string, rest: seq<string>)
    requires |rest| >= 1
    ensures Join(sep, [a] + rest) == a + sep + Join(sep, rest)
  {
    assert ([a] + rest)[1..] == rest;
  }

  /** Joining the pieces with the separator gives back the string. */
  lemma {:induction false} JoinSplitOn(s: string, sep: string)
    requires sep != []
    ensures Join(sep, SplitOn(s, sep)) == s
    decreases |s|
  {
    if |s| < |sep| {
    } else if s[..|sep|] == sep {
      var rest := SplitOn(s[|sep|..], sep);
      JoinSplitOn(s[|sep|..], sep);
      JoinCons(sep, "", rest);
      assert s == sep + s[|sep|..];
    } else {
      var rest := SplitOn(s[1..], sep);
      JoinSplitOn(s[1..], sep);
      JoinPrepend(sep, s[0], rest);
      assert s == [s[0]] + s[1..];
    }
  }

  /** Adding a character in front of the first piece adds it in front of the join. */
  lemma JoinPrepend(sep: string, c: char, rest: seq<string>)
    requires |rest| >= 1
    ensures Join(sep, [[c] + rest[0]] + rest[1..]) == [c] + Join(sep, rest)
  {
    var r := [[c] + rest[0]] + rest[1..];
    if |rest| > 1 {
      assert r[1..] == rest[1..];
      JoinCons(sep, [c] + rest[0], rest[1..]);
      JoinCons(sep, rest[0], rest[1..]);
      assert rest == [rest[0]] + rest[1..];
    }
  }

  /** `s.split(sep)` has a second piece exactly when `sep in s`. */
  lemma {:induction false} SplitOnCount(s: string, sep: string)
    requires sep != []
    ensures |SplitOn(s, sep)| >= 2 <==> Contains(s, sep)
    decreases |s|
  {
    if |s| >= |sep| && s[..|sep|] != sep {
      SplitOnCount(s[1..], sep);
    }
  }

  /** Splitting on a character the string does not hold gives one piece. */
  lemma SplitOnAbsent(s: string, c: char)
    requires c !in s
    ensures SplitOn(s, [c]) == [s]
  {
    ContainsChar(s, c);
    SplitOnCount(s, [c]);
    JoinSplitOn(s, [c]);
  }

  /** Splitting at the first occurrence of a character. */
  lemma {:induction false} SplitOnFirst(x: string, c: char, y: string)
    requires c !in x
    ensures SplitOn(x + [c] + y, [c]) == [x] + SplitOn(y, [c])
    decreases |x|
  {
    var s := x + [c] + y;
    if x == [] {
      assert s[..1] == [c] && s[1..] == y;
    } else {
      assert s[0] == x[0] && s[..1] == [s[0]];
      assert s[1..] == x[1..] + [c] + y;
      SplitOnFirst(x[1..], c, y);
      assert [x[0]] + x[1..] == x;
    }
  }

  /** `s.rsplit(c, 1)`: one piece when c does not occur, otherwise the text
      before and after the last c. */
  function RSplitOnce(s: string, c: char): (r: seq<string>)
    ensures c !in s ==> r == [s]
    ensures c in s ==> |r| == 2 && s == r[0] + [c] + r[1] && c !in r[1]
    decreases |s|
  {
    if s == [] then [s]
    else if s[|s| - 1] == c then
      assert s == s[..|s| - 1] + [c] + [];
      [s[..|s| - 1], []]
    else
      var r := RSplitOnce(s[..|s| - 1], c);
      assert s == s[..|s| - 1] + [s[|s| - 1]];
      if |r| == 1 then [s]
      else
        assert s == r[0] + [c] + (r[1] + [s[|s| - 1]]);
        [r[0], r[1] + [s[|s| - 1]]]
  }

  /** `rsplit(c, 1)` cuts at the last c: when the text after some c holds
      no c, the two pieces are the text before and after it. */
  lemma {:induction false} RSplitOnceAt(before: string, c: char, after: string)
    requires c !in after
    ensures RSplitOnce(before + [c] + after, c) == [before, after]
    decreases |after|
  {
    var s := before + [c] + after;
    if after == [] {
      assert s[..|s| - 1] == before;
    } else {
      var n := |after| - 1;
      RSplitOnceAt(before, c, after[..n]);
      assert s[..|s| - 1] == before + [c] + after[..n];
      assert s[|s| - 1] == after[n];
      assert after[..n] + [after[n]] == after;
    }
  }

  /** The first piece of `(x + rest).split(c)`, when x holds no c, is x
      followed by the first piece of `rest.split(c)`. */
  lemma {:induction false} FirstPieceAppend(x: string, rest: string, c: char)
    requires c !in x
    ensures SplitOn(x + rest, [c])[0] == x + SplitOn(rest, [c])[0]
    decreases |x|
  {
    if x == [] {
      assert x + rest == rest;
    } else {
      var s := x + rest;
      assert s[0] == x[0] && s[..1] == [x[0]] && s[1..] == x[1..] + rest;
      FirstPieceAppend(x[1..], rest, c);
      assert [x[0]] + x[1..] == x;
    }
  }

  /** The first piece runs up to the first c: when x holds no c and is
      followed by c or by nothing, it is x. */
  lemma FirstPieceIs(x: string, rest: string, c: char)
    requires c !in x && (rest == [] || rest[0] == c)
    ensures SplitOn(x + rest, [c])[0] == x
  {
    FirstPieceAppend(x, rest, c);
    if rest != [] {
      assert rest[..1] == [c];
    }
    assert x + [] == x;
  }

  /** The first whitespace-free run of `s`. */
  function TakeWord(s: string): (w: string)
    ensures |w| <= |s| && w == s[..|w|]
    ensures forall i :: 0 <= i < |w| ==> !IsSpace(w[i])
    ensures |w| < |s| ==> IsSpace(s[|w|])
  {
    if s == [] || IsSpace(s[0]) then [] else [s[0]] + TakeWord(s[1..])
  }

  /** `s.split()`: the maximal runs of non-whitespace, in order. */
  function SplitWs(s: string): (r: seq<string>)
    ensures forall k :: 0 <= k < |r| ==> IsWord(r[k])
    decreases |s|
  {
    if s == [] then []
    else if IsSpace(s[0]) then SplitWs(s[1..])
    else
      var w := TakeWord(s);
      [w] + SplitWs(s[|w|..])
  }

  lemma {:induction false} TakeWordOfWord(w: string, t: string)
    requires forall i :: 0 <= i < |w| ==> !IsSpace(w[i])
    requires t == [] || IsSpace(t[0])
    ensures TakeWord(w + t) == w
    decreases |w|
  {
    if w != [] {
      assert (w + t)[1..] == w[1..] + t;
      TakeWordOfWord(w[1..], t);
    } else {
      assert w + t == t;
    }
  }

  /** A single word splits to itself. */
  lemma SplitWsWord(w: string)
    requires IsWord(w)
    ensures SplitWs(w) == [w]
  {
    TakeWordOfWord(w, []);
    assert w + [] == w;
    assert w[|w|..] == [];
  }

  /** `" ".join(words).split()` gives the words back. */
  lemma {:induction false} SplitWsJoin(ws: seq<string>)
    requires forall k :: 0 <= k < |ws| ==> IsWord(ws[k])
    ensures SplitWs(Join(" ", ws)) == ws
    decreases |ws|
  {
    if |ws| == 0 {
    } else if |ws| == 1 {
      SplitWsWord(ws[0]);
    } else {
      var w := ws[0];
      var rest := Join(" ", ws[1..]);
      var s := w + " " + rest;
      assert Join(" ", ws) == s;
      TakeWordOfWord(w, " " + rest);
      assert s == w + (" " + rest);
      assert s[|w|..] == " " + rest;
      assert (" " + rest)[1..] == rest;
      SplitWsJoin(ws[1..]);
      assert ws == [w] + ws[1..];
    }
  }

  /** `''.join(filter(str.isdigit, s))` */
  function Digits(s: string): (r: string)
    ensures AllDigits(r) && |r| <= |s|
    ensures AllDigits(s) ==> r == s
  {
    if s == [] then []
    else if IsDigit(s[0]) then [s[0]] + Digits(s[1..])
    else Digits(s[1..])
  }

  /** The digit filter works character by character: it distributes over
      concatenation ... */
  lemma {:induction false} DigitsAppend(a: string, b: string)
    ensures Digits(a + b) == Digits(a) + Digits(b)
    decreases |a|
  {
    if a == [] {
      assert a + b == b;
    } else {
      var ab := a + b;
      assert ab[0] == a[0] && ab[1..] == a[1..] + b;
      DigitsAppend(a[1..], b);
      if IsDigit(a[0]) {
        assert Digits(ab) == [a[0]] + (Digits(a[1..]) + Digits(b));
      }
    }
  }

  /** ... and keeps a single character exactly when it is a digit. */
  lemma DigitsOne(c: char)
    ensures Digits([c]) == if IsDigit(c) then [c] else []
  {
    assert [c][1..] == [];
  }

  /** `s[:n]` for n >= 0 */
  function Take(s: string, n: nat): (r: string)
    ensures |r| == (if n <= |s| then n else |s|) && r == s[..|r|]
  {
    if n <= |s| then s[..n] else s
  }

  /** `s[-n:]` for n > 0 */
  function TakeLast(s: string, n: nat): (r: string)
    requires n > 0
    ensures |r| == (if n <= |s| then n else |s|) && r == s[|s| - |r|..]
  {
    if n <= |s| then s[|s| - n..] else s
  }

  /** `s.replace(a, b)` for single characters a and b. */
  function ReplaceChar(s: string, a: char, b: char): (r: string)
    ensures |r| == |s|
    ensures forall i :: 0 <= i < |s| ==> r[i] == if s[i] == a then b else s[i]
  {
    seq(|s|, i requires 0 <= i < |s| => if s[i] == a then b else s[i])
  }

  /** Replacing a character that the pattern does not contain keeps every
      occurrence of the pattern. */
  lemma {:induction false} ReplaceCharKeeps(s: string, p: string, a: char, b: char)
    requires Contains(s, p) && a !in p
    ensures Contains(ReplaceChar(s, a, b), p)
    decreases |s|
  {
    var r := ReplaceChar(s, a, b);
    if s[..|p|] == p {
      assert r[..|p|] == p;
    } else {
      ReplaceCharKeeps(s[1..], p, a, b);
      assert r[1..] == ReplaceChar(s[1..], a, b);
    }
  }

  /** `s.replace(pat, '')`: delete every occurrence of pat, left to right and
      without overlaps; an empty pattern leaves s as it is. */
  function RemoveAll(s: string, pat: string): (r: string)
    ensures |r| <= |s|
    decreases |s|
  {
    if pat == [] || |s| < |pat| then s
    else if s[..|pat|] == pat then RemoveAll(s[|pat|..], pat)
    else [s[0]] + RemoveAll(s[1..], pat)
  }

  /** `s.replace(pat, '') == ''.join(s.split(pat))` */
  lemma {:induction false} RemoveAllIsJoinSplit(s: string, pat: string)
    requires pat != []
    ensures RemoveAll(s, pat) == Join("", SplitOn(s, pat))
    decreases |s|
  {
    if |s| < |pat| {
    } else if s[..|pat|] == pat {
      RemoveAllIsJoinSplit(s[|pat|..], pat);
      var rest := SplitOn(s[|pat|..], pat);
      assert ([""] + rest)[1..] == rest;
    } else {
      RemoveAllIsJoinSplit(s[1..], pat);
      var rest := SplitOn(s[1..], pat);
      var r := [[s[0]] + rest[0]] + rest[1..];
      if |rest| > 1 {
        assert r[1..] == rest[1..];
      }
    }
  }

  /** Deleting text never introduces a character. */
  lemma {:induction false} RemoveAllKeepsAbsent(s: string, pat: string, c: char)
    requires c !in s
    ensures c !in RemoveAll(s, pat)
    decreases |s|
  {
    if pat == [] || |s| < |pat| {
    } else if s[..|pat|] == pat {
      RemoveAllKeepsAbsent(s[|pat|..], pat, c);
    } else {
      RemoveAllKeepsAbsent(s[1..], pat, c);
    }
  }

  /** `c * n` for a one-character string c. */
  function Repeat(c: char, n: nat): (r: string)
    ensures |r| == n && forall i :: 0 <= i < n ==> r[i] == c
  {
    if n == 0 then [] else [c] + Repeat(c, n - 1)
  }

  /** `str(n)` for an int: decimal digits, with a leading '-' when negative. */
  function IntToString(n: int): (r: string)
    ensures r != []
  {
    if n < 0 then "-" + NatToString(-n) else NatToString(n)
  }

  function NatToString(n: nat): (r: string)
    ensures r != [] && AllDigits(r)
  {
    var d := ['0' + (n % 10) as char];
    if n < 10 then d else NatToString(n / 10) + d
  }

  /** `''.join(parts)` */
  function Concat(parts: seq<string>): string
    decreases |parts|
  {
    if parts == [] then "" else parts[0] + Concat(parts[1..])
  }

  lemma {:induction false} ConcatAppend(a: seq<string>, b: seq<string>)
    ensures Concat(a + b) == Concat(a) + Concat(b)
    decreases |a|
  {
    if a == [] {
      assert a + b == b;
    } else {
      ConcatAppend(a[1..], b);
      assert (a + b)[1..] == a[1..] + b;
    }
  }

  /** How many times c occurs in s. */
  function CountChar(s: string, c: char): nat
    decreases |s|
  {
    if s == [] then 0 else (if s[0] == c then 1 else 0) + CountChar(s[1..], c)
  }

  lemma {:induction false} CountCharAppend(a: string, b: string, c: char)
    ensures CountChar(a + b, c) == CountChar(a, c) + CountChar(b, c)
    decreases |a|
  {
    if a == [] {
      assert a + b == b;
    } else {
      CountCharAppend(a[1..], b, c);
      assert (a + b)[1..] == a[1..] + b;
    }
  }

  lemma {:induction false} CountCharAbsent(s: string, c: char)
    requires c !in s
    ensures CountChar(s, c) == 0
    decreases |s|
  {
    if s != [] {
      CountCharAbsent(s[1..], c);
    }
  }
}
