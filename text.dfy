/** The Python string methods the programs rely on: `strip`, `strip(c)`,
    `lower`, `find`, `rfind`, `in`, `split(sep)`, `split()`, `sep.join`
    and `str(n)`, over `seq<char>`. Whitespace is the six ASCII whitespace
    characters and lower-casing is ASCII lower-casing. */
module Text {

  const Whitespace: set<char> := {' ', '\t', '\n', '\r', '\U{000B}', '\U{000C}'}

  predicate IsSpace(c: char) {
    c in Whitespace
  }

  /** Drops the longest prefix whose characters belong to drop. */
  function TrimStartWhile(s: string, drop: set<char>): (r: string)
    ensures |r| <= |s|
    ensures r == [] || r[0] !in drop
    decreases |s|
  {
    if s != [] && s[0] in drop then TrimStartWhile(s[1..], drop) else s
  }

  /** What is left is a suffix of s, and every character dropped belongs to
      drop. */
  lemma {:induction false} TrimStartIsSuffix(s: string, drop: set<char>)
    ensures TrimStartWhile(s, drop) == s[|s| - |TrimStartWhile(s, drop)|..]
    ensures forall i :: 0 <= i < |s| - |TrimStartWhile(s, drop)| ==> s[i] in drop
    decreases |s|
  {
    if s != [] && s[0] in drop {
      TrimStartIsSuffix(s[1..], drop);
    }
  }

  /** Drops the longest suffix whose characters belong to drop. */
  function TrimEndWhile(s: string, drop: set<char>): (r: string)
    ensures |r| <= |s|
    ensures r == [] || r[|r| - 1] !in drop
    decreases |s|
  {
    if s != [] && s[|s| - 1] in drop then TrimEndWhile(s[..|s| - 1], drop) else s
  }

  /** What is left is a prefix of s, and every character dropped belongs to
      drop. */
  lemma {:induction false} TrimEndIsPrefix(s: string, drop: set<char>)
    ensures TrimEndWhile(s, drop) == s[..|TrimEndWhile(s, drop)|]
    ensures forall i :: |TrimEndWhile(s, drop)| <= i < |s| ==> s[i] in drop
    decreases |s|
  {
    if s != [] && s[|s| - 1] in drop {
      TrimEndIsPrefix(s[..|s| - 1], drop);
    }
  }

  /** Drops the characters of drop at both ends. */
  function StripWhile(s: string, drop: set<char>): (r: string)
    ensures |r| <= |s|
    ensures r == [] || (r[0] !in drop && r[|r| - 1] !in drop)
  {
    var t := TrimStartWhile(s, drop);
    TrimEndIsPrefix(t, drop);
    TrimEndWhile(t, drop)
  }

  /** `s.strip()`. */
  function Strip(s: string): (r: string)
    ensures |r| <= |s|
    ensures r == [] || (!IsSpace(r[0]) && !IsSpace(r[|r| - 1]))
  {
    StripWhile(s, Whitespace)
  }

  /** `s.strip(c)` for a one-character argument. */
  function StripChar(s: string, c: char): (r: string)
    ensures |r| <= |s|
    ensures r == [] || (r[0] != c && r[|r| - 1] != c)
  {
    StripWhile(s, {c})
  }

  /** What `StripWhile` keeps is one contiguous slice of s, starting at the
      number of characters dropped from the front; everything outside the
      slice belongs to drop. */
  lemma StripWhileRemovesOnly(s: string, drop: set<char>)
    ensures var r := StripWhile(s, drop);
            var a := |s| - |TrimStartWhile(s, drop)|;
            a + |r| <= |s| && r == s[a..a + |r|] &&
            (forall i :: 0 <= i < a ==> s[i] in drop) &&
            (forall i :: a + |r| <= i < |s| ==> s[i] in drop)
  {
    var t := TrimStartWhile(s, drop);
    var a := |s| - |t|;
    TrimStartIsSuffix(s, drop);
    TrimEndIsPrefix(t, drop);
    var r := TrimEndWhile(t, drop);
    assert r == t[..|r|];
    assert t == s[a..];
    assert r == s[a..a + |r|];
    forall i | a + |r| <= i < |s|
      ensures s[i] in drop
    {
      assert s[i] == t[i - a];
    }
  }

  /** `strip()` removes only whitespace, and only at the two ends. */
  lemma StripRemovesOnlySpace(s: string)
    ensures var r := Strip(s);
            var a := |s| - |TrimStartWhile(s, Whitespace)|;
            a + |r| <= |s| && r == s[a..a + |r|] &&
            (forall i :: 0 <= i < a ==> IsSpace(s[i])) &&
            (forall i :: a + |r| <= i < |s| ==> IsSpace(s[i]))
  {
    StripWhileRemovesOnly(s, Whitespace);
    var r := Strip(s);
    var a := |s| - |TrimStartWhile(s, Whitespace)|;
    assert r == StripWhile(s, Whitespace);
    forall i | 0 <= i < a || a + |r| <= i < |s|
      ensures IsSpace(s[i])
    {
      assert s[i] in Whitespace;
    }
  }

  /** `strip(c)` removes only copies of c, and only at the two ends. */
  lemma StripCharRemovesOnly(s: string, c: char)
    ensures var r := StripChar(s, c);
            var a := |s| - |TrimStartWhile(s, {c})|;
            a + |r| <= |s| && r == s[a..a + |r|] &&
            (forall i :: 0 <= i < a ==> s[i] == c) &&
            (forall i :: a + |r| <= i < |s| ==> s[i] == c)
  {
    StripWhileRemovesOnly(s, {c});
    var r := StripChar(s, c);
    var a := |s| - |TrimStartWhile(s, {c})|;
    assert r == StripWhile(s, {c});
    assert a + |r| <= |s| && r == s[a..a + |r|] &&
           (forall i :: 0 <= i < a ==> s[i] == c) &&
           (forall i :: a + |r| <= i < |s| ==> s[i] == c);
  }

  /** A string that `strip()` leaves as it is. */
  predicate IsStripped(s: string) {
    s == [] || (!IsSpace(s[0]) && !IsSpace(s[|s| - 1]))
  }

  lemma StripOfStripped(s: string)
    requires IsStripped(s)
    ensures Strip(s) == s
  {
    assert TrimStartWhile(s, Whitespace) == s;
    assert TrimEndWhile(s, Whitespace) == s;
  }

  /** `strip()` is idempotent. */
  lemma StripIdempotent(s: string)
    ensures Strip(Strip(s)) == Strip(s)
  {
    StripOfStripped(Strip(s));
  }

  /** Leading whitespace of x is all that `strip()` removes in front of y
      when y starts with a non-space character. */
  lemma {:induction false} TrimStartAppend(x: string, y: string)
    requires y != [] && !IsSpace(y[0])
    ensures TrimStartWhile(x + y, Whitespace) == TrimStartWhile(x, Whitespace) + y
    decreases |x|
  {
    if x == [] {
      assert x + y == y;
    } else if IsSpace(x[0]) {
      assert (x + y)[1..] == x[1..] + y;
      TrimStartAppend(x[1..], y);
    }
  }

  /** Symmetrically, trailing whitespace of y is all that `strip()` removes
      behind x when x ends with a non-space character. */
  lemma {:induction false} TrimEndPrepend(x: string, y: string)
    requires x != [] && !IsSpace(x[|x| - 1])
    ensures TrimEndWhile(x + y, Whitespace) == x + TrimEndWhile(y, Whitespace)
    decreases |y|
  {
    if y == [] {
      assert x + y == x;
    } else if IsSpace(y[|y| - 1]) {
      assert (x + y)[..|x + y| - 1] == x + y[..|y| - 1];
      TrimEndPrepend(x, y[..|y| - 1]);
    } else {
      assert (x + y)[|x + y| - 1] == y[|y| - 1];
    }
  }

  /** ASCII lower-casing of one character. */
  function LowerChar(c: char): char {
    if 'A' <= c <= 'Z' then (c as int + 32) as char else c
  }

  /** `s.lower()`. */
  function Lower(s: string): (r: string)
    ensures |r| == |s|
    ensures forall i :: 0 <= i < |s| ==> r[i] == LowerChar(s[i])
  {
    seq(|s|, i requires 0 <= i < |s| => LowerChar(s[i]))
  }

  /** `s.find(c)`: the index of the first c, or -1. */
  function Find(s: string, c: char): (i: int)
    ensures -1 <= i < |s|
    ensures i == -1 <==> c !in s
    ensures 0 <= i ==> s[i] == c && c !in s[..i]
  {
    if s == [] then -1
    else if s[0] == c then 0
    else
      var k := Find(s[1..], c);
      assert c !in s[1..] ==> c !in s by {
        assert s == [s[0]] + s[1..];
      }
      if k == -1 then -1
      else
        assert s[..k + 1] == [s[0]] + s[1..][..k];
        k + 1
  }

  /** `s.rfind(c)`: the index of the last c, or -1. */
  function RFind(s: string, c: char): (i: int)
    ensures -1 <= i < |s|
    ensures i == -1 <==> c !in s
    ensures 0 <= i ==> s[i] == c && c !in s[i + 1..]
    decreases |s|
  {
    if s == [] then -1
    else if s[|s| - 1] == c then |s| - 1
    else
      var k := RFind(s[..|s| - 1], c);
      assert s == s[..|s| - 1] + [s[|s| - 1]];
      if k == -1 then -1
      else
        assert s[k + 1..] == s[..|s| - 1][k + 1..] + [s[|s| - 1]];
        k
  }

  lemma FindIsFirst(s: string, c: char, i: nat)
    requires i < |s| && s[i] == c && c !in s[..i]
    ensures Find(s, c) == i
  {
    assert c in s by { assert s[i] == c; }
  }

  lemma RFindIsLast(s: string, c: char, i: nat)
    requires i < |s| && s[i] == c && c !in s[i + 1..]
    ensures RFind(s, c) == i
  {
    assert c in s by { assert s[i] == c; }
  }

  /** `sub in s`. */
  predicate ContainsSub(s: string, sub: string)
    ensures ContainsSub(s, sub) ==> |sub| <= |s|
    decreases |s|
  {
    sub <= s || (s != [] && ContainsSub(s[1..], sub))
  }

  /** Text in front does not hide a substring. */
  lemma {:induction false} ContainsSubAfter(x: string, s: string, sub: string)
    requires ContainsSub(s, sub)
    ensures ContainsSub(x + s, sub)
    decreases |x|
  {
    if x == [] {
      assert x + s == s;
    } else {
      assert (x + s)[1..] == x[1..] + s;
      ContainsSubAfter(x[1..], s, sub);
    }
  }

  /** Text behind does not hide a substring. */
  lemma {:induction false} ContainsSubBefore(s: string, y: string, sub: string)
    requires ContainsSub(s, sub)
    ensures ContainsSub(s + y, sub)
    decreases |s|
  {
    if sub <= s {
      assert sub <= s + y;
    } else {
      assert (s + y)[1..] == s[1..] + y;
      ContainsSubBefore(s[1..], y, sub);
    }
  }

  /** A substring of a piece is a substring of the concatenation. */
  lemma ContainsWithin(x: string, m: string, y: string, sub: string)
    requires ContainsSub(m, sub)
    ensures ContainsSub(x + m + y, sub)
  {
    ContainsSubBefore(m, y, sub);
    ContainsSubAfter(x, m + y, sub);
    assert x + m + y == x + (m + y);
  }

  /** A piece of a concatenation is a substring of it. */
  lemma ContainsPiece(x: string, m: string, y: string)
    ensures ContainsSub(x + m + y, m)
  {
    assert m <= m + y;
    ContainsSubAfter(x, m + y, m);
    assert x + m + y == x + (m + y);
  }

  /** Both pieces of a five-part concatenation are substrings of it. */
  lemma ContainsPieces(a: string, x: string, b: string, y: string, c: string)
    ensures ContainsSub(a + x + b + y + c, x) && ContainsSub(a + x + b + y + c, y)
  {
    ContainsPiece(a, x, b + y + c);
    assert a + x + b + y + c == a + x + (b + y + c);
    ContainsPiece(a + x + b, y, c);
  }

  /** A non-empty needle whose first character does not occur in s does
      not occur in s. */
  lemma {:induction false} NotContainsSub(s: string, sub: string)
    requires sub != [] && sub[0] !in s
    ensures !ContainsSub(s, sub)
    decreases |s|
  {
    if s != [] {
      assert s[0] != sub[0];
      assert sub[0] !in s[1..] by {
        assert s == [s[0]] + s[1..];
      }
      NotContainsSub(s[1..], sub);
    }
  }

  /** `s.split(sep)` for a non-empty separator. */
  function SplitOn(s: string, sep: string): (parts: seq<string>)
    requires sep != []
    ensures |parts| >= 1
  {
    SplitFrom(s, sep, "")
  }

  /** The pieces of s, the first of which starts with cur. */
  function SplitFrom(s: string, sep: string, cur: string): (parts: seq<string>)
    requires sep != []
    ensures |parts| >= 1
    decreases |s|
  {
    if s == [] then [cur]
    else if sep <= s then [cur] + SplitFrom(s[|sep|..], sep, "")
    else SplitFrom(s[1..], sep, cur + [s[0]])
  }

  /** Text that cannot start an occurrence of the separator passes into the
      current piece unchanged. */
  lemma {:induction false} SplitFromSkip(x: string, rest: string, sep: string, cur: string)
    requires sep != [] && sep[0] !in x
    ensures SplitFrom(x + rest, sep, cur) == SplitFrom(rest, sep, cur + x)
    decreases |x|
  {
    if x == [] {
      assert x + rest == rest && cur + x == cur;
    } else {
      assert (x + rest)[0] == x[0] != sep[0];
      assert !(sep <= x + rest);
      assert (x + rest)[1..] == x[1..] + rest;
      assert sep[0] !in x[1..] by {
        assert x == [x[0]] + x[1..];
      }
      SplitFromSkip(x[1..], rest, sep, cur + [x[0]]);
      assert cur + [x[0]] + x[1..] == cur + x;
    }
  }

  /** A separator at the front closes the current piece. */
  lemma SplitFromSep(rest: string, sep: string, cur: string)
    requires sep != []
    ensures SplitFrom(sep + rest, sep, cur) == [cur] + SplitFrom(rest, sep, "")
  {
    assert sep <= sep + rest;
    assert (sep + rest)[|sep|..] == rest;
  }

  /** `s.split("\n", 1)[-1]`: what follows the first newline. */
  function AfterFirst(s: string, c: char): (r: string)
    requires c in s
    ensures r == s[Find(s, c) + 1..]
  {
    s[Find(s, c) + 1..]
  }

  /** A maximal run of non-space characters, as `split()` yields it. */
  predicate IsWord(w: string) {
    w != [] && forall i :: 0 <= i < |w| ==> !IsSpace(w[i])
  }

  /** The longest prefix of s without whitespace. */
  function TakeWord(s: string): (w: string)
    ensures w <= s
    ensures forall i :: 0 <= i < |w| ==> !IsSpace(w[i])
    ensures |w| == |s| || IsSpace(s[|w|])
  {
    if s == [] || IsSpace(s[0]) then [] else [s[0]] + TakeWord(s[1..])
  }

  lemma {:induction false} TakeWordOf(w: string, x: string)
    requires forall i :: 0 <= i < |w| ==> !IsSpace(w[i])
    requires x == [] || IsSpace(x[0])
    ensures TakeWord(w + x) == w
    decreases |w|
  {
    if w == [] {
      assert w + x == x;
    } else {
      assert (w + x)[0] == w[0];
      assert (w + x)[1..] == w[1..] + x;
      TakeWordOf(w[1..], x);
      assert [w[0]] + w[1..] == w;
    }
  }

  /** `s.split()`: the words of s, in order. */
  function Words(s: string): (ws: seq<string>)
    ensures forall w <- ws :: IsWord(w)
    decreases |s|
  {
    var t := TrimStartWhile(s, Whitespace);
    if t == [] then []
    else
      var w := TakeWord(t);
      assert IsWord(w) by {
        assert !IsSpace(t[0]);
        assert w != [];
      }
      var rest := Words(t[|w|..]);
      assert forall v <- [w] + rest :: v == w || v in rest;
      [w] + rest
  }

  /** `sep.join(ws)`. */
  function JoinWith(ws: seq<string>, sep: string): string {
    if |ws| == 0 then ""
    else if |ws| == 1 then ws[0]
    else ws[0] + sep + JoinWith(ws[1..], sep)
  }

  /** Every element of a joined list is a substring of the result. */
  lemma {:induction false} JoinContains(ws: seq<string>, sep: string, k: nat)
    requires k < |ws|
    ensures ContainsSub(JoinWith(ws, sep), ws[k])
    decreases |ws|
  {
    if |ws| == 1 {
      ContainsPiece([], ws[0], []);
      assert [] + ws[0] + [] == ws[0];
    } else if k == 0 {
      ContainsPiece([], ws[0], sep + JoinWith(ws[1..], sep));
      assert [] + ws[0] + (sep + JoinWith(ws[1..], sep)) == JoinWith(ws, sep);
    } else {
      JoinContains(ws[1..], sep, k - 1);
      ContainsSubAfter(ws[0] + sep, JoinWith(ws[1..], sep), ws[k]);
      assert (ws[0] + sep) + JoinWith(ws[1..], sep) == JoinWith(ws, sep);
    }
  }

  lemma WordsAfterSpace(c: char, s: string)
    requires IsSpace(c)
    ensures Words([c] + s) == Words(s)
  {
    assert ([c] + s)[1..] == s;
    assert TrimStartWhile([c] + s, Whitespace) == TrimStartWhile(s, Whitespace);
  }

  lemma WordsOfWord(w: string)
    requires IsWord(w)
    ensures Words(w) == [w]
  {
    assert TrimStartWhile(w, Whitespace) == w;
    TakeWordOf(w, "");
    assert w + "" == w;
    assert w[|w|..] == "";
  }

  lemma WordsCons(w: string, j: string)
    requires IsWord(w)
    ensures Words(w + " " + j) == [w] + Words(j)
  {
    var s := w + " " + j;
    assert s[0] == w[0];
    assert TrimStartWhile(s, Whitespace) == s;
    assert s == w + (" " + j);
    TakeWordOf(w, " " + j);
    assert s[|w|..] == [' '] + j;
    WordsAfterSpace(' ', j);
  }

  /** Splitting words joined by single spaces gives the words back. */
  lemma {:induction false} WordsOfJoin(ws: seq<string>)
    requires forall w <- ws :: IsWord(w)
    ensures Words(JoinWith(ws, " ")) == ws
  {
    if |ws| == 0 {
    } else if |ws| == 1 {
      assert ws[0] in ws;
      WordsOfWord(ws[0]);
    } else {
      assert ws[0] in ws;
      WordsCons(ws[0], JoinWith(ws[1..], " "));
      assert forall v <- ws[1..] :: v in ws;
      WordsOfJoin(ws[1..]);
      assert ws == [ws[0]] + ws[1..];
    }
  }

  /** `str(n)` for a natural number. */
  function NatToString(n: nat): (r: string)
    ensures r != []
    ensures forall i :: 0 <= i < |r| ==> '0' <= r[i] <= '9'
    ensures |r| > 1 ==> r[0] != '0'
    ensures DecimalValue(r) == n
  {
    if n < 10 then [Digit(n)]
    else
      var r := NatToString(n / 10) + [Digit(n % 10)];
      assert r[..|r| - 1] == NatToString(n / 10);
      r
  }

  /** The character of one decimal digit. */
  function Digit(d: nat): (c: char)
    requires d < 10
    ensures '0' <= c <= '9'
    ensures (c as int) - ('0' as int) == d
  {
    (('0' as int) + d) as char
  }

  /** The number a string of decimal digits denotes, most significant digit
      first. */
  function DecimalValue(s: string): nat
    requires forall i :: 0 <= i < |s| ==> '0' <= s[i] <= '9'
  {
    if s == [] then 0
    else DecimalValue(s[..|s| - 1]) * 10 + ((s[|s| - 1] as int) - ('0' as int))
  }
}
