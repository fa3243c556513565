/** String primitives with the meaning Python's `str` methods give them:
    `isspace`, `lower`, `upper`, `strip`, `rstrip`, `in`, `split('\n')`,
    `'\n'.join`, `replace(w, "")` and `str(n)` for a natural number. */
module Text {

  datatype Option<T> = None | Some(value: T)

  /** Python's whitespace: what `str.isspace`, `str.strip` and the regex
      class `\s` treat as white space. */
  predicate IsSpace(c: char)
  {
    || c == ' ' || c == '\t' || c == '\n' || c == '\r'
    || c == '\U{B}' || c == '\U{C}'
    || ('\U{1C}' <= c <= '\U{1F}')
    || c == '\U{85}' || c == '\U{A0}' || c == '\U{1680}'
    || ('\U{2000}' <= c <= '\U{200A}')
    || c == '\U{2028}' || c == '\U{2029}' || c == '\U{202F}' || c == '\U{205F}' || c == '\U{3000}'
  }

  function LowerChar(c: char): char
  {
    if 'A' <= c <= 'Z' then (c as int + 32) as char else c
  }

  function UpperChar(c: char): char
  {
    if 'a' <= c <= 'z' then (c as int - 32) as char else c
  }

  /** `s.lower()` on the ASCII letters. */
  function Lower(s: string): (r: string)
    ensures |r| == |s|
    ensures forall i :: 0 <= i < |s| ==> r[i] == LowerChar(s[i])
  {
    seq(|s|, i requires 0 <= i < |s| => LowerChar(s[i]))
  }

  /** `s.upper()` on the ASCII letters. */
  function Upper(s: string): (r: string)
    ensures |r| == |s|
    ensures forall i :: 0 <= i < |s| ==> r[i] == UpperChar(s[i])
  {
    seq(|s|, i requires 0 <= i < |s| => UpperChar(s[i]))
  }

  /** Upper-casing forgets any earlier lower-casing. */
  lemma UpperOfLower(s: string)
    ensures Upper(Lower(s)) == Upper(s)
  {
    forall i | 0 <= i < |s|
      ensures Upper(Lower(s))[i] == Upper(s)[i]
    {
      var c := s[i];
      if 'A' <= c <= 'Z' {
        assert LowerChar(c) as int == c as int + 32;
      }
    }
  }

  /** Lower-casing forgets any earlier upper-casing. */
  lemma LowerOfUpper(s: string)
    ensures Lower(Upper(s)) == Lower(s)
  {
    forall i | 0 <= i < |s|
      ensures Lower(Upper(s))[i] == Lower(s)[i]
    {
      var c := s[i];
      if 'a' <= c <= 'z' {
        assert UpperChar(c) as int == c as int - 32;
      }
    }
  }

  predicate StartsWith(s: string, p: string)
  {
    |p| <= |s| && s[..|p|] == p
  }

  lemma StartsWithPrefix(s: string, p: string, q: string)
    requires StartsWith(s, p + q)
    ensures StartsWith(s, p)
  {
    assert s[..|p|] == (p + q)[..|p|];
  }

  lemma StartsWithPrepend(a: string, s: string, p: string)
    requires StartsWith(s, p)
    ensures StartsWith(a + s, a + p)
  {
    assert (a + s)[..|a + p|] == a + s[..|p|];
  }

  lemma AppendAssoc<T>(x: seq<T>, y: seq<T>, z: seq<T>)
    ensures (x + y) + z == x + (y + z)
  {
  }

  /** Some word of `words` is a substring of `text`. */
  predicate Mentions(text: string, words: seq<string>)
  {
    exists i :: 0 <= i < |words| && Contains(text, words[i])
  }

  /** `any(word in text for word in words)` */
  function AnyIn(text: string, words: seq<string>): (b: bool)
    ensures b <==> Mentions(text, words)
  {
    if |words| == 0 then false
    else if Contains(text, words[0]) then true
    else
      assert forall i :: 1 <= i < |words| ==> words[i] == words[1..][i - 1];
      AnyIn(text, words[1..])
  }

  predicate EndsWith(s: string, p: string)
  {
    |p| <= |s| && s[|s| - |p|..] == p
  }

  /** `sub in s`: `sub` occurs as a contiguous piece of `s`. */
  predicate Contains(s: string, sub: string)
    decreases |s|
  {
    StartsWith(s, sub) || (|s| > 0 && Contains(s[1..], sub))
  }

  /** `sub` sits in `s` at index `i`. */
  predicate OccursAt(s: string, sub: string, i: int)
  {
    0 <= i <= |s| - |sub| && s[i..i + |sub|] == sub
  }

  /** `sub in s` holds exactly when `sub` sits at some index of `s`. */
  lemma {:induction false} ContainsAt(s: string, sub: string)
    ensures Contains(s, sub) <==> exists i :: OccursAt(s, sub, i)
    decreases |s|
  {
    if StartsWith(s, sub) {
      assert OccursAt(s, sub, 0);
    } else if |s| == 0 {
    } else {
      ContainsAt(s[1..], sub);
      if exists i :: OccursAt(s, sub, i) {
        var i :| OccursAt(s, sub, i);
        assert i != 0;
        assert OccursAt(s[1..], sub, i - 1);
      }
      if Contains(s[1..], sub) {
        var i :| OccursAt(s[1..], sub, i);
        assert OccursAt(s, sub, i + 1);
      }
    }
  }

  /** Whatever contains `sub` is still found inside a larger string. */
  lemma ContainsInfix(a: string, s: string, b: string, sub: string)
    requires Contains(s, sub)
    ensures Contains(a + s + b, sub)
  {
    ContainsAt(s, sub);
    var i :| OccursAt(s, sub, i);
    assert (a + s + b)[|a| + i..|a| + i + |sub|] == sub;
    assert OccursAt(a + s + b, sub, |a| + i);
    ContainsAt(a + s + b, sub);
  }

  /** A contained piece that has character `c` puts `c` into the string. */
  lemma ContainsChar(s: string, sub: string, c: char)
    requires Contains(s, sub) && c in sub
    ensures c in s
  {
    ContainsAt(s, sub);
    var i :| OccursAt(s, sub, i);
    var k :| 0 <= k < |sub| && sub[k] == c;
    assert s[i + k] == c;
  }

  /** `s.endswith(' ') or s.endswith('\t')` */
  predicate EndsWithSpaceOrTab(s: string)
  {
    |s| > 0 && (s[|s| - 1] == ' ' || s[|s| - 1] == '\t')
  }

  /** `s.rstrip()`: the longest prefix of `s` that does not end in white space. */
  function RStrip(s: string): (r: string)
    ensures |r| <= |s| && r == s[..|r|]
    ensures |r| == 0 || !IsSpace(r[|r| - 1])
    decreases |s|
  {
    if |s| > 0 && IsSpace(s[|s| - 1]) then RStrip(s[..|s| - 1]) else s
  }

  /** What `rstrip()` drops is white space. */
  lemma {:induction false} RStripDropsSpace(s: string)
    ensures forall i :: |RStrip(s)| <= i < |s| ==> IsSpace(s[i])
    decreases |s|
  {
    if |s| > 0 && IsSpace(s[|s| - 1]) {
      var front := s[..|s| - 1];
      RStripDropsSpace(front);
      assert forall i :: 0 <= i < |front| ==> front[i] == s[i];
    }
  }

  /** `s.lstrip()`: what is left of `s` after its leading white space. */
  function LStrip(s: string): (r: string)
    ensures |r| <= |s| && r == s[|s| - |r|..]
    ensures |r| == 0 || !IsSpace(r[0])
    decreases |s|
  {
    if |s| > 0 && IsSpace(s[0]) then LStrip(s[1..]) else s
  }

  /** What `lstrip()` drops is white space. */
  lemma {:induction false} LStripDropsSpace(s: string)
    ensures forall i :: 0 <= i < |s| - |LStrip(s)| ==> IsSpace(s[i])
    decreases |s|
  {
    if |s| > 0 && IsSpace(s[0]) {
      var rest := s[1..];
      LStripDropsSpace(rest);
      assert forall i :: 1 <= i < |s| ==> rest[i - 1] == s[i];
    }
  }

  /** `s.strip()` */
  function Strip(s: string): (r: string)
    ensures |r| <= |s|
    ensures |r| == 0 || (!IsSpace(r[0]) && !IsSpace(r[|r| - 1]))
  {
    RStrip(LStrip(s))
  }

  /** `r` sits at `k` in `s` with only white space around it. */
  predicate Surrounded(s: string, r: string, k: int)
  {
    && 0 <= k <= |s| - |r| && s[k..k + |r|] == r
    && (forall i :: 0 <= i < k ==> IsSpace(s[i]))
    && (forall i :: k + |r| <= i < |s| ==> IsSpace(s[i]))
  }

  /** `s.strip()` is a slice of `s` with only white space around it. */
  lemma StripSlice(s: string)
    ensures Surrounded(s, Strip(s), |s| - |LStrip(s)|)
  {
    StripPartsSlice(s);
  }

  /** The same, with `strip` written as `rstrip` after `lstrip`. */
  lemma StripPartsSlice(s: string)
    ensures Surrounded(s, RStrip(LStrip(s)), |s| - |LStrip(s)|)
  {
    LStripSlice(s);
    RStripSlice(LStrip(s));
    SurroundedWithin(s, LStrip(s), |s| - |LStrip(s)|, RStrip(LStrip(s)), 0);
  }

  /** `lstrip` drops only leading white space and keeps a suffix. */
  lemma LStripSlice(s: string)
    ensures Surrounded(s, LStrip(s), |s| - |LStrip(s)|)
  {
    LStripDropsSpace(s);
  }

  /** `rstrip` drops only trailing white space and keeps a prefix. */
  lemma RStripSlice(s: string)
    ensures Surrounded(s, RStrip(s), 0)
  {
    RStripDropsSpace(s);
  }

  /** A slice surrounded by white space inside a suffix surrounded by white
      space is surrounded by white space in the whole. */
  lemma SurroundedWithin(s: string, l: string, k: int, r: string, j: int)
    requires Surrounded(s, l, k) && k + |l| == |s|
    requires Surrounded(l, r, j)
    ensures Surrounded(s, r, k + j)
  {
    forall i | 0 <= i < |r|
      ensures s[k + j + i] == r[i]
    {
      assert s[k + j + i] == l[j + i];
    }
    assert s[k + j..k + j + |r|] == r;
    forall i | k + j + |r| <= i < |s|
      ensures IsSpace(s[i])
    {
      assert s[i] == l[i - k];
    }
    forall i | k <= i < k + j
      ensures IsSpace(s[i])
    {
      assert s[i] == l[i - k];
    }
  }

  /** A string without white space at its end is its own `rstrip()`. */
  lemma RStripNoTrailing(s: string)
    requires |s| == 0 || !IsSpace(s[|s| - 1])
    ensures RStrip(s) == s
  {
  }

  /** `rstrip()` is idempotent. */
  lemma RStripIdempotent(s: string)
    ensures RStrip(RStrip(s)) == RStrip(s)
  {
    RStripNoTrailing(RStrip(s));
  }

  /** Right-stripping never introduces a newline. */
  lemma RStripKeepsNoNewline(s: string)
    requires '\n' !in s
    ensures '\n' !in RStrip(s)
  {
    var r := RStrip(s);
    assert forall i :: 0 <= i < |r| ==> r[i] == s[i];
  }

  /** `s.split('\n')`: the pieces between newlines, at least one. */
  function Split(s: string): (r: seq<string>)
    ensures |r| >= 1
    ensures forall i :: 0 <= i < |r| ==> '\n' !in r[i]
    decreases |s|
  {
    if |s| == 0 then [""]
    else
      var rest := Split(s[1..]);
      if s[0] == '\n' then [""] + rest
      else [[s[0]] + rest[0]] + rest[1..]
  }

  /** `'\n'.join(lines)` */
  function Join(lines: seq<string>): string
    decreases |lines|
  {
    if |lines| == 0 then ""
    else if |lines| == 1 then lines[0]
    else lines[0] + "\n" + Join(lines[1..])
  }

  predicate NoNewlines(lines: seq<string>)
  {
    forall i :: 0 <= i < |lines| ==> '\n' !in lines[i]
  }

  /** Joining the pieces of a split gives back the string. */
  lemma {:induction false} JoinSplit(s: string)
    ensures Join(Split(s)) == s
    decreases |s|
  {
    if |s| > 0 {
      var rest := Split(s[1..]);
      JoinSplit(s[1..]);
      if s[0] == '\n' {
        assert Split(s) == [""] + rest;
        assert Join(Split(s)) == "" + "\n" + Join(rest);
      } else if |rest| == 1 {
        assert Join(Split(s)) == [s[0]] + rest[0];
      } else {
        assert Split(s)[1..] == rest[1..];
        assert Join(Split(s)) == [s[0]] + rest[0] + "\n" + Join(rest[1..]);
        assert Join(rest) == rest[0] + "\n" + Join(rest[1..]);
      }
    }
  }

  /** A piece without newline, then a newline: split cuts exactly there. */
  lemma {:induction false} SplitCons(a: string, rest: string)
    requires '\n' !in a
    ensures Split(a + "\n" + rest) == [a] + Split(rest)
    decreases |a|
  {
    if |a| == 0 {
      assert a + "\n" + rest == "\n" + rest;
      assert ("\n" + rest)[1..] == rest;
    } else {
      SplitCons(a[1..], rest);
      assert (a + "\n" + rest)[1..] == a[1..] + "\n" + rest;
      assert [a[0]] + a[1..] == a;
    }
  }

  /** A string without newline splits into itself alone. */
  lemma {:induction false} SplitSingle(a: string)
    requires '\n' !in a
    ensures Split(a) == [a]
    decreases |a|
  {
    if |a| > 0 {
      SplitSingle(a[1..]);
      assert [a[0]] + a[1..] == a;
    }
  }

  /** Splitting the join of newline-free lines gives back the lines, so a
      rewrite that keeps the lines newline-free keeps the line count. */
  lemma {:induction false} SplitJoin(lines: seq<string>)
    requires |lines| >= 1 && NoNewlines(lines)
    ensures Split(Join(lines)) == lines
    decreases |lines|
  {
    if |lines| == 1 {
      SplitSingle(lines[0]);
    } else {
      SplitJoin(lines[1..]);
      SplitCons(lines[0], Join(lines[1..]));
      assert [lines[0]] + lines[1..] == lines;
    }
  }

  /** `s.replace(w, "")`: every occurrence of `w`, found left to right
      without overlap, is cut out. An empty `w` leaves `s` as it is. */
  function RemoveAll(s: string, w: string): string
    decreases |s|
  {
    if |w| == 0 || |s| < |w| then s
    else if s[..|w|] == w then RemoveAll(s[|w|..], w)
    else [s[0]] + RemoveAll(s[1..], w)
  }

  /** Removing a non-empty `w` shortens the string exactly when `w` occurs. */
  lemma {:induction false} RemoveAllShortens(s: string, w: string)
    requires |w| > 0
    ensures |RemoveAll(s, w)| <= |s|
    ensures |RemoveAll(s, w)| < |s| <==> Contains(s, w)
    ensures !Contains(s, w) ==> RemoveAll(s, w) == s
    decreases |s|
  {
    if |s| < |w| {
      if Contains(s, w) {
        ContainsAt(s, w);
      }
    } else if s[..|w|] == w {
      RemoveAllShortens(s[|w|..], w);
    } else {
      RemoveAllShortens(s[1..], w);
      assert [s[0]] + s[1..] == s;
    }
  }

  function DigitChar(d: nat): char
    requires d < 10
  {
    ("0123456789")[d]
  }

  function DigitValue(c: char): int
  {
    c as int - '0' as int
  }

  /** `str(n)` for a natural number: its decimal digits. */
  function NatToString(n: nat): (r: string)
    ensures |r| >= 1
    ensures forall i :: 0 <= i < |r| ==> '0' <= r[i] <= '9'
    decreases n
  {
    if n < 10 then [DigitChar(n)] else NatToString(n / 10) + [DigitChar(n % 10)]
  }

  /** `int(s)` for a string of decimal digits. */
  function ParseNat(s: string): int
    decreases |s|
  {
    if |s| == 0 then 0 else ParseNat(s[..|s| - 1]) * 10 + DigitValue(s[|s| - 1])
  }

  lemma DigitRoundTrip(d: nat)
    requires d < 10
    ensures DigitValue(DigitChar(d)) == d
  {
  }

  /** Reading back the decimal digits of `n` gives `n`. */
  lemma {:induction false} ParseNatToString(n: nat)
    ensures ParseNat(NatToString(n)) == n
    decreases n
  {
    DigitRoundTrip(n % 10);
    if n < 10 {
      assert NatToString(n)[..0] == [];
    } else {
      ParseNatToString(n / 10);
      var s := NatToString(n / 10) + [DigitChar(n % 10)];
      assert s[..|s| - 1] == NatToString(n / 10);
    }
  }

  /** Different numbers have different decimal forms. */
  lemma NatToStringInjective(m: nat, n: nat)
    requires NatToString(m) == NatToString(n)
    ensures m == n
  {
    ParseNatToString(m);
    ParseNatToString(n);
  }
}
