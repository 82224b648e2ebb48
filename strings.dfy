/** The Python string operations the modelled code relies on: strip, split,
    join, int() and str() of integers, repetition, left-justification and
    clamped slicing. Each is defined once here and characterised by lemmas. */
module Strings {
  import opened Base

  /** Python's str.isspace(), the whitespace str.strip() and str.split() cut
      on: the controls 0x09-0x0D and 0x1C-0x1F, the space, and the Unicode
      spaces and separators 0x85, 0xA0, 0x1680, 0x2000-0x200A, 0x2028,
      0x2029, 0x202F, 0x205F and 0x3000. */
  predicate IsSpace(c: char) {
    || ('\t' <= c <= '\r') || ('\U{001C}' <= c <= ' ')
    || c == '\U{0085}' || c == '\U{00A0}' || c == '\U{1680}'
    || ('\U{2000}' <= c <= '\U{200A}') || c == '\U{2028}' || c == '\U{2029}'
    || c == '\U{202F}' || c == '\U{205F}' || c == '\U{3000}'
  }

  /** The whitespace int() accepts around a literal: all of IsSpace except
      the four ASCII separators 0x1C-0x1F, which int() rejects. */
  predicate IsIntSpace(c: char) {
    IsSpace(c) && !('\U{001C}' <= c <= '\U{001F}')
  }

  predicate NoSpace(s: string) {
    forall i :: 0 <= i < |s| ==> !IsSpace(s[i])
  }

  predicate AllSpace(s: string) {
    forall i :: 0 <= i < |s| ==> IsSpace(s[i])
  }

  /** n copies of x: Python's `[x] * n`, and `c * n` for a one-character string. */
  function Copies<T>(x: T, n: nat): (r: seq<T>)
    ensures |r| == n && forall i :: 0 <= i < n ==> r[i] == x
  {
    seq(n, _ => x)
  }

  /** s * n for a string s: n copies of s, one after another. */
  function Repeat(s: string, n: nat): string
  {
    if n == 0 then "" else Repeat(s, n - 1) + s
  }

  /** Repeating a one-character string is the same as n copies of its character. */
  lemma {:induction false} RepeatOfChar(c: char, n: nat)
    ensures Repeat([c], n) == Copies(c, n)
  {
    if n > 0 {
      RepeatOfChar(c, n - 1);
    }
  }

  predicate StartsWith(s: string, prefix: string) {
    |prefix| <= |s| && s[..|prefix|] == prefix
  }

  predicate EndsWith(s: string, suffix: string) {
    |suffix| <= |s| && s[|s| - |suffix|..] == suffix
  }

  /** Python's s[i:j] for non-negative bounds: out-of-range bounds are clamped. */
  function Slice(s: string, i: nat, j: nat): (r: string)
    ensures |r| <= |s|
    ensures j <= |s| && i <= j ==> r == s[i..j]
    ensures |s| <= i || j <= i ==> r == ""
  {
    if |s| <= i || j <= i then "" else if j <= |s| then s[i..j] else s[i..]
  }

  // ---------------------------------------------------------------- strip

  /** str.lstrip() */
  function LStrip(s: string): string
  {
    if |s| > 0 && IsSpace(s[0]) then LStrip(s[1..]) else s
  }

  /** What str.lstrip() keeps is a suffix of s that does not start with
      whitespace, and what it cuts off is whitespace. */
  lemma {:induction false} LStripShape(s: string)
    ensures var r := LStrip(s);
      && |r| <= |s| && r == s[|s| - |r|..]
      && AllSpace(s[..|s| - |r|])
      && (r == [] || !IsSpace(r[0]))
  {
    if |s| > 0 && IsSpace(s[0]) {
      LStripShape(s[1..]);
      var t := LStrip(s[1..]);
      assert s[..|s| - |t|] == [s[0]] + s[1..][..|s| - 1 - |t|];
    }
  }

  /** str.rstrip() */
  function RStrip(s: string): string
  {
    if |s| > 0 && IsSpace(s[|s| - 1]) then RStrip(s[..|s| - 1]) else s
  }

  /** What str.rstrip() keeps is a prefix of s that does not end with
      whitespace, and what it cuts off is whitespace. */
  lemma {:induction false} RStripShape(s: string)
    ensures var r := RStrip(s);
      && |r| <= |s| && r == s[..|r|]
      && AllSpace(s[|r|..])
      && (r == [] || !IsSpace(r[|r| - 1]))
  {
    if |s| > 0 && IsSpace(s[|s| - 1]) {
      RStripShape(s[..|s| - 1]);
      var t := RStrip(s[..|s| - 1]);
      assert s[|t|..] == s[..|s| - 1][|t|..] + [s[|s| - 1]];
    }
  }

  /** Number of whitespace characters str.lstrip() removes. */
  function Leading(s: string): nat
  {
    LStripShape(s);
    |s| - |LStrip(s)|
  }

  /** str.strip() */
  function Strip(s: string): string
  {
    RStrip(LStrip(s))
  }

  /** What str.strip() keeps is the slice of s that starts after the leading
      whitespace, what it cuts off on either side is whitespace, and the
      result neither starts nor ends with whitespace. */
  lemma StripShape(s: string)
    ensures var r := Strip(s);
      && Leading(s) + |r| <= |s| && r == s[Leading(s)..Leading(s) + |r|]
      && AllSpace(s[..Leading(s)]) && AllSpace(s[Leading(s) + |r|..])
      && (r == [] || (!IsSpace(r[0]) && !IsSpace(r[|r| - 1])))
  {
    var t := LStrip(s);
    LStripShape(s);
    RStripShape(t);
    var r := RStrip(t);
    assert t == s[Leading(s)..];
    assert s[Leading(s) + |r|..] == t[|r|..];
    if r != [] {
      assert r[0] == t[0];
    }
  }

  lemma StripUnchanged(s: string)
    requires s == [] || (!IsSpace(s[0]) && !IsSpace(s[|s| - 1]))
    ensures Strip(s) == s
  {
  }

  lemma StripAllSpace(s: string)
    requires AllSpace(s)
    ensures Strip(s) == ""
  {
    if s != [] {
      assert IsSpace(s[0]);
      StripAllSpace(s[1..]);
    }
  }

  // ---------------------------------------------------------------- join and split

  /** sep.join(parts) */
  function JoinWith(parts: seq<string>, sep: string): string
  {
    if parts == [] then ""
    else if |parts| == 1 then parts[0]
    else parts[0] + sep + JoinWith(parts[1..], sep)
  }

  lemma JoinAppend(xs: seq<string>, ys: seq<string>, sep: string)
    requires xs != [] && ys != []
    ensures JoinWith(xs + ys, sep) == JoinWith(xs, sep) + sep + JoinWith(ys, sep)
  {
    if |xs| == 1 {
      assert (xs + ys)[1..] == ys;
    } else {
      assert (xs + ys)[1..] == xs[1..] + ys;
      JoinAppend(xs[1..], ys, sep);
    }
  }

  /** s.split(sep) for a non-empty separator: the leftmost occurrences of sep
      cut s into pieces. */
  function SplitOn(s: string, sep: string): (r: seq<string>)
    requires sep != []
    ensures r != []
    decreases |s|
  {
    if |s| < |sep| then [s]
    else if s[..|sep|] == sep then [""] + SplitOn(s[|sep|..], sep)
    else
      var t := SplitOn(s[1..], sep);
      [[s[0]] + t[0]] + t[1..]
  }

  /** Joining the pieces with the separator gives back the string. */
  lemma {:induction false} JoinSplit(s: string, sep: string)
    requires sep != []
    ensures JoinWith(SplitOn(s, sep), sep) == s
    decreases |s|
  {
    if |s| < |sep| {
    } else if s[..|sep|] == sep {
      JoinSplit(s[|sep|..], sep);
      assert s == sep + s[|sep|..];
    } else {
      JoinSplit(s[1..], sep);
      JoinFirstGrown(s[0], SplitOn(s[1..], sep), sep);
      assert s == [s[0]] + s[1..];
    }
  }

  /** Growing the first piece at its front grows the joined string at its front. */
  lemma JoinFirstGrown(c: char, t: seq<string>, sep: string)
    requires t != []
    ensures JoinWith([[c] + t[0]] + t[1..], sep) == [c] + JoinWith(t, sep)
  {
    var u := [[c] + t[0]] + t[1..];
    assert u[0] == [c] + t[0] && u[1..] == t[1..];
  }

  /** Splitting on a character: one piece more than there are separators,
      and no piece holds the separator. */
  lemma {:induction false} SplitCharCount(s: string, c: char)
    ensures |SplitOn(s, [c])| == multiset(s)[c] + 1
    ensures forall i :: 0 <= i < |SplitOn(s, [c])| ==> c !in SplitOn(s, [c])[i]
    decreases |s|
  {
    if |s| == 0 {
    } else {
      assert s == [s[0]] + s[1..];
      assert multiset(s) == multiset{s[0]} + multiset(s[1..]);
      SplitCharCount(s[1..], c);
      if s[..1] == [c] {
        assert SplitOn(s, [c]) == [""] + SplitOn(s[1..], [c]);
      } else {
        assert s[0] != c;
      }
    }
  }

  lemma {:induction false} SplitCharAbsent(s: string, c: char)
    requires c !in s
    ensures SplitOn(s, [c]) == [s]
    decreases |s|
  {
    if |s| > 0 {
      SplitCharAbsent(s[1..], c);
      assert s == [s[0]] + s[1..];
    }
  }

  /** A first piece free of the separator splits off whole. */
  lemma {:induction false} SplitCharConcat(a: string, c: char, b: string)
    requires c !in a
    ensures SplitOn(a + [c] + b, [c]) == [a] + SplitOn(b, [c])
    decreases |a|
  {
    var s := a + [c] + b;
    if |a| == 0 {
      assert s[..1] == [c] && s[1..] == b;
    } else {
      assert s[0] == a[0] && a[0] != c;
      assert s[..1] == [s[0]];
      assert s[1..] == a[1..] + [c] + b;
      SplitCharConcat(a[1..], c, b);
      assert [s[0]] + a[1..] == a;
    }
  }

  /** Splitting a + c + b on the character c splits a and b apart. */
  lemma {:induction false} SplitCharAround(a: string, c: char, b: string)
    ensures SplitOn(a + [c] + b, [c]) == SplitOn(a, [c]) + SplitOn(b, [c])
    decreases |a|
  {
    var s := a + [c] + b;
    if |a| == 0 {
      assert s[1..] == b;
      SplitHeadSep(s, c);
    } else {
      assert s[1..] == a[1..] + [c] + b && s[0] == a[0];
      SplitCharAround(a[1..], c, b);
      if a[0] == c {
        SplitHeadSep(s, c);
        SplitHeadSep(a, c);
      } else {
        SplitHeadOther(s, c);
        SplitHeadOther(a, c);
        SplitGrownFirst(a[0], SplitOn(a[1..], [c]), SplitOn(b, [c]));
      }
    }
  }

  lemma SplitHeadSep(s: string, c: char)
    requires s != [] && s[0] == c
    ensures SplitOn(s, [c]) == [""] + SplitOn(s[1..], [c])
  {
    assert s[..1] == [c];
  }

  lemma SplitHeadOther(s: string, c: char)
    requires s != [] && s[0] != c
    ensures var t := SplitOn(s[1..], [c]);
            SplitOn(s, [c]) == [[s[0]] + t[0]] + t[1..]
  {
    assert s[..1] != [c];
  }

  /** The first piece of a split on a character is a prefix of the string
      and does not hold the character. */
  lemma {:induction false} SplitFirstPart(s: string, c: char)
    ensures SplitOn(s, [c])[0] <= s && c !in SplitOn(s, [c])[0]
    decreases |s|
  {
    if s != [] {
      if s[0] == c {
        SplitHeadSep(s, c);
      } else {
        SplitHeadOther(s, c);
        SplitFirstPart(s[1..], c);
        assert s == [s[0]] + s[1..];
      }
    }
  }

  lemma SplitFirstParts(items: seq<string>, c: char)
    ensures forall i :: 0 <= i < |items| ==>
              SplitOn(items[i], [c])[0] <= items[i] && c !in SplitOn(items[i], [c])[0]
  {
    forall i | 0 <= i < |items| {
      SplitFirstPart(items[i], c);
    }
  }

  lemma SplitGrownFirst(x: char, u: seq<string>, v: seq<string>)
    requires u != []
    ensures [[x] + (u + v)[0]] + (u + v)[1..] == ([[x] + u[0]] + u[1..]) + v
  {
    assert (u + v)[1..] == u[1..] + v;
  }

  /** Pieces free of the separator character come back from a split of
      their join. */
  lemma {:induction false} SplitCharJoin(ps: seq<string>, c: char)
    requires ps != [] && forall i :: 0 <= i < |ps| ==> c !in ps[i]
    ensures SplitOn(JoinWith(ps, [c]), [c]) == ps
  {
    if |ps| == 1 {
      SplitCharAbsent(ps[0], c);
    } else {
      SplitCharJoin(ps[1..], c);
      SplitCharConcat(ps[0], c, JoinWith(ps[1..], [c]));
    }
  }

  // ---------------------------------------------------------------- str.split()

  /** Longest prefix of s holding no whitespace. */
  function WordAt(s: string): (w: string)
    ensures |w| <= |s| && w == s[..|w|] && NoSpace(w)
    ensures |w| == |s| || IsSpace(s[|w|])
  {
    if s == [] || IsSpace(s[0]) then [] else [s[0]] + WordAt(s[1..])
  }

  /** str.split() with no argument: the maximal runs of non-whitespace. */
  function Words(s: string): (r: seq<string>)
    ensures forall i :: 0 <= i < |r| ==> r[i] != [] && NoSpace(r[i])
    decreases |s|
  {
    var t := LStrip(s);
    LStripShape(s);
    if t == [] then []
    else
      var w := WordAt(t);
      assert w != [] by { assert !IsSpace(t[0]); }
      var rest := Words(t[|w|..]);
      [w] + rest
  }

  lemma WordAtWhole(a: string)
    requires NoSpace(a)
    ensures WordAt(a) == a
  {
    if a != [] {
      WordAtWhole(a[1..]);
    }
  }

  lemma {:induction false} WordAtConcat(a: string, b: string)
    requires NoSpace(a) && b != [] && IsSpace(b[0])
    ensures WordAt(a + b) == a
    decreases |a|
  {
    if a != [] {
      assert (a + b)[1..] == a[1..] + b;
      WordAtConcat(a[1..], b);
    }
  }

  lemma WordsOfOne(a: string)
    requires a != [] && NoSpace(a)
    ensures Words(a) == [a]
  {
    WordAtWhole(a);
    assert a[|a|..] == [];
  }

  /** "First Last" splits into its two words. */
  lemma WordsOfTwo(a: string, b: string)
    requires a != [] && NoSpace(a) && b != [] && NoSpace(b)
    ensures Words(a + " " + b) == [a, b]
  {
    WordsOfTwoBy(a, b, ' ');
  }

  // ---------------------------------------------------------------- int()

  predicate IsDigit(c: char) {
    '0' <= c <= '9'
  }

  predicate AllDigits(s: string) {
    forall i :: 0 <= i < |s| ==> IsDigit(s[i])
  }

  function DigitsValue(s: string): nat
    requires AllDigits(s)
  {
    if s == [] then 0 else DigitsValue(s[..|s| - 1]) * 10 + (s[|s| - 1] as int - '0' as int)
  }

  /** Python's int() of a string: optional surrounding whitespace (IsIntSpace),
      an optional sign, then one or more decimal digits; anything else raises
      ValueError. */
  function ParseInt(s: string): Option<int>
  {
    Literal(IntRStrip(IntLStrip(s)))
  }

  /** The leading whitespace int() ignores, removed. */
  function IntLStrip(s: string): string
  {
    if |s| > 0 && IsIntSpace(s[0]) then IntLStrip(s[1..]) else s
  }

  /** The trailing whitespace int() ignores, removed. */
  function IntRStrip(s: string): string
  {
    if |s| > 0 && IsIntSpace(s[|s| - 1]) then IntRStrip(s[..|s| - 1]) else s
  }

  /** What int() strips off a string of whitespace leaves whitespace. */
  lemma {:induction false} IntStripAllSpace(s: string)
    requires AllSpace(s)
    ensures AllSpace(IntLStrip(s)) && AllSpace(IntRStrip(s))
  {
    if |s| > 0 && IsIntSpace(s[0]) {
      IntStripAllSpace(s[1..]);
    }
    if |s| > 0 && IsIntSpace(s[|s| - 1]) {
      IntStripAllSpace(s[..|s| - 1]);
    }
  }

  /** An integer literal with nothing around it. */
  function Literal(t: string): Option<int>
  {
    if t != [] && (t[0] == '+' || t[0] == '-') then
      match Unsigned(t[1..])
      case None => None
      case Some(v) => Some(if t[0] == '-' then -v else v)
    else Unsigned(t)
  }

  /** One or more decimal digits. */
  function Unsigned(t: string): Option<int>
  {
    if t != [] && AllDigits(t) then Some(DigitsValue(t)) else None
  }

  /** A string of whitespace only is not a number. */
  lemma ParseIntAllSpace(s: string)
    requires AllSpace(s)
    ensures ParseInt(s) == None
  {
    IntStripAllSpace(s);
    IntStripAllSpace(IntLStrip(s));
    var t := IntRStrip(IntLStrip(s));
    if t != [] {
      assert IsSpace(t[0]);
    }
  }

  /** int(s) as a result: ValueError when s is not an integer literal. */
  function ToInt(s: string): (r: Result<int>)
    ensures r.Ok? <==> ParseInt(s).Some?
    ensures r.Ok? ==> r.value == ParseInt(s).value
  {
    match ParseInt(s)
    case Some(n) => Ok(n)
    case None => Err(ValueError(s))
  }

  function DigitChar(d: nat): (c: char)
    requires d < 10
    ensures IsDigit(c) && c as int - '0' as int == d
  {
    ('0' as int + d) as char
  }

  /** str(n) for a natural number. */
  function NatToStr(n: nat): (r: string)
    ensures r != [] && AllDigits(r)
  {
    if n < 10 then [DigitChar(n)] else NatToStr(n / 10) + [DigitChar(n % 10)]
  }

  /** str(n): the decimal text of an integer. */
  function IntToStr(n: int): (r: string)
    ensures r != [] && NoSpace(r)
    ensures forall i :: 0 <= i < |r| ==> IsDigit(r[i]) || r[i] == '-'
  {
    if n < 0 then "-" + NatToStr(-n) else NatToStr(n)
  }

  lemma {:induction false} NatToStrValue(n: nat)
    ensures DigitsValue(NatToStr(n)) == n
  {
    if n >= 10 {
      NatToStrValue(n / 10);
      var s := NatToStr(n);
      assert s[..|s| - 1] == NatToStr(n / 10);
    }
  }

  /** int(str(n)) == n */
  lemma ParseIntOfIntToStr(n: int)
    ensures ParseInt(IntToStr(n)) == Some(n)
  {
    var s := IntToStr(n);
    assert !IsSpace(s[0]) && !IsSpace(s[|s| - 1]);
    assert IntRStrip(IntLStrip(s)) == s;
    if n < 0 {
      NatToStrValue(-n);
      assert s[1..] == NatToStr(-n);
    } else {
      NatToStrValue(n);
    }
  }

  /** A no-break space is whitespace to strip(), split() and int(). */
  lemma NoBreakSpaceStripped()
    ensures Strip("x\U{00A0}") == "x"
    ensures Words("John\U{00A0}Doe") == ["John", "Doe"]
  {
    assert LStrip("x\U{00A0}") == "x\U{00A0}";
    assert RStrip("x\U{00A0}") == "x";
    assert "John" + ['\U{00A0}'] + "Doe" == "John\U{00A0}Doe";
    WordsOfTwoBy("John", "Doe", '\U{00A0}');
  }

  lemma NoBreakSpaceAroundInt()
    ensures ParseInt("75\U{00A0}") == Some(75)
  {
    assert IntLStrip("75\U{00A0}") == "75\U{00A0}";
    assert IntRStrip("75\U{00A0}") == "75";
    assert DigitsValue("75") == 75 by { assert "75"[..1] == "7"; }
  }

  /** The separator 0x1C is whitespace to strip() but not to int(). */
  lemma SeparatorNotIntSpace()
    ensures Strip("75\U{001C}") == "75"
    ensures ParseInt("75\U{001C}") == None
  {
    assert LStrip("75\U{001C}") == "75\U{001C}";
    assert RStrip("75\U{001C}") == "75";
    assert IntLStrip("75\U{001C}") == "75\U{001C}";
    assert IntRStrip("75\U{001C}") == "75\U{001C}";
  }

  /** Two words separated by one whitespace character split into two. */
  lemma WordsOfTwoBy(a: string, b: string, c: char)
    requires a != [] && NoSpace(a) && b != [] && NoSpace(b) && IsSpace(c)
    ensures Words(a + [c] + b) == [a, b]
  {
    var s := a + ([c] + b);
    assert s == a + [c] + b;
    assert s[0] == a[0];
    assert LStrip(s) == s;
    WordAtConcat(a, [c] + b);
    assert s[|a|..] == [c] + b;
    var t := [c] + b;
    assert t[1..] == b;
    assert LStrip(t) == LStrip(b) == b;
    WordsOfOne(b);
  }

  // ---------------------------------------------------------------- formatting

  /** Left justification: s padded with spaces on the right to the given width. */
  function LJust(s: string, width: nat): (r: string)
    ensures |r| == if |s| >= width then |s| else width
    ensures r[..|s|] == s
    ensures forall i :: |s| <= i < |r| ==> r[i] == ' '
  {
    if |s| >= width then s else s + Copies(' ', width - |s|)
  }
}
