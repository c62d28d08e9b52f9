/** The pieces of Python's string handling that the converter relies on:
    the `\s` class of `re` on `str` patterns, `re.sub(r'\s+', ' ', s)`,
    `str.strip(chars)` and the decimal rendering of an `int` in an f-string. */
module PyText {

  /** The characters `\s` matches in a `str` pattern: those for which
      `str.isspace()` holds. */
  predicate IsWs(c: char) {
    var n := c as int;
    || 0x09 <= n <= 0x0D
    || 0x1C <= n <= 0x20
    || n == 0x85 || n == 0xA0 || n == 0x1680
    || 0x2000 <= n <= 0x200A
    || n == 0x2028 || n == 0x2029 || n == 0x202F || n == 0x205F || n == 0x3000
  }

  /** What a single character becomes once whitespace is collapsed. */
  function Flatten(c: char): char {
    if IsWs(c) then ' ' else c
  }

  // ---------------------------------------------------------------------
  // re.sub(r'\s+', ' ', s)
  // ---------------------------------------------------------------------

  /** `s` without its leading whitespace run. */
  function SkipWs(s: string): (r: string)
    ensures |r| <= |s| && r == s[|s| - |r|..]
    ensures forall i :: 0 <= i < |s| - |r| ==> IsWs(s[i])
    ensures r != [] ==> !IsWs(r[0])
  {
    if s != [] && IsWs(s[0]) then SkipWs(s[1..]) else s
  }

  /** Dropping a leading whitespace character before a non-whitespace one. */
  lemma SkipWsOne(s: string)
    requires |s| >= 1 && IsWs(s[0]) && (|s| == 1 || !IsWs(s[1]))
    ensures SkipWs(s) == s[1..]
  {
    assert SkipWs(s) == SkipWs(s[1..]);
  }

  /** `re.sub(r'\s+', ' ', s)`: the regex scans left to right and replaces
      every maximal run of whitespace, the leading and trailing runs
      included, by one space. */
  function Collapse(s: string): (r: string)
    ensures |r| <= |s|
    ensures r == [] <==> s == []
    ensures s != [] ==> r[0] == Flatten(s[0])
    decreases |s|
  {
    if s == [] then []
    else if IsWs(s[0]) then [' '] + Collapse(SkipWs(s))
    else [s[0]] + Collapse(s[1..])
  }

  /** A trailing whitespace run also becomes one space, and a trailing
      non-whitespace character stays last. */
  lemma {:induction false} CollapseLast(s: string)
    requires s != []
    ensures Collapse(s)[|Collapse(s)| - 1] == Flatten(s[|s| - 1])
    decreases |s|
  {
    if IsWs(s[0]) {
      var t := SkipWs(s);
      if t != [] {
        CollapseLast(t);
        assert t[|t| - 1] == s[|s| - 1];
      }
    } else if |s| > 1 {
      CollapseLast(s[1..]);
    }
  }

  /** A string that collapsing leaves alone: its only whitespace is ' ' and
      no two whitespace characters are adjacent. */
  ghost predicate Normalized(t: string) {
    && (forall i :: 0 <= i < |t| && IsWs(t[i]) ==> t[i] == ' ')
    && (forall i :: 0 <= i < |t| - 1 ==> !(IsWs(t[i]) && IsWs(t[i + 1])))
  }

  /** The non-whitespace characters of `s`, in order. */
  function NonWs(s: string): (r: string)
    ensures |r| <= |s|
    ensures forall i :: 0 <= i < |r| ==> !IsWs(r[i])
  {
    if s == [] then []
    else (if IsWs(s[0]) then [] else [s[0]]) + NonWs(s[1..])
  }

  lemma {:induction false} CollapseNormalized(s: string)
    ensures Normalized(Collapse(s))
    decreases |s|
  {
    if s == [] {
    } else if IsWs(s[0]) {
      var t := SkipWs(s);
      CollapseNormalized(t);
      var c := Collapse(t);
      assert Collapse(s) == [' '] + c;
      assert c != [] ==> !IsWs(c[0]);
    } else {
      CollapseNormalized(s[1..]);
      assert Collapse(s) == [s[0]] + Collapse(s[1..]);
    }
  }

  lemma NormalizedTail(t: string)
    requires t != [] && Normalized(t)
    ensures Normalized(t[1..])
  {
    var u := t[1..];
    forall i | 0 <= i < |u| - 1
      ensures !(IsWs(u[i]) && IsWs(u[i + 1]))
    {
      assert u[i] == t[i + 1] && u[i + 1] == t[i + 2];
    }
  }

  /** In a normalised string a whitespace character is a space and is
      followed by a non-whitespace one. */
  lemma NormalizedHead(t: string)
    requires t != [] && Normalized(t) && IsWs(t[0])
    ensures t[0] == ' ' && SkipWs(t) == t[1..]
  {
    assert |t| > 1 ==> !IsWs(t[1]);
    SkipWsOne(t);
  }

  /** On a normalised string, collapsing keeps the first character and
      goes on with the rest. */
  lemma CollapseNormalizedStep(t: string)
    requires t != [] && Normalized(t)
    ensures Collapse(t) == [t[0]] + Collapse(t[1..])
  {
    if IsWs(t[0]) {
      NormalizedHead(t);
    }
  }

  /** Collapsing changes nothing in a string that is already normalised. */
  lemma {:induction false} CollapseOfNormalized(t: string)
    requires Normalized(t)
    ensures Collapse(t) == t
    decreases |t|
  {
    if t != [] {
      NormalizedTail(t);
      CollapseOfNormalized(t[1..]);
      CollapseNormalizedStep(t);
      assert [t[0]] + t[1..] == t;
    }
  }

  /** Collapsing is idempotent. */
  lemma CollapseIdempotent(s: string)
    ensures Collapse(Collapse(s)) == Collapse(s)
  {
    CollapseNormalized(s);
    CollapseOfNormalized(Collapse(s));
  }

  /** A string is a fixed point of collapsing exactly when it is normalised. */
  lemma CollapseFixedPoint(s: string)
    ensures Collapse(s) == s <==> Normalized(s)
  {
    CollapseNormalized(s);
    if Normalized(s) {
      CollapseOfNormalized(s);
    }
  }

  lemma {:induction false} NonWsSkipWs(s: string)
    ensures NonWs(SkipWs(s)) == NonWs(s)
    decreases |s|
  {
    if s != [] && IsWs(s[0]) {
      NonWsSkipWs(s[1..]);
    }
  }

  /** Collapsing keeps every non-whitespace character, in order, and adds none. */
  lemma {:induction false} CollapseKeepsNonWs(s: string)
    ensures NonWs(Collapse(s)) == NonWs(s)
    decreases |s|
  {
    if s != [] {
      if IsWs(s[0]) {
        var t := SkipWs(s);
        CollapseKeepsNonWs(t);
        NonWsSkipWs(s);
        assert ([' '] + Collapse(t))[1..] == Collapse(t);
      } else {
        CollapseKeepsNonWs(s[1..]);
        assert ([s[0]] + Collapse(s[1..]))[1..] == Collapse(s[1..]);
      }
    }
  }

  // An independent description of the substitution, in two passes: turn
  // every whitespace character into a space, then squeeze each run of
  // spaces to one.

  function Translate(s: string): (r: string)
    ensures |r| == |s|
    ensures forall i :: 0 <= i < |s| ==> r[i] == Flatten(s[i])
  {
    if s == [] then [] else [Flatten(s[0])] + Translate(s[1..])
  }

  function Squeeze(t: string): string
    decreases |t|
  {
    if |t| < 2 then t
    else if t[0] == ' ' && t[1] == ' ' then Squeeze(t[1..])
    else [t[0]] + Squeeze(t[1..])
  }

  lemma {:induction false} SqueezeLeadingRun(s: string)
    requires s != [] && IsWs(s[0])
    ensures Squeeze(Translate(s)) == [' '] + Squeeze(Translate(SkipWs(s)))
    decreases |s|
  {
    var t := Translate(s);
    assert t[1..] == Translate(s[1..]);
    if |s| > 1 && IsWs(s[1]) {
      SqueezeLeadingRun(s[1..]);
      assert SkipWs(s) == SkipWs(s[1..]);
      assert t[0] == ' ' && t[1] == ' ';
    } else {
      SkipWsOne(s);
      assert |s| > 1 ==> t[1] == s[1] && IsWs(' ') && s[1] != ' ';
    }
  }

  /** `Collapse` agrees with the two-pass description. */
  lemma {:induction false} CollapseIsTranslateThenSqueeze(s: string)
    ensures Collapse(s) == Squeeze(Translate(s))
    decreases |s|
  {
    if s != [] {
      if IsWs(s[0]) {
        SqueezeLeadingRun(s);
        CollapseIsTranslateThenSqueeze(SkipWs(s));
      } else {
        CollapseIsTranslateThenSqueeze(s[1..]);
        var t := Translate(s);
        assert t[1..] == Translate(s[1..]);
        assert t[0] == s[0] != ' ';
      }
    }
  }

  // ---------------------------------------------------------------------
  // str.strip(chars)
  // ---------------------------------------------------------------------

  function StripLeft(s: string, chars: string): (r: string)
    ensures |r| <= |s|
  {
    if s != [] && s[0] in chars then StripLeft(s[1..], chars) else s
  }

  function StripRight(s: string, chars: string): (r: string)
    ensures |r| <= |s|
  {
    if s != [] && s[|s| - 1] in chars then StripRight(s[..|s| - 1], chars) else s
  }

  /** `StripLeft` removes a prefix made of `chars` and stops at the first
      character that is not one of them. */
  lemma {:induction false} StripLeftFacts(s: string, chars: string)
    ensures var r := StripLeft(s, chars);
      && r == s[|s| - |r|..]
      && (forall i :: 0 <= i < |s| - |r| ==> s[i] in chars)
      && (r != [] ==> r[0] !in chars)
  {
    if s != [] && s[0] in chars {
      StripLeftFacts(s[1..], chars);
    }
  }

  /** `StripRight` removes a suffix made of `chars` and stops at the last
      character that is not one of them. */
  lemma {:induction false} StripRightFacts(s: string, chars: string)
    ensures var r := StripRight(s, chars);
      && r == s[..|r|]
      && (forall i :: |r| <= i < |s| ==> s[i] in chars)
      && (r != [] ==> r[|r| - 1] !in chars)
  {
    if s != [] && s[|s| - 1] in chars {
      var p := s[..|s| - 1];
      StripRightFacts(p, chars);
      var r := StripRight(p, chars);
      assert r == s[..|r|];
      forall i | |r| <= i < |s| ensures s[i] in chars {
        if i < |p| {
          assert s[i] == p[i];
        }
      }
    }
  }

  /** `s.strip(chars)`: removes from both ends every character that occurs
      in `chars`; `chars` is a set of characters, not a prefix or suffix. */
  function Strip(s: string, chars: string): string {
    StripRight(StripLeft(s, chars), chars)
  }

  /** What `Strip` keeps is one slice of `s`: everything cut off on either
      side occurs in `chars`, and the slice, unless empty, begins and ends
      with a character that does not. */
  ghost predicate IsStripSlice(s: string, chars: string, i: int, j: int) {
    && 0 <= i <= j <= |s|
    && (forall k :: 0 <= k < i ==> s[k] in chars)
    && (forall k :: j <= k < |s| ==> s[k] in chars)
    && (i < j ==> s[i] !in chars && s[j - 1] !in chars)
  }

  lemma StripSlice(s: string, chars: string) returns (i: nat, j: nat)
    ensures IsStripSlice(s, chars, i, j)
    ensures Strip(s, chars) == s[i..j]
  {
    var l := StripLeft(s, chars);
    var r := StripRight(l, chars);
    StripLeftFacts(s, chars);
    StripRightFacts(l, chars);
    i := |s| - |l|;
    j := i + |r|;
    assert l == s[i..] && r == l[..|r|];
    assert r == s[i..j];
    forall k | j <= k < |s| ensures s[k] in chars {
      assert s[k] == l[k - i];
    }
    if i < j {
      assert s[i] == r[0] && s[j - 1] == r[|r| - 1];
    }
  }

  /** A character not in `chars`, followed only by characters in `chars`,
      stops the strip on the right: only the left strip of what precedes it
      is cut. */
  lemma StripUpToStop(b: string, stop: char, e: string, chars: string)
    requires stop !in chars
    requires forall k :: 0 <= k < |e| ==> e[k] in chars
    ensures Strip(b + [stop] + e, chars) == StripLeft(b, chars) + [stop]
  {
    var s := b + [stop] + e;
    var l := StripLeft(b, chars);
    StripLeftFacts(b, chars);
    var i := |b| - |l|;
    var j := |b| + 1;
    assert IsStripSlice(s, chars, i, j) by {
      forall k | 0 <= k < i ensures s[k] in chars {
        assert s[k] == b[k];
      }
      forall k | j <= k < |s| ensures s[k] in chars {
        assert s[k] == e[k - j];
      }
      assert s[j - 1] == stop;
      if i < j - 1 {
        assert s[i] == b[i] == l[0];
      }
    }
    StripSliceUnique(s, chars, i, j);
    assert s[i..j] == l + [stop];
  }

  /** The slice condition determines the result: `Strip` is the only
      function that meets it. */
  lemma StripSliceUnique(s: string, chars: string, i: int, j: int)
    requires IsStripSlice(s, chars, i, j)
    ensures Strip(s, chars) == s[i..j]
  {
    var i', j' := StripSlice(s, chars);
    if i < j {
      assert i' <= i;
      assert i' < j' && i' == i;
      assert j' >= j && j' == j;
    } else {
      assert i' == j';
    }
  }

  // ---------------------------------------------------------------------
  // f'{n}' for a natural number
  // ---------------------------------------------------------------------

  predicate IsDigit(c: char) {
    48 <= c as int <= 57
  }

  function DigitValue(c: char): (d: nat)
    requires IsDigit(c)
  {
    c as int - 48
  }

  function DigitChar(d: nat): (c: char)
    requires d < 10
    ensures IsDigit(c) && DigitValue(c) == d
  {
    (48 + d) as char
  }

  /** The decimal numeral of `n`, as Python formats an `int`. */
  function NatToString(n: nat): (r: string)
    ensures r != [] && forall i :: 0 <= i < |r| ==> IsDigit(r[i])
    ensures |r| > 1 ==> r[0] != '0'
  {
    if n < 10 then [DigitChar(n)] else NatToString(n / 10) + [DigitChar(n % 10)]
  }

  /** The value of a decimal numeral. */
  function ParseNat(s: string): nat
    requires forall i :: 0 <= i < |s| ==> IsDigit(s[i])
  {
    if s == [] then 0
    else ParseNat(s[..|s| - 1]) * 10 + DigitValue(s[|s| - 1])
  }

  /** The numeral reads back as the number it was made from. */
  lemma {:induction false} NatToStringRoundTrip(n: nat)
    ensures ParseNat(NatToString(n)) == n
  {
    if n >= 10 {
      NatToStringRoundTrip(n / 10);
      var r := NatToString(n);
      assert r[..|r| - 1] == NatToString(n / 10);
    }
  }

  /** Distinct numbers get distinct numerals. */
  lemma NatToStringInjective(m: nat, n: nat)
    requires NatToString(m) == NatToString(n)
    ensures m == n
  {
    NatToStringRoundTrip(m);
    NatToStringRoundTrip(n);
  }
}
