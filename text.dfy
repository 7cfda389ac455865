/** String helpers shared by the Python worker scripts and the TypeScript front ends.
    Strings are sequences of Unicode scalar values; the two languages' notions of
    white space are kept apart because they differ. */
module Text {

  // ---------------------------------------------------------------------------
  // Character classes

  /** JavaScript white space: what String.prototype.trim removes and what the
      regular-expression class \s matches (WhiteSpace and LineTerminator). */
  predicate JsSpace(c: char) {
    c == '\t' || c == '\n' || c == '\U{000B}' || c == '\U{000C}' || c == '\r' || c == ' '
    || c == '\U{00A0}' || c == '\U{1680}' || ('\U{2000}' <= c <= '\U{200A}')
    || c == '\U{2028}' || c == '\U{2029}' || c == '\U{202F}' || c == '\U{205F}'
    || c == '\U{3000}' || c == '\U{FEFF}'
  }

  /** Python white space: what str.isspace accepts and str.strip() removes. */
  predicate PySpace(c: char) {
    ('\t' <= c <= '\r') || ('\U{001C}' <= c <= ' ') || c == '\U{0085}' || c == '\U{00A0}'
    || c == '\U{1680}' || ('\U{2000}' <= c <= '\U{200A}') || c == '\U{2028}' || c == '\U{2029}'
    || c == '\U{202F}' || c == '\U{205F}' || c == '\U{3000}'
  }

  predicate AsciiDigit(c: char) { '0' <= c <= '9' }
  predicate AsciiUpper(c: char) { 'A' <= c <= 'Z' }
  predicate AsciiLowerLetter(c: char) { 'a' <= c <= 'z' }
  predicate AsciiAlnum(c: char) { AsciiDigit(c) || AsciiUpper(c) || AsciiLowerLetter(c) }

  /** A word character of a regular expression (\w). */
  predicate WordChar(c: char) { AsciiAlnum(c) || c == '_' }

  function ToLower(c: char): (r: char)
    ensures AsciiUpper(c) ==> AsciiLowerLetter(r)
    ensures !AsciiUpper(c) ==> r == c
  {
    if AsciiUpper(c) then (c as int + 32) as char else c
  }

  function ToUpper(c: char): (r: char)
    ensures AsciiLowerLetter(c) ==> AsciiUpper(r)
    ensures !AsciiLowerLetter(c) ==> r == c
  {
    if AsciiLowerLetter(c) then (c as int - 32) as char else c
  }

  function LowerAll(s: string): (r: string)
    ensures |r| == |s| && forall i :: 0 <= i < |s| ==> r[i] == ToLower(s[i])
  {
    seq(|s|, i requires 0 <= i < |s| => ToLower(s[i]))
  }

  function UpperAll(s: string): (r: string)
    ensures |r| == |s| && forall i :: 0 <= i < |s| ==> r[i] == ToUpper(s[i])
  {
    seq(|s|, i requires 0 <= i < |s| => ToUpper(s[i]))
  }

  // ---------------------------------------------------------------------------
  // JavaScript string length

  /** The UTF-16 code units of one character: two beyond the Basic
      Multilingual Plane, where JavaScript stores a surrogate pair. */
  function Utf16Units(c: char): nat { if c as int > 0xFFFF then 2 else 1 }

  /** JavaScript's `s.length`: the number of UTF-16 code units. */
  function Utf16Length(s: string): (n: nat)
    ensures |s| <= n <= 2 * |s|
    decreases |s|
  {
    if s == [] then 0 else Utf16Length(s[..|s| - 1]) + Utf16Units(s[|s| - 1])
  }

  predicate InBmp(s: string) { forall i :: 0 <= i < |s| ==> s[i] as int <= 0xFFFF }

  /** Inside the Basic Multilingual Plane the two lengths agree. */
  lemma {:induction false} Utf16LengthBmp(s: string)
    requires InBmp(s)
    ensures Utf16Length(s) == |s|
    decreases |s|
  {
    if s != [] {
      var t := s[..|s| - 1];
      assert InBmp(t) by { forall i | 0 <= i < |t| ensures t[i] as int <= 0xFFFF { assert t[i] == s[i]; } }
      Utf16LengthBmp(t);
    }
  }

  /** Upper-casing ASCII letters keeps the code-unit length. */
  lemma {:induction false} UpperAllUtf16Length(s: string)
    ensures Utf16Length(UpperAll(s)) == Utf16Length(s)
    decreases |s|
  {
    if s != [] {
      var t := s[..|s| - 1];
      var u := UpperAll(s);
      assert u[..|u| - 1] == UpperAll(t);
      UpperAllUtf16Length(t);
      assert Utf16Units(u[|u| - 1]) == Utf16Units(s[|s| - 1]);
    }
  }

  /** The length of the longest prefix of `s` with at most `n` code units:
      what `s.slice(0, n)` keeps whole. */
  function Utf16Cut(s: string, n: nat): (k: nat)
    ensures k <= |s| && Utf16Length(s[..k]) <= n
    ensures k == |s| || Utf16Length(s[..k + 1]) > n
    decreases |s|
  {
    if Utf16Length(s) <= n then
      assert s[..|s|] == s;
      |s|
    else
      var t := s[..|s| - 1];
      var k := Utf16Cut(t, n);
      assert t[..k] == s[..k];
      if k < |t| then
        assert t[..k + 1] == s[..k + 1];
        k
      else
        assert s[..k + 1] == s;
        k
  }

  // ---------------------------------------------------------------------------
  // Prefixes, suffixes, containment

  predicate StartsWith(s: string, prefix: string) { prefix <= s }

  predicate EndsWith(s: string, suffix: string) {
    |suffix| <= |s| && s[|s| - |suffix|..] == suffix
  }

  /** `sub` occurs somewhere in `s` (str.includes / the `in` operator). */
  predicate Contains(s: string, sub: string)
    decreases |s|
  {
    StartsWith(s, sub) || (s != [] && Contains(s[1..], sub))
  }

  // ---------------------------------------------------------------------------
  // Trimming

  /** The end of the run of `p` characters that starts at index `k`. */
  function RunEnd(s: string, p: char -> bool, k: nat): (n: nat)
    requires k <= |s|
    ensures k <= n <= |s|
    ensures forall i :: k <= i < n ==> p(s[i])
    ensures n == |s| || !p(s[n])
    decreases |s| - k
  {
    if k < |s| && p(s[k]) then RunEnd(s, p, k + 1) else k
  }

  /** The start of the run of `p` characters that ends just before index `k`. */
  function RunStart(s: string, p: char -> bool, k: nat): (n: nat)
    requires k <= |s|
    ensures n <= k
    ensures forall i :: n <= i < k ==> p(s[i])
    ensures n == 0 || !p(s[n - 1])
    decreases k
  {
    if k > 0 && p(s[k - 1]) then RunStart(s, p, k - 1) else k
  }

  /** `s` without its leading run of `p` characters. */
  function DropWhile(s: string, p: char -> bool): (r: string)
    ensures |r| <= |s|
    ensures r == [] || !p(r[0])
  {
    s[RunEnd(s, p, 0)..]
  }

  /** `s` without its trailing run of `p` characters. */
  function DropWhileEnd(s: string, p: char -> bool): (r: string)
    ensures |r| <= |s|
    ensures r == [] || !p(r[|r| - 1])
  {
    s[..RunStart(s, p, |s|)]
  }

  /** RunEnd is the only index with its three properties. */
  lemma RunEndUnique(s: string, p: char -> bool, k: nat, n: nat)
    requires k <= n <= |s|
    requires forall i :: k <= i < n ==> p(s[i])
    requires n == |s| || !p(s[n])
    ensures RunEnd(s, p, k) == n
  {
  }

  /** Dropping the leading run of a concatenation: it eats all of `a` and
      goes on into `b`, or it stops inside `a`. */
  lemma DropWhileAppend(a: string, b: string, p: char -> bool)
    ensures DropWhile(a + b, p) == if AllSatisfy(a, p) then DropWhile(b, p) else DropWhile(a, p) + b
  {
    var s := a + b;
    if AllSatisfy(a, p) {
      var m := RunEnd(b, p, 0);
      forall i | 0 <= i < |a| + m ensures p(s[i]) {
        if i >= |a| { assert s[i] == b[i - |a|]; } else { assert s[i] == a[i]; }
      }
      assert |a| + m == |s| || s[|a| + m] == b[m];
      RunEndUnique(s, p, 0, |a| + m);
      assert s[|a| + m..] == b[m..];
    } else {
      var n := RunEnd(a, p, 0);
      forall i | 0 <= i < n ensures p(s[i]) { assert s[i] == a[i]; }
      assert s[n] == a[n];
      RunEndUnique(s, p, 0, n);
      assert s[n..] == a[n..] + b;
    }
  }

  /** Remove the leading and trailing characters that satisfy `p`. */
  function Strip(s: string, p: char -> bool): string {
    DropWhileEnd(DropWhile(s, p), p)
  }

  /** JavaScript's `s.trim()`. */
  function JsTrim(s: string): string { Strip(s, JsSpace) }

  /** Python's `s.strip()`. */
  function PyStrip(s: string): string { Strip(s, PySpace) }

  predicate AllSatisfy(s: string, p: char -> bool) {
    forall i :: 0 <= i < |s| ==> p(s[i])
  }

  /** Neither end of `s` satisfies `p`. */
  predicate Stripped(s: string, p: char -> bool) {
    s == [] || (!p(s[0]) && !p(s[|s| - 1]))
  }

  /** Strip leaves a string with no `p` at either end, and it is empty
      exactly when every character satisfied `p`. */
  lemma StripSpec(s: string, p: char -> bool)
    ensures Stripped(Strip(s, p), p)
    ensures Strip(s, p) == [] <==> AllSatisfy(s, p)
  {
    StripStripped(s, p);
    StripEmpty(s, p);
  }

  lemma StripStripped(s: string, p: char -> bool)
    ensures Stripped(Strip(s, p), p)
  {
    var d := DropWhile(s, p);
    var r := Strip(s, p);
    if r != [] {
      assert r[0] == d[0];
    }
  }

  lemma StripEmpty(s: string, p: char -> bool)
    ensures Strip(s, p) == [] <==> AllSatisfy(s, p)
  {
    var d := DropWhile(s, p);
    if Strip(s, p) == [] {
      assert d == [];
    }
  }

  /** What Strip keeps is a slice of the original: it starts where the
      leading run of `p` ends. */
  lemma StripSlice(s: string, p: char -> bool)
    ensures var i := |s| - |DropWhile(s, p)|;
      i + |Strip(s, p)| <= |s| && Strip(s, p) == s[i..i + |Strip(s, p)|]
  {
    var d := DropWhile(s, p);
    var r := Strip(s, p);
    var i := |s| - |d|;
    assert r == d[..|r|];
  }

  /** Every character is Python whitespace, i.e. `s.strip()` is falsy. */
  predicate PyBlank(s: string) {
    forall i :: 0 <= i < |s| ==> PySpace(s[i])
  }

  /** Every character is JavaScript whitespace, i.e. `s.trim()` is empty. */
  predicate JsBlank(s: string) {
    forall i :: 0 <= i < |s| ==> JsSpace(s[i])
  }

  lemma PyStripEmpty(s: string)
    ensures PyStrip(s) == [] <==> PyBlank(s)
  {
    StripSpec(s, PySpace);
  }

  lemma JsTrimEmpty(s: string)
    ensures JsTrim(s) == [] <==> JsBlank(s)
  {
    StripSpec(s, JsSpace);
  }

  lemma StripOfStripped(s: string, p: char -> bool)
    requires Stripped(s, p)
    ensures Strip(s, p) == s
  {
  }

  // ---------------------------------------------------------------------------
  // Splitting and joining on one character

  /** `s.split(c)` in both Python and JavaScript: the pieces between the
      occurrences of `c`, so "" gives [""] and "a." gives ["a", ""]. */
  function Split(s: string, c: char): (r: seq<string>)
    ensures |r| >= 1
    ensures forall k :: 0 <= k < |r| ==> c !in r[k]
    ensures c !in s ==> r == [s]
    ensures c in s ==> |r| >= 2
    decreases |s|
  {
    if s == [] then [""]
    else if s[0] == c then [""] + Split(s[1..], c)
    else
      var rest := Split(s[1..], c);
      assert s == [s[0]] + s[1..];
      [[s[0]] + rest[0]] + rest[1..]
  }

  /** The pieces of `a`, one `c`, then `b` are the pieces of `a` followed by
      those of `b`. */
  lemma {:induction false} SplitAppend(a: string, b: string, c: char)
    ensures Split(a + [c] + b, c) == Split(a, c) + Split(b, c)
    decreases |a|
  {
    var s := a + [c] + b;
    if a == [] {
      assert s == [c] + b;
      assert s[1..] == b;
    } else if a[0] == c {
      assert s[1..] == a[1..] + [c] + b;
      SplitAppend(a[1..], b, c);
    } else {
      assert s[0] == a[0];
      assert s[1..] == a[1..] + [c] + b;
      SplitAppend(a[1..], b, c);
      ExtendHead([a[0]], Split(a[1..], c), Split(b, c));
    }
  }

  /** Extending the first piece of `xs + ys` extends the first piece of `xs`. */
  lemma ExtendHead(h: string, xs: seq<string>, ys: seq<string>)
    requires xs != []
    ensures [h + (xs + ys)[0]] + (xs + ys)[1..] == ([h + xs[0]] + xs[1..]) + ys
  {
    assert (xs + ys)[0] == xs[0];
    assert (xs + ys)[1..] == xs[1..] + ys;
  }

  /** `sep.join(xs)` / `xs.join(sep)`. */
  function Join(xs: seq<string>, sep: string): string
    decreases |xs|
  {
    if xs == [] then ""
    else if |xs| == 1 then xs[0]
    else xs[0] + sep + Join(xs[1..], sep)
  }

  /** Splitting and rejoining gives back the string. */
  lemma {:induction false} JoinSplit(s: string, c: char)
    ensures Join(Split(s, c), [c]) == s
    decreases |s|
  {
    if s == [] {
    } else if s[0] == c {
      var rest := Split(s[1..], c);
      JoinSplit(s[1..], c);
      assert Split(s, c)[1..] == rest;
      assert s == [c] + s[1..];
    } else {
      var rest := Split(s[1..], c);
      var parts := Split(s, c);
      JoinSplit(s[1..], c);
      assert parts == [[s[0]] + rest[0]] + rest[1..];
      if |rest| > 1 {
        assert parts[1..] == rest[1..];
        assert Join(rest, [c]) == rest[0] + [c] + Join(rest[1..], [c]);
      }
      assert s == [s[0]] + s[1..];
    }
  }

  lemma {:induction false} JoinSnoc(xs: seq<string>, x: string, sep: string)
    ensures Join(xs + [x], sep) == if xs == [] then x else Join(xs, sep) + sep + x
    decreases |xs|
  {
    if |xs| <= 1 {
    } else {
      assert (xs + [x])[1..] == xs[1..] + [x];
      JoinSnoc(xs[1..], x, sep);
    }
  }

  /** Everything after the last `c` (the whole string when there is none). */
  function LastPiece(s: string, c: char): (r: string)
    ensures c !in r
  {
    var parts := Split(s, c);
    parts[|parts| - 1]
  }

  lemma {:induction false} LastPieceIsSuffix(s: string, c: char)
    ensures EndsWith(s, LastPiece(s, c))
    ensures c !in s ==> LastPiece(s, c) == s
    ensures c in s ==> |LastPiece(s, c)| < |s| && s[|s| - |LastPiece(s, c)| - 1] == c
    decreases |s|
  {
    if s == [] {
    } else if s[0] == c {
      LastPieceIsSuffix(s[1..], c);
    } else {
      LastPieceIsSuffix(s[1..], c);
      var rest := Split(s[1..], c);
      if c in s[1..] {
        assert LastPiece(s, c) == rest[|rest| - 1];
      }
    }
  }

  lemma {:induction false} LastPieceAppend(a: string, b: string, c: char)
    requires c !in b
    ensures LastPiece(a + [c] + b, c) == b
    decreases |a|
  {
    if a == [] {
      assert a + [c] + b == [c] + b;
    } else {
      var t := a + [c] + b;
      assert t[1..] == a[1..] + [c] + b;
      assert t[1..][|a| - 1] == c;
      LastPieceAppend(a[1..], b, c);
      var rest := Split(t[1..], c);
      assert |rest| >= 2;
      assert LastPiece(t, c) == rest[|rest| - 1];
    }
  }

  // ---------------------------------------------------------------------------
  // White-space runs

  /** JavaScript's `s.replace(/\s+/g, ' ')`: every maximal run of white space
      becomes one space. */
  function CollapseSpace(s: string): (r: string)
    ensures |r| <= |s|
    decreases |s|
  {
    if s == [] then []
    else if JsSpace(s[0]) then " " + CollapseSpace(DropWhile(s, JsSpace))
    else [s[0]] + CollapseSpace(s[1..])
  }

  /** The only white space left after collapsing is the single space, and no
      two spaces are adjacent. */
  lemma {:induction false} CollapseSpaceShape(s: string)
    ensures forall i :: 0 <= i < |CollapseSpace(s)| && JsSpace(CollapseSpace(s)[i]) ==> CollapseSpace(s)[i] == ' '
    ensures forall i :: 0 <= i < |CollapseSpace(s)| - 1 ==> !(CollapseSpace(s)[i] == ' ' && CollapseSpace(s)[i + 1] == ' ')
    decreases |s|
  {
    if s == [] {
    } else if JsSpace(s[0]) {
      var d := DropWhile(s, JsSpace);
      CollapseSpaceShape(d);
      var t := CollapseSpace(d);
      if t != [] {
        assert d != [] && !JsSpace(d[0]);
        assert t[0] == d[0];
      }
    } else {
      CollapseSpaceShape(s[1..]);
    }
  }

  // ---------------------------------------------------------------------------
  // Decimal numerals

  function DigitChar(d: nat): (c: char)
    requires d < 10
    ensures AsciiDigit(c)
  {
    (('0' as int) + d) as char
  }

  function DigitValue(c: char): (d: nat)
    requires AsciiDigit(c)
    ensures d < 10
  {
    (c as int) - ('0' as int)
  }

  predicate AllDigits(s: string) {
    forall i :: 0 <= i < |s| ==> AsciiDigit(s[i])
  }

  /** `String(n)` for a non-negative integer: its decimal numeral. */
  function NatToString(n: nat): (r: string)
    ensures |r| >= 1 && AllDigits(r)
    ensures n < 10 <==> |r| == 1
    decreases n
  {
    if n < 10 then [DigitChar(n)] else NatToString(n / 10) + [DigitChar(n % 10)]
  }

  /** The value of a string of decimal digits ("" reads as 0, as `Number("")` does). */
  function ParseDigits(s: string): nat
    requires AllDigits(s)
    decreases |s|
  {
    if s == [] then 0 else ParseDigits(s[..|s| - 1]) * 10 + DigitValue(s[|s| - 1])
  }

  lemma {:induction false} ParseNatToString(n: nat)
    ensures ParseDigits(NatToString(n)) == n
    decreases n
  {
    if n >= 10 {
      var r := NatToString(n);
      assert r[..|r| - 1] == NatToString(n / 10);
      ParseNatToString(n / 10);
    }
  }

  /** `s.padStart(width, c)` with a one-character filler. */
  function PadStart(s: string, width: nat, c: char): (r: string)
    ensures |r| == if |s| >= width then |s| else width
    ensures forall i :: 0 <= i < |r| - |s| ==> r[i] == c
    ensures forall i :: 0 <= i < |s| ==> r[|r| - |s| + i] == s[i]
  {
    if |s| >= width then s else seq(width - |s|, _ => c) + s
  }
}
