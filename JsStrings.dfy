/** The JavaScript string primitives the application relies on, stated as
    explicit functions: UTF-16 length, the `\s` / `trim()` whitespace class,
    whitespace-separated tokens, `split` on one character, `join`, ASCII
    lower-casing, `includes`, and `Number.prototype.toString(radix)`. */
module JsStrings {

  // ---------------------------------------------------------------------
  // UTF-16 code units (what `length` and `charCodeAt` count)
  // ---------------------------------------------------------------------

  /** The UTF-16 encoding of one Unicode scalar value. */
  function CharUnits(c: char): (r: seq<int>)
    ensures 1 <= |r| <= 2
    ensures forall i :: 0 <= i < |r| ==> 0 <= r[i] < 0x1_0000
    ensures |r| == 1 <==> (c as int) < 0x1_0000
  {
    var v := c as int;
    if v < 0x1_0000 then [v]
    else [0xD800 + (v - 0x1_0000) / 0x400, 0xDC00 + (v - 0x1_0000) % 0x400]
  }

  /** The sequence of UTF-16 code units of a string, as `charCodeAt` sees them. */
  function CodeUnits(s: string): (r: seq<int>)
    ensures |r| >= |s|
    ensures forall i :: 0 <= i < |r| ==> 0 <= r[i] < 0x1_0000
  {
    if s == [] then [] else CharUnits(s[0]) + CodeUnits(s[1..])
  }

  lemma {:induction false} CodeUnitsAppend(a: string, b: string)
    ensures CodeUnits(a + b) == CodeUnits(a) + CodeUnits(b)
  {
    if a == [] {
      assert a + b == b;
    } else {
      assert (a + b)[0] == a[0];
      assert (a + b)[1..] == a[1..] + b;
      CodeUnitsAppend(a[1..], b);
    }
  }

  /** `s.length` in JavaScript. */
  function JsLength(s: string): nat
  {
    |CodeUnits(s)|
  }

  lemma JsLengthAppend(a: string, b: string)
    ensures JsLength(a + b) == JsLength(a) + JsLength(b)
  {
    CodeUnitsAppend(a, b);
  }

  /** JavaScript counts a character outside the Basic Multilingual Plane twice. */
  lemma {:induction false} JsLengthBasicPlane(s: string)
    requires forall i :: 0 <= i < |s| ==> (s[i] as int) < 0x1_0000
    ensures JsLength(s) == |s|
  {
    if s != [] {
      JsLengthBasicPlane(s[1..]);
    }
  }

  // ---------------------------------------------------------------------
  // Whitespace, trim() and tokens
  // ---------------------------------------------------------------------

  /** ECMAScript WhiteSpace or LineTerminator: the class that `\s` matches and
      that `trim()` removes. */
  predicate IsSpace(c: char)
  {
    var v := c as int;
    v == 0x09 || v == 0x0A || v == 0x0B || v == 0x0C || v == 0x0D || v == 0x20
    || v == 0xA0 || v == 0x1680 || (0x2000 <= v <= 0x200A) || v == 0x2028
    || v == 0x2029 || v == 0x202F || v == 0x205F || v == 0x3000 || v == 0xFEFF
  }

  /** A string is truthy exactly when it is non-empty (`filter(Boolean)`). */
  predicate Truthy(s: string)
  {
    s != ""
  }

  /** Every character is whitespace (`s.trim().length === 0`). */
  predicate IsBlank(s: string)
  {
    forall i :: 0 <= i < |s| ==> IsSpace(s[i])
  }

  /** Length of the leading run of whitespace. */
  function LeadingSpaces(s: string): (n: nat)
    ensures n <= |s|
    ensures forall i :: 0 <= i < n ==> IsSpace(s[i])
    ensures n < |s| ==> !IsSpace(s[n])
  {
    if s != [] && IsSpace(s[0]) then 1 + LeadingSpaces(s[1..]) else 0
  }

  /** `s` without its leading whitespace. */
  function TrimStart(s: string): (r: string)
    ensures |r| <= |s| && r == s[|s| - |r|..]
    ensures IsBlank(s[..|s| - |r|])
    ensures r == [] || !IsSpace(r[0])
  {
    var n := LeadingSpaces(s);
    assert IsBlank(s[..n]) by {
      forall i | 0 <= i < n ensures IsSpace(s[..n][i]) { assert s[..n][i] == s[i]; }
    }
    s[n..]
  }

  /** `s` without its trailing whitespace. */
  function TrimEnd(s: string): (r: string)
    ensures |r| <= |s| && r == s[..|r|]
    ensures IsBlank(s[|r|..])
    ensures r == [] || !IsSpace(r[|r| - 1])
  {
    if s != [] && IsSpace(s[|s| - 1]) then TrimEnd(s[..|s| - 1]) else s
  }

  /** `s.trim()`. */
  function Trim(s: string): string
  {
    TrimEnd(TrimStart(s))
  }

  /** `trim()` removes only blank margins and leaves no whitespace at either end. */
  lemma TrimShape(s: string)
    ensures exists i, j :: 0 <= i <= j <= |s| && Trim(s) == s[i..j] && IsBlank(s[..i]) && IsBlank(s[j..])
    ensures Trim(s) == [] || (!IsSpace(Trim(s)[0]) && !IsSpace(Trim(s)[|Trim(s)| - 1]))
  {
    var t := TrimStart(s);
    var i := |s| - |t|;
    var u := TrimEnd(t);
    assert s[i..][..|u|] == s[i..i + |u|];
    assert s[i + |u|..] == t[|u|..];
    if u != [] {
      assert u[0] == t[0];
    }
  }

  /** Trimming a blank string leaves nothing; trimming keeps a non-blank string non-empty. */
  lemma TrimEmptyIffBlank(s: string)
    ensures Trim(s) == [] <==> IsBlank(s)
  {
    TrimShape(s);
    var i, j :| 0 <= i <= j <= |s| && Trim(s) == s[i..j] && IsBlank(s[..i]) && IsBlank(s[j..]);
    if Trim(s) == [] {
      forall k | 0 <= k < |s| ensures IsSpace(s[k]) {
        if k < i { assert s[..i][k] == s[k]; } else { assert s[j..][k - j] == s[k]; }
      }
    } else {
      assert !IsSpace(s[i]);
    }
  }

  /** A string that already has no whitespace at its ends is its own trim. */
  lemma TrimOfTrimmed(s: string)
    requires s == [] || (!IsSpace(s[0]) && !IsSpace(s[|s| - 1]))
    ensures Trim(s) == s
  {
  }

  /** Length of the leading run of non-whitespace characters. */
  function WordLength(s: string): (n: nat)
    ensures n <= |s|
    ensures forall i :: 0 <= i < n ==> !IsSpace(s[i])
    ensures n < |s| ==> IsSpace(s[n])
  {
    if s == [] || IsSpace(s[0]) then 0 else 1 + WordLength(s[1..])
  }

  lemma {:induction false} WordLengthUnique(s: string, k: nat)
    requires k <= |s|
    requires forall i :: 0 <= i < k ==> !IsSpace(s[i])
    requires k < |s| ==> IsSpace(s[k])
    ensures WordLength(s) == k
  {
    if k > 0 {
      WordLengthUnique(s[1..], k - 1);
    }
  }

  /** The maximal runs of non-whitespace characters, in order: the words a
      reader sees, `s.trim().split(/\s+/)` without the empty piece of a blank `s`. */
  function Tokens(s: string): seq<string>
    decreases |s|
  {
    if s == [] then []
    else if IsSpace(s[0]) then Tokens(s[1..])
    else
      var n := WordLength(s);
      [s[..n]] + Tokens(s[n..])
  }

  lemma {:induction false} TokensOfBlankPrefix(w: string, b: string)
    requires IsBlank(w)
    ensures Tokens(w + b) == Tokens(b)
  {
    if w == [] {
      assert w + b == b;
    } else {
      assert (w + b)[0] == w[0];
      assert (w + b)[1..] == w[1..] + b;
      TokensOfBlankPrefix(w[1..], b);
    }
  }

  /** A non-empty run of whitespace separates tokens: the tokens of `a + w + b`
      are those of `a` followed by those of `b`. */
  lemma {:induction false} TokensSeparated(a: string, w: string, b: string)
    requires |w| > 0 && IsBlank(w)
    ensures Tokens(a + w + b) == Tokens(a) + Tokens(b)
    decreases |a|
  {
    var s := a + w + b;
    if a == [] {
      assert s == w + b;
      TokensOfBlankPrefix(w, b);
    } else if IsSpace(a[0]) {
      assert s[0] == a[0];
      assert s[1..] == a[1..] + w + b;
      TokensSeparated(a[1..], w, b);
    } else {
      var na := WordLength(a);
      assert s[0] == a[0];
      WordOfJoin(a, w, b);
      assert s[..na] == a[..na];
      assert s[na..] == a[na..] + w + b;
      assert Tokens(s) == [a[..na]] + Tokens(a[na..] + w + b);
      TokensSeparated(a[na..], w, b);
    }
  }

  /** A whitespace run inside a string separates the tokens on either side of it. */
  lemma TokensAroundGap(t: string, q: nat, e: nat)
    requires q < e <= |t|
    requires forall k :: q <= k < e ==> IsSpace(t[k])
    ensures Tokens(t) == Tokens(t[..q]) + Tokens(t[e..])
  {
    var w := t[q..e];
    assert IsBlank(w) by {
      forall k | 0 <= k < e - q ensures IsSpace(w[k]) {
        assert w[k] == t[q + k];
      }
    }
    assert t == t[..q] + w + t[e..];
    TokensSeparated(t[..q], w, t[e..]);
  }

  lemma WordOfJoin(a: string, w: string, b: string)
    requires |w| > 0 && IsSpace(w[0])
    ensures WordLength(a + w + b) == WordLength(a)
  {
    var s := a + w + b;
    var na := WordLength(a);
    forall i | 0 <= i < na ensures !IsSpace(s[i]) {
      assert s[i] == a[i];
    }
    assert s[na] == if na < |a| then a[na] else w[0];
    WordLengthUnique(s, na);
  }

  /** Trailing whitespace adds no token. */
  lemma TokensOfBlankSuffix(a: string, w: string)
    requires IsBlank(w)
    ensures Tokens(a + w) == Tokens(a)
  {
    if w == [] {
      assert a + w == a;
    } else {
      assert a + w == a + w + [];
      TokensSeparated(a, w, []);
      assert Tokens(a) + Tokens([]) == Tokens(a);
    }
  }

  /** `trim()` keeps every token. */
  lemma TokensOfTrim(s: string)
    ensures Tokens(Trim(s)) == Tokens(s)
  {
    TokensOfTrimStart(s);
    TokensOfTrimEnd(TrimStart(s));
  }

  lemma TokensOfTrimStart(s: string)
    ensures Tokens(TrimStart(s)) == Tokens(s)
  {
    var t := TrimStart(s);
    var p := s[..|s| - |t|];
    assert s == p + t;
    TokensOfBlankPrefix(p, t);
  }

  lemma TokensOfTrimEnd(t: string)
    ensures Tokens(TrimEnd(t)) == Tokens(t)
  {
    var u := TrimEnd(t);
    var q := t[|u|..];
    assert t == u + q;
    TokensOfBlankSuffix(u, q);
  }

  /** A string has no token exactly when it is blank. */
  lemma {:induction false} TokensEmptyIffBlank(s: string)
    ensures Tokens(s) == [] <==> IsBlank(s)
    decreases |s|
  {
    if s != [] && IsSpace(s[0]) {
      TokensEmptyIffBlank(s[1..]);
      if IsBlank(s[1..]) {
        forall k | 0 <= k < |s| ensures IsSpace(s[k]) {
          if k > 0 { assert s[1..][k - 1] == s[k]; }
        }
      }
    }
  }

  /** The tokens of every string of `ss`, concatenated in order. */
  function TokensOfAll(ss: seq<string>): seq<string>
  {
    if ss == [] then [] else Tokens(ss[0]) + TokensOfAll(ss[1..])
  }

  lemma {:induction false} TokensOfAllAppend(a: seq<string>, b: seq<string>)
    ensures TokensOfAll(a + b) == TokensOfAll(a) + TokensOfAll(b)
  {
    if a == [] {
      assert a + b == b;
    } else {
      assert (a + b)[0] == a[0];
      assert (a + b)[1..] == a[1..] + b;
      TokensOfAllAppend(a[1..], b);
    }
  }

  lemma TokensOfAllSnoc(a: seq<string>, x: string)
    ensures TokensOfAll(a + [x]) == TokensOfAll(a) + Tokens(x)
  {
    TokensOfAllAppend(a, [x]);
    assert TokensOfAll([x]) == Tokens(x) + TokensOfAll([]);
  }

  /** The tokens of a non-empty sequence: those of all but the last string,
      then those of the last. */
  lemma TokensOfAllLast(ss: seq<string>)
    requires ss != []
    ensures TokensOfAll(ss) == TokensOfAll(ss[..|ss| - 1]) + Tokens(ss[|ss| - 1])
  {
    assert ss == ss[..|ss| - 1] + [ss[|ss| - 1]];
    TokensOfAllSnoc(ss[..|ss| - 1], ss[|ss| - 1]);
  }

  // ---------------------------------------------------------------------
  // split on one character, join
  // ---------------------------------------------------------------------

  /** Index of the first `c` in `s`, or `|s|` when there is none. */
  function FirstIndexOf(s: string, c: char): (i: nat)
    ensures i <= |s|
    ensures forall k :: 0 <= k < i ==> s[k] != c
    ensures i < |s| ==> s[i] == c
  {
    if s == [] || s[0] == c then 0 else 1 + FirstIndexOf(s[1..], c)
  }

  /** `s.split(c)` for a one-character separator: always at least one piece,
      empty pieces included. */
  function Split(s: string, c: char): (r: seq<string>)
    ensures |r| >= 1
    ensures forall k :: 0 <= k < |r| ==> c !in r[k]
    decreases |s|
  {
    var i := FirstIndexOf(s, c);
    if i == |s| then [s] else [s[..i]] + Split(s[i + 1..], c)
  }

  /** `ss.join(sep)`. */
  function Join(ss: seq<string>, sep: string): string
  {
    if |ss| == 0 then ""
    else if |ss| == 1 then ss[0]
    else ss[0] + sep + Join(ss[1..], sep)
  }

  /** Joining the pieces of a split with the separator gives back the string. */
  lemma {:induction false} JoinSplit(s: string, c: char)
    ensures Join(Split(s, c), [c]) == s
    decreases |s|
  {
    var i := FirstIndexOf(s, c);
    if i < |s| {
      JoinSplit(s[i + 1..], c);
      assert s == s[..i] + [c] + s[i + 1..];
    }
  }

  /** Splitting a join whose pieces do not contain the separator gives back the pieces. */
  lemma {:induction false} SplitJoin(ss: seq<string>, c: char)
    requires |ss| >= 1
    requires forall k :: 0 <= k < |ss| ==> c !in ss[k]
    ensures Split(Join(ss, [c]), c) == ss
  {
    var s := Join(ss, [c]);
    if |ss| == 1 {
      assert FirstIndexOf(s, c) == |s|;
    } else {
      assert s == ss[0] + [c] + Join(ss[1..], [c]);
      assert FirstIndexOf(s, c) == |ss[0]| by {
        assert s[|ss[0]|] == c;
        assert forall k :: 0 <= k < |ss[0]| ==> s[k] == ss[0][k];
      }
      assert s[..|ss[0]|] == ss[0];
      assert s[|ss[0]| + 1..] == Join(ss[1..], [c]);
      SplitJoin(ss[1..], c);
    }
  }

  lemma JoinSnoc(ss: seq<string>, x: string, sep: string)
    requires |ss| >= 1
    ensures Join(ss + [x], sep) == Join(ss, sep) + sep + x
    decreases |ss|
  {
    if |ss| == 1 {
      assert ss + [x] == [ss[0], x];
    } else {
      assert (ss + [x])[1..] == ss[1..] + [x];
      JoinSnoc(ss[1..], x, sep);
    }
  }

  /** Joining a concatenation puts one separator between the two joins. */
  lemma {:induction false} JoinAppend(a: seq<string>, b: seq<string>, sep: string)
    requires |a| >= 1 && |b| >= 1
    ensures Join(a + b, sep) == Join(a, sep) + sep + Join(b, sep)
    decreases |a|
  {
    assert (a + b)[0] == a[0];
    assert (a + b)[1..] == a[1..] + b;
    if |a| > 1 {
      JoinAppend(a[1..], b, sep);
    }
  }

  /** A blank, non-empty separator keeps the pieces' tokens apart. */
  lemma {:induction false} TokensOfJoin(ss: seq<string>, sep: string)
    requires |sep| > 0 && IsBlank(sep)
    ensures Tokens(Join(ss, sep)) == TokensOfAll(ss)
  {
    if |ss| == 1 {
      assert TokensOfAll(ss) == Tokens(ss[0]) + TokensOfAll([]);
    } else if |ss| > 1 {
      TokensOfJoin(ss[1..], sep);
      TokensSeparated(ss[0], sep, Join(ss[1..], sep));
    }
  }

  // ---------------------------------------------------------------------
  // Case folding and substring search
  // ---------------------------------------------------------------------

  /** `toLowerCase()` restricted to ASCII letters. */
  function LowerChar(c: char): char
  {
    if 'A' <= c <= 'Z' then (c as int + 32) as char else c
  }

  function Lower(s: string): (r: string)
    ensures |r| == |s|
    ensures forall i :: 0 <= i < |s| ==> r[i] == LowerChar(s[i])
  {
    seq(|s|, i requires 0 <= i < |s| => LowerChar(s[i]))
  }

  /** `s.includes(sub)`: `sub` occurs at some position of `s`. */
  predicate Contains(s: string, sub: string)
  {
    exists i :: 0 <= i <= |s| - |sub| && IsPrefix(sub, s[i..])
  }

  predicate IsPrefix(p: string, s: string)
  {
    |p| <= |s| && s[..|p|] == p
  }

  /** Every string contains the empty string. */
  lemma ContainsEmpty(s: string)
    ensures Contains(s, "")
  {
    assert IsPrefix("", s[0..]);
  }

  /** `s.toLowerCase().includes(q.toLowerCase())`. */
  predicate ContainsIgnoringCase(s: string, q: string)
  {
    Contains(Lower(s), Lower(q))
  }

  // ---------------------------------------------------------------------
  // Number.prototype.toString(radix) for non-negative integers
  // ---------------------------------------------------------------------

  /** The digit character for `d` in radix 36: `0-9` then `a-z`. */
  function Digit(d: nat): (c: char)
    requires d < 36
  {
    if d < 10 then ('0' as int + d) as char else ('a' as int + d - 10) as char
  }

  /** The digit value of `c` in radix 36, or 36 when `c` is not a digit. */
  function DigitValue(c: char): (d: nat)
    ensures d <= 36
    ensures d < 36 ==> Digit(d) == c
  {
    if '0' <= c <= '9' then c as int - '0' as int
    else if 'a' <= c <= 'z' then c as int - 'a' as int + 10
    else 36
  }

  /** `n.toString(radix)`: most significant digit first, no leading zero. */
  function ToRadix(n: nat, radix: nat): (r: string)
    requires 2 <= radix <= 36
    ensures |r| >= 1
    ensures forall i :: 0 <= i < |r| ==> DigitValue(r[i]) < radix
    ensures r[0] == '0' ==> n == 0
  {
    if n < radix then [Digit(n)]
    else
      DivisionShrinks(n, radix);
      ToRadix(n / radix, radix) + [Digit(n % radix)]
  }

  lemma DivisionShrinks(n: nat, radix: nat)
    requires 2 <= radix <= n
    ensures 1 <= n / radix < n
    ensures n == n / radix * radix + n % radix && n % radix < radix
  {
    var q, m := n / radix, n % radix;
    assert n == q * radix + m;
    assert 0 <= m < radix;
    var k := radix - 2;
    assert q * radix == q * k + q * 2;
    assert q * k >= 0;
  }

  lemma DigitRoundTrip(d: nat)
    requires d < 36
    ensures DigitValue(Digit(d)) == d
  {
  }

  /** The value of a digit string in the given radix. */
  function FromRadix(s: string, radix: nat): nat
  {
    if s == [] then 0
    else FromRadix(s[..|s| - 1], radix) * radix + DigitValue(s[|s| - 1])
  }

  /** `ToRadix` loses no information: reading the digits back gives the number. */
  lemma {:induction false} FromToRadix(n: nat, radix: nat)
    requires 2 <= radix <= 36
    ensures FromRadix(ToRadix(n, radix), radix) == n
  {
    if n >= radix {
      DivisionShrinks(n, radix);
      var prefix := ToRadix(n / radix, radix);
      var r := prefix + [Digit(n % radix)];
      assert ToRadix(n, radix) == r;
      assert r[..|r| - 1] == prefix;
      FromToRadix(n / radix, radix);
      DigitRoundTrip(n % radix);
      assert FromRadix(r, radix) == FromRadix(prefix, radix) * radix + n % radix;
    } else {
      var r := [Digit(n)];
      assert r[..0] == [];
      DigitRoundTrip(n);
      assert FromRadix(r, radix) == FromRadix([], radix) * radix + n;
    }
  }

  /** Distinct numbers have distinct renderings. */
  lemma ToRadixInjective(m: nat, n: nat, radix: nat)
    requires 2 <= radix <= 36
    requires ToRadix(m, radix) == ToRadix(n, radix)
    ensures m == n
  {
    FromToRadix(m, radix);
    FromToRadix(n, radix);
  }

  /** Decimal rendering, as in template literals and `JSON.stringify`. */
  function Decimal(n: nat): string
  {
    ToRadix(n, 10)
  }

  predicate StartsWith(s: string, prefix: string)
  {
    IsPrefix(prefix, s)
  }
}
