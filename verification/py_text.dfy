/**
 * The Python `str` operations the backend relies on: `isspace`, `lower`, `upper`,
 * `strip`, `split()` with no separator, `" ".join` and the slice `s[:n]`.
 * Case mapping covers ASCII letters only.
 */
module PyText {

  /** `c.isspace()`: the characters that `split()` and `strip()` treat as whitespace. */
  predicate IsSpace(c: char) {
    var n := c as int;
    || 9 <= n <= 13
    || 28 <= n <= 32
    || n == 0x85 || n == 0xA0 || n == 0x1680
    || 0x2000 <= n <= 0x200A
    || n == 0x2028 || n == 0x2029 || n == 0x202F || n == 0x205F || n == 0x3000
  }

  /** Empty or whitespace only: `not s.strip()`. */
  predicate IsBlank(s: string) {
    forall i :: 0 <= i < |s| ==> IsSpace(s[i])
  }

  /** A piece that `split()` can return: non-empty and without whitespace. */
  predicate IsToken(t: string) {
    t != [] && forall i :: 0 <= i < |t| ==> !IsSpace(t[i])
  }

  predicate HasNoUpper(s: string) {
    forall i :: 0 <= i < |s| ==> !('A' <= s[i] <= 'Z')
  }

  function LowerChar(c: char): char {
    if 'A' <= c <= 'Z' then (c as int + 32) as char else c
  }

  function UpperChar(c: char): char {
    if 'a' <= c <= 'z' then (c as int - 32) as char else c
  }

  /** `s.lower()` */
  function Lower(s: string): string {
    seq(|s|, i requires 0 <= i < |s| => LowerChar(s[i]))
  }

  /** `s.upper()` */
  function Upper(s: string): string {
    seq(|s|, i requires 0 <= i < |s| => UpperChar(s[i]))
  }

  /** `lower()` leaves no upper-case letter and keeps every whitespace position. */
  lemma LowerProperties(s: string)
    ensures |Lower(s)| == |s| && HasNoUpper(Lower(s))
    ensures forall i :: 0 <= i < |s| ==> (IsSpace(Lower(s)[i]) <==> IsSpace(s[i]))
  {
  }

  lemma LowerAppend(a: string, b: string)
    ensures Lower(a + b) == Lower(a) + Lower(b)
  {
    assert |Lower(a + b)| == |Lower(a) + Lower(b)|;
    forall i | 0 <= i < |a + b|
      ensures Lower(a + b)[i] == (Lower(a) + Lower(b))[i]
    {
      if i < |a| {
        assert (a + b)[i] == a[i];
      } else {
        assert (a + b)[i] == b[i - |a|];
      }
    }
  }

  /** `s.upper() == "Y"` holds exactly for "Y" and "y": the comparison ignores case. */
  lemma UpperIsLetter(s: string, letter: char)
    requires 'A' <= letter <= 'Z'
    ensures Upper(s) == [letter] <==> s == [letter] || s == [(letter as int + 32) as char]
  {
    if Upper(s) == [letter] {
      assert |s| == 1 && Upper(s)[0] == letter;
      assert UpperChar(s[0]) == letter;
      if 'a' <= s[0] <= 'z' {
        assert s[0] as int == letter as int + 32;
        assert s == [(letter as int + 32) as char];
      } else {
        assert s == [letter];
      }
    }
    if s == [(letter as int + 32) as char] {
      assert Upper(s)[0] == letter;
    }
  }

  // ----- strip -----

  /** Number of whitespace characters at the start of `s`. */
  function LeadingSpaces(s: string): (n: nat)
    ensures n <= |s| && IsBlank(s[..n])
    ensures n < |s| ==> !IsSpace(s[n])
  {
    if s == [] || !IsSpace(s[0]) then 0 else 1 + LeadingSpaces(s[1..])
  }

  /** Number of whitespace characters at the end of `s`. */
  function TrailingSpaces(s: string): (n: nat)
    ensures n <= |s| && IsBlank(s[|s| - n..])
    ensures n < |s| ==> !IsSpace(s[|s| - n - 1])
  {
    if s == [] || !IsSpace(s[|s| - 1]) then 0 else 1 + TrailingSpaces(s[..|s| - 1])
  }

  /** `s.strip()`: `s` without its leading and trailing whitespace. */
  function Strip(s: string): (r: string)
    ensures r == [] <==> IsBlank(s)
    ensures r != [] ==> !IsSpace(r[0]) && !IsSpace(r[|r| - 1])
  {
    var k := LeadingSpaces(s);
    var t := s[k..];
    var n := TrailingSpaces(t);
    assert IsBlank(s) ==> k == |s|;
    assert |t| - n == 0 ==> IsBlank(s) by {
      if |t| - n == 0 {
        assert s == s[..k];
      }
    }
    t[..|t| - n]
  }

  /** What `strip()` removes is whitespace and what it keeps is a slice of `s`. */
  lemma StripKeepsMiddle(s: string)
    ensures var k, r := LeadingSpaces(s), Strip(s);
            && k + |r| <= |s| && r == s[k..k + |r|]
            && IsBlank(s[..k]) && IsBlank(s[k + |r|..])
  {
    var k := LeadingSpaces(s);
    var t := s[k..];
    var n := TrailingSpaces(t);
    var r := Strip(s);
    assert r == t[..|t| - n];
    assert |r| == |t| - n && k + |r| <= |s|;
    assert r == s[k..k + |r|];
    assert s[k + |r|..] == t[|t| - n..];
  }

  // ----- split -----

  /** The longest prefix of `s` without whitespace. */
  function Word(s: string): (w: string)
    ensures |w| <= |s| && w == s[..|w|]
    ensures forall i :: 0 <= i < |w| ==> !IsSpace(w[i])
    ensures |w| < |s| ==> IsSpace(s[|w|])
  {
    if s == [] || IsSpace(s[0]) then [] else [s[0]] + Word(s[1..])
  }

  /** `s.split()`: the maximal runs of non-whitespace characters, in order. */
  function Split(s: string): (r: seq<string>)
    ensures forall i :: 0 <= i < |r| ==> IsToken(r[i])
    ensures r == [] <==> IsBlank(s)
    decreases |s|
  {
    if s == [] then []
    else if IsSpace(s[0]) then
      var r := Split(s[1..]);
      assert IsBlank(s) <==> IsBlank(s[1..]) by {
        forall i | 0 <= i < |s[1..]| ensures s[1..][i] == s[i + 1] { }
      }
      r
    else
      var w := Word(s);
      [w] + Split(s[|w|..])
  }

  /** Every character of every token is a character of the input. */
  lemma {:induction false} SplitChars(s: string, i: nat, j: nat)
    requires i < |Split(s)| && j < |Split(s)[i]|
    ensures exists k :: 0 <= k < |s| && s[k] == Split(s)[i][j]
    decreases |s|
  {
    if IsSpace(s[0]) {
      SplitChars(s[1..], i, j);
      var k :| 0 <= k < |s[1..]| && s[1..][k] == Split(s)[i][j];
      assert s[k + 1] == Split(s)[i][j];
    } else if i == 0 {
      assert s[j] == Split(s)[i][j];
    } else {
      var w := Word(s);
      SplitChars(s[|w|..], i - 1, j);
      var k :| 0 <= k < |s[|w|..]| && s[|w|..][k] == Split(s)[i][j];
      assert s[|w| + k] == Split(s)[i][j];
    }
  }

  function Concat(ts: seq<string>): string {
    if ts == [] then [] else ts[0] + Concat(ts[1..])
  }

  /** `s` with every whitespace character deleted. */
  function RemoveSpaces(s: string): string {
    if s == [] then [] else (if IsSpace(s[0]) then [] else [s[0]]) + RemoveSpaces(s[1..])
  }

  lemma {:induction false} RemoveSpacesAppend(a: string, b: string)
    ensures RemoveSpaces(a + b) == RemoveSpaces(a) + RemoveSpaces(b)
  {
    if a == [] {
      assert a + b == b;
    } else {
      assert (a + b)[1..] == a[1..] + b;
      RemoveSpacesAppend(a[1..], b);
    }
  }

  lemma {:induction false} RemoveSpacesOfWord(w: string)
    requires forall i :: 0 <= i < |w| ==> !IsSpace(w[i])
    ensures RemoveSpaces(w) == w
  {
    if w != [] {
      RemoveSpacesOfWord(w[1..]);
    }
  }

  /** Concatenating the tokens of `split()` gives the input with its whitespace removed. */
  lemma {:induction false} SplitConcat(s: string)
    ensures Concat(Split(s)) == RemoveSpaces(s)
    decreases |s|
  {
    if s == [] {
    } else if IsSpace(s[0]) {
      SplitConcat(s[1..]);
    } else {
      var w := Word(s);
      assert s == w + s[|w|..];
      RemoveSpacesAppend(w, s[|w|..]);
      RemoveSpacesOfWord(w);
      SplitConcat(s[|w|..]);
    }
  }

  lemma {:induction false} WordBeforeSpace(a: string, b: string)
    ensures Word(a + " " + b) == Word(a)
  {
    if a != [] && !IsSpace(a[0]) {
      assert (a + " " + b)[1..] == a[1..] + " " + b;
      WordBeforeSpace(a[1..], b);
    }
  }

  /** Splitting around a single space splits each side on its own. */
  lemma {:induction false} SplitAroundSpace(a: string, b: string)
    ensures Split(a + " " + b) == Split(a) + Split(b)
    decreases |a|
  {
    var s := a + " " + b;
    if a == [] {
      assert s[1..] == b;
    } else if IsSpace(a[0]) {
      assert s[1..] == a[1..] + " " + b;
      SplitAroundSpace(a[1..], b);
    } else {
      WordBeforeSpace(a, b);
      var w := Word(a);
      assert s[|w|..] == a[|w|..] + " " + b;
      SplitAroundSpace(a[|w|..], b);
    }
  }

  // ----- join -----

  /** `" ".join(parts)`: the parts with exactly one space between neighbours. */
  function Join(parts: seq<string>): (r: string)
    ensures |r| == |Concat(parts)| + (if |parts| == 0 then 0 else |parts| - 1)
  {
    if |parts| == 0 then ""
    else if |parts| == 1 then parts[0]
    else parts[0] + " " + Join(parts[1..])
  }

  /** A joined text is blank exactly when every joined part is blank. */
  lemma {:induction false} JoinBlank(parts: seq<string>)
    ensures IsBlank(Join(parts)) <==> forall i :: 0 <= i < |parts| ==> IsBlank(parts[i])
  {
    if |parts| > 1 {
      JoinBlank(parts[1..]);
      var a, b := parts[0], Join(parts[1..]);
      var s := a + " " + b;
      assert IsBlank(s) <==> IsBlank(a) && IsBlank(b) by {
        assert forall i :: 0 <= i < |a| ==> s[i] == a[i];
        assert forall i :: 0 <= i < |b| ==> s[|a| + 1 + i] == b[i];
        assert s[|a|] == ' ';
      }
      assert forall i :: 1 <= i < |parts| ==> parts[i] == parts[1..][i - 1];
    }
  }

  /** `text.lower().split()`: the tokenisation used for the lexical index and the query. */
  function Tokenize(text: string): (r: seq<string>)
    ensures forall i :: 0 <= i < |r| ==> IsToken(r[i]) && HasNoUpper(r[i])
    ensures r == [] <==> IsBlank(text)
  {
    var r := Split(Lower(text));
    LowerProperties(text);
    forall i, j | 0 <= i < |r| && 0 <= j < |r[i]|
      ensures !('A' <= r[i][j] <= 'Z')
    {
      SplitChars(Lower(text), i, j);
    }
    r
  }

  /** The tokens of each part, part after part. */
  function TokenizeEach(parts: seq<string>): seq<string> {
    if parts == [] then [] else Tokenize(parts[0]) + TokenizeEach(parts[1..])
  }

  /** Tokenising a space-joined text gives the tokens of its parts, in part order. */
  lemma {:induction false} TokenizeJoin(parts: seq<string>)
    ensures Tokenize(Join(parts)) == TokenizeEach(parts)
  {
    if |parts| == 0 {
    } else if |parts| == 1 {
      assert TokenizeEach(parts[1..]) == [];
    } else {
      var a, b := parts[0], Join(parts[1..]);
      LowerAppend(a + " ", b);
      LowerAppend(a, " ");
      assert Lower(" ") == " ";
      SplitAroundSpace(Lower(a), Lower(b));
      TokenizeJoin(parts[1..]);
    }
  }

  /** Concatenating the tokens gives the lower-cased text without its whitespace. */
  lemma TokenizeConcat(text: string)
    ensures Concat(Tokenize(text)) == RemoveSpaces(Lower(text))
  {
    SplitConcat(Lower(text));
  }

  // ----- slicing -----

  /** `s[:stop]` with Python's reading of a negative `stop` (counted from the end). */
  function SliceTo<T>(s: seq<T>, stop: int): (r: seq<T>)
    ensures r <= s
    ensures 0 <= stop ==> |r| <= stop && (|r| == stop || r == s)
    ensures stop < 0 ==> |r| == if |s| + stop < 0 then 0 else |s| + stop
  {
    if stop >= |s| then s
    else if stop >= 0 then s[..stop]
    else if |s| + stop < 0 then []
    else s[..|s| + stop]
  }

  // ----- integers as text -----

  /** `f"{n}"` for a non-negative integer: its decimal digits, most significant first. */
  function Decimal(n: nat): (r: string)
    ensures |r| > 0 && forall i :: 0 <= i < |r| ==> '0' <= r[i] <= '9'
  {
    if n < 10 then [('0' as int + n) as char]
    else Decimal(n / 10) + [('0' as int + n % 10) as char]
  }

  /** The number a string of decimal digits denotes. */
  function DigitsValue(s: string): nat
    requires forall i :: 0 <= i < |s| ==> '0' <= s[i] <= '9'
  {
    if s == [] then 0
    else DigitsValue(s[..|s| - 1]) * 10 + (s[|s| - 1] as int - '0' as int)
  }

  /** Reading the digits back gives the number: different numbers are written differently. */
  lemma {:induction false} DecimalRoundTrip(n: nat)
    ensures DigitsValue(Decimal(n)) == n
  {
    if n >= 10 {
      DecimalRoundTrip(n / 10);
      var r := Decimal(n);
      assert r[..|r| - 1] == Decimal(n / 10);
    }
  }
}
