/** Python string operations the panel relies on (strip, find, count,
    split, lower, int() and str() of integers), stated over `string`.
    Whitespace is Python's ASCII whitespace; Unicode spaces and digits
    outside ASCII are not part of this model. */
module Text {

  datatype Option<T> = None | Some(value: T)

  /** Python's `str.isspace()` restricted to the ASCII range. */
  predicate IsSpace(c: char) {
    c == ' ' || c == '\t' || c == '\n' || c == '\r' || c == '\U{000B}' || c == '\U{000C}'
    || ('\U{001C}' <= c <= '\U{001F}')
  }

  predicate IsDigit(c: char) { '0' <= c <= '9' }

  predicate StartsWith(s: string, p: string) { |p| <= |s| && s[..|p|] == p }

  predicate EndsWith(s: string, p: string) { |p| <= |s| && s[|s| - |p|..] == p }

  // ---------------------------------------------------------------- strip

  /** `s.lstrip()` */
  function LStrip(s: string): (r: string)
    ensures |r| <= |s| && r == s[|s| - |r|..]
    ensures r == [] || !IsSpace(r[0])
  {
    if s != [] && IsSpace(s[0]) then LStrip(s[1..]) else s
  }

  /** `s.rstrip()` */
  function RStrip(s: string): (r: string)
    ensures |r| <= |s| && r == s[..|r|]
    ensures r == [] || !IsSpace(r[|r| - 1])
    ensures forall i :: |r| <= i < |s| ==> IsSpace(s[i])
  {
    if s != [] && IsSpace(s[|s| - 1]) then RStrip(s[..|s| - 1]) else s
  }

  /** `rstrip` keeps every character up to the last non-space one. */
  lemma {:induction false} RStripKeepsNonSpace(s: string, i: nat)
    requires i < |s| && !IsSpace(s[i])
    ensures i < |RStrip(s)|
    decreases |s|
  {
    if IsSpace(s[|s| - 1]) {
      assert s[..|s| - 1][i] == s[i];
      RStripKeepsNonSpace(s[..|s| - 1], i);
    }
  }

  /** `s.strip()`: what is left has no whitespace at either end. */
  function Strip(s: string): (r: string)
    ensures |r| <= |s|
    ensures r == [] || (!IsSpace(r[0]) && !IsSpace(r[|r| - 1]))
  {
    RStrip(LStrip(s))
  }

  /** A string with no whitespace at either end is its own strip. */
  lemma StripTrimmed(s: string)
    requires s == [] || (!IsSpace(s[0]) && !IsSpace(s[|s| - 1]))
    ensures Strip(s) == s
  {
  }

  /** Stripping twice is stripping once. */
  lemma StripIdempotent(s: string)
    ensures Strip(Strip(s)) == Strip(s)
  {
    StripTrimmed(Strip(s));
  }

  /** Stripping only removes characters. */
  lemma StripKeepsChars(s: string, c: char)
    ensures c in Strip(s) ==> c in s
  {
    var l := LStrip(s);
    var r := RStrip(l);
    if c in r {
      var j :| 0 <= j < |r| && r[j] == c;
      assert l[j] == c;
      assert s[|s| - |l| + j] == c;
    }
  }

  /** `s.lstrip(c)` for one character. */
  function LStripChar(s: string, c: char): (r: string)
    ensures |r| <= |s| && r == s[|s| - |r|..]
    ensures forall i :: 0 <= i < |s| - |r| ==> s[i] == c
    ensures r == [] || r[0] != c
  {
    if s != [] && s[0] == c then LStripChar(s[1..], c) else s
  }

  /** `s.rstrip(c)` for one character. */
  function RStripChar(s: string, c: char): (r: string)
    ensures |r| <= |s| && r == s[..|r|]
    ensures forall i :: |r| <= i < |s| ==> s[i] == c
    ensures r == [] || r[|r| - 1] != c
  {
    if s != [] && s[|s| - 1] == c then RStripChar(s[..|s| - 1], c) else s
  }

  /** `s.strip(c)` for one character. */
  function StripChar(s: string, c: char): (r: string)
    ensures r == [] || (r[0] != c && r[|r| - 1] != c)
  {
    RStripChar(LStripChar(s, c), c)
  }

  // ----------------------------------------------------------- searching

  predicate OccursAt(s: string, p: string, i: nat) {
    i + |p| <= |s| && s[i..i + |p|] == p
  }

  /** `s.find(p, from)`, with None for -1. */
  function FindFrom(s: string, p: string, from: nat): (r: Option<nat>)
    ensures r.Some? ==> from <= r.value && OccursAt(s, p, r.value)
    ensures r.Some? ==> forall j :: from <= j < r.value ==> !OccursAt(s, p, j)
    ensures r.None? ==> forall j :: from <= j ==> !OccursAt(s, p, j)
    decreases |s| - from
  {
    if from + |p| > |s| then None
    else if OccursAt(s, p, from) then Some(from)
    else FindFrom(s, p, from + 1)
  }

  function Find(s: string, p: string): Option<nat> { FindFrom(s, p, 0) }

  /** Python's `p in s`. */
  predicate Contains(s: string, p: string) { Find(s, p).Some? }

  lemma ContainsAt(s: string, p: string, i: nat)
    requires OccursAt(s, p, i)
    ensures Contains(s, p)
  {
  }

  /** An occurrence in a slice is an occurrence in the whole string. */
  lemma ContainsSlice(s: string, p: string, a: nat, b: nat)
    requires a <= b <= |s| && Contains(s[a..b], p)
    ensures Contains(s, p)
  {
    var i := Find(s[a..b], p).value;
    var t := s[a..b];
    assert OccursAt(t, p, i);
    var w := s[a + i..a + i + |p|];
    forall j | 0 <= j < |p|
      ensures w[j] == p[j]
    {
      assert t[i..i + |p|][j] == p[j];
      assert w[j] == t[i + j];
    }
    assert OccursAt(s, p, a + i);
    ContainsAt(s, p, a + i);
  }

  /** `s.count(p)`: non-overlapping occurrences scanned from the left. */
  function Count(s: string, p: string): (n: nat)
    requires p != []
    ensures n * |p| <= |s|
    decreases |s|
  {
    if |s| < |p| then 0
    else if s[..|p|] == p then 1 + Count(s[|p|..], p)
    else Count(s[1..], p)
  }

  /** `s.count(p)` is zero exactly when `p` does not occur in `s`. */
  lemma {:induction false} CountZeroIffAbsent(s: string, p: string)
    requires p != []
    ensures Count(s, p) == 0 <==> !Contains(s, p)
    decreases |s|
  {
    if |s| < |p| {
      assert forall j :: !OccursAt(s, p, j);
    } else if s[..|p|] == p {
      assert OccursAt(s, p, 0);
    } else {
      CountZeroIffAbsent(s[1..], p);
      ContainsIffTail(s, p);
    }
  }

  /** When `p` is not at the front, it occurs in `s` exactly when it
      occurs after the first character. */
  lemma ContainsIffTail(s: string, p: string)
    requires p != [] && |p| <= |s| && s[..|p|] != p
    ensures Contains(s, p) <==> Contains(s[1..], p)
  {
    if Contains(s[1..], p) {
      assert s[1..|s|] == s[1..];
      ContainsSlice(s, p, 1, |s|);
    }
    if Contains(s, p) {
      var i := Find(s, p).value;
      assert OccursAt(s, p, i);
      assert i != 0;
      assert s[1..][i - 1..i - 1 + |p|] == s[i..i + |p|];
      ContainsAt(s[1..], p, i - 1);
    }
  }

  // ---------------------------------------------------------- lower case

  function LowerChar(c: char): char {
    if 'A' <= c <= 'Z' then (c as int + 32) as char else c
  }

  /** `s.lower()` on ASCII letters. */
  function Lower(s: string): (r: string)
    ensures |r| == |s|
    ensures forall i :: 0 <= i < |s| ==> r[i] == LowerChar(s[i])
  {
    seq(|s|, i requires 0 <= i < |s| => LowerChar(s[i]))
  }

  // ------------------------------------------------------------ splitting

  /** Index of the first `c` in `s`. */
  function IndexOf(s: string, c: char): (i: nat)
    requires c in s
    ensures i < |s| && s[i] == c && c !in s[..i]
  {
    if s[0] == c then 0 else IndexOf(s[1..], c) + 1
  }

  /** The inverse of `SplitOn`: `sep.join(parts)`. */
  function Join(parts: seq<string>, sep: char): string
    requires parts != []
  {
    if |parts| == 1 then parts[0] else parts[0] + [sep] + Join(parts[1..], sep)
  }

  /** `s.split(c)` for a one-character separator. */
  function SplitOn(s: string, c: char): (parts: seq<string>)
    ensures parts != []
    ensures forall i :: 0 <= i < |parts| ==> c !in parts[i]
    ensures Join(parts, c) == s
    decreases |s|
  {
    if c !in s then [s]
    else
      var i := IndexOf(s, c);
      assert s == s[..i] + [c] + s[i + 1..];
      [s[..i]] + SplitOn(s[i + 1..], c)
  }

  /** Splitting a join of separator-free parts gives the parts back. */
  lemma {:induction false} SplitOnJoin(parts: seq<string>, c: char)
    requires parts != [] && forall i :: 0 <= i < |parts| ==> c !in parts[i]
    ensures SplitOn(Join(parts, c), c) == parts
    decreases |parts|
  {
    if |parts| > 1 {
      var rest := Join(parts[1..], c);
      SplitOnJoin(parts[1..], c);
      SplitOnFirst(parts[0], c, rest);
      assert parts == [parts[0]] + parts[1..];
    }
  }

  /** Splitting at the first separator, when the head holds none. */
  lemma SplitOnFirst(head: string, c: char, rest: string)
    requires c !in head
    ensures SplitOn(head + [c] + rest, c) == [head] + SplitOn(rest, c)
  {
    var s := head + [c] + rest;
    assert s[|head|] == c;
    assert s[..|head|] == head;
    assert IndexOf(s, c) == |head|;
    assert s[|head| + 1..] == rest;
  }

  /** A join starts with the first part's first character and ends with
      the last part's last character. */
  lemma {:induction false} JoinEnds(parts: seq<string>, c: char)
    requires parts != [] && parts[0] != [] && parts[|parts| - 1] != []
    ensures var s := Join(parts, c);
      s != [] && s[0] == parts[0][0] && s[|s| - 1] == parts[|parts| - 1][|parts[|parts| - 1]| - 1]
    decreases |parts|
  {
    if |parts| > 1 {
      JoinEndsRest(parts[1..], c);
    }
  }

  lemma {:induction false} JoinEndsRest(parts: seq<string>, c: char)
    requires parts != [] && parts[|parts| - 1] != []
    ensures var s := Join(parts, c);
      s != [] && s[|s| - 1] == parts[|parts| - 1][|parts[|parts| - 1]| - 1]
    decreases |parts|
  {
    if |parts| > 1 {
      JoinEndsRest(parts[1..], c);
    }
  }

  /** The last piece of `s.split(c)`: the text after the last `c`. */
  function AfterLast(s: string, c: char): (r: string)
    ensures c !in r && EndsWith(s, r)
  {
    var parts := SplitOn(s, c);
    LastPieceIsSuffix(parts, c);
    parts[|parts| - 1]
  }

  /** Joining one more part appends the separator and the part. */
  lemma {:induction false} JoinSnoc(parts: seq<string>, last: string, c: char)
    requires parts != []
    ensures Join(parts + [last], c) == Join(parts, c) + [c] + last
    decreases |parts|
  {
    if |parts| > 1 {
      assert (parts + [last])[1..] == parts[1..] + [last];
      JoinSnoc(parts[1..], last, c);
    } else {
      assert (parts + [last])[1..] == [last];
    }
  }

  /** The text after the last `c` of `a + c + b`, when `b` has no `c`,
      is `b`. */
  lemma AfterLastOfSuffix(a: string, c: char, b: string)
    requires c !in b
    ensures AfterLast(a + [c] + b, c) == b
  {
    var parts := SplitOn(a, c);
    JoinSnoc(parts, b, c);
    SplitOnJoin(parts + [b], c);
  }

  lemma {:induction false} LastPieceIsSuffix(parts: seq<string>, c: char)
    requires parts != []
    ensures EndsWith(Join(parts, c), parts[|parts| - 1])
  {
    if |parts| > 1 {
      LastPieceIsSuffix(parts[1..], c);
    }
  }

  /** Length of the longest prefix of `t` without whitespace. */
  function TokenLen(t: string): (k: nat)
    ensures k <= |t|
    ensures forall j :: 0 <= j < k ==> !IsSpace(t[j])
    ensures k == |t| || IsSpace(t[k])
  {
    if t == [] || IsSpace(t[0]) then 0 else 1 + TokenLen(t[1..])
  }

  /** A non-empty run without whitespace. */
  predicate Word(w: string) {
    w != [] && forall j :: 0 <= j < |w| ==> !IsSpace(w[j])
  }

  /** `s.split()`: the maximal runs of non-whitespace characters. */
  function Fields(s: string): (r: seq<string>)
    decreases |s|
  {
    var t := LStrip(s);
    if t == [] then []
    else
      var k := TokenLen(t);
      [t[..k]] + Fields(t[k..])
  }

  /** Every field of `s.split()` is a non-empty run without whitespace. */
  lemma {:induction false} FieldsAreWords(s: string)
    ensures forall i :: 0 <= i < |Fields(s)| ==> Word(Fields(s)[i])
    decreases |s|
  {
    var t := LStrip(s);
    if t != [] {
      var k := TokenLen(t);
      FieldHead(t);
      FieldsAreWords(t[k..]);
      WordsCons(t[..k], Fields(t[k..]));
    }
  }

  lemma FieldHead(t: string)
    requires t != [] && !IsSpace(t[0])
    ensures Word(t[..TokenLen(t)])
  {
    var head := t[..TokenLen(t)];
    assert forall j :: 0 <= j < |head| ==> head[j] == t[j];
  }

  lemma WordsCons(head: string, rest: seq<string>)
    requires Word(head) && forall i :: 0 <= i < |rest| ==> Word(rest[i])
    ensures forall i :: 0 <= i < |[head] + rest| ==> Word(([head] + rest)[i])
  {
    forall i | 0 <= i < |[head] + rest|
      ensures Word(([head] + rest)[i])
    {
      if i > 0 {
        assert ([head] + rest)[i] == rest[i - 1];
      }
    }
  }


  /** A word followed by whitespace or nothing is one token. */
  lemma {:induction false} TokenLenOfWord(w: string, rest: string)
    requires Word(w) && (rest == [] || IsSpace(rest[0]))
    ensures TokenLen(w + rest) == |w|
    decreases |w|
  {
    var s := w + rest;
    assert s[0] == w[0];
    if |w| > 1 {
      assert s[1..] == w[1..] + rest;
      assert Word(w[1..]) by {
        forall j | 0 <= j < |w[1..]| ensures !IsSpace(w[1..][j]) {
          assert w[1..][j] == w[j + 1];
        }
      }
      TokenLenOfWord(w[1..], rest);
    } else {
      assert s[1..] == rest;
    }
  }

  /** `s.split()` of words joined by single spaces gives the words back. */
  lemma {:induction false} FieldsOfSpaced(words: seq<string>)
    requires words != [] && forall i :: 0 <= i < |words| ==> Word(words[i])
    ensures Fields(Join(words, ' ')) == words
    decreases |words|
  {
    var w := words[0];
    if |words| == 1 {
      assert Join(words, ' ') == w;
      FieldsOfWord(w);
      assert words == [w];
    } else {
      var tail := words[1..];
      assert Join(words, ' ') == w + [' '] + Join(tail, ' ');
      WordsOfTail(words);
      FieldsOfSpaced(tail);
      FieldsOfWordThen(w, Join(tail, ' '));
      assert words == [w] + tail;
    }
  }

  lemma WordsOfTail(words: seq<string>)
    requires words != [] && forall i :: 0 <= i < |words| ==> Word(words[i])
    ensures forall i :: 0 <= i < |words[1..]| ==> Word(words[1..][i])
  {
    forall i | 0 <= i < |words[1..]| ensures Word(words[1..][i]) {
      assert words[1..][i] == words[i + 1];
    }
  }

  lemma FieldsOfWord(w: string)
    requires Word(w)
    ensures Fields(w) == [w]
  {
    assert LStrip(w) == w;
    TokenLenOfWord(w, []);
    assert w + [] == w;
    assert w[..|w|] == w && w[|w|..] == [];
  }

  lemma FieldsOfWordThen(w: string, rest: string)
    requires Word(w)
    ensures Fields(w + [' '] + rest) == [w] + Fields(rest)
  {
    var s := w + [' '] + rest;
    assert s[0] == w[0];
    assert LStrip(s) == s;
    assert s == w + ([' '] + rest);
    TokenLenOfWord(w, [' '] + rest);
    assert s[..|w|] == w && s[|w|..] == [' '] + rest;
    assert ([' '] + rest)[1..] == rest;
    assert LStrip([' '] + rest) == LStrip(rest);
  }

  /** Every part of a join occurs in it. */
  lemma {:induction false} JoinedPartOccurs(parts: seq<string>, c: char, i: nat)
    requires i < |parts|
    ensures Contains(Join(parts, c), parts[i])
    decreases |parts|
  {
    var s := Join(parts, c);
    if i == 0 {
      ContainsAt(parts[0], parts[0], 0);
      if |parts| == 1 {
        assert s[0..|s|] == parts[0];
      } else {
        assert s == parts[0] + ([c] + Join(parts[1..], c));
        assert s[0..|parts[0]|] == parts[0];
      }
      ContainsSlice(s, parts[0], 0, |parts[0]|);
    } else {
      var rest := Join(parts[1..], c);
      assert s == parts[0] + [c] + rest;
      assert parts[1..][i - 1] == parts[i];
      JoinedPartOccurs(parts[1..], c, i - 1);
      assert s[|parts[0]| + 1..|s|] == rest;
      ContainsSlice(s, parts[i], |parts[0]| + 1, |s|);
    }
  }

  // ------------------------------------------------------------- numbers

  function DigitChar(d: nat): (c: char)
    requires d < 10
    ensures IsDigit(c)
  {
    ('0' as int + d) as char
  }

  function DigitValue(c: char): nat
    requires IsDigit(c)
  {
    c as int - '0' as int
  }

  /** `str(n)` for a natural number. */
  function NatToString(n: nat): (s: string)
    ensures s != [] && forall i :: 0 <= i < |s| ==> IsDigit(s[i])
    ensures s[0] == '0' ==> n == 0
  {
    if n < 10 then [DigitChar(n)] else NatToString(n / 10) + [DigitChar(n % 10)]
  }

  /** `str(i)` for an integer. */
  function IntToString(i: int): string {
    if i < 0 then "-" + NatToString(-i) else NatToString(i)
  }

  predicate AllDigits(s: string) { forall i :: 0 <= i < |s| ==> IsDigit(s[i]) }

  /** The decimal value of a string of digits. */
  function DigitsValue(s: string): nat
    requires AllDigits(s)
  {
    if s == [] then 0 else DigitsValue(s[..|s| - 1]) * 10 + DigitValue(s[|s| - 1])
  }

  /** A non-empty run of ASCII digits, read as a number. */
  function ParseNat(s: string): Option<nat> {
    if s != [] && AllDigits(s) then Some(DigitsValue(s)) else None
  }

  /** Reading back `str(n)` gives `n`. */
  lemma {:induction false} NatToStringRoundTrip(n: nat)
    ensures ParseNat(NatToString(n)) == Some(n)
  {
    var s := NatToString(n);
    if n >= 10 {
      NatToStringRoundTrip(n / 10);
      assert s[..|s| - 1] == NatToString(n / 10);
      assert DigitValue(s[|s| - 1]) == n % 10;
      assert DigitsValue(s) == DigitsValue(NatToString(n / 10)) * 10 + n % 10;
    } else {
      assert DigitsValue(s) == DigitsValue(s[..0]) * 10 + DigitValue(s[0]);
    }
  }

  /** Distinct numbers print differently. */
  lemma NatToStringInjective(m: nat, n: nat)
    requires NatToString(m) == NatToString(n)
    ensures m == n
  {
    NatToStringRoundTrip(m);
    NatToStringRoundTrip(n);
  }

  /** Python's `int(s)` on text: surrounding whitespace, an optional sign,
      then one or more ASCII digits. None stands for ValueError. */
  function PyInt(s: string): Option<int> {
    var t := Strip(s);
    if t != [] && (t[0] == '-' || t[0] == '+') then
      match ParseNat(t[1..])
      case None => None
      case Some(v) => var n: int := v; Some(if t[0] == '-' then -n else n)
    else
      match ParseNat(t)
      case None => None
      case Some(v) => Some(v)
  }

  /** `int(str(i)) == i`. */
  lemma IntToStringRoundTrip(i: int)
    ensures PyInt(IntToString(i)) == Some(i)
  {
    var s := IntToString(i);
    if i < 0 {
      var d := NatToString(-i);
      NatToStringRoundTrip(-i);
      assert s == "-" + d && s[1..] == d;
      StripTrimmed(s);
      assert Strip(s) == s && s[0] == '-';
    } else {
      NatToStringRoundTrip(i);
      StripTrimmed(s);
      assert s[0] != '-' && s[0] != '+';
    }
  }
}
