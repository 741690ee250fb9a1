/**
 * The string operations of Python that the modelled code relies on
 * (`strip`, `lower`, `split`, `in`, `isdigit`, `str(int)`, `int(str)`),
 * restricted to ASCII, together with the facts about them that the
 * round-trip proofs need.
 */
module Text {
  import opened Wrappers

  // ---------------------------------------------------------------- characters

  /** The ASCII characters that Python's `str.isspace` accepts. */
  predicate IsSpace(c: char) {
    c == ' ' || c == '\t' || c == '\n' || c == '\r' ||
    c == '\U{000B}' || c == '\U{000C}' || ('\U{001C}' <= c <= '\U{001F}')
  }

  predicate IsDigit(c: char) { '0' <= c <= '9' }

  /** Every character is an ASCII digit (true of the empty string). */
  predicate AllDigits(s: string) {
    forall i :: 0 <= i < |s| ==> IsDigit(s[i])
  }

  function DigitValue(c: char): (d: nat)
    requires IsDigit(c)
    ensures d < 10
  {
    (c as int - '0' as int) as nat
  }

  function DigitChar(d: nat): (c: char)
    requires d < 10
    ensures IsDigit(c) && DigitValue(c) == d
  {
    ('0' as int + d) as char
  }

  function LowerChar(c: char): (r: char)
    ensures 'A' <= c <= 'Z' ==> 'a' <= r <= 'z'
    ensures !('A' <= c <= 'Z') ==> r == c
  {
    if 'A' <= c <= 'Z' then (c as int + 32) as char else c
  }

  /** Python's `str.lower()` on ASCII letters. */
  function Lower(s: string): (r: string)
    ensures |r| == |s|
    ensures forall i :: 0 <= i < |s| ==> r[i] == LowerChar(s[i])
  {
    seq(|s|, i requires 0 <= i < |s| => LowerChar(s[i]))
  }

  // ---------------------------------------------------------------- strip

  function TrimStart(s: string): (r: string)
    ensures |r| <= |s|
    ensures r == [] || !IsSpace(r[0])
  {
    if s == [] || !IsSpace(s[0]) then s else TrimStart(s[1..])
  }

  function TrimEnd(s: string): (r: string)
    ensures |r| <= |s|
    ensures r == [] || !IsSpace(r[|r| - 1])
    ensures r != [] ==> r[0] == s[0]
  {
    if s == [] || !IsSpace(s[|s| - 1]) then s else TrimEnd(s[..|s| - 1])
  }

  /** Python's `str.strip()`: drop leading and trailing white space. */
  function Strip(s: string): (r: string)
    ensures |r| <= |s|
    ensures r == [] || (!IsSpace(r[0]) && !IsSpace(r[|r| - 1]))
  {
    TrimEnd(TrimStart(s))
  }

  lemma StripUnchanged(s: string)
    requires s == [] || (!IsSpace(s[0]) && !IsSpace(s[|s| - 1]))
    ensures Strip(s) == s
  {
  }

  // ---------------------------------------------------------------- substrings

  predicate StartsWith(s: string, prefix: string) {
    |prefix| <= |s| && s[..|prefix|] == prefix
  }

  /** `sub` occurs in `s` at position `i`. */
  predicate OccursAt(s: string, sub: string, i: nat) {
    i + |sub| <= |s| && s[i..i + |sub|] == sub
  }

  function FindFrom(s: string, sub: string, from: nat): (r: Option<nat>)
    requires from <= |s|
    ensures r.Some? ==> from <= r.value && OccursAt(s, sub, r.value)
    decreases |s| - from
  {
    if OccursAt(s, sub, from) then Some(from)
    else if from + |sub| >= |s| then None
    else FindFrom(s, sub, from + 1)
  }

  lemma {:induction false} FindFromFirst(s: string, sub: string, from: nat)
    requires from <= |s|
    ensures var r := FindFrom(s, sub, from);
      (r.Some? ==> forall j :: from <= j < r.value ==> !OccursAt(s, sub, j)) &&
      (r.None? ==> forall j :: from <= j ==> !OccursAt(s, sub, j))
    decreases |s| - from
  {
    if !OccursAt(s, sub, from) && from + |sub| < |s| {
      FindFromFirst(s, sub, from + 1);
    }
  }

  /** The first position at which `sub` occurs in `s` (Python's `str.find`). */
  function Find(s: string, sub: string): (r: Option<nat>)
    ensures r.Some? ==> OccursAt(s, sub, r.value)
  {
    FindFrom(s, sub, 0)
  }

  /** `Find` gives the first occurrence, and none when there is none. */
  lemma FindFirst(s: string, sub: string)
    ensures var r := Find(s, sub);
      (r.Some? ==> forall j :: 0 <= j < r.value ==> !OccursAt(s, sub, j)) &&
      (r.None? ==> forall j :: 0 <= j ==> !OccursAt(s, sub, j))
  {
    FindFromFirst(s, sub, 0);
  }

  lemma FindIs(s: string, sub: string, i: nat)
    requires OccursAt(s, sub, i)
    requires forall j :: 0 <= j < i ==> !OccursAt(s, sub, j)
    ensures Find(s, sub) == Some(i)
  {
    FindFirst(s, sub);
  }

  /** Python's `sub in s`. */
  predicate Contains(s: string, sub: string) {
    Find(s, sub).Some?
  }

  lemma ContainsAt(s: string, sub: string, i: nat)
    requires OccursAt(s, sub, i)
    ensures Contains(s, sub)
  {
    FindFirst(s, sub);
  }

  /** Python's `s.split(sep)` for a non-empty separator. */
  function Split(s: string, sep: string): (parts: seq<string>)
    requires |sep| > 0
    ensures |parts| >= 1
    ensures !Contains(s, sep) ==> parts == [s]
    decreases |s|
  {
    match Find(s, sep)
    case None => [s]
    case Some(i) => [s[..i]] + Split(s[i + |sep|..], sep)
  }

  /** What precedes the first `sep` in `s`: Python's `s.split(sep)[0]`. */
  function Before(s: string, sep: string): (r: string)
    requires |sep| > 0
    ensures StartsWith(s, r)
    ensures !Contains(s, sep) ==> r == s
  {
    Split(s, sep)[0]
  }

  /** Python's `sep.join(parts)`. */
  function Join(parts: seq<string>, sep: string): string {
    if |parts| == 0 then ""
    else if |parts| == 1 then parts[0]
    else parts[0] + sep + Join(parts[1..], sep)
  }

  function CountChar(s: string, c: char): (n: nat)
    ensures n <= |s|
    ensures n == 0 <==> c !in s
  {
    if s == [] then 0 else (if s[0] == c then 1 else 0) + CountChar(s[1..], c)
  }

  lemma {:induction false} CountCharAppend(a: string, b: string, c: char)
    ensures CountChar(a + b, c) == CountChar(a, c) + CountChar(b, c)
  {
    if a != [] {
      assert (a + b)[1..] == a[1..] + b;
      CountCharAppend(a[1..], b, c);
    } else {
      assert a + b == b;
    }
  }

  /** The index of the first `c` in `s`. */
  function CharIndex(s: string, c: char): (i: nat)
    requires c in s
    ensures i < |s| && s[i] == c && c !in s[..i]
  {
    if s[0] == c then 0
    else
      var i := 1 + CharIndex(s[1..], c);
      assert s[..i] == [s[0]] + s[1..][..i - 1];
      i
  }

  lemma CountAround(s: string, i: nat, c: char)
    requires i < |s| && s[i] == c
    ensures CountChar(s, c) == CountChar(s[..i], c) + 1 + CountChar(s[i + 1..], c)
  {
    assert s == s[..i] + [c] + s[i + 1..];
    CountCharAppend(s[..i] + [c], s[i + 1..], c);
    CountCharAppend(s[..i], [c], c);
  }

  /** What `Find` says about a one-character separator. */
  lemma FindCharFacts(s: string, c: char)
    ensures Find(s, [c]).None? ==> c !in s
    ensures Find(s, [c]).Some? ==> Find(s, [c]).value < |s| && s[Find(s, [c]).value] == c && c !in s[..Find(s, [c]).value]
  {
    FindFirst(s, [c]);
    forall k | 0 <= k < |s| && s[k] == c ensures OccursAt(s, [c], k) {
      assert s[k..k + 1] == [c];
    }
    if Find(s, [c]).Some? {
      var i := Find(s, [c]).value;
      assert s[i..i + 1][0] == s[i];
    }
  }

  /** Splitting on one character gives one more part than it has occurrences. */
  lemma {:induction false} SplitCharCount(s: string, c: char)
    ensures |Split(s, [c])| == CountChar(s, c) + 1
    decreases |s|
  {
    FindCharFacts(s, [c][0]);
    match Find(s, [c])
    case None =>
    case Some(i) =>
      var rest := s[i + 1..];
      assert Split(s, [c]) == [s[..i]] + Split(rest, [c]);
      CountAround(s, i, c);
      SplitCharCount(rest, c);
  }

  lemma NoCharUnsplit(s: string, c: char)
    requires c !in s
    ensures !Contains(s, [c]) && Split(s, [c]) == [s]
  {
    forall j: nat | j + 1 <= |s| ensures !OccursAt(s, [c], j) {
      assert s[j..j + 1][0] == s[j];
    }
  }

  /** A position holding `c` with no `c` before it is `CharIndex`. */
  lemma CharIndexAt(s: string, c: char, i: nat)
    requires i < |s| && s[i] == c && c !in s[..i]
    ensures CharIndex(s, c) == i
  {
    var k := CharIndex(s, c);
    assert forall j :: 0 <= j < i ==> s[j] != c by {
      forall j | 0 <= j < i ensures s[j] != c { assert s[..i][j] == s[j]; }
    }
    assert forall j :: 0 <= j < k ==> s[j] != c by {
      forall j | 0 <= j < k ensures s[j] != c { assert s[..k][j] == s[j]; }
    }
  }

  lemma FindChar(s: string, c: char)
    requires c in s
    ensures Find(s, [c]) == Some(CharIndex(s, c))
  {
    var k := CharIndex(s, c);
    assert s[k..k + 1] == [c];
    forall j | 0 <= j < k ensures !OccursAt(s, [c], j) {
      assert s[..k][j] == s[j];
    }
    FindIs(s, [c], k);
  }

  lemma AfterOnlyChar(s: string, c: char)
    requires CountChar(s, c) == 1
    ensures c in s && c !in s[CharIndex(s, c) + 1..]
  {
    var k := CharIndex(s, c);
    assert s == s[..k] + [c] + s[k + 1..];
    CountCharAppend(s[..k] + [c], s[k + 1..], c);
    CountCharAppend(s[..k], [c], c);
  }

  /** With exactly one `c`, splitting on it gives the text before and after. */
  lemma SplitAtOnlyChar(s: string, c: char)
    requires CountChar(s, c) == 1
    ensures c in s && Split(s, [c]) == [s[..CharIndex(s, c)], s[CharIndex(s, c) + 1..]]
  {
    AfterOnlyChar(s, c);
    FindChar(s, c);
    NoCharUnsplit(s[CharIndex(s, c) + 1..], c);
  }

  /** Python's `s.replace(c, '')`. */
  function RemoveChar(s: string, c: char): (r: string)
    ensures c !in r
    ensures c !in s ==> r == s
  {
    if s == [] then [] else (if s[0] == c then [] else [s[0]]) + RemoveChar(s[1..], c)
  }

  lemma RemoveCharAppend(a: string, b: string, c: char)
    ensures RemoveChar(a + b, c) == RemoveChar(a, c) + RemoveChar(b, c)
  {
    if a != [] {
      assert (a + b)[1..] == a[1..] + b;
      RemoveCharAppend(a[1..], b, c);
    } else {
      assert a + b == b;
    }
  }

  /**
   * A separator whose first character is not repeated after it cannot occur
   * straddling the end of a part that does not contain it, so splitting a
   * part followed by the separator stops right after the part.
   */
  lemma FindAfterPart(p: string, sep: string, rest: string)
    requires |sep| == 2 && sep[0] != sep[1]
    requires !Contains(p, sep)
    ensures Find(p + sep + rest, sep) == Some(|p|)
  {
    var s := p + sep + rest;
    FindFirst(p, sep);
    assert OccursAt(s, sep, |p|) by { assert s[|p|..|p| + 2] == sep; }
    forall j | 0 <= j < |p| ensures !OccursAt(s, sep, j) {
      if j + 2 <= |p| {
        assert s[j..j + 2] == p[j..j + 2];
        assert !OccursAt(p, sep, j);
      } else {
        assert j == |p| - 1;
        assert s[j + 1] == sep[0];
      }
    }
    FindIs(s, sep, |p|);
  }

  /** A separator cannot occur in a text that lacks one of its characters. */
  lemma MarkerAbsent(s: string, sep: string, k: nat)
    requires k < |sep| && sep[k] !in s
    ensures !Contains(s, sep) && Split(s, sep) == [s]
  {
    forall i: nat | i + |sep| <= |s| ensures !OccursAt(s, sep, i) {
      assert s[i..i + |sep|][k] == s[i + k];
    }
  }

  /**
   * When the last character of a separator appears nowhere else, neither in
   * the text around it nor earlier in the separator itself, the text splits
   * exactly at the separator.
   */
  lemma SplitAroundMarker(a: string, sep: string, b: string)
    requires |sep| >= 1
    requires sep[|sep| - 1] !in a && sep[|sep| - 1] !in b && sep[|sep| - 1] !in sep[..|sep| - 1]
    ensures Split(a + sep + b, sep) == [a, b]
  {
    var s := a + sep + b;
    var c := sep[|sep| - 1];
    assert OccursAt(s, sep, |a|) by { assert s[|a|..|a| + |sep|] == sep; }
    forall j | 0 <= j < |a| ensures !OccursAt(s, sep, j) {
      var p := j + |sep| - 1;
      if j + |sep| <= |s| {
        assert s[j..j + |sep|][|sep| - 1] == s[p];
        if p < |a| {
          assert s[p] == a[p];
        } else {
          assert s[p] == sep[p - |a|];
          assert sep[..|sep| - 1][p - |a|] == sep[p - |a|];
        }
        assert s[p] != c;
      }
    }
    FindIs(s, sep, |a|);
    assert s[..|a|] == a;
    assert s[|a| + |sep|..] == b;
    MarkerAbsent(b, sep, |sep| - 1);
  }

  /** Splitting a joined list gives the list back when no part holds the separator. */
  lemma {:induction false} SplitJoin(parts: seq<string>, sep: string)
    requires |parts| >= 1
    requires |sep| == 2 && sep[0] != sep[1]
    requires forall k :: 0 <= k < |parts| ==> !Contains(parts[k], sep)
    ensures Split(Join(parts, sep), sep) == parts
  {
    if |parts| > 1 {
      var rest := Join(parts[1..], sep);
      FindAfterPart(parts[0], sep, rest);
      var s := parts[0] + sep + rest;
      assert s[..|parts[0]|] == parts[0];
      assert s[|parts[0]| + |sep|..] == rest;
      SplitJoin(parts[1..], sep);
      assert [parts[0]] + parts[1..] == parts;
    }
  }

  // ---------------------------------------------------------------- numbers

  function Pow10(n: nat): (p: nat)
    ensures p >= 1
  {
    if n == 0 then 1 else 10 * Pow10(n - 1)
  }

  /** The value of a string of decimal digits, most significant first. */
  function DigitsValue(s: string): nat
    requires AllDigits(s)
  {
    if s == [] then 0 else DigitsValue(s[..|s| - 1]) * 10 + DigitValue(s[|s| - 1])
  }

  /** Python's `str(n)` for a natural number. */
  function NatStr(n: nat): (s: string)
    ensures |s| >= 1 && AllDigits(s)
  {
    if n < 10 then [DigitChar(n)] else NatStr(n / 10) + [DigitChar(n % 10)]
  }

  /** Python's `str(i)` for an integer. */
  function IntStr(i: int): (s: string)
    ensures |s| >= 1
  {
    if i < 0 then "-" + NatStr(-i) else NatStr(i)
  }

  predicate NoSpace(s: string) {
    forall i :: 0 <= i < |s| ==> !IsSpace(s[i])
  }

  /** The text of `str(n)` holds no white space. */
  lemma IntStrNoSpace(n: int)
    ensures NoSpace(IntStr(n))
  {
    var s := NatStr(if n < 0 then -n else n);
    assert AllDigits(s);
    if n < 0 {
      assert IntStr(n) == "-" + s;
      forall i | 0 <= i < |IntStr(n)| ensures !IsSpace(IntStr(n)[i]) {
        if i > 0 { assert IntStr(n)[i] == s[i - 1]; }
      }
    }
  }

  /**
   * Python's `int(s)` on a string with no surrounding white space: an optional
   * sign followed by at least one digit.
   */
  function ParseInt(s: string): (r: Option<int>)
    ensures r.Some? ==> |s| >= 1
  {
    if |s| >= 1 && (s[0] == '-' || s[0] == '+') then
      match ParseNat(s[1..])
      case None => None
      case Some(n) => Some(if s[0] == '-' then -(n as int) else n as int)
    else
      match ParseNat(s)
      case None => None
      case Some(n) => Some(n as int)
  }

  /** A non-empty string of digits read as a natural number. */
  function ParseNat(s: string): (r: Option<nat>)
    ensures r.Some? <==> |s| >= 1 && AllDigits(s)
  {
    if |s| >= 1 && AllDigits(s) then Some(DigitsValue(s)) else None
  }

  lemma ParseNatOfNatStr(n: nat)
    ensures ParseNat(NatStr(n)) == Some(n)
  {
    DigitsValueOfNatStr(n);
  }

  lemma {:induction false} DigitsValueOfNatStr(n: nat)
    ensures DigitsValue(NatStr(n)) == n
  {
    if n >= 10 {
      var s := NatStr(n);
      assert s[..|s| - 1] == NatStr(n / 10);
      DigitsValueOfNatStr(n / 10);
    }
  }

  lemma AllDigitsAppend(a: string, b: string)
    requires AllDigits(a) && AllDigits(b)
    ensures AllDigits(a + b)
  {
    assert forall i :: 0 <= i < |a + b| ==> (a + b)[i] == if i < |a| then a[i] else b[i - |a|];
  }

  lemma {:induction false} DigitsValueAppend(a: string, b: string)
    requires AllDigits(a) && AllDigits(b)
    ensures AllDigits(a + b)
    ensures DigitsValue(a + b) == DigitsValue(a) * Pow10(|b|) + DigitsValue(b)
  {
    assert AllDigits(a + b) by {
      forall i | 0 <= i < |a + b| ensures IsDigit((a + b)[i]) {
        if i < |a| { assert (a + b)[i] == a[i]; } else { assert (a + b)[i] == b[i - |a|]; }
      }
    }
    if b != [] {
      var b' := b[..|b| - 1];
      assert (a + b)[..|a + b| - 1] == a + b';
      DigitsValueAppend(a, b');
      MulRearrange(DigitsValue(a), Pow10(|b'|), DigitsValue(b'), DigitValue(b[|b| - 1]));
    } else {
      assert a + b == a;
    }
  }

  lemma MulRearrange(x: int, p: int, y: int, d: int)
    ensures (x * p + y) * 10 + d == x * (p * 10) + (y * 10 + d)
  {
  }

  /** `int(str(i)) == i`. */
  lemma ParseIntOfIntStr(i: int)
    ensures ParseInt(IntStr(i)) == Some(i)
  {
    if i < 0 {
      assert IntStr(i)[1..] == NatStr(-i);
      ParseNatOfNatStr(-i);
    } else {
      assert IsDigit(IntStr(i)[0]);
      ParseNatOfNatStr(i);
    }
  }

  /** Different integers print differently. */
  lemma IntStrInjective(i: int, j: int)
    requires i != j
    ensures IntStr(i) != IntStr(j)
  {
    ParseIntOfIntStr(i);
    ParseIntOfIntStr(j);
  }
}
