/**
 * The JavaScript string operations the application relies on: `trim`, the `\s`
 * class of regular expressions, `toLowerCase`/`toUpperCase`, `split(" ")`,
 * `includes`, `slice(0, n)` and the decimal rendering of a number in a template
 * literal.
 */
module Text {

  /** JavaScript's WhiteSpace and LineTerminator code points: what `trim` strips and `\s` matches. */
  predicate IsSpace(c: char) {
    c == '\t' || c == '\n' || c == '\U{000B}' || c == '\U{000C}' || c == '\r' || c == ' '
    || c == '\U{00A0}' || c == '\U{1680}' || ('\U{2000}' <= c <= '\U{200A}')
    || c == '\U{2028}' || c == '\U{2029}' || c == '\U{202F}' || c == '\U{205F}'
    || c == '\U{3000}' || c == '\U{FEFF}'
  }

  predicate AllSpace(s: string) {
    forall i :: 0 <= i < |s| ==> IsSpace(s[i])
  }

  /** The index of the first character at or after `i` that is not white space, or `|s|`. */
  function Lead(s: string, i: nat): (j: nat)
    requires i <= |s|
    ensures i <= j <= |s|
    decreases |s| - i
  {
    if i < |s| && IsSpace(s[i]) then Lead(s, i + 1) else i
  }

  /** The index just after the last character before `j` that is not white space, or 0. */
  function Tail(s: string, j: nat): (i: nat)
    requires j <= |s|
    ensures i <= j
    decreases j
  {
    if j > 0 && IsSpace(s[j - 1]) then Tail(s, j - 1) else j
  }

  /** `Lead` skips white space only, and stops at the first character that is not. */
  lemma {:induction false} LeadSkipsSpace(s: string, i: nat)
    requires i <= |s|
    ensures forall k :: i <= k < Lead(s, i) ==> IsSpace(s[k])
    ensures Lead(s, i) < |s| ==> !IsSpace(s[Lead(s, i)])
    decreases |s| - i
  {
    if i < |s| && IsSpace(s[i]) {
      LeadSkipsSpace(s, i + 1);
    }
  }

  /** `Tail` skips white space only, and stops after the last character that is not. */
  lemma {:induction false} TailSkipsSpace(s: string, j: nat)
    requires j <= |s|
    ensures forall k :: Tail(s, j) <= k < j ==> IsSpace(s[k])
    ensures Tail(s, j) > 0 ==> !IsSpace(s[Tail(s, j) - 1])
    decreases j
  {
    if j > 0 && IsSpace(s[j - 1]) {
      TailSkipsSpace(s, j - 1);
    }
  }

  /** `s.trimStart()` */
  function TrimStart(s: string): (r: string)
    ensures |r| <= |s| && r == s[|s| - |r|..]
  {
    s[Lead(s, 0)..]
  }

  /** `s.trimEnd()` */
  function TrimEnd(s: string): (r: string)
    ensures |r| <= |s| && r == s[..|r|]
  {
    s[..Tail(s, |s|)]
  }

  /** What `trimStart` drops is white space, and what it keeps does not start with any. */
  lemma TrimStartDropsSpace(s: string)
    ensures AllSpace(s[..|s| - |TrimStart(s)|])
    ensures TrimStart(s) == [] || !IsSpace(TrimStart(s)[0])
  {
    LeadSkipsSpace(s, 0);
    var n := Lead(s, 0);
    var d := s[..n];
    forall k | 0 <= k < |d| ensures IsSpace(d[k]) {
      assert d[k] == s[k];
    }
  }

  /** What `trimEnd` drops is white space, and what it keeps does not end with any. */
  lemma TrimEndDropsSpace(s: string)
    ensures AllSpace(s[|TrimEnd(s)|..])
    ensures TrimEnd(s) == [] || !IsSpace(TrimEnd(s)[|TrimEnd(s)| - 1])
  {
    TailSkipsSpace(s, |s|);
    var n := Tail(s, |s|);
    var d := s[n..];
    forall k | 0 <= k < |d| ensures IsSpace(d[k]) {
      assert d[k] == s[n + k];
    }
  }

  /** `s.trim()`: what is left of `s` once the white space on both sides is dropped. */
  function Trim(s: string): (r: string)
    ensures |r| <= |s|
  {
    TrimEnd(TrimStart(s))
  }

  /** `trim` gives "" exactly for a string of white space only. */
  lemma TrimEmptyIff(s: string)
    ensures Trim(s) == [] <==> AllSpace(s)
  {
    var t := TrimStart(s);
    TrimStartDropsSpace(s);
    TrimEndDropsSpace(t);
    var i := |s| - |t|;
    if Trim(s) == [] {
      assert AllSpace(t) by { assert t[|Trim(s)|..] == t; }
      assert t == [];
      assert s[..i] == s;
    }
  }

  /** What `trim` keeps neither starts nor ends with white space. */
  lemma TrimEnds(s: string)
    ensures Trim(s) != [] ==> !IsSpace(Trim(s)[0]) && !IsSpace(Trim(s)[|Trim(s)| - 1])
  {
    var t := TrimStart(s);
    TrimStartDropsSpace(s);
    TrimEndDropsSpace(t);
    var r := Trim(s);
    if r != [] {
      assert r[0] == t[0];
    }
  }

  /** `trim` drops only white space, and only at the two ends. */
  lemma TrimIsInfix(s: string)
    ensures var i := |s| - |TrimStart(s)|;
            i + |Trim(s)| <= |s| && Trim(s) == s[i..i + |Trim(s)|]
            && AllSpace(s[..i]) && AllSpace(s[i + |Trim(s)|..])
  {
    var t := TrimStart(s);
    var i := |s| - |t|;
    var r := TrimEnd(t);
    assert r == s[i..i + |r|] by {
      assert t == s[i..];
      assert r == t[..|r|];
    }
    assert AllSpace(s[..i]) by {
      TrimStartDropsSpace(s);
    }
    assert AllSpace(s[i + |r|..]) by {
      TrimEndDropsSpace(t);
      assert t[|r|..] == s[i + |r|..] by {
        assert t == s[i..];
      }
    }
  }

  /** JavaScript's `!s.trim()`: the string is empty or white space only. */
  predicate IsBlank(s: string) {
    Trim(s) == ""
  }

  /** Skipping a run of white space in front of `s` lands where skipping in `s` itself does. */
  lemma {:induction false} LeadAfterSpace(p: string, s: string, i: nat)
    requires AllSpace(p) && i <= |p|
    ensures Lead(p + s, i) == |p| + Lead(s, 0)
    decreases |p| - i
  {
    if i < |p| {
      assert (p + s)[i] == p[i];
      LeadAfterSpace(p, s, i + 1);
    } else {
      LeadShift(p, s, 0);
    }
  }

  /** Behind a prefix, `Lead` on `p + s` is `Lead` on `s`, shifted. */
  lemma {:induction false} LeadShift(p: string, s: string, i: nat)
    requires i <= |s|
    ensures Lead(p + s, |p| + i) == |p| + Lead(s, i)
    decreases |s| - i
  {
    if i < |s| {
      assert (p + s)[|p| + i] == s[i];
      if IsSpace(s[i]) {
        LeadShift(p, s, i + 1);
      }
    }
  }

  lemma TrimStartAfterSpace(p: string, s: string)
    requires AllSpace(p)
    ensures TrimStart(p + s) == TrimStart(s)
  {
    LeadAfterSpace(p, s, 0);
    assert (p + s)[|p| + Lead(s, 0)..] == s[Lead(s, 0)..];
  }

  /** Skipping a run of white space at the end of `s + q` lands where skipping in `s` itself does. */
  lemma {:induction false} TailBeforeSpace(s: string, q: string, j: nat)
    requires AllSpace(q) && |s| <= j <= |s + q|
    ensures Tail(s + q, j) == Tail(s, |s|)
    decreases j
  {
    if j > |s| {
      assert (s + q)[j - 1] == q[j - 1 - |s|];
      TailBeforeSpace(s, q, j - 1);
    } else {
      TailPrefix(s, q, j);
    }
  }

  /** Within `s`, `Tail` on `s + q` is `Tail` on `s`. */
  lemma {:induction false} TailPrefix(s: string, q: string, j: nat)
    requires j <= |s|
    ensures Tail(s + q, j) == Tail(s, j)
    decreases j
  {
    if j > 0 {
      assert (s + q)[j - 1] == s[j - 1];
      if IsSpace(s[j - 1]) {
        TailPrefix(s, q, j - 1);
      }
    }
  }

  lemma TrimEndBeforeSpace(s: string, q: string)
    requires AllSpace(q)
    ensures TrimEnd(s + q) == TrimEnd(s)
  {
    TailBeforeSpace(s, q, |s + q|);
    assert (s + q)[..Tail(s, |s|)] == s[..Tail(s, |s|)];
  }

  /** Before the first non-white-space character of `s`, `Lead` on `s + q` is `Lead` on `s`. */
  lemma {:induction false} LeadPrefix(s: string, q: string, i: nat)
    requires i <= |s| && Lead(s, i) < |s|
    ensures Lead(s + q, i) == Lead(s, i)
    decreases |s| - i
  {
    assert (s + q)[i] == s[i];
    if IsSpace(s[i]) {
      LeadPrefix(s, q, i + 1);
    }
  }

  /** Trimming starts at the first non-space: trailing text is carried along unchanged. */
  lemma TrimStartAppend(s: string, q: string)
    requires !AllSpace(s)
    ensures TrimStart(s + q) == TrimStart(s) + q
  {
    LeadSkipsSpace(s, 0);
    var n := Lead(s, 0);
    var k :| 0 <= k < |s| && !IsSpace(s[k]);
    assert n <= k;
    LeadPrefix(s, q, 0);
    assert (s + q)[n..] == s[n..] + q;
  }

  lemma AllSpaceAppend(s: string, q: string)
    requires AllSpace(s) && AllSpace(q)
    ensures AllSpace(s + q)
  {
    forall k | 0 <= k < |s + q| ensures IsSpace((s + q)[k]) {
      if k < |s| { assert (s + q)[k] == s[k]; } else { assert (s + q)[k] == q[k - |s|]; }
    }
  }

  /** Surrounding white space never changes the result of `trim`. */
  lemma TrimSurrounding(p: string, s: string, q: string)
    requires AllSpace(p) && AllSpace(q)
    ensures Trim(p + s + q) == Trim(s)
  {
    assert p + s + q == p + (s + q);
    TrimStartAfterSpace(p, s + q);
    if AllSpace(s) {
      AllSpaceAppend(s, q);
      AllSpaceAppend(p, s + q);
      TrimEmptyIff(p + s + q);
      TrimEmptyIff(s);
    } else {
      TrimStartAppend(s, q);
      TrimEndBeforeSpace(TrimStart(s), q);
    }
  }

  /** Trimming twice is trimming once. */
  lemma TrimIdempotent(s: string)
    ensures Trim(Trim(s)) == Trim(s)
  {
    var r := Trim(s);
    TrimEnds(s);
    if r != [] {
      assert TrimStart(r) == r;
      assert TrimEnd(r) == r;
    }
  }

  /** `toLowerCase` on one code point, for basic Latin and Cyrillic letters. */
  function LowerChar(c: char): char {
    if 'A' <= c <= 'Z' then (c as int + 32) as char
    else if '\U{0410}' <= c <= '\U{042F}' then (c as int + 32) as char
    else if '\U{0400}' <= c <= '\U{040F}' then (c as int + 80) as char
    else c
  }

  /** `toUpperCase` on one code point, for basic Latin and Cyrillic letters. */
  function UpperChar(c: char): char {
    if 'a' <= c <= 'z' then (c as int - 32) as char
    else if '\U{0430}' <= c <= '\U{044F}' then (c as int - 32) as char
    else if '\U{0450}' <= c <= '\U{045F}' then (c as int - 80) as char
    else c
  }

  function Lower(s: string): (r: string)
    ensures |r| == |s|
  {
    seq(|s|, i requires 0 <= i < |s| => LowerChar(s[i]))
  }

  function Upper(s: string): (r: string)
    ensures |r| == |s|
  {
    seq(|s|, i requires 0 <= i < |s| => UpperChar(s[i]))
  }

  /** Case mapping never turns a letter into white space or white space into anything else. */
  lemma LowerKeepsSpace(s: string)
    ensures forall i :: 0 <= i < |s| ==> (IsSpace(Lower(s)[i]) <==> IsSpace(s[i]))
  {
  }

  /** Upper case and lower case are inverse on the letters they map. */
  lemma CaseRoundTrip(c: char)
    ensures LowerChar(UpperChar(c)) == LowerChar(c)
    ensures UpperChar(LowerChar(c)) == UpperChar(c)
  {
  }

  lemma LowerAppend(s: string, t: string)
    ensures Lower(s + t) == Lower(s) + Lower(t)
  {
  }

  lemma UpperAppend(s: string, t: string)
    ensures Upper(s + t) == Upper(s) + Upper(t)
  {
  }

  /** `s.startsWith(p)` */
  predicate StartsWith(s: string, p: string) {
    |p| <= |s| && s[..|p|] == p
  }

  /** `s.includes(sub)` */
  predicate Includes(s: string, sub: string)
    decreases |s|
  {
    StartsWith(s, sub) || (|s| > 0 && Includes(s[1..], sub))
  }

  predicate OccursAt(s: string, sub: string, i: int) {
    0 <= i <= |s| - |sub| && s[i..i + |sub|] == sub
  }

  /** `includes` holds exactly when `sub` occurs at some offset of `s`. */
  lemma {:induction false} IncludesIff(s: string, sub: string)
    ensures Includes(s, sub) <==> exists i :: OccursAt(s, sub, i)
    decreases |s|
  {
    if StartsWith(s, sub) {
      assert OccursAt(s, sub, 0);
    } else if |s| > 0 {
      IncludesIff(s[1..], sub);
      if exists i :: OccursAt(s, sub, i) {
        var i :| OccursAt(s, sub, i);
        assert i != 0;
        assert s[1..][i - 1..i - 1 + |sub|] == s[i..i + |sub|];
        assert OccursAt(s[1..], sub, i - 1);
      }
      if Includes(s[1..], sub) {
        var i :| OccursAt(s[1..], sub, i);
        assert s[1..][i..i + |sub|] == s[i + 1..i + 1 + |sub|];
        assert OccursAt(s, sub, i + 1);
      }
    } else {
      assert |sub| > 0;
      assert forall i :: !OccursAt(s, sub, i);
    }
  }

  /** `s.slice(0, n)` for `n >= 0`. */
  function Take(s: string, n: nat): (r: string)
    ensures |r| == if |s| <= n then |s| else n
    ensures StartsWith(s, r)
  {
    if |s| <= n then s else s[..n]
  }

  /** `s.split(sep)` for a one-character separator. */
  function Split(s: string, sep: char): (r: seq<string>)
    ensures |r| >= 1
    ensures forall k, j :: 0 <= k < |r| && 0 <= j < |r[k]| ==> r[k][j] != sep
    decreases |s|
  {
    if |s| == 0 then [""]
    else if s[0] == sep then [""] + Split(s[1..], sep)
    else
      var rest := Split(s[1..], sep);
      [[s[0]] + rest[0]] + rest[1..]
  }

  /** `parts.join(sep)` */
  function JoinWith(parts: seq<string>, sep: char): string
    decreases |parts|
  {
    if |parts| == 0 then ""
    else if |parts| == 1 then parts[0]
    else parts[0] + [sep] + JoinWith(parts[1..], sep)
  }

  /** Splitting and joining with the same separator gives back the string. */
  lemma {:induction false} SplitJoin(s: string, sep: char)
    ensures JoinWith(Split(s, sep), sep) == s
    decreases |s|
  {
    if |s| == 0 {
    } else if s[0] == sep {
      SplitJoin(s[1..], sep);
      assert s == [sep] + s[1..];
    } else {
      SplitJoin(s[1..], sep);
      var rest := Split(s[1..], sep);
      if |rest| == 1 {
        assert s == [s[0]] + rest[0];
      } else {
        assert JoinWith(rest, sep) == rest[0] + [sep] + JoinWith(rest[1..], sep);
        var r := Split(s, sep);
        assert r[1..] == rest[1..];
        assert s == [s[0]] + s[1..];
      }
    }
  }

  function DigitChar(d: nat): (c: char)
    requires d < 10
    ensures '0' <= c <= '9'
  {
    ['0', '1', '2', '3', '4', '5', '6', '7', '8', '9'][d]
  }

  function DigitValue(c: char): nat
    requires '0' <= c <= '9'
  {
    c as int - '0' as int
  }

  predicate AllDigits(s: string) {
    forall i :: 0 <= i < |s| ==> '0' <= s[i] <= '9'
  }

  /** The number a string of decimal digits denotes. */
  function DecimalValue(s: string): nat
    requires AllDigits(s)
    decreases |s|
  {
    if s == [] then 0 else 10 * DecimalValue(s[..|s| - 1]) + DigitValue(s[|s| - 1])
  }

  /** The decimal rendering of a non-negative integer, as in ``${n}``. */
  function NatToString(n: nat): (r: string)
    ensures |r| >= 1 && AllDigits(r)
    ensures |r| > 1 ==> r[0] != '0'
    decreases n
  {
    if n < 10 then [DigitChar(n)] else NatToString(n / 10) + [DigitChar(n % 10)]
  }

  /** Reading back the rendered digits gives the number: the rendering is faithful. */
  lemma {:induction false} NatToStringValue(n: nat)
    ensures DecimalValue(NatToString(n)) == n
    decreases n
  {
    if n >= 10 {
      NatToStringValue(n / 10);
      var p, d := NatToString(n / 10), DigitChar(n % 10);
      var r := p + [d];
      assert r == NatToString(n);
      assert r[..|r| - 1] == p;
      assert DigitValue(d) == n % 10;
    }
  }

  /** The decimal rendering of any integer: a minus sign before a negative one. */
  function IntToString(i: int): (r: string)
    ensures i >= 0 ==> r == NatToString(i)
    ensures i < 0 ==> r == "-" + NatToString(-i)
  {
    if i < 0 then "-" + NatToString(-i) else NatToString(i)
  }
}
