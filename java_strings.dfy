/**
 * The handful of `java.lang.String` / `java.lang.Integer` operations the settlement
 * code relies on, written out on `seq<char>`: `split` with a literal separator,
 * `String.join`, `trim`, `startsWith`, `replace(target, "")`, `toUpperCase`,
 * `compareTo` and `Integer.parseInt`.
 */
module JavaStrings {
  import opened Wrappers

  // ---------------------------------------------------------------------------
  // startsWith / replace(target, "")
  // ---------------------------------------------------------------------------

  /** `s.startsWith(prefix)`. */
  predicate StartsWith(s: string, prefix: string) {
    |prefix| <= |s| && s[..|prefix|] == prefix
  }

  /** `pat` occurs in `s` starting at index `i`. */
  ghost predicate OccursAt(s: string, pat: string, i: int) {
    0 <= i && i + |pat| <= |s| && s[i..i + |pat|] == pat
  }

  ghost predicate Contains(s: string, pat: string) {
    exists i :: OccursAt(s, pat, i)
  }

  /**
   * `s.replace(pat, "")`: every occurrence of `pat`, found left to right and
   * without overlap, is removed; the text left behind is not scanned again.
   */
  function RemoveAll(s: string, pat: string): (r: string)
    requires |pat| > 0
    ensures |r| <= |s|
    decreases |s|
  {
    if |s| < |pat| then s
    else if s[..|pat|] == pat then RemoveAll(s[|pat|..], pat)
    else [s[0]] + RemoveAll(s[1..], pat)
  }

  /** A string in which `pat` does not occur is left as it is. */
  lemma {:induction false} RemoveAllAbsent(s: string, pat: string)
    requires |pat| > 0 && !Contains(s, pat)
    ensures RemoveAll(s, pat) == s
    decreases |s|
  {
    if |s| >= |pat| {
      assert !OccursAt(s, pat, 0);
      assert !Contains(s[1..], pat) by {
        forall i | 0 <= i && i + |pat| <= |s| - 1 ensures !OccursAt(s[1..], pat, i) {
          assert s[1..][i..i + |pat|] == s[i + 1..i + 1 + |pat|];
          assert !OccursAt(s, pat, i + 1);
        }
      }
      RemoveAllAbsent(s[1..], pat);
    }
  }

  /** Removing a leading `pat` from `pat + rest`, when `pat` is nowhere in `rest`, leaves `rest`. */
  lemma RemoveLeading(pat: string, rest: string)
    requires |pat| > 0 && !Contains(rest, pat)
    ensures RemoveAll(pat + rest, pat) == rest
  {
    assert (pat + rest)[..|pat|] == pat;
    assert (pat + rest)[|pat|..] == rest;
    RemoveAllAbsent(rest, pat);
  }

  // ---------------------------------------------------------------------------
  // trim
  // ---------------------------------------------------------------------------

  /** `String.trim` strips every character whose code is at most U+0020. */
  predicate IsBlank(c: char) {
    c <= ' '
  }

  function TrimStart(s: string): string {
    if s != [] && IsBlank(s[0]) then TrimStart(s[1..]) else s
  }

  function TrimEnd(s: string): string {
    if s != [] && IsBlank(s[|s| - 1]) then TrimEnd(s[..|s| - 1]) else s
  }

  lemma {:induction false} TrimStartMeaning(s: string)
    ensures var r := TrimStart(s);
      |r| <= |s| && r == s[|s| - |r|..] && (r == [] || !IsBlank(r[0]))
      && forall k :: 0 <= k < |s| - |r| ==> IsBlank(s[k])
  {
    if s != [] && IsBlank(s[0]) {
      var t := s[1..];
      TrimStartMeaning(t);
      var r := TrimStart(t);
      assert t[|t| - |r|..] == s[|s| - |r|..];
      forall k | 0 <= k < |s| - |r| ensures IsBlank(s[k]) {
        if k > 0 {
          assert s[k] == t[k - 1];
        }
      }
    }
  }

  lemma {:induction false} TrimEndMeaning(s: string)
    ensures var r := TrimEnd(s);
      |r| <= |s| && r == s[..|r|] && (r == [] || !IsBlank(r[|r| - 1]))
      && forall k :: |r| <= k < |s| ==> IsBlank(s[k])
  {
    if s != [] && IsBlank(s[|s| - 1]) {
      var t := s[..|s| - 1];
      TrimEndMeaning(t);
      var r := TrimEnd(t);
      assert t[..|r|] == s[..|r|];
      forall k | |r| <= k < |s| ensures IsBlank(s[k]) {
        if k < |t| {
          assert s[k] == t[k];
        }
      }
    }
  }

  /** `r` is `s` with `i` blanks removed in front and only blanks removed behind. */
  ghost predicate TrimmedAt(s: string, r: string, i: int) {
    0 <= i <= |s| - |r| && r == s[i..i + |r|]
    && (forall k :: 0 <= k < i ==> IsBlank(s[k]))
    && (forall k :: i + |r| <= k < |s| ==> IsBlank(s[k]))
  }

  /** `s.trim()`: the blank characters at both ends dropped. */
  function Trim(s: string): string {
    TrimEnd(TrimStart(s))
  }

  /**
   * What `trim` leaves is an infix of `s` that neither starts nor ends with a
   * blank, and everything it dropped is blank.
   */
  lemma TrimMeaning(s: string)
    ensures var r := Trim(s); r == [] || (!IsBlank(r[0]) && !IsBlank(r[|r| - 1]))
    ensures exists i :: TrimmedAt(s, Trim(s), i)
  {
    var t := TrimStart(s);
    TrimStartMeaning(s);
    TrimEndMeaning(t);
    assert TrimmedAt(s, Trim(s), |s| - |t|);
  }

  // ---------------------------------------------------------------------------
  // toUpperCase and compareTo
  // ---------------------------------------------------------------------------

  function UpperChar(c: char): char {
    if 'a' <= c <= 'z' then (c as int - 32) as char else c
  }

  /** `s.toUpperCase()` on the ASCII letters. */
  function Upper(s: string): (r: string)
    ensures |r| == |s|
    ensures forall i :: 0 <= i < |s| ==> r[i] == UpperChar(s[i])
  {
    seq(|s|, i requires 0 <= i < |s| => UpperChar(s[i]))
  }

  /** Two characters are the same letter up to ASCII case, or simply equal. */
  predicate CaseVariants(a: char, b: char) {
    a == b
    || ('a' <= a <= 'z' && b as int == a as int - 32)
    || ('a' <= b <= 'z' && a as int == b as int - 32)
  }

  lemma UpperCharSame(a: char, b: char)
    ensures UpperChar(a) == UpperChar(b) <==> CaseVariants(a, b)
  {
  }

  /**
   * The case-ignoring `TreeMap` treats two names as one key exactly when they
   * have the same length and agree character by character up to ASCII case.
   */
  lemma {:induction false} SameKeyIff(s: string, t: string)
    ensures Upper(s) == Upper(t) <==> |s| == |t| && forall i :: 0 <= i < |s| ==> CaseVariants(s[i], t[i])
  {
    if Upper(s) == Upper(t) {
      forall i | 0 <= i < |s| ensures CaseVariants(s[i], t[i]) {
        assert Upper(s)[i] == Upper(t)[i];
        UpperCharSame(s[i], t[i]);
      }
    }
    if |s| == |t| && forall i :: 0 <= i < |s| ==> CaseVariants(s[i], t[i]) {
      forall i | 0 <= i < |s| ensures Upper(s)[i] == Upper(t)[i] {
        UpperCharSame(s[i], t[i]);
      }
    }
  }

  /** An upper-cased name is its own key: upper-casing it again changes nothing. */
  lemma UpperIdempotent(s: string)
    ensures Upper(Upper(s)) == Upper(s)
  {
    forall i | 0 <= i < |s| ensures Upper(Upper(s))[i] == Upper(s)[i] {
      assert UpperChar(UpperChar(s[i])) == UpperChar(s[i]);
    }
  }

  /**
   * `a.compareTo(b) < 0`: the first differing character decides, and a proper
   * prefix comes first: the case-sensitive natural order of `String`, with
   * characters compared as code points rather than UTF-16 units.
   */
  predicate StrLess(a: string, b: string)
    decreases |a|
  {
    if a == [] then b != []
    else if b == [] then false
    else if a[0] != b[0] then a[0] < b[0]
    else StrLess(a[1..], b[1..])
  }

  lemma {:induction false} StrLessIrreflexive(a: string)
    ensures !StrLess(a, a)
    decreases |a|
  {
    if a != [] { StrLessIrreflexive(a[1..]); }
  }

  lemma {:induction false} StrLessAsymmetric(a: string, b: string)
    ensures !(StrLess(a, b) && StrLess(b, a))
    decreases |a|
  {
    if a != [] && b != [] && a[0] == b[0] { StrLessAsymmetric(a[1..], b[1..]); }
  }

  lemma {:induction false} StrLessTransitive(a: string, b: string, c: string)
    requires StrLess(a, b) && StrLess(b, c)
    ensures StrLess(a, c)
    decreases |a|
  {
    if a != [] && a[0] == b[0] && b[0] == c[0] { StrLessTransitive(a[1..], b[1..], c[1..]); }
  }

  lemma {:induction false} StrLessTotal(a: string, b: string)
    ensures a == b || StrLess(a, b) || StrLess(b, a)
    decreases |a|
  {
    if a != [] && b != [] && a[0] == b[0] {
      StrLessTotal(a[1..], b[1..]);
      assert a == [a[0]] + a[1..] && b == [b[0]] + b[1..];
    }
  }

  // ---------------------------------------------------------------------------
  // split and String.join
  // ---------------------------------------------------------------------------

  /**
   * Every piece of `s` between occurrences of a literal, non-empty `sep`,
   * scanned left to right, including empty and trailing pieces.
   */
  function Pieces(s: string, sep: string): (ps: seq<string>)
    requires |sep| > 0
    ensures |ps| >= 1
    decreases |s|
  {
    if |s| < |sep| then [s]
    else if s[..|sep|] == sep then [""] + Pieces(s[|sep|..], sep)
    else
      var rest := Pieces(s[1..], sep);
      [[s[0]] + rest[0]] + rest[1..]
  }

  /** `String.join(sep, ps)`. */
  function Join(ps: seq<string>, sep: string): string
    decreases |ps|
  {
    if ps == [] then []
    else if |ps| == 1 then ps[0]
    else ps[0] + sep + Join(ps[1..], sep)
  }

  /** Java drops the trailing empty strings of a `split` that found a separator. */
  function DropTrailingEmpty(ps: seq<string>): (r: seq<string>)
    ensures |r| <= |ps| && r == ps[..|r|]
    ensures r == [] || r[|r| - 1] != ""
    ensures forall k :: |r| <= k < |ps| ==> ps[k] == ""
  {
    if ps != [] && ps[|ps| - 1] == "" then DropTrailingEmpty(ps[..|ps| - 1]) else ps
  }

  /**
   * `s.split(sep)` for a separator taken literally. With no occurrence the
   * result is `[s]` (so `"".split(",")` is `[""]`); otherwise the trailing
   * empty pieces are dropped (so `",".split(",")` is `[]`). The empty
   * separator splits between every character.
   */
  function Split(s: string, sep: string): (fields: seq<string>)
  {
    if sep == [] then
      (if s == [] then [""] else seq(|s|, i requires 0 <= i < |s| => [s[i]]))
    else
      var ps := Pieces(s, sep);
      if |ps| == 1 then ps else DropTrailingEmpty(ps)
  }

  /** What `Join` puts after the first piece. */
  function JoinTail(qs: seq<string>, sep: string): string {
    if qs == [] then [] else sep + Join(qs, sep)
  }

  lemma JoinFirst(ps: seq<string>, sep: string)
    requires |ps| >= 1
    ensures Join(ps, sep) == ps[0] + JoinTail(ps[1..], sep)
  {
  }

  /** Joining the pieces back with the separator gives the original string. */
  lemma {:induction false} JoinPieces(s: string, sep: string)
    requires |sep| > 0
    ensures Join(Pieces(s, sep), sep) == s
    decreases |s|
  {
    if |s| < |sep| {
    } else if s[..|sep|] == sep {
      var rest := Pieces(s[|sep|..], sep);
      JoinPieces(s[|sep|..], sep);
      JoinFirst([""] + rest, sep);
      assert ([""] + rest)[1..] == rest;
      assert s == sep + s[|sep|..];
    } else {
      var rest := Pieces(s[1..], sep);
      var ps := [[s[0]] + rest[0]] + rest[1..];
      assert Pieces(s, sep) == ps;
      JoinPieces(s[1..], sep);
      JoinFirst(rest, sep);
      JoinFirst(ps, sep);
      assert ps[1..] == rest[1..];
      assert s == [s[0]] + s[1..];
    }
  }

  /** `c` is not a character of `s`. */
  predicate Free(s: string, c: char) {
    forall k :: 0 <= k < |s| ==> s[k] != c
  }

  /** No field contains `c`. */
  predicate AllFree(fields: seq<string>, c: char) {
    forall i :: 0 <= i < |fields| ==> Free(fields[i], c)
  }

  /** No piece contains a one-character separator. */
  lemma {:induction false} PiecesFree(s: string, sep: string)
    requires |sep| == 1
    ensures AllFree(Pieces(s, sep), sep[0])
    decreases |s|
  {
    if |s| < |sep| {
    } else if s[..|sep|] == sep {
      PiecesFree(s[|sep|..], sep);
    } else {
      PiecesFree(s[1..], sep);
      var rest := Pieces(s[1..], sep);
      assert s[0] != sep[0] by { assert s[..1] == [s[0]]; }
      assert Free([s[0]] + rest[0], sep[0]);
    }
  }

  /** No field of a split on a one-character separator contains it. */
  lemma SplitFree(s: string, sep: string)
    requires |sep| == 1
    ensures AllFree(Split(s, sep), sep[0])
  {
    PiecesFree(s, sep);
  }

  /** A separator-free prefix is glued onto the first piece of what follows it. */
  lemma {:induction false} PiecesFreePrefix(a: string, t: string, sep: string)
    requires |sep| == 1 && Free(a, sep[0])
    ensures Pieces(a + t, sep) == [a + Pieces(t, sep)[0]] + Pieces(t, sep)[1..]
    decreases |a|
  {
    if a != [] {
      var s := a + t;
      assert s[..1] != sep by { assert s[0] == a[0]; }
      assert s[1..] == a[1..] + t;
      PiecesFreePrefix(a[1..], t, sep);
      assert [s[0]] + (a[1..] + Pieces(t, sep)[0]) == a + Pieces(t, sep)[0];
    } else {
      var ps := Pieces(t, sep);
      assert a + t == t && a + ps[0] == ps[0];
      assert ps == [ps[0]] + ps[1..];
    }
  }

  /** Splitting a join of separator-free pieces recovers every piece. */
  lemma {:induction false} PiecesJoin(ps: seq<string>, sep: string)
    requires |sep| == 1 && |ps| >= 1
    requires AllFree(ps, sep[0])
    ensures Pieces(Join(ps, sep), sep) == ps
    decreases |ps|
  {
    if |ps| == 1 {
      PiecesFreePrefix(ps[0], "", sep);
      assert Pieces("", sep) == [""];
      assert ps[0] + "" == ps[0];
    } else {
      var t := sep + Join(ps[1..], sep);
      assert Join(ps, sep) == ps[0] + t;
      PiecesFreePrefix(ps[0], t, sep);
      assert t[..|sep|] == sep && t[|sep|..] == Join(ps[1..], sep);
      PiecesJoin(ps[1..], sep);
      assert Pieces(t, sep) == [""] + ps[1..];
      assert ps[0] + "" == ps[0];
      assert ps == [ps[0]] + ps[1..];
    }
  }

  /**
   * `String.join` and `split` are inverse on separator-free fields, provided the
   * last field is not empty (Java would drop it).
   */
  lemma SplitJoin(ps: seq<string>, sep: string)
    requires |sep| == 1 && |ps| >= 1
    requires AllFree(ps, sep[0])
    requires |ps| == 1 || ps[|ps| - 1] != ""
    ensures Split(Join(ps, sep), sep) == ps
  {
    PiecesJoin(ps, sep);
  }

  // ---------------------------------------------------------------------------
  // Integer.parseInt / Integer.toString
  // ---------------------------------------------------------------------------

  const IntMin: int := -0x8000_0000
  const IntMax: int := 0x7fff_ffff

  predicate IsDigit(c: char) {
    '0' <= c <= '9'
  }

  predicate AllDigits(s: string) {
    forall k :: 0 <= k < |s| ==> IsDigit(s[k])
  }

  /** The value of a string of decimal digits, most significant first. */
  function DigitsValue(s: string): nat
    requires AllDigits(s)
  {
    if s == [] then 0
    else DigitsValue(s[..|s| - 1]) * 10 + (s[|s| - 1] as int - '0' as int)
  }

  /**
   * `Integer.parseInt(s)`: an optional `+` or `-` followed by at least one
   * decimal digit, and a value that fits in 32 bits; anything else is a
   * `NumberFormatException`, here `None`.
   */
  function ParseInt(s: string): Option<int> {
    if s == [] then None
    else
      var digits := if s[0] == '-' || s[0] == '+' then s[1..] else s;
      if digits == [] || !AllDigits(digits) then None
      else
        var v: int := if s[0] == '-' then 0 - DigitsValue(digits) else DigitsValue(digits);
        if IntMin <= v <= IntMax then Some(v) else None
  }

  function DigitChar(d: nat): char
    requires d < 10
  {
    ('0' as int + d) as char
  }

  /** The decimal digits of `n`, without leading zeros. */
  function NatDigits(n: nat): (s: string)
    ensures s != [] && AllDigits(s)
  {
    if n < 10 then [DigitChar(n)] else NatDigits(n / 10) + [DigitChar(n % 10)]
  }

  /** `Integer.toString(n)`. */
  function DecimalString(n: int): string {
    if n < 0 then "-" + NatDigits(-n) else NatDigits(n)
  }

  lemma {:induction false} DigitsValueOfNatDigits(n: nat)
    ensures DigitsValue(NatDigits(n)) == n
  {
    if n >= 10 {
      var s := NatDigits(n);
      DigitsValueOfNatDigits(n / 10);
      assert s[..|s| - 1] == NatDigits(n / 10);
    }
  }

  /** `k` zero digits. */
  function Zeros(k: nat): string {
    seq(k, _ => '0')
  }

  /**
   * `s` spells `v` in decimal: the digits of `Integer.toString` of its
   * magnitude after any number of leading zeros, preceded by nothing or `+`
   * when `v` is not negative, or by `-` when `v` is not positive.
   */
  ghost predicate SpelledWith(s: string, v: int, k: nat) {
    var body := Zeros(k) + NatDigits(if v < 0 then -v else v);
    (v >= 0 && (s == body || s == "+" + body)) || (v <= 0 && s == "-" + body)
  }

  /** Appending a digit to the digits of a positive number gives the digits of ten times it plus that digit. */
  lemma NatDigitsAppend(m: nat, digit: nat)
    requires 0 < m && digit < 10
    ensures NatDigits(m * 10 + digit) == NatDigits(m) + [DigitChar(digit)]
  {
    var n := m * 10 + digit;
    assert n / 10 == m && n % 10 == digit;
  }

  /** A digit string is the digits of its value after `k` leading zeros. */
  lemma {:induction false} DigitsSpelling(d: string) returns (k: nat)
    requires d != [] && AllDigits(d)
    ensures d == Zeros(k) + NatDigits(DigitsValue(d))
    decreases |d|
  {
    var p, c := d[..|d| - 1], d[|d| - 1];
    assert d == p + [c];
    var digit := c as int - '0' as int;
    assert 0 <= digit < 10 && DigitChar(digit) == c;
    assert DigitsValue(d) == DigitsValue(p) * 10 + digit;
    if p == [] {
      k := 0;
      assert NatDigits(digit) == [c];
    } else {
      var j := DigitsSpelling(p);
      if DigitsValue(p) == 0 {
        k := j + 1;
        assert NatDigits(0) == ['0'];
        assert Zeros(k) == Zeros(j) + ['0'];
        assert NatDigits(digit) == [c];
      } else {
        k := j;
        NatDigitsAppend(DigitsValue(p), digit);
      }
    }
  }

  /**
   * Everything `Integer.parseInt` accepts is a decimal spelling of the value
   * it returns, as `Integer.toString` writes it up to a leading `+` and
   * leading zeros (and `-` before a zero).
   */
  lemma ParseIntSpelling(s: string)
    requires ParseInt(s).Some?
    ensures exists k: nat :: SpelledWith(s, ParseInt(s).value, k)
  {
    var v := ParseInt(s).value;
    var digits := if s[0] == '-' || s[0] == '+' then s[1..] else s;
    var k := DigitsSpelling(digits);
    if s[0] == '-' {
      assert s == "-" + digits;
    } else if s[0] == '+' {
      assert s == "+" + digits;
    }
    assert SpelledWith(s, v, k);
  }

  /** `Integer.parseInt` reads back what `Integer.toString` writes, for every 32-bit value. */
  lemma ParseIntDecimalString(n: int)
    requires IntMin <= n <= IntMax
    ensures ParseInt(DecimalString(n)) == Some(n)
  {
    var s := DecimalString(n);
    if n < 0 {
      var digits := NatDigits(-n);
      assert s[0] == '-' && s[1..] == digits;
      DigitsValueOfNatDigits(-n);
    } else {
      var digits := NatDigits(n);
      assert s == digits && IsDigit(s[0]);
      DigitsValueOfNatDigits(n);
    }
  }
}
