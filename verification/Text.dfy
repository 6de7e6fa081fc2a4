/** Text primitives shared by the protocol modules: the pieces of Rust's `str`
    and `u64` interfaces that the modelled code calls (`trim`, `find`,
    `split_once`, `split`, `join`, decimal formatting and parsing). */
module Text {

  datatype Option<+T> = None | Some(value: T)

  datatype Result<+T, +E> = Ok(value: T) | Err(error: E)

  const U64_MAX: nat := 0xFFFF_FFFF_FFFF_FFFF

  type u64 = n: nat | n <= U64_MAX

  type byte = n: nat | n < 256

  function Min(a: nat, b: nat): nat {
    if a <= b then a else b
  }

  function SaturatingAdd(a: u64, b: u64): u64 {
    if a + b <= U64_MAX then a + b else U64_MAX
  }

  // ----- white space -----------------------------------------------------

  /** Unicode White_Space, the set behind Rust's `char::is_whitespace`. */
  predicate IsSpace(c: char) {
    || '\t' <= c <= '\r' || c == ' ' || c == '\U{85}' || c == '\U{A0}' || c == '\U{1680}'
    || '\U{2000}' <= c <= '\U{200A}' || c == '\U{2028}' || c == '\U{2029}' || c == '\U{202F}'
    || c == '\U{205F}' || c == '\U{3000}'
  }

  function TrimStart(s: string): (r: string)
    ensures r == "" || !IsSpace(r[0])
  {
    if s != "" && IsSpace(s[0]) then TrimStart(s[1..]) else s
  }

  function TrimEnd(s: string): (r: string)
    ensures r == "" || !IsSpace(r[|r| - 1])
    ensures r <= s
  {
    if s != "" && IsSpace(s[|s| - 1]) then TrimEnd(s[..|s| - 1]) else s
  }

  function Trim(s: string): string {
    TrimEnd(TrimStart(s))
  }

  /** Text without white space at either end survives `trim`. */
  lemma TrimKeeps(s: string)
    requires s != "" ==> !IsSpace(s[0]) && !IsSpace(s[|s| - 1])
    ensures Trim(s) == s
  {
  }

  /** Trimming takes off white space at both ends and nothing else, and leaves none there. */
  lemma TrimIs(s: string) returns (a: string, b: string)
    ensures s == a + Trim(s) + b && AllSpace(a) && AllSpace(b)
    ensures Trim(s) != "" ==> !IsSpace(Trim(s)[0]) && !IsSpace(Trim(s)[|Trim(s)| - 1])
  {
    var t := TrimStart(s);
    a := TrimStartIs(s);
    b := TrimEndIs(t);
    Assoc(a, Trim(s), b);
    assert Trim(s) != "" ==> Trim(s)[0] == t[0];
  }

  predicate AllSpace(s: string) {
    forall i :: 0 <= i < |s| ==> IsSpace(s[i])
  }

  lemma {:induction false} TrimStartIs(s: string) returns (a: string)
    ensures s == a + TrimStart(s) && AllSpace(a)
  {
    if s == "" || !IsSpace(s[0]) {
      a := "";
    } else {
      var rest := TrimStartIs(s[1..]);
      a := [s[0]] + rest;
      HeadTail(s, []);
      Assoc([s[0]], rest, TrimStart(s));
    }
  }

  lemma {:induction false} TrimEndIs(s: string) returns (b: string)
    ensures s == TrimEnd(s) + b && AllSpace(b)
  {
    if s == "" || !IsSpace(s[|s| - 1]) {
      b := "";
    } else {
      var rest := TrimEndIs(s[..|s| - 1]);
      b := rest + [s[|s| - 1]];
      assert s == s[..|s| - 1] + [s[|s| - 1]];
      Assoc(TrimEnd(s), rest, [s[|s| - 1]]);
    }
  }

  // ----- ASCII case ------------------------------------------------------

  function LowerChar(c: char): char {
    if 'A' <= c <= 'Z' then (c as int + 32) as char else c
  }

  /** `to_ascii_lowercase`. */
  function Lower(s: string): (r: string)
    ensures |r| == |s|
    ensures forall i :: 0 <= i < |s| ==> r[i] == LowerChar(s[i])
  {
    if s == "" then "" else [LowerChar(s[0])] + Lower(s[1..])
  }

  /** An ASCII letter and its other case. */
  predicate OtherCase(c: char, d: char) {
    || ('A' <= c <= 'Z' && d as int == c as int + 32)
    || ('a' <= c <= 'z' && d as int == c as int - 32)
  }

  predicate EqualIgnoringCase(a: string, b: string) {
    |a| == |b| && forall i :: 0 <= i < |a| ==> a[i] == b[i] || OtherCase(a[i], b[i])
  }

  /** Lowercasing identifies exactly the texts that differ only in ASCII case. */
  lemma LowerDecides(a: string, b: string)
    ensures Lower(a) == Lower(b) <==> EqualIgnoringCase(a, b)
  {
    hide LowerChar, OtherCase;
    if Lower(a) == Lower(b) {
      forall i | 0 <= i < |a| ensures a[i] == b[i] || OtherCase(a[i], b[i]) {
        assert Lower(a)[i] == Lower(b)[i];
        CharCases(a[i], b[i]);
      }
    } else if EqualIgnoringCase(a, b) {
      forall i | 0 <= i < |a| ensures Lower(a)[i] == Lower(b)[i] {
        CharCases(a[i], b[i]);
      }
    }
  }

  lemma CharCases(c: char, d: char)
    ensures LowerChar(c) == LowerChar(d) <==> c == d || OtherCase(c, d)
  {
  }

  /** Lowercase text is its own lowercase. */
  lemma LowerKeeps(s: string)
    requires forall i :: 0 <= i < |s| ==> !('A' <= s[i] <= 'Z')
    ensures Lower(s) == s
  {
  }

  // ----- decimal ---------------------------------------------------------

  predicate IsDigit(c: char) {
    '0' <= c <= '9'
  }

  predicate AllDigits(s: string) {
    forall i :: 0 <= i < |s| ==> IsDigit(s[i])
  }

  function DigitOf(d: nat): (c: char)
    requires d < 10
    ensures IsDigit(c) && c as int == '0' as int + d
  {
    ('0' as int + d) as char
  }

  /** Formatting of an unsigned integer. */
  function PrintNat(n: nat): (s: string)
    ensures s != "" && AllDigits(s)
  {
    if n < 10 then [DigitOf(n)] else PrintNat(n / 10) + [DigitOf(n % 10)]
  }

  /** Formatting with `{:0w}`: zero-padded on the left to at least `w` characters. */
  function PrintPadded(n: nat, w: nat): (s: string)
    ensures w <= |s| && AllDigits(s)
  {
    PadTo(PrintNat(n), w)
  }

  function PadTo(s: string, w: nat): (r: string)
    requires AllDigits(s)
    ensures w <= |r| && AllDigits(r) && |s| <= |r|
    decreases w - |s|
  {
    if |s| < w then PadTo(['0'] + s, w) else s
  }

  function DigitsValue(s: string): nat
    requires AllDigits(s)
  {
    if s == "" then 0
    else DigitsValue(s[..|s| - 1]) * 10 + (s[|s| - 1] as int - '0' as int)
  }

  /** `str::parse::<u64>`: an optional plus sign, then at least one digit, and no overflow. */
  function ParseU64(s: string): Option<u64> {
    var digits := if s != "" && s[0] == '+' then s[1..] else s;
    if digits == "" || !AllDigits(digits) || U64_MAX < DigitsValue(digits) then None
    else Some(DigitsValue(digits))
  }

  lemma {:induction false} PrintNatValue(n: nat)
    ensures DigitsValue(PrintNat(n)) == n
  {
    if n < 10 {
    } else {
      PrintNatValue(n / 10);
      assert PrintNat(n)[..|PrintNat(n)| - 1] == PrintNat(n / 10);
    }
  }

  /** Parsing undoes formatting, and rejects exactly the numbers that do not fit. */
  lemma ParsePrinted(n: nat)
    ensures ParseU64(PrintNat(n)) == if n <= 0xFFFF_FFFF_FFFF_FFFF then Some(n) else None
    ensures Trim(PrintNat(n)) == PrintNat(n)
  {
    PrintNatValue(n);
    TrimKeeps(PrintNat(n));
    assert PrintNat(n)[0] != '+';
  }

  lemma {:induction false} LeadingZero(s: string)
    requires AllDigits(s)
    ensures DigitsValue(['0'] + s) == DigitsValue(s)
  {
    if s == "" {
    } else {
      LeadingZero(s[..|s| - 1]);
      assert (['0'] + s)[..|s|] == ['0'] + s[..|s| - 1];
    }
  }

  function Zeros(n: nat): string {
    if n == 0 then "" else ['0'] + Zeros(n - 1)
  }

  lemma {:induction false} ZerosMore(n: nat)
    ensures Zeros(n) + ['0'] == Zeros(n + 1)
  {
    if n == 0 {
    } else {
      ZerosMore(n - 1);
      Assoc(['0'], Zeros(n - 1), ['0']);
    }
  }

  /** Digits are some zeros followed by their value as it is printed. */
  lemma {:induction false} DigitsAre(s: string) returns (k: nat)
    requires s != "" && AllDigits(s)
    ensures s == Zeros(k) + PrintNat(DigitsValue(s))
  {
    hide DigitsValue, PrintNat, Zeros;
    var front := s[..|s| - 1];
    var d := LastDigit(s);
    if front == "" {
      k := 0;
      assert Zeros(0) == "" && DigitsValue("") == 0 && PrintNat(d) == [DigitOf(d)] by { SmallDigits(d); }
    } else {
      k := DigitsAre(front);
      var v := DigitsValue(front);
      if v == 0 {
        SmallDigits(0);
        SmallDigits(d);
        ZerosMore(k);
        k := k + 1;
      } else {
        PrintNatStep(v, d);
        Assoc(Zeros(k), PrintNat(v), [DigitOf(d)]);
      }
    }
  }

  lemma LastDigit(s: string) returns (d: nat)
    requires s != "" && AllDigits(s)
    ensures d < 10 && s == s[..|s| - 1] + [DigitOf(d)] && DigitsValue(s) == DigitsValue(s[..|s| - 1]) * 10 + d
  {
    d := s[|s| - 1] as int - '0' as int;
  }

  lemma SmallDigits(d: nat)
    requires d < 10
    ensures PrintNat(d) == [DigitOf(d)] && PrintNat(0) == "0" && DigitsValue("") == 0 && Zeros(0) == ""
  {
  }

  lemma PrintNatStep(v: nat, d: nat)
    requires 0 < v && d < 10
    ensures PrintNat(v * 10 + d) == PrintNat(v) + [DigitOf(d)]
  {
    assert (v * 10 + d) / 10 == v && (v * 10 + d) % 10 == d;
  }

  lemma {:induction false} ZerosValue(k: nat, s: string)
    requires AllDigits(s)
    ensures AllDigits(Zeros(k) + s) && DigitsValue(Zeros(k) + s) == DigitsValue(s)
  {
    if k == 0 {
      assert Zeros(0) + s == s;
    } else {
      ZerosValue(k - 1, s);
      LeadingZero(Zeros(k - 1) + s);
      Assoc(['0'], Zeros(k - 1), s);
    }
  }

  /** `n` in decimal after `k` zeros, with or without a plus sign. */
  predicate Spells(s: string, n: nat, k: nat) {
    s == Zeros(k) + PrintNat(n) || s == "+" + (Zeros(k) + PrintNat(n))
  }

  /** What is parsed: exactly the spellings of the numbers that fit. */
  lemma ParsesExactly(s: string, n: nat)
    ensures ParseU64(s) == Some(n) <==> n <= 0xFFFF_FFFF_FFFF_FFFF && exists k :: Spells(s, n, k)
  {
    if ParseU64(s) == Some(n) {
      var digits := if s != "" && s[0] == '+' then s[1..] else s;
      var k := DigitsAre(digits);
      assert s[0] == '+' ==> s == "+" + digits;
      assert Spells(s, n, k);
    }
    if n <= 0xFFFF_FFFF_FFFF_FFFF && exists k :: Spells(s, n, k) {
      var k :| Spells(s, n, k);
      SpellingParses(s, n, k);
    }
  }

  lemma SpellingParses(s: string, n: nat, k: nat)
    requires n <= 0xFFFF_FFFF_FFFF_FFFF && Spells(s, n, k)
    ensures ParseU64(s) == Some(n)
  {
    hide PrintNat, Zeros, DigitsValue;
    var digits := Zeros(k) + PrintNat(n);
    ZerosValue(k, PrintNat(n));
    PrintNatValue(n);
    if s != digits {
      assert s[0] == '+' && s[1..] == digits;
    } else {
      assert IsDigit(s[0]);
    }
  }

  lemma {:induction false} PadToValue(s: string, w: nat)
    requires AllDigits(s)
    ensures DigitsValue(PadTo(s, w)) == DigitsValue(s)
    ensures |PadTo(s, w)| == if |s| < w then w else |s|
    decreases w - |s|
  {
    if |s| >= w {
    } else {
      LeadingZero(s);
      PadToValue(['0'] + s, w);
    }
  }

  /** The number of digits printed. */
  lemma {:induction false} PrintNatLength(n: nat)
    ensures n < 10 <==> |PrintNat(n)| <= 1
    ensures n < 100 <==> |PrintNat(n)| <= 2
    ensures n < 10000 <==> |PrintNat(n)| <= 4
  {
    if n < 10 {
    } else {
      var q := n / 10;
      assert |PrintNat(n)| == |PrintNat(q)| + 1;
      if 10 <= q {
        assert |PrintNat(q)| == |PrintNat(q / 10)| + 1;
        if 10 <= q / 10 {
          assert |PrintNat(q / 10)| == |PrintNat(q / 10 / 10)| + 1;
        }
      }
    }
  }

  /** A padded field that fits its width has exactly that width and reads back. */
  lemma PaddedField(n: nat, w: nat)
    requires (w == 2 && n < 100) || (w == 4 && n < 10000)
    ensures |PrintPadded(n, w)| == w && DigitsValue(PrintPadded(n, w)) == n
  {
    PrintNatLength(n);
    PadToValue(PrintNat(n), w);
    PrintNatValue(n);
  }

  lemma Assoc<T>(a: seq<T>, b: seq<T>, c: seq<T>)
    ensures (a + b) + c == a + (b + c)
  {
  }

  lemma HeadTail<T>(a: seq<T>, b: seq<T>)
    requires a != []
    ensures a == [a[0]] + a[1..]
    ensures a + b == [a[0]] + (a[1..] + b)
  {
  }

  lemma TakeCons<T>(s: seq<T>, n: nat)
    requires n < |s|
    ensures s[..n + 1] == [s[0]] + s[1..][..n]
  {
  }

  /** `strip_prefix`. */
  function StripPrefix(s: string, p: string): Option<string> {
    if p <= s then Some(s[|p|..]) else None
  }

  // ----- searching and splitting -----------------------------------------

  predicate OccursAt<T(==)>(s: seq<T>, p: seq<T>, i: nat) {
    i <= |s| && p <= s[i..]
  }

  /** `str::find`: the first occurrence. */
  function Find<T(==)>(s: seq<T>, p: seq<T>): (r: Option<nat>)
    ensures r.Some? ==> r.value + |p| <= |s|
  {
    if p <= s then Some(0)
    else if s == [] then None
    else
      match Find(s[1..], p)
      case None => None
      case Some(i) => Some(i + 1)
  }

  /** `find` returns an occurrence, no occurrence `j` is earlier, and it fails only when
      there is none. */
  lemma {:induction false} FindIsFirst<T>(s: seq<T>, p: seq<T>, j: nat)
    ensures Find(s, p).Some? ==> OccursAt(s, p, Find(s, p).value)
    ensures OccursAt(s, p, j) ==> Find(s, p).Some? && Find(s, p).value <= j
  {
    if !(p <= s) && s != [] {
      FindIsFirst(s[1..], p, if j == 0 then 0 else j - 1);
      if Find(s[1..], p).Some? {
        assert s[1..][Find(s[1..], p).value..] == s[Find(s, p).value..];
      }
      if 0 < j <= |s| {
        assert s[1..][j - 1..] == s[j..];
      }
    }
  }

  function Shifted(r: Option<nat>, n: nat): Option<nat> {
    if r.None? then None else Some(n + r.value)
  }

  /** Skipping a prefix in which no occurrence starts. */
  lemma {:induction false} FindSkips<T>(a: seq<T>, b: seq<T>, p: seq<T>)
    requires forall j: nat :: j < |a| ==> !OccursAt(a + b, p, j)
    ensures Find(a + b, p) == Shifted(Find(b, p), |a|)
  {
    if a == [] {
      assert a + b == b;
    } else {
      assert !OccursAt(a + b, p, 0);
      assert (a + b)[1..] == a[1..] + b;
      forall j: nat | j < |a[1..]|
        ensures !OccursAt(a[1..] + b, p, j)
      {
        assert !OccursAt(a + b, p, j + 1);
        assert (a + b)[j + 1..] == (a[1..] + b)[j..];
      }
      FindSkips(a[1..], b, p);
    }
  }

  /** `split_once`: the text before and after the first separator. */
  function SplitOnce<T(==)>(s: seq<T>, c: T): Option<(seq<T>, seq<T>)> {
    match Find(s, [c])
    case None => None
    case Some(i) => Some((s[..i], s[i + 1..]))
  }

  lemma SplitOnceAt<T>(a: seq<T>, c: T, b: seq<T>)
    requires c !in a
    ensures SplitOnce(a + [c] + b, c) == Some((a, b))
  {
    var s := a + ([c] + b);
    assert s == a + [c] + b;
    forall j: nat | j < |a|
      ensures !OccursAt(s, [c], j)
    {
      assert s[j..][0] == a[j];
    }
    FindSkips(a, [c] + b, [c]);
    assert [c] <= [c] + b;
    assert s[..|a|] == a && s[|a| + 1..] == b;
  }

  /** `split`: always at least one part, and the parts may be empty. */
  function Split<T(==)>(s: seq<T>, c: T): (r: seq<seq<T>>)
    ensures r != []
  {
    if s == [] then [[]]
    else if s[0] == c then [[]] + Split(s[1..], c)
    else var r := Split(s[1..], c); [[s[0]] + r[0]] + r[1..]
  }

  /** `join` with a one-character separator. */
  function Join<T>(parts: seq<seq<T>>, c: T): seq<T> {
    if parts == [] then []
    else if |parts| == 1 then parts[0]
    else parts[0] + [c] + Join(parts[1..], c)
  }

  predicate AllLack<T(==)>(parts: seq<seq<T>>, c: T) {
    forall i :: 0 <= i < |parts| ==> c !in parts[i]
  }

  lemma JoinEmptyFirst<T>(r: seq<seq<T>>, c: T)
    requires r != []
    ensures Join([[]] + r, c) == [c] + Join(r, c)
  {
    assert ([[]] + r)[1..] == r;
  }

  lemma JoinLongerFirst<T>(x: T, r: seq<seq<T>>, c: T)
    requires r != []
    ensures Join([[x] + r[0]] + r[1..], c) == [x] + Join(r, c)
  {
    var q := [[x] + r[0]] + r[1..];
    assert q[1..] == r[1..];
    if |r| > 1 {
      Assoc([x] + r[0], [c], Join(r[1..], c));
      Assoc([x], r[0], [c] + Join(r[1..], c));
      Assoc(r[0], [c], Join(r[1..], c));
    }
  }

  /** Joining undoes splitting, and no part contains the separator. */
  lemma {:induction false} JoinSplit<T>(s: seq<T>, c: T)
    ensures Join(Split(s, c), c) == s
    ensures AllLack(Split(s, c), c)
  {
    if s == [] {
    } else {
      hide Join;
      JoinSplit(s[1..], c);
      HeadTail(s, []);
      if s[0] == c {
        JoinEmptyFirst(Split(s[1..], c), c);
      } else {
        JoinLongerFirst(s[0], Split(s[1..], c), c);
      }
    }
  }

  lemma {:induction false} SplitAppend<T>(a: seq<T>, c: T, b: seq<T>)
    requires c !in a
    ensures Split(a + [c] + b, c) == [a] + Split(b, c)
  {
    var s := a + [c] + b;
    if a == [] {
      assert s[1..] == b;
    } else {
      assert s[1..] == a[1..] + [c] + b;
      SplitAppend(a[1..], c, b);
      assert [a[0]] + a[1..] == a;
    }
  }

  lemma {:induction false} SplitNone<T>(a: seq<T>, c: T)
    requires c !in a
    ensures Split(a, c) == [a]
  {
    if a == [] {
    } else {
      SplitNone(a[1..], c);
      assert [a[0]] + a[1..] == a;
    }
  }

  /** Splitting undoes joining when no part contains the separator. */
  lemma {:induction false} SplitJoin<T>(parts: seq<seq<T>>, c: T)
    requires parts != [] && AllLack(parts, c)
    ensures Split(Join(parts, c), c) == parts
  {
    if |parts| == 1 {
      SplitNone(parts[0], c);
    } else {
      SplitJoin(parts[1..], c);
      SplitAppend(parts[0], c, Join(parts[1..], c));
    }
  }

  predicate InSome<T(==)>(parts: seq<seq<T>>, x: T) {
    exists i :: 0 <= i < |parts| && x in parts[i]
  }

  lemma InSomeCons<T>(parts: seq<seq<T>>, x: T)
    requires parts != []
    ensures InSome(parts, x) <==> x in parts[0] || InSome(parts[1..], x)
  {
    var rest := parts[1..];
    if InSome(rest, x) {
      var i :| 0 <= i < |rest| && x in rest[i];
      assert rest[i] == parts[i + 1];
    }
    if InSome(parts, x) {
      var i :| 0 <= i < |parts| && x in parts[i];
      assert 0 < i ==> parts[i] == rest[i - 1];
    }
  }

  /** The elements of joined parts are theirs and the separator. */
  lemma {:induction false} JoinHolds<T>(parts: seq<seq<T>>, c: T, x: T)
    ensures x in Join(parts, c) <==> (1 < |parts| && x == c) || InSome(parts, x)
  {
    if parts == [] {
    } else {
      hide InSome;
      JoinHolds(parts[1..], c, x);
      InSomeCons(parts, x);
      if |parts| == 1 {
        assert !InSome(parts[1..], x) by { NotInNone(parts[1..], x); }
      }
    }
  }

  lemma NotInNone<T>(parts: seq<seq<T>>, x: T)
    requires parts == []
    ensures !InSome(parts, x)
  {
  }

  /** Joined parts end as their last part does. */
  lemma {:induction false} JoinEnds<T>(parts: seq<seq<T>>, c: T)
    requires parts != [] && parts[|parts| - 1] != []
    ensures var last := parts[|parts| - 1];
            Join(parts, c) != [] && Join(parts, c)[|Join(parts, c)| - 1] == last[|last| - 1]
  {
    if |parts| == 1 {
    } else {
      var rest := parts[1..];
      assert Join(parts, c) == (parts[0] + [c]) + Join(rest, c) && rest[|rest| - 1] == parts[|parts| - 1];
      hide Join;
      JoinEnds(rest, c);
      LastOf(parts[0] + [c], Join(rest, c));
    }
  }

  lemma LastOf<T>(a: seq<T>, b: seq<T>)
    requires b != []
    ensures (a + b)[|a + b| - 1] == b[|b| - 1]
  {
  }
}
