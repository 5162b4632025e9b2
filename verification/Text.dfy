/** Strings as the contracts use them: code-point order, decimal digits, ASCII
    case, trimming, and splitting on a separator. */
module Text {
  import opened Ordering

  // ---- order ----

  predicate StrLe(a: string, b: string) {
    a == [] || (b != [] && (a[0] < b[0] || (a[0] == b[0] && StrLe(a[1..], b[1..]))))
  }

  lemma {:induction false} StrLeTotal(a: string, b: string)
    ensures StrLe(a, b) || StrLe(b, a)
  {
    if a != [] && b != [] && a[0] == b[0] {
      StrLeTotal(a[1..], b[1..]);
    }
  }

  lemma {:induction false} StrLeAntisymmetric(a: string, b: string)
    requires StrLe(a, b) && StrLe(b, a)
    ensures a == b
  {
    if a != [] && b != [] {
      StrLeAntisymmetric(a[1..], b[1..]);
      assert a == [a[0]] + a[1..] && b == [b[0]] + b[1..];
    }
  }

  lemma {:induction false} StrLeTransitive(a: string, b: string, c: string)
    requires StrLe(a, b) && StrLe(b, c)
    ensures StrLe(a, c)
  {
    if a != [] && a[0] == b[0] && b[0] == c[0] {
      StrLeTransitive(a[1..], b[1..], c[1..]);
    }
  }

  lemma StrLeOrder()
    ensures Preorder(StrLe)
  {
    forall a, b ensures StrLe(a, b) || StrLe(b, a) { StrLeTotal(a, b); }
    forall a, b, c | StrLe(a, b) && StrLe(b, c) ensures StrLe(a, c) { StrLeTransitive(a, b, c); }
  }

  lemma StrLeStrict(s: seq<string>)
    ensures Strict(StrLe, s)
  {
    forall i, j | 0 <= i < |s| && 0 <= j < |s| && StrLe(s[i], s[j]) && StrLe(s[j], s[i]) ensures s[i] == s[j] {
      StrLeAntisymmetric(s[i], s[j]);
    }
  }

  /** The strings agree up to k and the first is smaller there. */
  ghost predicate PartAt(a: string, b: string, k: int) {
    0 <= k < |a| && k < |b| && a[..k] == b[..k] && a[k] as int < b[k] as int
  }

  /** Dictionary order by code point: a prefix comes first, and otherwise the
      first place where two strings part decides. */
  lemma {:induction false} StrLeMeans(a: string, b: string)
    ensures StrLe(a, b) <==> a <= b || exists k :: PartAt(a, b, k)
    decreases |a|
  {
    if a != [] && b != [] {
      forall k ensures PartAt(a, b, k) <==> (k == 0 && a[0] as int < b[0] as int) || (a[0] == b[0] && PartAt(a[1..], b[1..], k - 1)) {
        PartStep(a, b, k);
      }
      assert a[0] == b[0] && a[1..] <= b[1..] <==> a <= b by {
        assert a == [a[0]] + a[1..] && b == [b[0]] + b[1..];
      }
      StrLeMeans(a[1..], b[1..]);
      hide PartAt;
      if k :| PartAt(a[1..], b[1..], k) {
        assert a[0] == b[0] ==> PartAt(a, b, k + 1);
      }
      assert a[0] as int < b[0] as int ==> PartAt(a, b, 0);
    }
  }

  lemma PartStep(a: string, b: string, k: int)
    requires a != [] && b != []
    ensures PartAt(a, b, k) <==> (k == 0 && a[0] as int < b[0] as int) || (a[0] == b[0] && PartAt(a[1..], b[1..], k - 1))
  {
    if 0 < k < |a| && k < |b| {
      assert a[..k] == [a[0]] + a[1..][..k-1] && b[..k] == [b[0]] + b[1..][..k-1];
      assert a[..k] == b[..k] ==> a[..k][0] == b[..k][0] && a[..k][1..] == b[..k][1..];
      assert a[..k][1..] == a[1..][..k-1] && b[..k][1..] == b[1..][..k-1];
    }
  }

  // ---- decimal numerals ----

  predicate IsDigit(c: char) { '0' <= c <= '9' }

  predicate AllDigits(s: string) { forall i :: 0 <= i < |s| ==> IsDigit(s[i]) }

  function DigitOf(n: nat): (c: char)
    requires n < 10
    ensures IsDigit(c) && c as int - '0' as int == n
  {
    ('0' as int + n) as char
  }

  /** The shortest decimal numeral of `n`. */
  function Decimal(n: nat): (s: string)
    ensures s != [] && AllDigits(s)
  {
    if n < 10 then [DigitOf(n)] else Decimal(n / 10) + [DigitOf(n % 10)]
  }

  /** The number a digit string denotes, leading zeros allowed. */
  function ParseDigits(s: string): nat
    requires AllDigits(s)
  {
    if s == [] then 0
    else ParseDigits(s[..|s|-1]) * 10 + (s[|s|-1] as int - '0' as int)
  }

  lemma {:induction false} ParseDecimal(n: nat)
    ensures ParseDigits(Decimal(n)) == n
  {
    if n >= 10 {
      ParseDecimal(n / 10);
      var s := Decimal(n);
      assert s[..|s|-1] == Decimal(n / 10);
    }
  }

  /** No numeral but zero's own starts with a zero. */
  lemma {:induction false} DecimalIsShortest(n: nat)
    ensures Decimal(n)[0] == '0' <==> n == 0
  {
    if n >= 10 {
      DecimalIsShortest(n / 10);
    }
  }

  lemma {:induction false} DecimalLength(n: nat)
    ensures |Decimal(n)| <= 4 <==> n <= 9999
  {
    DecimalDigits(n);
    if n >= 10 { DecimalDigits(n / 10); }
    if n >= 100 { DecimalDigits(n / 100); assert n / 10 / 10 == n / 100; }
    if n >= 1000 { DecimalDigits(n / 1000); assert n / 100 / 10 == n / 1000; }
    if n >= 10000 { DecimalDigits(n / 10000); assert n / 1000 / 10 == n / 10000; }
  }

  lemma DecimalDigits(n: nat)
    ensures |Decimal(n)| == if n < 10 then 1 else |Decimal(n / 10)| + 1
  {}

  function Zeros(k: nat): (s: string)
    ensures |s| == k && AllDigits(s)
  {
    seq(k, i => '0')
  }

  /** `{n:04d}`: at least four digits, more when the number needs them. */
  function Pad4(n: nat): (s: string)
    ensures AllDigits(s) && |s| >= 4
  {
    var d := Decimal(n);
    if |d| < 4 then Zeros(4 - |d|) + d else d
  }

  lemma {:induction false} LeadingZeros(k: nat, s: string)
    requires AllDigits(s)
    ensures ParseDigits(Zeros(k) + s) == ParseDigits(s)
    decreases |s|, k
  {
    var t := Zeros(k) + s;
    if s == [] {
      assert t == Zeros(k);
      if k > 0 {
        assert t[..|t|-1] == Zeros(k - 1) + [];
        LeadingZeros(k - 1, []);
      }
    } else {
      assert t[..|t|-1] == Zeros(k) + s[..|s|-1];
      LeadingZeros(k, s[..|s|-1]);
    }
  }

  lemma ParsePad4(n: nat)
    ensures ParseDigits(Pad4(n)) == n
    ensures |Pad4(n)| == 4 <==> n <= 9999
  {
    ParseDecimal(n);
    DecimalLength(n);
    var d := Decimal(n);
    if |d| < 4 { LeadingZeros(4 - |d|, d); }
  }

  lemma Pad4Injective(m: nat, n: nat)
    requires Pad4(m) == Pad4(n)
    ensures m == n
  {
    ParsePad4(m);
    ParsePad4(n);
  }

  // ---- hexadecimal ----

  predicate IsHex(c: char) { IsDigit(c) || 'a' <= c <= 'f' }

  predicate AllHex(s: string) { forall i :: 0 <= i < |s| ==> IsHex(s[i]) }

  // ---- case ----

  function UpperChar(c: char): char {
    if 'a' <= c <= 'z' then (c as int - 'a' as int + 'A' as int) as char else c
  }

  function LowerChar(c: char): char {
    if 'A' <= c <= 'Z' then (c as int - 'A' as int + 'a' as int) as char else c
  }

  function Upper(s: string): (r: string)
    ensures |r| == |s|
  {
    seq(|s|, i requires 0 <= i < |s| => UpperChar(s[i]))
  }

  function Lower(s: string): (r: string)
    ensures |r| == |s|
  {
    seq(|s|, i requires 0 <= i < |s| => LowerChar(s[i]))
  }

  /** The two alphabets lie 32 apart, and nothing else has a case. */
  lemma CaseMeans(s: string, i: nat)
    requires i < |s|
    ensures Upper(s)[i] as int == if 97 <= s[i] as int <= 122 then s[i] as int - 32 else s[i] as int
    ensures Lower(s)[i] as int == if 65 <= s[i] as int <= 90 then s[i] as int + 32 else s[i] as int
  {}

  lemma UpperIdempotent(s: string)
    ensures Upper(Upper(s)) == Upper(s)
  {}

  // ---- trimming ----

  predicate IsSpace(c: char) {
    c == ' ' || c == '\t' || c == '\n' || c == '\r' || c == '\U{000B}' || c == '\U{000C}'
  }

  function StripLeft(s: string): string {
    if s != [] && IsSpace(s[0]) then StripLeft(s[1..]) else s
  }

  function StripRight(s: string): string {
    if s != [] && IsSpace(s[|s|-1]) then StripRight(s[..|s|-1]) else s
  }

  function Strip(s: string): string { StripRight(StripLeft(s)) }

  /** Trimming leaves nothing exactly when there was nothing but blanks. */
  lemma StripEmpty(s: string)
    ensures Strip(s) == [] <==> forall i :: 0 <= i < |s| ==> IsSpace(s[i])
  {
    StripLeftBlank(s);
    StripRightBlank(StripLeft(s));
  }

  lemma {:induction false} StripLeftBlank(s: string)
    ensures StripLeft(s) == [] <==> forall i :: 0 <= i < |s| ==> IsSpace(s[i])
    ensures StripLeft(s) != [] ==> !IsSpace(StripLeft(s)[0])
  {
    if s != [] && IsSpace(s[0]) {
      StripLeftBlank(s[1..]);
      assert s == [s[0]] + s[1..];
    }
  }

  lemma {:induction false} StripRightBlank(s: string)
    ensures StripRight(s) == [] <==> forall i :: 0 <= i < |s| ==> IsSpace(s[i])
  {
    if s != [] && IsSpace(s[|s|-1]) {
      StripRightBlank(s[..|s|-1]);
      assert s == s[..|s|-1] + [s[|s|-1]];
    }
  }

  /** Space, tab, newline, vertical tab, form feed and carriage return are cut
      from both ends, and from nowhere else. */
  ghost predicate Whitespace(c: char) { c as int == 32 || 9 <= c as int <= 13 }

  lemma StripMeans(s: string) returns (from: nat, to: nat)
    ensures from <= to <= |s| && Strip(s) == s[from..to]
    ensures (forall i :: 0 <= i < from ==> Whitespace(s[i])) && (forall i :: to <= i < |s| ==> Whitespace(s[i]))
    ensures from < to ==> !Whitespace(s[from]) && !Whitespace(s[to-1])
  {
    from := StripLeftCuts(s);
    var rest := s[from..];
    var kept := StripRightCuts(rest);
    to := from + kept;
    assert rest[..kept] == s[from..to];
    assert forall i :: to <= i < |s| ==> s[i] == rest[i-from];
    assert from < to ==> s[to-1] == rest[kept-1] && s[from] == rest[0];
  }

  lemma {:induction false} StripLeftCuts(s: string) returns (n: nat)
    ensures n <= |s| && StripLeft(s) == s[n..] && (forall i :: 0 <= i < n ==> Whitespace(s[i])) && (n < |s| ==> !Whitespace(s[n]))
  {
    n := 0;
    if s != [] && IsSpace(s[0]) {
      var m := StripLeftCuts(s[1..]);
      n := m + 1;
      assert forall i :: 1 <= i < n ==> s[i] == s[1..][i-1];
      assert s[1..][m..] == s[n..];
    }
  }

  lemma {:induction false} StripRightCuts(s: string) returns (n: nat)
    ensures n <= |s| && StripRight(s) == s[..n] && (forall i :: n <= i < |s| ==> Whitespace(s[i])) && (n > 0 ==> !Whitespace(s[n-1]))
  {
    n := |s|;
    if s != [] && IsSpace(s[|s|-1]) {
      n := StripRightCuts(s[..|s|-1]);
      assert s[..|s|-1][..n] == s[..n];
    }
  }

  // ---- separators ----

  /** The first position of `c` at or after `from`, or the length. */
  function Find(s: string, c: char, from: nat): (i: nat)
    requires from <= |s|
    ensures from <= i <= |s|
    ensures i < |s| ==> s[i] == c
    ensures forall j :: from <= j < i ==> s[j] != c
    decreases |s| - from
  {
    if from == |s| || s[from] == c then from else Find(s, c, from + 1)
  }

  /** `str.partition`: what stands before and after the first separator. */
  function Partition(s: string, c: char): (string, string) {
    var i := Find(s, c, 0);
    if i < |s| then (s[..i], s[i+1..]) else (s, [])
  }

  /** Cut at the first separator, or not at all. */
  lemma PartitionMeans(s: string, c: char, head: string, tail: string)
    ensures Partition(s, c) == (head, tail) <==> c !in head && (s == head + [c] + tail || (s == head && tail == []))
  {
    var i := Find(s, c, 0);
    if c !in head && s == head + [c] + tail {
      assert s[|head|] == c && forall j :: 0 <= j < |head| ==> s[j] == head[j];
      assert i == |head| && s[..i] == head && s[i+1..] == tail;
    } else if i < |s| {
      assert s == s[..i] + [c] + s[i+1..] && s[i] in s;
      assert forall j :: 0 <= j < i ==> s[..i][j] == s[j];
    }
  }

  function Join(parts: seq<string>, sep: char): string {
    if parts == [] then []
    else if |parts| == 1 then parts[0]
    else parts[0] + [sep] + Join(parts[1..], sep)
  }

  /** The separator after a clean prefix is the first one. */
  lemma FindAfterPrefix(p: string, c: char, rest: string)
    requires c !in p
    ensures Find(p + [c] + rest, c, 0) == |p|
    ensures Find(p, c, 0) == |p|
    ensures Partition(p + [c] + rest, c) == (p, rest)
  {
    var s := p + [c] + rest;
    assert s[|p|] == c;
    assert forall i :: 0 <= i < |p| ==> s[i] == p[i] && s[i] != c;
    assert s[..|p|] == p && s[|p|+1..] == rest;
  }

  /** A digit run ends where its separator stands, so it can be read back. */
  lemma DigitRunUnique(a: string, b: string, sep: char, x: string, y: string)
    requires AllDigits(a) && AllDigits(b) && !IsDigit(sep)
    requires a + [sep] + x == b + [sep] + y
    ensures a == b && x == y
  {
    FindAfterPrefix(a, sep, x);
    FindAfterPrefix(b, sep, y);
  }

  /** Parts that avoid the separator can be read back from their join. */
  lemma {:induction false} JoinInjective(a: seq<string>, b: seq<string>, sep: char)
    requires a != [] && b != []
    requires forall i :: 0 <= i < |a| ==> sep !in a[i]
    requires forall i :: 0 <= i < |b| ==> sep !in b[i]
    requires Join(a, sep) == Join(b, sep)
    ensures a == b
    decreases |a|
  {
    FindAfterPrefix(a[0], sep, if |a| > 1 then Join(a[1..], sep) else []);
    FindAfterPrefix(b[0], sep, if |b| > 1 then Join(b[1..], sep) else []);
    assert a == [a[0]] + a[1..] && b == [b[0]] + b[1..];
    if |a| > 1 && |b| > 1 {
      JoinInjective(a[1..], b[1..], sep);
    }
  }
}
