/** Character-level string helpers shared by the pipeline: Python's string
    ordering, decimal digits and zero padding, `int()` on ASCII text,
    splitting and joining on a separator, `strip()` and `lower()` on ASCII. */
module Text {
  import opened Prelude
  import opened Seqs
  import Numbers

  // ---------------------------------------------------------------------
  // Ordering
  // ---------------------------------------------------------------------

  /** Python's `a <= b` on strings: lexicographic by code point, a proper
      prefix coming first. */
  predicate StrLe(a: string, b: string) {
    if a == [] then true
    else if b == [] then false
    else if a[0] != b[0] then a[0] < b[0]
    else StrLe(a[1..], b[1..])
  }

  lemma {:induction false} StrLeTotal(a: string, b: string)
    ensures StrLe(a, b) || StrLe(b, a)
  {
    if a != [] && b != [] && a[0] == b[0] {
      StrLeTotal(a[1..], b[1..]);
    }
  }

  lemma {:induction false} StrLeTrans(a: string, b: string, c: string)
    requires StrLe(a, b) && StrLe(b, c)
    ensures StrLe(a, c)
  {
    if a != [] && b != [] && c != [] && a[0] == b[0] && b[0] == c[0] {
      StrLeTrans(a[1..], b[1..], c[1..]);
    }
  }

  lemma {:induction false} StrLeAntisym(a: string, b: string)
    requires StrLe(a, b) && StrLe(b, a)
    ensures a == b
  {
    if a != [] && b != [] {
      StrLeAntisym(a[1..], b[1..]);
      assert a == [a[0]] + a[1..];
      assert b == [b[0]] + b[1..];
    }
  }

  /** The ascending string order as a sort key. */
  function Ascending(): (string, string) -> bool {
    (a: string, b: string) => StrLe(a, b)
  }

  /** The descending string order (`sorted(..., reverse=True)`). */
  function Descending(): (string, string) -> bool {
    (a: string, b: string) => StrLe(b, a)
  }

  /** Both string orders are total preorders in which only equal strings
      tie, so sorting by either is a well-defined permutation. */
  lemma StringOrders()
    ensures TotalPreorder(Ascending()) && TotalPreorder(Descending())
    ensures TiesAreEqualFor(Ascending()) && TiesAreEqualFor(Descending())
  {
    forall a, b ensures StrLe(a, b) || StrLe(b, a) {
      StrLeTotal(a, b);
    }
    forall a, b, c | StrLe(a, b) && StrLe(b, c) ensures StrLe(a, c) {
      StrLeTrans(a, b, c);
    }
    forall a, b, c | StrLe(b, a) && StrLe(c, b) ensures StrLe(c, a) {
      StrLeTrans(c, b, a);
    }
    forall a, b | StrLe(a, b) && StrLe(b, a) ensures a == b {
      StrLeAntisym(a, b);
    }
  }

  /** In `le`, two elements tie only when they are equal. */
  ghost predicate TiesAreEqualFor(le: (string, string) -> bool) {
    forall a, b :: le(a, b) && le(b, a) ==> a == b
  }

  /** `sorted(names)`. */
  function SortStrings(names: seq<string>): (r: seq<string>)
  {
    SortBy(names, Ascending())
  }

  /** `sorted(names, reverse=True)`: on strings the reverse sort yields the
      descending order. */
  function SortStringsDescending(names: seq<string>): (r: seq<string>)
  {
    SortBy(names, Descending())
  }

  /** Sorting strings permutes them into ascending order. */
  lemma SortStringsSpec(names: seq<string>)
    ensures multiset(SortStrings(names)) == multiset(names)
    ensures forall i, j :: 0 <= i < j < |names| ==> StrLe(SortStrings(names)[i], SortStrings(names)[j])
  {
    StringOrders();
    SortPermutes(names, Ascending());
    SortSorted(names, Ascending());
  }

  /** The reverse sort permutes strings into descending order. */
  lemma SortStringsDescendingSpec(names: seq<string>)
    ensures multiset(SortStringsDescending(names)) == multiset(names)
    ensures forall i, j :: 0 <= i < j < |names| ==>
              StrLe(SortStringsDescending(names)[j], SortStringsDescending(names)[i])
  {
    StringOrders();
    SortPermutes(names, Descending());
    SortSorted(names, Descending());
  }

  /** The sorted list depends only on which names there are, not on the
      order they were listed in (a directory glob has no defined order). */
  lemma SortStringsCanonical(a: seq<string>, b: seq<string>)
    requires multiset(a) == multiset(b)
    ensures SortStrings(a) == SortStrings(b)
  {
    SortStringsSpec(a);
    SortStringsSpec(b);
    StringOrders();
    var sa, sb := SortStrings(a), SortStrings(b);
    SortSorted(a, Ascending());
    SortSorted(b, Ascending());
    SortedUnique(sa, sb, Ascending());
  }

  // ---------------------------------------------------------------------
  // Decimal digits
  // ---------------------------------------------------------------------

  predicate IsDigit(c: char) { '0' <= c <= '9' }

  predicate AllDigits(s: string) { forall i :: 0 <= i < |s| ==> IsDigit(s[i]) }

  function DigitValue(c: char): nat
    requires IsDigit(c)
  {
    (c as int - '0' as int) as nat
  }

  function DigitChar(d: nat): (c: char)
    requires d < 10
    ensures IsDigit(c) && DigitValue(c) == d
  {
    ('0' as int + d) as char
  }

  /** The value of a string of decimal digits, most significant first. */
  function DigitsValue(s: string): nat
    requires AllDigits(s)
  {
    if s == [] then 0 else 10 * DigitsValue(s[..|s| - 1]) + DigitValue(s[|s| - 1])
  }

  /** `str(n)` for a natural number. */
  function NatToString(n: nat): string
  {
    if n < 10 then [DigitChar(n)] else NatToString(n / 10) + [DigitChar(n % 10)]
  }

  /** `str(n)` reads back as `n`, and it has no leading zero. */
  lemma {:induction false} NatToStringRoundTrip(n: nat)
    ensures AllDigits(NatToString(n)) && DigitsValue(NatToString(n)) == n
    ensures NatToString(n) != [] && (n > 0 ==> NatToString(n)[0] != '0')
  {
    if n >= 10 {
      NatToStringRoundTrip(n / 10);
      var s := NatToString(n);
      assert s[..|s| - 1] == NatToString(n / 10);
    }
  }

  /** `f"{n:0{width}d}"`: at least `width` digits, padded with zeros on the left. */
  function ZeroPad(n: nat, width: nat): string
  {
    var s := NatToString(n);
    if |s| >= width then s else Zeros(width - |s|) + s
  }

  function Zeros(k: nat): (r: string)
    ensures |r| == k && forall i :: 0 <= i < k ==> r[i] == '0'
  {
    if k == 0 then [] else ['0'] + Zeros(k - 1)
  }

  /** A leading zero does not change a digit string's value. */
  lemma {:induction false} LeadingZero(s: string)
    requires AllDigits(s)
    ensures AllDigits(['0'] + s) && DigitsValue(['0'] + s) == DigitsValue(s)
  {
    if s != [] {
      var t := ['0'] + s;
      assert t[..|t| - 1] == ['0'] + s[..|s| - 1];
      LeadingZero(s[..|s| - 1]);
    }
  }

  lemma {:induction false} LeadingZeros(k: nat, s: string)
    requires AllDigits(s)
    ensures AllDigits(Zeros(k) + s) && DigitsValue(Zeros(k) + s) == DigitsValue(s)
  {
    if k > 0 {
      assert Zeros(k) + s == ['0'] + (Zeros(k - 1) + s);
      LeadingZeros(k - 1, s);
      LeadingZero(Zeros(k - 1) + s);
    } else {
      assert Zeros(k) + s == s;
    }
  }

  /** A zero-padded number is `width` digits long when it fits, never
      shorter, and reads back as the number. */
  lemma ZeroPadRoundTrip(n: nat, width: nat)
    ensures var s := ZeroPad(n, width);
            AllDigits(s) && DigitsValue(s) == n && |s| >= width &&
            (|NatToString(n)| <= width ==> |s| == width)
  {
    NatToStringRoundTrip(n);
    var s := NatToString(n);
    if |s| < width {
      LeadingZeros(width - |s|, s);
    }
  }

  /** A number below 10^k has at most k digits. */
  lemma {:induction false} NatToStringLength(n: nat, k: nat)
    requires n < Numbers.Pow10(k) && k >= 1
    ensures |NatToString(n)| <= k
  {
    if n >= 10 {
      NatToStringLength(n / 10, k - 1);
    }
  }

  /** Python `int(s)` on stripped text: an optional sign followed by one
      or more decimal digits, anything else a ValueError (None). */
  function ParseInt(s: string): (r: Option<int>)
  {
    if |s| >= 1 && (s[0] == '-' || s[0] == '+') then
      (if |s| >= 2 && AllDigits(s[1..]) then
         Some(if s[0] == '-' then -(DigitsValue(s[1..]) as int) else DigitsValue(s[1..]))
       else None)
    else if s != [] && AllDigits(s) then Some(DigitsValue(s))
    else None
  }

  /** Python `int(s)`, which ignores surrounding whitespace.  Python also
      accepts `_` between digits; that cannot matter for the texts this is
      applied to, two-character fields and the parts of a text split at
      `_`. */
  function PyInt(s: string): Option<int> {
    ParseInt(Strip(s))
  }

  /** `int(str(n)) == n`, and `int` of a zero-padded number is the number. */
  lemma ParseIntRoundTrip(n: nat, width: nat)
    ensures ParseInt(NatToString(n)) == Some(n as int)
    ensures ParseInt(ZeroPad(n, width)) == Some(n as int)
  {
    NatToStringRoundTrip(n);
    ZeroPadRoundTrip(n, width);
    assert NatToString(n)[0] != '-' && NatToString(n)[0] != '+';
    assert ZeroPad(n, width)[0] != '-' && ZeroPad(n, width)[0] != '+';
  }

  /** Only strings made of a sign and digits parse, and a string of digits
      parses to a non-negative value. */
  lemma ParseIntDigits(s: string)
    ensures ParseInt(s).Some? ==> s != [] && AllDigits(s[1..])
    ensures s != [] && AllDigits(s) ==> ParseInt(s).Some? && ParseInt(s).value >= 0
  {
  }

  // ---------------------------------------------------------------------
  // Splitting, joining, prefixes
  // ---------------------------------------------------------------------

  /** `s.split(sep)` for a one-character separator: always at least one
      part, and the parts never contain the separator. */
  function Split(s: string, sep: char): (r: seq<string>)
    ensures |r| >= 1
  {
    if s == [] then [[]]
    else
      var rest := Split(s[1..], sep);
      if s[0] == sep then [[]] + rest else [[s[0]] + rest[0]] + rest[1..]
  }

  /** `sep.join(parts)`. */
  function Join(parts: seq<string>, sep: char): string
  {
    if parts == [] then []
    else if |parts| == 1 then parts[0]
    else parts[0] + [sep] + Join(parts[1..], sep)
  }

  /** Splitting and joining back on the same separator gives the string, and
      no part holds the separator. */
  lemma {:induction false} SplitJoin(s: string, sep: char)
    ensures Join(Split(s, sep), sep) == s
    ensures forall i :: 0 <= i < |Split(s, sep)| ==> sep !in Split(s, sep)[i]
  {
    if s != [] {
      var rest := Split(s[1..], sep);
      SplitJoin(s[1..], sep);
      if s[0] == sep {
        assert Split(s, sep)[1..] == rest;
      } else {
        var r := Split(s, sep);
        if |rest| == 1 {
          assert r == [[s[0]] + rest[0]];
        } else {
          assert r[1..] == rest[1..];
          assert Join(rest, sep) == rest[0] + [sep] + Join(rest[1..], sep);
        }
        forall i | 0 <= i < |r| ensures sep !in r[i] {
          if i > 0 {
            assert r[i] == rest[i];
          }
        }
      }
    }
  }

  /** A line that holds no separator splits off as the first part. */
  lemma {:induction false} SplitLine(a: string, b: string, sep: char)
    requires sep !in a
    ensures Split(a + [sep] + b, sep) == [a] + Split(b, sep)
  {
    var s := a + [sep] + b;
    if a == [] {
      assert s[1..] == b;
    } else {
      assert s[1..] == a[1..] + [sep] + b;
      SplitLine(a[1..], b, sep);
      assert [s[0]] + a[1..] == a;
    }
  }

  /** A string without the separator is a single part. */
  lemma {:induction false} SplitNone(s: string, sep: char)
    requires sep !in s
    ensures Split(s, sep) == [s]
  {
    if s != [] {
      SplitNone(s[1..], sep);
      assert [s[0]] + s[1..] == s;
    }
  }

  /** `s.rstrip(c)`: every trailing `c` removed. */
  function RStripChar(s: string, c: char): (r: string)
    ensures |r| <= |s| && r == s[..|r|]
    ensures r != [] ==> r[|r| - 1] != c
    ensures forall i :: |r| <= i < |s| ==> s[i] == c
  {
    if s != [] && s[|s| - 1] == c then RStripChar(s[..|s| - 1], c) else s
  }

  /** `s.lstrip(c)`: every leading `c` removed. */
  function LStripChar(s: string, c: char): (r: string)
    ensures |r| <= |s| && r == s[|s| - |r|..]
    ensures r != [] ==> r[0] != c
    ensures forall i :: 0 <= i < |s| - |r| ==> s[i] == c
  {
    if s != [] && s[0] == c then LStripChar(s[1..], c) else s
  }

  /** `s.strip(c)`. */
  function StripChar(s: string, c: char): string {
    RStripChar(LStripChar(s, c), c)
  }

  /** Stripping `c` from text wrapped in `c` gives the text back when the
      text holds no `c`. */
  lemma StripCharWrapped(t: string, c: char)
    requires c !in t
    ensures StripChar([c] + t + [c], c) == t
  {
    var w := [c] + t + [c];
    if t == [] {
      assert w == [c, c];
      assert LStripChar(w, c) == LStripChar([c], c);
    } else {
      assert w[1..] == t + [c];
      assert (t + [c])[0] == t[0] && t[0] in t;
      assert LStripChar(w, c) == t + [c];
      assert (t + [c])[..|t|] == t;
      assert t[|t| - 1] in t;
    }
  }

  /** The values in `s` with later repeats dropped. */
  function Distinct(s: seq<string>): (r: seq<string>)
  {
    if s == [] then []
    else
      var init := Distinct(s[..|s| - 1]);
      if s[|s| - 1] in init then init else init + [s[|s| - 1]]
  }

  predicate NoRepeats(s: seq<string>) {
    forall i, j :: 0 <= i < j < |s| ==> s[i] != s[j]
  }

  lemma {:induction false} DistinctSpec(s: seq<string>)
    ensures NoRepeats(Distinct(s))
    ensures forall x :: x in Distinct(s) <==> x in s
  {
    if s != [] {
      DistinctSpec(s[..|s| - 1]);
      assert forall x :: x in s <==> x in s[..|s| - 1] || x == s[|s| - 1];
    }
  }

  /** A value occurs at most once in a sequence without repeats. */
  lemma {:induction false} DistinctOnce(s: seq<string>, x: string)
    requires NoRepeats(s)
    ensures multiset(s)[x] <= 1
  {
    if s != [] {
      var init := s[..|s| - 1];
      DistinctOnce(init, x);
      assert s == init + [s[|s| - 1]];
      if x == s[|s| - 1] {
        assert x !in init;
      }
    }
  }

  lemma {:induction false} DistinctShorter(s: seq<string>)
    ensures |Distinct(s)| <= |s|
  {
    if s != [] {
      DistinctShorter(s[..|s| - 1]);
    }
  }

  /** Names matched by the pattern `*.avi`. */
  predicate IsAvi(name: string) {
    EndsWith(name, ".avi")
  }

  /** `sorted(dir.glob("*.avi"))`, cut to `limit` when it is given and not
      0: the clip names of a directory listing in processing order. */
  function ClipNames(listing: seq<string>, limit: Option<int>): seq<string> {
    PyLimit(SortStrings(Filter(listing, IsAvi)), limit)
  }

  /** The clips are the listing's `.avi` names in ascending order, cut to
      a positive limit; 0 and no limit both keep them all, and none are
      left only when there are no `.avi` names or a negative limit drops
      them all. */
  lemma ClipNamesSpec(listing: seq<string>, limit: Option<int>)
    ensures var avi := Filter(listing, IsAvi);
            var files := ClipNames(listing, limit);
            && (files == [] <==> avi == [] || (limit.Some? && limit.value < 0 && -limit.value >= |avi|))
            && (limit.Some? && limit.value > 0 ==> |files| == if limit.value < |avi| then limit.value else |avi|)
            && (limit.None? || limit.value == 0 ==> |files| == |avi|)
            && (forall i, j :: 0 <= i < j < |files| ==> StrLe(files[i], files[j]))
            && (forall x :: x in files ==> x in listing && IsAvi(x))
  {
    var avi := Filter(listing, IsAvi);
    SortStringsSpec(avi);
    var sorted := SortStrings(avi);
    assert |sorted| == |avi|;
    var files := ClipNames(listing, limit);
    forall x | x in files ensures x in listing && IsAvi(x) {
      assert x in sorted;
      assert x in multiset(avi);
      FilterMembers(listing, IsAvi, x);
    }
  }

  predicate StartsWith(s: string, prefix: string) {
    |prefix| <= |s| && s[..|prefix|] == prefix
  }

  /** `sub in s` for strings: `sub` occurs somewhere in `s`. */
  predicate Contains(s: string, sub: string)
    decreases |s|
  {
    StartsWith(s, sub) || (s != [] && Contains(s[1..], sub))
  }

  predicate EndsWith(s: string, suffix: string) {
    |suffix| <= |s| && s[|s| - |suffix|..] == suffix
  }

  /** `s.replace(a, b)` for single characters. */
  function ReplaceChar(s: string, a: char, b: char): (r: string)
    ensures |r| == |s|
    ensures forall i :: 0 <= i < |s| ==> r[i] == (if s[i] == a then b else s[i])
  {
    if s == [] then [] else [if s[0] == a then b else s[0]] + ReplaceChar(s[1..], a, b)
  }

  /** `s.replace(c, "")`. */
  function RemoveChar(s: string, c: char): (r: string)
  {
    Filter(s, (x: char) => x != c)
  }

  /** Removing a character leaves none of it, and removes nothing else. */
  lemma RemoveCharSpec(s: string, c: char)
    ensures c !in RemoveChar(s, c)
    ensures forall x :: x != c ==> multiset(RemoveChar(s, c))[x] == multiset(s)[x]
  {
    var keep := (x: char) => x != c;
    if c in RemoveChar(s, c) {
      FilterMembers(s, keep, c);
    }
    forall x | x != c ensures multiset(RemoveChar(s, c))[x] == multiset(s)[x] {
      FilterCount(s, keep, x);
    }
  }

  // ---------------------------------------------------------------------
  // Whitespace and case
  // ---------------------------------------------------------------------

  /** Python's whitespace, which `str.strip()` and `int()` remove: the
      ASCII controls tab to carriage return and the separators 0x1C to
      0x1F, the space, next-line, no-break space, and the Unicode spaces
      and line and paragraph separators. */
  predicate IsSpace(c: char) {
    || '\U{0009}' <= c <= '\U{000d}'
    || '\U{001c}' <= c <= '\U{0020}'
    || c == '\U{0085}' || c == '\U{00a0}' || c == '\U{1680}'
    || '\U{2000}' <= c <= '\U{200a}'
    || c == '\U{2028}' || c == '\U{2029}' || c == '\U{202f}' || c == '\U{205f}' || c == '\U{3000}'
  }

  function StripLeft(s: string): (r: string)
    ensures |r| <= |s| && r == s[|s| - |r|..]
    ensures r != [] ==> !IsSpace(r[0])
    ensures forall i :: 0 <= i < |s| - |r| ==> IsSpace(s[i])
  {
    if s != [] && IsSpace(s[0]) then StripLeft(s[1..]) else s
  }

  function StripRight(s: string): (r: string)
    ensures |r| <= |s| && r == s[..|r|]
    ensures r != [] ==> !IsSpace(r[|r| - 1])
    ensures forall i :: |r| <= i < |s| ==> IsSpace(s[i])
  {
    if s != [] && IsSpace(s[|s| - 1]) then StripRight(s[..|s| - 1]) else s
  }

  /** `s.strip()`. */
  function Strip(s: string): string {
    StripRight(StripLeft(s))
  }

  /** Stripping a stripped string changes nothing: the left trim leaves
      a non-blank first character, which the right trim keeps. */
  lemma StripIdempotent(s: string)
    ensures Strip(Strip(s)) == Strip(s)
  {
    var l := StripLeft(s);
    var r := StripRight(l);
    if r != [] {
      assert r[0] == l[0];
    }
    assert StripLeft(r) == r;
  }

  /** `lower()` on a single character, for ASCII letters only. */
  function LowerChar(c: char): char {
    if 'A' <= c <= 'Z' then (c as int + 32) as char else c
  }
}
