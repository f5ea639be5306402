/** String operations with JavaScript's meaning: `startsWith`, `endsWith`,
    `split` on a single character, `join`, and `split(sep).pop()` on a
    multi-character separator. */
module Text {

  predicate StartsWith(s: string, prefix: string) {
    |prefix| <= |s| && s[..|prefix|] == prefix
  }

  predicate EndsWith(s: string, suffix: string) {
    |suffix| <= |s| && s[|s| - |suffix|..] == suffix
  }

  /** `sub` occurs in `s` at index `i`. */
  predicate OccursAt(s: string, sub: string, i: int) {
    0 <= i && i + |sub| <= |s| && s[i..i + |sub|] == sub
  }

  predicate Contains(s: string, sub: string) {
    exists i | 0 <= i <= |s| :: OccursAt(s, sub, i)
  }

  /** Index of the first occurrence of `c` in `s`, or `|s|` when there is none. */
  function IndexOf(s: string, c: char): (i: nat)
    ensures i <= |s|
    ensures i < |s| ==> s[i] == c
    ensures forall k :: 0 <= k < i ==> s[k] != c
  {
    if |s| == 0 then 0
    else if s[0] == c then 0
    else 1 + IndexOf(s[1..], c)
  }

  /** JavaScript `s.split(c)` for a one-character separator. */
  function Split(s: string, c: char): (parts: seq<string>)
    ensures |parts| >= 1
    decreases |s|
  {
    var i := IndexOf(s, c);
    if i == |s| then [s]
    else [s[..i]] + Split(s[i + 1..], c)
  }

  /** JavaScript `parts.join(c)`. */
  function Join(parts: seq<string>, c: char): string
  {
    if |parts| == 0 then ""
    else if |parts| == 1 then parts[0]
    else parts[0] + [c] + Join(parts[1..], c)
  }

  /** JavaScript `parts.join(sep)` for a separator string. */
  function JoinWith(parts: seq<string>, sep: string): string
  {
    if |parts| == 0 then ""
    else if |parts| == 1 then parts[0]
    else parts[0] + sep + JoinWith(parts[1..], sep)
  }

  /** Joining the pieces of a split gives back the original string. */
  lemma {:induction false} JoinSplit(s: string, c: char)
    ensures Join(Split(s, c), c) == s
    decreases |s|
  {
    var i := IndexOf(s, c);
    if i < |s| {
      JoinSplit(s[i + 1..], c);
      SplitAtFirst(s, c);
      JoinCons(s[..i], Split(s[i + 1..], c), c);
    }
  }

  /** A string holding the separator splits at its first occurrence. */
  lemma SplitAtFirst(s: string, c: char)
    requires IndexOf(s, c) < |s|
    ensures Split(s, c) == [s[..IndexOf(s, c)]] + Split(s[IndexOf(s, c) + 1..], c)
    ensures s == s[..IndexOf(s, c)] + [c] + s[IndexOf(s, c) + 1..]
  {
    var i := IndexOf(s, c);
    CutAround(s, i);
  }

  /** `s` is the text before index `i`, the character there and the text after. */
  lemma CutAround(s: string, i: nat)
    requires i < |s|
    ensures s == s[..i] + [s[i]] + s[i + 1..]
  {
    assert s == s[..i] + s[i..];
    assert s[i..] == [s[i]] + s[i + 1..];
  }

  /** Joining a piece in front of one or more pieces puts one separator between. */
  lemma JoinCons(head: string, tail: seq<string>, c: char)
    requires |tail| >= 1
    ensures Join([head] + tail, c) == head + [c] + Join(tail, c)
  {
    assert ([head] + tail)[1..] == tail;
  }

  /** No piece of a split contains the separator. */
  lemma {:induction false} SplitPiecesAvoid(s: string, c: char)
    ensures forall k, j :: 0 <= k < |Split(s, c)| && 0 <= j < |Split(s, c)[k]| ==> Split(s, c)[k][j] != c
    decreases |s|
  {
    var i := IndexOf(s, c);
    if i < |s| {
      SplitPiecesAvoid(s[i + 1..], c);
    }
  }

  /** The first piece of a split is the text before the first separator, and
      the remaining pieces, joined again, are the text after it. */
  lemma SplitHead(s: string, c: char)
    ensures Split(s, c)[0] == s[..IndexOf(s, c)]
    ensures IndexOf(s, c) < |s| ==>
              (|Split(s, c)| >= 2 && Join(Split(s, c)[1..], c) == s[IndexOf(s, c) + 1..])
    ensures IndexOf(s, c) == |s| <==> |Split(s, c)| == 1
  {
    var i := IndexOf(s, c);
    if i < |s| {
      JoinSplit(s[i + 1..], c);
      assert Split(s, c)[1..] == Split(s[i + 1..], c);
    }
  }

  /** A string without the separator is a split of one piece. */
  lemma SplitWithout(s: string, c: char)
    requires c !in s
    ensures IndexOf(s, c) == |s|
    ensures Split(s, c) == [s]
  {
  }

  /** Splitting `a + [c] + b`, where `a` holds no `c`, cuts right after `a`. */
  lemma SplitAfter(a: string, c: char, b: string)
    requires c !in a
    ensures IndexOf(a + [c] + b, c) == |a|
    ensures Split(a + [c] + b, c) == [a] + Split(b, c)
  {
    var s := a + [c] + b;
    assert s[|a|] == c;
    assert s[..|a|] == a && s[|a| + 1..] == b;
  }

  /** Pieces of a split hold only characters of the string split. */
  lemma {:induction false} SplitPiecesWithout(s: string, c: char, d: char)
    requires d !in s
    ensures forall k, j :: 0 <= k < |Split(s, c)| && 0 <= j < |Split(s, c)[k]| ==> Split(s, c)[k][j] != d
    decreases |s|
  {
    var i := IndexOf(s, c);
    if i < |s| {
      assert d !in s[i + 1..];
      SplitPiecesWithout(s[i + 1..], c, d);
      assert d !in s[..i];
    }
  }

  /** Joining three or more pieces puts a separator after each of the first two. */
  lemma JoinFirstTwo(parts: seq<string>, c: char)
    requires |parts| >= 3
    ensures Join(parts, c) == parts[0] + [c] + parts[1] + [c] + Join(parts[2..], c)
  {
    assert parts[1..][0] == parts[1] && parts[1..][1..] == parts[2..];
  }

  /** Index of the first occurrence of a non-empty `sep` in `s`, or `|s|`. */
  function Find(s: string, sep: string): (i: nat)
    requires |sep| > 0
    ensures i <= |s|
    ensures i < |s| ==> OccursAt(s, sep, i)
    ensures forall k :: 0 <= k < i ==> !OccursAt(s, sep, k)
    decreases |s|
  {
    if |s| < |sep| then
      assert forall k :: 0 <= k < |s| ==> !OccursAt(s, sep, k);
      |s|
    else if s[..|sep|] == sep then 0
    else
      var j := Find(s[1..], sep);
      assert forall k :: 1 <= k < j + 1 ==> !OccursAt(s, sep, k) by {
        forall k | 1 <= k < j + 1
          ensures !OccursAt(s, sep, k)
        {
          assert !OccursAt(s[1..], sep, k - 1);
          if k + |sep| <= |s| {
            assert s[k..k + |sep|] == s[1..][k - 1..k - 1 + |sep|];
          }
        }
      }
      if j == |s| - 1 then |s|
      else
        assert s[1..][j..j + |sep|] == s[j + 1..j + 1 + |sep|];
        j + 1
  }

  /** The last element of JavaScript `s.split(sep)`, i.e. `split(sep).pop()`:
      the text after the last (leftmost-scanned) occurrence of `sep`, or the
      whole of `s` when `sep` does not occur. */
  function AfterLast(s: string, sep: string): string
    requires |sep| > 0
    decreases |s|
  {
    var i := Find(s, sep);
    if i == |s| then s else AfterLast(s[i + |sep|..], sep)
  }

  /** `sep` cannot overlap a shifted copy of itself. */
  predicate NoSelfOverlap(sep: string) {
    forall d :: 0 < d < |sep| ==> sep[d..] != sep[..|sep| - d]
  }

  lemma NotContainsFromFind(s: string, sep: string)
    requires |sep| > 0
    requires Find(s, sep) == |s|
    ensures !Contains(s, sep)
  {
    forall k | 0 <= k <= |s|
      ensures !OccursAt(s, sep, k)
    {
    }
  }

  /** `AfterLast` never contains the separator. */
  lemma {:induction false} AfterLastAvoids(s: string, sep: string)
    requires |sep| > 0
    ensures !Contains(AfterLast(s, sep), sep)
    decreases |s|
  {
    var i := Find(s, sep);
    if i == |s| {
      NotContainsFromFind(s, sep);
    } else {
      AfterLastAvoids(s[i + |sep|..], sep);
    }
  }

  /** Two overlapping occurrences of `sep` show that `sep` overlaps a shifted
      copy of itself. */
  lemma OverlapShift(s: string, sep: string, i: int, p: int)
    requires OccursAt(s, sep, i) && OccursAt(s, sep, p)
    requires i < p < i + |sep|
    ensures sep[p - i..] == sep[..|sep| - (p - i)]
  {
    var d := p - i;
    forall t | 0 <= t < |sep| - d
      ensures sep[d..][t] == sep[..|sep| - d][t]
    {
      calc {
        sep[d + t];
        s[i..i + |sep|][d + t];
        s[p..p + |sep|][t];
        sep[t];
      }
    }
  }

  /** A string holding no separator is its own `AfterLast`. */
  lemma AfterLastWithout(key: string, sep: string)
    requires |sep| > 0
    requires !Contains(key, sep)
    ensures AfterLast(key, sep) == key
  {
    var j := Find(key, sep);
    assert !OccursAt(key, sep, j);
  }

  /** For a separator that cannot overlap itself, the text after the last
      separator of `prefix + sep + key` is `key` whenever `key` holds no
      separator. */
  lemma {:induction false} AfterLastOfSuffix(prefix: string, sep: string, key: string)
    requires |sep| > 0 && NoSelfOverlap(sep)
    requires !Contains(key, sep)
    ensures AfterLast(prefix + sep + key, sep) == key
    decreases |prefix|
  {
    var s := prefix + sep + key;
    var p := |prefix|;
    DropFront(prefix, sep, key, p);
    assert OccursAt(s, sep, p) by {
      assert s[p..][..|sep|] == sep;
    }
    var i := Find(s, sep);
    assert i <= p;
    if i == p {
      assert s[i + |sep|..] == key by {
        assert s[p..][|sep|..] == key;
      }
      AfterLastWithout(key, sep);
    } else {
      if i + |sep| > p {
        OverlapShift(s, sep, i, p);
        assert false;
      }
      var m := i + |sep|;
      DropFront(prefix, sep, key, m);
      AfterLastOfSuffix(prefix[m..], sep, key);
    }
  }

  /** Dropping the first `m` characters of `prefix + sep + key`, for `m`
      within `prefix`. */
  lemma DropFront(prefix: string, sep: string, key: string, m: nat)
    requires m <= |prefix|
    ensures (prefix + sep + key)[m..] == prefix[m..] + sep + key
  {
  }

  /** The characters `c` for which `IsDigit(c)`: ASCII `0`..`9`. */
  predicate IsDigit(c: char) { '0' <= c <= '9' }

  predicate AllDigits(s: string) {
    forall i :: 0 <= i < |s| ==> IsDigit(s[i])
  }

  /** Decimal value of a digit string. */
  function DigitsValue(s: string): (v: nat)
    requires AllDigits(s)
    decreases |s|
  {
    if |s| == 0 then 0
    else DigitsValue(s[..|s| - 1]) * 10 + (s[|s| - 1] as int - '0' as int)
  }

  /** Decimal digits of `n`, most significant first, no leading zeros ("0" for 0). */
  function DecimalString(n: nat): (s: string)
    ensures |s| >= 1 && AllDigits(s)
    ensures DigitsValue(s) == n
    decreases n
  {
    var d := [('0' as int + n % 10) as char];
    if n < 10 then
      assert DigitsValue(d) == DigitsValue(d[..0]) * 10 + n % 10;
      d
    else
      var h := DecimalString(n / 10);
      var s := h + d;
      assert s[..|s| - 1] == h;
      s
  }

  /** A value in 100000..999999 prints as exactly six digits. */
  lemma {:induction false} SixDigitLength(n: nat)
    requires 100000 <= n <= 999999
    ensures |DecimalString(n)| == 6
  {
    assert n / 10 / 10 / 10 / 10 / 10 < 10;
    assert 1 <= n / 10 / 10 / 10 / 10 / 10;
    var s1 := DecimalString(n / 10 / 10 / 10 / 10 / 10);
    assert |s1| == 1;
    assert |DecimalString(n / 10 / 10 / 10 / 10)| == 2;
    assert |DecimalString(n / 10 / 10 / 10)| == 3;
    assert |DecimalString(n / 10 / 10)| == 4;
    assert |DecimalString(n / 10)| == 5;
  }

  /** JavaScript `s.padStart(width, c)`. */
  function PadStart(s: string, width: nat, c: char): (r: string)
    ensures |r| == if |s| >= width then |s| else width
    ensures EndsWith(r, s)
    decreases width - |s|
  {
    if |s| >= width then s else PadStart([c] + s, width, c)
  }

  /** Whitespace as `String.prototype.trim` removes it, restricted to ASCII. */
  predicate IsSpace(c: char) {
    c == ' ' || c == '\t' || c == '\n' || c == '\r' || c == '\U{B}' || c == '\U{C}'
  }

  /** `s.trim() == ""`: every character is whitespace. */
  predicate IsBlank(s: string) {
    forall i :: 0 <= i < |s| ==> IsSpace(s[i])
  }
}
