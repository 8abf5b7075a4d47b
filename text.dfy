/** The operations on Python strings that the proxy relies on: prefix and
    substring tests, `str.split`, `str.join`, and decimal conversion of the
    rule indices that appear in group names. */
module Text {
  import opened Wrappers

  predicate IsPrefix(p: string, s: string) {
    |p| <= |s| && s[..|p|] == p
  }

  /** `sep` occurs in `s` at position `i`. */
  predicate OccursAt(s: string, sep: string, i: int) {
    0 <= i && i + |sep| <= |s| && s[i..i + |sep|] == sep
  }

  /** Python's `sep in s`. */
  predicate Contains(s: string, sep: string) {
    exists i | 0 <= i <= |s| - |sep| :: OccursAt(s, sep, i)
  }

  /** The leftmost occurrence of `sep` in `s` at or after position `i`. */
  function FindFrom(s: string, sep: string, i: nat): (r: Option<nat>)
    requires |sep| > 0
    ensures r.Some? ==> i <= r.value && OccursAt(s, sep, r.value)
    ensures r.Some? ==> forall j :: i <= j < r.value ==> !OccursAt(s, sep, j)
    ensures r.None? ==> forall j :: i <= j ==> !OccursAt(s, sep, j)
    decreases |s| - i
  {
    if i + |sep| > |s| then None
    else if s[i..i + |sep|] == sep then Some(i)
    else FindFrom(s, sep, i + 1)
  }

  /** The position of the leftmost occurrence of `sep` in `s`, or `None` when there is
      none: the helper behind `Split` and behind cutting a text into lines. */
  function Find(s: string, sep: string): (r: Option<nat>)
    requires |sep| > 0
    ensures r.Some? ==> OccursAt(s, sep, r.value)
    ensures r.Some? ==> forall j :: 0 <= j < r.value ==> !OccursAt(s, sep, j)
    ensures r.None? <==> !Contains(s, sep)
  {
    FindFrom(s, sep, 0)
  }

  /** A slice of `s` ending at or before the first occurrence of `sep` does not contain it. */
  lemma NothingBeforeFirst(s: string, sep: string, i: nat)
    requires |sep| > 0 && i <= |s|
    requires forall j :: 0 <= j < i ==> !OccursAt(s, sep, j)
    ensures !Contains(s[..i], sep)
  {
    forall j | 0 <= j <= i - |sep| && OccursAt(s[..i], sep, j) ensures false {
      assert s[..i][j..j + |sep|] == s[j..j + |sep|];
      assert OccursAt(s, sep, j);
    }
  }

  /** Python's `sep.join(parts)`. */
  function Join(parts: seq<string>, sep: string): string {
    if |parts| == 0 then ""
    else if |parts| == 1 then parts[0]
    else parts[0] + sep + Join(parts[1..], sep)
  }

  /** Python's `s.split(sep)` for a non-empty separator: the pieces between the
      leftmost non-overlapping occurrences of `sep` (see `SplitLeftmost` and
      `SplitUnique`). */
  function Split(s: string, sep: string): (parts: seq<string>)
    requires |sep| > 0
    ensures |parts| >= 1
    ensures Join(parts, sep) == s
    ensures forall k :: 0 <= k < |parts| ==> !Contains(parts[k], sep)
    decreases |s|
  {
    match Find(s, sep)
    case None => [s]
    case Some(i) =>
      var head, tail := s[..i], s[i + |sep|..];
      NothingBeforeFirst(s, sep, i);
      var rest := Split(tail, sep);
      JoinCons(head, rest, sep);
      assert s == head + sep + tail;
      var parts := [head] + rest;
      assert forall k :: 1 <= k < |parts| ==> parts[k] == rest[k - 1];
      parts
  }

  /** Each cut of `Split` is at the leftmost occurrence after the previous one: no
      occurrence of `sep` starts inside a piece, even one that would run on into the
      separator that follows it. */
  lemma {:induction false} SplitLeftmost(s: string, sep: string)
    requires |sep| > 0
    ensures forall k :: 0 <= k < |Split(s, sep)| - 1 ==> !Contains(Split(s, sep)[k] + sep[..|sep| - 1], sep)
    decreases |s|
  {
    match Find(s, sep)
    case None =>
    case Some(i) =>
      NothingBeforeFirst(s, sep, i);
      NoCutBefore(s, sep, i);
      var tail := s[i + |sep|..];
      SplitLeftmost(tail, sep);
      var parts, rest := Split(s, sep), Split(tail, sep);
      assert parts == [s[..i]] + rest;
      forall k | 0 <= k < |parts| - 1 ensures !Contains(parts[k] + sep[..|sep| - 1], sep) {
        if k > 0 {
          assert parts[k] == rest[k - 1];
        }
      }
  }

  /** When `sep` first occurs at `i`, no occurrence starts before `i`, not even one
      that overlaps the occurrence at `i`. */
  lemma NoCutBefore(s: string, sep: string, i: nat)
    requires |sep| > 0 && OccursAt(s, sep, i)
    requires forall j :: 0 <= j < i ==> !OccursAt(s, sep, j)
    ensures !Contains(s[..i] + sep[..|sep| - 1], sep)
  {
    var t := s[..i] + sep[..|sep| - 1];
    assert t == s[..i + |sep| - 1];
    forall j | 0 <= j <= |t| - |sep| && OccursAt(t, sep, j) ensures false {
      assert t[j..j + |sep|] == s[j..j + |sep|];
      assert OccursAt(s, sep, j);
    }
  }

  lemma JoinCons(head: string, rest: seq<string>, sep: string)
    requires |rest| >= 1
    ensures Join([head] + rest, sep) == head + sep + Join(rest, sep)
  {
    assert ([head] + rest)[1..] == rest;
  }

  /** The contract of `Split` fixes its result: any pieces that join back to `s`,
      contain no separator and are cut at leftmost occurrences are `Split(s, sep)`. */
  lemma {:induction false} SplitUnique(s: string, sep: string, parts: seq<string>)
    requires |sep| > 0 && |parts| >= 1 && Join(parts, sep) == s
    requires forall k :: 0 <= k < |parts| ==> !Contains(parts[k], sep)
    requires forall k :: 0 <= k < |parts| - 1 ==> !Contains(parts[k] + sep[..|sep| - 1], sep)
    ensures parts == Split(s, sep)
    decreases |parts|
  {
    if |parts| == 1 {
      assert s == parts[0];
    } else {
      var head, tail := parts[0], Join(parts[1..], sep);
      assert s == head + sep + tail;
      var i := |head|;
      assert s[i..i + |sep|] == sep;
      assert OccursAt(s, sep, i);
      FirstCut(s, sep, head, i);
      assert s[..i] == head && s[i + |sep|..] == tail;
      forall k | 0 <= k < |parts[1..]| ensures !Contains(parts[1..][k], sep) {
        assert parts[1..][k] == parts[k + 1];
      }
      forall k | 0 <= k < |parts[1..]| - 1 ensures !Contains(parts[1..][k] + sep[..|sep| - 1], sep) {
        assert parts[1..][k] == parts[k + 1];
      }
      SplitUnique(tail, sep, parts[1..]);
    }
  }

  /** With the self-overlapping separator `==`, the text `a==respond===x` is cut
      at the first two `=` of `===`, so the last piece is `=x`. */
  lemma SplitOverlapping()
    ensures Split("a==respond===x", "==") == ["a", "respond", "=x"]
  {
    var parts: seq<string> := ["a", "respond", "=x"];
    assert Join(parts, "==") == "a==respond===x" by {
      assert parts[1..] == ["respond", "=x"] && parts[1..][1..] == ["=x"];
    }
    assert "=="[..1] == "=";
    assert parts[0] + "=="[..1] == "a=" && parts[1] + "=="[..1] == "respond=";
    NoPair("a");
    NoPair("respond");
    NoPair("=x");
    NoPair("a=");
    NoPair("respond=");
    SplitUnique("a==respond===x", "==", parts);
  }

  /** A text in which no `=` is followed by another `=` does not contain `==`. */
  lemma NoPair(t: string)
    requires forall j :: 0 <= j < |t| - 1 ==> !(t[j] == '=' && t[j + 1] == '=')
    ensures !Contains(t, "==")
  {
    forall j | 0 <= j <= |t| - 2 ensures !OccursAt(t, "==", j) {
      assert t[j..j + 2][0] == t[j] && t[j..j + 2][1] == t[j + 1];
      assert "=="[0] == '=' && "=="[1] == '=';
      assert t[j..j + 2] != "==";
    }
  }

  /** A cut at `i` after a piece in which no occurrence starts is the first occurrence. */
  lemma FirstCut(s: string, sep: string, head: string, i: nat)
    requires |sep| > 0 && OccursAt(s, sep, i) && i == |head| && s[..i] == head
    requires !Contains(head + sep[..|sep| - 1], sep)
    ensures Find(s, sep) == Some(i)
  {
    var t := head + sep[..|sep| - 1];
    assert t == s[..i + |sep| - 1];
    forall j | 0 <= j < i ensures !OccursAt(s, sep, j) {
      if OccursAt(s, sep, j) {
        assert t[j..j + |sep|] == s[j..j + |sep|];
        assert OccursAt(t, sep, j);
      }
    }
    assert Contains(s, sep);
    var r := Find(s, sep).value;
    assert !(r < i) && !(i < r);
  }

  /** A one-character separator occurs exactly where its character does. */
  lemma ContainsChar(s: string, c: char)
    ensures Contains(s, [c]) <==> c in s
  {
    if c in s {
      var i :| 0 <= i < |s| && s[i] == c;
      assert OccursAt(s, [c], i);
    }
    if Contains(s, [c]) {
      var i :| 0 <= i <= |s| - 1 && OccursAt(s, [c], i);
      assert s[i] == s[i..i + 1][0];
    }
  }

  /** The concatenation of all the strings in `parts`. */
  function Concat(parts: seq<string>): string {
    if |parts| == 0 then "" else parts[0] + Concat(parts[1..])
  }

  lemma {:induction false} ConcatAppend(a: seq<string>, b: seq<string>)
    ensures Concat(a + b) == Concat(a) + Concat(b)
  {
    if |a| > 0 {
      assert (a + b)[1..] == a[1..] + b;
      ConcatAppend(a[1..], b);
    } else {
      assert a + b == b;
    }
  }

  predicate IsDigit(c: char) {
    '0' <= c <= '9'
  }

  predicate AllDigits(s: string) {
    forall k :: 0 <= k < |s| ==> IsDigit(s[k])
  }

  function DigitChar(d: nat): (c: char)
    requires d < 10
    ensures IsDigit(c) && c as int - '0' as int == d
  {
    ('0' as int + d) as char
  }

  /** Python's `'%d' % n` for a non-negative `n`. */
  function DecimalString(n: nat): (s: string)
    ensures |s| > 0 && AllDigits(s)
    decreases n
  {
    if n < 10 then [DigitChar(n)] else DecimalString(n / 10) + [DigitChar(n % 10)]
  }

  /** The number a string of decimal digits denotes (leading zeros allowed). */
  function DecimalValue(s: string): nat
    requires AllDigits(s)
  {
    if |s| == 0 then 0
    else 10 * DecimalValue(s[..|s| - 1]) + (s[|s| - 1] as int - '0' as int)
  }

  /** Python's `int(s)` restricted to strings of decimal digits; anything else is `None`. */
  function ParseDecimal(s: string): Option<nat> {
    if |s| > 0 && AllDigits(s) then Some(DecimalValue(s)) else None
  }

  /** Formatting an index with `%d` and parsing it back with `int` gives the index. */
  lemma {:induction false} DecimalRoundTrip(n: nat)
    ensures ParseDecimal(DecimalString(n)) == Some(n)
  {
    if n >= 10 {
      DecimalRoundTrip(n / 10);
      var s := DecimalString(n);
      assert s[..|s| - 1] == DecimalString(n / 10);
      assert s[|s| - 1] == DigitChar(n % 10);
      assert DecimalValue(s) == 10 * (n / 10) + n % 10;
    }
  }
}
