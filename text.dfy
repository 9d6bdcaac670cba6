/** String operations of Python's `str` that the core relies on: `sep.join`,
    `str(n)` for a natural number, and `str.endswith`. */
module Text {

  /** `needle` occurs in `hay` starting at index `at`. */
  predicate Occurs(needle: string, hay: string, at: nat) {
    at + |needle| <= |hay| && hay[at..at + |needle|] == needle
  }

  /** Python's `s.endswith(suffix)`. */
  predicate EndsWith(s: string, suffix: string) {
    |suffix| <= |s| && s[|s| - |suffix|..] == suffix
  }

  lemma OccursShift(needle: string, hay: string, at: nat, before: string, after: string)
    requires Occurs(needle, hay, at)
    ensures Occurs(needle, before + hay + after, |before| + at)
  {
    var whole := before + hay + after;
    assert whole[|before| + at..|before| + at + |needle|] == hay[at..at + |needle|];
  }

  lemma OccursExtend(needle: string, hay: string, at: nat, more: string)
    requires Occurs(needle, hay, at)
    ensures Occurs(needle, hay + more, at)
  {
    assert (hay + more)[at..at + |needle|] == hay[at..at + |needle|];
  }

  lemma OccursPrefix(needle: string, more: string)
    ensures Occurs(needle, needle + more, 0)
  {
    assert (needle + more)[..|needle|] == needle;
  }

  lemma OccursAfter(before: string, needle: string)
    ensures Occurs(needle, before + needle, |before|)
  {
    assert (before + needle)[|before|..|before| + |needle|] == needle;
  }

  /** The last four pieces of a concatenation are a suffix of it. */
  lemma EndsWithLastFour(front: string, b: string, c: string, d: string, e: string)
    ensures EndsWith(front + b + c + d + e, b + c + d + e)
  {
    assert front + b + c + d + e == front + (b + c + d + e);
    EndsWithConcat(front, b + c + d + e);
  }

  /** Concatenation regrouped; stated on variables so that long literals are never compared. */
  lemma Regroup(a: string, b: string, c: string, d: string, e: string)
    ensures a + (b + (c + (d + (e + "")))) == a + b + c + d + e
  {
  }

  lemma EndsWithConcat(front: string, back: string)
    ensures EndsWith(front + back, back)
  {
    assert (front + back)[|front|..] == back;
  }

  // ---------------------------------------------------------------------------
  // sep.join(parts)
  // ---------------------------------------------------------------------------

  /** Python's `sep.join(parts)`: the parts in order, with one `sep` between neighbours. */
  function Join(sep: string, parts: seq<string>): string
    decreases |parts|
  {
    if |parts| == 0 then ""
    else if |parts| == 1 then parts[0]
    else parts[0] + sep + Join(sep, parts[1..])
  }

  /** Sum of the lengths of `parts`. */
  function TotalLength(parts: seq<string>): nat {
    if parts == [] then 0 else |parts[0]| + TotalLength(parts[1..])
  }

  /** Where part `k` starts in `Join(sep, parts)`: every earlier part and one separator after each. */
  function PartOffset(sep: string, parts: seq<string>, k: nat): nat
    requires k <= |parts|
  {
    TotalLength(parts[..k]) + k * |sep|
  }

  /** Joining two non-empty lists puts exactly one separator at the seam. */
  lemma {:induction false} JoinAppend(sep: string, a: seq<string>, b: seq<string>)
    requires a != [] && b != []
    ensures Join(sep, a + b) == Join(sep, a) + sep + Join(sep, b)
    decreases |a|
  {
    assert (a + b)[0] == a[0];
    assert (a + b)[1..] == a[1..] + b;
    if |a| > 1 {
      JoinAppend(sep, a[1..], b);
    }
  }

  /** `n` parts are joined with `n - 1` separators: the length is that of the parts plus `n - 1` separators. */
  lemma {:induction false} JoinLength(sep: string, parts: seq<string>)
    requires parts != []
    ensures |Join(sep, parts)| == TotalLength(parts) + (|parts| - 1) * |sep|
    decreases |parts|
  {
    if |parts| > 1 {
      JoinLength(sep, parts[1..]);
      assert (|parts| - 1) * |sep| == (|parts[1..]| - 1) * |sep| + |sep|;
    }
  }

  lemma {:induction false} TotalLengthAppend(a: seq<string>, b: seq<string>)
    ensures TotalLength(a + b) == TotalLength(a) + TotalLength(b)
    decreases |a|
  {
    if a != [] {
      assert (a + b)[1..] == a[1..] + b;
      TotalLengthAppend(a[1..], b);
    } else {
      assert a + b == b;
    }
  }

  /** Part `k` appears verbatim in the joined string at `PartOffset`, and the next part
      starts exactly one separator after it ends: the parts keep their order. */
  lemma {:induction false} JoinPartAt(sep: string, parts: seq<string>, k: nat)
    requires k < |parts|
    ensures Occurs(parts[k], Join(sep, parts), PartOffset(sep, parts, k))
    ensures k + 1 < |parts| ==>
      PartOffset(sep, parts, k + 1) == PartOffset(sep, parts, k) + |parts[k]| + |sep|
    decreases |parts|
  {
    PartOffsetNext(sep, parts, k);
    var j := Join(sep, parts);
    if |parts| == 1 {
      assert PartOffset(sep, parts, 0) == 0 by { assert parts[..0] == []; }
      assert j[0..|parts[0]|] == parts[0];
    } else if k == 0 {
      assert PartOffset(sep, parts, 0) == 0 by { assert parts[..0] == []; }
      assert j == parts[0] + (sep + Join(sep, parts[1..]));
      assert j[0..|parts[0]|] == parts[0];
    } else {
      var rest := parts[1..];
      JoinPartAt(sep, rest, k - 1);
      PartOffsetTail(sep, parts, k);
      assert rest[k - 1] == parts[k];
      OccursShift(parts[k], Join(sep, rest), PartOffset(sep, rest, k - 1), parts[0] + sep, []);
      assert parts[0] + sep + Join(sep, rest) + [] == j;
    }
  }

  /** The offset of part `k + 1` is that of part `k`, plus part `k`, plus one separator. */
  lemma PartOffsetNext(sep: string, parts: seq<string>, k: nat)
    requires k < |parts|
    ensures PartOffset(sep, parts, k + 1) == PartOffset(sep, parts, k) + |parts[k]| + |sep|
  {
    assert parts[..k + 1] == parts[..k] + [parts[k]];
    TotalLengthAppend(parts[..k], [parts[k]]);
    assert TotalLength([parts[k]]) == |parts[k]| by {
      assert [parts[k]][1..] == [];
    }
    assert (k + 1) * |sep| == k * |sep| + |sep|;
  }

  /** Offsets in `parts` are offsets in `parts[1..]` shifted by the first part and one separator. */
  lemma PartOffsetTail(sep: string, parts: seq<string>, k: nat)
    requires 0 < k <= |parts|
    ensures PartOffset(sep, parts, k) == |parts[0]| + |sep| + PartOffset(sep, parts[1..], k - 1)
  {
    assert parts[..k] == [parts[0]] + parts[1..][..k - 1];
    TotalLengthAppend([parts[0]], parts[1..][..k - 1]);
    assert TotalLength([parts[0]]) == |parts[0]| by {
      assert [parts[0]][1..] == [];
    }
    assert k * |sep| == |sep| + (k - 1) * |sep|;
  }

  // ---------------------------------------------------------------------------
  // str(n) for a natural number, and reading it back
  // ---------------------------------------------------------------------------

  predicate IsDigit(c: char) {
    '0' <= c <= '9'
  }

  function DigitChar(d: nat): (c: char)
    requires d < 10
    ensures IsDigit(c)
  {
    ('0' as int + d) as char
  }

  function DigitValue(c: char): nat
    requires IsDigit(c)
  {
    (c as int - '0' as int) as nat
  }

  /** Python's `str(n)` for `n >= 0`: decimal digits, most significant first, no leading zero. */
  function Decimal(n: nat): (s: string)
    ensures s != []
    ensures forall k :: 0 <= k < |s| ==> IsDigit(s[k])
    ensures s[0] == '0' ==> n == 0
  {
    if n < 10 then [DigitChar(n)] else Decimal(n / 10) + [DigitChar(n % 10)]
  }

  /** The number a string of decimal digits denotes. */
  function ParseDecimal(s: string): nat
    requires forall k :: 0 <= k < |s| ==> IsDigit(s[k])
  {
    if s == [] then 0 else 10 * ParseDecimal(s[..|s| - 1]) + DigitValue(s[|s| - 1])
  }

  /** Reading back what `Decimal` printed gives the number. */
  lemma {:induction false} ParseDecimalOfDecimal(n: nat)
    ensures ParseDecimal(Decimal(n)) == n
  {
    var s := Decimal(n);
    if n >= 10 {
      assert s[..|s| - 1] == Decimal(n / 10);
      ParseDecimalOfDecimal(n / 10);
    }
  }

  /** The longest prefix of `s` made of decimal digits. */
  function LeadingDigits(s: string): (r: string)
    ensures |r| <= |s| && r == s[..|r|]
    ensures forall k :: 0 <= k < |r| ==> IsDigit(r[k])
  {
    if s != [] && IsDigit(s[0]) then [s[0]] + LeadingDigits(s[1..]) else []
  }

  /** A number printed by `Decimal` and followed by a non-digit is read back in full. */
  lemma {:induction false} LeadingDigitsOfDecimal(digits: string, rest: string)
    requires forall k :: 0 <= k < |digits| ==> IsDigit(digits[k])
    requires rest == [] || !IsDigit(rest[0])
    ensures LeadingDigits(digits + rest) == digits
    decreases |digits|
  {
    if digits == [] {
      assert digits + rest == rest;
    } else {
      assert (digits + rest)[1..] == digits[1..] + rest;
      LeadingDigitsOfDecimal(digits[1..], rest);
    }
  }
}
