/** Character classes, scanning runs, C strings, comma-joined lists and
    number formatting: the string vocabulary the preprocessor is written in,
    plus `strrnc`, its one free-standing string helper. */
module Text {
  import opened Outcomes

  /** `isspace` in the C locale. */
  predicate IsSpace(c: char) {
    c == ' ' || c == '\t' || c == '\n' || c == '\r' || c == '\U{000B}' || c == '\U{000C}'
  }

  /** `isdigit` in the C locale. */
  predicate IsDigitChar(c: char) {
    '0' <= c <= '9'
  }

  /** `isalnum(c) or c == '_'`: the characters `is_id` accepts. */
  predicate IsIdChar(c: char) {
    IsDigitChar(c) || 'a' <= c <= 'z' || 'A' <= c <= 'Z' || c == '_'
  }

  /** `!is_newline(c)`: what a line comment runs over. */
  predicate IsNotNewline(c: char) { c != '\n' }

  /** The end of the longest run of characters satisfying `p` that starts at
      `i`: every scanning loop of the form `while (p(peek())) get()`. */
  function RunEnd(s: string, i: nat, p: char -> bool): (e: nat)
    requires i <= |s|
    ensures i <= e <= |s|
    decreases |s| - i
  {
    if i < |s| && p(s[i]) then RunEnd(s, i + 1, p) else i
  }

  /** The run is made of characters satisfying `p`, and cannot be extended. */
  lemma {:induction false} RunEndMaximal(s: string, i: nat, p: char -> bool)
    requires i <= |s|
    ensures forall k :: i <= k < RunEnd(s, i, p) ==> p(s[k])
    ensures RunEnd(s, i, p) == |s| || !p(s[RunEnd(s, i, p)])
    decreases |s| - i
  {
    if i < |s| && p(s[i]) {
      RunEndMaximal(s, i + 1, p);
    }
  }

  /** A prefix of a slice is the slice of the same length. */
  lemma SlicePrefix(s: string, a: nat, b: nat, k: nat)
    requires a <= b <= |s| && k <= b - a
    ensures s[a..b][..k] == s[a..a + k]
  {
  }

  lemma SliceJoin(s: string, a: nat, b: nat, c: nat)
    requires a <= b <= c <= |s|
    ensures s[a..b] + s[b..c] == s[a..c]
  {
  }

  /** Skipping a run a second time skips nothing more. */
  lemma RunEndIdempotent(s: string, i: nat, p: char -> bool)
    requires i <= |s|
    ensures RunEnd(s, RunEnd(s, i, p), p) == RunEnd(s, i, p)
  {
    RunEndMaximal(s, i, p);
  }

  /** Conversely, a stretch of `p`-characters ended by the input's end or by
      a character outside `p` is the run. */
  lemma {:induction false} RunEndAt(s: string, i: nat, e: nat, p: char -> bool)
    requires i <= e <= |s|
    requires forall k :: i <= k < e ==> p(s[k])
    requires e == |s| || !p(s[e])
    ensures RunEnd(s, i, p) == e
    decreases e - i
  {
    if i < e {
      RunEndAt(s, i + 1, e, p);
    }
  }

  /** What `string(c)` keeps of a character buffer: everything before the
      first NUL. */
  function CStr(s: string): (r: string)
    ensures |r| <= |s| && r == s[..|r|]
    ensures '\0' !in r
    ensures |r| == |s| || s[|r|] == '\0'
  {
    if s == [] || s[0] == '\0' then [] else [s[0]] + CStr(s[1..])
  }

  /** Number of newline characters in `s`. */
  function Newlines(s: string): nat {
    if s == [] then 0 else Newlines(s[..|s| - 1]) + (if s[|s| - 1] == '\n' then 1 else 0)
  }

  lemma {:induction false} NewlinesAppend(a: string, b: string)
    ensures Newlines(a + b) == Newlines(a) + Newlines(b)
    decreases |b|
  {
    if b != [] {
      var b' := b[..|b| - 1];
      assert (a + b)[..|a + b| - 1] == a + b';
      NewlinesAppend(a, b');
    } else {
      assert a + b == a;
    }
  }

  /** `if (!s.empty()) { s += ","; } s += item;` -- the way every derived
      kernel string grows by one entry. */
  function CommaAppend(s: string, item: string): string {
    if s == [] then item else s + "," + item
  }

  /** A list of entries grown one entry at a time with `CommaAppend`. */
  function Listing(items: seq<string>): string {
    if items == [] then [] else CommaAppend(Listing(items[..|items| - 1]), items[|items| - 1])
  }

  /** The usual separator join: `sep` between consecutive items. */
  function JoinWith(sep: string, items: seq<string>): string {
    if items == [] then []
    else if |items| == 1 then items[0]
    else JoinWith(sep, items[..|items| - 1]) + sep + items[|items| - 1]
  }

  lemma JoinSnoc(sep: string, items: seq<string>, x: string)
    ensures JoinWith(sep, items + [x]) == if items == [] then x else JoinWith(sep, items) + sep + x
  {
    assert (items + [x])[..|items|] == items;
    if items == [] {
      assert items + [x] == [x];
    }
  }

  /** One more item, appended the way the source's loops do it: the
      separator first, unless nothing came before. */
  lemma JoinStep(base: string, sep: string, items: seq<string>, x: string)
    ensures base + JoinWith(sep, items) + (if items == [] then "" else sep) + x
         == base + JoinWith(sep, items + [x])
  {
    JoinSnoc(sep, items, x);
    if items == [] {
      assert JoinWith(sep, items) + "" == [];
    }
  }

  lemma {:induction false} JoinNonEmpty(sep: string, items: seq<string>)
    requires items != [] && forall k :: 0 <= k < |items| ==> items[k] != []
    ensures JoinWith(sep, items) != []
  {
    if |items| > 1 {
      var front := items[..|items| - 1];
      assert forall k :: 0 <= k < |front| ==> front[k] == items[k];
      JoinNonEmpty(sep, front);
    }
  }

  /** Growing a string by emptiness checks is the comma join, as long as no
      entry is empty; with an empty entry the two differ (the separator is
      lost), which is why the model keeps `Listing` as the definition. */
  lemma {:induction false} ListingIsJoin(items: seq<string>)
    requires forall k :: 0 <= k < |items| ==> items[k] != []
    ensures Listing(items) == JoinWith(",", items)
    decreases |items|
  {
    if |items| > 1 {
      var front := items[..|items| - 1];
      assert forall k :: 0 <= k < |front| ==> front[k] == items[k];
      ListingIsJoin(front);
      JoinNonEmpty(",", front);
    } else if |items| == 1 {
      assert items[..0] == [];
    }
  }

  // ---------------------------------------------------------------------------
  // Numbers

  function DigitChar(d: nat): char
    requires d < 10
  {
    ('0' as int + d) as char
  }

  function HexDigitChar(d: nat): char
    requires d < 16
  {
    if d < 10 then DigitChar(d) else ('a' as int + d - 10) as char
  }

  function DigitValue(c: char): nat
    requires IsDigitChar(c)
  {
    c as int - '0' as int
  }

  /** The value of a run of decimal digits, as `atoi` reads it (without the
      overflow `atoi` leaves undefined). */
  function DigitsValue(s: string): nat
    requires forall k :: 0 <= k < |s| ==> IsDigitChar(s[k])
  {
    if s == [] then 0
    else DigitsValue(s[..|s| - 1]) * 10 + DigitValue(s[|s| - 1])
  }

  /** Decimal text of a natural number, as `operator<<` and `to_string`
      write it. */
  function DecimalString(n: nat): (r: string)
    ensures r != [] && forall k :: 0 <= k < |r| ==> IsDigitChar(r[k])
  {
    if n < 10 then [DigitChar(n)] else DecimalString(n / 10) + [DigitChar(n % 10)]
  }

  lemma {:induction false} DecimalRoundTrip(n: nat)
    ensures DigitsValue(DecimalString(n)) == n
  {
    if n >= 10 {
      var s := DecimalString(n);
      assert s[..|s| - 1] == DecimalString(n / 10);
      DecimalRoundTrip(n / 10);
    }
  }

  function HexDigitValue(c: char): nat {
    if '0' <= c <= '9' then c as int - '0' as int
    else if 'a' <= c <= 'f' then c as int - 'a' as int + 10
    else 0
  }

  /** The value of a run of lower-case hexadecimal digits. */
  function HexValue(s: string): nat {
    if s == [] then 0 else HexValue(s[..|s| - 1]) * 16 + HexDigitValue(s[|s| - 1])
  }

  /** Hexadecimal text of a natural number as `std::hex` writes it: lower-case
      digits, no leading zeros, no prefix. */
  function HexString(n: nat): (r: string)
    ensures r != []
  {
    if n < 16 then [HexDigitChar(n)] else HexString(n / 16) + [HexDigitChar(n % 16)]
  }

  lemma {:induction false} HexRoundTrip(n: nat)
    ensures HexValue(HexString(n)) == n
  {
    if n >= 16 {
      var s := HexString(n);
      assert s[..|s| - 1] == HexString(n / 16);
      HexRoundTrip(n / 16);
      assert HexDigitValue(HexDigitChar(n % 16)) == n % 16;
    } else {
      assert HexDigitValue(HexDigitChar(n)) == n;
    }
  }

  // ---------------------------------------------------------------------------
  // strrnc

  /** Number of occurrences of `c` in `s`. */
  function Occurrences(s: string, c: char): nat {
    if s == [] then 0 else (if s[0] == c then 1 else 0) + Occurrences(s[1..], c)
  }

  lemma {:induction false} OccurrencesSuffix(s: string, c: char, i: nat, j: nat)
    requires i <= j <= |s|
    ensures Occurrences(s[j..], c) <= Occurrences(s[i..], c)
    decreases j - i
  {
    if i < j {
      assert s[i..][1..] == s[i + 1..];
      OccurrencesSuffix(s, c, i + 1, j);
    }
  }

  /** `strrnc(s, c, n)`: the position of the `n`-th last occurrence of `c` in
      the C string `s`, or NULL (`None`) when there are fewer than `n`
      occurrences or `n` is not positive.  The pointer walk of the source is
      an index walk here; `p` stays `len - 1` as in the source. */
  method StrRnc(s: string, c: char, n: int) returns (r: Option<nat>)
    ensures r.Some? ==> var t := CStr(s);
      r.value < |t| && t[r.value] == c && Occurrences(t[r.value..], c) == n
    ensures r.None? <==> n < 1 || Occurrences(CStr(s), c) < n
  {
    var t := CStr(s);
    var len: int := |t|;
    var p: int := len - 1;
    var k := n;
    while k != 0
      invariant 0 <= len <= |t| && p == len - 1
      invariant k <= n && (n >= 1 ==> k >= 1)
      invariant Occurrences(t[len..], c) == n - k
      decreases len
    {
      ghost var start := len;
      while len != 0 && t[p] != c
        invariant 0 <= len <= start && p == len - 1
        invariant Occurrences(t[len..], c) == Occurrences(t[start..], c)
      {
        assert t[p..][1..] == t[len..];
        p, len := p - 1, len - 1;
      }
      if len == 0 {
        assert t[0..] == t;
        return None;
      }
      assert t[p..][1..] == t[len..];
      if k == 1 {
        OccurrencesSuffix(t, c, 0, p);
        assert t[0..] == t;
        return Some(p);
      }
      k, p, len := k - 1, p - 1, len - 1;
    }
    return None;
  }
}
