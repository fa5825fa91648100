/** `MFEM_RANGE(...)` lists and their Cartesian product
    (general/mpp.cpp:851-878, 1007-1024).

    A range list such as `(1-3,5)` names the values one compile-time
    argument of an `MFEM_TEMPLATE` kernel can take; the product of the lists
    of all such arguments is the set of instantiations written into the
    dispatch table. */
module Ranges {
  import opened Text

  // ---------------------------------------------------------------------------
  // Range lists

  const NoRangeMsg: string := "templated kernel should declare the range"
  const UnknownNumberMsg: string := "unknown number"
  const UnknownRangeMsg: string := "unknown MFEM_TEMPLATE range"

  /** `lo, lo + 1, ..., hi - 1` (empty when `hi <= lo`): what the `for` loop
      filling a span pushes. */
  function Interval(lo: int, hi: int): seq<int>
    decreases hi - lo
  {
    if lo < hi then [lo] + Interval(lo + 1, hi) else []
  }

  lemma {:induction false} IntervalAt(lo: int, hi: int)
    ensures |Interval(lo, hi)| == if lo < hi then hi - lo else 0
    ensures forall k :: 0 <= k < |Interval(lo, hi)| ==> Interval(lo, hi)[k] == lo + k
    decreases hi - lo
  {
    if lo < hi {
      IntervalAt(lo + 1, hi);
    }
  }

  /** Outcome of reading a range list: the values with the index just past
      the closing `)`, a syntax error (the message `check` throws), or the
      input ending right after a number (the `assert(not eof)`). */
  datatype RangeScan = Done(values: seq<int>, end: nat) | Rejected(msg: string) | Truncated

  /** What reading one item does: stop with an outcome, or go on at `next`
      with the dash flag and the values so far. */
  datatype Step = Stop(outcome: RangeScan) | Continue(next: nat, dash: bool, values: seq<int>)

  /** One pass of the `do ... while` of `__range` from index `i` (just after
      `(` or after a separator): read a number, fill the span from the last
      value when the previous separator was `-` (`dash`), append the number,
      then read the separator. */
  function ItemAt(s: string, i: nat, dash: bool, acc: seq<int>): (r: Step)
    requires i <= |s|
    requires dash ==> acc != []
    ensures r.Continue? ==> i < r.next <= |s| && (r.dash ==> r.values != [])
    ensures r.Continue? ==> |r.values| > |acc| && r.values[..|acc|] == acc
    ensures r.Stop? && r.outcome.Done? ==> i < r.outcome.end <= |s| && s[r.outcome.end - 1] == ')'
    ensures r.Stop? && r.outcome.Done? ==> |r.outcome.values| > |acc| && r.outcome.values[..|acc|] == acc
    ensures r.Stop? && r.outcome.Rejected? ==>
      r.outcome.msg == UnknownNumberMsg || r.outcome.msg == UnknownRangeMsg
  {
    var e := RunEnd(s, i, IsDigitChar);
    if e == i then Stop(Rejected(UnknownNumberMsg))
    else
      RunEndMaximal(s, i, IsDigitChar);
      var n := DigitsValue(s[i..e]);
      var filled := if dash then acc + Interval(acc[|acc| - 1] + 1, n) else acc;
      var next := filled + [n];
      assert next[..|acc|] == acc;
      if e == |s| then Stop(Truncated)
      else if s[e] == ')' then Stop(Done(next, e + 1))
      else if s[e] == ',' || s[e] == '-' then Continue(e + 1, s[e] == '-', next)
      else Stop(Rejected(UnknownRangeMsg))
  }

  /** The items of a range list from index `i` up to the closing `)`. */
  function RangeItems(s: string, i: nat, dash: bool, acc: seq<int>): (r: RangeScan)
    requires i <= |s|
    requires dash ==> acc != []
    ensures r.Done? ==> i < r.end <= |s| && s[r.end - 1] == ')'
    ensures r.Done? ==> |r.values| > |acc| && r.values[..|acc|] == acc
    ensures r.Rejected? ==> r.msg == UnknownNumberMsg || r.msg == UnknownRangeMsg
    decreases |s| - i
  {
    match ItemAt(s, i, dash, acc)
    case Stop(r) => r
    case Continue(j, d, vs) =>
      var r := RangeItems(s, j, d, vs);
      assert r.Done? ==> r.values[..|acc|] == r.values[..|vs|][..|acc|];
      r
  }

  /** `__range`: a range list starting at index `i`, appended to `acc` (the
      values an earlier `MFEM_RANGE` of the same argument left there). */
  function RangeList(s: string, i: nat, acc: seq<int>): (r: RangeScan)
    requires i <= |s|
    ensures r.Done? ==> i < |s| && s[i] == '(' && i + 2 <= r.end <= |s| && s[r.end - 1] == ')'
    ensures r.Done? ==> |r.values| > |acc| && r.values[..|acc|] == acc
    ensures (i == |s| || s[i] != '(') <==> r == Rejected(NoRangeMsg)
  {
    if i == |s| || s[i] != '(' then Rejected(NoRangeMsg) else RangeItems(s, i + 1, false, acc)
  }

  /** The text of a list of values separated by commas, in parentheses:
      the plainest way to write a range list. */
  function RangeText(vs: seq<nat>): string {
    "(" + ItemsText(vs) + ")"
  }

  function ItemsText(vs: seq<nat>): string {
    if vs == [] then [] else if |vs| == 1 then DecimalString(vs[0])
    else DecimalString(vs[0]) + "," + ItemsText(vs[1..])
  }

  /** A decimal number followed by a non-digit reads back as itself. */
  lemma NumberRun(s: string, i: nat, n: nat)
    requires i + |DecimalString(n)| < |s| && s[i..i + |DecimalString(n)|] == DecimalString(n)
    requires !IsDigitChar(s[i + |DecimalString(n)|])
    ensures RunEnd(s, i, IsDigitChar) == i + |DecimalString(n)|
    ensures DigitsValue(s[i..RunEnd(s, i, IsDigitChar)]) == n
  {
    RunEndAt(s, i, i + |DecimalString(n)|, IsDigitChar);
    DecimalRoundTrip(n);
  }

  /** One item of a range list: the number `n` written in decimal at `i`,
      then the separator that decides what comes next. */
  lemma ItemStep(s: string, i: nat, dash: bool, acc: seq<int>, n: nat)
    requires i + |DecimalString(n)| < |s| && s[i..i + |DecimalString(n)|] == DecimalString(n)
    requires !IsDigitChar(s[i + |DecimalString(n)|])
    requires dash ==> acc != []
    ensures var e := i + |DecimalString(n)|;
      var next := (if dash then acc + Interval(acc[|acc| - 1] + 1, n) else acc) + [n];
      ItemAt(s, i, dash, acc)
        == if s[e] == ')' then Stop(Done(next, e + 1))
           else if s[e] == ',' || s[e] == '-' then Continue(e + 1, s[e] == '-', next)
           else Stop(Rejected(UnknownRangeMsg))
  {
    NumberRun(s, i, n);
  }

  /** A number closing the list. */
  lemma ItemClose(s: string, i: nat, e: nat, dash: bool, acc: seq<int>, n: nat)
    requires e == i + |DecimalString(n)| && e < |s| && s[i..e] == DecimalString(n) && s[e] == ')'
    requires dash ==> acc != []
    ensures RangeItems(s, i, dash, acc)
         == Done((if dash then acc + Interval(acc[|acc| - 1] + 1, n) else acc) + [n], e + 1)
  {
    ItemStep(s, i, dash, acc, n);
  }

  /** A number followed by a comma: the rest of the list follows. */
  lemma ItemComma(s: string, i: nat, e: nat, dash: bool, acc: seq<int>, n: nat)
    requires e == i + |DecimalString(n)| && e < |s| && s[i..e] == DecimalString(n) && s[e] == ','
    requires dash ==> acc != []
    ensures RangeItems(s, i, dash, acc)
         == RangeItems(s, e + 1, false, (if dash then acc + Interval(acc[|acc| - 1] + 1, n) else acc) + [n])
  {
    ItemStep(s, i, dash, acc, n);
  }

  /** A number followed by a dash: a span up to the next number follows. */
  lemma ItemDash(s: string, i: nat, e: nat, acc: seq<int>, n: nat)
    requires e == i + |DecimalString(n)| && e < |s| && s[i..e] == DecimalString(n) && s[e] == '-'
    ensures RangeItems(s, i, false, acc) == RangeItems(s, e + 1, true, acc + [n])
  {
    ItemStep(s, i, false, acc, n);
  }

  /** Where the pieces of `d,rest` sit in a text that holds it at `i`. */
  lemma CommaSplit(s: string, i: nat, t: string, d: string, rest: string)
    requires t == d + "," + rest && i + |t| <= |s| && s[i..i + |t|] == t
    ensures s[i..i + |d|] == d && s[i + |d|] == ','
    ensures i + |d| + 1 + |rest| == i + |t| && s[i + |d| + 1..i + |d| + 1 + |rest|] == rest
  {
    var w := s[i..i + |t|];
    assert s[i..i + |d|] == w[..|d|];
    assert s[i + |d|] == w[|d|];
    assert s[i + |d| + 1..i + |d| + 1 + |rest|] == w[|d| + 1..];
  }

  /** How a list text splits into its first number, a comma and the rest. */
  lemma ItemsTextSplit(s: string, i: nat, vs: seq<nat>)
    requires |vs| > 1 && i + |ItemsText(vs)| < |s| && s[i..i + |ItemsText(vs)|] == ItemsText(vs)
    ensures var d := DecimalString(vs[0]); var j := i + |d| + 1;
      s[i..i + |d|] == d && s[i + |d|] == ',' && j + |ItemsText(vs[1..])| == i + |ItemsText(vs)|
      && s[j..j + |ItemsText(vs[1..])|] == ItemsText(vs[1..])
  {
    var d, rest := DecimalString(vs[0]), ItemsText(vs[1..]);
    assert ItemsText(vs) == d + "," + rest;
    CommaSplit(s, i, ItemsText(vs), d, rest);
  }

  /** The first item of a list of several: read it, then read the rest. */
  lemma ItemsCons(s: string, i: nat, j: nat, vs: seq<nat>, acc: seq<int>)
    requires |vs| > 1 && i + |ItemsText(vs)| < |s| && s[i..i + |ItemsText(vs)|] == ItemsText(vs)
    requires j == i + |DecimalString(vs[0])| + 1
    ensures RangeItems(s, i, false, acc) == RangeItems(s, j, false, acc + [vs[0]])
    ensures j + |ItemsText(vs[1..])| == i + |ItemsText(vs)|
    ensures s[j..j + |ItemsText(vs[1..])|] == ItemsText(vs[1..])
  {
    ItemsTextSplit(s, i, vs);
    var e := j - 1;
    assert e == i + |DecimalString(vs[0])| && e < |s| && s[i..e] == DecimalString(vs[0]) && s[e] == ',';
    ItemComma(s, i, e, false, acc, vs[0]);
  }

  /** Round trip: a comma list read back with `RangeItems` yields its values
      appended to what was there. */
  lemma {:induction false} ItemsRoundTrip(s: string, i: nat, vs: seq<nat>, acc: seq<int>)
    requires vs != [] && i + |ItemsText(vs)| < |s|
    requires s[i..i + |ItemsText(vs)|] == ItemsText(vs) && s[i + |ItemsText(vs)|] == ')'
    ensures RangeItems(s, i, false, acc) == Done(acc + vs, i + |ItemsText(vs)| + 1)
    decreases |vs|
  {
    if |vs| == 1 {
      ItemClose(s, i, i + |ItemsText(vs)|, false, acc, vs[0]);
      assert acc + vs == acc + [vs[0]];
    } else {
      var j := i + |DecimalString(vs[0])| + 1;
      ItemsCons(s, i, j, vs, acc);
      ItemsRoundTrip(s, j, vs[1..], acc + [vs[0]]);
      assert acc + [vs[0]] + vs[1..] == acc + vs;
    }
  }

  /** `__range` reads back a written range list exactly, whatever follows. */
  lemma RangeRoundTrip(vs: seq<nat>, post: string)
    requires vs != []
    ensures RangeList(RangeText(vs) + post, 0, []) == Done(vs, |RangeText(vs)|)
  {
    var s := RangeText(vs) + post;
    var t := ItemsText(vs);
    assert s[1..1 + |t|] == t && s[1 + |t|] == ')';
    ItemsRoundTrip(s, 1, vs, []);
    assert [] + vs == vs;
  }

  lemma {:induction false} IntervalSnoc(lo: int, hi: int)
    requires lo <= hi
    ensures Interval(lo, hi) + [hi] == Interval(lo, hi + 1)
    decreases hi - lo
  {
    if lo < hi {
      IntervalSnoc(lo + 1, hi);
    }
  }

  /** A number, a dash and a second number closing the list. */
  lemma DashThenClose(s: string, i: nat, e1: nat, e2: nat, acc: seq<int>, a: nat, b: nat)
    requires e1 == i + |DecimalString(a)| && e1 < |s| && s[i..e1] == DecimalString(a) && s[e1] == '-'
    requires e2 == e1 + 1 + |DecimalString(b)| && e2 < |s| && s[e1 + 1..e2] == DecimalString(b) && s[e2] == ')'
    ensures RangeItems(s, i, false, acc) == Done(acc + [a] + Interval(a + 1, b) + [b], e2 + 1)
  {
    ItemDash(s, i, e1, acc, a);
    ItemClose(s, e1 + 1, e2, true, acc + [a], b);
  }

  /** Where the pieces of `(a-b)` sit in a text that starts with it. */
  lemma SpanText(da: string, db: string, post: string)
    ensures var s := "(" + da + "-" + db + ")" + post;
      var e1 := 1 + |da|; var e2 := e1 + 1 + |db|;
      e2 < |s| && s[0] == '(' && s[1..e1] == da && s[e1] == '-' && s[e1 + 1..e2] == db && s[e2] == ')'
  {
    var head := "(" + da + "-";
    var s := head + (db + ")" + post);
    assert "(" + da + "-" + db + ")" + post == s;
    assert s[1..1 + |da|] == head[1..1 + |da|] == da;
    assert s[|head|..|head| + |db|] == (db + ")" + post)[..|db|] == db;
  }

  /** The items of a list `a-b)` starting at index 1, with `a < b`. */
  lemma SpanItems(s: string, e1: nat, e2: nat, a: nat, b: nat)
    requires a < b
    requires e1 == 1 + |DecimalString(a)| && e1 < |s| && s[1..e1] == DecimalString(a) && s[e1] == '-'
    requires e2 == e1 + 1 + |DecimalString(b)| && e2 < |s| && s[e1 + 1..e2] == DecimalString(b) && s[e2] == ')'
    ensures RangeItems(s, 1, false, []) == Done(Interval(a, b + 1), e2 + 1)
  {
    DashThenClose(s, 1, e1, e2, [], a, b);
    SpanValues(a, b);
  }

  /** The values a span `a-b` adds to an empty list. */
  lemma SpanValues(a: nat, b: nat)
    requires a < b
    ensures [] + [a] + Interval(a + 1, b) + [b] == Interval(a, b + 1)
  {
    IntervalSnoc(a + 1, b);
    assert [] + [a] + Interval(a + 1, b) + [b] == [a] + (Interval(a + 1, b) + [b]);
  }

  /** A span `a-b` with `a < b` contributes every value from `a` to `b`. */
  lemma SpanExpands(a: nat, b: nat, post: string)
    requires a < b
    ensures var t := "(" + DecimalString(a) + "-" + DecimalString(b) + ")";
      RangeList(t + post, 0, []) == Done(Interval(a, b + 1), |t|)
  {
    var da, db := DecimalString(a), DecimalString(b);
    SpanText(da, db, post);
    SpanItems("(" + da + "-" + db + ")" + post, 1 + |da|, 2 + |da| + |db|, a, b);
  }

  lemma SmallDecimals()
    ensures DecimalString(1) == "1" && DecimalString(3) == "3" && DecimalString(5) == "5"
  {
  }

  /** The first item of `(1-3,5)`: `1`, followed by a dash. */
  lemma ExampleDash(s: string)
    requires s == "(1-3,5)"
    ensures RangeItems(s, 1, false, []) == RangeItems(s, 3, true, [1])
  {
    SmallDecimals();
    assert s[1..2] == "1";
    ItemDash(s, 1, 2, [], 1);
    assert [] + [1] == [1];
  }

  /** The second item of `(1-3,5)`: the span from `1` up to `3`. */
  lemma ExampleComma(s: string)
    requires s == "(1-3,5)"
    ensures RangeItems(s, 3, true, [1]) == RangeItems(s, 5, false, [1, 2, 3])
  {
    SmallDecimals();
    assert s[3..4] == "3";
    ItemComma(s, 3, 4, true, [1], 3);
    assert [1] + Interval(2, 3) + [3] == [1, 2, 3] by {
      assert Interval(3, 3) == [];
    }
  }

  /** The first two items of `(1-3,5)`: `1`, then the span up to `3`. */
  lemma ExampleSpan(s: string)
    requires s == "(1-3,5)"
    ensures RangeItems(s, 1, false, []) == RangeItems(s, 5, false, [1, 2, 3])
  {
    ExampleDash(s);
    ExampleComma(s);
  }

  /** The example `(1-3,5)` expands to `1, 2, 3, 5`. */
  lemma RangeExample()
    ensures RangeList("(1-3,5)", 0, []) == Done([1, 2, 3, 5], 7)
  {
    var s := "(1-3,5)";
    ExampleSpan(s);
    ExampleClose(s);
  }

  /** The last item of `(1-3,5)`: `5`, then the closing parenthesis. */
  lemma ExampleClose(s: string)
    requires s == "(1-3,5)"
    ensures RangeItems(s, 5, false, [1, 2, 3]) == Done([1, 2, 3, 5], 7)
  {
    SmallDecimals();
    assert s[5..6] == "5";
    ItemClose(s, 5, 6, false, [1, 2, 3], 5);
  }

  /** Any separator other than `,`, `-` or `)` after a number is rejected. */
  lemma BadSeparatorRejected(n: nat, c: char, post: string)
    requires c != ',' && c != '-' && c != ')' && !IsDigitChar(c)
    ensures RangeList("(" + DecimalString(n) + [c] + post, 0, []) == Rejected(UnknownRangeMsg)
  {
    var s := "(" + DecimalString(n) + [c] + post;
    assert s[1..1 + |DecimalString(n)|] == DecimalString(n);
    ItemStep(s, 1, false, [], n);
    assert ItemAt(s, 1, false, []) == Stop(Rejected(UnknownRangeMsg));
  }

  // ---------------------------------------------------------------------------
  // Cartesian product

  /** One tuple `x` extended by each value of `u`, in the order of `u`. */
  function Block(x: seq<int>, u: seq<int>): (r: seq<seq<int>>)
    ensures |r| == |u|
  {
    if u == [] then [] else Block(x, u[..|u| - 1]) + [x + [u[|u| - 1]]]
  }

  /** Every tuple of `s` extended by every value of `u`: tuples of `s` in
      their order, values of `u` fastest. */
  function Extend(s: seq<seq<int>>, u: seq<int>): seq<seq<int>> {
    if s == [] then [] else Extend(s[..|s| - 1], u) + Block(s[|s| - 1], u)
  }

  /** The product of the lists of `v`, first list slowest. */
  function Product(v: seq<seq<int>>): seq<seq<int>> {
    if v == [] then [[]] else Extend(Product(v[..|v| - 1]), v[|v| - 1])
  }

  /** Product of the lengths of the lists. */
  function SizeProduct(v: seq<seq<int>>): nat {
    if v == [] then 1 else SizeProduct(v[..|v| - 1]) * |v[|v| - 1]|
  }

  lemma {:induction false} ExtendSize(s: seq<seq<int>>, u: seq<int>)
    ensures |Extend(s, u)| == |s| * |u|
  {
    if s != [] {
      ExtendSize(s[..|s| - 1], u);
      assert (|s| - 1) * |u| + |u| == |s| * |u|;
    }
  }

  /** The product has exactly one tuple per combination count. */
  lemma {:induction false} ProductSize(v: seq<seq<int>>)
    ensures |Product(v)| == SizeProduct(v)
  {
    if v != [] {
      ProductSize(v[..|v| - 1]);
      ExtendSize(Product(v[..|v| - 1]), v[|v| - 1]);
    }
  }

  lemma {:induction false} BlockMember(x: seq<int>, u: seq<int>, c: seq<int>)
    ensures c in Block(x, u) <==> |c| == |x| + 1 && c[..|x|] == x && c[|x|] in u
  {
    if u != [] {
      var front := u[..|u| - 1];
      BlockMember(x, front, c);
      assert u == front + [u[|u| - 1]];
      if |c| == |x| + 1 && c[..|x|] == x && c[|x|] == u[|u| - 1] {
        assert c == x + [u[|u| - 1]];
      }
    }
  }

  /** Tuples of `Extend(s, u)` are exactly those with their front in `s`
      and their last value in `u` (for `s` of tuples of one length). */
  lemma {:induction false} ExtendMember(s: seq<seq<int>>, u: seq<int>, c: seq<int>, n: nat)
    requires forall k :: 0 <= k < |s| ==> |s[k]| == n
    ensures c in Extend(s, u) <==> |c| == n + 1 && c[..n] in s && c[n] in u
  {
    if s != [] {
      var front, last := s[..|s| - 1], s[|s| - 1];
      ExtendMember(front, u, c, n);
      BlockMember(last, u, c);
      assert s == front + [last];
    }
  }

  lemma {:induction false} ProductLengths(v: seq<seq<int>>)
    ensures forall k :: 0 <= k < |Product(v)| ==> |Product(v)[k]| == |v|
  {
    if v != [] {
      var front := v[..|v| - 1];
      ProductLengths(front);
      forall k | 0 <= k < |Product(v)|
        ensures |Product(v)[k]| == |v|
      {
        var c := Product(v)[k];
        ExtendMember(Product(front), v[|v| - 1], c, |front|);
      }
    }
  }

  /** A tuple is in the product exactly when it picks one value from each
      list, in declaration order. */
  lemma {:induction false} ProductMember(v: seq<seq<int>>, c: seq<int>)
    ensures c in Product(v) <==> |c| == |v| && forall i :: 0 <= i < |v| ==> c[i] in v[i]
  {
    if v == [] {
      assert c in Product(v) <==> c == [];
    } else {
      var front := v[..|v| - 1];
      ProductLengths(front);
      ExtendMember(Product(front), v[|v| - 1], c, |front|);
      if |c| == |v| {
        ProductMember(front, c[..|front|]);
        assert forall i :: 0 <= i < |front| ==> c[..|front|][i] == c[i];
      }
    }
  }

  /** Lexicographic order on tuples of one length. */
  predicate LexLess(a: seq<int>, b: seq<int>) {
    |a| == |b| && exists k :: 0 <= k < |a| && a[..k] == b[..k] && a[k] < b[k]
  }

  /** Every earlier tuple is lexicographically smaller than every later one. */
  predicate LexSorted(s: seq<seq<int>>) {
    forall i, j :: 0 <= i < j < |s| ==> LexLess(s[i], s[j])
  }

  predicate Increasing(u: seq<int>) {
    forall i, j :: 0 <= i < j < |u| ==> u[i] < u[j]
  }

  lemma LexLessExtend(a: seq<int>, b: seq<int>, x: int, y: int)
    requires LexLess(a, b)
    ensures LexLess(a + [x], b + [y])
  {
    var k :| 0 <= k < |a| && a[..k] == b[..k] && a[k] < b[k];
    assert (a + [x])[..k] == a[..k] && (b + [y])[..k] == b[..k];
    assert (a + [x])[k] == a[k] && (b + [y])[k] == b[k];
  }

  lemma {:induction false} BlockSorted(x: seq<int>, u: seq<int>)
    requires Increasing(u)
    ensures LexSorted(Block(x, u))
    ensures forall k :: 0 <= k < |u| ==> Block(x, u)[k] == x + [u[k]]
  {
    if u != [] {
      var front := u[..|u| - 1];
      BlockSorted(x, front);
      var b := Block(x, u);
      forall i, j | 0 <= i < j < |b|
        ensures LexLess(b[i], b[j])
      {
        assert b[i] == x + [u[i]] && b[j] == x + [u[j]];
        assert (x + [u[i]])[..|x|] == x == (x + [u[j]])[..|x|];
      }
    }
  }

  lemma SortedConcat(a: seq<seq<int>>, b: seq<seq<int>>)
    requires LexSorted(a) && LexSorted(b)
    requires forall i, j :: 0 <= i < |a| && 0 <= j < |b| ==> LexLess(a[i], b[j])
    ensures LexSorted(a + b)
  {
  }

  lemma {:induction false} ExtendSorted(s: seq<seq<int>>, u: seq<int>, n: nat)
    requires forall k :: 0 <= k < |s| ==> |s[k]| == n
    requires LexSorted(s) && Increasing(u)
    ensures LexSorted(Extend(s, u))
  {
    if s != [] {
      var front, last := s[..|s| - 1], s[|s| - 1];
      ExtendSorted(front, u, n);
      BlockSorted(last, u);
      var a, b := Extend(front, u), Block(last, u);
      forall i, j | 0 <= i < |a| && 0 <= j < |b|
        ensures LexLess(a[i], b[j])
      {
        ExtendedBeforeLast(s, u, n, a[i], u[j]);
      }
      SortedConcat(a, b);
    }
  }

  /** A tuple built from an earlier tuple of a sorted `s` comes before the
      last tuple of `s` extended by anything. */
  lemma ExtendedBeforeLast(s: seq<seq<int>>, u: seq<int>, n: nat, c: seq<int>, y: int)
    requires forall k :: 0 <= k < |s| ==> |s[k]| == n
    requires LexSorted(s) && s != [] && c in Extend(s[..|s| - 1], u)
    ensures LexLess(c, s[|s| - 1] + [y])
  {
    var front, last := s[..|s| - 1], s[|s| - 1];
    ExtendMember(front, u, c, n);
    var p :| 0 <= p < |front| && front[p] == c[..n];
    assert LexLess(s[p], last);
    LexLessExtend(c[..n], last, c[n], y);
    assert c == c[..n] + [c[n]];
  }

  /** With every list increasing, the product lists each combination once, in
      lexicographic order: the last list varies fastest. */
  lemma {:induction false} ProductSorted(v: seq<seq<int>>)
    requires forall i :: 0 <= i < |v| ==> Increasing(v[i])
    ensures LexSorted(Product(v))
  {
    if v != [] {
      var front := v[..|v| - 1];
      ProductSorted(front);
      ProductLengths(front);
      ExtendSorted(Product(front), v[|v| - 1], |front|);
    }
  }

  /** `templateOuterProduct`: start from the one empty tuple and, for each
      list `u` in turn, rebuild the tuples by extending every tuple with
      every value of `u`. */
  method OuterProduct(v: seq<seq<int>>) returns (s: seq<seq<int>>)
    ensures s == Product(v)
  {
    s := [[]];
    for i := 0 to |v|
      invariant s == Product(v[..i])
    {
      var u := v[i];
      var r: seq<seq<int>> := [];
      for a := 0 to |s|
        invariant r == Extend(s[..a], u)
      {
        var x := s[a];
        for b := 0 to |u|
          invariant r == Extend(s[..a], u) + Block(x, u[..b])
        {
          r := r + [x + [u[b]]];
          assert u[..b + 1][..b] == u[..b];
        }
        assert u[..|u|] == u;
        assert s[..a + 1][..a] == s[..a];
      }
      assert s[..|s|] == s;
      assert v[..i + 1][..i] == v[..i];
      s := r;
    }
    assert v[..|v|] == v;
  }
}
