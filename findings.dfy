/** Five places where `general/mpp.cpp` does not do what it evidently
    means to, each modelled as written next to the corrected behaviour that
    the rest of the model (module `Preprocessor`) follows.

    The first two are loops that read with `get` until some character comes.
    At the end of the input `get` answers `EOF`, which `char` turns into the
    byte 0xFF, and `peek` keeps answering `EOF`.  So a loop that waits for a
    character the input does not hold never ends, writing 0xFF every round.
    The third is the `std::hex` left on the output stream by the launcher
    table.  The last two are kernel state that one `MFEM_KERNEL` leaves to
    the next: the kernel strings after a `void` list, and the single-source
    flag. */
module Findings {
  import opened Text
  import opened Ranges
  import opened Arguments

  /** `static_cast<char>(EOF)`. */
  const EofChar: char := 0xFF as char

  /** A loop run for at most a number of rounds: stopped where it stopped,
      or still running; with what it wrote. */
  datatype Walk = Stopped(at: nat, wrote: string) | Running(at: nat, wrote: string)

  // ---------------------------------------------------------------------------
  // singleLineComments (general/mpp.cpp:211-214)

  /** `singleLineComments` as written, for at most `n` rounds from `i`:
      while the peeked character is not a newline, `put(pp)`; at the end of
      the input the peek is `EOF`, no newline. */
  function LineCommentAsWritten(s: string, i: nat, n: nat): (w: Walk)
    requires i <= |s|
    ensures i <= w.at <= |s|
    decreases n
  {
    if i < |s| && s[i] == '\n' then Stopped(i, [])
    else if n == 0 then Running(i, [])
    else
      var c := if i < |s| then s[i] else EofChar;
      var w := LineCommentAsWritten(s, if i < |s| then i + 1 else i, n - 1);
      w.(wrote := [c] + w.wrote)
  }

  /** A line comment that the input ends inside never stops: after any
      number of rounds the loop still runs, one character written per round. */
  lemma {:induction false} LineCommentAtEndLoops(s: string, i: nat, n: nat)
    requires i <= |s| && forall k :: i <= k < |s| ==> s[k] != '\n'
    ensures LineCommentAsWritten(s, i, n).Running? && |LineCommentAsWritten(s, i, n).wrote| == n
    decreases n
  {
    if n > 0 {
      LineCommentAtEndLoops(s, if i < |s| then i + 1 else i, n - 1);
    }
  }

  /** The smallest such input: a comment `//` that ends the file. */
  lemma LineCommentAtEndExample()
    ensures LineCommentAsWritten("//", 2, 3) == Running(2, [EofChar, EofChar, EofChar])
  {
  }

  /** When a newline follows, the loop as written stops before it, having
      copied the comment: what `Preprocessor.Context.SingleLineComments`
      does in every case. */
  lemma {:induction false} LineCommentAgrees(s: string, i: nat, n: nat)
    requires i <= |s| && RunEnd(s, i, IsNotNewline) < |s| && RunEnd(s, i, IsNotNewline) - i <= n
    ensures LineCommentAsWritten(s, i, n) == Stopped(RunEnd(s, i, IsNotNewline), s[i..RunEnd(s, i, IsNotNewline)])
    decreases n
  {
    RunEndMaximal(s, i, IsNotNewline);
    var e := RunEnd(s, i, IsNotNewline);
    if i < e {
      RunEndIdempotent(s, i, IsNotNewline);
      RunEndAt(s, i + 1, e, IsNotNewline);
      LineCommentAgrees(s, i + 1, n - 1);
      assert [s[i]] + s[i + 1..e] == s[i..e];
    }
  }

  // ---------------------------------------------------------------------------
  // __embed (general/mpp.cpp:825-832)

  /** The loop of `__embed` as written, for at most `n` rounds from `i`:
      `put(pp)` until the character put is `{`. */
  function EmbedAsWritten(s: string, i: nat, n: nat): (w: Walk)
    requires i <= |s|
    ensures i <= w.at <= |s|
    decreases n
  {
    if n == 0 then Running(i, [])
    else
      var c := if i < |s| then s[i] else EofChar;
      var j := if i < |s| then i + 1 else i;
      if c == '{' then Stopped(j, [c])
      else
        var w := EmbedAsWritten(s, j, n - 1);
        w.(wrote := [c] + w.wrote)
  }

  /** `MFEM_EMBED` with no `{` after it never stops. */
  lemma {:induction false} EmbedWithoutBraceLoops(s: string, i: nat, n: nat)
    requires i <= |s| && forall k :: i <= k < |s| ==> s[k] != '{'
    ensures EmbedAsWritten(s, i, n).Running? && |EmbedAsWritten(s, i, n).wrote| == n
    decreases n
  {
    if n > 0 {
      EmbedWithoutBraceLoops(s, if i < |s| then i + 1 else i, n - 1);
    }
  }

  lemma EmbedWithoutBraceExample()
    ensures EmbedAsWritten(" x", 0, 4) == Running(2, [' ', 'x', EofChar, EofChar])
  {
  }

  /** With a `{` at `e` and none before it, the loop as written copies up
      to and including it: what `Preprocessor.Context.Embed` does when it
      succeeds; without one, `Embed` fails instead. */
  lemma {:induction false} EmbedAgrees(s: string, i: nat, e: nat, n: nat)
    requires i <= e < |s| && s[e] == '{' && (forall k :: i <= k < e ==> s[k] != '{') && e - i < n
    ensures EmbedAsWritten(s, i, n) == Stopped(e + 1, s[i..e + 1])
    decreases n
  {
    if i < e {
      EmbedAgrees(s, i + 1, e, n - 1);
      assert [s[i]] + s[i + 1..e + 1] == s[i..e + 1];
    }
  }

  // ---------------------------------------------------------------------------
  // Sticky std::hex (general/mpp.cpp:1055 and 722)

  /** Whether `pp.out` writes integers in hexadecimal after a launcher
      table: every entry writes its key with `std::hex`, and nothing ever
      sets the base back. */
  function HexAfterTable(hex: bool, combos: seq<seq<int>>): bool {
    hex || combos != []
  }

  /** `pp.out << arg.default_value` as written: in the current base. */
  function DefaultTextAsWritten(hex: bool, v: nat): string {
    if hex then HexString(v) else DecimalString(v)
  }

  lemma {:induction false} SizeProductPositive(v: seq<seq<int>>)
    requires forall k :: 0 <= k < |v| ==> v[k] != []
    ensures SizeProduct(v) > 0
  {
    if v != [] {
      SizeProductPositive(v[..|v| - 1]);
    }
  }

  /** Every `MFEM_TEMPLATE` launcher leaves the output in hexadecimal: its
      ranged arguments all have values, so its table is never empty. */
  lemma TableLeavesHex(ranges: seq<seq<int>>)
    requires forall k :: 0 <= k < |ranges| ==> ranges[k] != []
    ensures HexAfterTable(false, Product(ranges))
  {
    SizeProductPositive(ranges);
    ProductSize(ranges);
  }

  /** A default value of 10 in an `MFEM_KERNEL` after a template is written
      `a`, which is not the number 10 but a name; values below 10 happen to
      come out right. */
  lemma StickyHexDefault()
    ensures DefaultTextAsWritten(HexAfterTable(false, Product([[1]])), 10) == "a"
    ensures DecimalString(10) == "10"
    ensures forall v: nat :: v < 10 ==> DefaultTextAsWritten(true, v) == DefaultTextAsWritten(false, v)
  {
    TableLeavesHex([[1]]);
    assert DecimalString(10) == DecimalString(1) + [DigitChar(0)];
  }

  // ---------------------------------------------------------------------------
  // Strings left by the kernel before (general/mpp.cpp:657-661 and 734)

  /** The kernel strings after an `MFEM_KERNEL` signature whose list is
      `args`, as written: a `void` list (no arguments) makes `kerGetArgs`
      return before it calls `kerArgs`, so the strings stay what the kernel
      before left. */
  function StringsAsWritten(before: Derived, args: seq<Argument>, singleSource: bool, tparamsSrc: string)
    : (d: Derived)
    ensures args == [] ==> d == before
    ensures args != [] ==> d == Derive(args, singleSource, tparamsSrc)
  {
    if args == [] then before else Derive(args, singleSource, tparamsSrc)
  }

  /** A runtime argument `int n`. */
  const RuntimeN: Argument := Blank.(typeName := "int", name := "n")

  lemma RuntimeNArgs()
    ensures Derive([RuntimeN], false, "").args == "n"
  {
    assert [RuntimeN][..0] == [];
    assert Collect([RuntimeN], ArgsEntry) == ["n"];
    assert ["n"][..0] == [];
  }

  /** `MFEM_KERNEL void f(int n)` and then `MFEM_KERNEL void g(void)`: as
      written, the launcher of `g` passes `n`, the argument of `f`; rebuilt
      from the list of `g` itself, as `Preprocessor.Context.KernelSignature`
      does, it passes nothing. */
  lemma VoidKernelKeepsStrings()
    ensures var first := StringsAsWritten(Cleared, [RuntimeN], false, "");
      && StringsAsWritten(first, [], false, "").args == "n"
      && Derive([], false, "").args == ""
  {
    RuntimeNArgs();
  }

  // ---------------------------------------------------------------------------
  // Sticky __single_source (general/mpp.cpp:781 and 1102)

  /** `__single_source` after an `MFEM_KERNEL` declaration, as written: set
      when the head says `template`, cleared only when `preprocess` starts. */
  function SingleSourceAsWritten(before: bool, isTemplate: bool): (on: bool)
    ensures on <==> before || isTemplate
  {
    before || isTemplate
  }

  /** `MFEM_KERNEL template<int P> void f(...)` and then
      `MFEM_KERNEL void g(int n)`: as written, `g` is still single-source
      and its `Tparams` carry the parameter `int P` of `f`; from the head
      of `g` itself, as `Preprocessor.Context.KernelSignature` reads it,
      they are empty. */
  lemma StickySingleSource()
    ensures SingleSourceAsWritten(SingleSourceAsWritten(false, true), false)
    ensures Derive([RuntimeN], SingleSourceAsWritten(true, false), "int P").tparams == "int P"
    ensures Derive([RuntimeN], false, "int P").tparams == ""
  {
    assert [RuntimeN][..0] == [];
    assert Collect([RuntimeN], TparamsEntry) == [];
  }
}
