/** A kernel signature read by the reference reader, turn by turn: what
    `kerGetArgs` records for it. */
module KernelSamples {
  import opened Outcomes
  import opened Text
  import opened Lexer
  import opened Ranges
  import opened Arguments
  import opened Signatures

  /** One space at `i`. */
  lemma OneSpace(s: string, i: nat)
    requires i + 1 < |s| && s[i] == ' ' && !IsSpace(s[i + 1])
    ensures RunEnd(s, i, IsSpace) == i + 1
  {
  }

  /** A name `w` at `i`, not followed by a name character. */
  lemma NameIs(s: string, i: nat, w: string)
    requires 0 < |w| <= 64 && i + |w| <= |s|
    requires forall k :: 0 <= k < |w| ==> s[i + k] == w[k]
    requires forall k :: 0 <= k < |w| ==> IsIdChar(w[k])
    requires i + |w| == |s| || !IsIdChar(s[i + |w|])
    ensures RunEnd(s, i, IsIdChar) == i + |w| && IdAt(s, i) == w
  {
    assert forall k :: i <= k < i + |w| ==> s[k] == w[k - i];
    RunEndAt(s, i, i + |w|, IsIdChar);
    assert s[i..i + |w|] == w;
  }

  // ---------------------------------------------------------------------------
  // Turns of `kerGetArgs`, whatever the text around them

  /** A turn that goes on leaves the rest of the list to the next turn. */
  lemma GoingFrom(s: string, i: nat, arg: Argument, level: int, args: seq<Argument>,
                  j: nat, arg': Argument, level': int, args': seq<Argument>)
    requires i <= |s| && level >= 0
    requires KernelTurn(s, i, arg, level, args) == Going(j, arg', level', args')
    ensures KernelArgsFrom(s, i, arg, level, args) == KernelArgsFrom(s, j, arg', level', args')
  {
  }

  /** `*` after white space marks a pointer. */
  lemma PtrTurn(s: string, i: nat, a: nat, arg: Argument, level: int, args: seq<Argument>)
    requires i <= a < |s| && level >= 0 && RunEnd(s, i, IsSpace) == a && s[a] == '*'
    ensures KernelTurn(s, i, arg, level, args) == Going(a + 1, arg.(isPtr := true), level, args)
  {
  }

  /** `&` after white space marks a reference. */
  lemma AmpTurn(s: string, i: nat, a: nat, arg: Argument, level: int, args: seq<Argument>)
    requires i <= a < |s| && level >= 0 && RunEnd(s, i, IsSpace) == a && s[a] == '&'
    ensures KernelTurn(s, i, arg, level, args) == Going(a + 1, arg.(isAmp := true), level, args)
  {
  }

  /** The qualifier `const` after white space. */
  lemma ConstTurn(s: string, i: nat, a: nat, arg: Argument, level: int, args: seq<Argument>)
    requires i <= a < |s| && level >= 0 && RunEnd(s, i, IsSpace) == a && !IsKernelMark(s[a])
    requires RunEnd(s, a, IsIdChar) == a + 5 && IdAt(s, a) == "const"
    ensures KernelTurn(s, i, arg, level, args) == Going(a + 5, arg.(isConst := true), level, args)
  {
  }

  /** A type name `w` after white space. */
  lemma TypeTurn(s: string, i: nat, a: nat, w: string, arg: Argument, level: int, args: seq<Argument>)
    requires i <= a < |s| && level >= 0 && RunEnd(s, i, IsSpace) == a && !IsKernelMark(s[a])
    requires RunEnd(s, a, IsIdChar) == a + |w| && IdAt(s, a) == w
    requires IsTypeWord(w) && w != "const" && w != "__restrict"
    ensures KernelTurn(s, i, arg, level, args) == Going(a + |w|, arg.(typeName := w), level, args)
  {
  }

  /** No default value where `,` or `)` comes at once. */
  lemma NoDefault(s: string, j: nat)
    requires j < |s| && (s[j] == ',' || s[j] == ')')
    ensures DefaultAt(s, j) == Found(None, j)
  {
    assert RunEnd(s, j, IsSpace) == j;
    assert !CommentAt(s, j);
  }

  /** A one-letter name is none of the words. */
  lemma ShortNotWord(w: string)
    requires |w| == 1
    ensures !IsWord(w)
  {
  }

  /** The argument's name `w` after white space, then `,` at once: the
      argument is recorded with no default value and the next one begins. */
  lemma CommaTurn(s: string, i: nat, a: nat, w: string, arg: Argument, args: seq<Argument>)
    requires i <= a < |s| && RunEnd(s, i, IsSpace) == a && !IsKernelMark(s[a])
    requires RunEnd(s, a, IsIdChar) == a + |w| && IdAt(s, a) == w && !IsWord(w)
    requires a + |w| < |s| && s[a + |w|] == ','
    ensures KernelTurn(s, i, arg, 0, args) == Going(a + |w| + 1, Blank, 0, args + [arg.(name := w)])
  {
    NoDefault(s, a + |w|);
  }

  /** The argument's name `w` after white space, then `)` at once: the
      argument is recorded and the list ends there. */
  lemma CloseTurn(s: string, i: nat, a: nat, w: string, arg: Argument, args: seq<Argument>)
    requires i <= a < |s| && RunEnd(s, i, IsSpace) == a && !IsKernelMark(s[a])
    requires RunEnd(s, a, IsIdChar) == a + |w| && IdAt(s, a) == w && !IsWord(w)
    requires a + |w| < |s| && s[a + |w|] == ')'
    ensures KernelTurn(s, i, arg, 0, args) == Ended(Found(args + [arg.(name := w)], a + |w|))
  {
    NoDefault(s, a + |w|);
  }

  // ---------------------------------------------------------------------------
  // A kernel

  const KernelSample: string := "(const double a, int &b, const char *c)"

  const SampleA: Argument := Blank.(isConst := true, typeName := "double", name := "a")
  const SampleB: Argument := Blank.(typeName := "int", isAmp := true, name := "b")
  const SampleC: Argument := Blank.(isConst := true, typeName := "char", isPtr := true, name := "c")

  /** `(const double a,` at the start of `s`, of the length of the sample. */
  predicate SpellsA(s: string) {
    |s| == 39 && s[0] == '(' && s[1] == 'c' && s[2] == 'o' && s[3] == 'n' && s[4] == 's' && s[5] == 't'
    && s[6] == ' ' && s[7] == 'd' && s[8] == 'o' && s[9] == 'u' && s[10] == 'b' && s[11] == 'l' && s[12] == 'e'
    && s[13] == ' ' && s[14] == 'a' && s[15] == ','
  }

  /** ` int &b,` after it. */
  predicate SpellsB(s: string) {
    |s| == 39 && s[16] == ' ' && s[17] == 'i' && s[18] == 'n' && s[19] == 't' && s[20] == ' ' && s[21] == '&'
    && s[22] == 'b' && s[23] == ','
  }

  /** ` const char *c)` to the end. */
  predicate SpellsC(s: string) {
    |s| == 39 && s[24] == ' ' && s[25] == 'c' && s[26] == 'o' && s[27] == 'n' && s[28] == 's' && s[29] == 't'
    && s[30] == ' ' && s[31] == 'c' && s[32] == 'h' && s[33] == 'a' && s[34] == 'r' && s[35] == ' ' && s[36] == '*'
    && s[37] == 'c' && s[38] == ')'
  }

  lemma KernelSampleSpelled()
    ensures SpellsA(KernelSample) && SpellsB(KernelSample) && SpellsC(KernelSample)
  {
    SpelledA();
    SpelledB();
    SpelledC();
  }

  // The literal is read six characters at a time: stated at once, its
  // characters cost the solver far more.

  lemma KernelChars0()
    ensures |KernelSample| == 39 && KernelSample[0] == '(' && KernelSample[1] == 'c' && KernelSample[2] == 'o'
      && KernelSample[3] == 'n' && KernelSample[4] == 's' && KernelSample[5] == 't'
  {
  }

  lemma KernelChars1()
    ensures |KernelSample| == 39 && KernelSample[6] == ' ' && KernelSample[7] == 'd' && KernelSample[8] == 'o'
      && KernelSample[9] == 'u' && KernelSample[10] == 'b' && KernelSample[11] == 'l'
  {
  }

  lemma KernelChars2()
    ensures |KernelSample| == 39 && KernelSample[12] == 'e' && KernelSample[13] == ' ' && KernelSample[14] == 'a'
      && KernelSample[15] == ',' && KernelSample[16] == ' ' && KernelSample[17] == 'i'
  {
  }

  lemma KernelChars3()
    ensures |KernelSample| == 39 && KernelSample[18] == 'n' && KernelSample[19] == 't' && KernelSample[20] == ' '
      && KernelSample[21] == '&' && KernelSample[22] == 'b' && KernelSample[23] == ','
  {
  }

  lemma KernelChars4()
    ensures |KernelSample| == 39 && KernelSample[24] == ' ' && KernelSample[25] == 'c' && KernelSample[26] == 'o'
      && KernelSample[27] == 'n' && KernelSample[28] == 's' && KernelSample[29] == 't'
  {
  }

  lemma KernelChars5()
    ensures |KernelSample| == 39 && KernelSample[30] == ' ' && KernelSample[31] == 'c' && KernelSample[32] == 'h'
      && KernelSample[33] == 'a' && KernelSample[34] == 'r' && KernelSample[35] == ' '
  {
  }

  lemma KernelChars6()
    ensures |KernelSample| == 39 && KernelSample[36] == '*' && KernelSample[37] == 'c' && KernelSample[38] == ')'
  {
  }

  lemma SpelledA()
    ensures SpellsA(KernelSample)
  {
    KernelChars0();
    KernelChars1();
    KernelChars2();
  }

  lemma SpelledB()
    ensures SpellsB(KernelSample)
  {
    KernelChars2();
    KernelChars3();
  }

  lemma SpelledC()
    ensures SpellsC(KernelSample)
  {
    KernelChars4();
    KernelChars5();
    KernelChars6();
  }

  // Turn by turn; each step is a lemma of its own.

  lemma ReadsA1(s: string)
    requires SpellsA(s)
    ensures KernelArgsFrom(s, 1, Blank, 0, []) == KernelArgsFrom(s, 6, Blank.(isConst := true), 0, [])
  {
    NameIs(s, 1, "const");
    ConstTurn(s, 1, 1, Blank, 0, []);
    GoingFrom(s, 1, Blank, 0, [], 6, Blank.(isConst := true), 0, []);
  }

  lemma ReadsA2(s: string)
    requires SpellsA(s)
    ensures KernelArgsFrom(s, 6, Blank.(isConst := true), 0, [])
         == KernelArgsFrom(s, 13, SampleA.(name := ""), 0, [])
  {
    OneSpace(s, 6);
    NameIs(s, 7, "double");
    TypeTurn(s, 6, 7, "double", Blank.(isConst := true), 0, []);
    GoingFrom(s, 6, Blank.(isConst := true), 0, [], 13, SampleA.(name := ""), 0, []);
  }

  lemma ReadsA3(s: string)
    requires SpellsA(s)
    ensures KernelArgsFrom(s, 13, SampleA.(name := ""), 0, []) == KernelArgsFrom(s, 16, Blank, 0, [SampleA])
  {
    OneSpace(s, 13);
    NameIs(s, 14, "a");
    ShortNotWord("a");
    CommaTurn(s, 13, 14, "a", SampleA.(name := ""), []);
    assert [] + [SampleA.(name := "").(name := "a")] == [SampleA];
    GoingFrom(s, 13, SampleA.(name := ""), 0, [], 16, Blank, 0, [SampleA]);
  }

  lemma ReadsB1(s: string)
    requires SpellsB(s)
    ensures KernelArgsFrom(s, 16, Blank, 0, [SampleA]) == KernelArgsFrom(s, 20, Blank.(typeName := "int"), 0, [SampleA])
  {
    OneSpace(s, 16);
    NameIs(s, 17, "int");
    TypeTurn(s, 16, 17, "int", Blank, 0, [SampleA]);
    GoingFrom(s, 16, Blank, 0, [SampleA], 20, Blank.(typeName := "int"), 0, [SampleA]);
  }

  lemma ReadsB2(s: string)
    requires SpellsB(s)
    ensures KernelArgsFrom(s, 20, Blank.(typeName := "int"), 0, [SampleA])
         == KernelArgsFrom(s, 22, SampleB.(name := ""), 0, [SampleA])
  {
    OneSpace(s, 20);
    AmpTurn(s, 20, 21, Blank.(typeName := "int"), 0, [SampleA]);
    GoingFrom(s, 20, Blank.(typeName := "int"), 0, [SampleA], 22, SampleB.(name := ""), 0, [SampleA]);
  }

  lemma ReadsB3(s: string)
    requires SpellsB(s)
    ensures KernelArgsFrom(s, 22, SampleB.(name := ""), 0, [SampleA])
         == KernelArgsFrom(s, 24, Blank, 0, [SampleA, SampleB])
  {
    NameIs(s, 22, "b");
    ShortNotWord("b");
    CommaTurn(s, 22, 22, "b", SampleB.(name := ""), [SampleA]);
    assert [SampleA] + [SampleB.(name := "").(name := "b")] == [SampleA, SampleB];
    GoingFrom(s, 22, SampleB.(name := ""), 0, [SampleA], 24, Blank, 0, [SampleA, SampleB]);
  }

  lemma ReadsC1(s: string)
    requires SpellsC(s)
    ensures KernelArgsFrom(s, 24, Blank, 0, [SampleA, SampleB])
         == KernelArgsFrom(s, 30, Blank.(isConst := true), 0, [SampleA, SampleB])
  {
    OneSpace(s, 24);
    NameIs(s, 25, "const");
    ConstTurn(s, 24, 25, Blank, 0, [SampleA, SampleB]);
    GoingFrom(s, 24, Blank, 0, [SampleA, SampleB], 30, Blank.(isConst := true), 0, [SampleA, SampleB]);
  }

  lemma ReadsC2(s: string)
    requires SpellsC(s)
    ensures KernelArgsFrom(s, 30, Blank.(isConst := true), 0, [SampleA, SampleB])
         == KernelArgsFrom(s, 35, Blank.(isConst := true, typeName := "char"), 0, [SampleA, SampleB])
  {
    OneSpace(s, 30);
    NameIs(s, 31, "char");
    TypeTurn(s, 30, 31, "char", Blank.(isConst := true), 0, [SampleA, SampleB]);
    GoingFrom(s, 30, Blank.(isConst := true), 0, [SampleA, SampleB],
              35, Blank.(isConst := true, typeName := "char"), 0, [SampleA, SampleB]);
  }

  lemma ReadsC3(s: string)
    requires SpellsC(s)
    ensures KernelArgsFrom(s, 35, Blank.(isConst := true, typeName := "char"), 0, [SampleA, SampleB])
         == KernelArgsFrom(s, 37, SampleC.(name := ""), 0, [SampleA, SampleB])
  {
    OneSpace(s, 35);
    PtrTurn(s, 35, 36, Blank.(isConst := true, typeName := "char"), 0, [SampleA, SampleB]);
    GoingFrom(s, 35, Blank.(isConst := true, typeName := "char"), 0, [SampleA, SampleB],
              37, SampleC.(name := ""), 0, [SampleA, SampleB]);
  }

  lemma ReadsC4(s: string)
    requires SpellsC(s)
    ensures KernelArgsFrom(s, 37, SampleC.(name := ""), 0, [SampleA, SampleB]) == Found([SampleA, SampleB, SampleC], 38)
  {
    NameIs(s, 37, "c");
    ShortNotWord("c");
    CloseTurn(s, 37, 37, "c", SampleC.(name := ""), [SampleA, SampleB]);
    assert [SampleA, SampleB] + [SampleC.(name := "").(name := "c")] == [SampleA, SampleB, SampleC];
  }

  /** The list is not `void`: the loop begins at once. */
  lemma ListStart(s: string)
    requires SpellsA(s)
    ensures KernelArgList(s, 1) == KernelArgsFrom(s, 1, Blank, 0, [])
  {
    assert RunEnd(s, 1, IsSpace) == 1;
    assert s[1..5][0] == 'c';
  }

  /** The arguments of any text spelled like the sample. */
  lemma KernelSampleRead(s: string)
    requires SpellsA(s) && SpellsB(s) && SpellsC(s)
    ensures KernelArgList(s, 1) == Found([SampleA, SampleB, SampleC], 38)
  {
    ReadsA1(s); ReadsA2(s); ReadsA3(s);
    ReadsB1(s); ReadsB2(s); ReadsB3(s);
    ReadsC1(s); ReadsC2(s); ReadsC3(s); ReadsC4(s);
    ListStart(s);
  }

  /** `kerGetArgs` on `(const double a, int &b, const char *c)` records
      three arguments and stops at the closing parenthesis: `a` a constant
      `double`, which is dispatched on; `b` an `int` reference that is not
      constant; `c` a pointer to constant `char`. */
  lemma KernelSampleArguments()
    ensures KernelArgList(KernelSample, 1) == Found([SampleA, SampleB, SampleC], 38)
    ensures var r := KernelArgList(KernelSample, 1).value;
      && IsDispatch(r[0]) && IsDouble(r[0]) && r[0].name == "a"
      && r[1].isAmp && !r[1].isConst && r[1].typeName == "int" && r[1].name == "b"
      && r[2].isPtr && r[2].isConst && r[2].typeName == "char" && r[2].name == "c"
  {
    KernelSampleSpelled();
    KernelSampleRead(KernelSample);
  }
}
