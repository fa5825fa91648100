/** A template signature read by the reference reader, turn by turn:
    what `templateGetArgs` records for it. */
module TemplateSamples {
  import opened Outcomes
  import opened Text
  import opened Lexer
  import opened Ranges
  import opened Arguments
  import opened Signatures
  import opened KernelSamples

  // ---------------------------------------------------------------------------
  // Turns of `templateGetArgs`, whatever the text around them

  /** Nothing to skip at `b`. */
  lemma Bare(s: string, b: nat)
    requires b < |s| && !IsSpace(s[b]) && s[b] != '/'
    ensures RunEnd(s, CommentEnd(s, RunEnd(s, b, IsSpace)), IsSpace) == b
  {
    assert RunEnd(s, b, IsSpace) == b;
  }

  /** One space to skip at `i`. */
  lemma Spaced(s: string, i: nat)
    requires i + 1 < |s| && s[i] == ' ' && !IsSpace(s[i + 1]) && s[i + 1] != '/'
    ensures RunEnd(s, CommentEnd(s, RunEnd(s, i, IsSpace)), IsSpace) == i + 1
  {
    OneSpace(s, i);
    Bare(s, i + 1);
  }

  /** A turn that goes on leaves the rest of the argument to the next
      turn. */
  lemma AgainFrom(s: string, i: nat, arg: Argument, j: nat, arg': Argument)
    requires i <= |s| && (arg.isTpl ==> arg.range != [])
    requires TemplateTurn(s, i, arg) == Again(j, arg')
    ensures TemplateArgumentAt(s, i, arg) == TemplateArgumentAt(s, j, arg')
  {
  }

  /** A turn that goes on leaves the rest of the list to the next turn. */
  lemma ListingFrom(s: string, i: nat, plain: seq<Argument>, ranged: seq<Argument>,
                    j: nat, plain': seq<Argument>, ranged': seq<Argument>)
    requires i <= |s|
    requires TemplateListTurn(s, i, 0, plain, ranged) == Listing(j, 0, plain', ranged')
    ensures TemplateArgsFrom(s, i, 0, plain, ranged) == TemplateArgsFrom(s, j, 0, plain', ranged')
  {
  }

  /** `*` marks a pointer. */
  lemma StarTurn(s: string, i: nat, b: nat, arg: Argument)
    requires i <= b < |s| && RunEnd(s, CommentEnd(s, RunEnd(s, i, IsSpace)), IsSpace) == b && s[b] == '*'
    requires arg.isTpl ==> arg.range != []
    ensures TemplateTurn(s, i, arg) == Again(b + 1, arg.(isPtr := true))
  {
  }

  /** A name at `b`, not after punctuation. */
  predicate WordAt(s: string, i: nat, b: nat)
    requires i <= |s|
  {
    i <= b < |s| && RunEnd(s, CommentEnd(s, RunEnd(s, i, IsSpace)), IsSpace) == b
    && s[b] != '*' && s[b] != ',' && !IsSpace(s[b]) && s[b] != '/'
  }

  /** A type name `w`. */
  lemma TypeNameTurn(s: string, i: nat, b: nat, w: string, arg: Argument)
    requires i <= |s| && WordAt(s, i, b) && RunEnd(s, b, IsIdChar) == b + |w| && IdAt(s, b) == w
    requires w in TypeNames && w != "MFEM_RANGE" && w != "const"
    requires arg.isTpl ==> arg.range != []
    ensures TemplateTurn(s, i, arg) == Again(b + |w|, arg.(typeName := w))
  {
    Bare(s, b);
  }

  /** `MFEM_RANGE` and its list of values. */
  lemma RangeTurn(s: string, i: nat, b: nat, vs: seq<int>, j: nat, arg: Argument)
    requires i <= |s| && WordAt(s, i, b) && RunEnd(s, b, IsIdChar) == b + 10 && IdAt(s, b) == "MFEM_RANGE"
    requires RangeList(s, b + 10, arg.range) == Done(vs, j)
    requires arg.isTpl ==> arg.range != []
    ensures TemplateTurn(s, i, arg) == Again(j, arg.(range := vs, isTpl := true))
  {
    Bare(s, b);
  }

  /** Any other name `w` is the argument's, which ends there. */
  lemma ArgNameTurn(s: string, i: nat, b: nat, w: string, arg: Argument)
    requires i <= |s| && WordAt(s, i, b) && RunEnd(s, b, IsIdChar) == b + |w| && IdAt(s, b) == w
    requires w !in TypeNames && w != "MFEM_RANGE" && w != "const"
    requires arg.isTpl ==> arg.range != []
    ensures TemplateArgumentAt(s, i, arg) == Found(arg.(name := w), b + |w|)
  {
    Bare(s, b);
    assert TemplateTurn(s, i, arg) == Over(Found(arg.(name := w), b + |w|));
  }

  /** A runtime argument, then `,`. */
  lemma PlainComma(s: string, i: nat, a: Argument, e: nat, plain: seq<Argument>, ranged: seq<Argument>)
    requires i <= |s| && TemplateArgumentAt(s, i, Blank) == Found(a, e) && !a.isTpl && e < |s| && s[e] == ','
    ensures TemplateListTurn(s, i, 0, plain, ranged) == Listing(e + 1, 0, plain + [a], ranged)
  {
    assert RunEnd(s, e, IsSpace) == e;
  }

  /** A ranged argument, then `,`. */
  lemma RangedComma(s: string, i: nat, a: Argument, e: nat, plain: seq<Argument>, ranged: seq<Argument>)
    requires i <= |s| && TemplateArgumentAt(s, i, Blank) == Found(a, e) && a.isTpl && e < |s| && s[e] == ','
    ensures TemplateListTurn(s, i, 0, plain, ranged) == Listing(e + 1, 0, plain, ranged + [a])
  {
    assert RunEnd(s, e, IsSpace) == e;
  }

  /** A runtime argument, then the `)` that closes the list. */
  lemma PlainClose(s: string, i: nat, a: Argument, e: nat, plain: seq<Argument>, ranged: seq<Argument>)
    requires i <= |s| && TemplateArgumentAt(s, i, Blank) == Found(a, e) && !a.isTpl && e < |s| && s[e] == ')'
    ensures TemplateArgsFrom(s, i, 0, plain, ranged) == Found((plain + [a], ranged), e)
  {
    assert TemplateListTurn(s, i, 0, plain, ranged) == Listed(Found((plain + [a], ranged), e));
  }

  // ---------------------------------------------------------------------------
  // A template

  const TemplateSample: string := "(int n, MFEM_RANGE(2,3) int D, double *x)"

  const SampleN: Argument := Blank.(typeName := "int", name := "n")
  const SampleD: Argument := Blank.(range := [2, 3], isTpl := true, typeName := "int", name := "D")
  const SampleX: Argument := Blank.(typeName := "double", isPtr := true, name := "x")

  /** `(int n,` at the start of `s`, of the length of the sample. */
  predicate SpellsN(s: string) {
    |s| == 41 && s[0] == '(' && s[1] == 'i' && s[2] == 'n' && s[3] == 't' && s[4] == ' ' && s[5] == 'n' && s[6] == ','
  }

  /** ` MFEM_RANGE(2,3) int D,` after it. */
  predicate SpellsD(s: string) {
    |s| == 41 && s[7] == ' ' && s[8] == 'M' && s[9] == 'F' && s[10] == 'E' && s[11] == 'M' && s[12] == '_'
    && s[13] == 'R' && s[14] == 'A' && s[15] == 'N' && s[16] == 'G' && s[17] == 'E' && s[18] == '('
    && s[19] == '2' && s[20] == ',' && s[21] == '3' && s[22] == ')' && s[23] == ' ' && s[24] == 'i'
    && s[25] == 'n' && s[26] == 't' && s[27] == ' ' && s[28] == 'D' && s[29] == ','
  }

  /** ` double *x)` to the end. */
  predicate SpellsX(s: string) {
    |s| == 41 && s[30] == ' ' && s[31] == 'd' && s[32] == 'o' && s[33] == 'u' && s[34] == 'b' && s[35] == 'l'
    && s[36] == 'e' && s[37] == ' ' && s[38] == '*' && s[39] == 'x' && s[40] == ')'
  }

  lemma TemplateSampleSpelled()
    ensures SpellsN(TemplateSample) && SpellsD(TemplateSample) && SpellsX(TemplateSample)
  {
    SpelledN();
    SpelledD();
    SpelledX();
  }

  // The literal is read six characters at a time: stated at once, its
  // characters cost the solver far more.

  lemma TemplateChars0()
    ensures |TemplateSample| == 41 && TemplateSample[0] == '(' && TemplateSample[1] == 'i' && TemplateSample[2] == 'n'
      && TemplateSample[3] == 't' && TemplateSample[4] == ' ' && TemplateSample[5] == 'n'
  {
  }

  lemma TemplateChars1()
    ensures |TemplateSample| == 41 && TemplateSample[6] == ',' && TemplateSample[7] == ' ' && TemplateSample[8] == 'M'
      && TemplateSample[9] == 'F' && TemplateSample[10] == 'E' && TemplateSample[11] == 'M'
  {
  }

  lemma TemplateChars2()
    ensures |TemplateSample| == 41 && TemplateSample[12] == '_' && TemplateSample[13] == 'R' && TemplateSample[14] == 'A'
      && TemplateSample[15] == 'N' && TemplateSample[16] == 'G' && TemplateSample[17] == 'E'
  {
  }

  lemma TemplateChars3()
    ensures |TemplateSample| == 41 && TemplateSample[18] == '(' && TemplateSample[19] == '2' && TemplateSample[20] == ','
      && TemplateSample[21] == '3' && TemplateSample[22] == ')' && TemplateSample[23] == ' '
  {
  }

  lemma TemplateChars4()
    ensures |TemplateSample| == 41 && TemplateSample[24] == 'i' && TemplateSample[25] == 'n' && TemplateSample[26] == 't'
      && TemplateSample[27] == ' ' && TemplateSample[28] == 'D' && TemplateSample[29] == ','
  {
  }

  lemma TemplateChars5()
    ensures |TemplateSample| == 41 && TemplateSample[30] == ' ' && TemplateSample[31] == 'd' && TemplateSample[32] == 'o'
      && TemplateSample[33] == 'u' && TemplateSample[34] == 'b' && TemplateSample[35] == 'l'
  {
  }

  lemma TemplateChars6()
    ensures |TemplateSample| == 41 && TemplateSample[36] == 'e' && TemplateSample[37] == ' ' && TemplateSample[38] == '*'
      && TemplateSample[39] == 'x' && TemplateSample[40] == ')'
  {
  }

  lemma SpelledN()
    ensures SpellsN(TemplateSample)
  {
    TemplateChars0();
    TemplateChars1();
  }

  lemma SpelledD()
    ensures SpellsD(TemplateSample)
  {
    TemplateChars1();
    TemplateChars2();
    TemplateChars3();
    TemplateChars4();
  }

  lemma SpelledX()
    ensures SpellsX(TemplateSample)
  {
    TemplateChars5();
    TemplateChars6();
  }

  lemma ReadsN1(s: string)
    requires SpellsN(s)
    ensures TemplateArgumentAt(s, 1, Blank) == TemplateArgumentAt(s, 4, Blank.(typeName := "int"))
  {
    Bare(s, 1);
    NameIs(s, 1, "int");
    TypeNameTurn(s, 1, 1, "int", Blank);
    AgainFrom(s, 1, Blank, 4, Blank.(typeName := "int"));
  }

  lemma ReadsN2(s: string)
    requires SpellsN(s)
    ensures TemplateArgumentAt(s, 4, Blank.(typeName := "int")) == Found(SampleN, 6)
  {
    Spaced(s, 4);
    NameIs(s, 5, "n");
    ShortNotWord("n");
    ArgNameTurn(s, 4, 5, "n", Blank.(typeName := "int"));
  }

  lemma ReadsN(s: string)
    requires SpellsN(s)
    ensures TemplateArgsFrom(s, 1, 0, [], []) == TemplateArgsFrom(s, 7, 0, [SampleN], [])
  {
    ReadsN1(s);
    ReadsN2(s);
    PlainComma(s, 1, SampleN, 6, [], []);
    assert [] + [SampleN] == [SampleN];
    ListingFrom(s, 1, [], [], 7, [SampleN], []);
  }

  /** `MFEM_RANGE(2,3)` lists the values 2 and 3. */
  lemma RangeOfD(s: string)
    requires SpellsD(s)
    ensures RangeList(s, 18, []) == Done([2, 3], 23)
  {
    assert DecimalString(2) == "2" && DecimalString(3) == "3";
    assert s[19..20] == "2" && s[21..22] == "3";
    ItemComma(s, 19, 20, false, [], 2);
    ItemClose(s, 21, 22, false, [2], 3);
  }

  lemma ReadsD1(s: string)
    requires SpellsD(s)
    ensures TemplateArgumentAt(s, 7, Blank) == TemplateArgumentAt(s, 23, Blank.(range := [2, 3], isTpl := true))
  {
    Spaced(s, 7);
    NameIs(s, 8, "MFEM_RANGE");
    RangeOfD(s);
    RangeTurn(s, 7, 8, [2, 3], 23, Blank);
    AgainFrom(s, 7, Blank, 23, Blank.(range := [2, 3], isTpl := true));
  }

  lemma ReadsD2(s: string)
    requires SpellsD(s)
    ensures TemplateArgumentAt(s, 23, Blank.(range := [2, 3], isTpl := true)) == TemplateArgumentAt(s, 27, SampleD.(name := ""))
  {
    Spaced(s, 23);
    NameIs(s, 24, "int");
    TypeNameTurn(s, 23, 24, "int", Blank.(range := [2, 3], isTpl := true));
    AgainFrom(s, 23, Blank.(range := [2, 3], isTpl := true), 27, SampleD.(name := ""));
  }

  lemma ReadsD3(s: string)
    requires SpellsD(s)
    ensures TemplateArgumentAt(s, 27, SampleD.(name := "")) == Found(SampleD, 29)
  {
    Spaced(s, 27);
    NameIs(s, 28, "D");
    ShortNotWord("D");
    ArgNameTurn(s, 27, 28, "D", SampleD.(name := ""));
  }

  lemma ReadsD(s: string)
    requires SpellsD(s)
    ensures TemplateArgsFrom(s, 7, 0, [SampleN], []) == TemplateArgsFrom(s, 30, 0, [SampleN], [SampleD])
  {
    ReadsD1(s);
    ReadsD2(s);
    ReadsD3(s);
    RangedComma(s, 7, SampleD, 29, [SampleN], []);
    assert [] + [SampleD] == [SampleD];
    ListingFrom(s, 7, [SampleN], [], 30, [SampleN], [SampleD]);
  }

  lemma ReadsX1(s: string)
    requires SpellsX(s)
    ensures TemplateArgumentAt(s, 30, Blank) == TemplateArgumentAt(s, 37, Blank.(typeName := "double"))
  {
    Spaced(s, 30);
    NameIs(s, 31, "double");
    TypeNameTurn(s, 30, 31, "double", Blank);
    AgainFrom(s, 30, Blank, 37, Blank.(typeName := "double"));
  }

  lemma ReadsX2(s: string)
    requires SpellsX(s)
    ensures TemplateArgumentAt(s, 37, Blank.(typeName := "double")) == TemplateArgumentAt(s, 39, SampleX.(name := ""))
  {
    Spaced(s, 37);
    StarTurn(s, 37, 38, Blank.(typeName := "double"));
    AgainFrom(s, 37, Blank.(typeName := "double"), 39, SampleX.(name := ""));
  }

  lemma ReadsX3(s: string)
    requires SpellsX(s)
    ensures TemplateArgumentAt(s, 39, SampleX.(name := "")) == Found(SampleX, 40)
  {
    Bare(s, 39);
    NameIs(s, 39, "x");
    ShortNotWord("x");
    ArgNameTurn(s, 39, 39, "x", SampleX.(name := ""));
  }

  lemma ReadsX(s: string)
    requires SpellsX(s)
    ensures TemplateArgsFrom(s, 30, 0, [SampleN], [SampleD]) == Found(([SampleN, SampleX], [SampleD]), 40)
  {
    ReadsX1(s);
    ReadsX2(s);
    ReadsX3(s);
    PlainClose(s, 30, SampleX, 40, [SampleN], [SampleD]);
    assert [SampleN] + [SampleX] == [SampleN, SampleX];
  }

  /** The list is not `void`: the loop begins at once. */
  lemma TemplateListStart(s: string)
    requires SpellsN(s)
    ensures TemplateList(s, 1) == TemplateArgsFrom(s, 1, 0, [], [])
  {
    assert RunEnd(s, 1, IsSpace) == 1;
    assert s[1..5][0] == 'i';
  }

  /** The arguments of any text spelled like the sample. */
  lemma TemplateSampleRead(s: string)
    requires SpellsN(s) && SpellsD(s) && SpellsX(s)
    ensures TemplateList(s, 1) == Found(([SampleN, SampleX], [SampleD]), 40)
  {
    TemplateListStart(s);
    ReadsN(s);
    ReadsD(s);
    ReadsX(s);
  }

  /** `templateGetArgs` on `(int n, MFEM_RANGE(2,3) int D, double *x)`
      keeps `n` and `x` as runtime arguments, in order, and `D` as the one
      ranged argument, whose range is the list `MFEM_RANGE(2,3)` spells. */
  lemma TemplateSampleArguments()
    ensures TemplateList(TemplateSample, 1) == Found(([SampleN, SampleX], [SampleD]), 40)
    ensures RangeList(TemplateSample, 18, []) == Done(SampleD.range, 23)
    ensures var (plain, ranged) := TemplateList(TemplateSample, 1).value;
      && |plain| == 2 && plain[0].name == "n" && plain[1].name == "x" && plain[1].isPtr
      && (forall a <- plain :: !a.isTpl && a.range == [])
      && |ranged| == 1 && ranged[0].name == "D" && ranged[0].isTpl && ranged[0].range == [2, 3]
  {
    TemplateSampleSpelled();
    TemplateSampleRead(TemplateSample);
    RangeOfD(TemplateSample);
  }
}
