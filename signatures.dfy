/** Reference readers of the argument lists of kernel signatures: what
    `kerGetArgs` (general/mpp.cpp:650-736) and `templateGetArgs`
    (general/mpp.cpp:881-960) record for a given input and where they stop,
    as functions of the text from the index just after the opening
    parenthesis.  `Preprocessor.Context` reads the same lists step by step,
    copying and writing as it goes, and is proved to record what these
    functions say. */
module Signatures {
  import opened Outcomes
  import opened Text
  import opened Lexer
  import opened Ranges
  import opened Arguments

  const NoComaMsg: string := "no coma while in args"
  const NoOpenAngleMsg: string := "no '<' while in get_array_type"
  const NoArrayTypeMsg: string := "no type found while in get_array_type"
  const NoCloseAngleMsg: string := "no '>' while in get_array_type"
  const NoKeywordMsg: string := "kernel w/o void, static or template"
  const NoSingleAngleMsg: string := "no '<' in single source kernel!"
  const NoFirstParenMsg: string := "no 1st '(' in kernel"
  const NoLastParenMsg: string := "no last ')' in kernel"
  const NoBodyMsg: string := "no compound statement found"
  const NoTemplateKeywordMsg: string := "template w/o void or static"

  /** Outcome of reading part of a signature from some index: the value read
      with the index where reading stopped, a syntax error (the message
      `check` throws), or the input ending where the source asserts that it
      does not. */
  datatype Scan<T> = Found(value: T, end: nat) | Refused(msg: string) | Cut

  // ---------------------------------------------------------------------------
  // Pieces of a kernel argument

  /** `get_array_type` from `i`: `<`, a type name and `>`, each after white
      space.  Answers the type name between its brackets. */
  function ArrayTypeAt(s: string, i: nat): (r: Scan<string>)
    requires i <= |s|
    ensures r.Found? ==> i < r.end <= |s|
    ensures !r.Cut?
  {
    var a := RunEnd(s, i, IsSpace);
    if !(a < |s| && s[a] == '<') then Refused(NoOpenAngleMsg)
    else
      var b := RunEnd(s, a + 1, IsSpace);
      if !(b < |s| && IsIdChar(s[b])) then Refused(NoArrayTypeMsg)
      else
        var e := RunEnd(s, b, IsIdChar);
        var c := RunEnd(s, e, IsSpace);
        if !(c < |s| && s[c] == '>') then Refused(NoCloseAngleMsg)
        else Found("<" + s[b..e] + ">", c + 1)
  }

  /** After an argument's name at `i`: white space and a comment, then an
      optional `=` followed by digits.  Answers the value, if any, and where
      reading stopped (at the separator when there is no value). */
  function DefaultAt(s: string, i: nat): (r: Scan<Option<nat>>)
    requires i <= |s|
    ensures r.Found? ==> i <= r.end <= |s|
    ensures r.Refused? ==> r.msg == UnknownNumberMsg
    ensures !r.Cut?
  {
    var a := RunEnd(s, CommentEnd(s, RunEnd(s, i, IsSpace)), IsSpace);
    if !(a < |s| && s[a] == '=') then Found(None, a)
    else
      var b := CommentEnd(s, RunEnd(s, a + 1, IsSpace));
      if !(b < |s| && IsDigitChar(s[b])) then Refused(UnknownNumberMsg)
      else
        var e := RunEnd(s, b, IsDigitChar);
        RunEndMaximal(s, b, IsDigitChar);
        Found(Some(DigitsValue(s[b..e])), e)
  }

  /** The default value read when `=` at `a` is followed, after white
      space and a comment, by a digit at `b`. */
  lemma DefaultValueAt(s: string, i: nat, a: nat, b: nat)
    requires i <= |s| && a == RunEnd(s, CommentEnd(s, RunEnd(s, i, IsSpace)), IsSpace)
    requires a < |s| && s[a] == '=' && b == CommentEnd(s, RunEnd(s, a + 1, IsSpace))
    requires b < |s| && IsDigitChar(s[b])
    ensures var e := RunEnd(s, b, IsDigitChar);
      (forall k :: b <= k < e ==> IsDigitChar(s[k]))
      && DefaultAt(s, i) == Found(Some(DigitsValue(s[b..e])), e)
  {
    RunEndMaximal(s, b, IsDigitChar);
  }

  /** No digit after the `=` at `a`: "unknown number". */
  lemma DefaultMissingAt(s: string, i: nat, a: nat, b: nat)
    requires i <= |s| && a == RunEnd(s, CommentEnd(s, RunEnd(s, i, IsSpace)), IsSpace)
    requires a < |s| && s[a] == '=' && b == CommentEnd(s, RunEnd(s, a + 1, IsSpace))
    requires !(b < |s| && IsDigitChar(s[b]))
    ensures DefaultAt(s, i) == Refused(UnknownNumberMsg)
  {
  }

  // ---------------------------------------------------------------------------
  // The argument list of MFEM_KERNEL

  /** One turn of the loop of `kerGetArgs`: go on at `next` with the
      argument being read, the parenthesis level and the arguments recorded,
      or end the list. */
  datatype KernelStep =
    | Going(next: nat, arg: Argument, level: int, args: seq<Argument>)
    | Ended(outcome: Scan<seq<Argument>>)

  /** The punctuation `kerGetArgs` takes in before a word. */
  predicate IsKernelMark(c: char) { c == '*' || c == '&' || c == ',' || c == '(' }

  /** One turn of the loop of `kerGetArgs` from `i`: after white space, a
      `*`, `&`, `,` or `(`; else a qualifier or a type; else the argument's
      name, which records the argument. */
  function KernelTurn(s: string, i: nat, arg: Argument, level: int, args: seq<Argument>): (t: KernelStep)
    requires i <= |s| && level >= 0
    ensures t.Going? ==> i < t.next <= |s| && t.level >= 0
    ensures t.Ended? && t.outcome.Found? ==>
      i <= t.outcome.end < |s| && s[t.outcome.end] == ')' && |t.outcome.value| == |args| + 1
  {
    var a := RunEnd(s, i, IsSpace);
    if a < |s| && IsKernelMark(s[a]) then
      Going(a + 1,
            if s[a] == '*' then arg.(isPtr := true) else if s[a] == '&' then arg.(isAmp := true) else arg,
            if s[a] == '(' then level + 1 else level,
            args)
    else WordTurn(s, a, arg, level, args)
  }

  /** The rest of a turn of the loop of `kerGetArgs` when no punctuation
      comes at `a`: the name there is a qualifier, a type (`Array` with its
      bracketed element type) or the argument's name. */
  function WordTurn(s: string, a: nat, arg: Argument, level: int, args: seq<Argument>): (t: KernelStep)
    requires a <= |s| && level >= 0
    ensures t.Going? ==> a < t.next <= |s| && t.level >= 0
    ensures t.Ended? && t.outcome.Found? ==>
      a <= t.outcome.end < |s| && s[t.outcome.end] == ')' && |t.outcome.value| == |args| + 1
  {
    var id := IdAt(s, a);
    var e := RunEnd(s, a, IsIdChar);
    if id == "const" then Going(e, arg.(isConst := true), level, args)
    else if id == "__restrict" then Going(e, arg.(isRestrict := true), level, args)
    else if IsTypeWord(id) then Going(e, arg.(typeName := id), level, args)
    else if id == "Array" then
      match ArrayTypeAt(s, e)
      case Found(t, j) => Going(j, arg.(typeName := "Array" + t), level, args)
      case Refused(m) => Ended(Refused(m))
      case Cut => Ended(Cut)
    else NamedTurn(s, e, arg.(name := id), level, args)
  }

  /** The end of a turn that has read an argument's name (now in `arg`) up
      to `i`: its default value, then the argument is recorded and the
      separator decides: `)` closes a nesting level or the list, `,`
      goes on, anything else is an error. */
  function NamedTurn(s: string, i: nat, arg: Argument, level: int, args: seq<Argument>): (t: KernelStep)
    requires i <= |s| && level >= 0
    ensures t.Going? ==> i < t.next <= |s| && t.level >= 0
    ensures t.Ended? && t.outcome.Found? ==>
      i <= t.outcome.end < |s| && s[t.outcome.end] == ')' && |t.outcome.value| == |args| + 1
  {
    match DefaultAt(s, i)
    case Refused(m) => Ended(Refused(m))
    case Cut => Ended(Cut)
    case Found(v, j) =>
      SeparatorTurn(s, j, level, args + [arg.(defaultValue := if v.Some? then v else arg.defaultValue)])
  }

  /** The end of a turn once its argument is recorded in `args`, at `j`:
      `)` closes a nesting level or the list, `,` goes on, anything else
      is an error. */
  function SeparatorTurn(s: string, j: nat, level: int, args: seq<Argument>): (t: KernelStep)
    requires j <= |s| && level >= 0
    ensures t.Going? ==> j < t.next <= |s| && t.level >= 0 && t.args == args
    ensures t.Ended? && t.outcome.Found? ==> t.outcome == Found(args, j) && j < |s| && s[j] == ')'
    ensures t.Ended? && t.outcome.Refused? ==> t.outcome.msg == NoComaMsg
  {
    if j == |s| then Ended(Cut)
    else if s[j] == ')' && level >= 1 then Going(j + 1, Blank, level - 1, args)
    else if s[j] == ')' then Ended(Found(args, j))
    else if s[j] == ',' then Going(j + 1, Blank, level, args)
    else Ended(Refused(NoComaMsg))
  }

  /** The loop of `kerGetArgs` from `i`, turn after turn, until the list
      ends. */
  function KernelArgsFrom(s: string, i: nat, arg: Argument, level: int, args: seq<Argument>): (r: Scan<seq<Argument>>)
    requires i <= |s| && level >= 0
    ensures r.Found? ==> i <= r.end < |s| && s[r.end] == ')' && |r.value| > |args|
    decreases |s| - i
  {
    match KernelTurn(s, i, arg, level, args)
    case Ended(o) => o
    case Going(j, a, l, xs) => KernelArgsFrom(s, j, a, l, xs)
  }

  /** `kerGetArgs` from `i`, just after the opening parenthesis.  A `void`
      list has no argument and is dropped up to the end of the word;
      otherwise the arguments are read up to the parenthesis that closes
      the list. */
  function KernelArgList(s: string, i: nat): (r: Scan<seq<Argument>>)
    requires i <= |s|
    ensures r.Found? ==> (r.value == [] <==> StartsWithAt(s, RunEnd(s, i, IsSpace), "void"))
    ensures r.Found? && r.value != [] ==> r.end < |s| && s[r.end] == ')'
  {
    var a := RunEnd(s, i, IsSpace);
    if a == |s| then Cut
    else if StartsWithAt(s, a, "void") then Found([], RunEnd(s, a, IsIdChar))
    else KernelArgsFrom(s, a, Blank, 0, [])
  }

  // ---------------------------------------------------------------------------
  // The signature of MFEM_KERNEL

  /** The text between the `<` at `o` and the first `>` after it, and the
      index past that `>`; the input ending first stops the program. */
  function AngleAt(s: string, o: nat): (r: Scan<string>)
    requires o <= |s|
    ensures r.Found? ==> AngleText(s, o, r.value) && r.end == o + |r.value| + 2
    ensures r.Refused? ==> r.msg == NoSingleAngleMsg && !(o < |s| && s[o] == '<')
    ensures r.Cut? ==> o < |s| && s[o] == '<' && '>' !in s[o + 1..]
  {
    if !(o < |s| && s[o] == '<') then Refused(NoSingleAngleMsg)
    else
      var g := RunEnd(s, o + 1, IsNotGt);
      RunEndMaximal(s, o + 1, IsNotGt);
      if g == |s| then Cut else Found(s[o + 1..g], g + 1)
  }

  /** The text between angle brackets is determined by where `<` is. */
  lemma AngleTextUnique(s: string, o: nat, t: string, u: string)
    requires AngleText(s, o, t) && AngleText(s, o, u)
    ensures t == u
  {
  }

  /** A kernel signature must start with one of these words. */
  predicate KernelKeywordAt(s: string, a: nat) {
    StartsWithAt(s, a, "void") || StartsWithAt(s, a, "static") || StartsWithAt(s, a, "template")
  }

  /** The head of a kernel from `i`: after white space `void`, `static` or
      `template` must come; a `template` word is followed by a comment and
      its parameters in angle brackets, which make the kernel a
      single-source one; then, after white space, a `static` word is taken
      in.  Answers the template parameters, if any, and where the return
      type may start. */
  function KernelHeadAt(s: string, i: nat): (r: Scan<Option<string>>)
    requires i <= |s|
    ensures r.Found? ==> i <= r.end <= |s|
    ensures r.Found? ==> (r.value.Some? <==> StartsWithAt(s, RunEnd(s, i, IsSpace), "template"))
    ensures r.Found? && r.value.Some? ==> AngleText(s, AfterWord(s, RunEnd(s, i, IsSpace)), r.value.value)
    ensures r.Refused? ==> r.msg in {NoKeywordMsg, NoSingleAngleMsg}
  {
    var a := RunEnd(s, i, IsSpace);
    if a == |s| then Cut
    else if !KernelKeywordAt(s, a) then Refused(NoKeywordMsg)
    else
      var head: Scan<Option<string>> :=
        if StartsWithAt(s, a, "template") then
          match AngleAt(s, AfterWord(s, a))
          case Found(t, j) => Found(Some(t), j)
          case Refused(m) => Refused(m)
          case Cut => Cut
        else Found(None, a);
      match head
      case Found(t, b) =>
        var c := RunEnd(s, b, IsSpace);
        if c == |s| then Cut
        else Found(t, if StartsWithAt(s, c, "static") then RunEnd(s, c, IsIdChar) else c)
      case Refused(m) => Refused(m)
      case Cut => Cut
  }

  /** The return type and the name of a kernel from `h`, each a name after
      white space and a comment.  Answers the name, and the index past it,
      the white space and a comment after it. */
  function KernelNameAt(s: string, h: nat): (r: Scan<string>)
    requires h <= |s|
    ensures r.Found? ==> h <= r.end <= |s|
    ensures r.Found? ==> r.value != [] && forall k :: 0 <= k < |r.value| ==> IsIdChar(r.value[k])
    ensures r.Refused? ==> r.msg == NoNameMsg
    ensures !r.Cut?
  {
    var b := CommentEnd(s, RunEnd(s, h, IsSpace));
    if !(b < |s| && IsIdChar(s[b])) then Refused(NoNameMsg)
    else
      var c := AfterWord(s, b);
      if !(c < |s| && IsIdChar(s[c])) then Refused(NoNameMsg)
      else
        RunEndMaximal(s, c, IsIdChar);
        Found(s[c..RunEnd(s, c, IsIdChar)], AfterWord(s, c))
  }

  /** What a kernel's declaration says: the template parameters of a
      single-source kernel, and the kernel's name. */
  datatype Declaration = Declaration(tparams: Option<string>, name: string)

  /** The declaration of a kernel from `i`, just after `MFEM_KERNEL`: white
      space and a comment, the head, the return type and the name. */
  function KernelDeclarationAt(s: string, i: nat): (r: Scan<Declaration>)
    requires i <= |s|
    ensures r.Found? ==> i <= r.end <= |s|
    ensures r.Found? ==> var h := CommentEnd(s, RunEnd(s, i, IsSpace));
      (r.value.tparams.Some? <==> StartsWithAt(s, RunEnd(s, h, IsSpace), "template"))
    ensures r.Found? ==> r.value.name != [] && forall k :: 0 <= k < |r.value.name| ==> IsIdChar(r.value.name[k])
    ensures r.Refused? ==> r.msg in {NoKeywordMsg, NoSingleAngleMsg, NoNameMsg}
  {
    match KernelHeadAt(s, CommentEnd(s, RunEnd(s, i, IsSpace)))
    case Found(t, h) =>
      (match KernelNameAt(s, h)
       case Found(name, e) => Found(Declaration(t, name), e)
       case Refused(m) => Refused(m)
       case Cut => Cut)
    case Refused(m) => Refused(m)
    case Cut => Cut
  }

  /** A body opens just before `e`: the character there is `{`. */
  predicate OpensBody(s: string, e: nat) {
    0 < e <= |s| && s[e - 1] == '{'
  }

  /** The parameter list of a kernel from `e`: `(`, the arguments
      `KernelArgList` reads, `)`, white space and a comment, then the `{`
      of the body.  Answers the arguments and the index past the `{`. */
  function KernelParamsAt(s: string, e: nat): (r: Scan<seq<Argument>>)
    requires e <= |s|
    ensures r.Found? ==> e < r.end && OpensBody(s, r.end)
    ensures !(e < |s| && s[e] == '(') ==> r == Refused(NoFirstParenMsg)
    ensures r.Found? ==> (r.value == [] <==> StartsWithAt(s, RunEnd(s, e + 1, IsSpace), "void"))
  {
    if !(e < |s| && s[e] == '(') then Refused(NoFirstParenMsg)
    else
      match KernelArgList(s, e + 1)
      case Found(args, f) =>
        (match ListCloseAt(s, f)
         case Found(_, g) => Found(args, g)
         case Refused(m) => Refused(m)
         case Cut => Cut)
      case Refused(m) => Refused(m)
      case Cut => Cut
  }

  /** The end of a kernel's parameter list at `f`: `)`, white space and a
      comment, then the `{` of the body.  Answers the index past the `{`. */
  function ListCloseAt(s: string, f: nat): (r: Scan<()>)
    requires f <= |s|
    ensures r.Found? ==> f < r.end && OpensBody(s, r.end)
    ensures !(f < |s| && s[f] == ')') ==> r == Refused(NoLastParenMsg)
    ensures r.Refused? ==> r.msg in {NoLastParenMsg, NoBodyMsg}
    ensures !r.Cut?
  {
    if !(f < |s| && s[f] == ')') then Refused(NoLastParenMsg)
    else
      var w := CommentEnd(s, RunEnd(s, f + 1, IsSpace));
      if !(w < |s| && s[w] == '{') then Refused(NoBodyMsg)
      else Found((), w + 1)
  }

  /** The signature after `MFEM_KERNEL` from `i`, up to the opening brace of
      the body: the declaration and the arguments. */
  function KernelSignatureAt(s: string, i: nat): (r: Scan<(Declaration, seq<Argument>)>)
    requires i <= |s|
    ensures r.Found? ==> i < r.end && OpensBody(s, r.end)
    ensures r.Found? ==> var h := CommentEnd(s, RunEnd(s, i, IsSpace));
      (r.value.0.tparams.Some? <==> StartsWithAt(s, RunEnd(s, h, IsSpace), "template"))
    ensures r.Found? ==> r.value.0.name != []
  {
    var d := KernelDeclarationAt(s, i);
    if d.Refused? then Refused(d.msg)
    else if d.Cut? then Cut
    else
      var p := KernelParamsAt(s, d.end);
      if p.Refused? then Refused(p.msg)
      else if p.Cut? then Cut
      else Found((d.value, p.value), p.end)
  }

  // ---------------------------------------------------------------------------
  // The argument list of MFEM_TEMPLATE

  /** One turn of the loop of `templateGetArgs` inside an argument: go on
      at `next` with the argument being read, or stop with the argument
      (whose name has been read) or a failure. */
  datatype TemplateStep = Again(next: nat, arg: Argument) | Over(outcome: Scan<Argument>)

  /** One turn of the loop of `templateGetArgs` from `i`: after white space
      and a comment, a `*`; else, after white space and a comment again, a
      `,`; else a name: `MFEM_RANGE(...)`, `const` or a type name are
      recorded in the argument, and any other name (possibly empty) is the
      argument's. */
  function TemplateTurn(s: string, i: nat, arg: Argument): (t: TemplateStep)
    requires i <= |s|
    requires arg.isTpl ==> arg.range != []
    ensures t.Again? ==> i < t.next <= |s| && (t.arg.isTpl ==> t.arg.range != [])
    ensures t.Over? && t.outcome.Found? ==>
      i <= t.outcome.end <= |s| && t.outcome.value == arg.(name := t.outcome.value.name)
      && forall k :: 0 <= k < |t.outcome.value.name| ==> IsIdChar(t.outcome.value.name[k])
  {
    var b := RunEnd(s, CommentEnd(s, RunEnd(s, i, IsSpace)), IsSpace);
    if b < |s| && s[b] == '*' then Again(b + 1, arg.(isPtr := true))
    else
      var c := RunEnd(s, CommentEnd(s, RunEnd(s, b, IsSpace)), IsSpace);
      if c < |s| && s[c] == ',' then Again(c + 1, arg)
      else TemplateWordTurn(s, c, arg)
  }

  /** The rest of a turn of the loop of `templateGetArgs` when no
      punctuation comes: the name at `c` is `MFEM_RANGE`, whose list of
      values is added to the argument's range, `const` or a type name, or
      else the argument's name. */
  function TemplateWordTurn(s: string, c: nat, arg: Argument): (t: TemplateStep)
    requires c <= |s|
    requires arg.isTpl ==> arg.range != []
    ensures t.Again? ==> c < t.next <= |s| && (t.arg.isTpl ==> t.arg.range != [])
    ensures t.Over? && t.outcome.Found? ==>
      c <= t.outcome.end <= |s| && t.outcome.value == arg.(name := t.outcome.value.name)
      && forall k :: 0 <= k < |t.outcome.value.name| ==> IsIdChar(t.outcome.value.name[k])
  {
    var id := IdAt(s, c);
    var e := RunEnd(s, c, IsIdChar);
    if id == "MFEM_RANGE" then
      match RangeList(s, e, arg.range)
      case Done(vs, j) => Again(j, arg.(range := vs, isTpl := true))
      case Rejected(m) => Over(Refused(m))
      case Truncated => Over(Cut)
    else if id == "const" then Again(e, arg.(isConst := true))
    else if id in TypeNames then Again(e, arg.(typeName := id))
    else Over(Found(arg.(name := id), e))
  }

  /** One argument of a `templateGetArgs` list from `i`, turn after turn:
      `*` and `,`, `MFEM_RANGE(...)`, `const` and type names are taken in
      until some other name (possibly empty) comes, which is the
      argument's.  `Found` ends just past the name. */
  function TemplateArgumentAt(s: string, i: nat, arg: Argument): (r: Scan<Argument>)
    requires i <= |s|
    requires arg.isTpl ==> arg.range != []
    ensures r.Found? ==> i <= r.end <= |s|
    ensures r.Found? ==> (r.value.isTpl ==> r.value.range != [])
    ensures r.Found? ==> forall k :: 0 <= k < |r.value.name| ==> IsIdChar(r.value.name[k])
    decreases |s| - i
  {
    match TemplateTurn(s, i, arg)
    case Over(o) => o
    case Again(j, a) => TemplateArgumentAt(s, j, a)
  }

  /** One turn of the loop of `templateGetArgs`: go on at `next` with the
      parenthesis level and the runtime and ranged arguments recorded, or
      end the list. */
  datatype ListStep =
    | Listing(next: nat, level: int, plain: seq<Argument>, ranged: seq<Argument>)
    | Listed(outcome: Scan<(seq<Argument>, seq<Argument>)>)

  /** One turn of the loop of `templateGetArgs` from `i`: one argument,
      recorded as a runtime one (`plain`) or, when it has a range, as a
      ranged one; then `)` at level 0 ends the list, and otherwise a `,`
      must follow, after white space and a comment. */
  function TemplateListTurn(s: string, i: nat, level: int, plain: seq<Argument>, ranged: seq<Argument>)
    : (t: ListStep)
    requires i <= |s| && level >= 0
    ensures t.Listing? ==> i < t.next <= |s| && t.level >= 0
    ensures t.Listed? && t.outcome.Found? ==> i <= t.outcome.end < |s| && s[t.outcome.end] == ')'
  {
    match TemplateArgumentAt(s, i, Blank)
    case Refused(m) => Listed(Refused(m))
    case Cut => Listed(Cut)
    case Found(a, e) => TemplateListAfter(s, e, a, level, plain, ranged)
  }

  /** The rest of a turn once the argument `a` is read up to `e`: it joins
      the runtime or the ranged arguments, then a `)` that closes the list
      ends it, a `,` goes on to the next argument, anything else is
      refused. */
  function TemplateListAfter(s: string, e: nat, a: Argument, level: int, plain: seq<Argument>, ranged: seq<Argument>)
    : (t: ListStep)
    requires e <= |s| && level >= 0
    ensures t.Listing? ==> e < t.next <= |s| && t.level >= 0
    ensures t.Listed? && t.outcome.Found? ==> t.outcome.end == e < |s| && s[e] == ')'
  {
    var plain' := if a.isTpl then plain else plain + [a];
    var ranged' := if a.isTpl then ranged + [a] else ranged;
    SeparatorAt(s, e, level, plain', ranged')
  }

  /** The separator after an argument, at `e`: a `)` that closes the list
      ends it with `plain` and `ranged`, a `,` goes on past it, anything
      else is refused. */
  function SeparatorAt(s: string, e: nat, level: int, plain: seq<Argument>, ranged: seq<Argument>)
    : (t: ListStep)
    requires e <= |s| && level >= 0
    ensures t.Listing? ==> e < t.next <= |s| && t.level >= 0 && t.plain == plain && t.ranged == ranged
    ensures t.Listed? && t.outcome.Found? ==>
      t.outcome.end == e < |s| && s[e] == ')' && t.outcome.value == (plain, ranged)
  {
    if e == |s| then Listed(Cut)
    else
      var l := level + (if s[e] == '(' then 1 else 0) - (if s[e] == ')' then 1 else 0);
      if l < 0 then Listed(Found((plain, ranged), e))
      else
        var f := CommentEnd(s, RunEnd(s, e, IsSpace));
        if f < |s| && s[f] == ',' then Listing(f + 1, l, plain, ranged)
        else Listed(Refused(NoComaMsg))
  }

  /** The loop of `templateGetArgs` from `i`, turn after turn, until the
      list ends. */
  function TemplateArgsFrom(s: string, i: nat, level: int, plain: seq<Argument>, ranged: seq<Argument>)
    : (r: Scan<(seq<Argument>, seq<Argument>)>)
    requires i <= |s| && level >= 0
    ensures r.Found? ==> i <= r.end < |s| && s[r.end] == ')'
    decreases |s| - i
  {
    match TemplateListTurn(s, i, level, plain, ranged)
    case Listed(o) => o
    case Listing(j, l, p, r) => TemplateArgsFrom(s, j, l, p, r)
  }

  /** The runtime arguments carry no range, and every ranged argument
      carries a non-empty one. */
  predicate Split(plain: seq<Argument>, ranged: seq<Argument>) {
    && (forall a <- plain :: !a.isTpl)
    && (forall a <- ranged :: a.isTpl && a.range != [])
  }

  /** One turn of the loop keeps the arguments split. */
  lemma ListTurnSplit(s: string, i: nat, level: int, plain: seq<Argument>, ranged: seq<Argument>)
    requires i <= |s| && level >= 0 && Split(plain, ranged)
    ensures var t := TemplateListTurn(s, i, level, plain, ranged);
      && (t.Listing? ==> Split(t.plain, t.ranged))
      && (t.Listed? && t.outcome.Found? ==> Split(t.outcome.value.0, t.outcome.value.1))
  {
    match TemplateArgumentAt(s, i, Blank)
    case Refused(m) =>
    case Cut =>
    case Found(a, e) =>
      var plain' := if a.isTpl then plain else plain + [a];
      var ranged' := if a.isTpl then ranged + [a] else ranged;
      assert Split(plain', ranged');
      assert TemplateListTurn(s, i, level, plain, ranged) == SeparatorAt(s, e, level, plain', ranged');
  }

  /** The loop keeps the arguments split, to the end of the list. */
  lemma {:induction false} ArgsFromSplit(s: string, i: nat, level: int, plain: seq<Argument>, ranged: seq<Argument>)
    requires i <= |s| && level >= 0 && Split(plain, ranged)
    ensures var r := TemplateArgsFrom(s, i, level, plain, ranged);
      r.Found? ==> Split(r.value.0, r.value.1)
    decreases |s| - i
  {
    ListTurnSplit(s, i, level, plain, ranged);
    match TemplateListTurn(s, i, level, plain, ranged)
    case Listed(o) =>
    case Listing(j, l, p, r) => ArgsFromSplit(s, j, l, p, r);
  }

  /** A template's list splits into runtime arguments without a range and
      ranged arguments, each with a non-empty range. */
  lemma TemplateListSplit(s: string, i: nat)
    requires i <= |s|
    ensures var r := TemplateList(s, i);
      r.Found? ==> Split(r.value.0, r.value.1)
  {
    var a := RunEnd(s, i, IsSpace);
    if !(a == |s| || StartsWithAt(s, a, "void")) {
      ArgsFromSplit(s, a, 0, [], []);
    }
  }

  /** `templateGetArgs` from `i`, just after the opening parenthesis: a
      `void` list stops the program; otherwise the runtime and the ranged
      arguments up to the parenthesis that closes the list. */
  function TemplateList(s: string, i: nat): (r: Scan<(seq<Argument>, seq<Argument>)>)
    requires i <= |s|
    ensures r.Found? ==> r.end < |s| && s[r.end] == ')'
    ensures StartsWithAt(s, RunEnd(s, i, IsSpace), "void") ==> r.Cut?
  {
    var a := RunEnd(s, i, IsSpace);
    if a == |s| || StartsWithAt(s, a, "void") then Cut
    else TemplateArgsFrom(s, a, 0, [], [])
  }

  /** The declaration of a template from `i`, just after `MFEM_TEMPLATE`:
      white space and a comment, then `void` or `static`; the return type (a
      `static` word, then a name), the kernel's name and `(`, each after
      white space.  Answers the name and the return type as `__template`
      keeps it (with the white space after its words and after the name),
      and the index past the `(`. */
  function TemplateDeclarationAt(s: string, i: nat): (r: Scan<(string, string)>)
    requires i <= |s|
    ensures r.Found? ==> i < r.end <= |s| && s[r.end - 1] == '('
    ensures r.Found? ==> r.value.0 != [] && forall k :: 0 <= k < |r.value.0| ==> IsIdChar(r.value.0[k])
  {
    TemplateWordsAt(s, CommentEnd(s, RunEnd(s, i, IsSpace)))
  }

  /** The words of a template's declaration from `c`, past its comment:
      `void` or `static` after white space, the return type, the name and
      `(`. */
  function TemplateWordsAt(s: string, c: nat): (r: Scan<(string, string)>)
    requires c <= |s|
    ensures r.Found? ==> c < r.end <= |s| && s[r.end - 1] == '('
    ensures r.Found? ==> r.value.0 != [] && forall k :: 0 <= k < |r.value.0| ==> IsIdChar(r.value.0[k])
  {
    var a := RunEnd(s, c, IsSpace);
    if a == |s| then Cut
    else if !(StartsWithAt(s, a, "void") || StartsWithAt(s, a, "static")) then Refused(NoTemplateKeywordMsg)
    else
      var t := if StartsWithAt(s, a, "static") then WordEnd(s, a) else a;
      if !(t < |s| && IsIdChar(s[t])) then Refused(NoNameMsg)
      else TemplateNameAt(s, a, WordEnd(s, t))
  }

  /** The name of a template at `n`, whose return type started at `a`, then
      `(` after white space.  Answers the name and the return type with the
      white space after its words and after the name. */
  function TemplateNameAt(s: string, a: nat, n: nat): (r: Scan<(string, string)>)
    requires a <= n <= |s|
    ensures r.Found? ==> n < r.end <= |s| && s[r.end - 1] == '('
    ensures r.Found? ==> r.value.0 != [] && forall k :: 0 <= k < |r.value.0| ==> IsIdChar(r.value.0[k])
    ensures r.Refused? ==> r.msg in {NoNameMsg, NoFirstParenMsg}
    ensures !r.Cut?
  {
    if !(n < |s| && IsIdChar(s[n])) then Refused(NoNameMsg)
    else
      var e := RunEnd(s, n, IsIdChar);
      var q := RunEnd(s, e, IsSpace);
      RunEndMaximal(s, n, IsIdChar);
      if !(q < |s| && s[q] == '(') then Refused(NoFirstParenMsg)
      else Found((s[n..e], s[a..n] + s[e..q]), q + 1)
  }

  /** What the signature of a template gives: the kernel's name, its
      return type, and its runtime and its ranged arguments. */
  datatype TemplateHeader = TemplateHeader(name: string, returnType: string, plain: seq<Argument>, ranged: seq<Argument>)

  /** The signature after `MFEM_TEMPLATE` from `i`: the declaration, then
      the arguments `TemplateList` reads; `end` is past the `)` that closes
      them. */
  function TemplateSignatureAt(s: string, i: nat): (r: Scan<TemplateHeader>)
    requires i <= |s|
    ensures r.Found? ==> i < r.end <= |s| && s[r.end - 1] == ')'
    ensures r.Found? ==> r.value.name != [] && forall k :: 0 <= k < |r.value.name| ==> IsIdChar(r.value.name[k])
  {
    match TemplateDeclarationAt(s, i)
    case Found(d, e) =>
      (match TemplateList(s, e)
       case Found(lists, f) => Found(TemplateHeader(d.0, d.1, lists.0, lists.1), f + 1)
       case Refused(m) => Refused(m)
       case Cut => Cut)
    case Refused(m) => Refused(m)
    case Cut => Cut
  }
}
