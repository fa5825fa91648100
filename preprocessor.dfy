/** The preprocessor proper (`context_t` and the functions working on it,
    general/mpp.cpp:109-1113).

    A `Context` reads its input one character at a time and copies it to
    its output, except where a directive (`MFEM_EMBED`, `MFEM_KERNEL`,
    `MFEM_TEMPLATE`) takes over: a directive parses the signature that
    follows it, writes generated code, and arms a postfix that writes more
    code when the directive's body closes.

    The input stream is the constant `input` with the read position `pos`;
    the output stream is the string `out`.  Characters copied with `put`
    also count lines and, while an `MFEM_EMBED` block is open, are
    collected into `embed`; text written directly (`pp.out << ...`)
    is only appended to `out`. */
module Preprocessor {
  import opened Outcomes
  import opened Text
  import opened Lexer
  import opened Signatures
  import opened Hashing
  import opened Ranges
  import opened Arguments
  import opened Blocks
  import opened Emit

  const NoBlocksMsg: string := "no compound statements found"

  /** What `put` updates: the output, the line counter and the text
      collected while `MFEM_EMBED` is on. */
  datatype Sink = Sink(out: string, line: int, embed: string)

  /** `s1` is `s0` after putting the characters of `w` one by one, with
      `MFEM_EMBED` on or off as `on` says. */
  predicate Wrote(on: bool, s0: Sink, w: string, s1: Sink) {
    s1.out == s0.out + w
    && s1.line == s0.line + Newlines(w)
    && s1.embed == Collected(on, s0.embed, w)
  }

  /** The embedded text after `w` is put: collected while `on`. */
  function Collected(on: bool, e: string, w: string): string {
    if on then e + w else e
  }

  lemma WroteNothing(on: bool, s: Sink)
    ensures Wrote(on, s, [], s)
  {
    assert s.out + [] == s.out && s.embed + [] == s.embed;
  }

  lemma WroteCompose(on: bool, s0: Sink, a: string, s1: Sink, b: string, s2: Sink)
    requires Wrote(on, s0, a, s1) && Wrote(on, s1, b, s2)
    ensures Wrote(on, s0, a + b, s2)
  {
    NewlinesAppend(a, b);
    assert s0.out + a + b == s0.out + (a + b);
    assert s0.embed + a + b == s0.embed + (a + b);
    assert Collected(on, Collected(on, s0.embed, a), b) == Collected(on, s0.embed, a + b);
  }

  lemma EndsWithAppend(a: string, b: string, c: string)
    ensures EndsWith(a + b + c, b + c)
  {
    assert a + b + c == a + (b + c);
  }

  /** What ends a text still ends it, extended, once it is extended. */
  lemma EndsWithExtended(s: string, t: string, w: string)
    requires EndsWith(s, t)
    ensures EndsWith(s + w, t + w)
  {
    assert s == s[..|s| - |t|] + t;
    EndsWithAppend(s[..|s| - |t|], t, w);
  }

  lemma AppendAssoc(a: string, b: string, c: string)
    ensures a + b + c == a + (b + c)
  {
  }

  lemma AppendAssoc3(a: string, b: string, c: string, d: string)
    ensures a + b + c + d == a + (b + c + d)
  {
  }

  /** Putting two stretches of the input in a row puts their concatenation. */
  lemma WroteSlices(on: bool, text: string, p0: nat, p1: nat, p2: nat, s0: Sink, s1: Sink, s2: Sink)
    requires p0 <= p1 <= p2 <= |text|
    requires Wrote(on, s0, text[p0..p1], s1) && Wrote(on, s1, text[p1..p2], s2)
    ensures Wrote(on, s0, text[p0..p2], s2)
  {
    assert text[p0..p2] == text[p0..p1] + text[p1..p2];
    WroteCompose(on, s0, text[p0..p1], s1, text[p1..p2], s2);
  }

  predicate MfemAt(s: string, j: nat) {
    j + 4 <= |s| && s[j..j + 4] == "MFEM"
  }

  /** No `MFEM` occurs in `s` from `i` on. */
  predicate NoDirectiveFrom(s: string, i: nat) {
    forall j :: i <= j < |s| ==> !MfemAt(s, j)
  }

  predicate EndsWith(s: string, t: string) { |t| <= |s| && s[|s| - |t|..] == t }

  /** A name between angle brackets keeps its characters inside them. */
  lemma AngleBracketed(id: string)
    ensures var t := "<" + id + ">";
      |t| == |id| + 2 && t[0] == '<' && t[|t| - 1] == '>' && forall k :: 0 < k < |t| - 1 ==> t[k] == id[k - 1]
  {
  }

  class Context {
    const input: string
    const file: string
    /** `STRINGIFY(MFEM_CXX) " " STRINGIFY(MFEM_BUILD_FLAGS)` and
        `STRINGIFY(MFEM_SRC)`: build settings fixed when the preprocessor
        itself was compiled. */
    const cxx: string
    const srcDir: string

    var pos: nat
    var out: string
    var line: int
    var block: int
    var ker: Kernel
    /** `ker.embed`: what was put while `MFEM_EMBED` was on. */
    var embed: string
    var args: seq<Argument>
    /** The fixed texts written around the copied code. */
    const texts: Texts

    /** `context_t(in, out, file)`: line 1, no block being counted. */
    constructor (input: string, file: string, cxx: string, srcDir: string)
      ensures this.input == input && this.file == file && this.cxx == cxx && this.srcDir == srcDir
      ensures pos == 0 && out == [] && line == 1 && block == -2 && ker == InitialKernel && embed == [] && args == []
      ensures texts == FixedTexts
    {
      this.input := input;
      this.file := file;
      this.cxx := cxx;
      this.srcDir := srcDir;
      pos := 0;
      out := [];
      line := 1;
      block := -2;
      ker := InitialKernel;
      embed := [];
      args := [];
      texts := FixedTexts;
    }

    predicate Valid()
      reads this`pos
    {
      pos <= |input|
    }

    function Sunk(): Sink
      reads this`out, this`line, this`embed
    {
      Sink(out, line, embed)
    }

    /** `pp.in.peek()`: `None` stands for `EOF`. */
    function Peek(): Option<char>
      reads this`pos
      requires Valid()
    {
      if pos < |input| then Some(input[pos]) else None
    }

    function Fail(msg: string): Error
      reads this`line
    {
      Diagnostic(line, file, msg)
    }

    // -------------------------------------------------------------------------
    // Reading and copying

    /** `put(c, pp)`. */
    method PutChar(c: char)
      modifies this`out, this`line, this`embed
      ensures Wrote(ker.embedOn, old(Sunk()), [c], Sunk())
    {
      assert [c][..0] == [];
      if c == '\n' {
        line := line + 1;
      }
      out := out + [c];
      if ker.embedOn {
        embed := embed + [c];
      }
    }

    /** `put(pp)`: copy the next character. */
    method Put() returns (c: char)
      requires Valid() && pos < |input|
      modifies this`pos, this`out, this`line, this`embed
      ensures Valid() && pos == old(pos) + 1 && c == input[old(pos)]
      ensures Wrote(ker.embedOn, old(Sunk()), input[old(pos)..pos], Sunk())
    {
      c := input[pos];
      pos := pos + 1;
      PutChar(c);
      assert input[old(pos)..pos] == [c];
    }

    /** `get(pp)`; at the end of the input nothing is read. */
    method Get() returns (c: Option<char>)
      requires Valid()
      modifies this`pos
      ensures Valid() && c == old(Peek())
      ensures pos == if old(pos) < |input| then old(pos) + 1 else old(pos)
    {
      c := Peek();
      if pos < |input| {
        pos := pos + 1;
      }
    }

    /** `skip_space(pp)`: copy white space. */
    method SkipSpace()
      requires Valid()
      modifies this`pos, this`out, this`line, this`embed
      ensures Valid() && pos == RunEnd(input, old(pos), IsSpace)
      ensures Wrote(ker.embedOn, old(Sunk()), input[old(pos)..pos], Sunk())
    {
      WroteNothing(ker.embedOn, Sunk());
      while pos < |input| && IsSpace(input[pos])
        invariant old(pos) <= pos <= |input|
        invariant RunEnd(input, old(pos), IsSpace) == RunEnd(input, pos, IsSpace)
        invariant Wrote(ker.embedOn, old(Sunk()), input[old(pos)..pos], Sunk())
        decreases |input| - pos
      {
        ghost var s1, p1 := Sunk(), pos;
        var _ := Put();
        WroteSlices(ker.embedOn, input, old(pos), p1, pos, old(Sunk()), s1, Sunk());
      }
    }

    /** `skip_space(pp, s)`: move white space into `s` instead. */
    method SkipSpaceInto(s: string) returns (r: string)
      requires Valid()
      modifies this`pos
      ensures Valid() && pos == RunEnd(input, old(pos), IsSpace)
      ensures r == s + input[old(pos)..pos]
    {
      r := s;
      while pos < |input| && IsSpace(input[pos])
        invariant old(pos) <= pos <= |input|
        invariant RunEnd(input, old(pos), IsSpace) == RunEnd(input, pos, IsSpace)
        invariant r == s + input[old(pos)..pos]
        decreases |input| - pos
      {
        var c := Get();
        r := r + [c.value];
        assert input[old(pos)..pos] == input[old(pos)..pos - 1] + [input[pos - 1]];
      }
    }

    /** `drop_space(pp)`: discard white space. */
    method DropSpace()
      requires Valid()
      modifies this`pos
      ensures Valid() && pos == RunEnd(input, old(pos), IsSpace)
    {
      while pos < |input| && IsSpace(input[pos])
        invariant old(pos) <= pos <= |input|
        invariant RunEnd(input, old(pos), IsSpace) == RunEnd(input, pos, IsSpace)
        decreases |input| - pos
      {
        pos := pos + 1;
      }
    }

    // -------------------------------------------------------------------------
    // Comments

    /** `singleLineComments`: copy up to the end of the line. */
    method SingleLineComments()
      requires Valid()
      modifies this`pos, this`out, this`line, this`embed
      ensures Valid() && pos == RunEnd(input, old(pos), IsNotNewline)
      ensures Wrote(ker.embedOn, old(Sunk()), input[old(pos)..pos], Sunk())
    {
      WroteNothing(ker.embedOn, Sunk());
      while pos < |input| && input[pos] != '\n'
        invariant old(pos) <= pos <= |input|
        invariant RunEnd(input, old(pos), IsNotNewline) == RunEnd(input, pos, IsNotNewline)
        invariant Wrote(ker.embedOn, old(Sunk()), input[old(pos)..pos], Sunk())
        decreases |input| - pos
      {
        ghost var s1, p1 := Sunk(), pos;
        var _ := Put();
        WroteSlices(ker.embedOn, input, old(pos), p1, pos, old(Sunk()), s1, Sunk());
      }
    }

    /** `blockComments`: copy up to and including the closing star-slash
        and the white space after it. */
    method BlockComments()
      requires Valid()
      modifies this`pos, this`out, this`line, this`embed
      ensures Valid() && pos == BlockCommentEnd(input, old(pos))
      ensures Wrote(ker.embedOn, old(Sunk()), input[old(pos)..pos], Sunk())
    {
      WroteNothing(ker.embedOn, Sunk());
      while pos < |input|
        invariant old(pos) <= pos <= |input|
        invariant BlockCommentEnd(input, old(pos)) == BlockCommentEnd(input, pos)
        invariant Wrote(ker.embedOn, old(Sunk()), input[old(pos)..pos], Sunk())
        decreases |input| - pos
      {
        ghost var s1, p1 := Sunk(), pos;
        var closed := BlockCommentStep();
        WroteSlices(ker.embedOn, input, old(pos), p1, pos, old(Sunk()), s1, Sunk());
        if closed {
          return;
        }
      }
    }

    /** One turn of the `blockComments` loop: put a character and, when it
        is the star of a star-slash, the rest of the comment. */
    method BlockCommentStep() returns (closed: bool)
      requires Valid() && pos < |input|
      modifies this`pos, this`out, this`line, this`embed
      ensures Valid() && old(pos) < pos
      ensures closed ==> pos == BlockCommentEnd(input, old(pos))
      ensures !closed ==> BlockCommentEnd(input, old(pos)) == BlockCommentEnd(input, pos)
      ensures Wrote(ker.embedOn, old(Sunk()), input[old(pos)..pos], Sunk())
    {
      var c := Put();
      if c == '*' && Peek() == Some('/') {
        ghost var s1, p1 := Sunk(), pos;
        CommentClose();
        WroteSlices(ker.embedOn, input, old(pos), p1, pos, old(Sunk()), s1, Sunk());
        return true;
      }
      return false;
    }

    /** The slash that closes a block comment and the white space after it. */
    method CommentClose()
      requires Valid() && pos < |input|
      modifies this`pos, this`out, this`line, this`embed
      ensures Valid() && pos == RunEnd(input, old(pos) + 1, IsSpace)
      ensures Wrote(ker.embedOn, old(Sunk()), input[old(pos)..pos], Sunk())
    {
      var _ := Put();
      ghost var s1, p1 := Sunk(), pos;
      SkipSpace();
      WroteSlices(ker.embedOn, input, old(pos), p1, pos, old(Sunk()), s1, Sunk());
    }

    /** `comments`: copy a comment starting here, if any. */
    method Comments()
      requires Valid()
      modifies this`pos, this`out, this`line, this`embed
      ensures Valid() && pos == CommentEnd(input, old(pos))
      ensures Wrote(ker.embedOn, old(Sunk()), input[old(pos)..pos], Sunk())
    {
      if !CommentAt(input, pos) {
        WroteNothing(ker.embedOn, Sunk());
        return;
      }
      var _ := Put();
      ghost var s1 := Sunk();
      var c := Put();
      WroteSlices(ker.embedOn, input, old(pos), old(pos) + 1, pos, old(Sunk()), s1, Sunk());
      ghost var s2 := Sunk();
      if c == '/' {
        SingleLineComments();
      } else {
        BlockComments();
      }
      WroteSlices(ker.embedOn, input, old(pos), old(pos) + 2, pos, old(Sunk()), s2, Sunk());
    }

    /** `next`: copy white space, then a comment. */
    method Next()
      requires Valid()
      modifies this`pos, this`out, this`line, this`embed
      ensures Valid() && pos == CommentEnd(input, RunEnd(input, old(pos), IsSpace))
      ensures Wrote(ker.embedOn, old(Sunk()), input[old(pos)..pos], Sunk())
    {
      SkipSpace();
      ghost var s1, p1 := Sunk(), pos;
      Comments();
      WroteSlices(ker.embedOn, input, old(pos), p1, pos, old(Sunk()), s1, Sunk());
    }

    // -------------------------------------------------------------------------
    // Names, numbers and look-ahead

    /** `get_id`: a name, which must start here. */
    method GetId() returns (r: Result<string>)
      requires Valid()
      modifies this`pos
      ensures Valid() && old(pos) <= pos
      ensures r.Success? <==> old(pos) < |input| && IsIdChar(input[old(pos)])
      ensures r.Success? ==> pos == RunEnd(input, old(pos), IsIdChar) && r.value == input[old(pos)..pos]
      ensures r.Success? ==> forall k :: 0 <= k < |r.value| ==> IsIdChar(r.value[k])
      ensures r.Failure? ==> pos == old(pos) && r.error == Fail(NoNameMsg)
    {
      if !(pos < |input| && IsIdChar(input[pos])) {
        return Failure(Fail(NoNameMsg));
      }
      var id := IdRun();
      return Success(id);
    }

    /** The loop of `get_id`: the name that starts here. */
    method IdRun() returns (id: string)
      requires Valid() && pos < |input| && IsIdChar(input[pos])
      modifies this`pos
      ensures Valid() && pos == RunEnd(input, old(pos), IsIdChar) && id == input[old(pos)..pos]
      ensures id != [] && forall k :: 0 <= k < |id| ==> IsIdChar(id[k])
    {
      id := "";
      while pos < |input| && IsIdChar(input[pos])
        invariant old(pos) <= pos <= |input|
        invariant RunEnd(input, old(pos), IsIdChar) == RunEnd(input, pos, IsIdChar)
        invariant id == input[old(pos)..pos]
        invariant forall k :: 0 <= k < |id| ==> IsIdChar(id[k])
        decreases |input| - pos
      {
        id := id + [input[pos]];
        pos := pos + 1;
      }
    }

    /** `get_digit`: the value of a run of digits, which must start here. */
    method GetDigit() returns (r: Result<nat>)
      requires Valid()
      modifies this`pos
      ensures Valid() && old(pos) <= pos
      ensures r.Success? <==> old(pos) < |input| && IsDigitChar(input[old(pos)])
      ensures r.Success? ==> pos == RunEnd(input, old(pos), IsDigitChar)
      ensures r.Success? ==> forall k :: old(pos) <= k < pos ==> IsDigitChar(input[k])
      ensures r.Success? ==> r.value == DigitsValue(input[old(pos)..pos])
      ensures r.Failure? ==> pos == old(pos) && r.error == Fail(UnknownNumberMsg)
    {
      if !(pos < |input| && IsDigitChar(input[pos])) {
        return Failure(Fail(UnknownNumberMsg));
      }
      var digits := "";
      while pos < |input| && IsDigitChar(input[pos])
        invariant old(pos) <= pos <= |input|
        invariant RunEnd(input, old(pos), IsDigitChar) == RunEnd(input, pos, IsDigitChar)
        invariant digits == input[old(pos)..pos]
        invariant forall k :: 0 <= k < |digits| ==> IsDigitChar(digits[k])
        decreases |input| - pos
      {
        digits := digits + [input[pos]];
        pos := pos + 1;
      }
      return Success(DigitsValue(digits));
    }

    /** `peekn(pp, n)`: the next `n` characters, fewer at the end of the
        input, cut at a NUL; nothing is consumed. */
    function PeekN(n: nat): (r: string)
      reads this`pos
      requires Valid() && n < 64
      ensures |r| <= n && pos + |r| <= |input| && r == input[pos..pos + |r|] && '\0' !in r
      ensures |r| == n || pos + |r| == |input| || input[pos + |r|] == '\0'
    {
      var w := input[pos..Min(pos + n, |input|)];
      var c := CStr(w);
      SlicePrefix(input, pos, Min(pos + n, |input|), |c|);
      c
    }

    /** `peekid(pp)`: the name starting here (at most its first 64
        characters); nothing is consumed. */
    function PeekId(): (r: string)
      reads this`pos
      requires Valid()
      ensures pos + |r| == Min(RunEnd(input, pos, IsIdChar), pos + 64)
      ensures |r| <= 64 && r == input[pos..pos + |r|]
      ensures forall k :: 0 <= k < |r| ==> IsIdChar(r[k])
    {
      RunEndMaximal(input, pos, IsIdChar);
      input[pos..Min(RunEnd(input, pos, IsIdChar), pos + 64)]
    }

    /** `drop_name(pp)`. */
    method DropName()
      requires Valid()
      modifies this`pos
      ensures Valid() && pos == RunEnd(input, old(pos), IsIdChar)
    {
      while pos < |input| && IsIdChar(input[pos])
        invariant old(pos) <= pos <= |input|
        invariant RunEnd(input, old(pos), IsIdChar) == RunEnd(input, pos, IsIdChar)
        decreases |input| - pos
      {
        pos := pos + 1;
      }
    }

    /** `isvoid`, `isstatic`, `istemplate`: copy white space, then tell
        whether `kw` comes next.  Reaching the end of the input here stops
        the program (the C `assert`). */
    method Keyword(kw: string) returns (r: Result<bool>)
      requires Valid() && |kw| < 64 && '\0' !in kw
      modifies this`pos, this`out, this`line, this`embed
      ensures Valid() && pos == RunEnd(input, old(pos), IsSpace)
      ensures Wrote(ker.embedOn, old(Sunk()), input[old(pos)..pos], Sunk())
      ensures r.Failure? <==> pos == |input|
      ensures r.Failure? ==> r.error == Abort
      ensures r.Success? ==> (r.value <==> pos + |kw| <= |input| && input[pos..pos + |kw|] == kw)
    {
      SkipSpace();
      if pos == |input| {
        return Failure(Abort);
      }
      var w := PeekN(|kw|);
      if pos + |kw| <= |input| && input[pos..pos + |kw|] == kw {
        assert input[pos..Min(pos + |kw|, |input|)] == kw;
      }
      return Success(w == kw);
    }

    /** `is_star`, `is_amp`, `is_coma`, `is_eq`, `is_left_parenthesis`:
        copy white space, then tell whether `c` comes next. */
    method Sees(c: char) returns (b: bool)
      requires Valid()
      modifies this`pos, this`out, this`line, this`embed
      ensures Valid() && pos == RunEnd(input, old(pos), IsSpace)
      ensures Wrote(ker.embedOn, old(Sunk()), input[old(pos)..pos], Sunk())
      ensures b <==> pos < |input| && input[pos] == c
    {
      SkipSpace();
      b := Peek() == Some(c);
    }

    // -------------------------------------------------------------------------
    // MFEM_KERNEL

    /** `get_array_type`: the `<type>` after `Array`, as `ArrayTypeAt` reads
        it; brackets and white space are put, the type name is written. */
    method GetArrayType() returns (r: Result<string>)
      requires Valid()
      modifies this`pos, this`out, this`line, this`embed
      ensures Valid() && old(pos) <= pos
      ensures var scan := ArrayTypeAt(input, old(pos));
        && (scan.Found? ==> r == Success(scan.value) && pos == scan.end)
        && (scan.Refused? ==> r == Failure(Fail(scan.msg)))
      ensures r.Success? ==> |r.value| >= 3 && r.value[0] == '<' && r.value[|r.value| - 1] == '>'
      ensures r.Success? ==> forall k :: 0 < k < |r.value| - 1 ==> IsIdChar(r.value[k])
    {
      SkipSpace();
      if Peek() != Some('<') {
        return Failure(Fail(NoOpenAngleMsg));
      }
      var _ := Put();
      var id :- ArrayTypeName();
      AngleBracketed(id);
      return Success("<" + id + ">");
    }

    /** The rest of `get_array_type`, after the `<`: the type name, written
        out and answered, and the closing `>`, which is put. */
    method ArrayTypeName() returns (r: Result<string>)
      requires Valid()
      modifies this`pos, this`out, this`line, this`embed
      ensures Valid() && old(pos) <= pos
      ensures var b := RunEnd(input, old(pos), IsSpace);
        var e := RunEnd(input, b, IsIdChar);
        var c := RunEnd(input, e, IsSpace);
        && (!(b < |input| && IsIdChar(input[b])) ==> r == Failure(Fail(NoArrayTypeMsg)))
        && (b < |input| && IsIdChar(input[b]) && !(c < |input| && input[c] == '>') ==> r == Failure(Fail(NoCloseAngleMsg)))
        && (b < |input| && IsIdChar(input[b]) && c < |input| && input[c] == '>' ==>
              r == Success(input[b..e]) && pos == c + 1)
      ensures r.Success? ==> r.value != [] && forall k :: 0 <= k < |r.value| ==> IsIdChar(r.value[k])
    {
      SkipSpace();
      if !(pos < |input| && IsIdChar(input[pos])) {
        return Failure(Fail(NoArrayTypeMsg));
      }
      var id := IdRun();
      out := out + id;
      SkipSpace();
      if Peek() != Some('>') {
        return Failure(Fail(NoCloseAngleMsg));
      }
      var _ := Put();
      return Success(id);
    }

    /** The kernel state `__kernel` leaves after reading a declaration
        `d`: the directive on, single-source exactly when `d` has template
        parameters (which replace the previous ones), and `d`'s name. */
    function Declared(k: Kernel, d: Declaration): Kernel {
      k.(kernelOn := true, singleSource := d.tparams.Some?,
         tparamsSrc := if d.tparams.Some? then d.tparams.value else k.tparamsSrc, name := d.name)
    }

    /** The kernel strings `kerArgs` builds: rebuilt from `args` while
        `MFEM_KERNEL` is on, untouched otherwise. */
    function Rebuilt(k: Kernel, args: seq<Argument>): Kernel {
      if !k.kernelOn then k
      else k.(xcc := cxx, dirname := srcDir, derived := Derive(args, k.singleSource, k.tparamsSrc))
    }

    /** The body of the loop of `kerArgs`: add one argument's entries to
        the kernel strings. */
    method ArgStrings(d: Derived, a: Argument) returns (e: Derived)
      ensures e == DeriveNext(d, a)
    {
      e := d;
      var isPointer := a.isPtr || a.isAmp;
      if a.isConst && !isPointer {
        var isDouble := a.typeName == "double";
        e := e.(tformat := CommaAppend(e.tformat, if !HasDefault(a) && isDouble then "0x%lx" else "%ld"));
        e := e.(targs := CommaAppend(e.targs, (if isDouble then "u" else "") + a.name));
        if !HasDefault(a) {
          e := e.(tparams := CommaAppend(e.tparams, "const " + (if isDouble then "uint64_t" else a.typeName) + " "
                                                    + (if isDouble then "t" else "") + a.name));
        }
        if isDouble {
          e := e.(d2u := e.d2u + ("\n\tconst union_du union_" + a.name + " = (union_du){u:t" + a.name + "};"
                                  + "\n\tconst double " + a.name + " = union_" + a.name + ".d;"));
          e := e.(u2d := e.u2d + ("\n\tconst uint64_t u" + a.name + " = (union_du){" + a.name + "}.u;"));
        }
      }
      if !a.isConst && !isPointer {
        e := e.(args := CommaAppend(e.args, a.name));
        e := e.(argsWoAmp := CommaAppend(e.argsWoAmp, a.name));
        e := e.(params := CommaAppend(e.params, a.typeName + " " + a.name));
      }
      if a.isConst && !isPointer && HasDefault(a) {
        e := e.(params := CommaAppend(e.params, " const " + a.typeName + " " + a.name));
        e := e.(argsWoAmp := CommaAppend(e.argsWoAmp, "0"));
        e := e.(args := CommaAppend(e.args, "0"));
      }
      if isPointer {
        e := e.(args := CommaAppend(e.args, (if a.isAmp then "&" else "") + "_" + a.name));
        e := e.(argsWoAmp := CommaAppend(e.argsWoAmp, "_" + a.name));
        e := e.(params := CommaAppend(e.params, (if a.isConst then "const " else "") + a.typeName + " *_" + a.name));
      }
    }

    /** The loop of `kerArgs`: the kernel strings of a list of arguments,
        built one argument at a time from cleared strings. */
    method DeriveAll(args: seq<Argument>) returns (d: Derived)
      ensures d == Derive(args, false, "")
    {
      d := Cleared;
      for i := 0 to |args|
        invariant d == DeriveFrom(args[..i])
      {
        assert args[..i + 1][..i] == args[..i];
        d := ArgStrings(d, args[i]);
      }
      assert args[..|args|] == args;
      DeriveFromIsDerive(args);
    }

    /** `kerArgs`: rebuild the kernel strings from the arguments. */
    method KerArgs()
      modifies this`ker
      ensures ker == Rebuilt(old(ker), args)
    {
      if !ker.kernelOn {
        return;
      }
      ker := ker.(xcc := cxx, dirname := srcDir);
      var d := DeriveAll(args);
      if ker.singleSource {
        d := d.(tparams := CommaAppend(d.tparams, ker.tparamsSrc));
      }
      ker := ker.(derived := d);
    }

    /** The punctuation `kerGetArgs` copies inside an argument list: `*`
        marks a pointer, `&` a reference, `(` opens a nesting level, `,`
        is copied.  (`is_star`, `is_amp`, `is_coma` and
        `is_left_parenthesis` each copy white space first; after the first
        of them there is none left.) */
    method ArgMark(arg: Argument, p: int) returns (hit: bool, next: Argument, q: int)
      requires Valid()
      modifies this`pos, this`out, this`line, this`embed
      ensures Valid()
      ensures var at := RunEnd(input, old(pos), IsSpace);
        && (hit <==> at < |input| && IsKernelMark(input[at]))
        && (hit ==> pos == at + 1
                    && next == (if input[at] == '*' then arg.(isPtr := true)
                                else if input[at] == '&' then arg.(isAmp := true) else arg)
                    && q == (if input[at] == '(' then p + 1 else p))
        && (!hit ==> pos == at && next == arg && q == p)
      ensures Wrote(ker.embedOn, old(Sunk()), input[old(pos)..pos], Sunk())
    {
      SkipSpace();
      next, q := arg, p;
      var c := Peek();
      hit := c == Some('*') || c == Some('&') || c == Some(',') || c == Some('(');
      if hit {
        ghost var s1, p1 := Sunk(), pos;
        var _ := Put();
        WroteSlices(ker.embedOn, input, old(pos), p1, pos, old(Sunk()), s1, Sunk());
        if c == Some('*') {
          next := arg.(isPtr := true);
        } else if c == Some('&') {
          next := arg.(isAmp := true);
        } else if c == Some('(') {
          q := p + 1;
        }
      }
    }

    /** A qualifier or a type name met in an argument list: written to the
        output and recorded in the argument being read.  Any other name is
        left to `ArgName`. */
    method ArgWord(id: string, arg: Argument) returns (r: Result<Option<Argument>>)
      requires Valid()
      modifies this`pos, this`out, this`line, this`embed
      ensures Valid() && old(pos) <= pos
      ensures id == "const" ==> r == Success(Some(arg.(isConst := true))) && out == old(out) + id
      ensures id == "__restrict" ==> r == Success(Some(arg.(isRestrict := true))) && out == old(out) + id
      ensures IsTypeWord(id) ==> r == Success(Some(arg.(typeName := id))) && out == old(out) + id
      ensures IsWord(id) && id != "Array" ==> pos == old(pos)
      ensures id == "Array" ==> var scan := ArrayTypeAt(input, old(pos));
        && (scan.Found? ==> r == Success(Some(arg.(typeName := "Array" + scan.value))) && pos == scan.end)
        && (scan.Refused? ==> r == Failure(Fail(scan.msg)))
      ensures !IsWord(id) ==> r == Success(None) && pos == old(pos) && out == old(out)
    {
      if id == "const" {
        out := out + id;
        return Success(Some(arg.(isConst := true)));
      }
      if id == "__restrict" {
        out := out + id;
        return Success(Some(arg.(isRestrict := true)));
      }
      if IsTypeWord(id) {
        out := out + id;
        return Success(Some(arg.(typeName := id)));
      }
      if id == "Array" {
        out := out + id;
        var t :- GetArrayType();
        return Success(Some(arg.(typeName := "Array" + t)));
      }
      return Success(None);
    }

    /** After an argument's name: an optional `= <digits>` default value,
        as `DefaultAt` reads it, whose decimal value is written.  Answers
        the value, if any. */
    method ArgDefault() returns (r: Result<Option<nat>>)
      requires Valid()
      modifies this`pos, this`out, this`line, this`embed
      ensures Valid() && old(pos) <= pos
      ensures var scan := DefaultAt(input, old(pos));
        && (scan.Found? ==> r == Success(scan.value) && pos == scan.end)
        && (scan.Refused? ==> r == Failure(Fail(scan.msg)))
      ensures r.Success? && r.value.Some? ==>
        EndsWith(out, DecimalString(r.value.value)) && DigitsValue(DecimalString(r.value.value)) == r.value.value
    {
      Next();
      var eq := Sees('=');
      ghost var a := pos;
      if eq {
        var _ := Put();
        Next();
        ghost var b := pos;
        assert b == CommentEnd(input, RunEnd(input, a + 1, IsSpace));
        var d := GetDigit();
        if d.Failure? {
          DefaultMissingAt(input, old(pos), a, b);
          return Failure(d.error);
        }
        var v := d.value;
        DefaultValueAt(input, old(pos), a, b);
        out := out + DecimalString(v);
        DecimalRoundTrip(v);
        return Success(Some(v));
      }
      assert DefaultAt(input, old(pos)) == Found(None, a);
      return Success(None);
    }

    /** `kerGetArgs`: copy the argument list of a kernel up to (not
        including) its closing parenthesis, recording the arguments
        `KernelArgList` reads.  A `void` list is dropped.  Answers whether
        the list ended in its first turn. */
    method KerGetArgs() returns (r: Result<bool>)
      requires Valid()
      modifies this`pos, this`out, this`line, this`embed, this`args
      ensures Valid() && old(pos) <= pos
      ensures var scan := KernelArgList(input, old(pos));
        && (scan.Found? ==> r.Success? && args == scan.value && pos == scan.end)
        && (scan.Refused? ==> r == Failure(Fail(scan.msg)))
        && (scan.Cut? ==> r == Failure(Abort))
      ensures var at := RunEnd(input, old(pos), IsSpace);
        r.Success? && args == [] <==> r.Success? && StartsWithAt(input, at, "void")
      ensures r.Success? && args == [] ==> r.value
      ensures r.Success? && args != [] ==> pos < |input| && input[pos] == ')'
    {
      args := [];
      SkipSpace();
      RunEndIdempotent(input, old(pos), IsSpace);
      var isVoid :- Keyword("void");
      if isVoid {
        DropName();
        return Success(true);
      }
      var empty :- ArgList();
      return Success(empty);
    }

    /** The loop of `kerGetArgs`, one `ArgTurn` at a time: arguments
        separated by commas, each made of qualifiers, a type and a name with
        an optional default value, until the parenthesis that closes the
        list.  Answers whether the first turn ended the list. */
    method ArgList() returns (r: Result<bool>)
      requires Valid() && args == []
      modifies this`pos, this`out, this`line, this`embed, this`args
      ensures Valid() && old(pos) <= pos
      ensures var scan := KernelArgsFrom(input, old(pos), Blank, 0, []);
        && (scan.Found? ==> r.Success? && args == scan.value && pos == scan.end)
        && (scan.Refused? ==> r == Failure(Fail(scan.msg)))
        && (scan.Cut? ==> r == Failure(Abort))
      ensures r.Success? ==> (r.value <==> KernelTurn(input, old(pos), Blank, 0, []).Ended?)
    {
      var arg := Blank;
      var p := 0;
      var empty := true;
      while true
        invariant Valid() && old(pos) <= pos && p >= 0
        invariant KernelArgsFrom(input, pos, arg, p, args) == KernelArgsFrom(input, old(pos), Blank, 0, [])
        invariant empty ==> pos == old(pos) && arg == Blank && p == 0 && args == []
        invariant !empty ==> KernelTurn(input, old(pos), Blank, 0, []).Going?
        decreases |input| - pos
      {
        var step := ArgTurn(arg, p);
        match step
        case Going(_, a, q, _) =>
          arg, p, empty := a, q, false;
        case Ended(Found(_, _)) =>
          return Success(empty);
        case Ended(Refused(msg)) =>
          return Failure(Fail(msg));
        case Ended(Cut) =>
          return Failure(Abort);
      }
    }

    /** One turn of the loop of `kerGetArgs`, as `KernelTurn` says: a
        punctuation mark, or else what `ArgWordTurn` reads. */
    method ArgTurn(arg: Argument, p: int) returns (step: KernelStep)
      requires Valid() && p >= 0
      modifies this`pos, this`out, this`line, this`embed, this`args
      ensures Valid() && old(pos) <= pos
      ensures step == KernelTurn(input, old(pos), arg, p, old(args))
      ensures step.Going? ==> pos == step.next && args == step.args
      ensures step.Ended? && step.outcome.Found? ==> pos == step.outcome.end && args == step.outcome.value
    {
      var hit, next, q := ArgMark(arg, p);
      if hit {
        return Going(pos, next, q, args);
      }
      step := ArgWordTurn(arg, p);
    }

    /** A turn of the loop of `kerGetArgs` that meets a name, as `WordTurn`
        says: a qualifier or a type is recorded in the argument, any other
        name is the argument's. */
    method ArgWordTurn(arg: Argument, p: int) returns (step: KernelStep)
      requires Valid() && p >= 0
      modifies this`pos, this`out, this`line, this`embed, this`args
      ensures Valid() && old(pos) <= pos
      ensures step == WordTurn(input, old(pos), arg, p, old(args))
      ensures step.Going? ==> pos == step.next && args == step.args
      ensures step.Ended? && step.outcome.Found? ==> pos == step.outcome.end && args == step.outcome.value
    {
      var id := PeekId();
      DropName();
      var word := ArgWord(id, arg);
      if word.Failure? {
        return Ended(Refused(word.error.msg));
      }
      if word.value.Some? {
        return Going(pos, word.value.value, p, args);
      }
      out := out + (if arg.isPtr || arg.isAmp then "_" else "") + id;
      step := ArgName(arg.(name := id), p);
    }

    /** The end of a turn that has read an argument's name, as `NamedTurn`
        says: its default value, then the argument is recorded and the
        separator is looked at. */
    method ArgName(arg: Argument, p: int) returns (step: KernelStep)
      requires Valid() && p >= 0
      modifies this`pos, this`out, this`line, this`embed, this`args
      ensures Valid() && old(pos) <= pos
      ensures step == NamedTurn(input, old(pos), arg, p, old(args))
      ensures step.Going? ==> pos == step.next && args == step.args
      ensures step.Ended? && step.outcome.Found? ==> pos == step.outcome.end && args == step.outcome.value
    {
      var value := ArgDefault();
      if value.Failure? {
        return Ended(Refused(value.error.msg));
      }
      args := args + [arg.(defaultValue := if value.value.Some? then value.value else arg.defaultValue)];
      step := ArgSeparator(p);
    }

    /** The separator after a recorded argument, as `SeparatorTurn` says. */
    method ArgSeparator(p: int) returns (step: KernelStep)
      requires Valid() && p >= 0
      modifies this`pos, this`out, this`line, this`embed
      ensures Valid() && old(pos) <= pos
      ensures step == SeparatorTurn(input, old(pos), p, args)
      ensures step.Going? ==> pos == step.next
      ensures step.Ended? && step.outcome.Found? ==> pos == step.outcome.end
    {
      if pos == |input| {
        return Ended(Cut);
      }
      var q := p;
      if input[pos] == ')' {
        q := q - 1;
        if q >= 0 {
          var _ := Put();
          return Going(pos, Blank, q, args);
        }
      }
      if q < 0 {
        return Ended(Found(args, pos));
      }
      if Peek() != Some(',') {
        return Ended(Refused(NoComaMsg));
      }
      var _ := Put();
      return Going(pos, Blank, q, args);
    }

    /** `kerAmpFromPtr`: re-bind every pointer-like argument to its own name
        at the top of the kernel body. */
    method KerAmpFromPtr()
      modifies this`out
      ensures out == old(out) + Concat(Collect(args, AliasLine))
    {
      for i := 0 to |args|
        invariant out == old(out) + Concat(Collect(args[..i], AliasLine))
      {
        var a := args[i];
        GrowSnoc(args[..i], a, AliasLine);
        assert args[..i + 1] == args[..i] + [a];
        ghost var done := Concat(Collect(args[..i], AliasLine));
        var isPointer := a.isPtr || a.isAmp;
        if a.isConst && isPointer {
          var alias := "\n\tconst " + a.typeName + (if a.isAmp then "&" else "*") + a.name
                       + " = " + (if a.isAmp then "*" else " ") + " _" + a.name + ";";
          assert AliasLine(a) == Some(alias);
          out := out + alias;
          AppendAssoc(old(out), done, alias);
        }
        if !a.isConst && isPointer {
          var alias := "\n\t" + a.typeName + (if a.isAmp then "&" else "*") + a.name
                       + " = " + (if a.isAmp then "*" else " ") + " _" + a.name + ";";
          assert AliasLine(a) == Some(alias);
          out := out + alias;
          AppendAssoc(old(out), done, alias);
        }
      }
      assert args[..|args|] == args;
    }

    /** `kerPrefix`: open the kernel source and start counting blocks. */
    method KerPrefix()
      modifies this`out, this`block
      ensures !ker.kernelOn ==> out == old(out) && block == old(block)
      ensures ker.kernelOn ==> out == old(out) + Prologue(ker, embed, texts) && block == 0
    {
      if !ker.kernelOn {
        return;
      }
      out := out + Prologue(ker, embed, texts);
      block := 0;
    }

    /** `kerPostfix`: track the depth of the kernel body; at its closing
        brace write the rest of the generated code and close the kernel. */
    method KerPostfix()
      requires Valid()
      modifies this`out, this`block, this`ker
      ensures !old(ker.kernelOn) ==> out == old(out) && block == old(block) && ker == old(ker)
      ensures old(ker.kernelOn) ==> block == Advance(old(block), Peek())
      ensures old(ker.kernelOn) && Fires(old(block), Peek()) ==>
        out == old(out) + Epilogue(old(ker), texts) && ker == old(ker).(kernelOn := false)
      ensures old(ker.kernelOn) && !Fires(old(block), Peek()) ==> out == old(out) && ker == old(ker)
    {
      if !ker.kernelOn {
        return;
      }
      block := Track(block, Peek());
      if block != -1 {
        return;
      }
      out := out + Epilogue(ker, texts);
      block := block - 1;
      ker := ker.(kernelOn := false);
    }

    /** The template parameters of a single-source kernel, as `AngleAt`
        reads them: a `<`, then everything up to the next `>`, which is
        dropped as well.  Reaching the end of the input first stops the
        program. */
    method SingleSourceParams() returns (r: Result<string>)
      requires Valid()
      modifies this`pos
      ensures Valid() && old(pos) <= pos
      ensures var scan := AngleAt(input, old(pos));
        && (scan.Found? ==> r == Success(scan.value) && pos == scan.end)
        && (scan.Refused? ==> r == Failure(Fail(scan.msg)))
        && (scan.Cut? ==> r == Failure(Abort))
    {
      if Peek() != Some('<') {
        return Failure(Fail(NoSingleAngleMsg));
      }
      var _ := Get();
      var src := "";
      while Peek() != Some('>')
        invariant Valid() && old(pos) < pos
        invariant RunEnd(input, old(pos) + 1, IsNotGt) == RunEnd(input, pos, IsNotGt)
        invariant src == input[old(pos) + 1..pos]
        decreases |input| - pos
      {
        if pos == |input| {
          return Failure(Abort);
        }
        var c := Get();
        src := src + [c.value];
      }
      var _ := Get();
      return Success(src);
    }

    /** The `template<...>` head of a single-source kernel, from the
        `template` word: the word is dropped with the white space and a
        comment after it, and the text between the angle brackets answered. */
    method TemplateParams() returns (r: Result<string>)
      requires Valid()
      modifies this`pos, this`out, this`line, this`embed
      ensures Valid() && old(pos) <= pos
      ensures !(old(pos) < |input| && IsIdChar(input[old(pos)])) ==> r == Failure(Fail(NoNameMsg))
      ensures old(pos) < |input| && IsIdChar(input[old(pos)]) ==>
        var scan := AngleAt(input, AfterWord(input, old(pos)));
        && (scan.Found? ==> r == Success(scan.value) && pos == scan.end)
        && (scan.Refused? ==> r == Failure(Fail(scan.msg)))
        && (scan.Cut? ==> r == Failure(Abort))
    {
      var _ :- GetId();
      Next();
      r := SingleSourceParams();
    }

    /** A kernel signature must start with `void`, `static` or `template`,
        after white space, which is copied; reaching the end of the input
        there stops the program. */
    method KernelStart() returns (r: Result<()>)
      requires Valid()
      modifies this`pos, this`out, this`line, this`embed
      ensures Valid() && pos == RunEnd(input, old(pos), IsSpace)
      ensures r.Failure? <==> pos == |input| || !KernelKeywordAt(input, pos)
      ensures pos == |input| ==> r == Failure(Abort)
      ensures pos < |input| && r.Failure? ==> r == Failure(Fail(NoKeywordMsg))
    {
      var ok :- Keyword("void");
      // once one keyword has been looked for, the input cannot end here
      if !ok {
        var isStatic := KeywordAgain("static", old(pos));
        ok := isStatic.Success? && isStatic.value;
      }
      if !ok {
        var isTemplate := KeywordAgain("template", old(pos));
        ok := isTemplate.Success? && isTemplate.value;
      }
      if !ok {
        return Failure(Fail(NoKeywordMsg));
      }
      return Success(());
    }

    /** The head of `__kernel`, as `KernelHeadAt` reads it: the signature
        must start with `void`, `static` or `template`; a `template<...>`
        head is dropped and its parameters answered (the kernel is then a
        single-source one), and a `static` is written out. */
    method KernelHead() returns (r: Result<Option<string>>)
      requires Valid()
      modifies this`pos, this`out, this`line, this`embed
      ensures Valid() && old(pos) <= pos
      ensures var scan := KernelHeadAt(input, old(pos));
        && (scan.Found? ==> r == Success(scan.value) && pos == scan.end)
        && (scan.Refused? ==> r == Failure(Fail(scan.msg)))
        && (scan.Cut? ==> r == Failure(Abort))
    {
      var _ :- KernelStart();
      var params :- SingleSourceHead(old(pos));
      var _ :- StaticWord();
      return Success(params);
    }

    /** The `template<...>` head of a single-source kernel, if one starts
        here (where the white space after `from` has just been copied):
        answers its parameters, as `AngleAt` reads them. */
    method SingleSourceHead(ghost from: nat) returns (r: Result<Option<string>>)
      requires Valid() && from <= pos && pos == RunEnd(input, from, IsSpace) && pos < |input|
      modifies this`pos, this`out, this`line, this`embed
      ensures Valid() && old(pos) <= pos
      ensures !StartsWithAt(input, old(pos), "template") ==> r == Success(None) && pos == old(pos)
      ensures StartsWithAt(input, old(pos), "template") ==>
        var scan := AngleAt(input, AfterWord(input, old(pos)));
        && (scan.Found? ==> r == Success(Some(scan.value)) && pos == scan.end)
        && (scan.Refused? ==> r == Failure(Fail(scan.msg)))
        && (scan.Cut? ==> r == Failure(Abort))
    {
      var t := KeywordAgain("template", from);
      if !(t.Success? && t.value) {
        return Success(None);
      }
      var src :- TemplateParams();
      return Success(Some(src));
    }

    /** `isstatic` after the head of a kernel: a `static` word is written
        out.  Answers where the return type may start. */
    method StaticWord() returns (r: Result<()>)
      requires Valid()
      modifies this`pos, this`out, this`line, this`embed
      ensures Valid() && old(pos) <= pos
      ensures var c := RunEnd(input, old(pos), IsSpace);
        && (c == |input| ==> r == Failure(Abort))
        && (c < |input| ==> r.Success? && pos == if StartsWithAt(input, c, "static") then RunEnd(input, c, IsIdChar) else c)
    {
      var isStatic :- Keyword("static");
      if isStatic {
        var id := IdRun();
        out := out + id;
      }
      return Success(());
    }

    /** The return type and the name of a kernel, as `KernelNameAt` reads
        them, both written out; answers the name. */
    method KernelName() returns (r: Result<string>)
      requires Valid()
      modifies this`pos, this`out, this`line, this`embed
      ensures Valid() && old(pos) <= pos
      ensures var scan := KernelNameAt(input, old(pos));
        && (scan.Found? ==> r == Success(scan.value) && pos == scan.end)
        && (scan.Refused? ==> r == Failure(Fail(scan.msg)))
    {
      Next();
      var returnType :- GetId();
      out := out + returnType;
      Next();
      var name :- GetId();
      out := out + name;
      Next();
      return Success(name);
    }

    /** The parameter list of a kernel, as `KernelParamsAt` reads it,
        copied with its parentheses up to the opening brace of the body;
        the arguments are recorded in `args`. */
    method KernelParams() returns (r: Result<()>)
      requires Valid()
      modifies this`pos, this`out, this`line, this`embed, this`args
      ensures Valid() && old(pos) <= pos
      ensures var scan := KernelParamsAt(input, old(pos));
        && (scan.Found? ==> r.Success? && args == scan.value && pos == scan.end)
        && (scan.Refused? ==> r == Failure(Fail(scan.msg)))
        && (scan.Cut? ==> r == Failure(Abort))
    {
      if Peek() != Some('(') {
        return Failure(Fail(NoFirstParenMsg));
      }
      var _ := Put();
      ghost var list := KernelArgList(input, pos);
      var g := KerGetArgs();
      if g.Failure? {
        return Failure(g.error);
      }
      assert list == Found(args, pos);
      r := KernelClose();
    }

    /** The end of the kernel's signature: the `)` that closes its
        arguments, then, after white space and a comment, the `{` that opens
        its body. */
    method KernelClose() returns (r: Result<()>)
      requires Valid()
      modifies this`pos, this`out, this`line, this`embed
      ensures Valid() && old(pos) <= pos
      ensures !(old(pos) < |input| && input[old(pos)] == ')') ==> r == Failure(Fail(NoLastParenMsg))
      ensures old(pos) < |input| && input[old(pos)] == ')' ==>
        var w := CommentEnd(input, RunEnd(input, old(pos) + 1, IsSpace));
        && (w < |input| && input[w] == '{' ==> r == Success(()) && pos == w + 1)
        && (!(w < |input| && input[w] == '{') ==> r == Failure(Fail(NoBodyMsg)))
      ensures var scan := ListCloseAt(input, old(pos));
        && (scan.Found? ==> r.Success? && pos == scan.end)
        && (scan.Refused? ==> r == Failure(Fail(scan.msg)))
    {
      if Peek() != Some(')') {
        return Failure(Fail(NoLastParenMsg));
      }
      var _ := Put();
      Next();
      if Peek() != Some('{') {
        return Failure(Fail(NoBodyMsg));
      }
      var _ := Put();
      return Success(());
    }

    /** The kernel's head, return type and name, as `KernelDeclarationAt`
        reads them, recorded in `ker` by `Declared`. */
    method KernelDeclaration() returns (r: Result<()>)
      requires Valid()
      modifies this`pos, this`out, this`line, this`embed, this`ker
      ensures Valid() && old(pos) <= pos
      ensures var scan := KernelDeclarationAt(input, old(pos));
        && (scan.Found? ==> r.Success? && ker == Declared(old(ker), scan.value) && pos == scan.end)
        && (scan.Refused? ==> r == Failure(Fail(scan.msg)))
        && (scan.Cut? ==> r == Failure(Abort))
    {
      ker := ker.(kernelOn := true);
      Next();
      var params :- KernelHead();
      ker := ker.(singleSource := params.Some?, tparamsSrc := if params.Some? then params.value else ker.tparamsSrc);
      var name :- KernelName();
      ker := ker.(name := name);
      return Success(());
    }

    /** The directive up to the body's opening brace, as
        `KernelSignatureAt` reads it: the kernel's declaration, its
        arguments, and the kernel strings rebuilt from them. */
    method KernelSignature() returns (r: Result<()>)
      requires Valid()
      modifies this`pos, this`out, this`line, this`embed, this`ker, this`args
      ensures Valid() && old(pos) <= pos
      ensures var scan := KernelSignatureAt(input, old(pos));
        && (scan.Found? ==> r.Success? && args == scan.value.1 && pos == scan.end
                            && ker == Rebuilt(Declared(old(ker), scan.value.0), args))
        && (scan.Refused? ==> r == Failure(Fail(scan.msg)))
        && (scan.Cut? ==> r == Failure(Abort))
      // The kernel strings come from this kernel's own list, `void` included,
      // and it is single-source exactly when its own head says `template`.
      ensures r.Success? ==> ker.derived == Derive(args, ker.singleSource, ker.tparamsSrc)
      ensures var scan := KernelSignatureAt(input, old(pos));
        scan.Found? ==> (ker.singleSource <==> scan.value.0.tparams.Some?)
    {
      var _ :- KernelDeclaration();
      var _ :- KernelParams();
      KerArgs();
      return Success(());
    }

    /** What the directive writes right after the opening brace. */
    method KernelOpen()
      requires ker.kernelOn
      modifies this`out, this`block
      ensures block == 0
      ensures EndsWith(out, Prologue(ker, embed, texts) + Concat(Collect(args, AliasLine)))
    {
      ghost var before := out;
      KerPrefix();
      KerAmpFromPtr();
      EndsWithAppend(before, Prologue(ker, embed, texts), Concat(Collect(args, AliasLine)));
    }

    /** `__kernel`: parse the signature after `MFEM_KERNEL`, copying it,
        open the kernel source with its prologue and re-bind the
        pointer-like arguments. */
    method Kernel() returns (r: Result<()>)
      requires Valid()
      modifies this`pos, this`out, this`line, this`embed, this`ker, this`block, this`args
      ensures Valid() && old(pos) <= pos
      ensures var scan := KernelSignatureAt(input, old(pos));
        && (scan.Found? ==> r.Success? && args == scan.value.1 && pos == scan.end
                            && ker == Rebuilt(Declared(old(ker), scan.value.0), args) && block == 0)
        && (scan.Refused? ==> r == Failure(Fail(scan.msg)))
        && (scan.Cut? ==> r == Failure(Abort))
      ensures r.Success? ==> ker.kernelOn && ker.derived == Derive(args, ker.singleSource, ker.tparamsSrc)
      ensures r.Success? ==> EndsWith(out, Prologue(ker, embed, texts) + Concat(Collect(args, AliasLine)))
    {
      r := KernelSignature();
      if r.Failure? {
        return;
      }
      KernelOpen();
    }

    // -------------------------------------------------------------------------
    // MFEM_RANGE

    /** `__range`: the list `(...)` after `MFEM_RANGE`, its values appended
        to `acc` (what the argument's range already holds).  Reads exactly
        what `RangeList` describes, with the same outcome. */
    method Range(acc: seq<int>) returns (r: Result<seq<int>>)
      requires Valid()
      modifies this`pos
      ensures Valid() && old(pos) <= pos
      ensures var scan := RangeList(input, old(pos), acc);
        && (scan.Done? ==> r == Success(scan.values) && pos == scan.end)
        && (scan.Rejected? ==> r == Failure(Fail(scan.msg)))
        && (scan.Truncated? ==> r == Failure(Abort))
    {
      var open := Get();
      if open != Some('(') {
        return Failure(Fail(NoRangeMsg));
      }
      var values, dash := acc, false;
      while true
        invariant Valid() && old(pos) < pos
        invariant dash ==> values != []
        invariant RangeItems(input, pos, dash, values) == RangeList(input, old(pos), acc)
        decreases |input| - pos
      {
        var step := RangeItem(dash, values);
        match step
        case Continue(_, d, vs) =>
          dash, values := d, vs;
        case Stop(Done(vs, _)) =>
          return Success(vs);
        case Stop(Rejected(msg)) =>
          return Failure(Fail(msg));
        case Stop(Truncated) =>
          return Failure(Abort);
      }
    }

    /** One pass of the `do ... while` of `__range`: a number, the span
        before it when the previous separator was a dash, and the separator
        after it; as `ItemAt` describes. */
    method RangeItem(dash: bool, values: seq<int>) returns (step: Step)
      requires Valid() && (dash ==> values != [])
      modifies this`pos
      ensures Valid() && old(pos) <= pos
      ensures step == ItemAt(input, old(pos), dash, values)
      ensures step.Continue? ==> pos == step.next
      ensures step.Stop? && step.outcome.Done? ==> pos == step.outcome.end
    {
      var got := GetDigit();
      if got.Failure? {
        return Stop(Rejected(UnknownNumberMsg));
      }
      var n := got.value;
      var next := values;
      if dash {
        next := Span(values, n);
      }
      next := next + [n];
      var c := Get();
      if c.None? {
        return Stop(Truncated);
      }
      if !(c.value == ',' || c.value == '-' || c.value == ')') {
        return Stop(Rejected(UnknownRangeMsg));
      }
      if c.value == ')' {
        return Stop(Done(next, pos));
      }
      return Continue(pos, c.value == '-', next);
    }

    /** The `for` loop of `__range` after a dash: the values strictly
        between the last one and `n`. */
    method Span(values: seq<int>, n: int) returns (filled: seq<int>)
      requires values != []
      ensures filled == values + Interval(values[|values| - 1] + 1, n)
    {
      var lo := values[|values| - 1] + 1;
      filled := values;
      var i := lo;
      while i < n
        invariant lo <= i && (i <= n || i == lo)
        invariant filled == values + Interval(lo, i)
        decreases n - i
      {
        IntervalSnoc(lo, i);
        filled := filled + [i];
        i := i + 1;
      }
    }

    // -------------------------------------------------------------------------
    // MFEM_EMBED

    /** `__embed`: turn collection on, copy up to and including the first
        `{` and start counting blocks.  The source loops for ever when no
        `{` follows (see `Findings.EmbedAsWritten`); here that is the
        diagnostic `__template` gives for a missing body. */
    method Embed() returns (r: Result<()>)
      requires Valid()
      modifies this`pos, this`out, this`line, this`embed, this`ker, this`block
      ensures Valid() && old(pos) <= pos
      ensures ker == old(ker).(embedOn := true)
      ensures Wrote(true, old(Sunk()), input[old(pos)..pos], Sunk())
      ensures r.Success? <==> '{' in input[old(pos)..]
      ensures r.Success? ==> old(pos) < pos && input[pos - 1] == '{' && '{' !in input[old(pos)..pos - 1] && block == 0
      ensures r.Failure? ==> pos == |input| && r.error == Fail(NoBodyMsg) && block == old(block)
    {
      ker := ker.(embedOn := true);
      var found := CopyToBrace();
      if !found {
        return Failure(Fail(NoBodyMsg));
      }
      block := 0;
      return Success(());
    }

    /** The loop of `__embed`: put characters up to and including the first
        `{`, or to the end of the input when there is none. */
    method CopyToBrace() returns (found: bool)
      requires Valid()
      modifies this`pos, this`out, this`line, this`embed
      ensures Valid() && old(pos) <= pos
      ensures Wrote(ker.embedOn, old(Sunk()), input[old(pos)..pos], Sunk())
      ensures found <==> '{' in input[old(pos)..]
      ensures found ==> old(pos) < pos && input[pos - 1] == '{' && '{' !in input[old(pos)..pos - 1]
      ensures !found ==> pos == |input|
    {
      WroteNothing(ker.embedOn, Sunk());
      while pos < |input|
        invariant old(pos) <= pos <= |input|
        invariant forall k :: old(pos) <= k < pos ==> input[k] != '{'
        invariant Wrote(ker.embedOn, old(Sunk()), input[old(pos)..pos], Sunk())
        decreases |input| - pos
      {
        ghost var s1, p1 := Sunk(), pos;
        var c := Put();
        WroteSlices(ker.embedOn, input, old(pos), p1, pos, old(Sunk()), s1, Sunk());
        if c == '{' {
          assert input[old(pos)..][p1 - old(pos)] == '{';
          return true;
        }
      }
      return false;
    }

    /** `embedPostfix`: track the depth of the embedded block; at its
        closing brace put the brace, stop collecting and end the collected
        text with a newline. */
    method EmbedPostfix() returns (r: Result<()>)
      requires Valid()
      modifies this`pos, this`out, this`line, this`embed, this`ker, this`block
      ensures Valid()
      ensures !old(ker.embedOn) ==>
        r.Success? && pos == old(pos) && Sunk() == old(Sunk()) && ker == old(ker) && block == old(block)
      ensures old(ker.embedOn) && r.Success? ==> block == Advance(old(block), old(Peek()))
      ensures old(ker.embedOn) && !Fires(old(block), old(Peek())) ==>
        r.Success? && pos == old(pos) && Sunk() == old(Sunk()) && ker == old(ker)
      ensures old(ker.embedOn) && Fires(old(block), old(Peek())) && old(Peek()) == Some('}') ==>
        r.Success? && pos == old(pos) + 1 && ker == old(ker).(embedOn := false)
        && out == old(out) + "}" && line == old(line) && embed == old(embed) + "}\n"
      ensures old(ker.embedOn) && Fires(old(block), old(Peek())) && old(Peek()) != Some('}') ==>
        r == Failure(old(Fail(NoBlocksMsg))) && pos == old(pos) && Sunk() == old(Sunk()) && ker == old(ker)
    {
      if !ker.embedOn {
        return Success(());
      }
      block := Track(block, Peek());
      if block != -1 {
        return Success(());
      }
      if Peek() != Some('}') {
        return Failure(Fail(NoBlocksMsg));
      }
      PutBrace();
      block := block - 1;
      ker := ker.(embedOn := false);
      AppendAssoc(old(embed), "}", "\n");
      embed := embed + "\n";
      return Success(());
    }

    // -------------------------------------------------------------------------
    // MFEM_TEMPLATE: the launcher

    /** The values of one combination as the inner loop of `templatePostfix`
        writes them: each value followed by a comma, except the last. */
    method JoinValues(combo: seq<int>) returns (j: string)
      ensures j == JoinWith(",", IntStrings(combo))
    {
      j := "";
      for i := 0 to |combo|
        invariant j == JoinWith(",", IntStrings(combo[..i])) + (if 0 < i < |combo| then "," else "")
      {
        assert combo[..i + 1][..i] == combo[..i];
        JoinSnoc(",", IntStrings(combo[..i]), IntString(combo[i]));
        j := j + IntString(combo[i]) + (if i + 1 == |combo| then "" else ",");
      }
      assert combo[..|combo|] == combo;
    }

    /** One table entry: the key of the combination in hexadecimal and the
        specialisation it selects. */
    method WriteEntry(name: string, combo: seq<int>)
      modifies this`out
      ensures out == old(out) + Entry(name, combo)
    {
      var hash := TableKey(combo);
      var values := JoinValues(combo);
      out := out + ("\n\t\t{" + ("0x" + HexString(hash as int)) + ",&__" + name + "<" + values + ">},");
    }

    /** The loop over `templateOuterProduct(...)`: one entry per combination,
        in order. */
    method WriteTable(name: string, combos: seq<seq<int>>)
      modifies this`out
      ensures out == old(out) + Table(name, combos)
    {
      for k := 0 to |combos|
        invariant out == old(out) + Table(name, combos[..k])
      {
        ghost var before := out;
        WriteEntry(name, combos[k]);
        assert combos[..k + 1][..k] == combos[..k];
        assert Entries(name, combos[..k + 1]) == Entries(name, combos[..k]) + [Entry(name, combos[k])];
        ConcatSnoc(Entries(name, combos[..k]), Entry(name, combos[k]));
        AppendAssoc(old(out), Table(name, combos[..k]), Entry(name, combos[k]));
      }
      assert combos[..|combos|] == combos;
    }

    /** What `templatePostfix` writes after the closing brace. */
    method WriteLauncher(name: string, tpl: Template)
      modifies this`out
      ensures out == old(out) + Launcher(name, tpl, texts)
    {
      var head := LauncherHead(name, tpl, texts);
      out := out + head;
      var combos := OuterProduct(tpl.ranges);
      WriteTable(name, combos);
      var tail := LauncherTail(tpl, texts);
      out := out + tail;
      AppendAssoc3(old(out), head, Table(name, combos), tail);
    }

    /** `templatePostfix`: track the depth of the kernel body; at its closing
        brace put the brace, close the directive and write the launcher. */
    method TemplatePostfix() returns (r: Result<()>)
      requires Valid()
      modifies this`pos, this`out, this`line, this`embed, this`ker, this`block
      ensures Valid()
      ensures !old(ker.templateOn) ==>
        r.Success? && pos == old(pos) && Sunk() == old(Sunk()) && ker == old(ker) && block == old(block)
      ensures old(ker.templateOn) && r.Success? ==> block == Advance(old(block), old(Peek()))
      ensures old(ker.templateOn) && !Fires(old(block), old(Peek())) ==>
        r.Success? && pos == old(pos) && Sunk() == old(Sunk()) && ker == old(ker)
      ensures old(ker.templateOn) && Fires(old(block), old(Peek())) && old(Peek()) == Some('}') ==>
        r.Success? && pos == old(pos) + 1 && ker == old(ker).(templateOn := false)
        && out == old(out) + "}" + Launcher(ker.name, ker.tpl, texts)
        && line == old(line) && embed == Collected(ker.embedOn, old(embed), "}")
      ensures old(ker.templateOn) && Fires(old(block), old(Peek())) && old(Peek()) != Some('}') ==>
        r == Failure(old(Fail(NoBlocksMsg))) && pos == old(pos) && Sunk() == old(Sunk()) && ker == old(ker)
    {
      if !ker.templateOn {
        return Success(());
      }
      block := Track(block, Peek());
      if block != -1 {
        return Success(());
      }
      if Peek() != Some('}') {
        return Failure(Fail(NoBlocksMsg));
      }
      CloseTemplate();
      return Success(());
    }

    /** Put the closing brace of a directive's body. */
    method PutBrace()
      requires Valid() && pos < |input| && input[pos] == '}'
      modifies this`pos, this`out, this`line, this`embed
      ensures Valid() && pos == old(pos) + 1
      ensures out == old(out) + "}" && line == old(line) && embed == Collected(ker.embedOn, old(embed), "}")
    {
      var _ := Put();
      assert input[old(pos)..pos] == "}" && "}"[..0] == [];
    }

    /** The closing brace of an `MFEM_TEMPLATE` body and the launcher. */
    method CloseTemplate()
      requires Valid() && pos < |input| && input[pos] == '}'
      modifies this`pos, this`out, this`line, this`embed, this`ker, this`block
      ensures Valid() && pos == old(pos) + 1 && block == old(block) - 1
      ensures ker == old(ker).(templateOn := false)
      ensures out == old(out) + "}" + Launcher(ker.name, ker.tpl, texts)
      ensures line == old(line) && embed == Collected(ker.embedOn, old(embed), "}")
    {
      PutBrace();
      block := block - 1;
      WriteLauncher(ker.name, ker.tpl);
      ker := ker.(templateOn := false);
    }

    // -------------------------------------------------------------------------
    // MFEM_TEMPLATE

    /** The punctuation `templateGetArgs` keeps in the text of the argument
        being read, as `TemplateTurn` reads it: `*` marks a pointer, `,` is
        kept as it is.  White space before the first is kept too. */
    method TemplateMark(arg: Argument, current: string) returns (hit: bool, next: Argument, cur: string)
      requires Valid()
      modifies this`pos, this`out, this`line, this`embed
      ensures Valid() && old(pos) <= pos
      ensures var b := RunEnd(input, CommentEnd(input, RunEnd(input, old(pos), IsSpace)), IsSpace);
        var c := RunEnd(input, CommentEnd(input, RunEnd(input, b, IsSpace)), IsSpace);
        var star := b < |input| && input[b] == '*';
        var comma := c < |input| && input[c] == ',';
        && (hit <==> star || comma)
        && (star ==> next == arg.(isPtr := true) && pos == b + 1)
        && (!star && comma ==> next == arg && pos == c + 1)
        && (!hit ==> next == arg && pos == c)
        && cur == current + input[old(pos)..RunEnd(input, old(pos), IsSpace)]
                  + (if star then "*" else if comma then "," else "")
    {
      next := arg;
      hit, cur := CopyMark('*', current);
      if hit {
        next := arg.(isPtr := true);
        return;
      }
      ghost var b := pos;
      RunEndIdempotent(input, CommentEnd(input, RunEnd(input, old(pos), IsSpace)), IsSpace);
      assert input[b..RunEnd(input, b, IsSpace)] == [];
      hit, cur := CopyMark(',', cur);
    }

    /** Move white space into `current`, copy a comment and the white space
        after it, and if `c` comes next move it into `current` as well. */
    method CopyMark(c: char, current: string) returns (hit: bool, cur: string)
      requires Valid()
      modifies this`pos, this`out, this`line, this`embed
      ensures Valid()
      ensures var b := RunEnd(input, CommentEnd(input, RunEnd(input, old(pos), IsSpace)), IsSpace);
        && (hit <==> b < |input| && input[b] == c)
        && pos == (if hit then b + 1 else b)
        && cur == current + input[old(pos)..RunEnd(input, old(pos), IsSpace)] + (if hit then [c] else [])
    {
      cur := SkipSpaceInto(current);
      Comments();
      hit := Sees(c);
      if hit {
        var d := Get();
        cur := cur + [d.value];
      }
    }

    /** A qualifier or a type name met in a template's argument list:
        `MFEM_RANGE(...)` makes the argument a ranged one and adds the
        values listed to its range; `const` and the type names are
        recorded.  Any other name is the argument's own. */
    method TemplateWord(id: string, arg: Argument) returns (r: Result<Option<Argument>>)
      requires Valid()
      modifies this`pos
      ensures Valid() && old(pos) <= pos
      ensures id == "MFEM_RANGE" ==> var scan := RangeList(input, old(pos), arg.range);
        && (scan.Done? ==> r == Success(Some(arg.(range := scan.values, isTpl := true))) && pos == scan.end)
        && (scan.Rejected? ==> r == Failure(Fail(scan.msg)))
        && (scan.Truncated? ==> r == Failure(Abort))
      ensures id == "const" ==> r == Success(Some(arg.(isConst := true))) && pos == old(pos)
      ensures id in TypeNames ==> r == Success(Some(arg.(typeName := id))) && pos == old(pos)
      ensures !(id == "MFEM_RANGE" || id == "const" || id in TypeNames) ==> r == Success(None) && pos == old(pos)
    {
      if id == "MFEM_RANGE" {
        var values :- Range(arg.range);
        return Success(Some(arg.(range := values, isTpl := true)));
      }
      if id == "const" {
        return Success(Some(arg.(isConst := true)));
      }
      if id in TypeNames {
        return Success(Some(arg.(typeName := id)));
      }
      return Success(None);
    }

    /** The name of an argument of a template has been read: record the
        argument as a runtime one (in `args`) or as a ranged one (in
        `ranged`), and extend the launcher's parameter list.  Answers the
        updated template strings; `base` is the template as it was before
        the list. */
    method RecordTemplateArg(tpl: Template, arg: Argument, current: string, nargs: nat, targs: nat,
                             ghost base: Template, ranged: seq<Argument>)
      returns (next: Template, nargs': nat, targs': nat, ranged': seq<Argument>)
      requires Gathered(base, tpl, args, ranged)
      requires nargs == |args| && targs == |ranged| && (arg.isTpl ==> arg.range != [])
      modifies this`args
      ensures Gathered(base, next, args, ranged')
      ensures nargs' == |args| && targs' == |ranged'|
      ensures !arg.isTpl ==>
        args == old(args) + [arg] && ranged' == ranged && next.signature == tpl.signature + current + arg.name
      ensures arg.isTpl ==>
        args == old(args) && ranged' == ranged + [arg] && next.signature == tpl.signature
      ensures next.params == tpl.params + current + arg.name + (if nargs' == 0 && targs' > 0 then "," else "")
    {
      nargs', targs', ranged' := nargs, targs, ranged;
      next := tpl;
      if !arg.isTpl {
        GatheredPlain(base, next, args, ranged, arg, current);
        next := next.(signature := next.signature + current + arg.name,
                      args := next.args + (if nargs == 0 then "" else ", ") + arg.name);
        args := args + [arg];
        nargs' := nargs + 1;
      } else {
        GatheredRanged(base, next, args, ranged, arg);
        next := next.(tparams := next.tparams + (if targs == 0 then "" else ", ") + RangedParam(arg),
                      ranges := next.ranges + [arg.range],
                      targs := next.targs + (if targs == 0 then "" else ", ") + arg.name);
        ranged' := ranged + [arg];
        targs' := targs + 1;
      }
      var extra := current + arg.name + (if nargs' == 0 && targs' > 0 then "," else "");
      GatheredGrow(base, next, args, ranged', extra);
      AppendAssoc3(next.params, current, arg.name, if nargs' == 0 && targs' > 0 then "," else "");
      next := next.(params := next.params + extra);
    }

    /** After an argument of a template: the parenthesis that closes the
        list ends it (answers `true`, nothing consumed); otherwise a comma
        must follow, after white space (kept in `current`) and a comment,
        and is consumed.  `p` counts the parentheses opened inside the
        list; `current` starts the text of the next argument. */
    method TemplateSeparator(p: int, nargs: int) returns (r: Result<bool>, q: int, current: string)
      requires Valid() && p >= 0
      modifies this`pos, this`out, this`line, this`embed
      ensures Valid() && old(pos) <= pos
      ensures old(pos) == |input| ==> r == Failure(Abort)
      ensures old(pos) < |input| ==>
        q == p + (if input[old(pos)] == '(' then 1 else 0) - (if input[old(pos)] == ')' then 1 else 0)
      ensures r == Success(true) <==> old(pos) < |input| && q < 0
      ensures r == Success(true) ==> pos == old(pos) && input[pos] == ')'
      ensures old(pos) < |input| && q >= 0 ==> var f := CommentEnd(input, RunEnd(input, old(pos), IsSpace));
        && (r == Success(false) <==> f < |input| && input[f] == ',')
        && (r == Success(false) ==> pos == f + 1 && current == input[old(pos)..RunEnd(input, old(pos), IsSpace)]
                                                             + (if nargs > 0 then "," else ""))
        && (r != Success(false) ==> r == Failure(Fail(NoComaMsg)))
    {
      q, current := p, "";
      if pos == |input| {
        return Failure(Abort), q, current;
      }
      var c := input[pos];
      if c == '(' {
        q := q + 1;
      }
      if c == ')' {
        q := q - 1;
      }
      if q < 0 {
        return Success(true), q, current;
      }
      current := SkipSpaceInto(current);
      Comments();
      if Peek() != Some(',') {
        return Failure(Fail(NoComaMsg)), q, current;
      }
      var _ := Get();
      if nargs > 0 {
        current := current + ",";
      }
      return Success(false), q, current;
    }

    /** One argument of a template up to its name, as `TemplateArgumentAt`
        reads it, one `TemplateArgTurn` at a time.  Answers the argument and
        the text of it kept for the launcher's parameter list. */
    method TemplateArgument(current: string) returns (r: Result<(Argument, string)>)
      requires Valid()
      modifies this`pos, this`out, this`line, this`embed
      ensures Valid() && old(pos) <= pos
      ensures var scan := TemplateArgumentAt(input, old(pos), Blank);
        && (scan.Found? ==> r.Success? && r.value.0 == scan.value && pos == scan.end)
        && (scan.Refused? ==> r == Failure(Fail(scan.msg)))
        && (scan.Cut? ==> r == Failure(Abort))
      ensures r.Success? ==> current <= r.value.1
    {
      var arg, cur := Blank, current;
      while true
        invariant Valid() && old(pos) <= pos && (arg.isTpl ==> arg.range != []) && current <= cur
        invariant TemplateArgumentAt(input, pos, arg) == TemplateArgumentAt(input, old(pos), Blank)
        decreases |input| - pos
      {
        var step, next := TemplateArgTurn(arg, cur);
        match step
        case Again(_, a) =>
          arg, cur := a, next;
        case Over(Found(a, _)) =>
          return Success((a, next));
        case Over(Refused(msg)) =>
          return Failure(Fail(msg));
        case Over(Cut) =>
          return Failure(Abort);
      }
    }

    /** One turn of the loop of `templateGetArgs` inside an argument, as
        `TemplateTurn` says.  Qualifiers and type names are kept in the
        argument's text, which is answered in `cur`. */
    method TemplateArgTurn(arg: Argument, current: string) returns (step: TemplateStep, cur: string)
      requires Valid() && (arg.isTpl ==> arg.range != [])
      modifies this`pos, this`out, this`line, this`embed
      ensures Valid() && old(pos) <= pos && current <= cur
      ensures step == TemplateTurn(input, old(pos), arg)
      ensures step.Again? ==> pos == step.next
      ensures step.Over? && step.outcome.Found? ==> pos == step.outcome.end
    {
      var hit, next;
      hit, next, cur := TemplateMark(arg, current);
      if hit {
        return Again(pos, next), cur;
      }
      step, cur := TemplateWordStep(arg, cur);
    }

    /** The rest of a turn when no punctuation comes, as `TemplateWordTurn`
        says: the word read is recorded, or it is the argument's name.  A
        word other than `MFEM_RANGE` that is recorded is kept in `current`. */
    method TemplateWordStep(arg: Argument, current: string) returns (step: TemplateStep, cur: string)
      requires Valid() && (arg.isTpl ==> arg.range != [])
      modifies this`pos
      ensures Valid() && old(pos) <= pos && current <= cur
      ensures step == TemplateWordTurn(input, old(pos), arg)
      ensures step.Again? ==> pos == step.next
      ensures step.Over? && step.outcome.Found? ==> pos == step.outcome.end
    {
      cur := current;
      var id := PeekId();
      DropName();
      var word := TemplateWord(id, arg);
      if word.Failure? {
        return Over(if word.error.Diagnostic? then Refused(word.error.msg) else Cut), cur;
      }
      if word.value.None? {
        return Over(Found(arg.(name := id), pos)), cur;
      }
      if id != "MFEM_RANGE" {
        cur := cur + id;
      }
      return Again(pos, word.value.value), cur;
    }

    /** `templateGetArgs`: read the argument list of a template up to (not
        including) its closing parenthesis, as `TemplateList` reads it.  The
        runtime arguments go to `args`, the ranged ones are answered in
        `ranged`, and both are recorded in the template strings of the
        kernel; nothing else of the kernel changes.  A `void` list stops
        the program. */
    method TemplateGetArgs() returns (r: Result<()>, ranged: seq<Argument>)
      requires Valid()
      modifies this`pos, this`out, this`line, this`embed, this`ker, this`args
      ensures Valid() && old(pos) <= pos
      ensures ker == old(ker).(tpl := ker.tpl) && Gathered(old(ker.tpl), ker.tpl, args, ranged)
      ensures var scan := TemplateList(input, old(pos));
        && (scan.Found? ==> r.Success? && args == scan.value.0 && ranged == scan.value.1 && pos == scan.end)
        && (scan.Refused? ==> r == Failure(Fail(scan.msg)))
        && (scan.Cut? ==> r == Failure(Abort))
      ensures r.Success? ==> Split(args, ranged)
    {
      TemplateListSplit(input, old(pos));
      args := [];
      ranged := [];
      GatheredNothing(ker.tpl);
      DropSpace();
      RunEndIdempotent(input, old(pos), IsSpace);
      var isVoid :- KeywordAgain("void", old(pos));
      if isVoid {
        assert TemplateList(input, old(pos)).Cut?;
        return Failure(Abort), ranged;
      }
      assert TemplateList(input, old(pos)) == TemplateArgsFrom(input, pos, 0, [], []);
      var tpl;
      r, tpl, ranged := TemplateArgsLoop();
      ker := ker.(tpl := tpl);
    }

    /** The loop of `templateGetArgs`, as `TemplateArgsFrom` reads it, one
        `TemplateArgsTurn` at a time. */
    method TemplateArgsLoop() returns (r: Result<()>, tpl: Template, ranged: seq<Argument>)
      requires Valid() && args == []
      modifies this`pos, this`out, this`line, this`embed, this`args
      ensures Valid() && old(pos) <= pos
      ensures Gathered(ker.tpl, tpl, args, ranged)
      ensures var scan := TemplateArgsFrom(input, old(pos), 0, [], []);
        && (scan.Found? ==> r.Success? && args == scan.value.0 && ranged == scan.value.1 && pos == scan.end)
        && (scan.Refused? ==> r == Failure(Fail(scan.msg)))
        && (scan.Cut? ==> r == Failure(Abort))
    {
      ranged := [];
      GatheredNothing(ker.tpl);
      var current, p := "", 0;
      tpl := ker.tpl;
      while true
        invariant Valid() && old(pos) <= pos && p >= 0
        invariant Gathered(ker.tpl, tpl, args, ranged)
        invariant TemplateArgsFrom(input, pos, p, args, ranged) == TemplateArgsFrom(input, old(pos), 0, [], [])
        decreases |input| - pos
      {
        var step;
        step, tpl, current, ranged := TemplateArgsTurn(p, tpl, current, ranged);
        match step
        case Listing(_, q, _, _) =>
          p := q;
        case Listed(Found(_, _)) =>
          return Success(()), tpl, ranged;
        case Listed(Refused(msg)) =>
          return Failure(Fail(msg)), tpl, ranged;
        case Listed(Cut) =>
          return Failure(Abort), tpl, ranged;
      }
    }

    /** One turn of the loop of `templateGetArgs`, as `TemplateListTurn`
        says: an argument, recorded, then its separator.  `current` is the
        text kept before the argument; the text kept before the next one is
        answered. */
    method TemplateArgsTurn(p: int, tpl: Template, current: string, ranged: seq<Argument>)
      returns (step: ListStep, tpl': Template, current': string, ranged': seq<Argument>)
      requires Valid() && p >= 0 && Gathered(ker.tpl, tpl, args, ranged)
      modifies this`pos, this`out, this`line, this`embed, this`args
      ensures Valid() && old(pos) <= pos
      ensures Gathered(ker.tpl, tpl', args, ranged')
      ensures step == TemplateListTurn(input, old(pos), p, old(args), ranged)
      ensures step.Listing? ==> pos == step.next && args == step.plain && ranged' == step.ranged
      ensures step.Listed? && step.outcome.Found? ==>
        pos == step.outcome.end && args == step.outcome.value.0 && ranged' == step.outcome.value.1
    {
      tpl', current', ranged' := tpl, current, ranged;
      var got := TemplateArgument(current);
      if got.Failure? {
        return Listed(if got.error.Diagnostic? then Refused(got.error.msg) else Cut), tpl', current', ranged';
      }
      step, tpl', current', ranged' := TemplateArgsAfter(p, tpl, got.value.0, got.value.1, ranged);
    }

    /** The rest of a turn once an argument is read, as `TemplateListAfter`
        says: the argument is recorded, then its separator is read. */
    method TemplateArgsAfter(p: int, tpl: Template, arg: Argument, current: string, ranged: seq<Argument>)
      returns (step: ListStep, tpl': Template, current': string, ranged': seq<Argument>)
      requires Valid() && p >= 0 && Gathered(ker.tpl, tpl, args, ranged) && (arg.isTpl ==> arg.range != [])
      modifies this`pos, this`out, this`line, this`embed, this`args
      ensures Valid() && old(pos) <= pos
      ensures Gathered(ker.tpl, tpl', args, ranged')
      ensures step == TemplateListAfter(input, old(pos), arg, p, old(args), ranged)
      ensures step.Listing? ==> pos == step.next && args == step.plain && ranged' == step.ranged
      ensures step.Listed? && step.outcome.Found? ==>
        pos == step.outcome.end && args == step.outcome.value.0 && ranged' == step.outcome.value.1
    {
      var nargs, targs;
      tpl', nargs, targs, ranged' := RecordTemplateArg(tpl, arg, current, |args|, |ranged|, ker.tpl, ranged);
      step, current' := TemplateArgsSeparator(p, nargs, ranged');
    }

    /** The separator after an argument, as `SeparatorAt` says, with the
        arguments gathered so far. */
    method TemplateArgsSeparator(p: int, nargs: nat, ranged: seq<Argument>) returns (step: ListStep, current: string)
      requires Valid() && p >= 0
      modifies this`pos, this`out, this`line, this`embed
      ensures Valid() && old(pos) <= pos
      ensures step == SeparatorAt(input, old(pos), p, args, ranged)
      ensures step.Listing? ==> pos == step.next
      ensures step.Listed? && step.outcome.Found? ==> pos == step.outcome.end
    {
      var sep, q;
      sep, q, current := TemplateSeparator(p, nargs);
      if sep.Failure? {
        return Listed(if sep.error.Diagnostic? then Refused(sep.error.msg) else Cut), current;
      }
      if sep.value {
        return Listed(Found((args, ranged), pos)), current;
      }
      return Listing(pos, q, args, ranged), current;
    }

    /** The start of `__template`: the kernel must be `void` or `static`.
        Answers whether it is `static` (`isstatic` is asked a second time,
        which can no longer meet the end of the input). */
    method TemplateStart() returns (r: Result<bool>)
      requires Valid()
      modifies this`pos, this`out, this`line, this`embed
      ensures Valid() && pos == RunEnd(input, old(pos), IsSpace)
      ensures Wrote(ker.embedOn, old(Sunk()), input[old(pos)..pos], Sunk())
      ensures r == Failure(Abort) <==> pos == |input|
      ensures r.Failure? && r.error.Diagnostic? ==>
        !StartsWithAt(input, pos, "void") && !StartsWithAt(input, pos, "static")
        && r.error == Fail(NoTemplateKeywordMsg)
      ensures r.Success? ==>
        (StartsWithAt(input, pos, "void") || StartsWithAt(input, pos, "static"))
        && (r.value <==> StartsWithAt(input, pos, "static"))
    {
      var ok :- Keyword("void");
      if !ok {
        var isStatic := KeywordAgain("static", old(pos));
        ok := isStatic.Success? && isStatic.value;
      }
      if !ok {
        return Failure(Fail(NoTemplateKeywordMsg));
      }
      var isStatic := KeywordAgain("static", old(pos));
      return Success(isStatic.Success? && isStatic.value);
    }

    /** `Keyword` asked again where the white space after `from` has just
        been copied: it neither moves nor writes. */
    method KeywordAgain(kw: string, ghost from: nat) returns (r: Result<bool>)
      requires Valid() && |kw| < 64 && '\0' !in kw
      requires from <= pos && pos == RunEnd(input, from, IsSpace)
      modifies this`pos, this`out, this`line, this`embed
      ensures Valid() && pos == old(pos) && Sunk() == old(Sunk())
      ensures r.Failure? <==> pos == |input|
      ensures r.Failure? ==> r.error == Abort
      ensures r.Success? ==> (r.value <==> StartsWithAt(input, pos, kw))
    {
      RunEndIdempotent(input, from, IsSpace);
      ghost var s0 := Sunk();
      r := Keyword(kw);
      assert input[old(pos)..pos] == [];
      assert s0.out + [] == s0.out && s0.embed + [] == s0.embed;
    }

    /** The return type of a template: the `static` word if there is one,
        then the type's name, each with the white space after it.  Answers
        exactly the text read; without a name it fails. */
    method TemplateReturnType(isStatic: bool) returns (r: Result<string>)
      requires Valid() && (isStatic ==> StartsWithAt(input, pos, "static"))
      modifies this`pos
      ensures Valid() && old(pos) <= pos
      ensures var t := if isStatic then WordEnd(input, old(pos)) else old(pos);
        && (t < |input| && IsIdChar(input[t]) ==>
              r == Success(input[old(pos)..WordEnd(input, t)]) && pos == WordEnd(input, t))
        && (!(t < |input| && IsIdChar(input[t])) ==> r == Failure(Fail(NoNameMsg)))
    {
      var returnType := "";
      if isStatic {
        var id := GetId();
        assert id.Success? by { assert input[old(pos)] == "static"[0]; }
        ghost var p1 := pos;
        returnType := SkipSpaceInto(id.value);
        SliceJoin(input, old(pos), p1, pos);
      }
      ghost var p2 := pos;
      var voidType :- GetId();
      ghost var p3 := pos;
      returnType := SkipSpaceInto(returnType + voidType);
      SliceJoin(input, old(pos), p2, p3);
      SliceJoin(input, old(pos), p3, pos);
      return Success(returnType);
    }

    /** `__template` up to the body: the return type, the kernel's name and
        its arguments, as `TemplateSignatureAt` reads them; then the head of
        the specialisable kernel `__<name>` is written. */
    method TemplateSignature() returns (r: Result<()>, ranged: seq<Argument>)
      requires Valid()
      modifies this`pos, this`out, this`line, this`embed, this`ker, this`args
      ensures Valid() && old(pos) <= pos
      ensures ker == old(ker).(templateOn := true, name := ker.name, tpl := ker.tpl)
      ensures var scan := TemplateSignatureAt(input, old(pos));
        && (scan.Found? ==>
              && r.Success? && pos == scan.end && ker.name == scan.value.name
              && ker.tpl.returnType == scan.value.returnType
              && args == scan.value.plain && ranged == scan.value.ranged)
        && (scan.Refused? ==> r == Failure(Fail(scan.msg)))
        && (scan.Cut? ==> r == Failure(Abort))
      ensures r.Success? ==> Gathered(EmptyTemplate.(returnType := ker.tpl.returnType), ker.tpl, args, ranged)
      ensures r.Success? ==> EndsWith(ker.tpl.signature, ")")
      ensures r.Success? ==> EndsWith(out, TemplateHead(ker.name, ker.tpl, texts))
    {
      ker := ker.(templateOn := true, tpl := EmptyTemplate);
      ranged := [];
      var named :- TemplateDeclaration();
      ker := ker.(name := named.0, tpl := EmptyTemplate.(returnType := named.1));
      r, ranged := TemplateArgs();
    }

    /** The declaration of a template up to its arguments, as
        `TemplateDeclarationAt` reads it: `void` or `static`, the return
        type and the name, then the opening parenthesis.  Answers the name
        and the return type. */
    method TemplateDeclaration() returns (r: Result<(string, string)>)
      requires Valid()
      modifies this`pos, this`out, this`line, this`embed
      ensures Valid() && old(pos) <= pos
      ensures var scan := TemplateDeclarationAt(input, old(pos));
        && (scan.Found? ==> r == Success(scan.value) && pos == scan.end)
        && (scan.Refused? ==> r == Failure(Fail(scan.msg)))
        && (scan.Cut? ==> r == Failure(Abort))
    {
      DropSpace();
      Comments();
      r := TemplateWords();
    }

    /** The words of the declaration, as `TemplateWordsAt` reads them. */
    method TemplateWords() returns (r: Result<(string, string)>)
      requires Valid()
      modifies this`pos, this`out, this`line, this`embed
      ensures Valid() && old(pos) <= pos
      ensures var scan := TemplateWordsAt(input, old(pos));
        && (scan.Found? ==> r == Success(scan.value) && pos == scan.end)
        && (scan.Refused? ==> r == Failure(Fail(scan.msg)))
        && (scan.Cut? ==> r == Failure(Abort))
    {
      var isStatic :- TemplateStart();
      var returnType :- TemplateReturnType(isStatic);
      r := TemplateName(returnType);
    }

    /** The kernel's name after its return type, and the parenthesis that
        opens its arguments.  Answers the name and the return type with the
        white space that follows the name. */
    method TemplateName(returnType: string) returns (r: Result<(string, string)>)
      requires Valid()
      modifies this`pos
      ensures Valid() && old(pos) <= pos
      ensures !(old(pos) < |input| && IsIdChar(input[old(pos)])) ==> r == Failure(Fail(NoNameMsg))
      ensures old(pos) < |input| && IsIdChar(input[old(pos)]) ==>
        var e := RunEnd(input, old(pos), IsIdChar);
        var q := RunEnd(input, e, IsSpace);
        && (q < |input| && input[q] == '(' ==>
              r == Success((input[old(pos)..e], returnType + input[e..q])) && pos == q + 1)
        && (!(q < |input| && input[q] == '(') ==> r == Failure(Fail(NoFirstParenMsg)))
    {
      var name :- GetId();
      var rt := SkipSpaceInto(returnType);
      if Peek() != Some('(') {
        return Failure(Fail(NoFirstParenMsg));
      }
      var _ := Get();
      return Success((name, rt));
    }

    /** The arguments of a template, as `TemplateList` reads them, and the
        parenthesis that closes them; then the head of the specialisable
        kernel is written. */
    method TemplateArgs() returns (r: Result<()>, ranged: seq<Argument>)
      requires Valid() && ker.tpl == EmptyTemplate.(returnType := ker.tpl.returnType)
      modifies this`pos, this`out, this`line, this`embed, this`ker, this`args
      ensures Valid() && old(pos) <= pos
      ensures ker == old(ker).(tpl := ker.tpl) && ker.tpl.returnType == old(ker.tpl.returnType)
      ensures var scan := TemplateList(input, old(pos));
        && (scan.Found? ==> r.Success? && args == scan.value.0 && ranged == scan.value.1 && pos == scan.end + 1)
        && (scan.Refused? ==> r == Failure(Fail(scan.msg)))
        && (scan.Cut? ==> r == Failure(Abort))
      ensures r.Success? ==> Gathered(old(ker.tpl), ker.tpl, args, ranged) && EndsWith(ker.tpl.signature, ")")
      ensures r.Success? ==> EndsWith(out, TemplateHead(ker.name, ker.tpl, texts))
    {
      r, ranged := TemplateGetArgs();
      if r.Failure? {
        return;
      }
      ghost var scan := TemplateList(input, old(pos));
      assert pos < |input| && input[pos] == ')';
      // `templateGetArgs` stops only at ')', so the check for it holds
      var c := Get();
      GatheredClosed(old(ker.tpl), ker.tpl, args, ranged, [c.value]);
      ker := ker.(tpl := ker.tpl.(signature := ker.tpl.signature + [c.value]));
      EndsWithAppend(out, [], TemplateHead(ker.name, ker.tpl, texts));
      out := out + TemplateHead(ker.name, ker.tpl, texts);
    }

    /** The end of `__template`: white space is copied up to the `{` that
        opens the body, which is copied too; block counting starts. */
    method TemplateOpen() returns (r: Result<()>)
      requires Valid()
      modifies this`pos, this`out, this`line, this`embed, this`block
      ensures Valid() && old(pos) <= pos
      ensures Wrote(ker.embedOn, old(Sunk()), input[old(pos)..pos], Sunk())
      ensures var at := RunEnd(input, old(pos), IsSpace);
        && (r.Success? <==> at < |input| && input[at] == '{')
        && (r.Success? ==> pos == at + 1 && block == 0)
        && (r.Failure? ==> pos == at && r.error == Fail(NoBodyMsg) && block == old(block))
    {
      SkipSpace();
      if Peek() != Some('{') {
        return Failure(Fail(NoBodyMsg));
      }
      ghost var s1, p1 := Sunk(), pos;
      var _ := Put();
      WroteSlices(ker.embedOn, input, old(pos), p1, pos, old(Sunk()), s1, Sunk());
      block := 0;
      return Success(());
    }

    /** `MFEM_TEMPLATE`: the head of the specialisable kernel, then its body
        starts.  `ranged` are the arguments given value lists: the
        launcher written when the body closes has one table entry for each
        combination of their values. */
    method Template() returns (r: Result<()>, ranged: seq<Argument>)
      requires Valid()
      modifies this`pos, this`out, this`line, this`embed, this`ker, this`args, this`block
      ensures Valid() && old(pos) <= pos
      ensures ker == old(ker).(templateOn := true, name := ker.name, tpl := ker.tpl)
      ensures var scan := TemplateSignatureAt(input, old(pos));
        && (scan.Found? ==>
              var b := RunEnd(input, scan.end, IsSpace);
              && ker.name == scan.value.name && ker.tpl.returnType == scan.value.returnType
              && args == scan.value.plain && ranged == scan.value.ranged
              && (r.Success? <==> b < |input| && input[b] == '{')
              && (r.Success? ==> pos == b + 1 && block == 0)
              && (r.Failure? ==> r == Failure(Fail(NoBodyMsg))))
        && (scan.Refused? ==> r == Failure(Fail(scan.msg)))
        && (scan.Cut? ==> r == Failure(Abort))
      ensures r.Success? ==> Gathered(EmptyTemplate.(returnType := ker.tpl.returnType), ker.tpl, args, ranged)
      ensures r.Success? ==> exists head: nat :: head <= pos && EndsWith(out, TemplateHead(ker.name, ker.tpl, texts) + input[head..pos])
    {
      r, ranged := TemplateSignature();
      if r.Failure? {
        return;
      }
      ghost var head := pos;
      ghost var before := out;
      r := TemplateOpen();
      if r.Success? {
        EndsWithExtended(before, TemplateHead(ker.name, ker.tpl, texts), input[head..pos]);
      }
    }

    // -------------------------------------------------------------------------
    // The driver

    /** `tokens`: at a word starting with `MFEM`, a directive is handled and
        any other such word is written out (and collected while
        `MFEM_EMBED` is on).  Anywhere else nothing happens. */
    method Tokens() returns (r: Result<()>)
      requires Valid()
      modifies this`pos, this`out, this`line, this`embed, this`ker, this`block, this`args
      ensures Valid() && old(pos) <= pos
      ensures !MfemAt(input, old(pos)) ==>
        r.Success? && pos == old(pos) && Sunk() == old(Sunk()) && ker == old(ker) && block == old(block)
      ensures MfemAt(input, old(pos)) ==> old(pos) < pos
      ensures MfemAt(input, old(pos)) ==> var id := input[old(pos)..RunEnd(input, old(pos), IsIdChar)];
        && (id == "MFEM_EMBED" ==> ker.embedOn && (r.Success? ==> block == 0))
        && (id == "MFEM_KERNEL" && r.Success? ==> ker.kernelOn && block == 0)
        && (id == "MFEM_TEMPLATE" ==> ker.templateOn && (r.Success? ==> block == 0))
        && (id !in {"MFEM_EMBED", "MFEM_KERNEL", "MFEM_TEMPLATE"} ==>
              r.Success? && pos == RunEnd(input, old(pos), IsIdChar) && ker == old(ker) && block == old(block)
              && out == old(out) + id && line == old(line) && embed == Collected(ker.embedOn, old(embed), id))
    {
      var w := PeekN(4);
      if w != "MFEM" {
        return Success(());
      }
      var id := GetId();
      match id {
        case Failure(_) =>
          assert false;
        case Success(id) =>
          if id == "MFEM_EMBED" {
            r := Embed();
          } else if id == "MFEM_KERNEL" {
            r := Kernel();
          } else if id == "MFEM_TEMPLATE" {
            var ranged;
            r, ranged := Template();
          } else {
            out := out + id;
            if ker.embedOn {
              embed := embed + id;
            }
            r := Success(());
          }
      }
    }

    /** `eof`: take the next character; at the end of the input answer
        `true`, otherwise copy the character and answer `false`. */
    method AtEof() returns (done: bool)
      requires Valid()
      modifies this`pos, this`out, this`line, this`embed
      ensures Valid()
      ensures done <==> old(pos) == |input|
      ensures done ==> pos == old(pos) && Sunk() == old(Sunk())
      ensures !done ==> pos == old(pos) + 1 && Wrote(ker.embedOn, old(Sunk()), input[old(pos)..pos], Sunk())
    {
      var c := Get();
      if c.None? {
        return true;
      }
      PutChar(c.value);
      assert input[old(pos)..pos] == [c.value];
      return false;
    }

    /** One round of `preprocess` before a character is copied: a directive
        or `MFEM` word, comments, then the three postfixes.  With no `MFEM`
        word here and no directive open, it only copies comments. */
    method Round() returns (r: Result<()>)
      requires Valid()
      modifies this`pos, this`out, this`line, this`embed, this`ker, this`block, this`args
      ensures Valid() && old(pos) <= pos
      ensures !MfemAt(input, old(pos)) && !old(ker.embedOn) && !old(ker.kernelOn) && !old(ker.templateOn) ==>
        r.Success? && pos == CommentEnd(input, old(pos)) && ker == old(ker) && block == old(block)
        && Wrote(false, old(Sunk()), input[old(pos)..pos], Sunk())
    {
      var _ :- Tokens();
      Comments();
      KerPostfix();
      var _ :- EmbedPostfix();
      var _ :- TemplatePostfix();
      return Success(());
    }

    /** `preprocess`: write the header, close every directive, then until
        the input ends: one round, one copied character.  An input with no
        `MFEM` word is copied through unchanged after the header, its lines
        counted, nothing collected. */
    method Preprocess() returns (r: Result<()>)
      requires Valid()
      modifies this`pos, this`out, this`line, this`embed, this`ker, this`block, this`args
      ensures r.Success? ==> pos == |input|
      ensures NoDirectiveFrom(input, old(pos)) ==>
        r.Success? && out == old(out) + Header(file, texts) + input[old(pos)..]
        && line == old(line) + Newlines(input[old(pos)..]) && embed == old(embed)
    {
      out := out + Header(file, texts);
      ker := ker.(embedOn := false, kernelOn := false, templateOn := false, singleSource := false);
      ghost var s0 := Sunk();
      WroteNothing(false, s0);
      while true
        invariant Valid() && old(pos) <= pos
        invariant NoDirectiveFrom(input, old(pos)) ==>
          !ker.embedOn && !ker.kernelOn && !ker.templateOn && Wrote(false, s0, input[old(pos)..pos], Sunk())
        decreases |input| - pos
      {
        ghost var s1, p1 := Sunk(), pos;
        var _ :- Round();
        ghost var s2, p2 := Sunk(), pos;
        var done := AtEof();
        if NoDirectiveFrom(input, old(pos)) {
          if done {
            assert input[p1..pos] == input[p1..p2];
          } else {
            WroteSlices(false, input, p1, p2, pos, s1, s2, Sunk());
          }
          WroteSlices(false, input, old(pos), p1, pos, s0, s1, Sunk());
        }
        if done {
          break;
        }
      }
      assert input[old(pos)..pos] == input[old(pos)..];
      return Success(());
    }
  }
}
