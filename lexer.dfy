/** What the preprocessor skips and recognises while it reads a signature
    (general/mpp.cpp:199-278, 650-736, 881-960): comments, the words that
    qualify or type an argument, and fixed words at a position. */
module Lexer {
  import opened Text

  /** Where a block comment whose opening slash-star ends at `i` stops: after the
      first star-slash and the white space following it, or at the end of the
      input when it is not closed. */
  function BlockCommentEnd(s: string, i: nat): (e: nat)
    requires i <= |s|
    ensures i <= e <= |s|
    decreases |s| - i
  {
    if i == |s| then i
    else if i + 1 < |s| && s[i] == '*' && s[i + 1] == '/' then RunEnd(s, i + 2, IsSpace)
    else BlockCommentEnd(s, i + 1)
  }

  predicate ClosesAt(s: string, j: nat) {
    j + 1 < |s| && s[j] == '*' && s[j + 1] == '/'
  }

  /** A block comment ends at the first star-slash after its opening. */
  lemma {:induction false} BlockCommentClosed(s: string, i: nat, j: nat)
    requires i <= j && ClosesAt(s, j)
    requires forall m :: i <= m < j ==> !ClosesAt(s, m)
    ensures BlockCommentEnd(s, i) == RunEnd(s, j + 2, IsSpace)
    decreases j - i
  {
    if i < j {
      assert !ClosesAt(s, i);
      BlockCommentClosed(s, i + 1, j);
    }
  }

  /** A block comment that is never closed runs to the end of the input. */
  lemma {:induction false} BlockCommentUnclosed(s: string, i: nat)
    requires i <= |s|
    requires forall m :: i <= m ==> !ClosesAt(s, m)
    ensures BlockCommentEnd(s, i) == |s|
    decreases |s| - i
  {
    if i < |s| {
      assert !ClosesAt(s, i);
      BlockCommentUnclosed(s, i + 1);
    }
  }

  /** `is_comments`: a slash-slash or a slash-star starts at `i`. */
  predicate CommentAt(s: string, i: nat) {
    i + 1 < |s| && s[i] == '/' && (s[i + 1] == '/' || s[i + 1] == '*')
  }

  /** Where `comments` stops when called at `i`: a line comment stops before
      its newline, a block comment as `BlockCommentEnd` says. */
  function CommentEnd(s: string, i: nat): (e: nat)
    requires i <= |s|
    ensures i <= e <= |s|
  {
    if !CommentAt(s, i) then i
    else if s[i + 1] == '/' then RunEnd(s, i + 2, IsNotNewline)
    else BlockCommentEnd(s, i + 2)
  }

  function Min(a: int, b: int): int { if a < b then a else b }

  /** The types `kerGetArgs` and `templateGetArgs` recognise by name. */
  const TypeNames: set<string> :=
    {"char", "int", "short", "unsigned", "long", "bool", "float", "double", "size_t"}

  /** The type names of `kerGetArgs` that stand alone (`Array` takes a
      `<type>` after it). */
  predicate IsTypeWord(id: string) { id in TypeNames || id == "Vector" }

  /** The words `kerGetArgs` takes as qualifiers or types. */
  predicate IsWord(id: string) { id == "const" || id == "__restrict" || IsTypeWord(id) || id == "Array" }

  /** None of the words is empty, so reading one always moves forward. */
  lemma WordNonEmpty(id: string)
    requires IsWord(id)
    ensures id != []
  {
  }

  /** `t` occurs in `s` at position `i`. */
  predicate StartsWithAt(s: string, i: nat, t: string) { i + |t| <= |s| && s[i..i + |t|] == t }

  /** What `get_id` throws when no name starts where one must. */
  const NoNameMsg: string := "name w/o alnum 1st letter"

  /** `peekid` at `i`: the name starting there, cut to its first 64
      characters. */
  function IdAt(s: string, i: nat): (id: string)
    requires i <= |s|
    ensures |id| <= 64 && i + |id| <= RunEnd(s, i, IsIdChar) && id == s[i..i + |id|]
    ensures id != [] <==> i < |s| && IsIdChar(s[i])
    ensures forall k :: 0 <= k < |id| ==> IsIdChar(id[k])
  {
    RunEndMaximal(s, i, IsIdChar);
    s[i..Min(RunEnd(s, i, IsIdChar), i + 64)]
  }

  /** Past a word and the white space after it. */
  function WordEnd(s: string, i: nat): (e: nat)
    requires i <= |s|
    ensures i <= e <= |s|
  {
    RunEnd(s, RunEnd(s, i, IsIdChar), IsSpace)
  }

  /** Where `next` stops after a name at `i` (`get_id` then `next`): past the
      name, the white space after it and a comment. */
  function AfterWord(s: string, i: nat): (e: nat)
    requires i <= |s|
    ensures i <= e <= |s|
  {
    CommentEnd(s, RunEnd(s, RunEnd(s, i, IsIdChar), IsSpace))
  }

  /** `t` is the text between the `<` at `o` and the first `>` after it. */
  predicate AngleText(s: string, o: nat, t: string) {
    o + |t| + 1 < |s| && s[o] == '<' && s[o + 1..o + 1 + |t|] == t && s[o + 1 + |t|] == '>' && '>' !in t
  }

  predicate IsNotGt(c: char) { c != '>' }
}
