/** Brace tracking for the directive bodies (general/mpp.cpp:599-627,
    835-846, 1027-1070).

    Once a directive has copied the opening `{` of its body, the driver
    sets `block` to 0.  In each round, after `tokens` and `comments`, each
    active postfix looks at the character the round is about to copy: `{`
    deepens the block, `}` closes one, and the postfix fires (writes its
    epilogue) when the depth reaches -1, i.e. at the `}` that closes the
    body.  Firing moves the depth to -2,
    where nothing moves it again until the next directive resets it. */
module Blocks {
  import opened Outcomes

  /** The two depth updates every postfix performs on the peeked character:
      `if (block>=0 && peek=='{') block++; if (block>=0 && peek=='}') block--;` */
  function Track(block: int, c: Option<char>): int {
    var b := if block >= 0 && c == Some('{') then block + 1 else block;
    if b >= 0 && c == Some('}') then b - 1 else b
  }

  /** A postfix fires when the tracked depth is -1. */
  predicate Fires(block: int, c: Option<char>) {
    Track(block, c) == -1
  }

  /** The depth after one postfix call: firing decrements it once more. */
  function Advance(block: int, c: Option<char>): int {
    if Fires(block, c) then -2 else Track(block, c)
  }

  /** Depth of a text: opening minus closing braces. */
  function Depth(cs: string): int {
    if cs == [] then 0
    else Depth(cs[..|cs| - 1]) + (if cs[|cs| - 1] == '{' then 1 else if cs[|cs| - 1] == '}' then -1 else 0)
  }

  /** Some prefix of `cs` closes more braces than it opens. */
  predicate Unbalanced(cs: string) {
    exists k :: 0 < k <= |cs| && Depth(cs[..k]) == -1
  }

  datatype Scan = Scan(block: int, fired: nat)

  /** One postfix call per character of a body, starting from `block`:
      the final depth and how many times the postfix fired. */
  function Run(block: int, cs: string): Scan {
    if cs == [] then Scan(block, 0)
    else
      var s := Run(block, cs[..|cs| - 1]);
      var c := Some(cs[|cs| - 1]);
      Scan(Advance(s.block, c), s.fired + if Fires(s.block, c) then 1 else 0)
  }

  /** Tracking is inert once the postfix has fired (or before a directive
      started counting): depth -2 never moves and never fires. */
  lemma {:induction false} InertAfterFiring(cs: string)
    ensures Run(-2, cs) == Scan(-2, 0)
  {
    if cs != [] {
      InertAfterFiring(cs[..|cs| - 1]);
    }
  }

  /** Starting from depth 0 (right after the opening brace), the postfix
      fires exactly once, at the first `}` that closes the body, and not
      at all while the body is still open; until then the depth is the
      brace balance of what has been seen. */
  lemma {:induction false} FiresAtClosingBrace(cs: string)
    ensures Unbalanced(cs) ==> Run(0, cs) == Scan(-2, 1)
    ensures !Unbalanced(cs) ==> Run(0, cs) == Scan(Depth(cs), 0) && Depth(cs) >= 0
  {
    if cs != [] {
      var front := cs[..|cs| - 1];
      var c := cs[|cs| - 1];
      FiresAtClosingBrace(front);
      assert forall k :: 0 < k <= |front| ==> cs[..k] == front[..k];
      if Unbalanced(front) {
        var k :| 0 < k <= |front| && Depth(front[..k]) == -1;
        assert Depth(cs[..k]) == -1;
      } else {
        assert cs[..|cs|] == cs;
        assert Depth(cs) == Depth(front) + (if c == '{' then 1 else if c == '}' then -1 else 0);
        if Depth(cs) == -1 {
          assert Unbalanced(cs);
        } else {
          forall k | 0 < k <= |cs|
            ensures Depth(cs[..k]) != -1
          {
            if k < |cs| {
              assert cs[..k] == front[..k];
            }
          }
        }
      }
    }
  }

  /** Consequently a postfix fires at most once per directive. */
  lemma FiresAtMostOnce(cs: string)
    ensures Run(0, cs).fired <= 1
  {
    FiresAtClosingBrace(cs);
  }
}
