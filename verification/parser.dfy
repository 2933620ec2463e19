/**
 * The token loop of `vtile_mapcss_parse`. The lexer and the grammar are not
 * part of this model: the lexer's output is a sequence of tokens, each with
 * the line and column the lexer reports after reading it, and the grammar is
 * an arbitrary step function that takes the parser state and one token to the
 * next state, saying whether the token's grammar actions recorded a parse
 * error. The stylesheet's error field is set by those actions and never
 * cleared by the loop.
 */
module ParseDriver {

  /** One lexer result: the token code (0 or less at the end of input) and the position after it. */
  datatype Token = Token(code: int, line: nat, column: nat)

  /** What feeding one token to the grammar gives: the next parser state, and whether an error was recorded. */
  datatype Feed<P> = Feed(state: P, error: bool)

  /** The lexer's token sequence always ends in an end-of-input code. */
  predicate Terminated(tokens: seq<Token>) {
    |tokens| > 0 && tokens[|tokens| - 1].code <= 0
  }

  /** The parser state after the grammar has been fed the first k tokens. */
  function Trace<P>(step: (P, Token) -> Feed<P>, tokens: seq<Token>, start: P, k: nat): P
    requires k <= |tokens|
  {
    if k == 0 then start else step(Trace(step, tokens, start, k - 1), tokens[k - 1]).state
  }

  /** Did feeding token k, in the state the earlier tokens left, record an error? */
  predicate RaisesAt<P>(step: (P, Token) -> Feed<P>, tokens: seq<Token>, start: P, k: nat)
    requires k < |tokens|
  {
    step(Trace(step, tokens, start, k), tokens[k]).error
  }

  /**
   * `vtile_mapcss_parse`: read a token, record its position, feed it to the
   * grammar, and go on while the code is positive and no error is recorded.
   * `errorBefore` is the error field on entry. The loop always feeds at least
   * one token; it stops at the first end-of-input token or at the first token
   * whose actions record an error, and it reports failure exactly when an
   * error is recorded, with the position of the last token it fed.
   */
  method Parse<P>(step: (P, Token) -> Feed<P>, tokens: seq<Token>, start: P, errorBefore: bool)
    returns (ok: bool, state: P, lineno: nat, column: nat, consumed: nat)
    requires Terminated(tokens)
    ensures 1 <= consumed <= |tokens|
    ensures state == Trace(step, tokens, start, consumed)
    ensures lineno == tokens[consumed - 1].line && column == tokens[consumed - 1].column
    ensures forall j :: 0 <= j < consumed - 1 ==> tokens[j].code > 0 && !RaisesAt(step, tokens, start, j)
    ensures !ok <==> errorBefore || RaisesAt(step, tokens, start, consumed - 1)
    ensures ok ==> tokens[consumed - 1].code <= 0
    ensures errorBefore ==> consumed == 1
  {
    var error := errorBefore;
    state := start;
    var i := 0;
    while true
      invariant 0 <= i < |tokens|
      invariant state == Trace(step, tokens, start, i)
      invariant forall j :: 0 <= j < i ==> tokens[j].code > 0 && !RaisesAt(step, tokens, start, j)
      invariant errorBefore ==> i == 0
      invariant error == errorBefore
      decreases |tokens| - i
    {
      var token := tokens[i];
      lineno := token.line;
      column := token.column;
      var fed := step(state, token);
      assert fed.error == RaisesAt(step, tokens, start, i);
      state := fed.state;
      assert state == Trace(step, tokens, start, i + 1);
      error := error || fed.error;
      if !(token.code > 0 && !error) {
        break;
      }
      i := i + 1;
    }
    consumed := i + 1;
    ok := !error;
  }
}
