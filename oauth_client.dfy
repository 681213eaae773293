/*
 * The part of the authorization-server client whose behaviour the routes rely
 * on: revocation is skipped for a blank token and never fails.  Token exchange
 * and user-info lookup are collaborators whose outcomes the handlers receive
 * as `Result` values.
 */
module OAuthClient {
  import opened AuthTypes

  /** Characters that JavaScript's `String.prototype.trim` removes (WhiteSpace and LineTerminator of ECMA-262). */
  predicate IsTrimmed(c: char) {
    var n := c as int;
    n == 0x09 || n == 0x0A || n == 0x0B || n == 0x0C || n == 0x0D || n == 0x20 ||
    n == 0xA0 || n == 0x1680 || (0x2000 <= n <= 0x200A) || n == 0x2028 || n == 0x2029 ||
    n == 0x202F || n == 0x205F || n == 0x3000 || n == 0xFEFF
  }

  /** `!token || token.trim() === ''` */
  predicate IsBlank(token: Option<string>) {
    token.None? || forall i :: 0 <= i < |token.value| ==> IsTrimmed(token.value[i])
  }

  /**
   * revokeToken: the outbound request it issues. A blank token issues none;
   * a failed request is logged and swallowed, so there is no error outcome.
   */
  function Revoke(token: Option<string>): (effects: seq<Effect>)
    ensures effects == [] <==> IsBlank(token)
    ensures forall e :: e in effects ==> e == RevokeRequest(token.value)
    ensures |effects| <= 1
  {
    if IsBlank(token) then [] else [RevokeRequest(token.value)]
  }

  /** An absent, empty or all-whitespace token never reaches the network. */
  lemma BlankTokensAreNotSent(ws: string)
    requires forall i :: 0 <= i < |ws| ==> IsTrimmed(ws[i])
    ensures Revoke(None) == [] && Revoke(Some("")) == [] && Revoke(Some(ws)) == []
  {
  }
}
