/** components/utils.py: stripping the `Bearer ` prefix of an Authorization
    header, and the verdict of the token check. */
module Utils {

  const BearerPrefix: string := "Bearer "

  /** `remover_bearer`: drops one leading `Bearer `, if present. */
  function RemoverBearer(token: string): (r: string)
    ensures |token| - |r| == 0 || |token| - |r| == |BearerPrefix|
    ensures r == token[|token| - |r|..]
    ensures |r| < |token| <==> BearerPrefix <= token
  {
    if BearerPrefix <= token then token[|BearerPrefix|..] else token
  }

  /** Prefixing then stripping gives the token back. */
  lemma BearerRoundTrip(t: string)
    ensures RemoverBearer(BearerPrefix + t) == t
  {
    assert (BearerPrefix + t)[..|BearerPrefix|] == BearerPrefix;
    assert (BearerPrefix + t)[|BearerPrefix|..] == t;
  }

  /** Only one prefix is stripped: `Bearer Bearer x` becomes `Bearer x`. */
  lemma StripsOnlyOnePrefix(t: string)
    ensures RemoverBearer(BearerPrefix + BearerPrefix + t) == BearerPrefix + t
  {
    assert BearerPrefix + BearerPrefix + t == BearerPrefix + (BearerPrefix + t);
    BearerRoundTrip(BearerPrefix + t);
  }

  /** What `validar_token` reports: the payload's `id_usuario`, or the reason
      the token was refused ('Token expirado.' or 'Token inválido.'). */
  datatype Verdict = Accepted(userId: int) | Refused(reason: string)

  /** JWT decoding with the server's secret, taken as a parameter. */
  type Oracle = string -> Verdict
}
