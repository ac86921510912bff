/** Translation of a store error into the message shown to the user. */
module ErrorHandler {
  import opened Lottery

  const NotFound: string := "Registro não encontrado"
  const Duplicate: string := "Este registro já existe"
  const HasDependents: string := "Não é possível excluir este registro pois existem dados relacionados"
  const SessionExpired: string := "Sessão expirada. Por favor, faça login novamente"
  const DefaultMessage: string := "Erro ao processar sua solicitação"

  /** The two fields read from the error object. */
  datatype StoreError = StoreError(code: Option<string>, message: Option<string>)

  /** `s.includes(t)`. */
  predicate Contains(s: string, t: string)
    decreases |s|
  {
    t <= s || (s != [] && Contains(s[1..], t))
  }

  predicate KnownCode(e: StoreError)
  {
    e.code == Some("PGRST116") || e.code == Some("23505") || e.code == Some("23503")
  }

  /** `handleSupabaseError`. */
  function Translate(e: StoreError): (r: string)
    ensures e.code == Some("PGRST116") ==> r == NotFound
    ensures e.code == Some("23505") ==> r == Duplicate
    ensures e.code == Some("23503") ==> r == HasDependents
    ensures !KnownCode(e) && e.message.Some? && Contains(e.message.value, "JWT") ==> r == SessionExpired
    ensures !KnownCode(e) && !(e.message.Some? && Contains(e.message.value, "JWT")) ==>
      r == (if e.message.Some? && e.message.value != "" then e.message.value else DefaultMessage)
    ensures r != ""
  {
    if e.code == Some("PGRST116") then NotFound
    else if e.code == Some("23505") then Duplicate
    else if e.code == Some("23503") then HasDependents
    else if e.message.Some? && Contains(e.message.value, "JWT") then SessionExpired
    else if e.message.Some? && e.message.value != "" then e.message.value
    else DefaultMessage
  }

  /** A message that mentions JWT is a session problem only when no known
      code came with it. */
  lemma CodeBeatsJwt(message: string)
    requires Contains(message, "JWT")
    ensures Translate(StoreError(Some("23505"), Some(message))) == Duplicate
    ensures Translate(StoreError(None, Some(message))) == SessionExpired
  {
  }

  /** Every substring position of `s` is found by `Contains`. */
  lemma {:induction false} ContainsAt(s: string, t: string, i: nat)
    requires i + |t| <= |s| && s[i..i + |t|] == t
    ensures Contains(s, t)
  {
    if i > 0 {
      assert s[1..][i - 1..i - 1 + |t|] == s[i..i + |t|];
      ContainsAt(s[1..], t, i - 1);
    } else {
      assert t <= s;
    }
  }

  /** An expired-token message from the store is shown as the session text. */
  lemma ExpiredTokenMessage(prefix: string, suffix: string)
    ensures Translate(StoreError(None, Some(prefix + "JWT" + suffix))) == SessionExpired
  {
    var m := prefix + "JWT" + suffix;
    assert m[|prefix|..|prefix| + 3] == "JWT";
    ContainsAt(m, "JWT", |prefix|);
  }
}
