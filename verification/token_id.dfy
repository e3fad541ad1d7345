/** The identifier of a personal access token: a BaseId of kind Token. */
module TokenIds {
  import opened Wrappers
  import opened Exceptions
  import opened BaseIds
  import opened PermissionIds

  /** The TokenId class: the kind is fixed by the type. */
  type TokenId = id: BaseId | id.kind == Token witness BaseId(Token, Uuid(0, 0))

  /** new TokenId(value): delegates to the BaseId constructor. */
  function NewTokenId(value: Option<Uuid>): (r: Result<TokenId, Exception>)
    ensures r.Failure? <==> value.None?
    ensures r.Failure? ==> r.error == IllegalArgumentException(NullUuidMessage)
    ensures r.Success? ==> r.value.kind == Token && r.value.GetValue() == value.value
  {
    match NewBaseId(Token, value)
    case Success(id) => Success(id)
    case Failure(e) => Failure(e)
  }

  /** TokenId.generate(), with the random UUID supplied by the caller: it
      never fails and yields a token identifier. */
  function GenerateTokenId(random: Uuid): (r: TokenId)
    ensures r.kind == Token && r.GetValue() == random
  {
    NewTokenId(Some(random)).value
  }

  /** Two token identifiers built from one UUID are equal and hash alike. */
  lemma SameUuidEqualTokenIds(v: Uuid, uuidHash: Uuid -> int)
    ensures NewTokenId(Some(v)).Success?
    ensures NewTokenId(Some(v)).value.Equals(Some(NewTokenId(Some(v)).value))
    ensures GenerateTokenId(v).Equals(Some(NewTokenId(Some(v)).value))
    ensures GenerateTokenId(v).HashCode(uuidHash) == NewTokenId(Some(v)).value.HashCode(uuidHash)
  {
  }

  /** A token identifier and a permission identifier are never equal, even
      when they wrap the same UUID; they still hash alike in that case. */
  lemma TokenIdNeverEqualsPermissionId(t: TokenId, p: PermissionId, uuidHash: Uuid -> int)
    ensures !t.Equals(Some(p)) && !p.Equals(Some(t))
    ensures t.GetValue() == p.GetValue() ==> t.HashCode(uuidHash) == p.HashCode(uuidHash)
  {
    DifferentKindsNeverEqual(t, p);
  }
}
