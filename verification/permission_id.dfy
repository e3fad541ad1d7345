/** The identifier of a permission: a BaseId of kind Permission. */
module PermissionIds {
  import opened Wrappers
  import opened Exceptions
  import opened BaseIds

  /** The PermissionId class: the kind is fixed by the type. */
  type PermissionId = id: BaseId | id.kind == Permission witness BaseId(Permission, Uuid(0, 0))

  /** new PermissionId(value): delegates to the BaseId constructor. */
  function NewPermissionId(value: Option<Uuid>): (r: Result<PermissionId, Exception>)
    ensures r.Failure? <==> value.None?
    ensures r.Failure? ==> r.error == IllegalArgumentException(NullUuidMessage)
    ensures r.Success? ==> r.value.kind == Permission && r.value.GetValue() == value.value
  {
    match NewBaseId(Permission, value)
    case Success(id) => Success(id)
    case Failure(e) => Failure(e)
  }

  /** PermissionId.generate(), with the random UUID supplied by the caller:
      it never fails and yields a permission identifier. */
  function GeneratePermissionId(random: Uuid): (r: PermissionId)
    ensures r.kind == Permission && r.GetValue() == random
  {
    NewPermissionId(Some(random)).value
  }

  /** Two permission identifiers built from one UUID are equal and hash alike. */
  lemma SameUuidEqualPermissionIds(v: Uuid, uuidHash: Uuid -> int)
    ensures NewPermissionId(Some(v)).Success?
    ensures NewPermissionId(Some(v)).value.Equals(Some(NewPermissionId(Some(v)).value))
    ensures GeneratePermissionId(v).Equals(Some(NewPermissionId(Some(v)).value))
    ensures GeneratePermissionId(v).HashCode(uuidHash) == NewPermissionId(Some(v)).value.HashCode(uuidHash)
  {
  }

  /** A permission identifier equals no identifier of another class. */
  lemma PermissionIdNeverEqualsOtherKind(p: PermissionId, o: BaseId)
    requires o.kind != Permission
    ensures !p.Equals(Some(o)) && !o.Equals(Some(p))
  {
    DifferentKindsNeverEqual(p, o);
  }
}
