/** The identity primitive every entity identifier is built from: a non-null
    UUID, compared together with the concrete identifier class. */
module BaseIds {
  import opened Wrappers
  import opened Exceptions

  /** Java's `long`. */
  newtype Int64 = x: int | -0x8000_0000_0000_0000 <= x < 0x8000_0000_0000_0000

  /** java.util.UUID, an opaque 128-bit value held as two longs. */
  datatype Uuid = Uuid(mostSigBits: Int64, leastSigBits: Int64)

  /** The concrete subclass of BaseId an identifier belongs to. */
  datatype Kind = Permission | Token

  const NullUuidMessage := "UUID value cannot be null"

  /** An identifier: its concrete class and the wrapped UUID. */
  datatype BaseId = BaseId(kind: Kind, value: Uuid) {

    function GetValue(): Uuid {
      value
    }

    /** toString delegates to the UUID's text form, supplied as `render`. */
    function ToString(render: Uuid -> string): string {
      render(value)
    }

    /** equals(Object) over identifiers; None is null. The classes must be
        the same and the UUIDs equal. */
    predicate Equals(o: Option<BaseId>)
      ensures Equals(o) <==> o == Some(this)
    {
      o.Some? && kind == o.value.kind && value == o.value.value
    }

    /** Objects.hash over the UUID alone, where `uuidHash` stands for
        whatever the library computes from a UUID. */
    function HashCode(uuidHash: Uuid -> int): int {
      uuidHash(value)
    }
  }

  /** The protected constructor, called by a subclass of the given kind. */
  function NewBaseId(kind: Kind, value: Option<Uuid>): (r: Result<BaseId, Exception>)
    ensures r.Failure? <==> value.None?
    ensures r.Failure? ==> r.error == IllegalArgumentException(NullUuidMessage)
    ensures r.Success? ==> r.value.kind == kind && r.value.GetValue() == value.value
  {
    match value
    case None => Failure(IllegalArgumentException(NullUuidMessage))
    case Some(v) => Success(BaseId(kind, v))
  }

  /** Identifiers of different classes are never equal, whatever their UUIDs. */
  lemma DifferentKindsNeverEqual(a: BaseId, b: BaseId)
    requires a.kind != b.kind
    ensures !a.Equals(Some(b)) && !b.Equals(Some(a))
  {
  }

  /** equals is an equivalence relation and rejects null. */
  lemma IdEqualsIsEquivalence(a: BaseId, b: BaseId, c: BaseId)
    ensures a.Equals(Some(a))
    ensures !a.Equals(None)
    ensures a.Equals(Some(b)) <==> b.Equals(Some(a))
    ensures a.Equals(Some(b)) && b.Equals(Some(c)) ==> a.Equals(Some(c))
  {
  }

  /** equals is consistent with hashCode, whatever the UUID hash is. */
  lemma EqualIdsHashEqually(a: BaseId, b: BaseId, uuidHash: Uuid -> int)
    requires a.Equals(Some(b))
    ensures a.HashCode(uuidHash) == b.HashCode(uuidHash)
  {
  }

  /** The hash and the text form ignore the class: identifiers wrapping the
      same UUID hash and render alike even when they are not equal. */
  lemma SameUuidSameHashAndText(a: BaseId, b: BaseId, uuidHash: Uuid -> int, render: Uuid -> string)
    requires a.GetValue() == b.GetValue()
    ensures a.HashCode(uuidHash) == b.HashCode(uuidHash)
    ensures a.ToString(render) == b.ToString(render)
  {
  }
}
