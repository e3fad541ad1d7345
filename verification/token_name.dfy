/** The display name of a personal access token: validated once at
    construction, stored trimmed, compared by the stored text. */
module TokenNames {
  import opened Wrappers
  import opened Exceptions
  import opened JavaStrings

  /** Longest raw input, in characters, the constructor admits. */
  const MaxLength := 100

  const EmptyMessage := "Token name cannot be empty"
  const TooLongMessage := "Token name cannot exceed 100 characters"

  /** The stored (trimmed) text is the only state of a token name. */
  datatype TokenName = TokenName(value: string) {

    /** What every name the constructor returns satisfies. */
    predicate Valid() {
      value != [] && |value| <= MaxLength && IsTrimmed(value)
    }

    function GetValue(): string {
      value
    }

    /** equals(Object) restricted to token names; None is null. */
    predicate Equals(o: Option<TokenName>)
      ensures Equals(o) <==> o == Some(this)
    {
      o.Some? && value == o.value.value
    }

    /** Objects.hash over the stored text, where `stringHash` stands for
        whatever the library computes from a string. */
    function HashCode(stringHash: string -> int): int {
      stringHash(value)
    }
  }

  /** The constructor: null or blank input is "empty"; then the RAW input
      length is checked against the limit; the trimmed text is stored. */
  function NewTokenName(input: Option<string>): (r: Result<TokenName, Exception>)
    ensures r == Failure(BusinessRuleException(EmptyMessage)) <==> input.None? || IsBlank(input.value)
    ensures r == Failure(BusinessRuleException(TooLongMessage))
        <==> input.Some? && !IsBlank(input.value) && |input.value| > MaxLength
    ensures r.Success? <==> input.Some? && !IsBlank(input.value) && |input.value| <= MaxLength
    ensures r.Success? ==> r.value.Valid() && r.value.GetValue() == Trim(input.value)
  {
    if input.None? || Trim(input.value) == [] then
      Failure(BusinessRuleException(EmptyMessage))
    else if |input.value| > MaxLength then
      Failure(BusinessRuleException(TooLongMessage))
    else
      Success(TokenName(Trim(input.value)))
  }

  /** A trimmed, non-empty text of at most MaxLength characters is accepted
      unchanged, and every name's own text reconstructs it. */
  lemma ValidNameRoundTrip(n: TokenName)
    requires n.Valid()
    ensures NewTokenName(Some(n.GetValue())) == Success(n)
  {
    TrimOfPadded([], n.value, []);
    assert [] + n.value + [] == n.value;
  }

  /** Padding counts toward the limit: a non-blank core with trailing
      padding that takes the raw length past MaxLength is rejected as too
      long, although its trimmed form is the short core. */
  lemma {:induction false} TrailingPaddingCountsTowardLimit(core: string, padding: string)
    requires core != [] && IsTrimmed(core) && IsBlank(padding)
    requires |core + padding| > MaxLength
    ensures Trim(core + padding) == core
    ensures NewTokenName(Some(core + padding)) == Failure(BusinessRuleException(TooLongMessage))
  {
    TrimOfPadded([], core, padding);
    assert [] + core + padding == core + padding;
  }

  /** Trailing padding within the limit is dropped from the stored text. */
  lemma TrailingPaddingIsDropped(core: string, padding: string)
    requires core != [] && IsTrimmed(core) && IsBlank(padding)
    requires |core + padding| <= MaxLength
    ensures NewTokenName(Some(core + padding)) == Success(TokenName(core))
  {
    TrimOfPadded([], core, padding);
    assert [] + core + padding == core + padding;
  }

  /** The empty check comes first: blank input over the limit is "empty". */
  lemma BlankOverLimitIsEmpty(n: nat)
    requires n > MaxLength
    ensures NewTokenName(Some(seq(n, _ => ' '))) == Failure(BusinessRuleException(EmptyMessage))
  {
  }

  /** The boundary of the `>` test: exactly MaxLength non-padding
      characters are accepted and stored as they are. */
  lemma ExactlyMaxLengthAccepted()
    ensures NewTokenName(Some(seq(MaxLength, _ => 'a'))) == Success(TokenName(seq(MaxLength, _ => 'a')))
  {
    ValidNameRoundTrip(TokenName(seq(MaxLength, _ => 'a')));
  }

  /** One character more than the limit is rejected. */
  lemma OneOverMaxLengthRejected()
    ensures NewTokenName(Some(seq(MaxLength + 1, _ => 'a'))) == Failure(BusinessRuleException(TooLongMessage))
  {
    assert seq(MaxLength + 1, _ => 'a')[0] == 'a';
  }

  /** Inputs trimming to the same text give equal names with equal hashes:
      "Alice" and "Alice  ". */
  lemma PaddedAliceEqualsAlice(stringHash: string -> int)
    ensures NewTokenName(Some("Alice")) == Success(TokenName("Alice"))
    ensures NewTokenName(Some("Alice  ")) == Success(TokenName("Alice"))
    ensures NewTokenName(Some("Alice")).value.Equals(Some(NewTokenName(Some("Alice  ")).value))
    ensures NewTokenName(Some("Alice")).value.HashCode(stringHash)
         == NewTokenName(Some("Alice  ")).value.HashCode(stringHash)
  {
    var alice, pad := "Alice", "  ";
    assert IsTrimmed(alice);
    assert IsBlank(pad);
    ValidNameRoundTrip(TokenName(alice));
    TrailingPaddingIsDropped(alice, pad);
    assert alice + pad == "Alice  ";
  }

  /** "  hello  " is accepted and reads back as "hello". */
  lemma PaddedHelloReadsBackTrimmed()
    ensures NewTokenName(Some("  hello  ")) == Success(TokenName("hello"))
  {
    var hello, pad := "hello", "  ";
    assert IsTrimmed(hello);
    assert IsBlank(pad);
    TrimOfPadded(pad, hello, pad);
    assert pad + hello + pad == "  hello  ";
  }

  /** Two inputs give equal names exactly when they trim to the same text. */
  lemma EqualNamesIffEqualTrim(a: string, b: string)
    requires !IsBlank(a) && |a| <= MaxLength
    requires !IsBlank(b) && |b| <= MaxLength
    ensures NewTokenName(Some(a)).Success? && NewTokenName(Some(b)).Success?
    ensures NewTokenName(Some(a)).value.Equals(Some(NewTokenName(Some(b)).value)) <==> Trim(a) == Trim(b)
  {
  }

  /** equals is consistent with hashCode, whatever the string hash is. */
  lemma EqualNamesHashEqually(a: TokenName, b: TokenName, stringHash: string -> int)
    requires a.Equals(Some(b))
    ensures a.HashCode(stringHash) == b.HashCode(stringHash)
  {
  }

  /** equals is an equivalence relation and rejects null. */
  lemma NameEqualsIsEquivalence(a: TokenName, b: TokenName, c: TokenName)
    ensures a.Equals(Some(a))
    ensures !a.Equals(None)
    ensures a.Equals(Some(b)) <==> b.Equals(Some(a))
    ensures a.Equals(Some(b)) && b.Equals(Some(c)) ==> a.Equals(Some(c))
  {
  }
}
