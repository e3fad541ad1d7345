# Domain value objects of the delivery system, in Dafny

This project models the domain value-object layer of the delivery system's
personal-access-token package and proves its rules:

- **TokenName** is the display name of a token. Its constructor rejects null
  or blank text with the business-rule error "Token name cannot be empty".
  It then rejects text whose *raw, untrimmed* length is over 100 with "Token
  name cannot exceed 100 characters". Otherwise it stores the trimmed text.
  Equality and hash use the stored text only.
- **BaseId** is the identity primitive. It wraps a non-null UUID and rejects
  null with `IllegalArgumentException("UUID value cannot be null")`.
  `equals` requires the same concrete class and equal UUIDs. `hashCode` and
  `toString` use only the UUID.
- **PermissionId** and **TokenId** are the two concrete identifier classes.
  Each has a constructor that delegates to BaseId and a `generate()` factory.

Every source file is pure, so the model is made of datatypes, functions and
lemmas:

- A Java `null` is `Option.None`.
- A constructor that throws returns `Result.Failure` carrying an `Exception`
  value, tagged with the exception class and its message.
- `String.trim` is modelled as Java defines it: it strips characters whose
  code is at most U+0020 from both ends (`JavaStrings.Trim`). `length()` is
  sequence length.
- The concrete subclass of BaseId is the `Kind` tag of the `BaseId`
  datatype. `PermissionId` and `TokenId` are subset types of it, so a
  permission identifier cannot be used where a token identifier is expected.
  `Equals` can still be asked across the two kinds, as in Java.
- `equals(Object)` takes an `Option` of the same datatype. `None` is null.
- Hash codes and the UUID's text form come from the Java library. They are
  function parameters of the stored value (`stringHash`, `uuidHash`,
  `render`). The lemmas hold for every such function.
- `generate()` takes the random UUID as a parameter.

The length limit is checked on the raw input, as the code does. So a
non-blank name padded past 100 characters is rejected, even though its
trimmed form is short (`TokenNames.TrailingPaddingCountsTowardLimit`). The
blank check runs first, so blank input over the limit reports "empty"
(`TokenNames.BlankOverLimitIsEmpty`).

Files: `wrappers.dfy` (Option, Result), `exceptions.dfy`,
`java_strings.dfy` (String.trim), `token_name.dfy`, `base_id.dfy`,
`permission_id.dfy`, `token_id.dfy`.

## Model

| member | source | states |
|---|---|---|
| JavaStrings.TrimStart | src/main/java/com/delivery/domain/personalAccessToken/model/TokenName.java:11 | the result is a suffix of the input; everything dropped is a char <= U+0020; the result is empty or starts with a char above U+0020 |
| JavaStrings.TrimEnd | src/main/java/com/delivery/domain/personalAccessToken/model/TokenName.java:17 | the result is a prefix of the input; everything dropped is a char <= U+0020; the result is empty or ends with a char above U+0020 |
| JavaStrings.Trim | src/main/java/com/delivery/domain/personalAccessToken/model/TokenName.java:11 | trim is no longer than its input and has no padding at either end; it is empty exactly when the input is blank (the `trim().isEmpty()` test) |
| JavaStrings.TrimOfPadded | src/main/java/com/delivery/domain/personalAccessToken/model/TokenName.java:17 | reference definition: for any blank padding around a trimmed core, trim returns exactly that core |
| JavaStrings.TrimSplits | src/main/java/com/delivery/domain/personalAccessToken/model/TokenName.java:17 | converse: every input is its trim with blank padding before and after |
| JavaStrings.TrimIdempotent | src/main/java/com/delivery/domain/personalAccessToken/model/TokenName.java:17 | trimming the stored value again changes nothing |
| TokenNames.NewTokenName | src/main/java/com/delivery/domain/personalAccessToken/model/TokenName.java:10-18 | fails with "cannot be empty" iff the input is null or blank; fails with "cannot exceed 100 characters" iff it is non-blank and its raw length is over 100; succeeds otherwise, storing trim(input); every stored name is non-empty, at most 100 long and trimmed |
| TokenNames.TokenName.Equals | src/main/java/com/delivery/domain/personalAccessToken/model/TokenName.java:25-30 | equals holds exactly for a non-null name with the same stored text |
| TokenNames.ValidNameRoundTrip | src/main/java/com/delivery/domain/personalAccessToken/model/TokenName.java:10-21 | rebuilding a name from getValue() gives back the same name |
| TokenNames.TrailingPaddingCountsTowardLimit | src/main/java/com/delivery/domain/personalAccessToken/model/TokenName.java:14-15 | a non-blank core plus padding with raw length over 100 is rejected as too long, although it trims to the short core |
| TokenNames.TrailingPaddingIsDropped | src/main/java/com/delivery/domain/personalAccessToken/model/TokenName.java:14-17 | within the limit, trailing padding is accepted and dropped from the stored text |
| TokenNames.BlankOverLimitIsEmpty | src/main/java/com/delivery/domain/personalAccessToken/model/TokenName.java:11-16 | the empty check runs first: blank input longer than 100 reports "cannot be empty" |
| TokenNames.ExactlyMaxLengthAccepted | src/main/java/com/delivery/domain/personalAccessToken/model/TokenName.java:14 | 100 non-padding characters are accepted and stored unchanged (boundary of `>`) |
| TokenNames.OneOverMaxLengthRejected | src/main/java/com/delivery/domain/personalAccessToken/model/TokenName.java:14-15 | 101 non-padding characters are rejected as too long |
| TokenNames.PaddedAliceEqualsAlice | src/main/java/com/delivery/domain/personalAccessToken/model/TokenName.java:25-35 | "Alice" and "Alice  " both build the name "Alice"; the two are equal and hash alike |
| TokenNames.PaddedHelloReadsBackTrimmed | src/main/java/com/delivery/domain/personalAccessToken/model/TokenName.java:17-21 | "  hello  " is accepted and getValue() reads "hello" |
| TokenNames.EqualNamesIffEqualTrim | src/main/java/com/delivery/domain/personalAccessToken/model/TokenName.java:25-30 | two non-blank inputs within the limit are both accepted, and give equal names iff they trim to the same text |
| TokenNames.EqualNamesHashEqually | src/main/java/com/delivery/domain/personalAccessToken/model/TokenName.java:33-35 | equal names have equal hash codes, for any string hash |
| TokenNames.NameEqualsIsEquivalence | src/main/java/com/delivery/domain/personalAccessToken/model/TokenName.java:25-30 | name equality is reflexive, symmetric and transitive, and never holds against null |
| BaseIds.NewBaseId | src/main/java/com/delivery/domain/base/BaseId.java:11-16 | fails with IllegalArgumentException("UUID value cannot be null") iff the UUID is null; otherwise the id has the caller's class and getValue() is exactly the UUID given |
| BaseIds.BaseId.Equals | src/main/java/com/delivery/domain/base/BaseId.java:27-33 | equals holds exactly for a non-null id of the same class with an equal UUID |
| BaseIds.DifferentKindsNeverEqual | src/main/java/com/delivery/domain/base/BaseId.java:30 | ids of different classes are never equal, in either direction, whatever their UUIDs |
| BaseIds.IdEqualsIsEquivalence | src/main/java/com/delivery/domain/base/BaseId.java:28-33 | id equality is reflexive, symmetric and transitive, and never holds against null |
| BaseIds.EqualIdsHashEqually | src/main/java/com/delivery/domain/base/BaseId.java:35-38 | equal ids have equal hash codes, for any UUID hash |
| BaseIds.SameUuidSameHashAndText | src/main/java/com/delivery/domain/base/BaseId.java:22-38 | hashCode and toString depend on the UUID only: ids wrapping the same UUID hash and render alike, whatever their class |
| PermissionIds.NewPermissionId | src/main/java/com/delivery/domain/personalAccessToken/model/PermissionId.java:9-11 | null fails with the IllegalArgumentException of BaseId; otherwise the result is a permission id whose value is the UUID given |
| PermissionIds.GeneratePermissionId | src/main/java/com/delivery/domain/personalAccessToken/model/PermissionId.java:13-15 | generate() never fails and returns a permission id wrapping the drawn UUID |
| PermissionIds.SameUuidEqualPermissionIds | src/main/java/com/delivery/domain/personalAccessToken/model/PermissionId.java:7-15 | permission ids built or generated from one UUID are equal and hash alike |
| PermissionIds.PermissionIdNeverEqualsOtherKind | src/main/java/com/delivery/domain/personalAccessToken/model/PermissionId.java:7 | a permission id equals no id of another class, in either direction |
| TokenIds.NewTokenId | src/main/java/com/delivery/domain/personalAccessToken/model/TokenId.java:8-10 | null fails with the IllegalArgumentException of BaseId; otherwise the result is a token id whose value is the UUID given |
| TokenIds.GenerateTokenId | src/main/java/com/delivery/domain/personalAccessToken/model/TokenId.java:12-14 | generate() never fails and returns a token id wrapping the drawn UUID |
| TokenIds.SameUuidEqualTokenIds | src/main/java/com/delivery/domain/personalAccessToken/model/TokenId.java:7-14 | token ids built or generated from one UUID are equal and hash alike |
| TokenIds.TokenIdNeverEqualsPermissionId | src/main/java/com/delivery/domain/personalAccessToken/model/TokenId.java:7 | a token id and a permission id are never equal, even when they wrap the same UUID; in that case they still hash alike |

## Left out

- Randomness of `generate()`: the UUID is a parameter. No claim is made that two generated ids differ.
- Hash arithmetic: the exact values of `Objects.hash`, `String.hashCode` and `UUID.hashCode` are not modelled. A hash is any function of the stored value, and only consistency with equality is proved.
- UUID text form: the 8-4-4-4-12 hexadecimal format of `UUID.toString` is not modelled. The text form is any function of the UUID.
- UTF-16: a Java `char` is a UTF-16 code unit, while a Dafny `char` is a Unicode scalar value. A character above U+FFFF counts 2 toward Java's `length()` and 1 here. Such characters are not modelled.
- `equals` against an object of an unrelated class: the argument is an `Option` of the same datatype. Other classes fail Java's `getClass()` test anyway.
- Reference identity (`this == o`): with value datatypes it is subsumed by structural equality.
- `Serializable` on BaseId: Java serialisation machinery, not modelled.
- src/main/java/com/delivery/shared/exception/BusinessRuleException.java is not part of this model. It is represented by an exception tag carrying its message.
- src/main/java/com/delivery/DeliverySystemApplication.java: Spring Boot start-up, no domain logic.
