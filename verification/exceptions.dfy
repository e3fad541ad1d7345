/** The two exceptions the domain layer throws, each carrying its message. */
module Exceptions {

  datatype Exception =
    | BusinessRuleException(message: string)
    | IllegalArgumentException(message: string)
}
