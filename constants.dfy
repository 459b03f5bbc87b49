/** The constants the importer's code refers to. Constants.java declares only the identifier
    attribute; the values of the others are assumed here, not taken from a declaration. */
module Constants {

  type NonEmptyString = s: string | |s| > 0 witness "x"

  /** Separates class and attribute in a reference header ("Class.attr"); assumed value. */
  const DependentSeparator: char := '.'

  /** Starts the name of a composition sheet ("#Employee"); assumed value. */
  const CompositionPrefix: char := '#'

  /** Name of the sheet that renames the other sheets; assumed value. */
  const MappingSheetName: string := "_mapping"

  /** Suffix of the update mutation of a class; assumed value. */
  const GraphQLUpdateSuffix: string := "___update"

  /** The identifier attribute of every GraphQL object, as Constants.java declares it. */
  const Id: string := "_id"

  /** Marks real-valued attributes; its text is not known and is assumed only not to be empty. */
  const RealPrefix: NonEmptyString
}
