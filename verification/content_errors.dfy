/** The errors the content extractor raises. Every one carries the message
    it was raised with; the base class is never raised on its own. */
module ContentErrors {

  datatype ContentError =
    | UnsupportedFormat(message: string)
    | AccessDenied(message: string)
    | NoValidContent(message: string)
    | FileNotFound(message: string)
}
