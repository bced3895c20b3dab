/** A row of the mappings table as the processors pass it around. */
module Mappings {
  import opened Text

  datatype Match = Match(target: Option<string>, article: Option<string>, blackListed: bool)
}
