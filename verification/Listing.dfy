/** What a listing can name (src/remote.rs). */
module Listing {
  datatype EntryKind = File | Dir | Symlink
}
