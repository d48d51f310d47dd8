/**
 * The fixed messages the bookmark page shows in its error and success banners.
 */
module Messages {

  datatype Message =
    | Required
    | UrlFormat
    | AddFailed
    | Added
    | UpdateFailed
    | Updated
    | DeleteFailed
    | Deleted
    | LoadFailed

  /** The text shown for each message. None is empty, so a set message is
      always truthy and its banner is always rendered. */
  function Wording(m: Message): (r: string)
    ensures r != []
  {
    match m
    case Required => "Both fields are required."
    case UrlFormat => "URL must start with http:// or https://"
    case AddFailed => "Failed to add bookmark."
    case Added => "Bookmark added."
    case UpdateFailed => "Failed to update bookmark."
    case Updated => "Bookmark updated."
    case DeleteFailed => "Failed to delete bookmark."
    case Deleted => "Bookmark deleted."
    case LoadFailed => "Failed to load bookmarks."
  }
}
