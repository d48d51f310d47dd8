/**
 * The `Home` page component as an object: its fields are the page's state
 * cells and its methods are the handlers, which assign those cells one after
 * another. Each backend call is replaced by the answer it returns, passed in
 * as an argument; each method returns the request it would have sent.
 */
module Controller {
  import opened Text
  import opened Validation
  import opened Form
  import opened Messages

  class Home {
    var session: Option<UserId>
    var title: string
    var url: string
    var bookmarks: seq<Bookmark>
    var loading: bool
    var editingId: Option<int>
    var errorMsg: Option<Message>
    var successMsg: Option<Message>

    /** The values of the state cells. */
    function View(): State
      reads this
    {
      State(session, title, url, bookmarks, loading, editingId, errorMsg, successMsg)
    }

    /** Every cell holds its initial value. */
    constructor ()
      ensures View() == Initial
    {
      session := None;
      title, url := "", "";
      bookmarks := [];
      loading := false;
      editingId := None;
      errorMsg, successMsg := None, None;
    }

    /** `fetchBookmarks(userId)`. */
    method FetchBookmarks(userId: UserId, f: Fetched) returns (sent: Request)
      modifies this`errorMsg, this`bookmarks
      ensures Step(View(), Some(sent)) == AfterFetch(old(View()), userId, f)
    {
      sent := Select(userId);
      if f.FetchFailed? {
        errorMsg := Some(LoadFailed);
        return;
      }
      bookmarks := if f.data.Some? then f.data.value else [];
    }

    /** `addBookmark()`. */
    method AddBookmark(o: Outcome) returns (sent: Option<Request>)
      requires session.Some?
      modifies this`errorMsg, this`successMsg, this`loading, this`title, this`url
      ensures Step(View(), sent) == AfterAdd(old(View()), o)
    {
      errorMsg := None;
      successMsg := None;
      var t, u := Trim(title), Trim(url);
      if t == [] || u == [] {
        errorMsg := Some(Required);
        return None;
      }
      if !ValidateUrl(u) {
        errorMsg := Some(UrlFormat);
        return None;
      }
      loading := true;
      sent := Some(Insert(NewRow(t, u, session.value)));
      loading := false;
      if o.Failed? {
        errorMsg := Some(AddFailed);
        return;
      }
      title := "";
      url := "";
      successMsg := Some(Added);
    }

    /** `updateBookmark(id)`. */
    method UpdateBookmark(id: int, o: Outcome) returns (sent: Option<Request>)
      modifies this`errorMsg, this`successMsg, this`loading, this`title, this`url, this`editingId
      ensures Step(View(), sent) == AfterUpdate(old(View()), id, o)
    {
      errorMsg := None;
      successMsg := None;
      var t, u := Trim(title), Trim(url);
      if t == [] || u == [] {
        errorMsg := Some(Required);
        return None;
      }
      if !ValidateUrl(u) {
        errorMsg := Some(UrlFormat);
        return None;
      }
      loading := true;
      sent := Some(Update(id, Patch(t, u)));
      loading := false;
      if o.Failed? {
        errorMsg := Some(UpdateFailed);
        return;
      }
      editingId := None;
      title := "";
      url := "";
      successMsg := Some(Updated);
    }

    /** `deleteBookmark(id)`. */
    method DeleteBookmark(id: int, o: Outcome) returns (sent: Request)
      modifies this`errorMsg, this`successMsg
      ensures Step(View(), Some(sent)) == AfterDelete(old(View()), id, o)
    {
      sent := Delete(id);
      if o.Failed? {
        errorMsg := Some(DeleteFailed);
        return;
      }
      successMsg := Some(Deleted);
    }

    /** The title input's `onChange`. */
    method TitleChanged(v: string)
      modifies this`title
      ensures View() == AfterTitleTyped(old(View()), v)
    {
      title := v;
    }

    /** The url input's `onChange`. */
    method UrlChanged(v: string)
      modifies this`url
      ensures View() == AfterUrlTyped(old(View()), v)
    {
      url := v;
    }

    /** The "Edit" button of bookmark `b`. */
    method EditClicked(b: Bookmark)
      modifies this`editingId, this`title, this`url
      ensures View() == AfterEditClick(old(View()), b)
    {
      editingId := Some(b.id);
      title := b.title;
      url := b.url;
    }

    /** The submit button: update when the edit target is truthy, add otherwise. */
    method Submit(o: Outcome) returns (sent: Option<Request>)
      requires !Truthy(editingId) ==> session.Some?
      modifies this`errorMsg, this`successMsg, this`loading, this`title, this`url, this`editingId
      ensures Step(View(), sent) == AfterSubmit(old(View()), o)
    {
      if Truthy(editingId) {
        sent := UpdateBookmark(editingId.value, o);
      } else {
        sent := AddBookmark(o);
      }
    }

    /** `logout()`. */
    method Logout() returns (sent: Request)
      modifies this`session
      ensures Step(View(), Some(sent)) == AfterLogout(old(View()))
    {
      sent := SignOut;
      session := None;
    }

    /** The change feed's handler: refresh for the signed-in user. */
    method OnBookmarksChanged(f: Fetched) returns (sent: Request)
      requires session.Some?
      modifies this`errorMsg, this`bookmarks
      ensures Step(View(), Some(sent)) == AfterChangeEvent(old(View()), f)
    {
      sent := FetchBookmarks(session.value, f);
    }
  }

  /** A session of use: edit a stored bookmark, save it, then see the list
      refreshed by the change feed. */
  method EditSaveRefresh(page: Home, b: Bookmark, rows: seq<Bookmark>)
    requires page.session.Some? && b.id != 0 && WellFormed(b.title, b.url)
    modifies page
    ensures page.editingId == None && page.title == "" && page.url == ""
    ensures page.successMsg == Some(Updated) && page.bookmarks == rows
  {
    page.EditClicked(b);
    CheckDraftAcceptsWellFormed(b.title, b.url);
    var saved := page.Submit(Succeeded);
    assert saved == Some(Update(b.id, Patch(b.title, b.url)));
    var refreshed := page.OnBookmarksChanged(Rows(Some(rows)));
  }
}
