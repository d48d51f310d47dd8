/**
 * What each handler of the bookmark page does to the page's state, as pure
 * functions from the state before to the state after and the one request
 * sent to the backend (if any). The backend's answer is an argument.
 */
module Form {
  import opened Text
  import opened Validation
  import opened Messages

  datatype Option<T> = None | Some(value: T)

  type UserId = string

  /** A row of the `bookmarks` table as the backend returns it. */
  datatype Bookmark = Bookmark(id: int, title: string, url: string, owner: UserId)

  /** The row the page inserts: no id (the backend assigns it), but an owner. */
  datatype NewRow = NewRow(title: string, url: string, owner: UserId)

  /** The columns an update may change: never the id, never the owner. */
  datatype Patch = Patch(title: string, url: string)

  /** The calls the page makes into the backend. */
  datatype Request =
    | Select(owner: UserId)
    | Insert(row: NewRow)
    | Update(id: int, patch: Patch)
    | Delete(id: int)
    | SignOut

  /** Whether an insert, update or delete came back with an error. */
  datatype Outcome = Succeeded | Failed

  /** What a select came back with: rows (possibly `null`) or an error. */
  datatype Fetched = Rows(data: Option<seq<Bookmark>>) | FetchFailed

  /** The page's state cells. */
  datatype State = State(
    session: Option<UserId>,
    title: string,
    url: string,
    bookmarks: seq<Bookmark>,
    loading: bool,
    editingId: Option<int>,
    errorMsg: Option<Message>,
    successMsg: Option<Message>)

  /** The state the page starts in. */
  const Initial := State(None, "", "", [], false, None, None, None)

  /** The state after a handler, and the request it sent. */
  datatype Step = Step(next: State, sent: Option<Request>)

  /** JavaScript truthiness of the `number | null` edit target: `null` and 0 are false. */
  predicate Truthy(id: Option<int>): (b: bool)
    ensures b <==> id != None && id != Some(0)
  {
    id.Some? && id.value != 0
  }

  /** `fetchBookmarks(userId)`: on error only the error message changes; otherwise
      the list is replaced wholesale by the returned rows, or emptied when the
      backend returned none. */
  function AfterFetch(s: State, userId: UserId, f: Fetched): (r: Step)
    ensures r.sent == Some(Select(userId))
    ensures f.FetchFailed? ==> r.next.bookmarks == s.bookmarks && r.next.errorMsg == Some(LoadFailed)
    ensures f.Rows? && f.data.Some? ==> r.next.bookmarks == f.data.value
    ensures f.Rows? && f.data.None? ==> r.next.bookmarks == []
    ensures f.Rows? ==> r.next.errorMsg == s.errorMsg
    ensures r.next.(bookmarks := s.bookmarks, errorMsg := s.errorMsg) == s
  {
    var sent := Some(Select(userId));
    match f
    case FetchFailed => Step(s.(errorMsg := Some(LoadFailed)), sent)
    case Rows(data) => Step(s.(bookmarks := if data.Some? then data.value else []), sent)
  }

  /** `addBookmark()`. Both messages are cleared first. A draft that fails the
      guard only sets the guard's message. Otherwise the trimmed values are
      inserted under the session's user; on success the draft is cleared, on
      failure it is kept. The edit target and the list are never touched. */
  function AfterAdd(s: State, o: Outcome): (r: Step)
    requires s.session.Some?
    ensures r.next.session == s.session && r.next.editingId == s.editingId
    ensures r.next.bookmarks == s.bookmarks
    ensures r.sent.Some? <==> CheckDraft(s.title, s.url).Accept?
    ensures r.sent.None? ==>
              r.next == s.(errorMsg := Some(CheckDraft(s.title, s.url).message), successMsg := None)
    ensures r.sent.Some? ==>
              && r.sent.value == Insert(NewRow(Trim(s.title), Trim(s.url), s.session.value))
              && !r.next.loading
    ensures r.sent.Some? && o == Succeeded ==>
              && r.next.title == "" && r.next.url == ""
              && r.next.errorMsg == None && r.next.successMsg == Some(Added)
    ensures r.sent.Some? && o == Failed ==>
              && r.next.title == s.title && r.next.url == s.url
              && r.next.errorMsg == Some(AddFailed) && r.next.successMsg == None
  {
    var cleared := s.(errorMsg := None, successMsg := None);
    match CheckDraft(s.title, s.url)
    case Reject(message) => Step(cleared.(errorMsg := Some(message)), None)
    case Accept(t, u) =>
      var sent := Some(Insert(NewRow(t, u, s.session.value)));
      var done := cleared.(loading := false);
      if o.Failed? then Step(done.(errorMsg := Some(AddFailed)), sent)
      else Step(done.(title := "", url := "", successMsg := Some(Added)), sent)
  }

  /** `updateBookmark(id)`. Same guard as adding. The patch holds only the
      trimmed title and url. On success the page leaves edit mode and clears
      the draft; on failure it stays in edit mode with the draft kept. */
  function AfterUpdate(s: State, id: int, o: Outcome): (r: Step)
    ensures r.next.session == s.session && r.next.bookmarks == s.bookmarks
    ensures r.sent.Some? <==> CheckDraft(s.title, s.url).Accept?
    ensures r.sent.None? ==>
              r.next == s.(errorMsg := Some(CheckDraft(s.title, s.url).message), successMsg := None)
    ensures r.sent.Some? ==>
              && r.sent.value == Update(id, Patch(Trim(s.title), Trim(s.url)))
              && !r.next.loading
    ensures r.sent.Some? && o == Succeeded ==>
              && r.next.editingId == None && r.next.title == "" && r.next.url == ""
              && r.next.errorMsg == None && r.next.successMsg == Some(Updated)
    ensures r.sent.Some? && o == Failed ==>
              && r.next.editingId == s.editingId && r.next.title == s.title && r.next.url == s.url
              && r.next.errorMsg == Some(UpdateFailed) && r.next.successMsg == None
  {
    var cleared := s.(errorMsg := None, successMsg := None);
    match CheckDraft(s.title, s.url)
    case Reject(message) => Step(cleared.(errorMsg := Some(message)), None)
    case Accept(t, u) =>
      var sent := Some(Update(id, Patch(t, u)));
      var done := cleared.(loading := false);
      if o.Failed? then Step(done.(errorMsg := Some(UpdateFailed)), sent)
      else Step(done.(editingId := None, title := "", url := "", successMsg := Some(Updated)), sent)
  }

  /** `deleteBookmark(id)`: always sent, with no guard. Only the message of the
      outcome is set; the other message is not cleared, and the draft, the edit
      target and the list stay as they are, even when `id` is the edit target. */
  function AfterDelete(s: State, id: int, o: Outcome): (r: Step)
    ensures r.sent == Some(Delete(id))
    ensures r.next.(errorMsg := s.errorMsg, successMsg := s.successMsg) == s
    ensures o == Failed ==> r.next.errorMsg == Some(DeleteFailed) && r.next.successMsg == s.successMsg
    ensures o == Succeeded ==> r.next.successMsg == Some(Deleted) && r.next.errorMsg == s.errorMsg
  {
    var sent := Some(Delete(id));
    if o.Failed? then Step(s.(errorMsg := Some(DeleteFailed)), sent)
    else Step(s.(successMsg := Some(Deleted)), sent)
  }

  /** The "Edit" button of bookmark `b`: `b` becomes the edit target and its
      title and url are loaded into the draft, replacing any earlier target. */
  function AfterEditClick(s: State, b: Bookmark): (r: State)
    ensures r.editingId == Some(b.id) && r.title == b.title && r.url == b.url
    ensures r.(editingId := s.editingId, title := s.title, url := s.url) == s
  {
    s.(editingId := Some(b.id), title := b.title, url := b.url)
  }

  /** The submit button: it updates the edit target when the target is truthy,
      and adds otherwise. Adding needs the session's user. */
  function AfterSubmit(s: State, o: Outcome): (r: Step)
    requires !Truthy(s.editingId) ==> s.session.Some?
    ensures r.sent.Some? ==> (r.sent.value.Update? <==> Truthy(s.editingId))
    ensures r.sent.Some? ==> r.sent.value.Update? || r.sent.value.Insert?
    ensures r.sent.Some? && r.sent.value.Update? ==> r.sent.value.id == s.editingId.value
    ensures r.sent.Some? <==> CheckDraft(s.title, s.url).Accept?
    ensures r.next.session == s.session && r.next.bookmarks == s.bookmarks
    ensures r.next.editingId ==
              if Truthy(s.editingId) && r.sent.Some? && o == Succeeded then None else s.editingId
    ensures Truthy(s.editingId) ==> r == AfterUpdate(s, s.editingId.value, o)
    ensures !Truthy(s.editingId) ==> r == AfterAdd(s, o)
  {
    if Truthy(s.editingId) then AfterUpdate(s, s.editingId.value, o) else AfterAdd(s, o)
  }

  /** Typing in the title input: the draft's title becomes what the input holds. */
  function AfterTitleTyped(s: State, v: string): (r: State)
    ensures r.title == v && r.(title := s.title) == s
  {
    s.(title := v)
  }

  /** Typing in the url input: the draft's url becomes what the input holds. */
  function AfterUrlTyped(s: State, v: string): (r: State)
    ensures r.url == v && r.(url := s.url) == s
  {
    s.(url := v)
  }

  /** `logout()`: the session is dropped; the draft, the messages and the
      cached list are left as they were. */
  function AfterLogout(s: State): (r: Step)
    ensures r.sent == Some(SignOut) && r.next.session == None
    ensures r.next.(session := s.session) == s
  {
    Step(s.(session := None), Some(SignOut))
  }

  /** A change-feed event: the list is refreshed for the signed-in user. */
  function AfterChangeEvent(s: State, f: Fetched): (r: Step)
    requires s.session.Some?
    ensures r.sent == Some(Select(s.session.value))
    ensures f.FetchFailed? ==> r.next == s.(errorMsg := Some(LoadFailed))
    ensures f.Rows? && f.data.Some? ==> r.next == s.(bookmarks := f.data.value)
    ensures f.Rows? && f.data.None? ==> r.next == s.(bookmarks := [])
  {
    AfterFetch(s, s.session.value, f)
  }

  /** Editing a stored (hence well-formed) bookmark with a non-zero id and
      submitting without changes sends an update of that row with its own
      title and url. */
  lemma EditThenSubmitUpdatesRow(s: State, b: Bookmark, o: Outcome)
    requires b.id != 0 && WellFormed(b.title, b.url)
    ensures AfterSubmit(AfterEditClick(s, b), o).sent == Some(Update(b.id, Patch(b.title, b.url)))
  {
    CheckDraftAcceptsWellFormed(b.title, b.url);
  }

  /** A bookmark whose id is 0 is not a truthy edit target: submitting after
      clicking its "Edit" inserts a new row instead of updating it. */
  lemma EditOfIdZeroInserts(s: State, b: Bookmark, o: Outcome)
    requires s.session.Some? && b.id == 0 && WellFormed(b.title, b.url)
    ensures AfterSubmit(AfterEditClick(s, b), o).sent
              == Some(Insert(NewRow(b.title, b.url, s.session.value)))
  {
    CheckDraftAcceptsWellFormed(b.title, b.url);
  }

  /** Clicking "Edit" on `y` while editing `x` leaves exactly what clicking
      "Edit" on `y` alone would. */
  lemma SwitchEditTarget(s: State, x: Bookmark, y: Bookmark)
    ensures AfterEditClick(AfterEditClick(s, x), y) == AfterEditClick(s, y)
  {
  }

  /** After a successful add, submitting again sends nothing: the draft is
      empty, so the guard rejects it. */
  lemma AddedThenResubmitRejected(s: State, o: Outcome)
    requires s.session.Some? && !Truthy(s.editingId)
    requires CheckDraft(s.title, s.url).Accept?
    ensures var n := AfterAdd(s, Succeeded).next;
            AfterSubmit(n, o) == Step(n.(errorMsg := Some(Required), successMsg := None), None)
  {
  }

  /** After a successful update the page is back in add mode with an empty
      draft: submitting again sends nothing. */
  lemma UpdatedThenResubmitRejected(s: State, o: Outcome)
    requires Truthy(s.editingId) && s.session.Some?
    requires CheckDraft(s.title, s.url).Accept?
    ensures var n := AfterSubmit(s, Succeeded).next;
            && !Truthy(n.editingId)
            && AfterSubmit(n, o) == Step(n.(errorMsg := Some(Required), successMsg := None), None)
  {
  }

  /** Deleting the bookmark being edited leaves the page in edit mode: the next
      submit still sends an update for the deleted id. */
  lemma DeletedTargetStillUpdated(s: State, o: Outcome, o': Outcome)
    requires Truthy(s.editingId) && CheckDraft(s.title, s.url).Accept?
    ensures var n := AfterDelete(s, s.editingId.value, o).next;
            AfterSubmit(n, o').sent == Some(Update(s.editingId.value, Patch(Trim(s.title), Trim(s.url))))
  {
  }

  /** The user actions and backend events of the signed-in page. */
  datatype Event =
    | TitleTyped(v: string)
    | UrlTyped(v: string)
    | EditClicked(b: Bookmark)
    | SubmitClicked(o: Outcome)
    | DeleteClicked(id: int, o: Outcome)
    | FeedChanged(f: Fetched)
    | LogoutClicked

  /** One event. The inputs, the buttons and the change feed exist only while
      a session does, so without one an event changes nothing. */
  function Apply(s: State, e: Event): Step {
    if s.session.None? then Step(s, None)
    else match e
      case TitleTyped(v) => Step(AfterTitleTyped(s, v), None)
      case UrlTyped(v) => Step(AfterUrlTyped(s, v), None)
      case EditClicked(b) => Step(AfterEditClick(s, b), None)
      case SubmitClicked(o) => AfterSubmit(s, o)
      case DeleteClicked(id, o) => AfterDelete(s, id, o)
      case FeedChanged(f) => AfterChangeEvent(s, f)
      case LogoutClicked => AfterLogout(s)
  }

  /** The state after a sequence of events, and the requests sent in order. */
  function Run(s: State, events: seq<Event>): (State, seq<Request>)
    decreases |events|
  {
    if events == [] then (s, [])
    else
      var step := Apply(s, events[0]);
      var (last, rest) := Run(step.next, events[1..]);
      (last, (if step.sent.Some? then [step.sent.value] else []) + rest)
  }

  /** What the page writes is well-formed: inserts and updates carry a non-empty,
      trimmed title and a non-empty, trimmed url with an accepted scheme. */
  predicate WritesWellFormed(q: Request) {
    match q
    case Insert(row) => WellFormed(row.title, row.url)
    case Update(_, patch) => WellFormed(patch.title, patch.url)
    case _ => true
  }

  /** One event sends at most one request, and that request is well-formed. */
  lemma ApplyWritesWellFormed(s: State, e: Event)
    ensures var st := Apply(s, e); st.sent.Some? ==> WritesWellFormed(st.sent.value)
  {
  }

  /** Every request in `sent` is well-formed. */
  predicate AllWritesWellFormed(sent: seq<Request>) {
    forall i :: 0 <= i < |sent| ==> WritesWellFormed(sent[i])
  }

  /** Over any sequence of events, every insert and update the page sends is
      well-formed, whatever the backend answers. */
  lemma {:induction false} RunWritesWellFormed(s: State, events: seq<Event>)
    ensures AllWritesWellFormed(Run(s, events).1)
    decreases |events|
  {
    if events != [] {
      var step := Apply(s, events[0]);
      var head := if step.sent.Some? then [step.sent.value] else [];
      var rest := Run(step.next, events[1..]).1;
      assert Run(s, events).1 == head + rest;
      ApplyWritesWellFormed(s, events[0]);
      RunWritesWellFormed(step.next, events[1..]);
      forall i | 0 <= i < |head + rest| ensures WritesWellFormed((head + rest)[i]) {
        if i < |head| {
          assert (head + rest)[i] == step.sent.value;
        } else {
          assert (head + rest)[i] == rest[i - |head|];
        }
      }
    }
  }

  /** No handler leaves the page saving: if `loading` is false before a
      sequence of events, it is false after it. */
  lemma {:induction false} RunStaysSettled(s: State, events: seq<Event>)
    requires !s.loading
    ensures !Run(s, events).0.loading
    decreases |events|
  {
    if events != [] {
      RunStaysSettled(Apply(s, events[0]).next, events[1..]);
    }
  }

  /** The list a sequence of events leaves, computed directly from the events:
      while signed in, each change event whose select succeeded replaces the
      list (with `[]` for a `null` answer) and a failed select keeps it; after
      a logout nothing changes it any more. */
  function LastFetched(signedIn: bool, list: seq<Bookmark>, events: seq<Event>): seq<Bookmark>
    decreases |events|
  {
    if events == [] || !signedIn then list
    else match events[0]
      case LogoutClicked => list
      case FeedChanged(Rows(data)) =>
        LastFetched(true, if data.Some? then data.value else [], events[1..])
      case _ => LastFetched(true, list, events[1..])
  }

  /** Only a logout ends the session, and nothing starts one. */
  lemma ApplyKeepsSession(s: State, e: Event)
    ensures Apply(s, e).next.session == (if e.LogoutClicked? then None else s.session)
  {
  }

  /** Over any sequence of events, the cached list is exactly the rows of the
      last successful select made while signed in (or the starting list when
      there was none), since every select replaces the list wholesale. */
  lemma {:induction false} RunListIsLastFetched(s: State, events: seq<Event>)
    ensures Run(s, events).0.bookmarks == LastFetched(s.session.Some?, s.bookmarks, events)
    decreases |events|
  {
    if events != [] {
      var next := Apply(s, events[0]).next;
      ApplyKeepsSession(s, events[0]);
      RunListIsLastFetched(next, events[1..]);
      if s.session.None? || events[0].LogoutClicked? {
        RunSignedOutKeepsList(next, events[1..]);
      }
    }
  }

  /** Signed out, no event changes the list. */
  lemma {:induction false} RunSignedOutKeepsList(s: State, events: seq<Event>)
    requires s.session.None?
    ensures Run(s, events).0.bookmarks == s.bookmarks
    decreases |events|
  {
    if events != [] {
      RunSignedOutKeepsList(Apply(s, events[0]).next, events[1..]);
    }
  }

  /** A successful refresh after any signed-in history decides the list. */
  lemma LaterFetchWins(s: State, pre: seq<Event>, rows: seq<Bookmark>)
    requires Run(s, pre).0.session.Some?
    ensures Run(s, pre + [FeedChanged(Rows(Some(rows)))]).0.bookmarks == rows
  {
    RunSplits(s, pre, [FeedChanged(Rows(Some(rows)))]);
  }

  /** Running two sequences of events one after the other. */
  lemma {:induction false} RunSplits(s: State, a: seq<Event>, b: seq<Event>)
    ensures Run(s, a + b).0 == Run(Run(s, a).0, b).0
    decreases |a|
  {
    if a != [] {
      assert (a + b)[0] == a[0] && (a + b)[1..] == a[1..] + b;
      RunSplits(Apply(s, a[0]).next, a[1..], b);
    } else {
      assert a + b == b;
    }
  }
}
