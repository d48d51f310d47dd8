/**
 * The checks the bookmark form runs before it talks to the backend:
 * `validateUrl`, and the two-step guard shared by adding and updating.
 */
module Validation {
  import opened Text
  import opened Messages

  /** `validateUrl`: the value starts with one of the two schemes. Nothing
      else about the value is looked at. */
  predicate ValidateUrl(value: string): (b: bool)
    ensures b <==> "http://" <= value || "https://" <= value
  {
    StartsWith(value, "http://") || StartsWith(value, "https://")
  }

  /** Every value that begins with either scheme passes, whatever follows. */
  lemma ValidateUrlAcceptsAnyRest(rest: string)
    ensures ValidateUrl("http://" + rest)
    ensures ValidateUrl("https://" + rest)
  {
    assert "http://" <= "http://" + rest;
    assert "https://" <= "https://" + rest;
  }

  /** Every value that passes is one of the two schemes followed by the rest. */
  lemma ValidateUrlSplits(value: string)
    requires ValidateUrl(value)
    ensures value == "http://" + value[7..] || value == "https://" + value[8..]
  {
    if StartsWith(value, "http://") {
      assert value == value[..7] + value[7..];
    } else {
      assert value == value[..8] + value[8..];
    }
  }

  /** `validateUrl` alone rejects a value with leading whitespace, which is why
      the form trims the url first. */
  lemma ValidateUrlRejectsLeadingSpace(c: char, rest: string)
    requires IsSpace(c)
    ensures !ValidateUrl([c] + rest)
  {
    assert ([c] + rest)[0] == c;
    assert 'h' !in Whitespace;
  }

  /** What the backend is sent for a draft that passes: both fields non-empty
      and without surrounding whitespace, and a url with an accepted scheme. */
  predicate WellFormed(title: string, url: string) {
    title != [] && url != [] && Stripped(title) && Stripped(url) && ValidateUrl(url)
  }

  /** The outcome of the guard: the trimmed values, or the message to show. */
  datatype Verdict = Accept(title: string, url: string) | Reject(message: Message)

  /** The guard of `addBookmark` and `updateBookmark`: first both trimmed
      fields must be non-empty, then the trimmed url must pass `validateUrl`. */
  function CheckDraft(title: string, url: string): (v: Verdict)
    ensures v.Reject? ==> v.message == Required || v.message == UrlFormat
    ensures v == Reject(Required) <==> AllSpace(title) || AllSpace(url)
    ensures v == Reject(UrlFormat) <==>
              !AllSpace(title) && !AllSpace(url) && !ValidateUrl(Trim(url))
    ensures v.Accept? ==> v.title == Trim(title) && v.url == Trim(url)
    ensures v.Accept? ==> WellFormed(v.title, v.url)
  {
    var t, u := Trim(title), Trim(url);
    if t == [] || u == [] then Reject(Required)
    else if !ValidateUrl(u) then Reject(UrlFormat)
    else Accept(t, u)
  }

  /** The values the guard sends pass the guard unchanged when submitted again. */
  lemma CheckDraftIdempotent(title: string, url: string)
    requires CheckDraft(title, url).Accept?
    ensures var v := CheckDraft(title, url);
            CheckDraft(v.title, v.url) == v
  {
    TrimIdempotent(title);
    TrimIdempotent(url);
  }

  /** A well-formed pair, such as a row already stored, passes as it is. */
  lemma CheckDraftAcceptsWellFormed(title: string, url: string)
    requires WellFormed(title, url)
    ensures CheckDraft(title, url) == Accept(title, url)
  {
    assert [] + title + [] == title;
    assert [] + url + [] == url;
    TrimPadded([], title, []);
    TrimPadded([], url, []);
  }

  /** Whitespace typed around either field changes nothing: a url with leading
      blanks before `https://` is accepted. */
  lemma CheckDraftIgnoresPadding(title: string, url: string, a: string, b: string, c: string, d: string)
    requires AllSpace(a) && AllSpace(b) && AllSpace(c) && AllSpace(d)
    ensures CheckDraft(a + title + b, c + url + d) == CheckDraft(title, url)
  {
    TrimIgnoresPadding(a, title, b);
    TrimIgnoresPadding(c, url, d);
  }

  /** An empty title is rejected with the first message even when the url is fine. */
  lemma EmptyTitleRejected()
    ensures CheckDraft("", "https://x.com") == Reject(Required)
  {
  }

  /** Blanks typed before a well-formed url are trimmed away and the draft is
      accepted with the url as it stands. */
  lemma LeadingBlanksAccepted(title: string, url: string, blanks: string)
    requires WellFormed(title, url) && AllSpace(blanks)
    ensures CheckDraft(title, blanks + url) == Accept(title, url)
  {
    CheckDraftAcceptsWellFormed(title, url);
    assert [] + title + [] == title;
    assert blanks + url + [] == blanks + url;
    CheckDraftIgnoresPadding(title, url, [], [], blanks, []);
  }
}
