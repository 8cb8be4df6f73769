/**
 * `validate_youtube_url`: a URL is accepted when it carries a web scheme and
 * names a YouTube host; otherwise one of three fixed messages is returned.
 */
module UrlCheck {
  import opened Wrappers
  import opened PyStr

  /** Python returns `True` for an accepted URL and an explanatory string otherwise. */
  datatype Verdict = Accepted | Rejected(reason: string)

  const BadScheme := "Invalid URL format"
  const NotYouTube := "Not a valid YouTube url"
  const NotText := "Invalid url"

  /** The URL starts with `http://` or `https://`. */
  predicate WebScheme(url: string) {
    StartsWith(url, "http://") || StartsWith(url, "https://")
  }

  /** The URL mentions one of the two YouTube host names somewhere. */
  ghost predicate NamesYouTube(url: string) {
    Occurs(url, "youtube.com") || Occurs(url, "youtu.be")
  }

  /**
   * `url` is `None` for an argument that is not a string: calling
   * `startswith` on it raises, and the handler answers "Invalid url".
   * The scheme is checked before the host.
   */
  function ValidateYoutubeUrl(url: Option<string>): (v: Verdict)
    ensures url.None? ==> v == Rejected(NotText)
    ensures url.Some? ==> (v == Accepted <==> WebScheme(url.value) && NamesYouTube(url.value))
    ensures url.Some? ==> (v == Rejected(BadScheme) <==> !WebScheme(url.value))
    ensures url.Some? ==> (v == Rejected(NotYouTube) <==> WebScheme(url.value) && !NamesYouTube(url.value))
  {
    match url
    case None => Rejected(NotText)
    case Some(u) =>
      ContainsIsOccurs(u, "youtube.com");
      ContainsIsOccurs(u, "youtu.be");
      if !WebScheme(u) then Rejected(BadScheme)
      else if !Contains(u, "youtube.com") && !Contains(u, "youtu.be") then Rejected(NotYouTube)
      else Accepted
  }
}
