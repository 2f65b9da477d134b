/**
 * `renderMessage`: how one transcript entry is shown. The media address is
 * resolved first (for every entry, whatever its type), then the entry's
 * `msg_type` picks the element; an unrecognised type shows `message` as
 * plain text.
 */
module Render {
  import opened Wire

  const BackendUrl: string := "http://127.0.0.1:8000"

  datatype Shown =
    | Image(src: string)
    | VideoPlayer(src: string)
    | AudioPlayer(src: string)
    | DownloadLink(href: string)
    | Plain(content: Value)
    /** `media_url?.startsWith` threw: the value is neither a string nor null/undefined. */
    | Crashed

  /** An address the browser can load as it is: a local preview or an already-qualified URL. */
  predicate Absolute(url: string) {
    StartsWith(url, "blob:") || StartsWith(url, "http")
  }

  /** The resolved media address; `None` where the optional-chained `startsWith` call throws. */
  function FullUrl(msg: Object): (url: Option<string>)
    ensures url.Some? ==> Absolute(url.value)
    ensures url.None? <==> "media_url" in msg && !msg["media_url"].Str? && msg["media_url"] != Null
  {
    var media: Option<Value> := if "media_url" in msg then Some(msg["media_url"]) else None;
    match media
    case Some(Str(s)) =>
      if Absolute(s) then Some(s)
      else
        StartsWithAppend(BackendUrl, s);
        Some(BackendUrl + s)
    case Some(Bool(_)) => None
    case Some(Num(_)) => None
    case Some(Payload(_)) => None
    case Some(Null) =>
      // `${null}`
      StartsWithAppend(BackendUrl, "null");
      Some(BackendUrl + "null")
    case None =>
      // `${undefined}`: the entry has no address at all
      StartsWithAppend(BackendUrl, "undefined");
      Some(BackendUrl + "undefined")
  }

  function RenderMessage(msg: Object): (shown: Shown)
    ensures shown == Crashed <==> FullUrl(msg).None?
    ensures shown.Plain? ==> shown.content == Get(msg, "message")
  {
    match FullUrl(msg)
    case None => Crashed
    case Some(url) =>
      var t := Get(msg, "msg_type");
      if t == Str("image") then Image(url)
      else if t == Str("video") then VideoPlayer(url)
      else if t == Str("audio") then AudioPlayer(url)
      else if t == Str("file") then DownloadLink(url)
      else Plain(Get(msg, "message"))
  }

  /** A string address passes through exactly when it is already absolute; otherwise it is qualified against the backend. */
  lemma PassThroughIff(msg: Object, s: string)
    requires "media_url" in msg && msg["media_url"] == Str(s)
    ensures FullUrl(msg) == Some(s) <==> Absolute(s)
    ensures !Absolute(s) ==> FullUrl(msg) == Some(BackendUrl + s)
  {
    if !Absolute(s) {
      assert |BackendUrl + s| != |s|;
    }
  }

  /** Resolving an address that was already resolved changes nothing. */
  lemma ResolveIdempotent(msg: Object)
    requires FullUrl(msg).Some?
    ensures FullUrl(msg["media_url" := Str(FullUrl(msg).value)]) == FullUrl(msg)
  {
  }

  /** The element follows the type for the four media types and falls back to the text otherwise. */
  lemma DispatchByType(msg: Object)
    requires FullUrl(msg).Some?
    ensures var url, t := FullUrl(msg).value, Get(msg, "msg_type");
      && (t == Str("image") <==> RenderMessage(msg) == Image(url))
      && (t == Str("video") <==> RenderMessage(msg) == VideoPlayer(url))
      && (t == Str("audio") <==> RenderMessage(msg) == AudioPlayer(url))
      && (t == Str("file") <==> RenderMessage(msg) == DownloadLink(url))
      && (t !in {Str("image"), Str("video"), Str("audio"), Str("file")}
          <==> RenderMessage(msg) == Plain(Get(msg, "message")))
  {
  }
}
