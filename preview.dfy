/** The response decision of `/preview/:id` once the file is found and owned: a
    plain inline stream, or a partial-content relay of the client's Range request
    for videos. The Telegram file-path lookup and the byte streams are not part of
    this model; the headers of the upstream ranged response are a parameter. */
module Preview {
  import opened Records

  /** Headers the Telegram file server sent back on a ranged request. */
  datatype Upstream = Upstream(contentRange: Option<string>, contentLength: Option<string>)

  /** What the handler does: the Range header it sends upstream (None: a plain
      GET), the status it answers with, and the headers it sets on the response. */
  datatype PreviewResponse = PreviewResponse(
    forwardRange: Option<string>,
    status: nat,
    headers: map<string, string>)

  /** `range && file.fileType === "video"`: only videos are served by range. */
  predicate ServesRange(range: Option<string>, fileType: string) {
    Truthy(range) && fileType == "video"
  }

  /** The only headers the preview response ever carries. */
  const PreviewHeaderNames: set<string> :=
    {"Content-Type", "Content-Disposition", "Content-Range", "Content-Length", "Accept-Ranges"}

  /** The status and headers of a preview. A ranged video request is forwarded
      verbatim and answered 206 with Accept-Ranges; of the upstream headers only
      Content-Range and Content-Length are copied, each only when upstream sent a
      non-empty value. Every other request is a plain 200 stream. The content type
      falls back to "video/mp4" whenever the record has no MIME type, whatever the
      file's kind. */
  function PreviewDecision(range: Option<string>, fileType: string, mimeType: Option<string>, upstream: Upstream): (p: PreviewResponse)
    ensures p.status == (if ServesRange(range, fileType) then 206 else 200)
    ensures p.forwardRange == (if ServesRange(range, fileType) then range else None)
    ensures p.headers.Keys <= PreviewHeaderNames
    ensures "Content-Type" in p.headers && p.headers["Content-Type"] == OrElse(mimeType, "video/mp4")
    ensures "Content-Disposition" in p.headers && p.headers["Content-Disposition"] == "inline"
    ensures ("Accept-Ranges" in p.headers) == ServesRange(range, fileType)
    ensures "Accept-Ranges" in p.headers ==> p.headers["Accept-Ranges"] == "bytes"
    ensures ("Content-Range" in p.headers) == (ServesRange(range, fileType) && Truthy(upstream.contentRange))
    ensures "Content-Range" in p.headers ==> p.headers["Content-Range"] == upstream.contentRange.value
    ensures ("Content-Length" in p.headers) == (ServesRange(range, fileType) && Truthy(upstream.contentLength))
    ensures "Content-Length" in p.headers ==> p.headers["Content-Length"] == upstream.contentLength.value
  {
    var inline := map["Content-Type" := OrElse(mimeType, "video/mp4"), "Content-Disposition" := "inline"];
    if !ServesRange(range, fileType) then
      PreviewResponse(None, 200, inline)
    else
      var withRange :=
        if Truthy(upstream.contentRange) then inline["Content-Range" := upstream.contentRange.value] else inline;
      var withLength :=
        if Truthy(upstream.contentLength) then withRange["Content-Length" := upstream.contentLength.value] else withRange;
      PreviewResponse(range, 206, withLength["Accept-Ranges" := "bytes"])
  }
}
