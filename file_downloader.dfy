/**
 * The decisions `FileDownloader.viewImg` makes before it touches the servlet
 * response: whether the path is an external URL to redirect to, whether the
 * query string asks for a resized image, whether the original file or a
 * thumbnail is written, how the thumbnail is sized, and in which format.
 * Reading the file, resizing it and writing the bytes are not modelled.
 */
module FileDownloader {
  import opened Wrappers
  import opened Text

  /** The width `parseWidth` reports when the query names none. */
  const NoWidth: int := 1000

  /** Widths at or above this value, like widths at or below zero, serve the original file. */
  const OriginalFromWidth: int := 1000

  const WidthMarker: string := "/w/"

  /** The text between the first "/w/" of `q` and the next '/' (or the end). */
  function WidthSegment(q: string): string
    requires Contains(q, WidthMarker)
  {
    TakeUntil(q[IndexOf(q, WidthMarker).value + |WidthMarker|..], '/')
  }

  /**
   * The query strings `parseWidth` handles without throwing: those without
   * "/w/", and those whose width segment is a 32-bit integer in ASCII digits.
   */
  predicate WidthParsable(q: string) {
    !Contains(q, WidthMarker) || IsJavaIntText(WidthSegment(q))
  }

  /**
   * `parseWidth` on ASCII digits, None where it throws. The source splits on "/w/" and then
   * on "/"; the first piece after the first "/w/", cut at its first '/', is
   * the width segment above whenever that segment is not empty, and an empty
   * segment makes the source throw as well (a missing piece or
   * `Integer.parseInt("")`).
   */
  function ParseWidth(q: string): (w: Option<int>)
    ensures w.None? <==> !WidthParsable(q)
    ensures !Contains(q, WidthMarker) ==> w == Some(NoWidth)
    ensures Contains(q, WidthMarker) && w.Some? ==> w.value == JavaParseInt(WidthSegment(q))
  {
    if !Contains(q, WidthMarker) then Some(NoWidth)
    else if IsJavaIntText(WidthSegment(q)) then Some(JavaParseInt(WidthSegment(q)))
    else None
  }

  lemma IndexOfIsFirst(s: string, pat: string, k: nat)
    requires OccursAt(s, pat, k)
    requires forall j :: 0 <= j < k ==> !OccursAt(s, pat, j)
    ensures IndexOf(s, pat) == Some(k)
  {
  }

  lemma {:induction false} TakeUntilStopsAt(x: string, rest: string, c: char)
    requires c !in x
    requires rest == [] || rest[0] == c
    ensures TakeUntil(x + rest, c) == x
  {
    if x != [] {
      assert (x + rest)[1..] == x[1..] + rest;
      TakeUntilStopsAt(x[1..], rest, c);
    }
  }

  /** A pattern whose only early occurrence is ruled out is first found right after the prefix. */
  lemma {:induction false} FirstOccurrenceAfter(prefix: string, pat: string, tail: string)
    requires |pat| > 0
    requires !Contains(prefix + pat[..|pat| - 1], pat)
    ensures IndexOf(prefix + pat + tail, pat) == Some(|prefix|)
  {
    var s := prefix + pat + tail;
    var head := prefix + pat[..|pat| - 1];
    forall j: nat | j < |prefix| ensures !OccursAt(s, pat, j) {
      assert !OccursAt(head, pat, j);
      assert s[j..j + |pat|] == head[j..j + |pat|];
    }
    assert s[|prefix|..|prefix| + |pat|] == pat;
    IndexOfIsFirst(s, pat, |prefix|);
  }

  /**
   * A width written as "/w/<n>" after a prefix that holds no "/w/" of its
   * own, and followed by nothing or by a further '/'-separated part, is read
   * back as n.
   */
  lemma ParseWidthReadsWrittenWidth(prefix: string, n: int, rest: string)
    requires !Contains(prefix + "/w", WidthMarker)
    requires IntMin <= n <= IntMax
    requires rest == [] || rest[0] == '/'
    ensures ParseWidth(prefix + WidthMarker + IntText(n) + rest) == Some(n)
  {
    var tail := IntText(n) + rest;
    var q := prefix + WidthMarker + tail;
    assert WidthMarker[..2] == "/w";
    FirstOccurrenceAfter(prefix, WidthMarker, tail);
    assert q == prefix + WidthMarker + IntText(n) + rest;
    assert q[|prefix| + 3..] == tail;
    if n < 0 {
      NatTextHasNoChar(-n, '/');
    } else {
      NatTextHasNoChar(n, '/');
    }
    TakeUntilStopsAt(IntText(n), rest, '/');
    assert WidthSegment(q) == IntText(n);
    IntTextParses(n);
  }

  /** The resize applied to a thumbnail. */
  datatype Sizing =
    | FitInto(width: int, height: int)   // Thumbnails `size(wh, wh)`
    | KeepScale                          // Thumbnails `scale(1.0)`

  /** What is written for a locally stored image. */
  datatype LocalBody =
    | OriginalFile                                  // `writeLocalFile`
    | NothingWritten                                // thumbnail asked for, file missing
    | ThumbnailImage(sizing: Sizing, format: string)

  /** The response `viewImg` produces. */
  datatype ImgResponse =
    | Redirect(location: string)
    | Local(path: string, temp: bool, contentType: Option<string>, body: LocalBody)
    | CloudRedirect(key: string)   // signed URL of this storage key
    | WidthUnreadable              // `parseWidth` threw; the exception leaves `viewImg`

  predicate IsExternal(path: string) {
    StartsWith(path, "http://") || StartsWith(path, "https://")
  }

  /** The query string as `viewImg` keeps it: only one that starts with "imageView2". */
  function HonouredQuery(query: Option<string>): (r: Option<string>)
    ensures r.Some? <==> query.Some? && StartsWith(query.value, "imageView2")
    ensures r.Some? ==> r == query
  {
    if query.Some? && StartsWith(query.value, "imageView2") then query else None
  }

  /** The file is served from local storage: the cloud store is off, or the file is a temporary one. */
  predicate ServedLocally(cloudAvailable: bool, temp: bool) {
    !cloudAvailable || temp
  }

  /** The requests on which `viewImg` does not call `parseWidth` on a query it throws on. */
  predicate ViewImgAccepts(query: Option<string>, temp: bool, cloudAvailable: bool) {
    ServedLocally(cloudAvailable, temp) && HonouredQuery(query).Some? ==> WidthParsable(HonouredQuery(query).value)
  }

  /** The requested thumbnail width: 0 without an honoured query, None where `parseWidth` throws. */
  function RequestedWidth(query: Option<string>): (w: Option<int>)
    ensures w.None? <==> HonouredQuery(query).Some? && !WidthParsable(HonouredQuery(query).value)
    ensures HonouredQuery(query).None? ==> w == Some(0)
  {
    var iv := HonouredQuery(query);
    if iv.None? then Some(0) else ParseWidth(iv.value)
  }

  function ThumbnailFormat(mimeType: Option<string>): (f: string)
    ensures f == "png" || f == "jpg"
  {
    if mimeType.Some? && Contains(mimeType.value, "png") then "png" else "jpg"
  }

  /**
   * `viewImg`. `path` is the part of the request URI after "/filex/img/";
   * `mimeType` is what the servlet context reports for the file name;
   * `imageWidth` is the width of the stored image, None when the file does
   * not exist.
   */
  function ViewImg(path: string, query: Option<string>, temp: bool, cloudAvailable: bool,
                   mimeType: Option<string>, imageWidth: Option<int>): (r: ImgResponse)
    ensures r.Redirect? <==> IsExternal(path)
    ensures r.WidthUnreadable? <==> !IsExternal(path) && !ViewImgAccepts(query, temp, cloudAvailable)
    ensures r.Local? <==> !IsExternal(path) && ServedLocally(cloudAvailable, temp) && ViewImgAccepts(query, temp, cloudAvailable)
    ensures r.CloudRedirect? <==> !IsExternal(path) && !ServedLocally(cloudAvailable, temp)
    ensures r.Redirect? ==> r.location == path
    ensures r.Local? ==> r.path == path && r.temp == temp && r.contentType == mimeType
  {
    if IsExternal(path) then Redirect(path)
    else if ServedLocally(cloudAvailable, temp) then
      match RequestedWidth(query)
      case None => WidthUnreadable
      case Some(wh) =>
        var body :=
          if wh <= 0 || wh >= OriginalFromWidth then OriginalFile
          else if imageWidth.None? then NothingWritten
          else ThumbnailImage(if imageWidth.value > wh then FitInto(wh, wh) else KeepScale, ThumbnailFormat(mimeType));
        Local(path, temp, mimeType, body)
    else
      var iv := HonouredQuery(query);
      CloudRedirect(if iv.Some? then path + "?" + iv.value else path)
  }

  /** A query that does not start with "imageView2" is ignored: the original file is served. */
  lemma IgnoredQueryServesOriginal(path: string, query: Option<string>, temp: bool, cloudAvailable: bool,
                                   mimeType: Option<string>, imageWidth: Option<int>)
    requires !IsExternal(path) && ServedLocally(cloudAvailable, temp)
    requires query.None? || !StartsWith(query.value, "imageView2")
    ensures ViewImg(path, query, temp, cloudAvailable, mimeType, imageWidth).body == OriginalFile
  {
  }

  /** A query without "/w/" asks for width 1000 and so gets the original file. */
  lemma NoWidthServesOriginal(path: string, q: string, temp: bool, cloudAvailable: bool,
                              mimeType: Option<string>, imageWidth: Option<int>)
    requires !IsExternal(path) && ServedLocally(cloudAvailable, temp)
    requires StartsWith(q, "imageView2") && !Contains(q, WidthMarker)
    ensures ViewImg(path, Some(q), temp, cloudAvailable, mimeType, imageWidth).body == OriginalFile
  {
  }

  /**
   * A local image is resized exactly when the requested width lies strictly
   * between 0 and 1000 and the file exists; it is fitted into a wh x wh box
   * when it is wider than wh and kept at scale 1.0 otherwise, and written as
   * png exactly when the mime type mentions png.
   */
  lemma ThumbnailRule(path: string, query: Option<string>, temp: bool, cloudAvailable: bool,
                      mimeType: Option<string>, imageWidth: Option<int>)
    requires !IsExternal(path) && ServedLocally(cloudAvailable, temp)
    requires ViewImgAccepts(query, temp, cloudAvailable)
    ensures var r := ViewImg(path, query, temp, cloudAvailable, mimeType, imageWidth);
            var wh := RequestedWidth(query).value;
            && (r.body.ThumbnailImage? <==> 0 < wh < OriginalFromWidth && imageWidth.Some?)
            && (r.body.OriginalFile? <==> wh <= 0 || wh >= OriginalFromWidth)
            && (r.body.ThumbnailImage? ==>
                  && (r.body.sizing == FitInto(wh, wh) <==> imageWidth.value > wh)
                  && (r.body.sizing == KeepScale <==> imageWidth.value <= wh)
                  && (r.body.format == "png" <==> mimeType.Some? && Contains(mimeType.value, "png")))
  {
  }

  /** With cloud storage, the honoured query travels with the storage key. */
  lemma CloudKeyCarriesQuery(path: string, query: Option<string>, mimeType: Option<string>, imageWidth: Option<int>)
    requires !IsExternal(path)
    ensures var r := ViewImg(path, query, false, true, mimeType, imageWidth);
            && r.CloudRedirect?
            && (HonouredQuery(query).Some? ==> r.key == path + "?" + query.value)
            && (HonouredQuery(query).None? ==> r.key == path)
  {
  }

  /** "imageView2/2/w" holds no "/w/": the marker is first found at position 12 of a typical query. */
  lemma TypicalPrefixHasNoMarker()
    ensures !Contains("imageView2/2/w", WidthMarker)
  {
    var head := "imageView2/2/w";
    forall j: nat ensures !OccursAt(head, WidthMarker, j) {
      if j + 3 <= |head| {
        assert head[j..j + 3][0] == head[j] && head[j..j + 3][1] == head[j + 1];
        assert head[j] != '/' || head[j + 1] != 'w';
      }
    }
  }

  lemma ThumbnailOfWidth(path: string, q: string, n: int, temp: bool, mimeType: Option<string>, imageWidth: int)
    requires !IsExternal(path)
    requires 0 < n < OriginalFromWidth && imageWidth > n
    requires StartsWith(q, "imageView2") && ParseWidth(q) == Some(n)
    ensures ViewImg(path, Some(q), temp, false, mimeType, Some(imageWidth))
            == Local(path, temp, mimeType, ThumbnailImage(FitInto(n, n), ThumbnailFormat(mimeType)))
  {
    assert HonouredQuery(Some(q)) == Some(q);
    assert RequestedWidth(Some(q)) == Some(n);
  }

  /**
   * A resize request "<prefix>/w/<n>..." whose prefix starts with
   * "imageView2" and holds no "/w/" of its own (as "imageView2/2" does), with
   * 0 < n < 1000, yields a thumbnail fitted into n x n when the image is wider.
   */
  lemma ResizeRequestMakesThumbnail(path: string, prefix: string, n: int, rest: string, temp: bool,
                                    mimeType: Option<string>, imageWidth: int)
    requires !IsExternal(path)
    requires StartsWith(prefix, "imageView2") && !Contains(prefix + "/w", WidthMarker)
    requires 0 < n < OriginalFromWidth && imageWidth > n
    requires rest == [] || rest[0] == '/'
    ensures ViewImg(path, Some(prefix + WidthMarker + IntText(n) + rest), temp, false, mimeType, Some(imageWidth))
            == Local(path, temp, mimeType, ThumbnailImage(FitInto(n, n), ThumbnailFormat(mimeType)))
  {
    var q := prefix + WidthMarker + IntText(n) + rest;
    ParseWidthReadsWrittenWidth(prefix, n, rest);
    assert q[..10] == prefix[..10];
    ThumbnailOfWidth(path, q, n, temp, mimeType, imageWidth);
  }
}
