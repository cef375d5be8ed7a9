/** The asset-attribution rule: the thumbnail host allow-list and, for every
    embedded image and video, an attribution entry in the article metadata.

    The metadata array is read into a local only inside the thumbnail branch
    (image attribution required and a thumbnail present). Elsewhere the local
    is unbound: the attribution lookups then see nothing, and building the
    failure details reads the unbound local, which the framework turns into
    an exception with the message `UndefinedMetadata`. */
module AssetAttributionValidator {
  import opened Text
  import opened Domain
  import opened BaseValidator

  datatype Settings = Settings(requireImage: bool, requireVideo: bool, allowedSources: seq<string>)

  /** Both attribution switches default to on, the allow-list to empty. */
  function SettingsOf(p: Params): (s: Settings)
    ensures "require_image_attribution" !in p ==> s.requireImage
    ensures "require_video_attribution" !in p ==> s.requireVideo
    ensures "allowed_image_sources" !in p ==> s.allowedSources == []
  {
    Settings(FlagParam(p, "require_image_attribution", true),
             FlagParam(p, "require_video_attribution", true),
             ListParam(p, "allowed_image_sources", []))
  }

  const FailMessage := "Asset attribution validation failed"
  const PassMessage := "All assets properly attributed"
  const UndefinedMetadata := "Undefined variable $metadata"

  function ImageKey(i: nat): string
  {
    "image_" + NatToString(i) + "_attribution"
  }

  function VideoKey(i: nat): string
  {
    "video_" + NatToString(i) + "_attribution"
  }

  function ThumbnailSourceIssue(host: string): string
  {
    "Thumbnail source '" + host + "' is not in allowed sources list"
  }

  function ImageUnattributed(i: nat): string
  {
    "Image at index " + NatToString(i) + " requires attribution"
  }

  function ImageSourceIssue(host: string, i: nat): string
  {
    "Image source '" + host + "' at index " + NatToString(i) + " is not allowed"
  }

  function VideoUnattributed(i: nat): string
  {
    "Video at index " + NatToString(i) + " requires attribution"
  }

  /** Whether the metadata local is bound: only in the thumbnail branch. */
  predicate MetadataBound(a: Article, s: Settings)
  {
    s.requireImage && !Empty(a.thumbnailUrl)
  }

  /** `!empty($metadata[$key])`: false whenever the local is unbound. */
  predicate Attributed(a: Article, s: Settings, key: string)
  {
    MetadataBound(a, s) && key in a.metadata && !Empty(a.metadata[key])
  }

  /** A host passes the allow-list when the list is empty or contains it. */
  predicate HostAllowed(s: Settings, host: string)
  {
    |s.allowedSources| == 0 || host in s.allowedSources
  }

  function ThumbnailIssues(a: Article, s: Settings, net: UrlFacts): seq<string>
  {
    if MetadataBound(a, s) && !HostAllowed(s, net.host(a.thumbnailUrl)) then
      [ThumbnailSourceIssue(net.host(a.thumbnailUrl))]
    else []
  }

  /** The issues of the image at index `i`: attribution, then source. */
  function ImageIssuesAt(a: Article, s: Settings, net: UrlFacts, i: nat): (r: seq<string>)
    requires i < |a.imageSrcs|
    ensures |r| == 0 <==> Attributed(a, s, ImageKey(i)) && HostAllowed(s, net.host(a.imageSrcs[i]))
  {
    (if !Attributed(a, s, ImageKey(i)) then [ImageUnattributed(i)] else [])
    + (if !HostAllowed(s, net.host(a.imageSrcs[i])) then
         [ImageSourceIssue(net.host(a.imageSrcs[i]), i)] else [])
  }

  /** The issues of the first `n` images, in document order. */
  function ImageIssues(a: Article, s: Settings, net: UrlFacts, n: nat): seq<string>
    requires n <= |a.imageSrcs|
  {
    if n == 0 then [] else ImageIssues(a, s, net, n - 1) + ImageIssuesAt(a, s, net, n - 1)
  }

  function VideoIssuesAt(a: Article, s: Settings, i: nat): (r: seq<string>)
    ensures |r| == 0 <==> Attributed(a, s, VideoKey(i))
  {
    if !Attributed(a, s, VideoKey(i)) then [VideoUnattributed(i)] else []
  }

  /** The issues of the first `n` videos, in document order. */
  function VideoIssues(a: Article, s: Settings, n: nat): seq<string>
  {
    if n == 0 then [] else VideoIssues(a, s, n - 1) + VideoIssuesAt(a, s, n - 1)
  }

  /** The issues list, in the order `validate` appends to it. */
  function IssuesFor(a: Article, s: Settings, net: UrlFacts): seq<string>
  {
    ThumbnailIssues(a, s, net)
    + (if s.requireImage then ImageIssues(a, s, net, |a.imageSrcs|) else [])
    + (if s.requireVideo then VideoIssues(a, s, |a.videoSrcs|) else [])
  }

  /** The metadata entries whose key contains "_attribution". */
  function Attributions(metadata: map<string, string>): (r: map<string, string>)
    ensures forall k :: k in r <==> k in metadata && Contains(k, "_attribution")
    ensures forall k :: k in r ==> r[k] == metadata[k]
  {
    map k | k in metadata && Contains(k, "_attribution") :: metadata[k]
  }

  /** What `validate` returns, or the message of the exception it throws. */
  function Check(a: Article, p: Params, net: UrlFacts): Result<CheckResult>
  {
    var s := SettingsOf(p);
    var issues := IssuesFor(a, s, net);
    if |issues| == 0 then Ok(Pass(PassMessage, NoDetails))
    else if !MetadataBound(a, s) then Err(UndefinedMetadata)
    else Ok(Fail(FailMessage, AssetFailure(issues,
                                           if s.requireImage then a.imageSrcs else [],
                                           if s.requireVideo then a.videoSrcs else [],
                                           Attributions(a.metadata))))
  }

  /** The image loop: attribution and source checks per image. */
  method CheckImages(a: Article, s: Settings, net: UrlFacts) returns (issues: seq<string>)
    ensures issues == ImageIssues(a, s, net, |a.imageSrcs|)
  {
    issues := [];
    var i := 0;
    while i < |a.imageSrcs|
      invariant 0 <= i <= |a.imageSrcs|
      invariant issues == ImageIssues(a, s, net, i)
    {
      var host := net.host(a.imageSrcs[i]);
      if !Attributed(a, s, ImageKey(i)) {
        issues := issues + [ImageUnattributed(i)];
      }
      if |s.allowedSources| > 0 && host !in s.allowedSources {
        issues := issues + [ImageSourceIssue(host, i)];
      }
      i := i + 1;
    }
  }

  /** The video loop: an attribution check per video. */
  method CheckVideos(a: Article, s: Settings) returns (issues: seq<string>)
    ensures issues == VideoIssues(a, s, |a.videoSrcs|)
  {
    issues := [];
    var i := 0;
    while i < |a.videoSrcs|
      invariant 0 <= i <= |a.videoSrcs|
      invariant issues == VideoIssues(a, s, i)
    {
      if !Attributed(a, s, VideoKey(i)) {
        issues := issues + [VideoUnattributed(i)];
      }
      i := i + 1;
    }
  }

  /** `validate`: the thumbnail branch, the image loop, the video loop, then
      the verdict. */
  method Validate(a: Article, p: Params, net: UrlFacts) returns (r: Result<CheckResult>)
    ensures r == Check(a, p, net)
  {
    var s := SettingsOf(p);
    var metadataBound := false;
    var issues: seq<string> := [];
    if s.requireImage && !Empty(a.thumbnailUrl) {
      metadataBound := true;
      if |s.allowedSources| > 0 {
        var host := net.host(a.thumbnailUrl);
        if host !in s.allowedSources {
          issues := issues + [ThumbnailSourceIssue(host)];
        }
      }
    }
    assert issues == ThumbnailIssues(a, s, net);
    var foundImages: seq<string> := [];
    if s.requireImage {
      var imageIssues := CheckImages(a, s, net);
      issues := issues + imageIssues;
      foundImages := a.imageSrcs;
    }
    var foundVideos: seq<string> := [];
    if s.requireVideo {
      var videoIssues := CheckVideos(a, s);
      issues := issues + videoIssues;
      foundVideos := a.videoSrcs;
    }
    assert issues == IssuesFor(a, s, net);
    if |issues| > 0 {
      if !metadataBound {
        r := Err(UndefinedMetadata);
      } else {
        r := Ok(Fail(FailMessage, AssetFailure(issues, foundImages, foundVideos, Attributions(a.metadata))));
      }
    } else {
      r := Ok(Pass(PassMessage, NoDetails));
    }
  }

  lemma {:induction false} ImageIssuesEmpty(a: Article, s: Settings, net: UrlFacts, n: nat)
    requires n <= |a.imageSrcs|
    ensures |ImageIssues(a, s, net, n)| == 0 <==>
      forall i :: 0 <= i < n ==> Attributed(a, s, ImageKey(i)) && HostAllowed(s, net.host(a.imageSrcs[i]))
  {
    if n > 0 {
      var k := n - 1;
      ImageIssuesEmpty(a, s, net, k);
      var prefix, last := ImageIssues(a, s, net, k), ImageIssuesAt(a, s, net, k);
      assert ImageIssues(a, s, net, n) == prefix + last;
      if |prefix + last| == 0 {
        forall i | 0 <= i < n
          ensures Attributed(a, s, ImageKey(i)) && HostAllowed(s, net.host(a.imageSrcs[i]))
        {
          if i == k {
            assert |last| == 0;
          }
        }
      }
    }
  }

  lemma {:induction false} ImageIssuesInclude(a: Article, s: Settings, net: UrlFacts, n: nat, i: nat)
    requires i < n <= |a.imageSrcs|
    ensures forall t :: t in ImageIssuesAt(a, s, net, i) ==> t in ImageIssues(a, s, net, n)
  {
    if i < n - 1 {
      ImageIssuesInclude(a, s, net, n - 1, i);
    }
  }

  lemma {:induction false} VideoIssuesEmpty(a: Article, s: Settings, n: nat)
    ensures |VideoIssues(a, s, n)| == 0 <==> forall i :: 0 <= i < n ==> Attributed(a, s, VideoKey(i))
  {
    if n > 0 {
      var k := n - 1;
      VideoIssuesEmpty(a, s, k);
      var prefix, last := VideoIssues(a, s, k), VideoIssuesAt(a, s, k);
      assert VideoIssues(a, s, n) == prefix + last;
      if |prefix + last| == 0 {
        forall i | 0 <= i < n
          ensures Attributed(a, s, VideoKey(i))
        {
          if i == k {
            assert |last| == 0;
          }
        }
      }
    }
  }

  lemma {:induction false} VideoIssuesInclude(a: Article, s: Settings, n: nat, i: nat)
    requires i < n
    ensures !Attributed(a, s, VideoKey(i)) ==> VideoUnattributed(i) in VideoIssues(a, s, n)
  {
    if i < n - 1 {
      VideoIssuesInclude(a, s, n - 1, i);
    }
  }

  /** No issue arises exactly when the thumbnail host is allowed (if it is
      checked at all), every image is attributed and from an allowed host
      (if images are checked), and every video is attributed (if videos are
      checked). */
  lemma NoIssuesIff(a: Article, s: Settings, net: UrlFacts)
    ensures |IssuesFor(a, s, net)| == 0 <==>
      && (MetadataBound(a, s) ==> HostAllowed(s, net.host(a.thumbnailUrl)))
      && (s.requireImage ==> forall i :: 0 <= i < |a.imageSrcs| ==>
            Attributed(a, s, ImageKey(i)) && HostAllowed(s, net.host(a.imageSrcs[i])))
      && (s.requireVideo ==> forall i :: 0 <= i < |a.videoSrcs| ==> Attributed(a, s, VideoKey(i)))
  {
    var thumbs := ThumbnailIssues(a, s, net);
    var images := if s.requireImage then ImageIssues(a, s, net, |a.imageSrcs|) else [];
    var videos := if s.requireVideo then VideoIssues(a, s, |a.videoSrcs|) else [];
    assert |IssuesFor(a, s, net)| == |thumbs| + |images| + |videos|;
    ImageIssuesEmpty(a, s, net, |a.imageSrcs|);
    VideoIssuesEmpty(a, s, |a.videoSrcs|);
  }

  /** The rule passes exactly when no issue arises; it never throws then,
      and a failing result is returned only when the metadata is bound. */
  lemma PassesIff(a: Article, p: Params, net: UrlFacts)
    ensures Check(a, p, net).Ok? && Check(a, p, net).value.passed <==> |IssuesFor(a, SettingsOf(p), net)| == 0
    ensures Check(a, p, net).Ok? && !Check(a, p, net).value.passed <==>
              |IssuesFor(a, SettingsOf(p), net)| > 0 && MetadataBound(a, SettingsOf(p))
  {
  }

  /** An unattributed image is reported when images are checked. */
  lemma ImageAttributionRequired(a: Article, p: Params, net: UrlFacts, i: nat)
    requires SettingsOf(p).requireImage && i < |a.imageSrcs|
    requires !Attributed(a, SettingsOf(p), ImageKey(i))
    ensures ImageUnattributed(i) in IssuesFor(a, SettingsOf(p), net)
  {
    ImageIssuesInclude(a, SettingsOf(p), net, |a.imageSrcs|, i);
  }

  /** An image from a host outside a non-empty allow-list is reported. */
  lemma ImageSourceChecked(a: Article, p: Params, net: UrlFacts, i: nat)
    requires SettingsOf(p).requireImage && i < |a.imageSrcs|
    requires |SettingsOf(p).allowedSources| > 0
    requires net.host(a.imageSrcs[i]) !in SettingsOf(p).allowedSources
    ensures ImageSourceIssue(net.host(a.imageSrcs[i]), i) in IssuesFor(a, SettingsOf(p), net)
  {
    ImageIssuesInclude(a, SettingsOf(p), net, |a.imageSrcs|, i);
  }

  /** An unattributed video is reported when videos are checked. */
  lemma VideoAttributionRequired(a: Article, p: Params, net: UrlFacts, i: nat)
    requires SettingsOf(p).requireVideo && i < |a.videoSrcs|
    requires !Attributed(a, SettingsOf(p), VideoKey(i))
    ensures VideoUnattributed(i) in IssuesFor(a, SettingsOf(p), net)
  {
    VideoIssuesInclude(a, SettingsOf(p), |a.videoSrcs|, i);
  }

  /** Without a thumbnail (or with image attribution off) the metadata local
      is unbound: any checked image or video makes the rule throw instead of
      returning a result, whatever the metadata holds. */
  lemma UnboundMetadataThrows(a: Article, p: Params, net: UrlFacts)
    requires !MetadataBound(a, SettingsOf(p))
    requires (SettingsOf(p).requireImage && |a.imageSrcs| > 0)
          || (SettingsOf(p).requireVideo && |a.videoSrcs| > 0)
    ensures Check(a, p, net) == Err(UndefinedMetadata)
  {
    var s := SettingsOf(p);
    if s.requireImage && |a.imageSrcs| > 0 {
      ImageAttributionRequired(a, p, net, 0);
    } else {
      VideoAttributionRequired(a, p, net, 0);
    }
  }

  /** The rule only throws when the metadata local is unbound. */
  lemma ThrowsOnlyWhenUnbound(a: Article, p: Params, net: UrlFacts)
    requires Check(a, p, net).Err?
    ensures !MetadataBound(a, SettingsOf(p))
    ensures Check(a, p, net).error == UndefinedMetadata
  {
  }

  /** Failure details list the checked image and video sources and the
      attribution entries of the metadata. */
  lemma FailureDetails(a: Article, p: Params, net: UrlFacts)
    requires Check(a, p, net).Ok? && !Check(a, p, net).value.passed
    ensures var d := Check(a, p, net).value.details;
      && d.AssetFailure?
      && d.issues == IssuesFor(a, SettingsOf(p), net) && |d.issues| > 0
      && d.foundImages == (if SettingsOf(p).requireImage then a.imageSrcs else [])
      && d.foundVideos == (if SettingsOf(p).requireVideo then a.videoSrcs else [])
      && (forall k :: k in d.currentAttributions ==> Contains(k, "_attribution") && k in a.metadata)
  {
  }

  /** With video attribution switched off, videos never produce issues. */
  lemma VideosIgnoredWhenNotRequired(a: Article, s: Settings, net: UrlFacts)
    requires !s.requireVideo
    ensures IssuesFor(a, s, net) == ThumbnailIssues(a, s, net)
                                   + (if s.requireImage then ImageIssues(a, s, net, |a.imageSrcs|) else [])
  {
  }
}
