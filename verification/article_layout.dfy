/** The layout decision of a link preview: whether the image is shown full
    size above the text (stacked) or as a small thumbnail the text wraps
    around (inset), and the geometry one measuring pass produces. */
module ArticleLayout {
  import opened Options

  datatype Size = Size(width: real, height: real)

  function Min(a: real, b: real): real { if a <= b then a else b }
  function Max(a: real, b: real): real { if a >= b then a else b }

  /** The parts of the loaded web-page content the layout reads.
      `hasImage` and `hasDuration` stand for `image != nil` and
      `duration != nil`. */
  datatype Content = Content(
    contentType: Option<string>,
    websiteName: Option<string>,
    hasInstantPage: bool,
    text: Option<string>,
    hasImage: bool,
    hasDuration: bool)

  const MediaTypes: seq<string> := ["photo", "video"]
  const FullSizeSites: seq<string> := ["instagram", "twitter"]

  /** Narrower images than this are never shown full size when the
      content type asks for a full-size layout. */
  const FullSizeMinWidth: real := 200.0

  /** Side of the square thumbnail of the inset layout, and the margins the
      cutout adds to it. */
  const ThumbSide: real := 54.0
  const CutoutExtraWidth: real := 16.0
  const CutoutExtraHeight: real := 10.0

  /** The box a full-size image is fitted into is at most this wide and
      exactly this high. */
  const FullSizeMaxWidth: real := 320.0
  const FullSizeMaxHeight: real := 300.0

  /** Extra height between a full-size image and the text under it. */
  const TextSpacing: real := 6.0

  const ImageCornerRadius: real := 4.0

  // ---------------------------------------------------------------------
  // Strings

  predicate IsAsciiCapital(c: char)
  {
    'A' <= c <= 'Z'
  }

  function LowerChar(c: char): char
  {
    if IsAsciiCapital(c) then (c as int + 32) as char else c
  }

  /** The two characters are the same, or an ASCII capital and its small
      letter. */
  predicate CharsEqualIgnoringAsciiCase(a: char, b: char)
  {
    || a == b
    || (IsAsciiCapital(a) && b as int == a as int + 32)
    || (IsAsciiCapital(b) && a as int == b as int + 32)
  }

  /** The strings agree character by character once ASCII case is ignored. */
  predicate EqualIgnoringAsciiCase(a: string, b: string)
  {
    && |a| == |b|
    && forall i | 0 <= i < |a| :: CharsEqualIgnoringAsciiCase(a[i], b[i])
  }

  /** `lowercased()` on the ASCII letters: no capital is left, and every
      character matches the input's up to case. */
  function Lowercased(s: string): (r: string)
    ensures forall i | 0 <= i < |r| :: !IsAsciiCapital(r[i])
    ensures EqualIgnoringAsciiCase(s, r)
  {
    seq(|s|, i requires 0 <= i < |s| => LowerChar(s[i]))
  }

  lemma LowerCharEqualIff(a: char, b: char)
    ensures LowerChar(a) == LowerChar(b) <==> CharsEqualIgnoringAsciiCase(a, b)
  {
  }

  /** Two strings lowercase to the same string exactly when they are equal
      ignoring ASCII case. */
  lemma LowercasedEqualIff(a: string, b: string)
    ensures Lowercased(a) == Lowercased(b) <==> EqualIgnoringAsciiCase(a, b)
  {
    if EqualIgnoringAsciiCase(a, b) {
      forall i | 0 <= i < |a|
        ensures Lowercased(a)[i] == Lowercased(b)[i]
      {
        LowerCharEqualIff(a[i], b[i]);
      }
    }
    if Lowercased(a) == Lowercased(b) {
      forall i | 0 <= i < |a|
        ensures CharsEqualIgnoringAsciiCase(a[i], b[i])
      {
        LowerCharEqualIff(a[i], b[i]);
      }
    }
  }

  /** The Unicode white space and newline characters. */
  predicate IsWhitespace(c: char)
  {
    || '\t' <= c <= '\r'
    || c == ' '
    || c == '\U{85}'
    || c == '\U{A0}'
    || c == '\U{1680}'
    || '\U{2000}' <= c <= '\U{200A}'
    || c == '\U{2028}'
    || c == '\U{2029}'
    || c == '\U{202F}'
    || c == '\U{205F}'
    || c == '\U{3000}'
  }

  predicate AllWhitespace(s: string)
  {
    forall i | 0 <= i < |s| :: IsWhitespace(s[i])
  }

  /** A string is all white space exactly when both halves of any split are. */
  lemma WhitespaceSplit(s: string, n: nat)
    requires n <= |s|
    ensures AllWhitespace(s) <==> AllWhitespace(s[..n]) && AllWhitespace(s[n..])
  {
    if AllWhitespace(s[..n]) && AllWhitespace(s[n..]) {
      forall i | 0 <= i < |s|
        ensures IsWhitespace(s[i])
      {
        if i < n {
          assert s[i] == s[..n][i];
        } else {
          assert s[i] == s[n..][i - n];
        }
      }
    }
  }

  lemma WhitespacePrefixGrows(s: string, n: nat)
    requires 0 < n <= |s| && IsWhitespace(s[0]) && AllWhitespace(s[1..][..n - 1])
    ensures AllWhitespace(s[..n])
  {
    forall i | 1 <= i < n
      ensures IsWhitespace(s[i])
    {
      assert s[i] == s[1..][..n - 1][i - 1];
    }
  }

  lemma WhitespaceSuffixGrows(s: string, n: nat)
    requires n < |s| && IsWhitespace(s[|s| - 1]) && AllWhitespace(s[..|s| - 1][n..])
    ensures AllWhitespace(s[n..])
  {
    forall i | n <= i < |s| - 1
      ensures IsWhitespace(s[i])
    {
      assert s[i] == s[..|s| - 1][n..][i - n];
    }
  }

  lemma NotAllWhitespace(s: string, i: nat)
    requires i < |s| && !IsWhitespace(s[i])
    ensures !AllWhitespace(s)
  {
  }

  /** Trimming a string that starts with white space trims its tail. */
  lemma TrimStartStep(s: string, r: string)
    requires |s| > 0 && IsWhitespace(s[0])
    requires |r| <= |s| - 1 && r == s[1..][|s| - 1 - |r|..]
    requires AllWhitespace(s[1..][..|s| - 1 - |r|])
    requires r == [] <==> AllWhitespace(s[1..])
    ensures r == s[|s| - |r|..]
    ensures AllWhitespace(s[..|s| - |r|])
    ensures r == [] <==> AllWhitespace(s)
  {
    WhitespaceSplit(s, 1);
    WhitespacePrefixGrows(s, |s| - |r|);
  }

  /** Trimming a string that ends with white space trims its head. */
  lemma TrimEndStep(s: string, r: string)
    requires |s| > 0 && IsWhitespace(s[|s| - 1])
    requires |r| <= |s| - 1 && r == s[..|s| - 1][..|r|]
    requires AllWhitespace(s[..|s| - 1][|r|..])
    requires r == [] <==> AllWhitespace(s[..|s| - 1])
    ensures r == s[..|r|]
    ensures AllWhitespace(s[|r|..])
    ensures r == [] <==> AllWhitespace(s)
  {
    WhitespaceSplit(s, |s| - 1);
    WhitespaceSuffixGrows(s, |r|);
  }

  /** Drops the leading white space, and nothing else. */
  function TrimStart(s: string): (r: string)
    ensures |r| <= |s| && r == s[|s| - |r|..]
    ensures AllWhitespace(s[..|s| - |r|])
    ensures r == [] <==> AllWhitespace(s)
    ensures |r| > 0 ==> !IsWhitespace(r[0])
  {
    if |s| > 0 && IsWhitespace(s[0]) then
      var r := TrimStart(s[1..]);
      TrimStartStep(s, r);
      r
    else
      if |s| > 0 then NotAllWhitespace(s, 0); s else s
  }

  /** Drops the trailing white space, and nothing else. */
  function TrimEnd(s: string): (r: string)
    ensures |r| <= |s| && r == s[..|r|]
    ensures AllWhitespace(s[|r|..])
    ensures r == [] <==> AllWhitespace(s)
    ensures |r| > 0 ==> !IsWhitespace(r[|r| - 1])
  {
    if |s| > 0 && IsWhitespace(s[|s| - 1]) then
      var r := TrimEnd(s[..|s| - 1]);
      TrimEndStep(s, r);
      r
    else
      if |s| > 0 then NotAllWhitespace(s, |s| - 1); s else s
  }

  /** `trimmed`: the string without leading and trailing white space; what
      is dropped on either side is white space only. */
  function Trimmed(s: string): (r: string)
    ensures exists a, b | 0 <= a <= b <= |s| ::
              r == s[a..b] && AllWhitespace(s[..a]) && AllWhitespace(s[b..])
    ensures r == [] <==> AllWhitespace(s)
    ensures |r| > 0 ==> !IsWhitespace(r[0]) && !IsWhitespace(r[|r| - 1])
  {
    var t := TrimStart(s);
    var r := TrimEnd(t);
    TrimmedFacts(s, t, r);
    r
  }

  /** Trimming the tail of what trimming the head left: a slice of the
      input with white space only on either side, empty exactly when the
      input is all white space. */
  lemma TrimmedFacts(s: string, t: string, r: string)
    requires |t| <= |s| && t == s[|s| - |t|..] && AllWhitespace(s[..|s| - |t|])
    requires t == [] <==> AllWhitespace(s)
    requires |t| > 0 ==> !IsWhitespace(t[0])
    requires |r| <= |t| && r == t[..|r|] && AllWhitespace(t[|r|..])
    requires r == [] <==> AllWhitespace(t)
    requires |r| > 0 ==> !IsWhitespace(r[|r| - 1])
    ensures exists a, b | 0 <= a <= b <= |s| ::
              r == s[a..b] && AllWhitespace(s[..a]) && AllWhitespace(s[b..])
    ensures r == [] <==> AllWhitespace(s)
    ensures |r| > 0 ==> !IsWhitespace(r[0]) && !IsWhitespace(r[|r| - 1])
  {
    var a := |s| - |t|;
    var b := a + |r|;
    assert r == s[a..b];
    assert s[b..] == t[|r|..];
    assert |r| > 0 ==> r[0] == t[0];
  }

  // ---------------------------------------------------------------------
  // The decision

  /** The content asks for a full-size layout on its own account: it has a
      type, and that type is a media type, or the site is one of the
      image-centric ones, or there is an instant page, or there is no text. */
  predicate FullSizeCandidate(c: Content)
  {
    var website := if c.websiteName.Some? then Some(Lowercased(c.websiteName.value)) else None;
    && c.contentType.Some?
    && (|| c.contentType.value in MediaTypes
        || website.GetOr("") in FullSizeSites
        || c.hasInstantPage
        || c.text.None?)
  }

  /** `isFullImageSize`. */
  predicate IsFullImageSize(c: Content, imageSize: Option<Size>)
  {
    if FullSizeCandidate(c) then
      if imageSize.Some? && imageSize.value.width < FullSizeMinWidth then false else true
    else
      c.text.None? || |Trimmed(c.text.value)| == 0
  }

  /** The two rules of the decision: a candidate is full size unless its
      image is narrower than the threshold; anything else is full size
      exactly when it has no text or only white space. */
  lemma FullImageSizeRules(c: Content, imageSize: Option<Size>)
    ensures FullSizeCandidate(c) ==>
              (IsFullImageSize(c, imageSize) <==> imageSize.None? || imageSize.value.width >= FullSizeMinWidth)
    ensures !FullSizeCandidate(c) ==>
              (IsFullImageSize(c, imageSize) <==> c.text.None? || AllWhitespace(c.text.value))
  {
  }

  /** The content names a site that is one of the image-centric ones up to
      ASCII case. */
  predicate NamesFullSizeSite(c: Content)
  {
    && c.websiteName.Some?
    && exists t | t in FullSizeSites :: EqualIgnoringAsciiCase(c.websiteName.value, t)
  }

  /** The site names are compared case-insensitively: typed content whose
      site name matches one of the image-centric sites in any ASCII case asks
      for full size, and when nothing else makes it a candidate, only such a
      name does. */
  lemma SiteNameIgnoresCase(c: Content)
    requires c.contentType.Some?
    ensures NamesFullSizeSite(c) ==> FullSizeCandidate(c)
    ensures c.contentType.value !in MediaTypes && !c.hasInstantPage && c.text.Some? ==>
              (FullSizeCandidate(c) <==> NamesFullSizeSite(c))
  {
    assert Lowercased("instagram") == "instagram";
    assert Lowercased("twitter") == "twitter";
    if c.websiteName.Some? {
      var n := c.websiteName.value;
      forall t | t in FullSizeSites
        ensures Lowercased(n) == t <==> EqualIgnoringAsciiCase(n, t)
      {
        LowercasedEqualIff(n, t);
      }
    } else {
      assert "" !in FullSizeSites;
    }
  }

  /** Without a content type nothing is a candidate, so a preview without
      text is full size however narrow its image is. */
  lemma NoTypeNoTextIsFullSize(c: Content, imageSize: Option<Size>)
    requires c.contentType.None? && c.text.None?
    ensures IsFullImageSize(c, imageSize)
  {
  }

  // ---------------------------------------------------------------------
  // Measuring

  datatype CutoutPosition = TopRight | OtherPosition

  /** A region of the text layout the text flows around. */
  datatype Cutout = Cutout(position: CutoutPosition, size: Size)

  /** The one piece of the text layout's state that measuring writes. */
  datatype TextLayout = TextLayout(cutout: Option<Cutout>)

  datatype ImageArguments = ImageArguments(cornerRadius: real, imageSize: Size, boundingSize: Size)

  /** The fields of the layout object that measuring reads and writes.
      `durationWidth` is the width the duration label was last laid out in. */
  datatype LayoutState = LayoutState(
    imageSize: Option<Size>,
    constrainedImageSize: Size,
    smallThumb: bool,
    imageArguments: Option<ImageArguments>,
    durationWidth: Option<real>,
    textLayout: Option<TextLayout>)

  /** What measuring takes from outside: the content, the left inset, the
      width of the site-name label if there is one, `NSSize.fitted` and the
      text layout's measuring (the size it ends up with for a width and a
      cutout). */
  datatype MeasureEnv = MeasureEnv(
    content: Content,
    insetLeft: real,
    siteNameWidth: Option<real>,
    fit: (Size, Size) -> Size,
    measureText: (real, Option<Cutout>) -> Size)

  datatype Measured = Measured(state: LayoutState, contentSize: Size)

  /** The state right after construction: the image size is the largest
      representation's dimensions when the content has an image. */
  function InitialLayout(content: Content, largestDimensions: Option<Size>, textLayout: Option<TextLayout>): LayoutState
  {
    LayoutState(
      if content.hasImage then largestDimensions else None,
      Size(ThumbSide, ThumbSide),
      true,
      None,
      None,
      textLayout)
  }

  /** The defaults before any measuring: a 54 by 54 thumbnail, a small
      thumb, no image arguments, and an image size only with an image. */
  lemma InitialLayoutDefaults(content: Content, largestDimensions: Option<Size>, textLayout: Option<TextLayout>)
    ensures var s := InitialLayout(content, largestDimensions, textLayout);
      && s.constrainedImageSize == Size(54.0, 54.0)
      && s.smallThumb
      && s.imageArguments.None?
      && (s.imageSize.Some? ==> content.hasImage)
  {
  }

  /** `measure(width:)`: returns the updated fields and the content size
      handed to `layout(with:)`. */
  function Measure(s: LayoutState, env: MeasureEnv, width: real): Measured
  {
    var avail := width - env.insetLeft;
    var full := s.imageSize.Some? && IsFullImageSize(env.content, s.imageSize);
    var constrained :=
      if full then env.fit(s.imageSize.value, Size(Min(avail, FullSizeMaxWidth), FullSizeMaxHeight))
      else if s.imageSize.Some? then Size(ThumbSide, ThumbSide)
      else s.constrainedImageSize;
    var textLayout :=
      if s.textLayout.None? then None
      else if full then Some(TextLayout(None))
      else if s.imageSize.Some? then
        Some(TextLayout(Some(Cutout(TopRight, Size(constrained.width + CutoutExtraWidth, constrained.height + CutoutExtraHeight)))))
      else s.textLayout;
    var before :=
      if full then Size(constrained.width, constrained.height + (if s.textLayout.Some? then TextSpacing else 0.0))
      else Size(avail, 0.0);
    var durationWidth := if env.content.hasDuration then Some(before.width) else s.durationWidth;
    var after :=
      match textLayout
      case None => before
      case Some(tl) =>
        var ts := env.measureText(before.width, tl.cutout);
        var height := before.height + ts.height;
        if tl.cutout.Some? then
          Size(Min(Max(ts.width, env.siteNameWidth.GetOr(0.0) + constrained.width), avail),
               Max(if env.content.hasImage then constrained.height else 0.0, height))
        else if s.imageSize.None? then
          Size(Max(ts.width, env.siteNameWidth.GetOr(0.0)), height)
        else
          Size(before.width, height);
    var arguments :=
      if s.imageSize.Some? then Some(ImageArguments(ImageCornerRadius, s.imageSize.value, constrained)) else None;
    Measured(LayoutState(s.imageSize, constrained, s.smallThumb && !full, arguments, durationWidth, textLayout), after)
  }

  /** Stacked layout: the image is fitted into the box, the cutout is
      cleared, the thumb is no longer small, and the content is as wide as
      the image and as high as the image plus, with text, 6 and the text. */
  lemma MeasureFullSize(s: LayoutState, env: MeasureEnv, width: real)
    requires s.imageSize.Some? && IsFullImageSize(env.content, s.imageSize)
    ensures var m := Measure(s, env, width);
      var fitted := env.fit(s.imageSize.value, Size(Min(width - env.insetLeft, 320.0), 300.0));
      && m.state.constrainedImageSize == fitted
      && !m.state.smallThumb
      && (s.textLayout.Some? <==> m.state.textLayout == Some(TextLayout(None)))
      && m.contentSize.width == fitted.width
      && m.contentSize.height ==
           fitted.height + (if s.textLayout.Some? then 6.0 + env.measureText(fitted.width, None).height else 0.0)
  {
  }

  /** Inset layout: the thumbnail is 54 by 54 and the text, if any, wraps
      around a top-right cutout of 70 by 64; the small-thumb flag is left
      as it was. */
  lemma MeasureInset(s: LayoutState, env: MeasureEnv, width: real)
    requires s.imageSize.Some? && !IsFullImageSize(env.content, s.imageSize)
    ensures var m := Measure(s, env, width);
      && m.state.constrainedImageSize == Size(54.0, 54.0)
      && m.state.smallThumb == s.smallThumb
      && (s.textLayout.Some? <==> m.state.textLayout == Some(TextLayout(Some(Cutout(TopRight, Size(70.0, 64.0))))))
  {
  }

  /** Whenever the text wraps around a cutout, the content is no wider than
      the width minus the left inset, and, when the content has an image,
      at least as high as the thumbnail. */
  lemma MeasureCutoutBounds(s: LayoutState, env: MeasureEnv, width: real)
    ensures var m := Measure(s, env, width);
      m.state.textLayout.Some? && m.state.textLayout.value.cutout.Some? ==>
        && m.contentSize.width <= width - env.insetLeft
        && (env.content.hasImage ==> m.contentSize.height >= m.state.constrainedImageSize.height)
  {
  }

  /** The image arguments are nil exactly when there is no image size, and
      otherwise bound the image by the constrained size with 4-point corners. */
  lemma MeasureImageArguments(s: LayoutState, env: MeasureEnv, width: real)
    ensures var m := Measure(s, env, width);
      && (m.state.imageArguments.None? <==> s.imageSize.None?)
      && (s.imageSize.Some? ==>
            m.state.imageArguments == Some(ImageArguments(4.0, s.imageSize.value, m.state.constrainedImageSize)))
  {
  }

  /** Without an image size the thumbnail size, the small-thumb flag and
      the text layout's cutout are left untouched, and the duration label is
      laid out at the available width. */
  lemma MeasureWithoutImage(s: LayoutState, env: MeasureEnv, width: real)
    requires s.imageSize.None?
    ensures var m := Measure(s, env, width);
      && m.state.constrainedImageSize == s.constrainedImageSize
      && m.state.smallThumb == s.smallThumb
      && m.state.textLayout == s.textLayout
      && m.state.imageSize == s.imageSize
      && m.state.durationWidth == (if env.content.hasDuration then Some(width - env.insetLeft)
                                   else s.durationWidth)
  {
  }

  /** Measuring twice at the same width gives what measuring once gives. */
  lemma MeasureIdempotent(s: LayoutState, env: MeasureEnv, width: real)
    ensures Measure(Measure(s, env, width).state, env, width) == Measure(s, env, width)
  {
  }
}
