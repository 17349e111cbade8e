/**
 * The behaviour inside the home page's sections: the word split of the
 * animated heading, the doubled investor strip, the gallery's page/direction
 * pair and its slide offsets, and the rotating social-media mockup.
 */
module HomePage {
  import opened Js
  import Carousel
  import Registry

  // ---------------------------------------------------------------- AnimatedText

  /** The pieces `text.split(" ")` yields; the heading renders one span per piece. */
  function AnimatedWords(text: string): (words: seq<string>)
    ensures |words| == Count(text, ' ') + 1
    ensures forall i :: 0 <= i < |words| ==> ' ' !in words[i]
  {
    Split(text, ' ')
  }

  /** The spans, joined with single spaces, spell out the text again. */
  lemma AnimatedWordsRejoin(text: string)
    ensures Join(AnimatedWords(text), ' ') == text
  {
    JoinSplit(text, ' ');
  }

  // ---------------------------------------------------------------- Investors

  const InvestorLogos: seq<string> := [
    "/imgs/investor1.png", "/imgs/investor2.png", "/imgs/investor3.png",
    "/imgs/investor1.png", "/imgs/investor2.png", "/imgs/investor3.png"
  ]

  /**
   * The items of the marquee: the logos twice over, so that sliding the strip
   * by half its width lands on an identical picture.
   */
  function InvestorStrip(): (strip: seq<string>)
    ensures |strip| == 2 * |InvestorLogos| == 12
    ensures forall i :: 0 <= i < |InvestorLogos| ==> strip[i] == InvestorLogos[i] && strip[i + |InvestorLogos|] == strip[i]
  {
    InvestorLogos + InvestorLogos
  }

  // ---------------------------------------------------------------- Products

  /** The product the products section features. */
  function FeaturedProduct(): (p: Registry.Product)
    ensures p in Registry.ProductsData && p.id == 1
  {
    Registry.ProductsData[0]
  }

  // ---------------------------------------------------------------- Gallery

  datatype GalleryImage = GalleryImage(src: string, caption: string)

  const GalleryImages: seq<GalleryImage> := [
    GalleryImage("/imgs/gallery1.png", "A glimpse of our advanced medical technology in action."),
    GalleryImage("/imgs/gallery2.png", "Innovative solutions for modern healthcare challenges."),
    GalleryImage("/imgs/gallery3.png", "State-of-the-art facilities driving medical excellence.")
  ]

  /** `page % GALLERY_IMAGES.length`, with the remainder of JavaScript. */
  function ImageIndex(page: int): (k: int)
    ensures 0 <= page ==> 0 <= k < |GalleryImages|
    ensures page < 0 ==> k <= 0
    ensures 0 <= page ==> k == page % |GalleryImages|
    ensures (page - k) % |GalleryImages| == 0
  {
    Rem(page, |GalleryImages|)
  }

  /**
   * The image shown for a page. `None` stands for the TypeError the renderer
   * would raise reading `.src` of an undefined entry, which happens exactly
   * when the remainder is negative.
   */
  function ImageAt(page: int): (img: Option<GalleryImage>)
    ensures 0 <= page ==> img == Some(GalleryImages[page % |GalleryImages|])
    ensures img.None? <==> ImageIndex(page) < 0
    ensures img.Some? ==> img.value == GalleryImages[ImageIndex(page)]
  {
    var k := ImageIndex(page);
    if 0 <= k < |GalleryImages| then Some(GalleryImages[k]) else None
  }

  /** Interval ticks walk the images as a carousel does: `k` ticks from page `p` advance the index `k` times. */
  lemma {:induction false} IntervalsRotateImages(p: nat, k: nat)
    ensures ImageIndex(p + k) == Carousel.Advance(ImageIndex(p), |GalleryImages|, k)
  {
    var n := |GalleryImages|;
    if k > 0 {
      IntervalsRotateImages(p, k - 1);
      var m := p + k - 1;
      calc {
        Carousel.Advance(ImageIndex(p), n, k);
        Carousel.Next(Carousel.Advance(ImageIndex(p), n, k - 1), n);
        Carousel.Next(ImageIndex(m), n);
        (m % n + 1) % n;
        { Carousel.ModSucc(m, n); }
        (m + 1) % n;
        ImageIndex(m + 1);
      }
    }
  }

  /** Three ticks bring the gallery back to the same image. */
  lemma GalleryCycle(p: nat)
    ensures ImageIndex(p + |GalleryImages|) == ImageIndex(p)
  {
    IntervalsRotateImages(p, |GalleryImages|);
    Carousel.FullCycle(ImageIndex(p), |GalleryImages|);
  }

  /** The direction `setPagetoIndex` chooses: forward only to a strictly higher index, backward on a tie. */
  function DirectionTo(newIndex: int, page: int): (d: int)
    ensures d == 1 <==> newIndex > ImageIndex(page)
    ensures d == -1 <==> newIndex <= ImageIndex(page)
  {
    if newIndex > ImageIndex(page) then 1 else -1
  }

  /** Horizontal offset a slide enters from. */
  function EnterX(direction: int): (x: string)
    ensures x == "100%" <==> direction > 0
    ensures x == "-100%" <==> direction <= 0
  {
    if direction > 0 then "100%" else "-100%"
  }

  /** Horizontal offset a slide leaves towards. */
  function ExitX(direction: int): (x: string)
    ensures x == "100%" <==> direction < 0
    ensures x == "-100%" <==> direction >= 0
  {
    if direction < 0 then "100%" else "-100%"
  }

  /** For a non-zero direction the leaving slide goes the opposite way from where the new one comes. */
  lemma SlideOffsetsOpposite(direction: int)
    ensures direction != 0 ==> EnterX(direction) != ExitX(direction)
    ensures direction == 0 ==> EnterX(direction) == ExitX(direction) == "-100%"
  {
  }

  /** The gallery section's `[page, direction]` state cell. */
  class Gallery {
    var page: int
    var direction: int

    constructor ()
      ensures page == 0 && direction == 0
      ensures Current() == Some(GalleryImages[0])
    {
      page, direction := 0, 0;
    }

    function Current(): (img: Option<GalleryImage>)
      reads this
      ensures 0 <= page ==> img == Some(GalleryImages[page % |GalleryImages|])
    {
      ImageAt(page)
    }

    method Paginate(newDirection: int)
      modifies this
      ensures page == old(page) + newDirection && direction == newDirection
    {
      page, direction := page + newDirection, newDirection;
    }

    /** The interval callback, the only live caller of `paginate`: a non-negative page stays non-negative. */
    method OnInterval()
      modifies this
      ensures page == old(page) + 1 && direction == 1
      ensures old(page) >= 0 ==> page >= 0 && ImageIndex(page) == Carousel.Next(ImageIndex(old(page)), |GalleryImages|)
    {
      if page >= 0 {
        IntervalsRotateImages(page, 1);
      }
      Paginate(1);
    }

    method SetPageToIndex(newIndex: int)
      modifies this
      ensures page == newIndex && direction == DirectionTo(newIndex, old(page))
    {
      var newDirection := if newIndex > ImageIndex(page) then 1 else -1;
      page, direction := newIndex, newDirection;
    }
  }

  // ---------------------------------------------------------------- Social media

  /** A post of the mockup feed; its caption, counters and avatar are not part of the model. */
  datatype SocialPost = SocialPost(platform: string, username: string, postImage: string)

  const SocialPosts: seq<SocialPost> := [
    SocialPost("twitter", "MedFord Technologies", "/imgs/sm1.png"),
    SocialPost("instagram", "medfordtechnologies", "/imgs/sm2.png"),
    SocialPost("linkedin", "MedFord Technologies", "/imgs/sm3.png")
  ]

  /** The three phone mockups `renderPost` can draw. */
  datatype PostCard = TwitterCard(post: SocialPost) | InstagramCard(post: SocialPost) | LinkedInCard(post: SocialPost)

  /** `renderPost`'s switch on the platform; any other platform renders nothing. */
  function RenderPost(post: SocialPost): (card: Option<PostCard>)
    ensures card.Some? <==> post.platform in {"twitter", "instagram", "linkedin"}
    ensures card.Some? ==> card.value.post == post
    ensures card.Some? && card.value.TwitterCard? <==> post.platform == "twitter"
    ensures card.Some? && card.value.InstagramCard? <==> post.platform == "instagram"
    ensures card.Some? && card.value.LinkedInCard? <==> post.platform == "linkedin"
  {
    match post.platform
    case "twitter" => Some(TwitterCard(post))
    case "instagram" => Some(InstagramCard(post))
    case "linkedin" => Some(LinkedInCard(post))
    case _ => None
  }

  /** Every post of the feed has one of the three platforms, so the `default` branch is never taken. */
  lemma EverySocialPostRenders()
    ensures forall i :: 0 <= i < |SocialPosts| ==> RenderPost(SocialPosts[i]).Some?
  {
  }

  /** The indicator dots under the phone: exactly the one of the current post is highlighted. */
  function SocialDots(postIndex: nat): (dots: seq<bool>)
    requires postIndex < |SocialPosts|
    ensures |dots| == |SocialPosts| && Carousel.CountTrue(dots) == 1
    ensures forall i :: 0 <= i < |dots| ==> (dots[i] <==> i == postIndex)
  {
    Carousel.ExactlyOneIndicator(postIndex, |SocialPosts|);
    Carousel.Indicators(postIndex, |SocialPosts|)
  }

  /** The social section's `postIndex` cell, advanced by its timer. */
  class SocialFeed {
    var postIndex: nat

    ghost predicate Valid()
      reads this
    {
      postIndex < |SocialPosts|
    }

    constructor ()
      ensures postIndex == 0 && Valid()
    {
      postIndex := 0;
    }

    function CurrentCard(): (card: Option<PostCard>)
      reads this
      requires Valid()
      ensures card.Some? && card.value.post == SocialPosts[postIndex]
    {
      RenderPost(SocialPosts[postIndex])
    }

    method OnTimer()
      requires Valid()
      modifies this
      ensures Valid()
      ensures postIndex == Carousel.Next(old(postIndex), |SocialPosts|)
    {
      postIndex := (postIndex + 1) % |SocialPosts|;
    }
  }
}
