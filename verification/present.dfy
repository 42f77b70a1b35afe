/** The swapchain side of the harness (src/present.cpp): the rules the
    `Swapchain` constructor applies to the surface queries to fill in
    `VkSwapchainCreateInfoKHR`, and the constructor's failure paths. The
    surface queries, the framebuffer-size query and the creation call are
    replaced by their answers, passed in as parameters. */
module Present {
  import opened Vulkan

  /** `VkExtent2D`. */
  datatype Extent2D = Extent2D(width: u32, height: u32)

  /** The `currentExtent.width` a surface reports when the swapchain decides its own size. */
  const EXTENT_UNDEFINED: u32 := U32_MAX

  /** The fields of `VkSurfaceCapabilitiesKHR` the constructor reads, plus
      `maxImageArrayLayers`, which bounds the layer count it requests. */
  datatype SurfaceCapabilities = SurfaceCapabilities(
    minImageCount: u32,
    maxImageCount: u32,
    currentExtent: Extent2D,
    minImageExtent: Extent2D,
    maxImageExtent: Extent2D,
    maxImageArrayLayers: u32,
    currentTransform: bv32)

  /** `VkSurfaceFormatKHR`. */
  datatype SurfaceFormat = SurfaceFormat(format: int, colorSpace: int)

  /** The answers of the three surface queries. */
  datatype SurfaceSupport = SurfaceSupport(
    capabilities: SurfaceCapabilities, formats: seq<SurfaceFormat>, presentModes: seq<int>)

  /** The graphics and present queue family indices the device resolved. */
  datatype QueueFamilies = QueueFamilies(graphics: u32, present: u32)

  // ---------------------------------------------------------------------
  // Surface format

  const PREFERRED_FORMAT: SurfaceFormat := SurfaceFormat(FORMAT_R8G8B8A8_SRGB, COLOR_SPACE_SRGB_NONLINEAR)

  /** The loop over the format list, starting from the choice `chosen`:
      every entry equal to the preferred pair replaces the choice. */
  function ScanFormats(formats: seq<SurfaceFormat>, chosen: SurfaceFormat): (r: SurfaceFormat)
    ensures PREFERRED_FORMAT in formats ==> r == PREFERRED_FORMAT
    ensures PREFERRED_FORMAT !in formats ==> r == chosen
    decreases |formats|
  {
    if formats == [] then chosen
    else
      assert formats == [formats[0]] + formats[1..];
      ScanFormats(formats[1..], if formats[0] == PREFERRED_FORMAT then formats[0] else chosen)
  }

  /** `formats.at(0)` followed by the scan: an empty list throws before any
      choice is made. */
  function ChooseSurfaceFormat(formats: seq<SurfaceFormat>): (r: Result<SurfaceFormat>)
    ensures r.Ok? <==> |formats| > 0
    ensures r.Err? ==> r.error == FormatIndexOutOfRange
    ensures r.Ok? ==> r.value in formats
    ensures r.Ok? ==> (r.value == PREFERRED_FORMAT <==> PREFERRED_FORMAT in formats)
    ensures r.Ok? && PREFERRED_FORMAT !in formats ==> r.value == formats[0]
  {
    if |formats| == 0 then Err(FormatIndexOutOfRange)
    else Ok(ScanFormats(formats, formats[0]))
  }

  // ---------------------------------------------------------------------
  // Present mode

  /** The loop over the present modes, starting from the choice `chosen`. */
  function ScanPresentModes(modes: seq<int>, chosen: int): (r: int)
    ensures PRESENT_MODE_MAILBOX in modes ==> r == PRESENT_MODE_MAILBOX
    ensures PRESENT_MODE_MAILBOX !in modes ==> r == chosen
    decreases |modes|
  {
    if modes == [] then chosen
    else
      assert modes == [modes[0]] + modes[1..];
      ScanPresentModes(modes[1..], if modes[0] == PRESENT_MODE_MAILBOX then modes[0] else chosen)
  }

  /** MAILBOX when offered, FIFO otherwise. */
  function ChoosePresentMode(modes: seq<int>): (r: int)
    ensures r == PRESENT_MODE_MAILBOX <==> PRESENT_MODE_MAILBOX in modes
    ensures r != PRESENT_MODE_MAILBOX ==> r == PRESENT_MODE_FIFO
  {
    ScanPresentModes(modes, PRESENT_MODE_FIFO)
  }

  /** The chosen mode is one the surface offers, given the FIFO support every
      Vulkan surface must have. */
  lemma PresentModeOffered(modes: seq<int>)
    requires PRESENT_MODE_FIFO in modes
    ensures ChoosePresentMode(modes) in modes
  {
  }

  // ---------------------------------------------------------------------
  // Extent

  /** `r` is `v` pulled into `[lo, hi]`: `v` itself when it fits, else the bound it overshoots. */
  predicate ClampedInto(r: int, v: int, lo: int, hi: int) {
    && lo <= r <= hi
    && (lo <= v <= hi ==> r == v)
    && (v < lo ==> r == lo)
    && (hi < v ==> r == hi)
  }

  /** `std::clamp`, whose precondition is `lo <= hi`. */
  function Clamp(v: u32, lo: u32, hi: u32): (r: u32)
    requires lo <= hi
    ensures ClampedInto(r, v, lo, hi)
  {
    if v < lo then lo else if hi < v then hi else v
  }

  function Distance(a: int, b: int): nat {
    if a <= b then b - a else a - b
  }

  /** The clamped value is the point of `[lo, hi]` nearest to `v`. */
  lemma ClampIsNearest(v: u32, lo: u32, hi: u32)
    requires lo <= hi
    ensures forall x :: lo <= x <= hi ==> Distance(Clamp(v, lo, hi), v) <= Distance(x, v)
  {
  }

  /** Clamping never reverses the order of two framebuffer sizes. */
  lemma ClampMonotone(v: u32, w: u32, lo: u32, hi: u32)
    requires lo <= hi && v <= w
    ensures Clamp(v, lo, hi) <= Clamp(w, lo, hi)
  {
  }

  /** `std::clamp`'s precondition, needed only on the path that clamps. */
  predicate ClampDefined(caps: SurfaceCapabilities) {
    caps.currentExtent.width == EXTENT_UNDEFINED ==>
      caps.minImageExtent.width <= caps.maxImageExtent.width
      && caps.minImageExtent.height <= caps.maxImageExtent.height
  }

  /** The swapchain extent: the surface's current extent, unless its width is
      the undefined marker; then the framebuffer size (C `int`s, converted to
      `uint32_t`) clamped into the surface's extent range. Only the width is
      tested for the marker. */
  function ResolveExtent(caps: SurfaceCapabilities, framebufferWidth: int, framebufferHeight: int): (r: Extent2D)
    requires ClampDefined(caps)
    ensures caps.currentExtent.width != EXTENT_UNDEFINED ==> r == caps.currentExtent
    ensures caps.currentExtent.width == EXTENT_UNDEFINED ==>
      ClampedInto(r.width, ToU32(framebufferWidth), caps.minImageExtent.width, caps.maxImageExtent.width)
    ensures caps.currentExtent.width == EXTENT_UNDEFINED ==>
      ClampedInto(r.height, ToU32(framebufferHeight), caps.minImageExtent.height, caps.maxImageExtent.height)
  {
    if caps.currentExtent.width == EXTENT_UNDEFINED then
      Extent2D(
        Clamp(ToU32(framebufferWidth), caps.minImageExtent.width, caps.maxImageExtent.width),
        Clamp(ToU32(framebufferHeight), caps.minImageExtent.height, caps.maxImageExtent.height))
    else
      caps.currentExtent
  }

  /** A defined current extent makes the window size irrelevant. */
  lemma ExtentIgnoresFramebuffer(caps: SurfaceCapabilities, w1: int, h1: int, w2: int, h2: int)
    requires caps.currentExtent.width != EXTENT_UNDEFINED
    ensures ResolveExtent(caps, w1, h1) == ResolveExtent(caps, w2, h2)
  {
  }

  /** With the undefined marker, a larger window never yields a smaller swapchain. */
  lemma ExtentMonotone(caps: SurfaceCapabilities, w1: int, h1: int, w2: int, h2: int)
    requires caps.currentExtent.width == EXTENT_UNDEFINED && ClampDefined(caps)
    requires 0 <= w1 <= w2 < 0x8000_0000 && 0 <= h1 <= h2 < 0x8000_0000
    ensures ResolveExtent(caps, w1, h1).width <= ResolveExtent(caps, w2, h2).width
    ensures ResolveExtent(caps, w1, h1).height <= ResolveExtent(caps, w2, h2).height
  {
  }

  // ---------------------------------------------------------------------
  // Image count

  /** One image more than the surface's minimum, capped by its maximum
      unless that is 0 ("no limit"). The `+ 1` is `uint32_t` arithmetic and
      wraps to 0 at the top of the range. */
  function ImageCount(caps: SurfaceCapabilities): (r: u32)
    ensures caps.maxImageCount != 0 ==> r <= caps.maxImageCount
    ensures caps.minImageCount < U32_MAX && (caps.maxImageCount == 0 || caps.minImageCount < caps.maxImageCount)
      ==> r == caps.minImageCount + 1
    ensures caps.minImageCount < U32_MAX && caps.maxImageCount != 0 && caps.maxImageCount <= caps.minImageCount
      ==> r == caps.maxImageCount
    ensures caps.minImageCount == U32_MAX ==> r == 0
  {
    var count := ToU32(caps.minImageCount + 1);
    if count > caps.maxImageCount && caps.maxImageCount != 0 then caps.maxImageCount else count
  }

  /** On a surface with a sane minimum, the count asks for at least the
      minimum, at most one image more, and never beyond a nonzero maximum. */
  lemma ImageCountWithinSurfaceLimits(caps: SurfaceCapabilities)
    requires 1 <= caps.minImageCount < U32_MAX
    requires caps.maxImageCount == 0 || caps.minImageCount <= caps.maxImageCount
    ensures caps.minImageCount <= ImageCount(caps) <= caps.minImageCount + 1
    ensures caps.maxImageCount != 0 ==> ImageCount(caps) <= caps.maxImageCount
    ensures ImageCount(caps) == caps.minImageCount <==> caps.maxImageCount == caps.minImageCount
  {
  }

  // ---------------------------------------------------------------------
  // Sharing mode

  /** Sharing mode and the queue family list; an empty list stands for a
      zero count and a null pointer. */
  datatype ImageSharing = ImageSharing(mode: SharingMode, queueFamilyIndices: seq<u32>)

  /** Exclusive ownership when graphics and presentation use one family,
      concurrent sharing between exactly the two families otherwise. */
  function ChooseSharing(families: QueueFamilies): (r: ImageSharing)
    ensures r.mode == Exclusive <==> families.graphics == families.present
    ensures r.mode == Exclusive ==> r.queueFamilyIndices == []
    ensures r.mode == Concurrent ==> r.queueFamilyIndices == [families.graphics, families.present]
  {
    if families.graphics == families.present then ImageSharing(Exclusive, [])
    else ImageSharing(Concurrent, [families.graphics, families.present])
  }

  /** Vulkan's rule for concurrent sharing: more than one family, none repeated. */
  predicate SharingValid(s: ImageSharing) {
    s.mode == Concurrent ==>
      |s.queueFamilyIndices| > 1
      && forall i, j :: 0 <= i < j < |s.queueFamilyIndices| ==> s.queueFamilyIndices[i] != s.queueFamilyIndices[j]
  }

  /** Queue family `family` may use the images without an ownership transfer
      when the single owner is `owner`. */
  predicate Accessible(s: ImageSharing, owner: u32, family: u32) {
    (s.mode == Exclusive && family == owner) || family in s.queueFamilyIndices
  }

  /** The chosen sharing is valid and lets both the graphics and the present
      queue use the images, with the graphics family as exclusive owner. */
  lemma SharingServesBothQueues(families: QueueFamilies)
    ensures SharingValid(ChooseSharing(families))
    ensures Accessible(ChooseSharing(families), families.graphics, families.graphics)
    ensures Accessible(ChooseSharing(families), families.graphics, families.present)
  {
  }

  // ---------------------------------------------------------------------
  // The create info and the constructor

  /** The fields of `VkSwapchainCreateInfoKHR` the constructor sets
      (a null `oldSwapchain` is `None`). */
  datatype SwapchainCreateInfo = SwapchainCreateInfo(
    minImageCount: u32,
    imageFormat: int,
    imageColorSpace: int,
    imageExtent: Extent2D,
    imageArrayLayers: nat,
    imageUsage: bv32,
    sharing: ImageSharing,
    preTransform: bv32,
    compositeAlpha: bv32,
    presentMode: int,
    clipped: bool,
    oldSwapchain: Option<nat>)

  /** The create info the constructor hands to `vkCreateSwapchainKHR`. */
  function SwapchainInfo(surface: SurfaceSupport, families: QueueFamilies,
                         framebufferWidth: int, framebufferHeight: int): (r: Result<SwapchainCreateInfo>)
    requires |surface.formats| > 0 ==> ClampDefined(surface.capabilities)
    ensures r.Ok? <==> |surface.formats| > 0
    ensures r.Err? ==> r.error == FormatIndexOutOfRange
    ensures r.Ok? ==>
      var info := r.value;
      && SurfaceFormat(info.imageFormat, info.imageColorSpace) == ChooseSurfaceFormat(surface.formats).value
      && info.presentMode == ChoosePresentMode(surface.presentModes)
      && info.imageExtent == ResolveExtent(surface.capabilities, framebufferWidth, framebufferHeight)
      && info.minImageCount == ImageCount(surface.capabilities)
      && info.sharing == ChooseSharing(families)
      && info.preTransform == surface.capabilities.currentTransform
      && info.imageArrayLayers == 1
      && info.imageUsage == IMAGE_USAGE_COLOR_ATTACHMENT
      && info.compositeAlpha == COMPOSITE_ALPHA_OPAQUE
      && info.clipped
      && info.oldSwapchain == None
  {
    match ChooseSurfaceFormat(surface.formats)
    case Err(e) => Err(e)
    case Ok(format) =>
      Ok(SwapchainCreateInfo(
        ImageCount(surface.capabilities),
        format.format,
        format.colorSpace,
        ResolveExtent(surface.capabilities, framebufferWidth, framebufferHeight),
        1,
        IMAGE_USAGE_COLOR_ATTACHMENT,
        ChooseSharing(families),
        surface.capabilities.currentTransform,
        COMPOSITE_ALPHA_OPAQUE,
        ChoosePresentMode(surface.presentModes),
        true,
        None))
  }

  /** A constructed swapchain: what it was created with and the images the
      driver handed back. */
  datatype Swapchain = Swapchain(createInfo: SwapchainCreateInfo, images: seq<nat>) {
    /** `get_format()`. */
    function Format(): int {
      createInfo.imageFormat
    }

    /** `get_extent()`. */
    function Extent(): Extent2D {
      createInfo.imageExtent
    }
  }

  /** `Swapchain::Swapchain(device, window)`: `createResult` is what
      `vkCreateSwapchainKHR` returns, `images` what `vkGetSwapchainImagesKHR`
      lists afterwards. */
  function NewSwapchain(surface: SurfaceSupport, families: QueueFamilies,
                        framebufferWidth: int, framebufferHeight: int,
                        createResult: VkResult, images: seq<nat>): (r: Result<Swapchain>)
    requires |surface.formats| > 0 ==> ClampDefined(surface.capabilities)
    ensures r.Ok? <==> |surface.formats| > 0 && Succeeded(createResult)
    ensures r.Err? ==> (r.error == FormatIndexOutOfRange <==> |surface.formats| == 0)
    ensures r.Err? && |surface.formats| > 0 ==> r.error == VulkanError
    ensures r.Ok? ==>
      && r.value.createInfo == SwapchainInfo(surface, families, framebufferWidth, framebufferHeight).value
      && r.value.images == images
    ensures r.Ok? ==>
      && r.value.Format() == ChooseSurfaceFormat(surface.formats).value.format
      && r.value.Extent() == ResolveExtent(surface.capabilities, framebufferWidth, framebufferHeight)
  {
    match SwapchainInfo(surface, families, framebufferWidth, framebufferHeight)
    case Err(e) => Err(e)
    case Ok(info) =>
      match Check(createResult)
      case Some(failure) => Err(failure)
      case None => Ok(Swapchain(info, images))
  }

  /** An empty format list fails at `formats.at(0)`, before the extent is
      resolved, so even capabilities that `std::clamp` would reject give the
      out-of-range error and never `VulkanError`. */
  lemma EmptyFormatListFailsFirst(caps: SurfaceCapabilities, presentModes: seq<int>, families: QueueFamilies,
                                  framebufferWidth: int, framebufferHeight: int,
                                  createResult: VkResult, images: seq<nat>)
    ensures NewSwapchain(SurfaceSupport(caps, [], presentModes), families, framebufferWidth, framebufferHeight,
                         createResult, images) == Err(FormatIndexOutOfRange)
  {
  }

  /** `get_format()` on a constructed swapchain reports the surface format
      the constructor chose: the preferred sRGB format when offered, else the
      first one listed. */
  lemma FormatIsChosenFormat(surface: SurfaceSupport, families: QueueFamilies,
                             framebufferWidth: int, framebufferHeight: int,
                             createResult: VkResult, images: seq<nat>)
    requires |surface.formats| > 0 ==> ClampDefined(surface.capabilities)
    requires NewSwapchain(surface, families, framebufferWidth, framebufferHeight, createResult, images).Ok?
    ensures var chain := NewSwapchain(surface, families, framebufferWidth, framebufferHeight, createResult, images).value;
      && SurfaceFormat(chain.Format(), chain.createInfo.imageColorSpace) in surface.formats
      && (PREFERRED_FORMAT in surface.formats ==> chain.Format() == FORMAT_R8G8B8A8_SRGB)
      && (PREFERRED_FORMAT !in surface.formats ==> chain.Format() == surface.formats[0].format)
  {
  }

  /** `get_extent()` on a constructed swapchain reports the extent the
      constructor resolved: the surface's current extent when defined, else
      the framebuffer size clamped into the surface's range. */
  lemma ExtentIsResolvedExtent(surface: SurfaceSupport, families: QueueFamilies,
                               framebufferWidth: int, framebufferHeight: int,
                               createResult: VkResult, images: seq<nat>)
    requires |surface.formats| > 0 ==> ClampDefined(surface.capabilities)
    requires NewSwapchain(surface, families, framebufferWidth, framebufferHeight, createResult, images).Ok?
    ensures var chain := NewSwapchain(surface, families, framebufferWidth, framebufferHeight, createResult, images).value;
      var caps := surface.capabilities;
      && (caps.currentExtent.width != EXTENT_UNDEFINED ==> chain.Extent() == caps.currentExtent)
      && (caps.currentExtent.width == EXTENT_UNDEFINED ==> WithinExtentRange(caps, chain.Extent()))
  {
  }

  // ---------------------------------------------------------------------
  // Agreement with Vulkan's rules

  /** What Vulkan guarantees about the surface queries of a surface the
      device supports, plus an image minimum below the `uint32_t` ceiling
      and a minimum extent of at least one pixel each way (a minimised
      window may report a zero extent range). */
  predicate WellFormedSurface(surface: SurfaceSupport) {
    var caps := surface.capabilities;
    && |surface.formats| > 0
    && PRESENT_MODE_FIFO in surface.presentModes
    && 1 <= caps.minImageCount < U32_MAX
    && (caps.maxImageCount == 0 || caps.minImageCount <= caps.maxImageCount)
    && 1 <= caps.minImageExtent.width <= caps.maxImageExtent.width
    && 1 <= caps.minImageExtent.height <= caps.maxImageExtent.height
    && (caps.currentExtent.width != EXTENT_UNDEFINED ==> WithinExtentRange(caps, caps.currentExtent))
    && caps.maxImageArrayLayers >= 1
  }

  predicate WithinExtentRange(caps: SurfaceCapabilities, e: Extent2D) {
    && caps.minImageExtent.width <= e.width <= caps.maxImageExtent.width
    && caps.minImageExtent.height <= e.height <= caps.maxImageExtent.height
  }

  /** The valid-usage rules of `VkSwapchainCreateInfoKHR` that concern the
      computed fields. */
  predicate ValidCreateInfo(surface: SurfaceSupport, info: SwapchainCreateInfo) {
    var caps := surface.capabilities;
    && SurfaceFormat(info.imageFormat, info.imageColorSpace) in surface.formats
    && info.presentMode in surface.presentModes
    && caps.minImageCount <= info.minImageCount
    && (caps.maxImageCount != 0 ==> info.minImageCount <= caps.maxImageCount)
    && 0 < info.imageExtent.width && 0 < info.imageExtent.height
    && WithinExtentRange(caps, info.imageExtent)
    && 1 <= info.imageArrayLayers <= caps.maxImageArrayLayers
    && SharingValid(info.sharing)
  }

  /** On a well-formed surface the constructor always produces a create info
      that Vulkan's valid-usage rules accept. */
  lemma SwapchainInfoValid(surface: SurfaceSupport, families: QueueFamilies,
                           framebufferWidth: int, framebufferHeight: int)
    requires WellFormedSurface(surface)
    ensures SwapchainInfo(surface, families, framebufferWidth, framebufferHeight).Ok?
    ensures ValidCreateInfo(surface, SwapchainInfo(surface, families, framebufferWidth, framebufferHeight).value)
  {
  }

  /** The one Vulkan-permitted surface `WellFormedSurface` excludes: with a
      minimum of `UINT32_MAX` images the `uint32_t` increment wraps, the
      create info asks for no images, and Vulkan's rule that the requested
      count reach the surface's minimum is broken. */
  lemma ImageCountWrapBreaksValidity(surface: SurfaceSupport, families: QueueFamilies,
                                     framebufferWidth: int, framebufferHeight: int)
    requires |surface.formats| > 0 && ClampDefined(surface.capabilities)
    requires surface.capabilities.minImageCount == U32_MAX
    ensures SwapchainInfo(surface, families, framebufferWidth, framebufferHeight).Ok?
    ensures SwapchainInfo(surface, families, framebufferWidth, framebufferHeight).value.minImageCount == 0
    ensures !ValidCreateInfo(surface, SwapchainInfo(surface, families, framebufferWidth, framebufferHeight).value)
  {
  }

  /** The other surface `WellFormedSurface` excludes: a zero-width extent
      range, as a minimised window reports. The create info is then invalid;
      when the surface leaves the size to the swapchain, it asks for a
      zero-width image, which Vulkan forbids. */
  lemma ZeroExtentRangeBreaksValidity(surface: SurfaceSupport, families: QueueFamilies,
                                      framebufferWidth: int, framebufferHeight: int)
    requires |surface.formats| > 0 && ClampDefined(surface.capabilities)
    requires surface.capabilities.maxImageExtent.width == 0
    ensures SwapchainInfo(surface, families, framebufferWidth, framebufferHeight).Ok?
    ensures surface.capabilities.currentExtent.width == EXTENT_UNDEFINED
      ==> SwapchainInfo(surface, families, framebufferWidth, framebufferHeight).value.imageExtent.width == 0
    ensures !ValidCreateInfo(surface, SwapchainInfo(surface, families, framebufferWidth, framebufferHeight).value)
  {
  }

  /** The format, color space and present mode depend only on the format
      and present-mode lists, not on the capabilities or the window size. */
  lemma FormatIndependentOfCapabilities(before: SurfaceSupport, after: SurfaceSupport,
                                     families: QueueFamilies, w1: int, h1: int, w2: int, h2: int)
    requires ClampDefined(before.capabilities) && ClampDefined(after.capabilities)
    requires before.formats == after.formats && before.presentModes == after.presentModes
    requires |before.formats| > 0
    ensures SwapchainInfo(before, families, w1, h1).Ok? && SwapchainInfo(after, families, w2, h2).Ok?
    ensures SwapchainInfo(before, families, w1, h1).value.imageFormat
         == SwapchainInfo(after, families, w2, h2).value.imageFormat
    ensures SwapchainInfo(before, families, w1, h1).value.imageColorSpace
         == SwapchainInfo(after, families, w2, h2).value.imageColorSpace
    ensures SwapchainInfo(before, families, w1, h1).value.presentMode
         == SwapchainInfo(after, families, w2, h2).value.presentMode
  {
  }
}
