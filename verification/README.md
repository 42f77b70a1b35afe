# Jubes: buffer and swapchain parameter selection

Jubes is a small Vulkan rendering harness. Between its driver queries and its
driver calls sit a few pure selection rules. This project models those rules
in Dafny and proves properties about them.

- **Buffers** (`buffers.dfy`, module `Buffers`) covers `src/buffers.cpp`:
  - the usage flags and memory-property flags for each buffer role (vertex, index, staging, uniform);
  - the scan over the device's memory-type table that picks a memory type;
  - the failure paths of the `Buffer` constructor;
  - the one-shot command sequence that `copy_from` records and submits.
- **Present** (`present.dfy`, module `Present`) covers the `Swapchain` constructor in `src/present.cpp`:
  - the choice of surface format and present mode;
  - the extent resolution and clamp;
  - the image count;
  - the sharing mode and queue-family list;
  - the fixed fields of `VkSwapchainCreateInfoKHR`;
  - the failure paths.
- **Vulkan** (`vulkan.dfy`) holds what both share:
  - `uint32_t` as a subset type, and conversion into it;
  - the enumerant values of the Vulkan headers that the harness uses;
  - the `Failure` kinds and small `Option`/`Result` wrappers.

Driver and windowing calls are not modelled as operations. What they answer
is passed in as parameters. These are: result codes, the memory requirements,
the memory-type table, the surface capabilities and the format and
present-mode lists, the framebuffer size, and the swapchain images.

The `Buffer` constructor (`Buffers.NewBuffer`) and `copy_from`
(`Buffers.CopyFrom`) are functions that return the state-changing driver
calls they make, in order, together with their outcome. Their contracts say
that the calls are a prefix of the full sequence, and how long that prefix is
on each failure. This makes properties such as "no memory is allocated when
no memory type fits" statable. The `Swapchain` constructor
(`Present.NewSwapchain`) makes a single state-changing call, so it returns
only its outcome: the create info it passed and the images it received.

Points to know when reading the code:

- **Memory-type scan.** A first-match scan (a `break` on the first suitable
  type) would pick the least index. The loop at `src/buffers.cpp:81-94` has
  no `break`, so the greatest suitable index wins. `Buffers.MemoryTypeIndex`
  models the code. `Buffers.FirstSuitableFrom` defines the first-match rule as
  a reference, and `Buffers.LastMatchIsFirstMatchIffUnique` proves the two
  rules agree exactly when at most one type is suitable.
  `Buffers.VertexBufferTakesLastDeviceLocalType` gives a device where they differ.
- **Stored values.** The constructors never store some values they compute:
  - the buffer handle (`src/buffers.cpp:39` declares a local `VkBuffer buffer`);
  - the memory handle (`src/buffers.cpp:107` declares a local `memory`);
  - the size of a buffer;
  - the image format and extent of a swapchain.

  `src/present.cpp:109` also redeclares `image_count`. The model records the
  computed values: `Buffer.size`, `Buffer.memory`, `Swapchain.Format()` and
  `Swapchain.Extent()`. In the code as written, `copy_from`
  (`src/buffers.cpp:118` and `:148-149`) reads sizes that were never set and
  records a copy between two buffer handles that were never set.
- **Image views.** The constructor (`src/present.cpp:3-114`) creates no image
  views, so `image_views` stays empty and the model has none.

## Model

| member | source | states |
|---|---|---|
| Vulkan.Check | src/buffers.cpp:43-46 | a driver result aborts with `VulkanError` exactly when it is not `VK_SUCCESS` |
| Vulkan.ToU32 | src/present.cpp:54-62 | `static_cast<uint32_t>` leaves values in `[0, 2^32)` unchanged and maps a negative `int` to the value 2^32 higher |
| Buffers.UsageFlags | src/buffers.cpp:11-33 | per bit: VERTEX only for vertex, INDEX only for index, UNIFORM only for uniform, TRANSFER_SRC only for staging, TRANSFER_DST exactly for vertex and index; no other bit is set |
| Buffers.MemoryPropertyFlags | src/buffers.cpp:56-77 | DEVICE_LOCAL exactly for vertex and index; HOST_VISIBLE and HOST_COHERENT exactly for staging and uniform; no other bit is set |
| Buffers.DeviceLocalXorHostVisible | src/buffers.cpp:56-77 | every role asks for exactly one of device-local or host-visible memory, so device-local roles never ask for host visibility |
| Buffers.CopyPermittedRoles | src/buffers.cpp:11-33 | under Vulkan's copy rule (source needs TRANSFER_SRC, destination needs TRANSFER_DST), the only copies allowed are staging into vertex or index, from host-visible into device-local memory |
| Buffers.LastSuitableBelow | src/buffers.cpp:81-94 | the result is a suitable index below the bound with no suitable index between it and the bound, or none when nothing below the bound is suitable |
| Buffers.MemoryTypeIndex | src/buffers.cpp:79-94 | the selected index is below the type count, is allowed by the requirement mask, has every required property flag, and no greater index qualifies; none is selected exactly when no index qualifies |
| Buffers.MemoryTypeIndexUnique | src/buffers.cpp:79-94 | any suitable index with no suitable index above it is the selection, so the contract determines the result |
| Buffers.FindMemoryType | src/buffers.cpp:79-94 | the ascending loop that overwrites on every match ends with the greatest suitable index, and agrees with `MemoryTypeIndex` |
| Buffers.LastMatchIsFirstMatchIffUnique | src/buffers.cpp:81-94 | the last-match result equals the first-match result exactly when at most one memory type is suitable |
| Buffers.VertexBufferTakesLastDeviceLocalType | src/buffers.cpp:81-94 | with two allowed device-local types, a vertex buffer gets type 1, while first-match would pick type 0 |
| Buffers.NewBuffer | src/buffers.cpp:3-113 | the calls are a prefix of create → allocate → bind, each at most once and in that order; the buffer is created with the role's usage, exclusive sharing and no queue families; a failed create aborts with `VulkanError` after one call; `NoSuitableMemoryType` is raised exactly when creation succeeded and no type qualifies, and then no allocation is attempted; whenever creation succeeded and a type qualifies, an allocation of the driver-reported size from the greatest suitable index is attempted; every other failure is `VulkanError` and makes no bind; success requires all three steps to succeed and ends with a bind at offset 0 |
| Buffers.BufferMemoryMatchesRole | src/buffers.cpp:56-112 | a constructed vertex or index buffer lives in a device-local memory type, and a staging or uniform buffer in a host-visible, coherent one that its requirement mask allows |
| Buffers.CopyRegion | src/buffers.cpp:117-146 | the region starts at offset 0 in both buffers, fits in both, and is as long as one of them (their minimum) |
| Buffers.CopyFrom | src/buffers.cpp:115-169 | the calls are a prefix of allocate → begin → copy → end → submit, each at most once and in that order, and all five when nothing fails; a failed allocation stops after one call, a failed begin after two, a failed end after four; it allocates one primary command buffer; the copy is recorded exactly when allocation and begin succeed, with the one-time-submit flag and the single `CopyRegion`; the submission happens exactly when end also succeeds, to the graphics queue with no semaphores and no fence; any failed step aborts with `VulkanError` |
| Buffers.ApplyCopy | src/buffers.cpp:142-150 | executing a region writes the source bytes into the region of the destination and leaves every other destination byte unchanged |
| Buffers.CopyFromEffect | src/buffers.cpp:142-150 | executing the recorded copy makes the destination start with the first min(sizes) source bytes and leaves the rest as it was; between equal-sized buffers the destination becomes an exact copy of the source |
| Present.ScanFormats | src/present.cpp:33-40 | the format loop ends on the preferred (R8G8B8A8_SRGB, SRGB_NONLINEAR) pair when it occurs in the list, and otherwise on the starting choice |
| Present.ChooseSurfaceFormat | src/present.cpp:32-40 | an empty list fails with the `at(0)` out-of-range error; otherwise the choice is an element of the list, is the preferred pair exactly when the list offers it, and is `formats[0]` otherwise |
| Present.ScanPresentModes | src/present.cpp:42-47 | the mode loop ends on MAILBOX when the list offers it, and otherwise on the starting choice |
| Present.ChoosePresentMode | src/present.cpp:42-47 | the mode is MAILBOX exactly when the list offers MAILBOX, and FIFO otherwise |
| Present.PresentModeOffered | src/present.cpp:42-47 | when FIFO is offered, as Vulkan guarantees, the chosen mode is always one the surface offers |
| Present.Clamp | src/present.cpp:54-62 | the result lies in `[lo, hi]`; it is the value itself when that fits, and otherwise the bound the value overshoots |
| Present.ClampIsNearest | src/present.cpp:54-62 | the clamped value is the point of `[lo, hi]` nearest to the input |
| Present.ClampMonotone | src/present.cpp:54-62 | clamping preserves the order of its inputs |
| Present.ResolveExtent | src/present.cpp:49-63 | the extent is the current extent unchanged unless its width is UINT32_MAX; then each dimension is the framebuffer size, converted to `uint32_t`, clamped into `[minImageExtent, maxImageExtent]` |
| Present.ExtentIgnoresFramebuffer | src/present.cpp:49-50 | when the current extent is defined, the window size has no influence on the extent |
| Present.ExtentMonotone | src/present.cpp:49-63 | when the extent is undefined, a larger framebuffer never yields a smaller extent in either dimension |
| Present.ImageCount | src/present.cpp:65-69 | the count never exceeds a nonzero maximum; when minImageCount is below UINT32_MAX, it is minImageCount+1 when the maximum is 0 or leaves room, and the maximum when the maximum is at most minImageCount; the `uint32_t` increment wraps to 0 at UINT32_MAX |
| Present.ImageCountWithinSurfaceLimits | src/present.cpp:65-69 | on a sane surface the count lies in `[minImageCount, minImageCount+1]` and within a nonzero maximum; it equals minImageCount exactly when the maximum equals the minimum |
| Present.ChooseSharing | src/present.cpp:71-94 | sharing is exclusive exactly when the graphics and present families are equal, and then has no family list; otherwise it is concurrent with exactly `[graphics, present]` |
| Present.SharingServesBothQueues | src/present.cpp:71-94 | the sharing satisfies Vulkan's concurrent-sharing rule (more than one family, no repeats), and both the graphics and the present family can use the images |
| Present.SwapchainInfo | src/present.cpp:77-100 | the create info fails only on an empty format list, which needs no clamp precondition; it carries the chosen format, present mode, extent, image count and sharing, and the fixed fields: one array layer, color-attachment usage, the current transform, opaque composite alpha, clipped, no old swapchain |
| Present.NewSwapchain | src/present.cpp:3-114 | construction succeeds exactly when the format list is non-empty and `vkCreateSwapchainKHR` succeeds; an empty list gives the out-of-range error and a failed create gives `VulkanError`; `std::clamp`'s precondition is demanded only when the format list is non-empty; on success it keeps the create info and the images the driver lists, and its format and extent are the chosen format and the resolved extent |
| Present.EmptyFormatListFailsFirst | src/present.cpp:32 | an empty format list fails with the out-of-range error whatever the capabilities, even ones `std::clamp` would reject, because `at(0)` runs before the clamp |
| Present.FormatIsChosenFormat | src/present.hpp:12 | `get_format()` reports a format from a supported pair: R8G8B8A8_SRGB when the preferred pair is offered, else the first listed format |
| Present.ExtentIsResolvedExtent | src/present.hpp:18 | `get_extent()` reports the current extent when it is defined, and otherwise an extent within the surface's extent range |
| Present.SwapchainInfoValid | src/present.cpp:32-100 | on a surface meeting Vulkan's guarantees whose minImageCount is below UINT32_MAX and whose minimum extent is non-zero, the create info obeys Vulkan's valid-usage rules for every computed field: a supported format pair, an offered present mode, an image count within limits, a non-zero extent within range, a layer count within range, and valid sharing |
| Present.ImageCountWrapBreaksValidity | src/present.cpp:65-69 | on a surface whose minImageCount is UINT32_MAX, which Vulkan permits, the `uint32_t` increment wraps, the create info asks for 0 images, and it breaks Vulkan's rule that the count reach the surface's minimum |
| Present.ZeroExtentRangeBreaksValidity | src/present.cpp:49-63 | on a surface whose maximum extent width is 0, which Vulkan permits for a minimised window, the create info breaks Vulkan's rules, and when the surface leaves the size to the swapchain its width is 0 |
| Present.FormatIndependentOfCapabilities | src/present.cpp:32-47 | for the same format and mode lists, the create info has the same format, color space and present mode, whatever the capabilities and the window size |

## Left out

- Every Vulkan and GLFW call (`vkCreate*`, `vkAllocate*`, `vkGet*`, `vkCmdCopyBuffer`, `vkQueueSubmit`, `glfwGetFramebufferSize`, ...) is left out as an operation. Its answer is a parameter or its effect is a recorded call.
- The GPU's asynchronous execution of the submission in `copy_from` is left out. `Buffers.ApplyCopy` only states what the recorded region does once it executes.
- `load_using_staging` is declared in `src/buffers.hpp:16-17`, but `src/buffers.cpp` defines no `load_using_staging`, so it is not part of this model.
- `src/common.hpp` and `src/precompiled.hpp` do not define the `VK_ERROR` macro. The model treats it like the explicit checks: any result other than `VK_SUCCESS` aborts with `Error::VulkanError`.
- The result of `vkBindBufferMemory` is ignored by the source, and so by the model.
- Destruction and leaks are not modelled. The destructors and the RAII handle discipline are left out. When construction fails after `vkCreateBuffer` has succeeded, the source does not release the buffer, and the model's call traces contain no release either.
- Memory heaps are left out. A memory type is reduced to its property flags, because the scan never reads `heapIndex`.
- Buffer sizes (`VkDeviceSize`) are unbounded naturals. The only computation on them is a minimum, which cannot overflow.
- Only the format, color-space and present-mode enumerants that the constructor names are defined. Other values are plain integers.
- Present.SwapchainInfoValid: assumes minImageCount < UINT32_MAX, which Vulkan does not guarantee. At UINT32_MAX the count wraps to 0 and the create info is invalid, which `Present.ImageCountWrapBreaksValidity` states. It also assumes a minimum extent of at least 1×1, which Vulkan does not guarantee: a minimised window may report a (0,0) extent range, and then the constructor asks for a zero-sized extent, which `Present.ZeroExtentRangeBreaksValidity` states.
- Present.ImageCountWithinSurfaceLimits: assumes minImageCount < UINT32_MAX. At UINT32_MAX the source's `uint32_t` increment wraps and the count becomes 0, which `Present.ImageCount` states.
- Device and instance creation, validation layers, synchronisation wrappers, the render pass, the window and event loop, and the `VkResult`/`Error` formatters and file reading (`src/devices.cpp`, `src/sync.cpp`, `src/graphics.cpp`, `src/main.cpp`, `src/common.cpp`) are left out. They are thin wrappers over driver calls, constant descriptions or I/O.
- No frame loop, fence discipline or swapchain recreation exists under `src/` (`src/main.cpp:55-57` only polls events), so none is modelled.
- The vertex data is floating point and plays no part in the selection rules, so it is left out.
