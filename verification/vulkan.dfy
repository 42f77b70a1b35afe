/** Types, constants and outcome wrappers shared by the buffer and swapchain
    models: the slice of the Vulkan C API that the harness reads or writes,
    with the enumerant values of the Vulkan headers. */
module Vulkan {

  /** A C `uint32_t`. */
  type u32 = x: int | 0 <= x < 0x1_0000_0000

  const U32_MAX: u32 := 0xFFFF_FFFF

  /** `static_cast<uint32_t>` of a signed C integer: reduction modulo 2^32. */
  function ToU32(x: int): (r: u32)
    ensures 0 <= x < 0x1_0000_0000 ==> r == x
    ensures -0x1_0000_0000 <= x < 0 ==> r == x + 0x1_0000_0000
  {
    x % 0x1_0000_0000
  }

  /** `VkResult`: zero is success, positive values are non-error statuses and
      negative values are errors. */
  type VkResult = int

  const VK_SUCCESS: VkResult := 0

  predicate Succeeded(result: VkResult) {
    result == VK_SUCCESS
  }

  // VkBufferUsageFlagBits
  const BUFFER_USAGE_TRANSFER_SRC: bv32 := 0x0000_0001
  const BUFFER_USAGE_TRANSFER_DST: bv32 := 0x0000_0002
  const BUFFER_USAGE_UNIFORM_BUFFER: bv32 := 0x0000_0010
  const BUFFER_USAGE_INDEX_BUFFER: bv32 := 0x0000_0040
  const BUFFER_USAGE_VERTEX_BUFFER: bv32 := 0x0000_0080

  // VkMemoryPropertyFlagBits
  const MEMORY_PROPERTY_DEVICE_LOCAL: bv32 := 0x0000_0001
  const MEMORY_PROPERTY_HOST_VISIBLE: bv32 := 0x0000_0002
  const MEMORY_PROPERTY_HOST_COHERENT: bv32 := 0x0000_0004

  /** `VK_MAX_MEMORY_TYPES`: the length of the fixed `memoryTypes` array. */
  const MAX_MEMORY_TYPES: nat := 32

  // VkCommandBufferUsageFlagBits
  const COMMAND_BUFFER_USAGE_ONE_TIME_SUBMIT: bv32 := 0x0000_0001

  // VkImageUsageFlagBits
  const IMAGE_USAGE_COLOR_ATTACHMENT: bv32 := 0x0000_0010

  // VkCompositeAlphaFlagBitsKHR
  const COMPOSITE_ALPHA_OPAQUE: bv32 := 0x0000_0001

  // VkFormat and VkColorSpaceKHR (only the values the harness names)
  const FORMAT_R8G8B8A8_SRGB: int := 43
  const COLOR_SPACE_SRGB_NONLINEAR: int := 0

  // VkPresentModeKHR
  const PRESENT_MODE_MAILBOX: int := 1
  const PRESENT_MODE_FIFO: int := 2

  /** `VkSharingMode`. */
  datatype SharingMode = Exclusive | Concurrent

  /** `VkCommandBufferLevel`, of which the harness uses only the primary level. */
  datatype CommandBufferLevel = Primary

  /** Why a constructor or operation aborts: the harness's own
      `Error::VulkanError`, or one of the two standard-library exceptions the
      constructors can raise (the `std::runtime_error` for a missing memory
      type, the `std::out_of_range` of `formats.at(0)` on an empty list). */
  datatype Failure = VulkanError | NoSuitableMemoryType | FormatIndexOutOfRange

  datatype Option<+T> = None | Some(value: T)

  datatype Result<+T> = Ok(value: T) | Err(error: Failure)

  /** The check every fallible driver call goes through: anything but
      `VK_SUCCESS` aborts with `Error::VulkanError`. */
  function Check(result: VkResult): (r: Option<Failure>)
    ensures r.None? <==> Succeeded(result)
    ensures r.Some? ==> r.value == VulkanError
  {
    if result == VK_SUCCESS then None else Some(VulkanError)
  }
}
