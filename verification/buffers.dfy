/** The buffer side of the harness (src/buffers.cpp): the per-role usage and
    memory-property tables, the scan that picks a memory type, the failure
    paths of the `Buffer` constructor and the command sequence `copy_from`
    records. Driver calls are replaced by the answers they give, passed in as
    parameters. */
module Buffers {
  import opened Vulkan

  /** `Buffer::type_t`: the four roles a buffer is created for. */
  datatype BufferRole = Vertex | Index | Staging | Uniform

  /** Every usage bit some role requests. */
  const KNOWN_USAGE: bv32 :=
    BUFFER_USAGE_TRANSFER_SRC | BUFFER_USAGE_TRANSFER_DST | BUFFER_USAGE_UNIFORM_BUFFER
    | BUFFER_USAGE_INDEX_BUFFER | BUFFER_USAGE_VERTEX_BUFFER

  /** Every memory-property bit some role requests. */
  const KNOWN_MEMORY_PROPERTIES: bv32 :=
    MEMORY_PROPERTY_DEVICE_LOCAL | MEMORY_PROPERTY_HOST_VISIBLE | MEMORY_PROPERTY_HOST_COHERENT

  /** All of `bits` are set in `flags`. */
  predicate HasBits(flags: bv32, bits: bv32) {
    flags & bits == bits
  }

  /** The usage flags the constructor puts into `VkBufferCreateInfo`. */
  function UsageFlags(role: BufferRole): (r: bv32)
    ensures HasBits(r, BUFFER_USAGE_VERTEX_BUFFER) <==> role == Vertex
    ensures HasBits(r, BUFFER_USAGE_INDEX_BUFFER) <==> role == Index
    ensures HasBits(r, BUFFER_USAGE_UNIFORM_BUFFER) <==> role == Uniform
    ensures HasBits(r, BUFFER_USAGE_TRANSFER_SRC) <==> role == Staging
    ensures HasBits(r, BUFFER_USAGE_TRANSFER_DST) <==> role == Vertex || role == Index
    ensures r & !KNOWN_USAGE == 0
  {
    match role
    case Vertex => BUFFER_USAGE_VERTEX_BUFFER | BUFFER_USAGE_TRANSFER_DST
    case Index => BUFFER_USAGE_INDEX_BUFFER | BUFFER_USAGE_TRANSFER_DST
    case Staging => BUFFER_USAGE_TRANSFER_SRC
    case Uniform => BUFFER_USAGE_UNIFORM_BUFFER
  }

  /** The memory properties the chosen memory type must have. */
  function MemoryPropertyFlags(role: BufferRole): (r: bv32)
    ensures HasBits(r, MEMORY_PROPERTY_DEVICE_LOCAL) <==> role == Vertex || role == Index
    ensures HasBits(r, MEMORY_PROPERTY_HOST_VISIBLE) <==> role == Staging || role == Uniform
    ensures HasBits(r, MEMORY_PROPERTY_HOST_COHERENT) <==> role == Staging || role == Uniform
    ensures r & !KNOWN_MEMORY_PROPERTIES == 0
  {
    match role
    case Vertex => MEMORY_PROPERTY_DEVICE_LOCAL
    case Index => MEMORY_PROPERTY_DEVICE_LOCAL
    case Staging => MEMORY_PROPERTY_HOST_VISIBLE | MEMORY_PROPERTY_HOST_COHERENT
    case Uniform => MEMORY_PROPERTY_HOST_VISIBLE | MEMORY_PROPERTY_HOST_COHERENT
  }

  /** A role's memory is host-mappable exactly when it does not ask for
      device-local memory: no role asks for both, and every role asks for one. */
  lemma DeviceLocalXorHostVisible(role: BufferRole)
    ensures HasBits(MemoryPropertyFlags(role), MEMORY_PROPERTY_DEVICE_LOCAL)
        <==> !HasBits(MemoryPropertyFlags(role), MEMORY_PROPERTY_HOST_VISIBLE)
  {
  }

  /** Vulkan's usage rule for `vkCmdCopyBuffer`: the source needs
      TRANSFER_SRC usage and the destination TRANSFER_DST usage. */
  predicate CopyPermitted(source: BufferRole, dest: BufferRole) {
    HasBits(UsageFlags(source), BUFFER_USAGE_TRANSFER_SRC)
    && HasBits(UsageFlags(dest), BUFFER_USAGE_TRANSFER_DST)
  }

  /** The role tables allow exactly the staged upload: a staging buffer copied
      into a vertex or index buffer, and nothing else. */
  lemma CopyPermittedRoles(source: BufferRole, dest: BufferRole)
    ensures CopyPermitted(source, dest) <==> source == Staging && (dest == Vertex || dest == Index)
    ensures CopyPermitted(source, dest) ==>
      HasBits(MemoryPropertyFlags(source), MEMORY_PROPERTY_HOST_VISIBLE)
      && HasBits(MemoryPropertyFlags(dest), MEMORY_PROPERTY_DEVICE_LOCAL)
  {
  }

  // ---------------------------------------------------------------------
  // Memory-type selection

  /** `memoryTypes[0 .. memoryTypeCount)` of `VkPhysicalDeviceMemoryProperties`,
      each type reduced to its property flags. */
  type MemoryTypeTable = t: seq<bv32> | |t| <= MAX_MEMORY_TYPES

  /** Bit `i` of the requirement mask is set (`memoryTypeBits & (1 << i)`). */
  predicate AllowsType(typeBits: bv32, i: nat)
    requires i < 32
  {
    typeBits & ((1 as bv32) << i) != 0
  }

  /** Memory type `i` is both allowed by the buffer and has every required property. */
  predicate Suitable(typeBits: bv32, types: MemoryTypeTable, required: bv32, i: nat)
    requires i < |types|
  {
    AllowsType(typeBits, i) && HasBits(types[i], required)
  }

  /** The greatest suitable index below `n`. */
  function LastSuitableBelow(typeBits: bv32, types: MemoryTypeTable, required: bv32, n: nat): (r: Option<nat>)
    requires n <= |types|
    ensures r.Some? ==> r.value < n && Suitable(typeBits, types, required, r.value)
    ensures r.Some? ==> forall j :: r.value < j < n ==> !Suitable(typeBits, types, required, j)
    ensures r.None? ==> forall j :: 0 <= j < n ==> !Suitable(typeBits, types, required, j)
    decreases n
  {
    if n == 0 then None
    else if Suitable(typeBits, types, required, n - 1) then Some(n - 1)
    else LastSuitableBelow(typeBits, types, required, n - 1)
  }

  /** The index the constructor's scan ends with: the greatest suitable one,
      because the loop overwrites its choice on every match and never stops early. */
  function MemoryTypeIndex(typeBits: bv32, types: MemoryTypeTable, required: bv32): (r: Option<nat>)
    ensures r.Some? ==> r.value < |types| && Suitable(typeBits, types, required, r.value)
    ensures r.Some? ==> forall j :: r.value < j < |types| ==> !Suitable(typeBits, types, required, j)
    ensures r.None? <==> forall j :: 0 <= j < |types| ==> !Suitable(typeBits, types, required, j)
  {
    LastSuitableBelow(typeBits, types, required, |types|)
  }

  /** The selection is determined by its contract: whatever is suitable and
      has no suitable index above it is the scan's answer. */
  lemma MemoryTypeIndexUnique(typeBits: bv32, types: MemoryTypeTable, required: bv32, k: nat)
    requires k < |types| && Suitable(typeBits, types, required, k)
    requires forall j :: k < j < |types| ==> !Suitable(typeBits, types, required, j)
    ensures MemoryTypeIndex(typeBits, types, required) == Some(k)
  {
  }

  /** The scan as the constructor writes it: ascending, overwriting on every match. */
  method FindMemoryType(typeBits: bv32, types: MemoryTypeTable, required: bv32) returns (index: Option<nat>)
    ensures index.Some? ==> index.value < |types| && Suitable(typeBits, types, required, index.value)
    ensures index.Some? ==> forall j :: index.value < j < |types| ==> !Suitable(typeBits, types, required, j)
    ensures index.None? ==> forall j :: 0 <= j < |types| ==> !Suitable(typeBits, types, required, j)
    ensures index == MemoryTypeIndex(typeBits, types, required)
  {
    index := None;
    var i := 0;
    while i < |types|
      invariant i <= |types|
      invariant index.Some? ==> index.value < i && Suitable(typeBits, types, required, index.value)
      invariant index.Some? ==> forall j :: index.value < j < i ==> !Suitable(typeBits, types, required, j)
      invariant index.None? ==> forall j :: 0 <= j < i ==> !Suitable(typeBits, types, required, j)
    {
      if Suitable(typeBits, types, required, i) {
        index := Some(i);
      }
      i := i + 1;
    }
    if index.Some? {
      MemoryTypeIndexUnique(typeBits, types, required, index.value);
    }
  }

  /** The least suitable index at or above `i`: the first-match rule, kept
      as a reference to compare the scan with. */
  function FirstSuitableFrom(typeBits: bv32, types: MemoryTypeTable, required: bv32, i: nat): (r: Option<nat>)
    requires i <= |types|
    ensures r.Some? ==> i <= r.value < |types| && Suitable(typeBits, types, required, r.value)
    ensures r.Some? ==> forall j :: i <= j < r.value ==> !Suitable(typeBits, types, required, j)
    ensures r.None? ==> forall j :: i <= j < |types| ==> !Suitable(typeBits, types, required, j)
    decreases |types| - i
  {
    if i == |types| then None
    else if Suitable(typeBits, types, required, i) then Some(i)
    else FirstSuitableFrom(typeBits, types, required, i + 1)
  }

  /** At most one memory type is suitable. */
  predicate AtMostOneSuitable(typeBits: bv32, types: MemoryTypeTable, required: bv32) {
    forall i, j :: 0 <= i < j < |types| ==>
      !(Suitable(typeBits, types, required, i) && Suitable(typeBits, types, required, j))
  }

  /** The scan agrees with "first match wins" exactly when the choice is not
      ambiguous; with two or more suitable types it picks a different one. */
  lemma LastMatchIsFirstMatchIffUnique(typeBits: bv32, types: MemoryTypeTable, required: bv32)
    ensures MemoryTypeIndex(typeBits, types, required) == FirstSuitableFrom(typeBits, types, required, 0)
        <==> AtMostOneSuitable(typeBits, types, required)
  {
  }

  /** A device with two device-local types, the second also host-visible,
      both allowed: a vertex buffer lands in type 1, not type 0. */
  lemma VertexBufferTakesLastDeviceLocalType()
    ensures MemoryTypeIndex(0x3, [MEMORY_PROPERTY_DEVICE_LOCAL,
                                  MEMORY_PROPERTY_DEVICE_LOCAL | MEMORY_PROPERTY_HOST_VISIBLE],
                            MemoryPropertyFlags(Vertex)) == Some(1)
    ensures FirstSuitableFrom(0x3, [MEMORY_PROPERTY_DEVICE_LOCAL,
                                    MEMORY_PROPERTY_DEVICE_LOCAL | MEMORY_PROPERTY_HOST_VISIBLE],
                              MemoryPropertyFlags(Vertex), 0) == Some(0)
  {
  }

  // ---------------------------------------------------------------------
  // Construction

  /** The fields of `VkBufferCreateInfo` the constructor sets; an empty
      `queueFamilyIndices` stands for a zero count and a null pointer. */
  datatype BufferCreateInfo = BufferCreateInfo(
    size: nat, usage: bv32, sharingMode: SharingMode, queueFamilyIndices: seq<u32>)

  /** `VkMemoryRequirements` as reported for the new buffer. */
  datatype MemoryRequirements = MemoryRequirements(size: nat, alignment: nat, memoryTypeBits: bv32)

  /** `VkMemoryAllocateInfo`. */
  datatype MemoryAllocateInfo = MemoryAllocateInfo(allocationSize: nat, memoryTypeIndex: nat)

  /** The driver's answers during construction, in call order. */
  datatype BufferDriver = BufferDriver(
    createResult: VkResult,
    requirements: MemoryRequirements,
    memoryTypes: MemoryTypeTable,
    allocateResult: VkResult)

  /** The state-changing driver calls the constructor makes. */
  datatype BufferCall =
    | CreateBuffer(createInfo: BufferCreateInfo)
    | AllocateMemory(allocateInfo: MemoryAllocateInfo)
    | BindBufferMemory(memoryOffset: nat)

  /** A constructed buffer: its role, requested size and backing allocation. */
  datatype Buffer = Buffer(role: BufferRole, size: nat, memory: MemoryAllocateInfo)

  /** The calls a construction made and how it ended. */
  datatype Construction = Construction(calls: seq<BufferCall>, outcome: Result<Buffer>)

  predicate AttemptsAllocation(calls: seq<BufferCall>) {
    exists k :: 0 <= k < |calls| && calls[k].AllocateMemory?
  }

  /** The calls the constructor makes when no step fails: create the buffer
      with the role's usage, then, if some memory type is suitable, allocate
      the reported size from the greatest suitable type and bind at offset 0. */
  function BufferCallSequence(size: nat, role: BufferRole, driver: BufferDriver): seq<BufferCall> {
    var create := CreateBuffer(BufferCreateInfo(size, UsageFlags(role), Exclusive, []));
    match MemoryTypeIndex(driver.requirements.memoryTypeBits, driver.memoryTypes, MemoryPropertyFlags(role))
    case None => [create]
    case Some(index) =>
      [create, AllocateMemory(MemoryAllocateInfo(driver.requirements.size, index)), BindBufferMemory(0)]
  }

  /** `Buffer::Buffer(device, size, type)`. */
  function NewBuffer(size: nat, role: BufferRole, driver: BufferDriver): (c: Construction)
    ensures |c.calls| >= 1
    ensures c.calls <= BufferCallSequence(size, role, driver)
    ensures Succeeded(driver.createResult)
      && MemoryTypeIndex(driver.requirements.memoryTypeBits, driver.memoryTypes, MemoryPropertyFlags(role)).Some?
      ==> |c.calls| >= 2 && AttemptsAllocation(c.calls)
    ensures c.outcome.Ok? ==> |c.calls| == 3
    ensures c.outcome.Err? ==> |c.calls| <= 2
    ensures c.outcome.Err? && c.outcome.error != NoSuitableMemoryType ==> c.outcome.error == VulkanError
    ensures c.calls[0].CreateBuffer? && c.calls[0].createInfo.size == size
    ensures c.calls[0].createInfo.usage == UsageFlags(role)
    ensures c.calls[0].createInfo.sharingMode == Exclusive && c.calls[0].createInfo.queueFamilyIndices == []
    ensures c.outcome.Ok? <==>
      Succeeded(driver.createResult)
      && (exists i :: 0 <= i < |driver.memoryTypes|
            && Suitable(driver.requirements.memoryTypeBits, driver.memoryTypes, MemoryPropertyFlags(role), i))
      && Succeeded(driver.allocateResult)
    ensures c.outcome == Err(NoSuitableMemoryType) <==>
      Succeeded(driver.createResult)
      && forall i :: 0 <= i < |driver.memoryTypes|
           ==> !Suitable(driver.requirements.memoryTypeBits, driver.memoryTypes, MemoryPropertyFlags(role), i)
    ensures !Succeeded(driver.createResult) ==> c.outcome == Err(VulkanError) && |c.calls| == 1
    ensures c.outcome == Err(NoSuitableMemoryType) ==> !AttemptsAllocation(c.calls)
    ensures forall k :: 0 <= k < |c.calls| && c.calls[k].AllocateMemory? ==>
      var info := c.calls[k].allocateInfo;
      && info.allocationSize == driver.requirements.size
      && info.memoryTypeIndex < |driver.memoryTypes|
      && Suitable(driver.requirements.memoryTypeBits, driver.memoryTypes, MemoryPropertyFlags(role), info.memoryTypeIndex)
      && forall j :: info.memoryTypeIndex < j < |driver.memoryTypes|
           ==> !Suitable(driver.requirements.memoryTypeBits, driver.memoryTypes, MemoryPropertyFlags(role), j)
    ensures c.outcome.Ok? ==>
      && c.outcome.value.role == role
      && c.outcome.value.size == size
      && AllocateMemory(c.outcome.value.memory) in c.calls
      && c.calls[|c.calls| - 1] == BindBufferMemory(0)
  {
    var createInfo := BufferCreateInfo(size, UsageFlags(role), Exclusive, []);
    var created := [CreateBuffer(createInfo)];
    if !Succeeded(driver.createResult) then
      Construction(created, Err(VulkanError))
    else
      var required := MemoryPropertyFlags(role);
      match MemoryTypeIndex(driver.requirements.memoryTypeBits, driver.memoryTypes, required)
      case None =>
        Construction(created, Err(NoSuitableMemoryType))
      case Some(index) =>
        var allocateInfo := MemoryAllocateInfo(driver.requirements.size, index);
        var withMemory := created + [AllocateMemory(allocateInfo)];
        assert withMemory[1].AllocateMemory?;
        match Check(driver.allocateResult)
        case Some(failure) => Construction(withMemory, Err(failure))
        case None =>
          var bound := withMemory + [BindBufferMemory(0)];
          assert bound[1].AllocateMemory?;
          Construction(bound, Ok(Buffer(role, size, allocateInfo)))
  }

  /** A constructed buffer lives in memory of the kind its role asks for:
      device-local for vertex and index data, host-visible and coherent for
      staging and uniform data. */
  lemma BufferMemoryMatchesRole(size: nat, role: BufferRole, driver: BufferDriver)
    requires NewBuffer(size, role, driver).outcome.Ok?
    ensures var index := NewBuffer(size, role, driver).outcome.value.memory.memoryTypeIndex;
      && index < |driver.memoryTypes|
      && AllowsType(driver.requirements.memoryTypeBits, index)
      && (role == Vertex || role == Index ==>
            HasBits(driver.memoryTypes[index], MEMORY_PROPERTY_DEVICE_LOCAL))
      && (role == Staging || role == Uniform ==>
            HasBits(driver.memoryTypes[index], MEMORY_PROPERTY_HOST_VISIBLE | MEMORY_PROPERTY_HOST_COHERENT))
  {
  }

  // ---------------------------------------------------------------------
  // copy_from

  /** `VkBufferCopy`. */
  datatype BufferCopy = BufferCopy(srcOffset: nat, dstOffset: nat, size: nat)

  /** The one region `copy_from` records: as many bytes as both buffers hold,
      from the start of each. */
  function CopyRegion(source: Buffer, dest: Buffer): (r: BufferCopy)
    ensures r.srcOffset == 0 && r.dstOffset == 0
    ensures r.size <= source.size && r.size <= dest.size
    ensures r.size == source.size || r.size == dest.size
  {
    BufferCopy(0, 0, if source.size <= dest.size then source.size else dest.size)
  }

  /** The queue `copy_from` submits to. */
  datatype Queue = GraphicsQueue

  /** The driver calls `copy_from` makes; semaphore and command-buffer
      arrays are represented by their counts, a null fence by `None`. */
  datatype CopyCall =
    | AllocateCommandBuffers(level: CommandBufferLevel, commandBufferCount: nat)
    | BeginCommandBuffer(flags: bv32)
    | CmdCopyBuffer(source: Buffer, dest: Buffer, regions: seq<BufferCopy>)
    | EndCommandBuffer
    | QueueSubmit(queue: Queue, waitSemaphoreCount: nat, commandBufferCount: nat,
                  signalSemaphoreCount: nat, fence: Option<nat>)

  /** The results of the four checked calls of `copy_from`. */
  datatype CopyDriver = CopyDriver(
    allocateResult: VkResult, beginResult: VkResult, endResult: VkResult, submitResult: VkResult)

  datatype CopyRun = CopyRun(calls: seq<CopyCall>, failure: Option<Failure>)

  /** The calls `copy_from` makes when no step fails, in order. */
  function CopySequence(source: Buffer, dest: Buffer): seq<CopyCall> {
    [ AllocateCommandBuffers(Primary, 1),
      BeginCommandBuffer(COMMAND_BUFFER_USAGE_ONE_TIME_SUBMIT),
      CmdCopyBuffer(source, dest, [CopyRegion(source, dest)]),
      EndCommandBuffer,
      QueueSubmit(GraphicsQueue, 0, 1, 0, None) ]
  }

  predicate RecordsCopy(calls: seq<CopyCall>) {
    exists k :: 0 <= k < |calls| && calls[k].CmdCopyBuffer?
  }

  predicate Submits(calls: seq<CopyCall>) {
    exists k :: 0 <= k < |calls| && calls[k].QueueSubmit?
  }

  /** `dest.copy_from(source, pool)`: record one copy into a fresh one-shot
      primary command buffer and submit it to the graphics queue with no
      semaphores and no fence. Each checked call that fails ends the run. */
  function CopyFrom(dest: Buffer, source: Buffer, driver: CopyDriver): (run: CopyRun)
    ensures run.failure.None? <==>
      Succeeded(driver.allocateResult) && Succeeded(driver.beginResult)
      && Succeeded(driver.endResult) && Succeeded(driver.submitResult)
    ensures run.failure.Some? ==> run.failure.value == VulkanError
    ensures |run.calls| >= 1 && run.calls[0] == AllocateCommandBuffers(Primary, 1)
    ensures run.calls <= CopySequence(source, dest)
    ensures run.failure.None? ==> run.calls == CopySequence(source, dest)
    ensures !Succeeded(driver.allocateResult) ==> |run.calls| == 1
    ensures Succeeded(driver.allocateResult) ==> |run.calls| >= 2
    ensures Succeeded(driver.allocateResult) && Succeeded(driver.beginResult) ==> |run.calls| >= 4
    ensures RecordsCopy(run.calls)
        <==> Succeeded(driver.allocateResult) && Succeeded(driver.beginResult)
    ensures Submits(run.calls)
        <==> Succeeded(driver.allocateResult) && Succeeded(driver.beginResult) && Succeeded(driver.endResult)
    ensures forall k :: 0 <= k < |run.calls| && run.calls[k].CmdCopyBuffer? ==>
      run.calls[k] == CmdCopyBuffer(source, dest, [CopyRegion(source, dest)])
    ensures forall k :: 0 <= k < |run.calls| && run.calls[k].BeginCommandBuffer? ==>
      run.calls[k].flags == COMMAND_BUFFER_USAGE_ONE_TIME_SUBMIT
    ensures forall k :: 0 <= k < |run.calls| && run.calls[k].QueueSubmit? ==>
      run.calls[k] == QueueSubmit(GraphicsQueue, 0, 1, 0, None)
  {
    var allocate := [AllocateCommandBuffers(Primary, 1)];
    if !Succeeded(driver.allocateResult) then CopyRun(allocate, Some(VulkanError))
    else
      var begun := allocate + [BeginCommandBuffer(COMMAND_BUFFER_USAGE_ONE_TIME_SUBMIT)];
      if !Succeeded(driver.beginResult) then CopyRun(begun, Some(VulkanError))
      else
        var ended := begun + [CmdCopyBuffer(source, dest, [CopyRegion(source, dest)]), EndCommandBuffer];
        assert ended[2].CmdCopyBuffer?;
        if !Succeeded(driver.endResult) then CopyRun(ended, Some(VulkanError))
        else
          var submitted := ended + [QueueSubmit(GraphicsQueue, 0, 1, 0, None)];
          assert submitted[2].CmdCopyBuffer? && submitted[4].QueueSubmit?;
          CopyRun(submitted, Check(driver.submitResult))
  }

  /** What executing one copy region does to the destination's bytes. */
  function ApplyCopy(src: seq<bv8>, dst: seq<bv8>, region: BufferCopy): (r: seq<bv8>)
    requires region.srcOffset + region.size <= |src|
    requires region.dstOffset + region.size <= |dst|
    ensures |r| == |dst|
    ensures forall k :: region.dstOffset <= k < region.dstOffset + region.size
                ==> r[k] == src[region.srcOffset + (k - region.dstOffset)]
    ensures forall k :: 0 <= k < |dst| && !(region.dstOffset <= k < region.dstOffset + region.size)
                ==> r[k] == dst[k]
  {
    dst[..region.dstOffset]
      + src[region.srcOffset..region.srcOffset + region.size]
      + dst[region.dstOffset + region.size..]
  }

  /** Executing the copy `copy_from` records moves the common prefix of the two
      buffers and leaves the rest of the destination as it was; when the
      destination is at least as large, it then starts with the whole source. */
  lemma CopyFromEffect(source: Buffer, dest: Buffer, src: seq<bv8>, dst: seq<bv8>)
    requires |src| == source.size && |dst| == dest.size
    ensures var n := CopyRegion(source, dest).size;
      && n <= |src| && n <= |dst|
      && ApplyCopy(src, dst, CopyRegion(source, dest))[..n] == src[..n]
      && ApplyCopy(src, dst, CopyRegion(source, dest))[n..] == dst[n..]
    ensures source.size <= dest.size ==>
      ApplyCopy(src, dst, CopyRegion(source, dest))[..|src|] == src
    ensures source.size == dest.size ==> ApplyCopy(src, dst, CopyRegion(source, dest)) == src
  {
  }
}
