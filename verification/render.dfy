/** The device/queue pair and the swap chain (src/render.rs).

    Every GPU object is an opaque `Handle` drawn from a counter kept by the
    device. Buffer memory is a sequence of 32-bit words (an `f32` bit pattern
    or a `u32`), so a buffer of `n` words is `4 * n` bytes long. */
module Render {
  import opened Wrappers

  /** Identity of a GPU object: buffer, bind group, texture or swap chain. */
  type Handle = nat

  const U32_LIMIT: int := 0x1_0000_0000

  type U32 = x: int | 0 <= x < U32_LIMIT

  /** One 32-bit word of buffer memory. */
  type Word = int

  /** Rust's `n as u32`: keeps the low 32 bits. */
  function AsU32(n: nat): (r: U32)
    ensures n < U32_LIMIT ==> r == n
  {
    n % U32_LIMIT
  }

  /** Length in bytes of a word sequence. */
  function ByteLen(words: seq<Word>): (n: nat)
  {
    4 * |words|
  }

  /** `wgpu::SwapChainError`: why the next presentable image could not be had. */
  datatype SurfaceError = Timeout | Outdated | Lost | OutOfMemory

  /** The abstract state of the device and its queue: live buffers with their
      contents, live bind groups with the uniform buffer each one binds, and
      the next unused handle. */
  datatype Device = Device(buffers: map<Handle, seq<Word>>, bindGroups: map<Handle, Handle>, next: nat)
  {
    /** Every live object was allocated before `next`, so `next` is fresh. */
    ghost predicate Valid()
    {
      (forall h :: h in buffers ==> h < next) && (forall h :: h in bindGroups ==> h < next)
    }
  }

  /** `buf` with `data` written over the words starting at `at`. */
  function Overwrite(buf: seq<Word>, at: nat, data: seq<Word>): (r: seq<Word>)
    requires at + |data| <= |buf|
    ensures |r| == |buf|
    ensures r[at..at + |data|] == data
    ensures r[..at] == buf[..at] && r[at + |data|..] == buf[at + |data|..]
  {
    buf[..at] + data + buf[at + |data|..]
  }

  /** `device.create_buffer_init`: a fresh buffer that holds `contents`. */
  function CreateBuffer(d: Device, contents: seq<Word>): (r: (Device, Handle))
  {
    (d.(buffers := d.buffers[d.next := contents], next := d.next + 1), d.next)
  }

  /** `device.create_bind_group` over one uniform buffer. */
  function CreateBindGroup(d: Device, uniform: Handle): (r: (Device, Handle))
  {
    (d.(bindGroups := d.bindGroups[d.next := uniform], next := d.next + 1), d.next)
  }

  /** Any other object the device creates (swap chain, texture, pipeline). */
  function Allocate(d: Device): (r: (Device, Handle))
  {
    (d.(next := d.next + 1), d.next)
  }

  /** `queue.write_buffer(buffer, offset, data)`, `offset` in bytes. */
  function WriteBuffer(d: Device, h: Handle, offset: nat, data: seq<Word>): (d': Device)
    requires h in d.buffers && offset % 4 == 0 && offset / 4 + |data| <= |d.buffers[h]|
  {
    d.(buffers := d.buffers[h := Overwrite(d.buffers[h], offset / 4, data)])
  }

  /** Dropping the last owner of a buffer releases it. */
  function DropBuffer(d: Device, h: Handle): (d': Device)
  {
    d.(buffers := d.buffers - {h})
  }

  /** `RenderInstance`: the shared device and queue. Device creation and
      adapter selection are not part of this model. */
  class RenderInstance {
    var buffers: map<Handle, seq<Word>>
    var bindGroups: map<Handle, Handle>
    var next: nat

    function State(): (d: Device)
      reads this
    {
      Device(buffers, bindGroups, next)
    }

    method CreateBufferInit(contents: seq<Word>) returns (h: Handle)
      modifies this
      ensures (State(), h) == CreateBuffer(old(State()), contents)
    {
      h := next;
      buffers := buffers[h := contents];
      next := next + 1;
    }

    method CreateUniformBindGroup(uniform: Handle) returns (h: Handle)
      modifies this
      ensures (State(), h) == CreateBindGroup(old(State()), uniform)
    {
      h := next;
      bindGroups := bindGroups[h := uniform];
      next := next + 1;
    }

    method CreateObject() returns (h: Handle)
      modifies this
      ensures (State(), h) == Allocate(old(State()))
    {
      h := next;
      next := next + 1;
    }

    method Write(h: Handle, offset: nat, data: seq<Word>)
      requires h in buffers && offset % 4 == 0 && offset / 4 + |data| <= |buffers[h]|
      modifies this
      ensures State() == WriteBuffer(old(State()), h, offset, data)
    {
      buffers := buffers[h := Overwrite(buffers[h], offset / 4, data)];
    }

    method Drop(h: Handle)
      modifies this
      ensures State() == DropBuffer(old(State()), h)
    {
      buffers := buffers - {h};
    }
  }

  datatype TextureFormat = Bgra8Unorm | Bgra8UnormSrgb | Rgba8Unorm | Rgba8UnormSrgb | Depth24Plus

  datatype TextureUsage = CopySrc | CopyDst | Sampled | Storage | RenderAttachment

  datatype PresentMode = Immediate | Mailbox | Fifo

  /** `wgpu::SwapChainDescriptor`: the configuration the surface is built from. */
  datatype SwapChainDescriptor = SwapChainDescriptor(
    usage: set<TextureUsage>,
    format: TextureFormat,
    width: U32,
    height: U32,
    presentMode: PresentMode)

  /** The image acquired for one frame, with the size it was configured at. */
  datatype SwapChainFrame = SwapChainFrame(output: Handle, width: U32, height: U32)

  class Swapchain {
    const surface: Handle
    var desc: SwapChainDescriptor
    var swapchain: Handle

    /** The last step of `RenderInstance::new`: build the swap chain for
        `surface` from `desc`. */
    constructor (instance: RenderInstance, surface: Handle, desc: SwapChainDescriptor)
      modifies instance
      ensures this.surface == surface && this.desc == desc
      ensures (instance.State(), swapchain) == Allocate(old(instance.State()))
    {
      this.surface := surface;
      this.desc := desc;
      new;
      swapchain := instance.CreateObject();
    }

    /** Acquire the next image; `driver` is what the surface answers. A
        successful frame has the configured size; a failure is passed on
        unchanged; the descriptor is untouched either way. The frame's
        `suboptimal` flag is not modelled, and its `width` and `height` are
        not fields of `wgpu::SwapChainFrame`: they record the descriptor the
        image was acquired under. */
    method CurrentFrame(driver: Result<Handle, SurfaceError>) returns (r: Result<SwapChainFrame, SurfaceError>)
      ensures driver.Err? ==> r == Err(driver.error)
      ensures driver.Ok? ==> r.Ok? && r.value.output == driver.value
      ensures driver.Ok? ==> r.value.width == desc.width && r.value.height == desc.height
    {
      match driver
      case Ok(image) => r := Ok(SwapChainFrame(image, desc.width, desc.height));
      case Err(e) => r := Err(e);
    }

    /** Store the new size and rebuild the swap chain from the descriptor. */
    method Resize(instance: RenderInstance, width: U32, height: U32)
      modifies this, instance
      ensures desc == old(desc).(width := width, height := height)
      ensures Width() == width && Height() == height && Format() == old(Format())
      ensures desc.usage == old(desc.usage) && desc.presentMode == old(desc.presentMode)
      ensures (instance.State(), swapchain) == Allocate(old(instance.State()))
    {
      desc := desc.(width := width);
      desc := desc.(height := height);
      swapchain := instance.CreateObject();
    }

    /** Rebuild the swap chain (after the surface was lost) from the
        unchanged descriptor. */
    method Recreate(instance: RenderInstance)
      modifies this, instance
      ensures desc == old(desc)
      ensures (instance.State(), swapchain) == Allocate(old(instance.State()))
    {
      swapchain := instance.CreateObject();
    }

    function Format(): (f: TextureFormat)
      reads this
    {
      desc.format
    }

    function Width(): (w: U32)
      reads this
    {
      desc.width
    }

    function Height(): (h: U32)
      reads this
    {
      desc.height
    }
  }
}
