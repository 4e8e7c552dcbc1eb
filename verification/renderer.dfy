/** The frame a client fills, the render targets, and the renderer with its
    two-pass submission (src/renderer.rs). */
module Renderer {
  import opened Wrappers
  import opened Render
  import opened Cache

  /** Bit pattern of the `f32` value 1.0. */
  const ONE_F32: Word := 0x3F80_0000

  /** An RGBA clear colour, four `f32` bit patterns. */
  type Color = c: seq<Word> | |c| == 4 witness [0, 0, 0, 0]

  /** `scissor::Config`: shape-generation settings, handed only to the shape
      generator. */
  datatype Config = Config(resolution: Word)

  /** The draw requests of one frame, in the order they were made. */
  class Frame {
    const aspect: Word
    var config: Config
    var clearColor: Color
    var renderables: seq<Renderable>

    /** `Frame::new`: no renderables, clear colour opaque white;
        `defaultConfig` is the shape library's `Config::default()`. */
    constructor (aspect: Word, defaultConfig: Config)
      ensures this.aspect == aspect && config == defaultConfig
      ensures clearColor == [ONE_F32, ONE_F32, ONE_F32, ONE_F32]
      ensures renderables == []
    {
      this.aspect := aspect;
      config := defaultConfig;
      clearColor := [ONE_F32, ONE_F32, ONE_F32, ONE_F32];
      renderables := [];
    }

    /** Queue a prepared mesh; `viewProj` is the camera's `view_proj`, taken
        at this frame's aspect ratio. */
    method DrawUi(mesh: Mesh, transform: Mat4, viewProj: Word -> Mat4)
      modifies this`renderables
      ensures renderables == old(renderables) + [Ui(mesh, transform, viewProj(aspect))]
    {
      renderables := renderables + [Ui(mesh, transform, viewProj(aspect))];
    }

    /** Queue a shape; `generate` is the shape's mesh generator, run with this
        frame's configuration. */
    method DrawShape(generate: Config -> Mesh, transform: Mat4, viewProj: Word -> Mat4)
      modifies this`renderables
      ensures renderables == old(renderables) + [Ui(generate(config), transform, viewProj(aspect))]
    {
      renderables := renderables + [Ui(generate(config), transform, viewProj(aspect))];
    }
  }

  /** Multisample count of both render textures. */
  const SAMPLE_COUNT: nat := 8

  datatype TextureView = TextureView(texture: Handle, format: TextureFormat, sampleCount: nat, width: U32, height: U32)

  /** The multisampled colour target and its depth buffer. */
  datatype RenderTextures = RenderTextures(primaryImage: TextureView, primaryDepth: TextureView)

  /** Both targets are `width` by `height`; the colour target has `format`. */
  ghost predicate TexturesFor(t: RenderTextures, format: TextureFormat, width: U32, height: U32)
  {
    t.primaryImage.format == format && t.primaryImage.width == width && t.primaryImage.height == height &&
    t.primaryDepth.format == Depth24Plus && t.primaryDepth.width == width && t.primaryDepth.height == height &&
    t.primaryImage.sampleCount == SAMPLE_COUNT && t.primaryDepth.sampleCount == SAMPLE_COUNT
  }

  /** `RenderTextures::new`: two fresh textures of the given size; no buffer
      or bind group is touched. */
  method NewRenderTextures(instance: RenderInstance, format: TextureFormat, width: U32, height: U32)
    returns (t: RenderTextures)
    modifies instance
    ensures TexturesFor(t, format, width, height)
    ensures instance.State() == old(instance.State()).(next := instance.next)
    ensures instance.next == old(instance.next) + 2
  {
    var image := instance.CreateObject();
    var depth := instance.CreateObject();
    t := RenderTextures(
      TextureView(image, format, SAMPLE_COUNT, width, height),
      TextureView(depth, Depth24Plus, SAMPLE_COUNT, width, height));
  }

  /** The recorded primary pass: colour target resolved into the acquired
      image, depth target, clear colour, pipeline, and the draws in order. */
  datatype RenderPass = RenderPass(
    colorView: Handle,
    resolveTarget: Handle,
    depthView: Handle,
    clearColor: Color,
    pipeline: Handle,
    draws: seq<DrawIndexed>)

  class Renderer {
    const instance: RenderInstance
    const swapchain: Swapchain
    var textures: RenderTextures
    const pipeline: Handle
    /** One slot per draw position ever seen. */
    var primaryUniforms: seq<PrimaryData>

    ghost function State(): (c: CacheState)
      reads this, instance
    {
      CacheState(primaryUniforms, instance.State())
    }

    ghost predicate Valid()
      reads this, instance, swapchain
    {
      CacheValid(State()) &&
      TexturesFor(textures, swapchain.desc.format, swapchain.desc.width, swapchain.desc.height)
    }

    /** `Renderer::new`: an empty cache, and render textures sized to the swap
        chain. */
    constructor (instance: RenderInstance, swapchain: Swapchain)
      requires instance.State().Valid()
      modifies instance
      ensures Valid() && this.instance == instance && this.swapchain == swapchain
      ensures primaryUniforms == []
      ensures TexturesFor(textures, swapchain.Format(), swapchain.Width(), swapchain.Height())
      ensures instance.buffers == old(instance.buffers) && instance.bindGroups == old(instance.bindGroups)
    {
      var t := NewRenderTextures(instance, swapchain.Format(), swapchain.Width(), swapchain.Height());
      var p := instance.CreateObject();
      this.instance := instance;
      this.swapchain := swapchain;
      textures := t;
      pipeline := p;
      primaryUniforms := [];
    }

    /** Render one frame. `acquired` is the surface's answer to the request
        for the next image. If it is an error, that error is returned and
        nothing changes. Otherwise the sync pass brings the cache to
        `SyncAll` of the frame, and the returned pass holds one draw per
        renderable, in order, each showing that renderable's data. */
    method Render(frame: Frame, acquired: Result<Handle, SurfaceError>) returns (r: Result<RenderPass, SurfaceError>)
      requires Valid()
      modifies this, instance
      ensures Valid() && textures == old(textures)
      ensures acquired.Err? ==> r == Err(acquired.error) && unchanged(this, instance)
      ensures acquired.Ok? ==> State() == SyncAll(old(State()), frame.renderables)
      ensures acquired.Ok? ==> r.Ok?
      ensures acquired.Ok? ==> r.value == RenderPass(textures.primaryImage.texture, acquired.value,
        textures.primaryDepth.texture, frame.clearColor, pipeline, r.value.draws)
      ensures acquired.Ok? ==> |r.value.draws| == |frame.renderables| <= |primaryUniforms|
      ensures acquired.Ok? ==> forall k :: 0 <= k < |frame.renderables| ==>
        r.value.draws[k] == DrawOf(primaryUniforms[k]) &&
        DrawShows(r.value.draws[k], instance.State(), frame.renderables[k])
    {
      var swapchainFrame := swapchain.CurrentFrame(acquired);
      if swapchainFrame.Err? {
        return Err(swapchainFrame.error);
      }
      var rs := frame.renderables;

      // Every upload of the frame precedes every draw.
      SyncPass(rs);
      var draws := DrawPass(|rs|);

      forall k | 0 <= k < |rs|
        ensures DrawShows(draws[k], instance.State(), rs[k])
      {
        SyncedDrawShows(old(State()), rs, k);
      }
      r := Ok(RenderPass(textures.primaryImage.texture, swapchainFrame.value.output,
                         textures.primaryDepth.texture, frame.clearColor, pipeline, draws));
    }

    /** The sync pass: positions `0 .. |rs|` in order. */
    method SyncPass(rs: seq<Renderable>)
      requires CacheValid(State())
      modifies this`primaryUniforms, instance
      ensures State() == SyncAll(old(State()), rs)
    {
      var idx := 0;
      while idx < |rs|
        invariant 0 <= idx <= |rs|
        invariant State() == SyncAll(old(State()), rs[..idx])
      {
        SyncAllStep(old(State()), rs, idx);
        SyncPosition(idx, rs[idx]);
        idx := idx + 1;
      }
      assert rs[..idx] == rs;
    }

    /** The draw pass over the first `n` positions: bind slot `k`'s bind
        group, vertex buffer and index buffer and draw `|indices| as u32`
        of its indices, for `k` in order. */
    method DrawPass(n: nat) returns (draws: seq<DrawIndexed>)
      requires n <= |primaryUniforms|
      ensures |draws| == n
      ensures forall k :: 0 <= k < n ==> draws[k] == DrawOf(primaryUniforms[k])
    {
      draws := [];
      var idx := 0;
      while idx < n
        invariant 0 <= idx <= n
        invariant |draws| == idx
        invariant forall k :: 0 <= k < idx ==> draws[k] == DrawOf(primaryUniforms[k])
      {
        var data := primaryUniforms[idx];
        draws := draws + [DrawIndexed(data.uniformBindGroup, data.vertexBuffer, data.indexBuffer, data.indices)];
        idx := idx + 1;
      }
    }

    /** Position `idx` of the sync pass: update slot `idx` when the cache
        has it, else append a new slot. */
    method SyncPosition(idx: nat, renderable: Renderable)
      requires CacheValid(State()) && idx <= |primaryUniforms|
      modifies this`primaryUniforms, instance
      ensures State() == SyncSlot(old(State()), idx, renderable)
    {
      ghost var before := State();
      if idx < |primaryUniforms| {
        var data := primaryUniforms[idx];
        assert SlotValid(data, instance.State());
        instance.Write(data.uniformBuffer, TRANSFORM_OFFSET, renderable.transform);
        instance.Write(data.uniformBuffer, CAMERA_OFFSET, renderable.camera);
        assert instance.State() == WriteUniforms(before.device, data, renderable);

        var indexData := renderable.mesh.indices;
        if data.indexBufferSize == ByteLen(indexData) {
          instance.Write(data.indexBuffer, 0, indexData);
        } else {
          var indexBuffer := instance.CreateBufferInit(indexData);
          instance.Drop(data.indexBuffer);
          data := data.(indexBuffer := indexBuffer, indexBufferSize := ByteLen(indexData),
                        indices := AsU32(|renderable.mesh.indices|));
        }

        var vertexData := VertexData(renderable.mesh.vertices);
        if data.vertexBufferSize == ByteLen(vertexData) {
          instance.Write(data.vertexBuffer, 0, vertexData);
        } else {
          var vertexBuffer := instance.CreateBufferInit(vertexData);
          instance.Drop(data.vertexBuffer);
          data := data.(vertexBuffer := vertexBuffer, vertexBufferSize := ByteLen(vertexData));
        }
        primaryUniforms := primaryUniforms[idx := data];
      } else {
        var uniformBuffer := instance.CreateBufferInit(renderable.transform + renderable.camera);
        var uniformBindGroup := instance.CreateUniformBindGroup(uniformBuffer);
        var vertexData := VertexData(renderable.mesh.vertices);
        var vertexBuffer := instance.CreateBufferInit(vertexData);
        var indexData := renderable.mesh.indices;
        var indexBuffer := instance.CreateBufferInit(indexData);
        primaryUniforms := primaryUniforms + [PrimaryData(
          uniformBuffer, uniformBindGroup, vertexBuffer, ByteLen(vertexData),
          indexBuffer, ByteLen(indexData), AsU32(|renderable.mesh.indices|))];
      }
    }

    /** Resize the swap chain and rebuild the render textures at the new
        size; the cache and its buffers are untouched. */
    method Resize(width: U32, height: U32)
      requires Valid()
      modifies this, swapchain, instance
      ensures Valid()
      ensures swapchain.desc == old(swapchain.desc).(width := width, height := height)
      ensures TexturesFor(textures, swapchain.Format(), width, height)
      ensures primaryUniforms == old(primaryUniforms)
      ensures instance.buffers == old(instance.buffers) && instance.bindGroups == old(instance.bindGroups)
    {
      swapchain.Resize(instance, width, height);
      textures := NewRenderTextures(instance, swapchain.Format(), width, height);
    }

    /** Rebuild the lost swap chain from its unchanged descriptor; textures,
        cache and buffers stay as they were. */
    method Recreate()
      requires Valid()
      modifies swapchain, instance
      ensures Valid()
      ensures swapchain.desc == old(swapchain.desc) && swapchain.swapchain == old(instance.next)
      ensures textures == old(textures) && primaryUniforms == old(primaryUniforms)
      ensures instance.buffers == old(instance.buffers) && instance.bindGroups == old(instance.bindGroups)
    {
      swapchain.Recreate(instance);
    }
  }
}
