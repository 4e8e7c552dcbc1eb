# Paper renderer: cache sync, frame submission and event dispatch

This project models the core of the `paper` 2D renderer: a thin layer over
`wgpu` with a `winit` run loop.

- **Frame.** A client fills a `Frame` with renderables: a mesh, a model
  transform, and the camera's view-projection matrix.
- **Renderer.** `Renderer::render` keeps one `PrimaryData` slot per draw
  position. Each slot holds a uniform buffer and its bind group, a vertex
  buffer and an index buffer.
- **Sync pass.** For each renderable, in order:
  - if slot `i` exists, the two matrices are written into its uniform
    buffer, and each geometry buffer is overwritten in place when its byte
    length is unchanged, or replaced by a fresh buffer otherwise;
  - if slot `i` does not exist, a new slot is appended.
- **Draw pass.** One indexed draw per renderable, binding slot `i`.
- **Swap chain.** It can be resized or recreated. The application's event
  closure routes render errors and window events to the renderer.

GPU objects are opaque handles drawn from a counter on the device. Buffer
memory is a sequence of 32-bit words, so a buffer of `n` words is `4n` bytes:

- a matrix is 16 words;
- a vertex is 7 words (the 28-byte stride);
- an index is one `u32` word.

The device state is a value, `Render.Device`, and `Render.RenderInstance` is
the mutable object whose methods change it.

The sync pass is specified by functions over (slots, device):

- `Cache.SyncSlot` is one position;
- `Cache.SyncAll` is a whole frame.

The imperative `Renderer.Renderer.Render` is proved against them. The two
`for` loops of the source are the methods `SyncPass` and `DrawPass`; the body
of the first loop, update or append one position, is the method
`SyncPosition`. The lemmas in `Cache` then say what one frame does to
the cache.

Modules:

- `Wrappers`: `Option` and `Result`.
- `Render` (src/render.rs): handles, the device, buffer writes, and the
  `Swapchain` class. Its reads `Format`, `Width` and `Height` return the
  descriptor's fields; `Swapchain.Resize` states what they return after a
  resize.
- `Cache` (the data of src/renderer.rs):
  - vertices, meshes and renderables;
  - `PrimaryData`;
  - the specification of the sync pass and its lemmas;
  - the draw command.
- `Renderer` (src/renderer.rs): the `Frame` and `Renderer` classes, and the
  render textures.
- `Application` (src/app.rs): the `App` builder and the run-loop closure.

## Model

| member | source | states |
|---|---|---|
| Render.AsU32 | src/renderer.rs:332 | `n as u32` keeps every value below 2^32 unchanged (the result is always a `u32`) |
| Render.Overwrite | src/renderer.rs:304-313 | a buffer write keeps the buffer's length, puts the data at the offset and leaves the words before and after it untouched |
| Render.RenderInstance.CreateBufferInit | src/renderer.rs:322-328 | `create_buffer_init` returns the next fresh handle, which now holds exactly the given contents |
| Render.RenderInstance.CreateUniformBindGroup | src/renderer.rs:362-372 | the bind group is a fresh handle that binds the given uniform buffer |
| Render.RenderInstance.CreateObject | src/render.rs:76 | any other device object gets the next fresh handle, and no buffer or bind group changes |
| Render.RenderInstance.Write | src/renderer.rs:317-320 | `queue.write_buffer` overwrites the words at the byte offset; only that buffer changes |
| Render.RenderInstance.Drop | src/renderer.rs:330 | reassigning a slot's buffer releases the old buffer, and nothing else changes |
| Render.Swapchain.constructor | src/render.rs:36-55 | the swap chain is built for the surface from the descriptor |
| Render.Swapchain.CurrentFrame | src/render.rs:67-70 | an acquire error is passed through unchanged; a success gives the acquired image at the configured width and height; the descriptor is not changed (no `modifies`) |
| Render.Swapchain.Resize | src/render.rs:72-77 | the descriptor becomes the old one with the new width and height; `Format()` is kept and `Width()`/`Height()` return the new size (src/render.rs:84-97); usage and present mode are kept; the swap chain handle is fresh |
| Render.Swapchain.Recreate | src/render.rs:79-82 | the descriptor is entirely unchanged, and only the swap chain handle is replaced by a fresh one |
| Cache.VertexData | src/renderer.rs:335 | `cast_slice(&mesh.vertices)` is 28 bytes per vertex (src/primary_pipeline.rs:47), and vertex `k` sits at words `7k .. 7k+7` as position then colour |
| Cache.WriteUniforms | src/renderer.rs:304-313 | writing the transform at byte 0 and the camera at byte 64 leaves the uniform buffer holding exactly transform followed by camera, with no other buffer changed |
| Cache.SyncIndex | src/renderer.rs:315-333 | the index buffer keeps its handle exactly when the byte length is unchanged (written in place); otherwise it gets a fresh buffer, the old one is no longer alive (dropped on reassignment, src/renderer.rs:330) and the size and count are updated; afterwards the buffer holds the mesh's indices and no other buffer changes |
| Cache.SyncVertex | src/renderer.rs:335-352 | the same rule for the vertex buffer: kept exactly when the byte length is unchanged, otherwise a fresh buffer and the old one is no longer alive; it ends up holding the mesh's vertex data |
| Cache.NewSlot | src/renderer.rs:353-402 | a new slot gets four fresh objects (uniform buffer, bind group, vertex and index buffers), holds the renderable's matrices, vertices and indices, and leaves every existing buffer alone |
| Cache.UpdateSlot | src/renderer.rs:303-352 | an existing slot ends up holding the renderable's data; its uniform buffer and bind group keep their identity; a geometry buffer is replaced exactly when its size changes, and a replaced one is released; only new buffers appear; equal sizes allocate nothing |
| Cache.UpdateAt | src/renderer.rs:303-352 | updating position `i` keeps the cache valid and its length, releases the geometry buffers it replaced, and leaves every other slot and its buffers unchanged |
| Cache.Append | src/renderer.rs:353-402 | appending keeps the earlier slots and their buffers, and adds one slot that holds the renderable's data |
| Cache.OtherSlotKept | src/renderer.rs:303-402 | a slot that shares no buffer with those an operation touched keeps its buffers, its bind group and its validity |
| Cache.SyncSlot | src/renderer.rs:303-402 | one position keeps the cache valid (live buffers of the recorded lengths, `indices` = (index bytes / 4) `as u32`, no shared buffers); the cache grows only when position `i` is new, and then by exactly one |
| Cache.SyncSlotFacts | src/renderer.rs:303-402 | after one position, slot `i` holds exactly the renderable's data; other slots and their buffers are unchanged; an existing slot is reused as the source's size rule says; matching sizes change no slot and draw no new handle |
| Cache.SyncSlotReleases | src/renderer.rs:315-352 | syncing an existing slot releases each geometry buffer whose byte length changed: the old handle is no longer a live buffer |
| Cache.SyncSlotNoRealloc | src/renderer.rs:315-352 | syncing an existing slot to a mesh of the recorded byte lengths changes no slot record and draws no handle |
| Cache.SameSlotWhenSizesMatch | src/renderer.rs:315-352 | a slot synced to a mesh of the sizes it records stays the identical record |
| Cache.SyncAll | src/renderer.rs:294-408 | the sync pass keeps the cache valid, and its length becomes `max(old length, number of renderables)` |
| Cache.SyncAllStep | src/renderer.rs:296-406 | syncing the first `i+1` renderables is syncing the first `i` and then position `i` |
| Cache.SyncAllLastKeeps | src/renderer.rs:296-406 | the last position of a frame leaves every other slot's record, buffers and bind group as the earlier positions left them |
| Cache.SyncAllLastUploads | src/renderer.rs:303-402 | the last position of a frame ends holding that renderable's data |
| Cache.SyncAllLastReuses | src/renderer.rs:303-352 | the last position of a frame reuses the slot the cache had there, by the size rule |
| Cache.SyncAllLeavesTail | src/renderer.rs:294-408 | slots at positions the frame does not reach keep their record, their buffers and their bind group |
| Cache.SyncAllUploads | src/renderer.rs:303-402 | after the sync pass, every position holds exactly its renderable's data: both sizes, the `u32` index count, the transform and camera in the uniform buffer, the vertex data and the indices |
| Cache.SyncAllReuses | src/renderer.rs:303-352 | a pre-existing slot keeps its uniform buffer and bind group, and keeps each geometry buffer exactly when that byte length is unchanged |
| Cache.SyncAllNoRealloc | src/renderer.rs:315-352 | a frame whose byte lengths all match the cache changes no slot record and allocates no GPU object |
| Cache.SyncAllNoReallocStep | src/renderer.rs:315-352 | the last position of a frame whose byte lengths match the cache, after the earlier positions changed nothing, changes nothing either |
| Cache.OverwriteWhole | src/renderer.rs:317-320 | writing a buffer's own contents over it leaves it unchanged |
| Cache.SyncSlotSettled | src/renderer.rs:303-352 | syncing a position that already holds the renderable changes neither the cache nor the device |
| Cache.SyncAllSettled | src/renderer.rs:294-408 | a frame whose every position is already uploaded leaves cache and device as they were |
| Cache.SyncAllIdempotent | src/renderer.rs:294-408 | submitting the same frame twice leaves exactly the state the first submission left |
| Cache.SyncedDrawShows | src/renderer.rs:410-433 | because every upload precedes every draw, draw `k` binds buffers holding renderable `k`'s matrices, vertices and indices, and its index count is `|indices| as u32` (all of its indices when there are fewer than 2^32) |
| Cache.SecondFrameNoRealloc | src/renderer.rs:315-352 | a frame whose meshes have, position by position, the byte lengths of the previous frame's keeps every slot record (all buffer handles) and draws no new handle: nothing is reallocated |
| Cache.SyncAllGrowsByOne | src/renderer.rs:303-402 | a frame one longer than the cache, whose first positions match the cached sizes, appends exactly one slot and keeps every earlier slot's handles |
| Cache.SingleTriangle | src/renderer.rs:394-427 | one three-index mesh drawn into an empty cache gives one slot whose draw covers three indices |
| Renderer.Frame.constructor | src/renderer.rs:172-180 | a new frame has no renderables, clear colour `[1.0; 4]`, the default config and the given aspect |
| Renderer.Frame.DrawUi | src/renderer.rs:187-199 | appends exactly one renderable (mesh, transform, camera `view_proj` at the frame's aspect) and keeps the earlier ones |
| Renderer.Frame.DrawShape | src/renderer.rs:201-213 | appends exactly one renderable whose mesh is the shape generated with the frame's config, and keeps the earlier ones |
| Renderer.NewRenderTextures | src/renderer.rs:108-153 | both render textures are `width` by `height` with sample count 8; the colour target has the swap chain format and the depth target is `Depth24Plus`; no buffer or bind group changes |
| Renderer.Renderer.constructor | src/renderer.rs:240-254 | a new renderer has an empty slot cache and render textures sized to the swap chain's format, width and height; no buffer is created |
| Renderer.Renderer.Render | src/renderer.rs:256-436 | if acquiring the frame fails, that error is returned and nothing changes; otherwise the cache becomes `SyncAll` of the frame, and the pass resolves into the acquired image, clears to the frame's colour and uses the pipeline; there are exactly `n` draws, where draw `k` binds slot `k` and shows renderable `k` |
| Renderer.Renderer.SyncPass | src/renderer.rs:294-408 | the sync loop over the frame's positions leaves exactly the state `SyncAll` specifies |
| Renderer.Renderer.SyncPosition | src/renderer.rs:303-402 | the update-or-append body of the sync loop leaves exactly the state `SyncSlot` specifies |
| Renderer.Renderer.DrawPass | src/renderer.rs:410-427 | the draw loop issues exactly `n` draws in order; draw `k` binds slot `k`'s bind group, vertex buffer and index buffer, and draws `0..indices` |
| Renderer.Renderer.Resize | src/renderer.rs:443-447 | the swap chain descriptor and rebuilt textures are at the new size; the slot cache, the buffers and the bind groups are unchanged |
| Renderer.Renderer.Recreate | src/renderer.rs:449-452 | the descriptor, the textures, the slot cache and the buffers are unchanged; only the swap chain is rebuilt |
| Application.NewApp | src/app.rs:22-28 | no requested size, and the title "Paper Application" |
| Application.WindowSize | src/app.rs:30-34 | the size becomes `Some((w, h))` and the title is kept |
| Application.Title | src/app.rs:36-40 | the title is replaced and the size is kept |
| Application.OnRenderError | src/app.rs:72-81 | `Lost` recreates the swap chain, `OutOfMemory` exits the loop, and every other error is only logged (each as an if-and-only-if) |
| Application.HandleEvent | src/app.rs:66-102 | redraw: a successful render syncs the frame; `Lost` recreates with nothing else changed; `OutOfMemory` logs and exits; other errors are only logged. `MainEventsCleared` requests a redraw; `CloseRequested` exits; `Resized` and `ScaleFactorChanged` resize to the new inner size; anything else changes nothing |

## Left out

- Matrix and camera arithmetic (`OrthographicCamera::proj`/`view`/`view_proj`, src/transform.rs): `f32` and glam math. Matrices are opaque 16-word values, and `view_proj` is a function parameter of `DrawUi`/`DrawShape`.
- `Renderer::aspect` and `Frame::aspect` (a float division and an accessor): the aspect is an opaque word.
- Shape generation (`scissor`'s `Shape::generate`) and `Config::default()`: external library calls, taken as parameters.
- Pipeline construction (src/primary_pipeline.rs): only its vertex stride of 28 bytes is kept. The pipeline is a fresh handle.
- `RenderTextures::new` creates and views textures on the GPU. The model records only handle, format, sample count and size.
- The GPU semantics of clear, resolve, depth and `store` in the render pass: the pass only records its targets, clear colour, pipeline and draws. The depth clear value 1.0 is not recorded.
- Device calls never fail in the model: `create_buffer_init`, `create_bind_group`, `create_swap_chain`, `create_texture` and `write_buffer` always succeed. `wgpu` reports such failures (out of memory, a zero-sized swap chain or texture after `Resized(0, 0)`) by panicking or through its error callback, not through a return value these functions see, so e.g. `Renderer.Renderer.Resize(0, 0)` succeeds here.
- `queue.write_buffer` is staged until `submit`. The model applies each write at once, which is the same thing here because all writes of a frame precede its one submit.
- `RenderInstance::new` (adapter, device and surface creation): async foreign I/O. The swap chain part is the `Swapchain` constructor.
- `App::run`'s logger set-up, window building, `block_on` and the event loop itself: I/O. One call of the closure is one `HandleEvent`.
- Application.HandleEvent: the redraw's `Frame::new(renderer.aspect())` and `state.draw` are replaced by a given filled frame.
- Application.HandleEvent: `window.request_redraw()` is a boolean output.
- Application.HandleEvent: `log::error!` is modelled as the logged error value, without the message text.
- `ControlFlow::WaitUntil`: it is never set by this code.
- Render.Swapchain.CurrentFrame: the driver's answer is a parameter (acquisition is nondeterministic).
