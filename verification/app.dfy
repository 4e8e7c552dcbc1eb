/** The application builder and the event dispatch of its run loop
    (src/app.rs). Window creation, logging set-up and the event loop itself
    are not part of this model; one call of `HandleEvent` is one call of the
    loop's closure. */
module Application {
  import opened Wrappers
  import opened Render
  import opened Cache
  import opened Renderer

  const DEFAULT_TITLE: string := "Paper Application"

  /** Window settings gathered before `run`. */
  datatype App = App(size: Option<(U32, U32)>, title: string)

  /** `App::new`: no requested size, the default title. */
  function NewApp(): (a: App)
    ensures a.size == None && a.title == DEFAULT_TITLE
  {
    App(None, DEFAULT_TITLE)
  }

  /** `App::window_size`: request an inner size; the title is kept. */
  function WindowSize(a: App, width: U32, height: U32): (r: App)
    ensures r.size == Some((width, height)) && r.title == a.title
  {
    a.(size := Some((width, height)))
  }

  /** `App::title`: replace the title; the requested size is kept. */
  function Title(a: App, title: string): (r: App)
    ensures r.title == title && r.size == a.size
  {
    a.(title := title)
  }

  /** `winit::event_loop::ControlFlow` (a timed wait is not modelled). */
  datatype ControlFlow = Poll | Wait | Exit

  datatype WindowEvent =
    | CloseRequested
    | Resized(width: U32, height: U32)
    | ScaleFactorChanged(newWidth: U32, newHeight: U32)
    | OtherWindowEvent

  datatype Event =
    | RedrawRequested
    | MainEventsCleared
    | Window(event: WindowEvent)
    | OtherEvent

  /** What the loop does when rendering a frame failed. */
  datatype ErrorAction = RecreateSwapchain | ExitLoop | LogOnly

  /** A lost surface is rebuilt, running out of GPU memory ends the loop,
      and any other error is only logged: three distinct reactions. */
  function OnRenderError(e: SurfaceError): (a: ErrorAction)
    ensures a == RecreateSwapchain <==> e == Lost
    ensures a == ExitLoop <==> e == OutOfMemory
    ensures a == LogOnly <==> e != Lost && e != OutOfMemory
  {
    match e
    case Lost => RecreateSwapchain
    case OutOfMemory => ExitLoop
    case _ => LogOnly
  }

  /** One call of the run loop's closure. `frame` is the frame the
      application's `State::draw` filled for a redraw, and `acquired` the
      surface's answer when that frame asks for an image. Returns the new
      control flow, whether a redraw was requested of the window, and the
      error that was logged, if any. */
  method HandleEvent(renderer: Renderer, event: Event, frame: Frame, acquired: Result<Handle, SurfaceError>,
                     controlFlow: ControlFlow)
    returns (flow: ControlFlow, requestRedraw: bool, logged: Option<SurfaceError>)
    requires renderer.Valid()
    modifies renderer, renderer.swapchain, renderer.instance
    ensures renderer.Valid()
    ensures requestRedraw <==> event == MainEventsCleared
    ensures event == RedrawRequested && acquired.Ok? ==>
      flow == controlFlow && logged == None &&
      renderer.State() == SyncAll(old(renderer.State()), frame.renderables) &&
      renderer.textures == old(renderer.textures) && unchanged(renderer.swapchain)
    ensures event == RedrawRequested && acquired == Err(Lost) ==>
      flow == controlFlow && logged == None &&
      renderer.swapchain.desc == old(renderer.swapchain.desc) &&
      renderer.swapchain.swapchain == old(renderer.instance.next) &&
      renderer.textures == old(renderer.textures) &&
      renderer.primaryUniforms == old(renderer.primaryUniforms) &&
      renderer.instance.buffers == old(renderer.instance.buffers) &&
      renderer.instance.bindGroups == old(renderer.instance.bindGroups)
    ensures event == RedrawRequested && acquired == Err(OutOfMemory) ==>
      flow == Exit && logged == Some(OutOfMemory) &&
      unchanged(renderer, renderer.instance, renderer.swapchain)
    ensures event == RedrawRequested && acquired.Err? && acquired.error != Lost && acquired.error != OutOfMemory ==>
      flow == controlFlow && logged == Some(acquired.error) &&
      unchanged(renderer, renderer.instance, renderer.swapchain)
    ensures event == Window(CloseRequested) ==>
      flow == Exit && logged == None && unchanged(renderer, renderer.instance, renderer.swapchain)
    ensures event.Window? && (event.event.Resized? || event.event.ScaleFactorChanged?) ==>
      var (w, h) := if event.event.Resized? then (event.event.width, event.event.height)
                    else (event.event.newWidth, event.event.newHeight);
      flow == controlFlow && logged == None &&
      renderer.swapchain.desc == old(renderer.swapchain.desc).(width := w, height := h) &&
      TexturesFor(renderer.textures, renderer.swapchain.desc.format, w, h) &&
      renderer.primaryUniforms == old(renderer.primaryUniforms) &&
      renderer.instance.buffers == old(renderer.instance.buffers) &&
      renderer.instance.bindGroups == old(renderer.instance.bindGroups)
    ensures event == MainEventsCleared || event == OtherEvent || event == Window(OtherWindowEvent) ==>
      flow == controlFlow && logged == None && unchanged(renderer, renderer.instance, renderer.swapchain)
  {
    flow, requestRedraw, logged := controlFlow, false, None;
    match event
    case RedrawRequested =>
      var result := renderer.Render(frame, acquired);
      if result.Err? {
        match OnRenderError(result.error) {
          case RecreateSwapchain =>
            renderer.Recreate();
          case ExitLoop =>
            logged := Some(result.error);
            flow := Exit;
          case LogOnly =>
            logged := Some(result.error);
        }
      }
    case MainEventsCleared =>
      requestRedraw := true;
    case Window(windowEvent) =>
      match windowEvent {
        case CloseRequested =>
          flow := Exit;
        case Resized(width, height) =>
          renderer.Resize(width, height);
        case ScaleFactorChanged(width, height) =>
          renderer.Resize(width, height);
        case OtherWindowEvent =>
      }
    case OtherEvent =>
  }
}
