/**
 * One render of a GL surface as a value: the checks on the props, the request handed to the shader-graph
 * pipeline, the notifications sent around it and the descriptors handed to the rendering backend.
 *
 * The pipeline (`build`, `fill`, `resolve`), the GL-node lookup in the children and the backend's pixel
 * ratio are not part of this model; they are parameters, total functions that may report failure.
 */
module SurfaceSpec {
  import opened Wrappers
  import opened Shaders

  type Children          // the `children` prop: the UI tree holding the GL node
  type Style
  type RestProps         // the props `render` does not destructure; passed through to the GL backend
  type Via               // the texture-unit naming convention in effect at the GL node
  type GLNodeDescriptor  // the shader-node graph carried by the GL node
  type Passes            // the draw passes of the resolved data
  type Vdom              // one content subtree to be rendered to a texture
  type Image
  type PipelineError     // whatever `build`, `fill` or `resolve` throws
  type ShaderCompileCallback
  type CompileError
  type CompileResult

  datatype Props = Props(
    width: real,
    height: real,
    pixelRatio: Option<real>,  // None when the prop is not given
    children: Children,
    style: Style,
    debug: bool,
    preload: bool,
    isOpaque: bool,
    visibleContent: bool,
    eventsThrough: bool,
    rest: RestProps)

  datatype Context = Context(width: real, height: real, pixelRatio: real)

  /** What the GL-node lookup finds: a falsy `childGLNode` is None. */
  datatype GLNodeLookup = GLNodeLookup(via: Via, childGLNode: Option<GLNodeDescriptor>)

  /**
   * The arguments of `build`. The decorator handed to `build` is `Decorate(_, surfaceId, renderToken)`:
   * the surface and the render's token are all it captures.
   */
  datatype BuildRequest = BuildRequest(
    node: GLNodeDescriptor,
    context: Context,
    preload: bool,
    via: Via,
    surfaceId: nat,
    renderToken: nat)

  datatype Data = Data(width: real, height: real, passes: Passes)

  /** What `resolve(fill(build(...)))` returns. */
  datatype Resolved = Resolved(data: Data, contentsVDOM: seq<Vdom>, imagesToPreload: seq<Image>)

  datatype Field = PixelRatio | Width | Height

  datatype SurfaceError =
    | NotStrictlyPositive(field: Field)  // a failed `invariantStrictPositive`
    | NoGLNode                           // no GL node among the children
    | Thrown(error: PipelineError)       // rethrown unchanged from the pipeline

  /** The arguments of `renderVcontainer`'s first parameter. */
  datatype ContainerProps = ContainerProps(
    width: real, height: real, style: Style, visibleContent: bool, eventsThrough: bool)

  /** The arguments of one `renderVcontent` call. */
  datatype ContentProps = ContentProps(
    width: real, height: real, index: nat, vdom: Vdom, visibleContent: bool)

  /** The descriptor handed to `renderVGL`. */
  datatype GLProps = GLProps(
    rest: RestProps,
    width: real,
    height: real,
    pixelRatio: real,
    data: Data,
    nbContentTextures: nat,
    imagesToPreload: seq<Image>,
    renderId: nat,
    isOpaque: bool,
    visibleContent: bool,
    eventsThrough: bool)

  /** Everything a successful render hands to the backend. */
  datatype Rendered = Rendered(container: ContainerProps, contents: seq<ContentProps>, gl: GLProps)

  /** The outcome of one render and the notifications it sent, in order. */
  datatype Step = Step(result: Result<Rendered, SurfaceError>, events: seq<Event>)

  /** A user callback wrapped together with its surface and the token of the render that wrapped it. */
  datatype Decorated = Decorated(original: ShaderCompileCallback, surface: nat, token: nat)

  /** A call that reaches the user's callback. */
  datatype Invocation = Invocation(callback: ShaderCompileCallback, error: CompileError, result: CompileResult)

  /** The pixel ratio in effect: the prop when it is truthy (given and non-zero), else the backend's. */
  function EffectivePixelRatio(props: Props, getPixelRatio: Props -> real): (r: real)
    ensures props.pixelRatio.Some? && props.pixelRatio.value != 0.0 ==> r == props.pixelRatio.value
    ensures props.pixelRatio.None? || props.pixelRatio.value == 0.0 ==> r == getPixelRatio(props)
  {
    match props.pixelRatio
    case Some(p) => if p != 0.0 then p else getPixelRatio(props)
    case None => getPixelRatio(props)
  }

  /** The first of pixel ratio, width and height, checked in that order, that is not strictly positive. */
  function FirstNonPositive(pixelRatio: real, width: real, height: real): (r: Option<Field>)
    ensures r.None? <==> pixelRatio > 0.0 && width > 0.0 && height > 0.0
    ensures r == Some(PixelRatio) <==> pixelRatio <= 0.0
    ensures r == Some(Width) <==> pixelRatio > 0.0 && width <= 0.0
    ensures r == Some(Height) <==> pixelRatio > 0.0 && width > 0.0 && height <= 0.0
  {
    if pixelRatio <= 0.0 then Some(PixelRatio)
    else if width <= 0.0 then Some(Width)
    else if height <= 0.0 then Some(Height)
    else None
  }

  /**
   * Wraps a shader-compile callback with the render's token. A falsy callback is returned as it is and
   * nothing is installed.
   */
  function Decorate(onShaderCompile: Option<ShaderCompileCallback>, surface: nat, token: nat): (r: Option<Decorated>)
    ensures r.None? <==> onShaderCompile.None?
    ensures r.Some? ==> r.value.original == onShaderCompile.value && r.value.surface == surface && r.value.token == token
  {
    match onShaderCompile
    case None => None
    case Some(cb) => Some(Decorated(cb, surface, token))
  }

  /**
   * Everything `render` does before the pipeline: the checks on the props and the GL-node lookup. On
   * success, the request the pipeline receives.
   */
  function BuildRequestOf(
    id: nat, token: nat, props: Props, getPixelRatio: Props -> real,
    findGLNode: (Children, Context) -> Option<GLNodeLookup>): (r: Result<BuildRequest, SurfaceError>)
    ensures var pr := EffectivePixelRatio(props, getPixelRatio);
            FirstNonPositive(pr, props.width, props.height).Some? ==>
              r == Failure(NotStrictlyPositive(FirstNonPositive(pr, props.width, props.height).value))
    ensures var pr := EffectivePixelRatio(props, getPixelRatio);
            var found := findGLNode(props.children, Context(props.width, props.height, pr));
            r.Success? <==>
              FirstNonPositive(pr, props.width, props.height).None? && found.Some? && found.value.childGLNode.Some?
    ensures r.Failure? ==> r.error.NotStrictlyPositive? || r.error.NoGLNode?
    ensures FirstNonPositive(EffectivePixelRatio(props, getPixelRatio), props.width, props.height).None? && r.Failure? ==>
              r.error == NoGLNode
    ensures var found := findGLNode(props.children, Context(props.width, props.height, EffectivePixelRatio(props, getPixelRatio)));
            r.Success? ==> found.Some? && r.value.node == found.value.childGLNode.value && r.value.via == found.value.via
    ensures r.Success? ==>
              r.value.context.width > 0.0 && r.value.context.height > 0.0 && r.value.context.pixelRatio > 0.0
              && r.value.context == Context(props.width, props.height, EffectivePixelRatio(props, getPixelRatio))
              && r.value.surfaceId == id && r.value.renderToken == token && r.value.preload == props.preload
  {
    var pixelRatio := EffectivePixelRatio(props, getPixelRatio);
    match FirstNonPositive(pixelRatio, props.width, props.height)
    case Some(field) => Failure(NotStrictlyPositive(field))
    case None =>
      var context := Context(props.width, props.height, pixelRatio);
      match findGLNode(props.children, context)
      case None => Failure(NoGLNode)
      case Some(glNode) =>
        match glNode.childGLNode
        case None => Failure(NoGLNode)
        case Some(node) => Success(BuildRequest(node, context, props.preload, glNode.via, id, token))
  }

  /** The `renderVcontent` arguments: one per content subtree, numbered from 0, sized like the data. */
  function ContentsOf(resolved: Resolved, visibleContent: bool): (cs: seq<ContentProps>)
    ensures |cs| == |resolved.contentsVDOM|
    ensures forall i :: 0 <= i < |cs| ==>
              cs[i] == ContentProps(resolved.data.width, resolved.data.height, i, resolved.contentsVDOM[i], visibleContent)
  {
    seq(|resolved.contentsVDOM|, i requires 0 <= i < |resolved.contentsVDOM| =>
      ContentProps(resolved.data.width, resolved.data.height, i, resolved.contentsVDOM[i], visibleContent))
  }

  /**
   * The descriptors handed to the backend once the pipeline has produced `resolved`: the container gets
   * the layout props, and the GL descriptor gets the props `render` did not destructure together with
   * the size, the pixel ratio in effect, the resolved data and the render's token.
   */
  function Output(props: Props, pixelRatio: real, token: nat, resolved: Resolved): (r: Rendered)
    ensures r.container.width == props.width && r.container.height == props.height
    ensures r.container.style == props.style
    ensures r.container.visibleContent == props.visibleContent && r.container.eventsThrough == props.eventsThrough
    ensures r.contents == ContentsOf(resolved, props.visibleContent)
    ensures r.gl.rest == props.rest && r.gl.width == props.width && r.gl.height == props.height
    ensures r.gl.pixelRatio == pixelRatio && r.gl.data == resolved.data && r.gl.renderId == token
    ensures r.gl.nbContentTextures == |resolved.contentsVDOM| && r.gl.imagesToPreload == resolved.imagesToPreload
    ensures r.gl.isOpaque == props.isOpaque && r.gl.visibleContent == props.visibleContent
    ensures r.gl.eventsThrough == props.eventsThrough
  {
    Rendered(
      ContainerProps(props.width, props.height, props.style, props.visibleContent, props.eventsThrough),
      ContentsOf(resolved, props.visibleContent),
      GLProps(
        props.rest, props.width, props.height, pixelRatio, resolved.data, |resolved.contentsVDOM|,
        resolved.imagesToPreload, token, props.isOpaque, props.visibleContent, props.eventsThrough))
  }

  /**
   * One render of surface `id` whose counter has just been bumped to `token`: the result and the
   * notifications sent to the coordinator.
   */
  function RenderStep(
    id: nat, token: nat, props: Props, getPixelRatio: Props -> real,
    findGLNode: (Children, Context) -> Option<GLNodeLookup>,
    pipeline: BuildRequest -> Result<Resolved, PipelineError>): (s: Step)
    // the build is reached exactly when the checks and the lookup pass; otherwise nothing is notified
    ensures s.events != [] <==> BuildRequestOf(id, token, props, getPixelRatio, findGLNode).Success?
    ensures s.events == [] || s.events == [Event.BeforeSurfaceBuild(id), Event.AfterSurfaceBuild(id)]
    ensures Bracketed(s.events)
    ensures var q := BuildRequestOf(id, token, props, getPixelRatio, findGLNode);
            q.Failure? ==> s.result == Failure(q.error)
    // a pipeline failure is reported unchanged, after the "after build" notification
    ensures var q := BuildRequestOf(id, token, props, getPixelRatio, findGLNode);
            q.Success? && pipeline(q.value).Failure? ==> s.result == Failure(Thrown(pipeline(q.value).error))
    ensures var q := BuildRequestOf(id, token, props, getPixelRatio, findGLNode);
            s.result.Success? <==> q.Success? && pipeline(q.value).Success?
    // what a successful render hands to the GL backend
    ensures s.result.Success? ==>
              var q := BuildRequestOf(id, token, props, getPixelRatio, findGLNode);
              var resolved := pipeline(q.value).value;
              var gl := s.result.value.gl;
              s.result.value == Output(props, q.value.context.pixelRatio, token, resolved)
              && gl.renderId == token
              && gl.nbContentTextures == |resolved.contentsVDOM| == |s.result.value.contents|
              && gl.data == resolved.data && gl.imagesToPreload == resolved.imagesToPreload
              && gl.width == props.width > 0.0 && gl.height == props.height > 0.0
              && gl.pixelRatio == q.value.context.pixelRatio > 0.0
              && (forall i :: 0 <= i < |s.result.value.contents| ==>
                    s.result.value.contents[i].index == i && s.result.value.contents[i].vdom == resolved.contentsVDOM[i])
  {
    match BuildRequestOf(id, token, props, getPixelRatio, findGLNode)
    case Failure(e) => Step(Failure(e), [])
    case Success(q) =>
      var events := [Event.BeforeSurfaceBuild(id), Event.AfterSurfaceBuild(id)];
      match pipeline(q)
      case Failure(e) => Step(Failure(Thrown(e)), events)
      case Success(resolved) => Step(Success(Output(props, q.context.pixelRatio, token, resolved)), events)
  }

  /**
   * A zero `pixelRatio` prop is falsy, so it does not fail the check: the backend's pixel ratio is
   * checked in its place.
   */
  lemma ZeroPixelRatioPropFallsBack(props: Props, getPixelRatio: Props -> real)
    requires props.pixelRatio == Some(0.0)
    ensures EffectivePixelRatio(props, getPixelRatio) == getPixelRatio(props)
    ensures getPixelRatio(props) > 0.0 ==>
              FirstNonPositive(EffectivePixelRatio(props, getPixelRatio), props.width, props.height) != Some(PixelRatio)
  {
  }
}
